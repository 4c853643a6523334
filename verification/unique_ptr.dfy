/**
  The `UniquePtr<T>` class template as pure transitions over a state that
  records every live UniquePtr object together with its `m_ptr`, and the log
  of every `delete` performed so far.

  A pointer names one allocation, an address together with the lifetime of
  the object at it, and is never reused; `None` is `nullptr`. An owner id is
  the identity (`this`) of one UniquePtr object, so the self-check of the
  move assignment is a comparison of owner ids.
 */
module UniquePtr {
  import opened Wrappers

  /** One allocation of a `T`: an address for one object's lifetime. An
      address that `new` hands out again after a `delete` is a different
      `Ptr`. */
  type Ptr = nat

  /** The identity of one UniquePtr object (its address, `this`). */
  type OwnerId = nat

  /** `slots` maps each live UniquePtr object to its `m_ptr`; `freed` lists
      the addresses passed to `delete`, oldest first. */
  datatype State = State(slots: map<OwnerId, Option<Ptr>>, freed: seq<Ptr>)

  /** `delete p`: deleting null does nothing, deleting an address logs it once. */
  function Delete(p: Option<Ptr>): (log: seq<Ptr>)
    ensures p.None? <==> log == []
    ensures forall x :: p == Some(x) ==> log == [x]
  {
    match p
    case None => []
    case Some(x) => [x]
  }

  /** Every address currently held by some live owner. */
  function Held(s: State): set<Ptr>
  {
    set o | o in s.slots && s.slots[o].Some? :: s.slots[o].value
  }

  /** Every live owner outside `ids` is still live and holds what it held. */
  ghost predicate OthersUnchanged(s: State, r: State, ids: set<OwnerId>)
  {
    forall o :: o in s.slots && o !in ids ==> o in r.slots && r.slots[o] == s.slots[o]
  }

  /** `get()`: the owner's pointer, null when it is empty; state is untouched. */
  function Get(s: State, id: OwnerId): (p: Option<Ptr>)
    requires id in s.slots
    ensures Elements(p) <= Held(s)
  {
    s.slots[id]
  }

  /** `UniquePtr(p)`: a new object bound to `p` (null for the default
      argument); nothing is allocated and nothing is freed. */
  function Construct(s: State, id: OwnerId, p: Option<Ptr>): (r: State)
    requires id !in s.slots
    ensures r.slots.Keys == s.slots.Keys + {id}
    ensures Get(r, id) == p
    ensures OthersUnchanged(s, r, {id})
    ensures r.freed == s.freed
  {
    State(s.slots[id := p], s.freed)
  }

  /** `~UniquePtr()`: the object disappears and its pointer, if any, is
      deleted exactly once; an empty owner frees nothing. */
  function Destruct(s: State, id: OwnerId): (r: State)
    requires id in s.slots
    ensures r.slots.Keys == s.slots.Keys - {id}
    ensures OthersUnchanged(s, r, {id})
    ensures Get(s, id).None? ==> r.freed == s.freed
    ensures forall x :: Get(s, id) == Some(x) ==> r.freed == s.freed + [x]
  {
    State(s.slots - {id}, s.freed + Delete(s.slots[id]))
  }

  /** `UniquePtr(UniquePtr&& other)`: the new object takes exactly what
      `other` held, `other` becomes null, and nothing is freed. */
  function MoveConstruct(s: State, id: OwnerId, other: OwnerId): (r: State)
    requires id !in s.slots && other in s.slots
    ensures r.slots.Keys == s.slots.Keys + {id}
    ensures Get(r, id) == Get(s, other)
    ensures Get(r, other) == None
    ensures OthersUnchanged(s, r, {id, other})
    ensures r.freed == s.freed
  {
    State(s.slots[id := s.slots[other]][other := None], s.freed)
  }

  /** `operator=(UniquePtr&& other)`. Between distinct objects the old
      pointer of `id` is deleted once (nothing if it was null), `id` takes
      what `other` held and `other` becomes null; self-assignment changes
      nothing and frees nothing. */
  function MoveAssign(s: State, id: OwnerId, other: OwnerId): (r: State)
    requires id in s.slots && other in s.slots
    ensures r.slots.Keys == s.slots.Keys
    ensures id == other ==> r == s
    ensures id != other ==> Get(r, id) == Get(s, other) && Get(r, other) == None
    ensures id != other && Get(s, id).None? ==> r.freed == s.freed
    ensures forall x :: id != other && Get(s, id) == Some(x) ==> r.freed == s.freed + [x]
    ensures OthersUnchanged(s, r, {id, other})
  {
    if id != other then
      State(s.slots[id := s.slots[other]][other := None], s.freed + Delete(s.slots[id]))
    else
      s
  }

  /** `operator->()`: the raw pointer, through which the caller reaches a
      member of the managed object. It does not check for null itself;
      reaching through a null result is the caller's undefined behaviour. */
  function Arrow(s: State, id: OwnerId): (p: Option<Ptr>)
    requires id in s.slots
    ensures p == Get(s, id)
    ensures Elements(p) <= Held(s)
  {
    s.slots[id]
  }

  /** `operator*()`: the managed object, identified here by its address;
      dereferencing an empty owner is undefined, so it is required away. */
  function Deref(s: State, id: OwnerId): (p: Ptr)
    requires id in s.slots && s.slots[id].Some?
    ensures Get(s, id) == Some(p)
    ensures p in Held(s)
  {
    Arrow(s, id).value
  }

  /** `reset(p)`: when `p` is the pointer already held the state is left
      exactly as it was; otherwise the old pointer is deleted once (nothing
      if it was null) and the owner holds `p`. */
  function Reset(s: State, id: OwnerId, p: Option<Ptr>): (r: State)
    requires id in s.slots
    ensures r.slots.Keys == s.slots.Keys
    ensures Get(r, id) == p
    ensures Get(s, id) == p ==> r == s
    ensures Get(s, id) != p && Get(s, id).None? ==> r.freed == s.freed
    ensures forall x :: Get(s, id) != p && Get(s, id) == Some(x) ==> r.freed == s.freed + [x]
    ensures OthersUnchanged(s, r, {id})
  {
    if s.slots[id] != p then
      State(s.slots[id := p], s.freed + Delete(s.slots[id]))
    else
      s
  }

  /** `release()`: hands back the pointer held before the call and leaves
      the owner null, without freeing anything. */
  function Release(s: State, id: OwnerId): (r: (State, Option<Ptr>))
    requires id in s.slots
    ensures r.1 == Get(s, id)
    ensures r.0.slots.Keys == s.slots.Keys
    ensures Get(r.0, id) == None
    ensures OthersUnchanged(s, r.0, {id})
    ensures r.0.freed == s.freed
  {
    (State(s.slots[id := None], s.freed), s.slots[id])
  }
}
