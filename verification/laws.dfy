/**
  Equations between the members of UniquePtr: the no-op cases guarded by the
  identity checks, and the pairs of members that undo each other. The
  second half shows what the two identity checks protect against, by
  stating the same members with the check removed.
 */
module Laws {
  import opened Wrappers
  import opened UniquePtr
  import opened Ownership

  /** `x = std::move(x)` changes nothing and frees nothing. This is the
      self-assignment clause of `MoveAssign`'s contract, stated as a law. */
  lemma SelfMoveIsNoOp(s: State, id: OwnerId)
    requires id in s.slots
    ensures MoveAssign(s, id, id) == s
  {
  }

  /** `reset(get())` changes nothing and frees nothing. This is the
      same-pointer clause of `Reset`'s contract, stated as a law. */
  lemma ResetToHeldIsNoOp(s: State, id: OwnerId)
    requires id in s.slots
    ensures Reset(s, id, Get(s, id)) == s
  {
  }

  /** Resetting twice to the same pointer frees no more than resetting once. */
  lemma ResetIdempotent(s: State, id: OwnerId, p: Option<Ptr>)
    requires id in s.slots
    ensures Reset(Reset(s, id, p), id, p) == Reset(s, id, p)
  {
  }

  /** `reset(release())` puts back exactly the state before the release. */
  lemma ResetUndoesRelease(s: State, id: OwnerId)
    requires id in s.slots
    ensures Reset(Release(s, id).0, id, Release(s, id).1) == s
  {
  }

  /** Moving an owner into a new object and straight back, then destroying
      the new, now empty, object restores the state and frees nothing. */
  lemma MoveThereAndBack(s: State, id: OwnerId, other: OwnerId)
    requires id !in s.slots && other in s.slots
    ensures Destruct(MoveAssign(MoveConstruct(s, id, other), other, id), id) == s
  {
  }

  /** Destroying a freshly constructed object deletes exactly what it was bound to. */
  lemma DestructUndoesConstruct(s: State, id: OwnerId, p: Option<Ptr>)
    requires id !in s.slots
    ensures Destruct(Construct(s, id, p), id) == State(s.slots, s.freed + Delete(p))
  {
  }

  /** `reset` with the `m_ptr != p` test left out. */
  function UncheckedReset(s: State, id: OwnerId, p: Option<Ptr>): (r: State)
    requires id in s.slots
    ensures r.slots.Keys == s.slots.Keys
    ensures Get(r, id) == p
    ensures forall x :: Get(s, id) == Some(x) ==> r.freed == s.freed + [x]
  {
    State(s.slots[id := p], s.freed + Delete(s.slots[id]))
  }

  /** Without the identity test, `reset(get())` on a non-empty owner leaves
      it holding a deleted address, and destroying it then deletes that
      address a second time. */
  lemma ResetNeedsIdentityCheck(s: State, id: OwnerId)
    requires id in s.slots && Get(s, id).Some?
    ensures !NoDangling(UncheckedReset(s, id, Get(s, id)))
    ensures !NoDoubleFree(Destruct(UncheckedReset(s, id, Get(s, id)), id))
  {
    var x := Get(s, id).value;
    var r := UncheckedReset(s, id, Get(s, id));
    assert r.freed[|s.freed|] == x;
    var d := Destruct(r, id);
    assert d.freed[|s.freed|] == x && d.freed[|s.freed| + 1] == x;
  }

  /** Move assignment with the `this != &other` test left out. */
  function UncheckedMoveAssign(s: State, id: OwnerId, other: OwnerId): (r: State)
    requires id in s.slots && other in s.slots
    ensures r.slots.Keys == s.slots.Keys
    ensures Get(r, other) == None
    ensures forall x :: Get(s, id) == Some(x) ==> r.freed == s.freed + [x]
  {
    State(s.slots[id := s.slots[other]][other := None], s.freed + Delete(s.slots[id]))
  }

  /** Without the self test, `x = std::move(x)` deletes the only referent and
      leaves `x` empty, whereas the checked member keeps it. */
  lemma SelfMoveNeedsCheck(s: State, id: OwnerId)
    requires id in s.slots && Get(s, id).Some?
    ensures Get(UncheckedMoveAssign(s, id, id), id) == None
    ensures UncheckedMoveAssign(s, id, id).freed == s.freed + [Get(s, id).value]
    ensures Get(MoveAssign(s, id, id), id) == Get(s, id)
  {
  }
}
