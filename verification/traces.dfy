/**
  Arbitrary sequences of UniquePtr member calls over many objects, and the
  whole-program guarantees: the ownership invariant holds after every
  sequence whose caller binds only fresh addresses, no address is deleted
  twice, and once every object is destroyed each address the owners were
  given, and did not hand back through `release()`, has been deleted
  exactly once.
 */
module Traces {
  import opened Wrappers
  import opened UniquePtr
  import opened Ownership

  /** One call of a UniquePtr member that changes state. */
  datatype Op =
    | New(id: OwnerId, p: Option<Ptr>)          // UniquePtr<T> id(p);
    | Drop(id: OwnerId)                         // end of id's lifetime
    | MoveNew(id: OwnerId, other: OwnerId)      // UniquePtr<T> id(std::move(other));
    | MoveInto(id: OwnerId, other: OwnerId)     // id = std::move(other);
    | ResetTo(id: OwnerId, p: Option<Ptr>)      // id.reset(p);
    | ReleaseFrom(id: OwnerId)                  // id.release();

  /** The objects a call names are alive, and a constructed one is not yet. */
  predicate Enabled(s: State, op: Op)
  {
    match op
    case New(id, _) => id !in s.slots
    case Drop(id) => id in s.slots
    case MoveNew(id, other) => id !in s.slots && other in s.slots
    case MoveInto(id, other) => id in s.slots && other in s.slots
    case ResetTo(id, _) => id in s.slots
    case ReleaseFrom(id) => id in s.slots
  }

  /** The caller binds only fresh addresses; `reset` may also re-supply the held one. */
  ghost predicate Disciplined(s: State, op: Op)
    requires Enabled(s, op)
  {
    match op
    case New(_, p) => Fresh(s, p)
    case ResetTo(id, p) => p == Get(s, id) || Fresh(s, p)
    case _ => true
  }

  function Apply(s: State, op: Op): State
    requires Enabled(s, op)
  {
    match op
    case New(id, p) => Construct(s, id, p)
    case Drop(id) => Destruct(s, id)
    case MoveNew(id, other) => MoveConstruct(s, id, other)
    case MoveInto(id, other) => MoveAssign(s, id, other)
    case ResetTo(id, p) => Reset(s, id, p)
    case ReleaseFrom(id) => Release(s, id).0
  }

  /** The address a call hands back to its caller: only `release()` does. */
  function Returned(s: State, op: Op): Option<Ptr>
    requires Enabled(s, op)
  {
    match op
    case ReleaseFrom(id) => Release(s, id).1
    case _ => None
  }

  /** The address a call binds, if any. */
  function Binds(op: Op): Option<Ptr>
  {
    match op
    case New(_, p) => p
    case ResetTo(_, p) => p
    case _ => None
  }

  lemma StepPreservesValid(s: State, op: Op)
    requires Valid(s) && Enabled(s, op) && Disciplined(s, op)
    ensures Valid(Apply(s, op))
  {
  }

  /** Every call keeps the owners answerable for what they held, plus what
      it binds, minus what it hands back; and nothing else. */
  lemma StepAccounts(s: State, op: Op)
    requires Enabled(s, op)
    ensures Accounted(s) + Elements(Binds(op)) <= Accounted(Apply(s, op)) + Elements(Returned(s, op))
    ensures Accounted(Apply(s, op)) <= Accounted(s) + Elements(Binds(op))
  {
    match op
    case New(id, p) => ConstructAccounts(s, id, p);
    case Drop(id) => DestructAccounts(s, id);
    case MoveNew(id, other) => MoveConstructAccounts(s, id, other);
    case MoveInto(id, other) => MoveAssignAccounts(s, id, other);
    case ResetTo(id, p) => ResetAccounts(s, id, p);
    case ReleaseFrom(id) => ReleaseAccounts(s, id);
  }

  predicate Runnable(s: State, ops: seq<Op>)
    decreases |ops|
  {
    ops == [] || (Enabled(s, ops[0]) && Runnable(Apply(s, ops[0]), ops[1..]))
  }

  ghost predicate Legal(s: State, ops: seq<Op>)
    requires Runnable(s, ops)
    decreases |ops|
  {
    ops == [] || (Disciplined(s, ops[0]) && Legal(Apply(s, ops[0]), ops[1..]))
  }

  /** The state after the calls `ops`, in order; a delete, once logged, stays logged. */
  function Run(s: State, ops: seq<Op>): (r: State)
    requires Runnable(s, ops)
    ensures s.freed <= r.freed
    decreases |ops|
  {
    if ops == [] then s else Run(Apply(s, ops[0]), ops[1..])
  }

  /** Every address some call of `ops` binds. */
  function Bound(ops: seq<Op>): set<Ptr>
    decreases |ops|
  {
    if ops == [] then {} else Elements(Binds(ops[0])) + Bound(ops[1..])
  }

  /** Every address a `release()` in `ops` hands back and no later call
      binds again: the addresses left in the caller's care. An address
      passed on with `b.reset(a.release())` is not among them. */
  function Outstanding(s: State, ops: seq<Op>): set<Ptr>
    requires Runnable(s, ops)
    decreases |ops|
  {
    if ops == [] then {}
    else (Elements(Returned(s, ops[0])) - Bound(ops[1..])) + Outstanding(Apply(s, ops[0]), ops[1..])
  }

  /** After any sequence of calls whose caller binds only fresh addresses,
      no two owners share an address, no owner holds a deleted address, and
      no address has been deleted twice. */
  lemma {:induction false} RunPreservesValid(s: State, ops: seq<Op>)
    requires Valid(s) && Runnable(s, ops) && Legal(s, ops)
    ensures Valid(Run(s, ops))
    decreases |ops|
  {
    if ops != [] {
      StepPreservesValid(s, ops[0]);
      RunPreservesValid(Apply(s, ops[0]), ops[1..]);
    }
  }

  /** No address goes missing: what the owners answered for, or were given,
      is afterwards held, deleted, or was handed back by `release()` and not
      bound again. And no
      address comes from nowhere: the component allocates nothing. */
  lemma {:induction false} RunAccounts(s: State, ops: seq<Op>)
    requires Runnable(s, ops)
    ensures Accounted(s) + Bound(ops) <= Accounted(Run(s, ops)) + Outstanding(s, ops)
    ensures Accounted(Run(s, ops)) <= Accounted(s) + Bound(ops)
    decreases |ops|
  {
    if ops != [] {
      StepAccounts(s, ops[0]);
      RunAccounts(Apply(s, ops[0]), ops[1..]);
    }
  }

  /** A log without repeats holds each of its addresses exactly once. */
  lemma {:induction false} OccursOnce(log: seq<Ptr>, x: Ptr)
    requires forall i, j :: 0 <= i < j < |log| ==> log[i] != log[j]
    requires x in log
    ensures multiset(log)[x] == 1
  {
    if log[0] == x {
      assert x !in log[1..];
    } else {
      OccursOnce(log[1..], x);
    }
    assert log == [log[0]] + log[1..];
  }

  /** Once every object is destroyed, each address the owners were
      answerable for or were given, and that was not left in the caller's
      care by a `release()`, has been deleted exactly once. */
  lemma ExactlyOnce(s: State, ops: seq<Op>, x: Ptr)
    requires Valid(s) && Runnable(s, ops) && Legal(s, ops)
    requires Run(s, ops).slots == map[]
    requires x in Accounted(s) + Bound(ops) && x !in Outstanding(s, ops)
    ensures multiset(Run(s, ops).freed)[x] == 1
  {
    var r := Run(s, ops);
    RunPreservesValid(s, ops);
    RunAccounts(s, ops);
    assert Held(r) == {};
    var i :| 0 <= i < |r.freed| && r.freed[i] == x;
    OccursOnce(r.freed, x);
  }

  /** The demonstration program: Foo(42) moved from ptr1 (id 1) into ptr2
      (id 2), Foo(43) owned by ptr3 (id 3), then ptr3 = std::move(ptr2), and
      the three objects destroyed in reverse order at the end of scope.
      Addresses are named after the Foo values they hold. */
  lemma DemoScenario()
    ensures var s0 := State(map[], []);
      var s1 := Construct(s0, 1, Some(42));
      var s2 := MoveConstruct(s1, 2, 1);
      var s3 := Construct(s2, 3, Some(43));
      var s4 := MoveAssign(s3, 3, 2);
      var s5 := Destruct(Destruct(Destruct(s4, 3), 2), 1);
      && Get(s2, 1) == None && Get(s2, 2) == Some(42)
      && Get(s4, 3) == Some(42) && Get(s4, 2) == None && s4.freed == [43]
      && s5.slots == map[] && s5.freed == [43, 42]
  {
  }

  /** The trace functions on a sequence that starts with `op`. */
  lemma Unfold(s: State, op: Op, rest: seq<Op>)
    requires Enabled(s, op) && Runnable(Apply(s, op), rest)
    ensures Runnable(s, [op] + rest)
    ensures Legal(s, [op] + rest) <==> Disciplined(s, op) && Legal(Apply(s, op), rest)
    ensures Run(s, [op] + rest) == Run(Apply(s, op), rest)
    ensures Bound([op] + rest) == Elements(Binds(op)) + Bound(rest)
    ensures Outstanding(s, [op] + rest)
         == (Elements(Returned(s, op)) - Bound(rest)) + Outstanding(Apply(s, op), rest)
  {
    assert ([op] + rest)[1..] == rest;
  }

  /** The last three calls of `TransferByReleaseScenario`: owner 2 takes
      address 5 by `reset`, then both owners are destroyed. */
  lemma RebindAndDrop(s3: State)
    requires s3 == State(map[1 := None, 2 := None], [])
    ensures var t3 := [ResetTo(2, Some(5)), Drop(1), Drop(2)];
      && Runnable(s3, t3) && Legal(s3, t3) && Outstanding(s3, t3) == {}
      && Bound(t3) == {5} && Run(s3, t3) == State(map[], [5])
  {
    var s4 := State(map[1 := None, 2 := Some(5)], []);
    var s5 := State(map[2 := Some(5)], []);
    var s6 := State(map[], [5]);
    assert Apply(s5, Drop(2)) == s6 by { assert (s5.slots - {2}) == map[]; }
    Unfold(s5, Drop(2), []);
    assert Apply(s4, Drop(1)) == s5 by { assert (s4.slots - {1}) == s5.slots; }
    Unfold(s4, Drop(1), [Drop(2)]);
    assert Apply(s3, ResetTo(2, Some(5))) == s4 by { assert s3.slots[2 := Some(5)] == s4.slots; }
    assert Fresh(s3, Some(5)) by {
      assert forall o :: o in s3.slots ==> s3.slots[o] == None;
    }
    Unfold(s3, ResetTo(2, Some(5)), [Drop(1), Drop(2)]);
    assert [ResetTo(2, Some(5))] + [Drop(1), Drop(2)] == [ResetTo(2, Some(5)), Drop(1), Drop(2)];
  }

  /** Ownership passed on with `b.reset(a.release())`: the released address
      is bound again, so it stays covered by `ExactlyOnce`, and leaving the
      scope deletes it exactly once. */
  lemma TransferByReleaseScenario()
    ensures var s0 := State(map[], []);
      var ops := [New(1, Some(5)), New(2, None), ReleaseFrom(1), ResetTo(2, Some(5)), Drop(1), Drop(2)];
      && Runnable(s0, ops) && Legal(s0, ops)
      && Outstanding(s0, ops) == {}
      && Run(s0, ops) == State(map[], [5])
  {
    var s0 := State(map[], []);
    var s1 := State(map[1 := Some(5)], []);
    var s2 := State(map[1 := Some(5), 2 := None], []);
    var s3 := State(map[1 := None, 2 := None], []);
    var t3 := [ResetTo(2, Some(5)), Drop(1), Drop(2)];
    RebindAndDrop(s3);
    assert Apply(s2, ReleaseFrom(1)) == s3 by { assert s2.slots[1 := None] == s3.slots; }
    Unfold(s2, ReleaseFrom(1), t3);
    assert Apply(s1, New(2, None)) == s2;
    Unfold(s1, New(2, None), [ReleaseFrom(1)] + t3);
    assert Apply(s0, New(1, Some(5))) == s1;
    assert Fresh(s0, Some(5)) by { assert s0.slots == map[]; }
    Unfold(s0, New(1, Some(5)), [New(2, None)] + ([ReleaseFrom(1)] + t3));
    assert [New(1, Some(5))] + ([New(2, None)] + ([ReleaseFrom(1)] + t3))
        == [New(1, Some(5)), New(2, None), ReleaseFrom(1), ResetTo(2, Some(5)), Drop(1), Drop(2)];
  }
}
