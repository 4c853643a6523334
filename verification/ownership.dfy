/**
  The exclusive-ownership invariant of a collection of UniquePtr objects,
  and the proof that every member of the class template preserves it when
  callers only bind fresh addresses. The same facts give the accounting of
  addresses: an address leaves the care of the owners only through
  `release()`.
 */
module Ownership {
  import opened Wrappers
  import opened UniquePtr

  /** No two live owners hold the same non-null address. */
  ghost predicate NoAlias(s: State)
  {
    forall a, b :: a in s.slots && b in s.slots && a != b && s.slots[a].Some? ==> s.slots[a] != s.slots[b]
  }

  /** No address appears twice in the log of deletes. */
  ghost predicate NoDoubleFree(s: State)
  {
    forall i, j :: 0 <= i < j < |s.freed| ==> s.freed[i] != s.freed[j]
  }

  /** No live owner holds an address that has already been deleted. */
  ghost predicate NoDangling(s: State)
  {
    forall o, i :: o in s.slots && 0 <= i < |s.freed| ==> s.slots[o] != Some(s.freed[i])
  }

  ghost predicate Valid(s: State)
  {
    NoAlias(s) && NoDoubleFree(s) && NoDangling(s)
  }

  /** The caller's side of the contract: what is bound is null, or an
      address that no owner holds and that has not been deleted. */
  ghost predicate Fresh(s: State, p: Option<Ptr>)
  {
    p.Some? ==> p.value !in Held(s) && p.value !in s.freed
  }

  /** Every address the owners are answerable for: held now, or deleted. */
  function Accounted(s: State): set<Ptr>
  {
    Held(s) + set i | 0 <= i < |s.freed| :: s.freed[i]
  }

  /** An address held by a live owner is in `Held`. */
  lemma HeldAt(s: State, o: OwnerId)
    requires o in s.slots && s.slots[o].Some?
    ensures s.slots[o].value in Held(s)
  {
  }

  /** Binding a new object to a fresh address keeps the invariant. */
  lemma ConstructPreservesValid(s: State, id: OwnerId, p: Option<Ptr>)
    requires Valid(s) && id !in s.slots && Fresh(s, p)
    ensures Valid(Construct(s, id, p))
  {
  }

  /** The address a destructor deletes was never deleted before and no other owner holds it. */
  lemma DestructPreservesValid(s: State, id: OwnerId)
    requires Valid(s) && id in s.slots
    ensures Valid(Destruct(s, id))
  {
  }

  /** Nulling the source keeps the two objects from sharing the address. */
  lemma MoveConstructPreservesValid(s: State, id: OwnerId, other: OwnerId)
    requires Valid(s) && id !in s.slots && other in s.slots
    ensures Valid(MoveConstruct(s, id, other))
  {
  }

  /** Move assignment keeps the invariant, self-assignment included. */
  lemma MoveAssignPreservesValid(s: State, id: OwnerId, other: OwnerId)
    requires Valid(s) && id in s.slots && other in s.slots
    ensures Valid(MoveAssign(s, id, other))
  {
  }

  /** Resetting to a fresh address, or to the one already held, keeps the invariant. */
  lemma ResetPreservesValid(s: State, id: OwnerId, p: Option<Ptr>)
    requires Valid(s) && id in s.slots && (p == Get(s, id) || Fresh(s, p))
    ensures Valid(Reset(s, id, p))
  {
  }

  /** Releasing keeps the invariant; the returned address is the caller's from now on. */
  lemma ReleasePreservesValid(s: State, id: OwnerId)
    requires Valid(s) && id in s.slots
    ensures Valid(Release(s, id).0)
  {
  }

  /** The addresses in the log of deletes, as a set. */
  lemma FreedSet(s: State, r: State, extra: seq<Ptr>)
    requires r.freed == s.freed + extra
    ensures (set i | 0 <= i < |r.freed| :: r.freed[i])
         == (set i | 0 <= i < |s.freed| :: s.freed[i]) + (set i | 0 <= i < |extra| :: extra[i])
  {
    var L := set i | 0 <= i < |r.freed| :: r.freed[i];
    var R := (set i | 0 <= i < |s.freed| :: s.freed[i]) + (set i | 0 <= i < |extra| :: extra[i]);
    forall x | x in L ensures x in R {
      var i :| 0 <= i < |r.freed| && r.freed[i] == x;
      if i < |s.freed| { assert s.freed[i] == x; } else { assert extra[i - |s.freed|] == x; }
    }
    forall x | x in R ensures x in L {
      if x in set i | 0 <= i < |s.freed| :: s.freed[i] {
        var i :| 0 <= i < |s.freed| && s.freed[i] == x;
        assert r.freed[i] == x;
      } else {
        var i :| 0 <= i < |extra| && extra[i] == x;
        assert r.freed[|s.freed| + i] == x;
      }
    }
  }

  /** Construction adds the bound address to what the owners answer for. */
  lemma ConstructAccounts(s: State, id: OwnerId, p: Option<Ptr>)
    requires id !in s.slots
    ensures Accounted(Construct(s, id, p)) == Accounted(s) + Elements(p)
  {
  }

  /** Destruction loses no address: the one it held moves to the log. */
  lemma DestructAccounts(s: State, id: OwnerId)
    requires id in s.slots
    ensures Accounted(Destruct(s, id)) == Accounted(s)
  {
    var r := Destruct(s, id);
    FreedSet(s, r, Delete(s.slots[id]));
    forall x | x in Held(r) ensures x in Held(s) {
      var o :| o in r.slots && r.slots[o] == Some(x);
      HeldAt(s, o);
    }
    forall x | x in Held(s) ensures x in Accounted(r) {
      var o :| o in s.slots && s.slots[o] == Some(x);
      if o == id { assert Delete(s.slots[id])[0] == x; } else { HeldAt(r, o); }
    }
  }

  /** A move construction only relocates an address. */
  lemma MoveConstructAccounts(s: State, id: OwnerId, other: OwnerId)
    requires id !in s.slots && other in s.slots
    ensures Accounted(MoveConstruct(s, id, other)) == Accounted(s)
  {
  }

  /** A move assignment relocates one address and logs the one it replaced. */
  lemma MoveAssignAccounts(s: State, id: OwnerId, other: OwnerId)
    requires id in s.slots && other in s.slots
    ensures Accounted(MoveAssign(s, id, other)) == Accounted(s)
  {
    if id != other {
      var r := MoveAssign(s, id, other);
      FreedSet(s, r, Delete(s.slots[id]));
      forall x | x in Held(r) ensures x in Held(s) {
        var o :| o in r.slots && r.slots[o] == Some(x);
        if o == id { HeldAt(s, other); } else { HeldAt(s, o); }
      }
      forall x | x in Held(s) ensures x in Accounted(r) {
        var o :| o in s.slots && s.slots[o] == Some(x);
        if o == other { HeldAt(r, id); }
        else if o == id { assert Delete(s.slots[id])[0] == x; }
        else { HeldAt(r, o); }
      }
    }
  }

  /** A reset adds the bound address and logs the one it replaced. */
  lemma ResetAccounts(s: State, id: OwnerId, p: Option<Ptr>)
    requires id in s.slots
    ensures Accounted(Reset(s, id, p)) == Accounted(s) + Elements(p)
  {
    var r := Reset(s, id, p);
    if s.slots[id] == p {
      if p.Some? { HeldAt(s, id); }
    } else {
      FreedSet(s, r, Delete(s.slots[id]));
      forall x | x in Held(r) ensures x in Held(s) + Elements(p) {
        var o :| o in r.slots && r.slots[o] == Some(x);
        if o != id { HeldAt(s, o); }
      }
      forall x | x in Held(s) + Elements(p) ensures x in Accounted(r) {
        if x in Held(s) {
          var o :| o in s.slots && s.slots[o] == Some(x);
          if o == id { assert Delete(s.slots[id])[0] == x; } else { HeldAt(r, o); }
        } else {
          HeldAt(r, id);
        }
      }
    }
  }

  /** A release removes exactly the returned address from the owners' care;
      in a valid state no owner holds it and it has not been deleted, so the
      owners never delete it unless it is bound again. */
  lemma ReleaseAccounts(s: State, id: OwnerId)
    requires id in s.slots
    ensures Accounted(Release(s, id).0) + Elements(Release(s, id).1) == Accounted(s)
    ensures Valid(s) ==> Elements(Release(s, id).1) !! Accounted(Release(s, id).0)
  {
  }
}
