# UniquePtr in Dafny

A model of the `UniquePtr<T>` class template from `UniquePtr/main.cpp`: a
move-only smart pointer that exclusively owns one heap object and deletes
it when the owner is destroyed, move-assigned over or reset. Copying is
impossible, because the copy constructor and copy assignment are deleted.

The model treats a program's collection of UniquePtr objects as one
immutable `UniquePtr.State`:

- `slots` maps each live object, identified by its address (`this`), to its
  `m_ptr`. `None` stands for `nullptr`.
- `freed` is the log of every `delete`, oldest first. Deleting null adds
  nothing to it.

Each member of the class is a pure transition over this state. Calling a
member on an object requires that object to be alive. A constructor
requires the new object not to exist yet. The copy operations have no
counterpart, so no transition can duplicate an owner.

- `wrappers.dfy`: `Option`, plus the set of values an option carries.
- `unique_ptr.dfy`: the state and one function per member, each with a
  contract that says what it holds afterwards, what it frees, and that no
  other owner changes.
- `ownership.dfy`: the ownership invariant `Valid`. It means no two owners
  share an address, no owner holds a deleted address, and no address is
  deleted twice. Each member is proved to preserve it, provided the caller
  binds only fresh addresses. Also the address accounting of each member.
- `laws.dfy`: the no-op cases that the two identity checks guard, pairs of
  members that undo each other, and what goes wrong when a check is left out.
- `traces.dfy`: arbitrary sequences of calls. The invariant holds after any
  disciplined sequence, and no address is lost or invented. Once every
  object is destroyed, every owned address has been deleted exactly once,
  unless a release left it with the caller and it was never bound again. The demonstration program's sequence is included
  as a worked scenario.

## Model

| member | source | states |
|---|---|---|
| UniquePtr.Delete | UniquePtr/main.cpp:15 | deleting null logs nothing; deleting an address logs it exactly once |
| UniquePtr.Construct | UniquePtr/main.cpp:11 | the new object holds the supplied pointer (null when the default is used); no other owner changes and nothing is freed |
| UniquePtr.Destruct | UniquePtr/main.cpp:14-16 | the object disappears; its pointer is deleted exactly once, an empty owner frees nothing, other owners are untouched |
| UniquePtr.MoveConstruct | UniquePtr/main.cpp:23-25 | the new object holds exactly what the source held, the source becomes null, nothing is freed, no other owner changes |
| UniquePtr.MoveAssign | UniquePtr/main.cpp:29-36 | between distinct objects: the destination's old pointer is deleted once (nothing if null), the destination holds the source's old pointer, the source becomes null, others untouched; self-assignment leaves the whole state unchanged |
| UniquePtr.Deref | UniquePtr/main.cpp:39-41 | on a non-empty owner, yields the address of the managed object it holds |
| UniquePtr.Arrow | UniquePtr/main.cpp:44-46 | yields the raw pointer the owner holds (possibly null) and changes nothing |
| UniquePtr.Get | UniquePtr/main.cpp:49-51 | yields the owner's pointer, an address held by the owners or null; a pure observer |
| UniquePtr.Reset | UniquePtr/main.cpp:55-60 | the owner afterwards holds `p`; when `p` is already held the whole state is unchanged and nothing is freed, otherwise the old pointer is deleted once (nothing if null); others untouched |
| UniquePtr.Release | UniquePtr/main.cpp:63-67 | returns the pointer held before the call, leaves the owner null, frees nothing, changes no other owner |
| Ownership.ConstructPreservesValid | UniquePtr/main.cpp:11 | binding a fresh address keeps the ownership invariant |
| Ownership.DestructPreservesValid | UniquePtr/main.cpp:14-16 | destruction keeps the invariant: the deleted address was never deleted before and no remaining owner holds it |
| Ownership.MoveConstructPreservesValid | UniquePtr/main.cpp:23-25 | move construction keeps the invariant, because the source is nulled |
| Ownership.MoveAssignPreservesValid | UniquePtr/main.cpp:29-36 | move assignment, self or not, keeps the invariant |
| Ownership.ResetPreservesValid | UniquePtr/main.cpp:55-60 | resetting to a fresh address, or to the one already held, keeps the invariant |
| Ownership.ReleasePreservesValid | UniquePtr/main.cpp:63-67 | release keeps the invariant |
| Ownership.ConstructAccounts | UniquePtr/main.cpp:11 | the addresses held or deleted grow by exactly the bound one |
| Ownership.DestructAccounts | UniquePtr/main.cpp:14-16 | destruction loses no address: the held one moves into the delete log |
| Ownership.MoveConstructAccounts | UniquePtr/main.cpp:23-25 | a move construction neither loses nor adds an address |
| Ownership.MoveAssignAccounts | UniquePtr/main.cpp:29-36 | a move assignment neither loses nor adds an address; the replaced one moves into the delete log |
| Ownership.ResetAccounts | UniquePtr/main.cpp:55-60 | a reset adds exactly the bound address and loses none |
| Ownership.ReleaseAccounts | UniquePtr/main.cpp:63-67 | release removes exactly the returned address from the owners' care; in a valid state the owners neither hold it nor have deleted it |
| Laws.SelfMoveIsNoOp | UniquePtr/main.cpp:29-36 | `x = std::move(x)` leaves the state unchanged and frees nothing |
| Laws.ResetToHeldIsNoOp | UniquePtr/main.cpp:55-60 | `reset(get())` leaves the state unchanged and frees nothing |
| Laws.ResetIdempotent | UniquePtr/main.cpp:55-60 | resetting twice to the same pointer is the same as resetting once |
| Laws.ResetUndoesRelease | UniquePtr/main.cpp:55-67 | `reset(release())` restores the state exactly |
| Laws.MoveThereAndBack | UniquePtr/main.cpp:14-36 | moving into a new object, moving back, then destroying the empty new object restores the state and frees nothing |
| Laws.DestructUndoesConstruct | UniquePtr/main.cpp:11-16 | destroying a freshly constructed object restores the owners and deletes exactly the bound pointer |
| Laws.UncheckedReset | UniquePtr/main.cpp:55-60 | `reset` without the `m_ptr != p` test: the owner holds `p` and the old pointer is always deleted |
| Laws.ResetNeedsIdentityCheck | UniquePtr/main.cpp:53-60 | without that test, `reset(get())` leaves the owner holding a deleted address, and destroying it deletes that address twice |
| Laws.UncheckedMoveAssign | UniquePtr/main.cpp:27-36 | move assignment without the `this != &other` test: the source ends null and the destination's old pointer is always deleted |
| Laws.SelfMoveNeedsCheck | UniquePtr/main.cpp:27-36 | without that test, self move-assignment deletes the only referent and leaves the owner empty; with it the referent is kept |
| Traces.StepPreservesValid | UniquePtr/main.cpp:11-67 | any single member call whose binding is fresh keeps the invariant |
| Traces.StepAccounts | UniquePtr/main.cpp:11-67 | any single member call keeps every address, except the one `release` hands back, and adds only the one it binds |
| Traces.Run | UniquePtr/main.cpp:11-67 | running any sequence of member calls only extends the delete log |
| Traces.RunPreservesValid | UniquePtr/main.cpp:18-67 | after any sequence of calls that binds only fresh addresses, no two owners share an address, no owner holds a deleted address, and no address is deleted twice |
| Traces.RunAccounts | UniquePtr/main.cpp:11-67 | after any sequence of calls, every address owned at the start or bound later is held, deleted, or was released and not bound again; and the owners answer for no address they were not given |
| Traces.ExactlyOnce | UniquePtr/main.cpp:13-16 | once every object is destroyed, each owned address has been deleted exactly once, unless a `release()` left it in the caller's care and it was never bound again; an address passed on with `b.reset(a.release())` is covered |
| Traces.RebindAndDrop | UniquePtr/main.cpp:14-16 | from two empty owners, resetting one to a fresh address and destroying both deletes that address exactly once and leaves nothing in the caller's care |
| Traces.TransferByReleaseScenario | UniquePtr/main.cpp:55-67 | `b.reset(a.release())` followed by destroying both owners deletes the transferred address exactly once and leaves nothing in the caller's care |
| Traces.DemoScenario | UniquePtr/main.cpp:79-98 | the demonstration sequence: ptr1 is null after the move, ptr3 ends up holding Foo(42), assigning over ptr3 deletes Foo(43) once, and leaving the scope deletes Foo(42) once |

## Left out

- `struct Foo` and `main` are demonstration code with console output. Only their call sequence is kept, as `Traces.DemoScenario`.
- Real heap allocation and `delete`, including running `T`'s destructor, are not modelled. `delete` appends to a log.
- Address reuse is not modelled. A `Ptr` names one allocation (an address plus the lifetime of the object there) and is never handed out again. In C++ `new` may return an address an earlier `delete` freed; the model treats that as a new `Ptr`. So "no address is deleted twice" means no allocation is deleted twice, not that a raw address value never repeats in the log.
- The managed `T` value is not modelled. `Deref` yields the address of the referent instead of a `T&`.
- `Deref` requires a non-null owner: `*m_ptr` on null is undefined behaviour and is not checked in the source.
- `Arrow` has no such requirement, because `operator->` itself only returns `m_ptr`. Reaching a member through a null result is the caller's undefined behaviour. Requiring a non-null owner here would be stricter than `operator->` at main.cpp:44-46.
- The copy constructor and copy assignment (lines 19-20) are deleted at compile time. The model has no copy operation, so no transition duplicates an owner.
- `explicit`, `noexcept`, and the `UniquePtr&` returned by move assignment for chaining are left out. They have no effect on the ownership state.
- Default arguments: `UniquePtr()` and `reset()` are `Construct` and `Reset` with `None`.
- Thread safety is left out, because the class has no synchronisation and promises none.
- Object lifetime is managed by the caller: a member may only be called on a live object, and a constructor only for an object that does not exist yet. C++ guarantees both for well-formed programs.
