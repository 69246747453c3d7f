# Axiomos kernel: verified models

Dafny models of the parts of the axiomos kernel whose correctness is hardest to see from the code, with
proofs about every input, every run and every interleaving.

- **BPF object manager** (`Handles`, `Authorization`, `Admission`, `GpioRoutes`, `Bpf*`). `BpfState` gives each
  operation as a function on a value `State`; `BpfInvariants` and `BpfPreservation` prove one invariant for all
  of them; `BpfRuns`, `BpfTheorems`, `BpfOwnership`, `BpfOrphans` and `BpfRights` prove the properties of whole
  runs, and `BpfWitness` gives two runs at which an expected property fails. `BpfHooks`, `BpfEffects`,
  `BpfQuota` and `BpfExit` say, for each operation, exactly when it succeeds and what it then changes.
  `BpfManager` is the manager as an object with the source's loops, proved to do exactly what the functions say.
- **Map leases and per-CPU execution** (`MapLease`, `LeaseProgress`) and the **hook snapshot** (`EpochSnapshot`,
  `EpochProgress`): step machines with one step per atomic access. `LeaseLife`, `SnapshotLife` and
  `SnapshotProgress` tie them to the manager.
- **TLB shootdown** (`CpuMask`, `TlbShootdown`, `TlbRequest`, `TlbProgress`): the epoch and acknowledge protocol with
  fill times on cached translations.
- **Physical frames** (`PhysBoot`, `PhysHandoff`, `FrameTable`, `FrameRefs`, `FrameLife`): bump allocator, hand-off,
  frame table, reference counts, and all of them as one facade.
- **Pipe** (`WaitChannel`, `WaitProgress`, `PipeState`, `Pipe`, `PipeCalls`, `PipeWitness`): the lock-free wait
  channel and the pipe as a monitor over two of them.
- **Bench console** (`RingBuf`, `BenchBuffer`, `BenchMarker`, `BenchRuns`) and **e-stop capture reducer** (`Waveform`,
  `EstopScan`, `EstopVerdict`, `EstopCapture`).

`Common` holds shared types and sums. Classes have an abstract value (`Model()` or `Contents()`), and their
methods state the new value as a function of the old one.

Answers from outside are parameters: allocation success, the bytecode verifier's verdict, program
authentication and parsing, the UART's readiness. Concurrent parts are sequentially consistent, and step
machines let activations interleave in any order, so nesting of interrupt handlers is one case among all.

## What the proofs found

- The admission ledger's `+=` can wrap when the budget is unbounded and a hook fires. Both shipped profiles
  exclude it, because the unbounded budget comes with a zero hook frequency (`Admission.AdmitBalanced`,
  `Admission.UnboundedBudgetWraps`).
- The bump allocator tests only a frame's first byte against the reserved regions, so a reserved region that
  starts mid-frame is handed out in part before the hand-off (`PhysBoot.NoOverlapIff`).
- An owner exit that meets an in-flight clone returns before the sweep and can leave an orphan map that nothing
  holds until a later sweep: `BpfWitness.OrphanLeftUnheld` is such a run, and `BpfOrphans.IncompleteReclaimOrphans`
  gives the exact condition. Clones exist only under the `verifier-cost` feature (kernel/src/bpf/mod.rs:1391-1406);
  without them it cannot happen (`BpfOrphans.OrphansHeldAlways`).
- The unit test at kernel/src/bpf/mod.rs:2749-2773 expects an unpinned orphan map to stay until an unrelated
  program is unloaded. The code reclaims it at once, on that very run (`BpfWitness.OrphanGoneBeforeUnload`); it stays
  exactly when some loaded program captured it (`BpfOrphans.UnpinReclaimsIff`). The model follows the code.
- A failed list reservation leaves the admission ledger as it was exactly when the attachment was new and the total
  did not wrap (`Admission.RollbackExact`); `Admission.WrappedRollback` and `Admission.RepeatedRollback` are inputs at
  which it does not. In the manager both conditions always hold.
- The wait channel takes it that a drain or the parking call's own re-check always wakes a waiter
  (kernel/src/mcore/mtask/scheduler/wait_channel.rs:161-163). The production queue's `try_take` answers nothing while
  an enqueue is in progress and leaves the retry to a later pass (kernel/crates/kernel_run_queue/src/queue.rs:34-41);
  `drain_waiters` has no later pass. So a wake can be lost: `WaitProgress.WakeLost` is a run, and it can happen exactly
  when a task registers while another is exposed (`WaitProgress.LostExactlyWhenExposed`). A task is exposed when it has
  missed a publication and is parked, or its park is past the first check.
- The pipe is safe all the same. Its callers register under the lock, so the task that hid a stale one registered after
  the last publication and the reason to wait still holds (`Pipe.WaiterJustified`); a task can stay parked past its
  publication only then (`PipeWitness.ReaderMissed`).
- A reader and a writer can be parked together with the lock free, while a park is between its enqueue and its re-check
  (`PipeWitness.BothParked`). One side has then missed a publication and is about to be drained
  (`Pipe.BothParkedMeansStale`); tasks that have seen every publication are never parked on both sides
  (`Pipe.NeverBothCurrent`).
- A retain of a frame that nobody holds leaves the table calling free a frame whose count is one
  (`FrameLife.PhysicalMemory.RetainFrame`).

## Model

| member | source | states |
|---|---|---|
| `Handles.Encode` | kernel/src/bpf/handles.rs:22-28 | a slot and a generation pack into a non-negative i32, and both are recovered from it |
| `Handles.EncodeOnto` | kernel/src/bpf/handles.rs:10-28 | every non-negative i32 is the packing of its own slot and generation |
| `Handles.InsertEffect` | kernel/src/bpf/handles.rs:55-86 | an inserted handle was never issued before, is live and names the value, its slot was empty, and every other handle keeps its meaning |
| `Handles.InsertRefusal` | kernel/src/bpf/handles.rs:55-76 | with a slot limit that fits the handle format, a table that has a slot refuses only for lack of memory; the slot-limit answer comes exactly when no slot is reusable and none can be appended |
| `Handles.DeadForever` | kernel/src/bpf/handles.rs:10-86 | a freed handle stays unresolvable while its slot is empty, after reuse and after retirement |
| `Handles.InsertInto` | kernel/src/bpf/handles.rs:55-86 | the search loop and both publication paths compute the insertion the lemmas speak about, and a refusal leaves both vectors alone |
| `Authorization.GrantEffect` | kernel/src/bpf/authorization.rs:77-99 | a grant adds exactly the granted rights to its owner, changes nobody else, and keeps at most 64 entries with one per owner |
| `Authorization.RevokeEffect` | kernel/src/bpf/authorization.rs:101-103 | revocation leaves the owner without an entry and every other owner with the same rights |
| `Authorization.GrantWithReservation` | kernel/src/bpf/authorization.rs:83-99 | the loop computes that grant, the entry limit and the memory refusal |
| `Authorization.RevokeOwner` | kernel/src/bpf/authorization.rs:101-103 | the retain loop computes that revocation |
| `Admission.AdmitBalanced` | kernel/crates/kernel_bpf/src/verifier/admission.rs:154-186 | after a successful admission the committed total is still the sum of the attachments and within budget, exactly when the 64-bit addition does not wrap; both shipped profiles exclude wrapping |
| `Admission.UnboundedBudgetWraps` | kernel/crates/kernel_bpf/src/verifier/admission.rs:164-186 | with an unbounded budget and a hook that fires, an admission can wrap the total and undercount: a concrete ledger |
| `Admission.ReleaseUndoesAdmit` | kernel/crates/kernel_bpf/src/verifier/admission.rs:190-194 | releasing a just-admitted attachment restores the ledger |
| `Admission.ReleaseBalanced` | kernel/crates/kernel_bpf/src/verifier/admission.rs:190-194 | release keeps the total equal to the sum |
| `Admission.RollbackExact` | kernel/crates/kernel_bpf/src/verifier/admission.rs:190-194 | for every ledger, releasing a just-admitted attachment restores the ledger exactly when the attachment was new and the 64-bit total did not wrap |
| `Admission.WrappedRollback` | kernel/crates/kernel_bpf/src/verifier/admission.rs:213-253 | a failed reservation that leaves the ledger undercounting: an unbounded budget, a committed unit and a request of the largest 64-bit value |
| `Admission.RepeatedRollback` | kernel/crates/kernel_bpf/src/verifier/admission.rs:213-253 | a failed reservation that takes away an earlier admission: the pair was admitted and not attached |
| `Admission.AdmitFits` | kernel/crates/kernel_bpf/src/verifier/admission.rs:164-186 | under a shipped profile an admitted total never wraps |
| `Admission.CommitAttachment` | kernel/crates/kernel_bpf/src/verifier/admission.rs:213-253 | for every ledger, the transaction commits list and ledger together, an over-budget request leaves the ledger as it was, and a failed reservation does so exactly when the attachment was new and the total did not wrap |
| `Admission.ReleaseAllBalanced` | kernel/src/bpf/mod.rs:766-781 | releasing a whole set of attachments keeps the ledger balanced |
| `Admission.ReleaseAllStep` | kernel/src/bpf/mod.rs:768-780 | releasing one at a time releases the set |
| `GpioRoutes.InsertFanout` | kernel/crates/kernel_bpf/src/attach/route.rs:28-78 | a route that passes the check keeps every fired edge of every pin within the limit |
| `GpioRoutes.RemoveFanout` | kernel/crates/kernel_bpf/src/attach/route.rs:108-113 | removal keeps every pin within the limit |
| `GpioRoutes.RemoveRouted` | kernel/crates/kernel_bpf/src/attach/route.rs:108-113 | after removal a program has a route exactly when it had one and was not removed |
| `GpioRoutes.RemoveTwice` | kernel/crates/kernel_bpf/src/attach/route.rs:108-113 | removing programs one after another is removing them together |
| `GpioRoutes.CanInsertWithLimit` | kernel/crates/kernel_bpf/src/attach/route.rs:41-78 | the loop over the fired edges decides exactly the fan-out condition |
| `GpioRoutes.RemoveProgram` | kernel/crates/kernel_bpf/src/attach/route.rs:108-113 | the loop over pins drops exactly the program's routes and the emptied pins |
| `BpfInvariants.InitInv` | kernel/src/bpf/mod.rs:519-549 | a new manager satisfies the invariant |
| `BpfInvariants.ProfilesValid` | kernel/src/bpf/limits.rs:24-68 | both shipped limit sets satisfy what the invariant needs |
| `BpfInvariants.MapCountOne` | kernel/src/bpf/mod.rs:720-740 | a map's reference count is one exactly when no loaded program captured it |
| `BpfInvariants.ProgramCountOne` | kernel/src/bpf/mod.rs:1338-1357 | a program's reference count is one exactly when neither the published snapshot nor a clone holds it |
| `BpfPreservation.StepInv` | kernel/src/bpf/mod.rs:519-1968 | every public operation keeps the manager invariant: handle tables, captures, pins, attachments, routes, snapshot, ledger, counters and caps |
| `BpfPreservation.FreeMapsAccounting` | kernel/src/bpf/mod.rs:720-740 | freeing maps subtracts exactly what they were charged, no saturating subtraction clamps, and all caps hold |
| `BpfPreservation.FreeProgramsAccounting` | kernel/src/bpf/mod.rs:803-813 | the same for programs |
| `BpfTheorems.CountersExact` | kernel/src/bpf/mod.rs:856-930 | over every run the counters are the table sums and every global and per-owner cap holds |
| `BpfTheorems.UtilizationExact` | kernel/src/bpf/mod.rs:1239-1307 | over every run the committed utilization is the sum over exactly the current attachments, within the budget |
| `BpfTheorems.PinsCapped` | kernel/src/bpf/mod.rs:1831-1868 | over every run the pins stay within their cap, under paths of 1 to 255 bytes, each offering something |
| `BpfTheorems.UnloadSucceedsIff` | kernel/src/bpf/mod.rs:1338-1365 | a program unloads exactly when its owner asks, nothing attaches it and no clone is in flight: the published snapshot adds no other reason |
| `BpfTheorems.DestroySucceedsIff` | kernel/src/bpf/mod.rs:1946-1968 | a map is destroyed exactly when its owner asks, it is not reserved, nothing pins it and no loaded program captured it |
| `BpfTheorems.FailureChangesNothing` | kernel/src/bpf/mod.rs:571-1968 | an operation that reports an error leaves the whole state unchanged |
| `BpfTheorems.LoadFailsOnlyForMemory` | kernel/src/bpf/mod.rs:897-930 | once the quota check passes and the captures are allowed, a load fails only for lack of memory |
| `BpfTheorems.CreateFailsOnlyForMemory` | kernel/src/bpf/mod.rs:1651-1706 | once the quota check passes, a map creation fails only for lack of memory |
| `BpfTheorems.ProgramHandlesUnique` | kernel/src/bpf/mod.rs:690-698 | no run issues a program handle twice, and each is a non-negative i32 |
| `BpfTheorems.MapHandlesUnique` | kernel/src/bpf/mod.rs:700-708 | no run issues a map handle twice, and each is a non-negative i32 |
| `BpfTheorems.FreedHandlesStayDead` | kernel/src/bpf/mod.rs:690-708 | a handle whose object was freed never resolves again in the rest of any run |
| `BpfTheorems.PrivateViewAgrees` | kernel/src/bpf/mod.rs:273-289 | a program's private lookup of a handle answers exactly what the manager's table says, when the program captured it with those rights |
| `BpfTheorems.CapturedMapsStay` | kernel/src/bpf/mod.rs:663-688 | while a program stays loaded, each handle it captured keeps naming the same live map, through destroy, unpin, owner exit, sweep and slot reuse |
| `BpfTheorems.ProgramStable` | kernel/src/bpf/mod.rs:897-930 | a loaded program's entry never changes |
| `BpfTheorems.PublishedGeneric` | kernel/src/bpf/mod.rs:487-500 | the published list of a hook is its attachments' runtimes in order, all loaded, at most 16 |
| `BpfTheorems.PublishedGpio` | kernel/src/bpf/mod.rs:501-515 | the published list of a pin and edge is the matching routes' runtimes in order, all loaded, at most 8 |
| `BpfTheorems.PublishedLoaded` | kernel/src/bpf/mod.rs:1338-1365 | every runtime in the snapshot belongs to an attached, loaded program, and unloading such a program is refused |
| `BpfOwnership.ReclaimCompletesIff` | kernel/src/bpf/mod.rs:746-822 | an owner exit completes exactly when the snapshot could be allocated and no clone of an owned program is in flight |
| `BpfOwnership.ReclaimComplete` | kernel/src/bpf/mod.rs:746-854 | for every owner, an exit that meets no clone completes; after it no program, attachment, route or grant names the owner, and no charged map or pin does unless the owner is the orphan sentinel; other owners keep their programs, attachments in order, routes in order, admitted utilization, maps and pins, and each orphan map is pinned or captured |
| `BpfOwnership.SweepHolds` | kernel/src/bpf/mod.rs:720-740 | a sweep leaves only orphan maps that are pinned or captured |
| `BpfOrphans.OrphansHeldStep` | kernel/src/bpf/mod.rs:720-740 | each operation keeps every orphan map pinned or captured, exactly unless it is a successful map creation by the sentinel owner, or an exit that meets a clone and frees the last capture of an unpinned orphan |
| `BpfOrphans.CreateSucceedsIff` | kernel/src/bpf/mod.rs:1651-1706 | a map is created exactly when its size is valid, the quota has room, its backing was allocated, and a slot can be reused or both vectors could grow |
| `BpfOrphans.IncompleteReclaimOrphans` | kernel/src/bpf/mod.rs:815-822 | an exit that meets a clone answers false; orphans are still held after it exactly when each unpinned one is captured by a program the exit cannot free |
| `BpfOrphans.OrphansHeldRun` | kernel/src/bpf/mod.rs:720-740 | over every run whose operations meet that condition, each orphan map is pinned or captured |
| `BpfOrphans.OrphansHeldAlways` | kernel/src/bpf/mod.rs:720-740 | without clones, which only the verifier-cost feature creates, and without the sentinel as a caller, each orphan map is pinned or captured in every reachable state |
| `BpfOrphans.UnpinReclaimsIff` | kernel/src/bpf/mod.rs:1907-1936 | removing the last pin of an orphan map reclaims it at once exactly when no loaded program captured it; other loaded programs play no part |
| `BpfWitness.OrphanGoneBeforeUnload` | kernel/src/bpf/mod.rs:2749-2773 | the unit test's own run: after the unpin the map and its bytes are gone while the unrelated program is still loaded |
| `BpfWitness.OrphanLeftUnheld` | kernel/src/bpf/mod.rs:815-822 | a run from a new manager after which an exit that meets a clone answers false and leaves an orphan that nothing pins or captured |
| `BpfRights.OffersComeFromOwners` | kernel/src/bpf/mod.rs:1831-1868 | an offer counts only when the map's owner at that moment made it |
| `BpfRights.NoRightsAmplification` | kernel/src/bpf/mod.rs:1831-1901 | over every run a non-owner's rights on a user map lie within the union of what was ever offered by pinning that incarnation of it |
| `BpfRights.AllowedAccessWasOffered` | kernel/src/bpf/mod.rs:1743-1760 | over every run the access check lets a non-owner through only within what was ever offered on that incarnation of the map |
| `BpfRights.AccessCheckExact` | kernel/src/bpf/mod.rs:1743-1760 | the access check passes exactly when the map exists and the caller's rights cover a non-empty request |
| `BpfRights.PermWithinRights` | kernel/src/bpf/mod.rs:614-661 | a captured permission lies within the load capability, the loader's rights and the map's own permission |
| `BpfRights.CapturedRightsBounded` | kernel/src/bpf/mod.rs:273-289 | over every run, what a program can reach at run time lies within its load capability, and within what was offered if its owner does not own the map |
| `BpfManager.FindSlot` | kernel/src/bpf/mod.rs:856-862 | the slot scan finds a slot exactly when one can be reused or appended |
| `BpfManager.ProgramOwnerTotals` | kernel/src/bpf/mod.rs:874-894 | the fold with checked additions gives the owner's exact totals or fails exactly on overflow |
| `BpfManager.MapOwnerTotals` | kernel/src/bpf/mod.rs:1618-1638 | the same for charged maps |
| `BpfManager.ProgramQuotaRoom` | kernel/src/bpf/mod.rs:897-930 | the additions after a passed program quota check cannot overflow |
| `BpfManager.MapQuotaRoom` | kernel/src/bpf/mod.rs:571-598 | the additions after a passed map quota check cannot overflow |
| `BpfManager.Manager.constructor` | kernel/src/bpf/mod.rs:519-549 | builds the initial state |
| `BpfManager.Manager.EnsureProgramQuota` | kernel/src/bpf/mod.rs:856-895 | decides exactly the program quota |
| `BpfManager.Manager.EnsureMapQuota` | kernel/src/bpf/mod.rs:1601-1639 | decides exactly the map quota |
| `BpfManager.Manager.ProgramMapsForOwner` | kernel/src/bpf/mod.rs:663-688 | the capture loop stops at the first unknown or denied handle, else captures each with its narrowed permission |
| `BpfManager.Manager.RegisterProgram` | kernel/src/bpf/mod.rs:897-930 | leaves the object in the state of `Register`, whose outcome `BpfEffects.RegisterEffect` gives, and keeps the invariant |
| `BpfManager.Manager.LoadVerifiedProgram` | kernel/src/bpf/mod.rs:1104-1167 | the verified load and its early quota check, keeping the invariant |
| `BpfManager.Manager.LoadRawProgram` | kernel/src/bpf/mod.rs:1076-1090 | the unsigned load and its policy gate |
| `BpfManager.Manager.LoadElfProgram` | kernel/src/bpf/mod.rs:979-1062 | the signed object load and the order of its refusals |
| `BpfManager.Manager.ResolvePrograms` | kernel/src/bpf/mod.rs:489-500 | the push loop of one hook never overflows its list |
| `BpfManager.Manager.ResolveRoutes` | kernel/src/bpf/mod.rs:501-515 | the push loop of one pin and edge never overflows its list |
| `BpfManager.Manager.PublishHookSnapshot` | kernel/src/bpf/mod.rs:487-517 | publishes exactly the projection of attachments and routes; none of its `expect`s can fire |
| `BpfManager.Manager.CommitAttachmentOf` | kernel/src/bpf/mod.rs:1239-1263 | commits list and ledger or neither |
| `BpfManager.Manager.ValidateAttach` | kernel/src/bpf/mod.rs:1173-1237 | the order of attach refusals and the already-attached answer |
| `BpfManager.Manager.AttachProgram` | kernel/src/bpf/mod.rs:1265-1290 | leaves the object in the state of `AttachFor`, whose outcome `BpfHooks.AttachSucceedsIff` and `BpfHooks.AttachEffect` give, and keeps the invariant |
| `BpfManager.Manager.AttachGpioRoute` | kernel/src/bpf/mod.rs:1457-1486 | leaves the object in the state of `AttachGpio`, whose outcome `BpfHooks.AttachGpioSucceedsIff` and `BpfHooks.AttachGpioEffect` give, and keeps the invariant |
| `BpfManager.Manager.DetachProgram` | kernel/src/bpf/mod.rs:1292-1307 | leaves the object in the state of `Detach`, whose outcome `BpfHooks.DetachSucceedsIff` and `BpfHooks.DetachEffect` give, and keeps the invariant |
| `BpfManager.Manager.DetachProgramFor` | kernel/src/bpf/mod.rs:1309-1317 | detach by the program's owner only |
| `BpfManager.Manager.SweepOrphans` | kernel/src/bpf/mod.rs:720-740 | the sweep loop frees exactly the unpinned, uncaptured orphans and their charges |
| `BpfManager.Manager.UnloadProgram` | kernel/src/bpf/mod.rs:1338-1365 | leaves the object in the state of `Unload`, whose outcome `BpfTheorems.UnloadSucceedsIff` and `BpfEffects.UnloadEffect` give, and keeps the invariant |
| `BpfManager.Manager.CreateUserMap` | kernel/src/bpf/mod.rs:1651-1706 | leaves the object in the state of `CreateMap`, whose outcome `BpfOrphans.CreateSucceedsIff` and `BpfEffects.CreateEffect` give, and keeps the invariant |
| `BpfManager.Manager.PinUserMap` | kernel/src/bpf/mod.rs:1831-1868 | leaves the object in the state of `PinMap`, whose outcome `BpfEffects.PinSucceedsIff` and `BpfEffects.PinEffect` give, and keeps the invariant |
| `BpfManager.Manager.GetPinnedMap` | kernel/src/bpf/mod.rs:1877-1901 | leaves the object in the state of `GetPinned`, whose outcome `BpfEffects.GetSucceedsIff` and `BpfEffects.GetEffect` give, and keeps the invariant |
| `BpfManager.Manager.UnpinMap` | kernel/src/bpf/mod.rs:1907-1936 | leaves the object in the state of `Unpin`, whose outcome `BpfEffects.UnpinSucceedsIff` and `BpfEffects.UnpinEffect` give, and keeps the invariant |
| `BpfManager.Manager.DestroyMap` | kernel/src/bpf/mod.rs:1946-1968 | leaves the object in the state of `Destroy`, whose outcome `BpfTheorems.DestroySucceedsIff` and `BpfEffects.DestroyEffect` give, and keeps the invariant |
| `BpfManager.Manager.DetachOwned` | kernel/src/bpf/mod.rs:763-782 | the nested detach loops of an owner exit remove exactly the owner's attachments and return exactly their utilization |
| `BpfManager.Manager.RemoveOwnedRoutes` | kernel/src/bpf/mod.rs:784-789 | the route loop removes exactly the owner's routes |
| `BpfManager.Manager.RevokeOwnerGrants` | kernel/src/bpf/mod.rs:794-801 | the grant and pin loops |
| `BpfManager.Manager.FreeOwnedPrograms` | kernel/src/bpf/mod.rs:803-813 | the loop frees exactly the owner's unreferenced programs and their charges |
| `BpfManager.Manager.ReleaseOwnedMaps` | kernel/src/bpf/mod.rs:824-845 | the loop frees the owner's unreferenced maps and orphans the rest |
| `BpfManager.Manager.ReclaimOwner` | kernel/src/bpf/mod.rs:746-854 | leaves the object in the state of `Reclaim`, whose outcome `BpfOwnership.ReclaimCompletesIff` and `BpfExit.ExitEffect` give, and keeps the invariant |
| `BpfRights.InitPristine` | kernel/src/bpf/mod.rs:519-549 | a new manager has delegated nothing, so the run theorems about rights apply from boot |
| `BpfManager.Manager.CloneProgramFor` | kernel/src/bpf/mod.rs:1399-1406 | an independent reference, by the owner only, as `BpfEffects.CloneEffect` describes it |
| `BpfManager.Manager.DropProgramClone` | kernel/src/bpf/mod.rs:1391-1406 | dropping such a reference keeps the manager valid and changes nothing else |
| `BpfHooks.AttachSucceedsIff` | kernel/src/bpf/mod.rs:1173-1290 | an attachment succeeds exactly when the caller owns the loaded program, the hook is one of the six supported, the verifier accepted, and it is there already or fewer than 16 programs are, both allocations succeeded and the budget covers worst-case cycles times unit times frequency |
| `BpfHooks.AttachEffect` | kernel/src/bpf/mod.rs:1239-1290 | after it the program is last on the hook's list, or where it was, every other hook and the rest of the state are as before, its cost is charged once, and its runtime is in the hook's published list |
| `BpfHooks.AttachGpioSucceedsIff` | kernel/src/bpf/mod.rs:1457-1486 | a routed attachment succeeds exactly when the same holds and the route is there already or every edge that would reach it reaches fewer than 8 programs on the pin |
| `BpfHooks.AttachGpioEffect` | kernel/src/bpf/mod.rs:1457-1486 | after it the program is on the GPIO hook and charged, its route is on the pin once, no other route moved, and every report its edge answers finds it in the snapshot |
| `BpfHooks.MatchingExact` | kernel/crates/kernel_bpf/src/attach/route.rs:80-104 | a fired edge reaches exactly the programs of the routes for that edge or for both, and a report of both reaches all |
| `BpfHooks.DetachSucceedsIff` | kernel/src/bpf/mod.rs:1292-1307 | a detach succeeds exactly when the snapshot was allocated and the program is on the hook |
| `BpfHooks.DetachForSucceedsIff` | kernel/src/bpf/mod.rs:1309-1317 | by a caller, exactly when the caller also owns the loaded program |
| `BpfHooks.DetachEffect` | kernel/src/bpf/mod.rs:1292-1307 | after it the program has left that hook's list, which keeps its order, every other attachment stays, its cost is back, it has no route and every other program keeps its routes |
| `BpfHooks.DetachedUnlisted` | kernel/src/bpf/mod.rs:1292-1307 | and its runtime is no longer in the hook's published list |
| `BpfEffects.SweepExact` | kernel/src/bpf/mod.rs:720-740 | the sweep removes exactly the maps whose owner exited, that nothing pins and no loaded program captured |
| `BpfEffects.UnloadEffect` | kernel/src/bpf/mod.rs:1338-1365 | after an unload exactly that program is gone, with its count and bytes; a map is gone exactly when its owner exited, nothing pins it and no other program captured it; nothing else moved |
| `BpfEffects.CaptureExact` | kernel/src/bpf/mod.rs:614-688 | a load's private view holds exactly the maps its code refers to, each with the rights that the map, the caller and the load capability all give; it fails exactly when a map is not loaded or no right is left |
| `BpfQuota.ProgramQuotaExact` | kernel/src/bpf/mod.rs:856-895 | with a slot to use, the program quota refuses exactly when the size limit or some global or owner cap would be exceeded |
| `BpfQuota.MapQuotaExact` | kernel/src/bpf/mod.rs:1601-1639 | the same for maps |
| `BpfEffects.RegisterSucceedsIff` | kernel/src/bpf/mod.rs:897-930 | a load succeeds exactly when the quota has room, every map its code refers to is loaded and leaves it a right, and memory allows, which a reused slot needs only for the view |
| `BpfEffects.RegisterEffect` | kernel/src/bpf/mod.rs:897-930 | a load adds exactly one program, under a handle that was not live, with its owner, capability, charge, cost and private view; nothing else moved but the counters |
| `BpfEffects.ProgramsVetted` | kernel/src/bpf/mod.rs:979-1167 | over every run from boot, each loaded program was put there by a load of that run that was verified, was signed unless unsigned programs are allowed or it is built in, and is charged eight bytes per instruction |
| `BpfEffects.CreateEffect` | kernel/src/bpf/mod.rs:1651-1706 | a creation adds exactly one map, writable, the caller's, without grants and with its charge; nothing else moved but the counters |
| `BpfEffects.ChargeExact` | kernel/src/bpf/mod.rs:1562-1600 | a map is charged its number of entries times key, value and bookkeeping bytes, exactly when its type and sizes have a legal shape within the limits; a ring needs a power of two |
| `BpfEffects.DestroyEffect` | kernel/src/bpf/mod.rs:1946-1968 | after a destroy exactly that map is gone, with its count and bytes |
| `BpfEffects.GetSucceedsIff` | kernel/src/bpf/mod.rs:1877-1901 | a pinned map is handed out exactly when the pin offers the request and the caller owns the map, has a grant, or fewer than 64 have one and memory allows |
| `BpfEffects.GetEffect` | kernel/src/bpf/mod.rs:1877-1901 | the handle is the pinned map's, the caller's rights on it grow by exactly the request, and no other right of anybody on any map changes |
| `BpfEffects.PinSucceedsIff` | kernel/src/bpf/mod.rs:1831-1868 | a pin is made exactly by the map's owner, under a path of 1 to 255 bytes, offering something, when the same pin is there or the path is free, the cap leaves room and memory allows |
| `BpfEffects.PinEffect` | kernel/src/bpf/mod.rs:1831-1868 | after it the path names that map and nothing else changed |
| `BpfEffects.UnpinSucceedsIff` | kernel/src/bpf/mod.rs:1907-1936 | an unpin succeeds exactly for the pin's owner, or as cleanup when the pin's owner exited |
| `BpfEffects.UnpinEffect` | kernel/src/bpf/mod.rs:1907-1936 | after it exactly that path is gone; when its map was left without owner and pin the maps nothing holds are gone, and otherwise no map is |
| `BpfEffects.CloneEffect` | kernel/src/bpf/mod.rs:1399-1406 | a clone goes exactly to the program's owner, makes its unload answer busy, and dropping it restores the state |
| `BpfExit.ExitEffect` | kernel/src/bpf/mod.rs:746-854 | a completed owner exit takes exactly the owner's programs, attachments, utilization and routes; a map the owner or an earlier exited owner left stays exactly when a pin or another owner's program holds it; exactly the owner's grants go; every pin stays, the owner's own answering to nobody |
| `MapLease.StepInv` | kernel/src/bpf/mod.rs:245-353 | every atomic step of every activation and control call keeps flags, holders, stacks and pointers consistent |
| `MapLease.StepMoves` | kernel/src/bpf/mod.rs:309-336 | a step takes at most one free lease for its own actor or gives back one its own actor holds, and the flags follow exactly |
| `MapLease.LeaseExclusive` | kernel/src/bpf/mod.rs:245-258 | in every interleaving a map's flag is set exactly when exactly one holder exists |
| `MapLease.LeaseKept` | kernel/src/bpf/mod.rs:309-336 | a lease is lost only by its own holder's drop |
| `MapLease.PointerAlive` | kernel/src/mcore/context.rs:319-350 | a CPU's execution pointer is set exactly while an activation runs there; that activation is alive, owns the stack alone, and is what its helpers reach |
| `MapLease.RefusedIff` | kernel/src/mcore/context.rs:112-132 | a nested attempt is refused exactly when another activation of that CPU is past the stack guard |
| `MapLease.InstallSucceeds` | kernel/src/bpf/mod.rs:1374-1389 | the second compare-exchange never loses |
| `MapLease.EndingClearsOwn` | kernel/src/bpf/mod.rs:329-337 | an ending execution clears exactly the leases it took, each while it still holds it, and holds none when it releases the stack |
| `MapLease.QuietMeansFree` | kernel/src/bpf/mod.rs:1374-1389 | with nothing past the stack guard and no control lease, every flag, stack and pointer is clear |
| `MapLease.HelperAnswer` | kernel/src/bpf/mod.rs:309-327 | a helper takes a lease exactly when the map is captured with the rights, not yet leased by it, the 128 slots are not used up and nobody holds it |
| `LeaseProgress.ActivationRuns` | kernel/src/bpf/mod.rs:1374-1389 | on a CPU whose stack nobody has, entering, taking the stack and installing make the program run there, reached by that CPU's pointer |
| `LeaseProgress.ActivationEnds` | kernel/src/bpf/mod.rs:329-337 | from every reachable state an activation can end by its own steps, and then exactly its leases, stack and pointer are free |
| `LeaseProgress.ControlLease` | kernel/src/bpf/mod.rs:245-258 | a control lease is won exactly when nobody holds the map, and its drop frees exactly that map |
| `LeaseLife.HeldIsCaptured` | kernel/src/bpf/mod.rs:309-327 | in every interleaving an activation holds only maps its own program captured |
| `LeaseLife.LeasedMapsLive` | kernel/src/bpf/mod.rs:309-327 | while the program an activation runs stays loaded, over every run of the manager, each map it leases is live in the table and no caller can destroy it |
| `SnapshotLife.WorldStepInv` | kernel/src/bpf/mod.rs:486-517 | every step of manager operations, publications half-way through them and readers keeps the boxes, their contents and the manager consistent |
| `SnapshotLife.GuardedLoaded` | kernel/src/bpf/mod.rs:486-517 | in every interleaving, every program in a snapshot that a reader guards is loaded, also while a publisher waits for that guard |
| `SnapshotLife.GuardedRunsSafely` | kernel/src/bpf/mod.rs:309-327 | while a reader guards a snapshot, each of its programs is loaded and every map leased by a run of it is live and cannot be destroyed |
| `EpochSnapshot.StepInv` | kernel/crates/kernel_bpf/src/concurrency/epoch_snapshot.rs:109-181 | every atomic step keeps counters, guards, writer and boxes consistent |
| `EpochSnapshot.HeldNeverFreed` | kernel/crates/kernel_bpf/src/concurrency/epoch_snapshot.rs:109-181 | in every interleaving a value with a guard on it is not freed |
| `EpochSnapshot.FreedUnheld` | kernel/crates/kernel_bpf/src/concurrency/epoch_snapshot.rs:161-181 | when a publisher frees the replaced value nobody holds it |
| `EpochSnapshot.NoLeak` | kernel/crates/kernel_bpf/src/concurrency/epoch_snapshot.rs:161-181 | between publications the published box is the only live one |
| `EpochSnapshot.CountersExact` | kernel/crates/kernel_bpf/src/concurrency/epoch_snapshot.rs:137-155 | reader counters never underflow or wrap, and a full counter turns the reader away unpinned |
| `EpochSnapshot.WaitShrinks` | kernel/crates/kernel_bpf/src/concurrency/epoch_snapshot.rs:161-172 | nobody joins the readers a publisher waits for, and dropping a guard removes it |
| `EpochProgress.ReadGetsCurrent` | kernel/crates/kernel_bpf/src/concurrency/epoch_snapshot.rs:109-135 | a read between publications returns the published value |
| `EpochProgress.PublicationLands` | kernel/crates/kernel_bpf/src/concurrency/epoch_snapshot.rs:161-181 | from every state without a publisher a publication can end, and its box is then current and the only one left |
| `SnapshotProgress.OperationCompletes` | kernel/src/bpf/mod.rs:487-517 | from every reachable world between operations, one that changes hooks can complete; the manager is then in the state the operation leaves and the current box holds what that state published |
| `CpuMask.TargetsAcknowledged` | kernel/src/arch/x86_64.rs:28-37 | the bit-clearing loop answers true exactly when the number of lagging targets is zero |
| `CpuMask.AndNotSelf` | kernel/src/arch/x86_64.rs:30-35 | `mask & (mask - 1)` clears exactly the bit `trailing_zeros` names |
| `CpuMask.WordTracked` | kernel/src/mcore/context.rs:33-37 | a 64-bit mask names only tracked CPUs |
| `TlbShootdown.TargetBits` | kernel/src/arch/x86_64.rs:44-46 | the masked set is the request, online, without the caller |
| `TlbShootdown.StepCore` | kernel/src/arch/x86_64.rs:19-76 | every step keeps: an acknowledged epoch was followed by a flush on that CPU |
| `TlbShootdown.ReturnMeansFlushed` | kernel/src/arch/x86_64.rs:39-76 | when a shootdown returns, no target it kept nor the caller caches a translation filled before its epoch was allocated; `TlbRequest.RequestFlushed` says it of the mask the caller passed |
| `TlbShootdown.AcksMonotone` | kernel/src/arch/x86_64.rs:19-26 | acknowledgements never go back, and an acknowledged epoch stands for a later flush |
| `TlbShootdown.LaggingNeverRises` | kernel/src/arch/x86_64.rs:71-76 | a waiter's number of lagging targets never rises |
| `TlbShootdown.LaggingFalls` | kernel/src/arch/x86_64.rs:71-76 | it strictly falls when a lagging target completes an acknowledgement that had begun, at any earlier moment of the run, after the epoch was allocated |
| `TlbShootdown.BegunAfterCovers` | kernel/src/arch/x86_64.rs:19-26 | once an acknowledgement has begun, in every later state it covers every epoch allocated before it began, or its CPU has acknowledged that epoch |
| `TlbShootdown.NeverBlocked` | kernel/src/arch/x86_64.rs:39-76 | no activation is ever blocked by another: its next access always moves it on |
| `TlbShootdown.NoCircularWait` | kernel/src/arch/x86_64.rs:56-76 | every lagging target has an interrupt pending or a handler that will cover the epoch, a waiter that meets a laggard acknowledges for itself, and it returns only when nobody lags |
| `TlbRequest.RequestFlushed` | kernel/src/arch/x86_64.rs:39-76 | in every interleaving, once a call returns, on its own CPU and on every CPU that was in its mask and online at the call, nothing is cached that was cached before the call |
| `TlbRequest.RequestBounded` | kernel/src/arch/x86_64.rs:44-62 | a call interrupts only CPUs in its mask and never its own |
| `TlbRequest.EarlyCallFlushes` | kernel/src/arch/x86_64.rs:39-43 | a call on a CPU without a context flushes that CPU at once and leaves the others alone |
| `TlbRequest.Environment` | kernel/src/mcore/context.rs:258-265 | meanwhile CPUs come up, go online and cache translations, each exactly so |
| `TlbProgress.CanReturn` | kernel/src/arch/x86_64.rs:28-76 | from every reachable state some schedule of interrupt deliveries and frame accesses alone brings a given shootdown to its return |
| `PhysBoot.RegisteredPrefix` | kernel/src/mem/phys.rs:33-40 | only the first sixteen reserved registrations count |
| `PhysBoot.BumpFramesSound` | kernel/src/mem/phys.rs:574-593 | the bump allocator never hands out a frame twice, outside the map, or with a reserved first byte |
| `PhysBoot.NoOverlapIff` | kernel/src/mem/phys.rs:42-50 | its frames avoid all reserved bytes exactly when no reserved region starts in the middle of a mapped frame whose start is not reserved |
| `PhysBoot.AlignedReservedDisjoint` | kernel/src/mem/phys.rs:42-50 | so they do with frame-aligned reserved regions |
| `PhysBoot.UnalignedReservedHandedOut` | kernel/src/mem/phys.rs:42-50 | a reserved region that starts mid-frame can be handed out: a concrete map |
| `PhysBoot.BumpAllocator.CheckReserved` | kernel/src/mem/phys.rs:42-50 | the loop decides membership in a reserved region |
| `PhysBoot.BumpAllocator.AllocateFrame` | kernel/src/mem/phys.rs:574-593 | the nested walk returns the next usable frame and advances, or nothing at the end |
| `PhysHandoff.MarkFrame` | kernel/src/mem/phys.rs:407-421 | marks exactly the frame that starts at the address |
| `PhysHandoff.MarkReserved` | kernel/src/mem/phys.rs:430-449 | marks exactly the frames a reserved region touches after widening |
| `PhysHandoff.InitStage2` | kernel/src/mem/phys.rs:372-462 | after the hand-off a frame is allocated exactly when stage one handed it out or a widened reserved region covers it |
| `PhysHandoff.FreeSetExact` | kernel/src/mem/phys.rs:372-462 | for every boot map of frame-aligned regions that do not overlap and every reserved list, the free set is all region frames minus those handed out minus those covered |
| `PhysHandoff.FreeIsRemainder` | kernel/src/mem/phys.rs:372-462 | with frame-aligned reserved regions the free set is what the bump allocator had still to hand out |
| `PhysHandoff.InitialCounts` | kernel/src/mem/phys.rs:79-100 | initial counts are zero exactly on free frames and one elsewhere |
| `PhysHandoff.Boot` | kernel/src/mem/phys.rs:372-479 | the whole hand-off: count zero exactly on free frames |
| `FrameTable.FrameAllocator.AllocateFrames` | kernel/crates/kernel_physical_memory/src/lib.rs:132-239 | returns the first run of free frames in table order, marks exactly it, and fails exactly when no region has one, although it starts at `first_free` |
| `FrameTable.FrameAllocator.DeallocateFrame` | kernel/crates/kernel_physical_memory/src/lib.rs:272-298 | on any table, succeeds exactly when the first region that has the address holds it as allocated, frees only that frame, and keeps `first_free` first |
| `FrameTable.FrameAllocator.UpdateFirstFree` | kernel/crates/kernel_physical_memory/src/lib.rs:84-130 | restores `first_free` to the first free frame |
| `PhysHandoff.FreeByBytes` | kernel/src/mem/phys.rs:372-462 | after the hand-off a frame is free exactly when it is a whole frame of the boot map, stage one did not hand it out and no reserved region reaches into it |
| `FrameTable.FreeUndoesFill` | kernel/crates/kernel_physical_memory/src/lib.rs:272-298 | an allocated run is the run's frames and no other, and freeing it frame by frame restores the table, for every length |
| `FrameRefs.CountsElsewhere` | kernel/src/mem/phys.rs:102-120 | writing one frame's count changes no other frame's |
| `FrameRefs.FrameRefCounts.Release` | kernel/src/mem/phys.rs:139-154 | release answers and stores the decremented count, stops at zero and at the immortal value, and touches no other frame |
| `FrameRefs.FrameRefCounts.Retain` | kernel/src/mem/phys.rs:129-137 | retain saturates into the immortal value and touches no other frame |
| `FrameRefs.FrameRefCounts.SetAllocated` | kernel/src/mem/phys.rs:122-127 | sets one frame's count to one |
| `FrameRefs.StepInv` | kernel/src/mem/phys.rs:212-273 | the facade's two-lock steps keep counts, holders and idle sets consistent in every interleaving |
| `FrameRefs.LastReleaseExact` | kernel/src/mem/phys.rs:240-256 | a release hands the frame to the allocator exactly when it is the last one of a frame that never saturated; while anybody holds it, it is nowhere on the way to being free |
| `FrameRefs.NoSharedHandout` | kernel/src/mem/phys.rs:212-224 | a frame is handed out only when nobody holds it, and given back only once |
| `FrameRefs.NoLeak` | kernel/src/mem/phys.rs:240-256 | an unheld frame is free or on its way, unless its count once saturated |
| `FrameRefs.ImmortalForever` | kernel/src/mem/phys.rs:146-150 | a saturated frame is never handed back |
| `FrameRefs.ReleaseAnswersZero` | kernel/src/mem/phys.rs:139-154 | release answers zero exactly for counts zero and one; below saturation it undoes retain |
| `FrameLife.BootStarts` | kernel/src/mem/phys.rs:372-479 | the table and counts that boot leaves are a state the reference-count machine starts from: same tracked frames, same free set, same counts, every other frame held once |
| `FrameLife.TakeStep` | kernel/src/mem/phys.rs:216-216 | the allocator's locked section of an allocation removes exactly the returned frame from the free set |
| `FrameLife.ReturnStep` | kernel/src/mem/phys.rs:253-254 | when the last reference is gone the table accepts the frame, and the free set gains exactly it |
| `FrameLife.CountStep` | kernel/src/mem/phys.rs:102-154 | writing one count changes the machine's count of that frame and no other |
| `FrameLife.StrayRefused` | kernel/crates/kernel_physical_memory/src/lib.rs:272-298 | the table refuses a frame that nobody released for the last time |
| `FrameLife.InterleavingAgrees` | kernel/src/mem/phys.rs:212-273 | in every interleaving of locked sections the table and the count vectors agree with the reference-count machine, which makes the same run |
| `FrameLife.BootedHandout` | kernel/src/mem/phys.rs:212-256 | from boot on, in every interleaving, the table hands out only frames that nobody holds and accepts every frame whose last reference is gone |
| `FrameLife.PhysicalMemory.constructor` | kernel/src/mem/phys.rs:464-479 | the facade starts in a booted state |
| `FrameLife.PhysicalMemory.AllocateFrame` | kernel/src/mem/phys.rs:212-223 | gives out a free frame and holds it once; fails exactly when no frame is free |
| `FrameLife.PhysicalMemory.RetainFrame` | kernel/src/mem/phys.rs:267-273 | for every tracked frame: one more reference, saturating; the memory stays consistent exactly when somebody already held the frame or its count is saturated |
| `FrameLife.PhysicalMemory.DeallocateFrame` | kernel/src/mem/phys.rs:240-256 | for every aligned address: the frame is free afterwards exactly when it was free or this was the last reference of an unsaturated frame |
| `WaitChannel.StepInv` | kernel/src/mcore/mtask/scheduler/wait_channel.rs:117-167 | every atomic step of `wake_all` and `park`, with the enqueue in two steps and a dequeue that may miss, keeps gate, request flag and registrations consistent |
| `WaitChannel.StepStaleIff` | kernel/src/mcore/mtask/scheduler/wait_channel.rs:122-136 | a step keeps every parked task that missed a publication on its way to a drain, exactly unless it ends a pass on a miss with no request set and no other call that will drain |
| `WaitChannel.NoLostWake` | kernel/src/mcore/mtask/scheduler/wait_channel.rs:117-167 | when tasks register only while no other task is exposed: whenever a parked task has missed a publication, some call will drain or ask for it, or a request is set that some call must still act on |
| `WaitChannel.QuietMeansCurrent` | kernel/src/mcore/mtask/scheduler/wait_channel.rs:153-167 | under the same condition, with no call in progress nobody parked has missed a publication |
| `WaitChannel.PassComplete` | kernel/src/mcore/mtask/scheduler/wait_channel.rs:122-136 | in every interleaving one pass runs at a time, a pass ends only on an empty queue or while an enqueue is in progress, and no call waits for another |
| `WaitChannel.ParkAfterPublish` | kernel/src/mcore/mtask/scheduler/wait_channel.rs:153-158 | parking after a publication wakes the waiter instead |
| `WaitProgress.WakeLost` | kernel/crates/kernel_run_queue/src/queue.rs:34-41 | a run that loses a wake: a task registered after the publication is half enqueued while the whole drain misses the task before it |
| `WaitProgress.LostExactlyWhenExposed` | kernel/src/mcore/mtask/scheduler/wait_channel.rs:122-167 | after a run that kept to the condition, a registration can cost some task its wake if and only if a task was exposed when it was made |
| `WaitProgress.WakeCanBeLost` | kernel/src/mcore/mtask/scheduler/wait_channel.rs:122-167 | after any run, a registration beside an exposed task lets the run end with no call in progress and a parked task that missed its publication for good |
| `WaitProgress.AdvanceCloser` | kernel/src/mcore/mtask/scheduler/wait_channel.rs:122-167 | every access of a call lowers a measure, whatever the queue answers and the other calls have done |
| `WaitProgress.CallsEnd` | kernel/src/mcore/mtask/scheduler/wait_channel.rs:122-167 | from every reachable state, when no further call starts, the calls in progress end |
| `PipeState.ReadAnswerOf` | kernel/src/file/pipe_state.rs:38-55 | a read returns at least one byte when it asked for some and some are there, and never more than either |
| `PipeState.WriteAnswerOf` | kernel/src/file/pipe_state.rs:57-72 | a write accepts at least one byte when it offered some and there is room, and never beyond the capacity |
| `PipeState.PipeQueue.ReadInto` | kernel/src/file/pipe_state.rs:38-55 | the pop loop moves the front of the queue into the output in order and leaves the rest of the output alone |
| `PipeState.PipeQueue.WriteFrom` | kernel/src/file/pipe_state.rs:57-72 | the accepted prefix joins the end of the queue |
| `Pipe.StepInv` | kernel/src/file/pipe.rs:54-127 | every step of reads, writes, closes and both wait channels, with half-done enqueues and missing dequeues, keeps the monitor invariant |
| `Pipe.Conserved` | kernel/src/file/pipe.rs:54-104 | over every run, delivered bytes followed by the buffer are the accepted bytes, and the buffer never exceeds 64 KiB |
| `Pipe.EndIsFinal` | kernel/src/file/pipe_state.rs:42-48 | end-of-file is answered only after the writer closed and everything accepted was delivered, and stays true |
| `Pipe.WaiterJustified` | kernel/src/file/pipe.rs:59-104 | whenever the lock is free, a parked task still has its reason to wait, or has missed a publication and a call that will drain is in progress; the lock makes good what the channel alone can lose |
| `Pipe.NeverBothCurrent` | kernel/src/file/pipe.rs:54-127 | whenever the lock is free, a parked reader that has seen every publication means empty with an open writer, such a writer means full with an open reader, and never both |
| `Pipe.BothParkedMeansStale` | kernel/src/file/pipe.rs:54-127 | when the lock is free and tasks are parked on both sides, every task of one side has missed a publication and a drain of it is in progress |
| `Pipe.NeverBothParked` | kernel/src/file/pipe.rs:54-127 | with no call in progress a parked reader means empty with an open writer, a parked writer means full with an open reader, so never both |
| `PipeCalls.ReadMoves` | kernel/src/file/pipe.rs:54-84 | after any run a read delivers the next accepted bytes, as many as it wants and are there; it blocks exactly when it wants some, none is there and a writer is left, and ends exactly when none is left |
| `PipeCalls.WriteMoves` | kernel/src/file/pipe.rs:86-105 | after any run a write is accepted as far as there is room, and not at all once no reader is left; it blocks exactly when the pipe is full and a reader is left |
| `PipeCalls.CloseTakesOne` | kernel/src/file/pipe.rs:114-127 | a close takes one end away and wakes the other side |
| `PipeCalls.NoEndNoByte` | kernel/src/file/pipe_state.rs:57-72 | once every reader or every writer is gone, no byte is accepted in the rest of any run |
| `PipeCalls.LockReleased` | kernel/src/file/pipe.rs:54-127 | from every reachable state the call that has the lock can bring itself to let go of it |
| `PipeWitness.BothParked` | kernel/src/file/pipe.rs:54-104 | a run that ends with the lock free, a full buffer, and a reader and a writer both parked |
| `PipeWitness.ReaderMissed` | kernel/src/file/pipe.rs:54-104 | a run in which every caller keeps to the lock and a reader stays parked past its publication with no call in progress; the pipe is empty again |
| `RingBuf.Ring.Push` | kernel/crates/shrike_link/src/ring.rs:48-56 | appends, or answers false exactly when full |
| `RingBuf.Ring.Pop` | kernel/crates/shrike_link/src/ring.rs:59-67 | removes the oldest byte |
| `BenchBuffer.Record.WriteStr` | kernel/src/serial/bench_buffer.rs:20-37 | accepts text exactly when its expanded form fits, and stores that form |
| `BenchBuffer.Record.WriteFmt` | kernel/src/serial/bench_buffer.rs:98-101 | a formatted record is accepted exactly when the whole expansion fits 1024 bytes |
| `BenchBuffer.MarkerFits` | kernel/src/serial/bench_buffer.rs:81-97 | a loss marker always fits a record, so its formatting cannot fail |
| `BenchBuffer.DrainKeepsOrder` | kernel/src/serial/bench_buffer.rs:111-127 | what a drain sends followed by what it keeps is what was queued |
| `BenchBuffer.Buffer.Push` | kernel/src/serial/bench_buffer.rs:71-80 | queues a whole record or nothing |
| `BenchBuffer.Buffer.Report` | kernel/src/serial/bench_buffer.rs:81-97 | queues the marker and settles the reported count, or does nothing |
| `BenchBuffer.Buffer.RecordText` | kernel/src/serial/bench_buffer.rs:98-108 | records or counts the loss |
| `BenchBuffer.Buffer.Drain` | kernel/src/serial/bench_buffer.rs:111-127 | sends at most the budget in order and keeps a refused byte pending |
| `BenchMarker.TextRecovered` | kernel/src/serial/bench_buffer.rs:20-37 | a record's text is recovered from its stored bytes |
| `BenchMarker.MarkerParses` | kernel/src/serial/bench_buffer.rs:81-97 | the numbers after the equals signs of a stored loss marker are its eight counters, in order |
| `BenchMarker.MarkerExact` | kernel/src/serial/bench_buffer.rs:81-97 | markers that read alike come from the same counters |
| `BenchRuns.DrainSendsAll` | kernel/src/serial/bench_buffer.rs:111-127 | a drain sends the oldest waiting bytes and stops only when the budget or the queue is used up or the UART refuses, which is counted |
| `BenchRuns.NothingTorn` | kernel/src/serial/bench_buffer.rs:71-127 | over every run and any UART, bytes sent, then the pending byte, then the ring are the whole accepted records and markers in order |
| `BenchRuns.LossesExact` | kernel/src/serial/bench_buffer.rs:98-131 | `dropped` and each cause counter are the saturated true totals |
| `BenchRuns.RecordWholeOrDropped` | kernel/src/serial/bench_buffer.rs:98-108 | after any run, a record call settles the loss marker, then the bytes waiting for the wire gain the whole record when it fits, and otherwise gain nothing while exactly one loss of the right cause is counted |
| `BenchRuns.StreamGrows` | kernel/src/serial/bench_buffer.rs:71-127 | no later call takes back or moves a byte that was sent or queued |
| `BenchRuns.RecordKeepsPlace` | kernel/src/serial/bench_buffer.rs:98-127 | an accepted record stays unbroken at its place in the byte stream through every later call and UART behaviour |
| `BenchRuns.LossReported` | kernel/src/serial/bench_buffer.rs:81-127 | after a whole record or drain call, the losses known when it tried to report are reported and their marker is queued, or the marker did not fit; after a drain nothing is unreported unless the marker still does not fit |
| `BenchBuffer.Buffer.Note` | kernel/src/serial/bench_buffer.rs:128-131 | adds contention losses, saturating |
| `Waveform.LevelFromEdges` | scripts/hil/v03d-reduce.py:178-187 | a level is the first level plus the rises so far minus the falls so far |
| `EstopScan.ScanChunk` | scripts/hil/v03d-reduce.py:173-188 | the run-length loop over one chunk extends the per-sample edges |
| `EstopScan.Scan` | scripts/hil/v03d-reduce.py:163-192 | for every cutting into chunks, each list holds in ascending order exactly the samples where bit 0 or bit 1 of the capture's bytes moves that way, with the right first and last levels |
| `EstopScan.CuttingIrrelevant` | scripts/hil/v03d-reduce.py:170-188 | the samples depend only on the concatenated bytes |
| `EstopVerdict.NsLimit` | scripts/hil/v03d-reduce.py:43-44 | below one millisecond is below 24,000 samples |
| `EstopVerdict.Validate` | scripts/hil/v03d-reduce.py:47-96 | no complaint exactly when the capture is clean, and then one latency per press |
| `EstopVerdict.CheckPress` | scripts/hil/v03d-reduce.py:65-90 | the checks of one press pass exactly when press, response, release and re-arm come in order |
| `EstopVerdict.UnsafeExactlyWindows` | scripts/hil/v03d-reduce.py:47-96 | in a clean capture the e-stop is low with the output high exactly inside the measured windows |
| `EstopVerdict.Judge` | scripts/hil/v03d-reduce.py:302-346 | PASS exactly when every capture is readable, clean and fast; and then, in the bytes of each capture, the output is high while the e-stop is low only between a fall of the e-stop and a fall of the output fewer than 24,000 samples later |
| `EstopVerdict.GoodIsSafe` | scripts/hil/v03d-reduce.py:302-346 | in the bytes of a good capture the output is high while the e-stop is low only between a fall of the e-stop and a fall of the output fewer than 24,000 samples later |
| `EstopCapture.ProperCapturePasses` | scripts/hil/v03d-reduce.py:47-96 | every capture that begins high, answers each press within 24,000 samples, re-arms only after the release and ends safe is good, however long each level is held and however it is cut |
| `EstopVerdict.PassMeansSafe` | scripts/hil/v03d-reduce.py:302-346 | in a passing capture a low e-stop means a low output, except within fewer than 24,000 samples after a press |

## Left out

- `register_gpio_route`: it records a route without an attachment, and no production caller uses it.
- Contents of maps (lookup, update, delete, ring-buffer polling): the backing stores are separate data structures.
- The bytecode verifier, interpreter and JIT, signature checking and ELF parsing: their verdicts are parameters.
- The admin entry points that only fix an owner id or default rights (`attach`, `unpin_map`, `pin_map_for` and so on).
- CountersExact: per-owner map caps are stated for owners other than the orphan sentinel u64::MAX, which stands for no caller.
- LastReleaseExact: callers retain and release only frames they hold; `ReleaseAnswersZero` says what a stray release does.
- BumpFramesSound: assumes frame-aligned regions that do not overlap, as the boot loader promises them; so do FreeSetExact, Boot and BootStarts.
- Rights beyond read and write: the two defined bits of the access mask are modelled as booleans.
- Weak memory ordering, spurious failure of weak compare-exchange, and wrap-around of 64-bit epochs and generations.
- Task migration during an execution: an activation stays on the CPU it started on.
- Delivery of interrupts in bounded time: what is proved is that an interrupt or handler is never missing.
- Frames larger than 4 KiB, contiguous allocation through the facade, and address arithmetic that overflows 64 bits.
- The x86_64 arm of the allocator's `deallocate_frame`, which does nothing: in `FrameRefs` its runs are those without the `Return` step, and the facade of `FrameLife` is the other arm.
- PhysicalMemory: its methods take the two locks with no other call between them; `InterleavingAgrees` covers the interleavings, of callers that retain and release what they hold.
- LeasedMapsLive: takes as given that the running program stays loaded; `GuardedRunsSafely` proves that for programs run under a snapshot guard.
- The intrusive list inside the multi-producer queue, which is an external crate: its order is not modelled, and which task a dequeue returns and whether it misses while an enqueue is in progress are parameters.
- The wait channel's other users, child exit and timers: only the pipe's use of it is modelled.
- A caller that forgets a snapshot guard or publishes while holding one.
- Formatting errors raised by a value's own `Display`: a record fails only for lack of room.
- Zip and metadata parsing, percentiles and printing of the reducer: it starts from readable byte chunks.
- Ns: the reducer divides in floating point; the model rounds the exact quotient, which is never a tie, and the verdict depends only on whether it is below one million.
