/** Orphan maps over every run: which operations can leave one that nothing holds, and exactly when. */
module BpfOrphans {
  import opened Handles
  import opened Authorization
  import opened Admission
  import opened BpfState
  import opened BpfInvariants
  import opened BpfPreservation
  import opened BpfRuns
  import opened BpfTheorems
  import opened BpfOwnership

  // -------------------------------------------------------------------- one step at a time

  /** Holding is kept when no orphan appears and neither pins nor captures of orphans go away. */
  lemma OrphansStillHeld(s: State, s': State)
    requires WellFormed(s) && WellFormed(s') && OrphansHeld(s)
    requires forall i :: Occupied(s'.maps, i) && Orphan(s'.maps.slots[i].value) ==>
               && Occupied(s.maps, i) && Orphan(s.maps.slots[i].value) && s'.maps.gens[i] == s.maps.gens[i]
               && s'.maps.slots[i].value.runtime == s.maps.slots[i].value.runtime
               && (Pinned(s.pins, HandleOf(s.maps, i)) ==> Pinned(s'.pins, HandleOf(s.maps, i)))
    requires forall i :: Occupied(s.programs, i) ==>
               Occupied(s'.programs, i) && s'.programs.slots[i] == s.programs.slots[i]
    ensures OrphansHeld(s')
  {
    forall i | Occupied(s'.maps, i) && Orphan(s'.maps.slots[i].value)
      ensures Pinned(s'.pins, HandleOf(s'.maps, i)) || CapturedBySome(s'.programs, s'.maps.slots[i].value.runtime)
    {
      var runtime := s.maps.slots[i].value.runtime;
      if CapturedBySome(s.programs, runtime) {
        var j :| Occupied(s.programs, j) && CapturesRuntime(s.programs.slots[j].value, runtime);
        assert Occupied(s'.programs, j);
      }
    }
  }

  lemma LoadHoldsOrphans(s: State, op: Op)
    requires Inv(s) && OrphansHeld(s) && Loads(op)
    ensures Inv(Apply(s, op).state) && OrphansHeld(Apply(s, op).state)
  {
    StepInv(s, op);
    LoadFrame(s, op);
    var o, a, st, c, m := LoadIsRegister(s, op);
    RegisterLater(s, o, a, st, c, m);
    var s' := Apply(s, op).state;
    assert WellFormed(s) && WellFormed(s');
    hide Inv, Apply, Register;
    forall i | Occupied(s.programs, i)
      ensures Occupied(s'.programs, i) && s'.programs.slots[i] == s.programs.slots[i]
    {
      OccupiedLive(s.programs, i);
      assert s' == s || Live(s'.programs, HandleOf(s.programs, i));
    }
    OrphansStillHeld(s, s');
  }

  /** No orphan appears in or changes identity between two map tables. */
  ghost predicate NoNewOrphans(t: Table<MapEntry>, u: Table<MapEntry>)
    requires |t.slots| == |t.gens| && |u.slots| == |u.gens|
  {
    forall i :: Occupied(u, i) && Orphan(u.slots[i].value) ==>
      && Occupied(t, i) && Orphan(t.slots[i].value) && u.gens[i] == t.gens[i]
      && u.slots[i].value.runtime == t.slots[i].value.runtime
  }

  lemma CreateOrphans(s: State, op: Op)
    requires WellFormed(s) && op.OpCreate? && op.owner != PINNED_MAP_OWNER && WellFormed(Apply(s, op).state)
    ensures NoNewOrphans(s.maps, Apply(s, op).state.maps)
  {
    hide MapQuota, AllocationCharge;
  }

  lemma GetOrphans(s: State, op: Op)
    requires WellFormed(s) && op.OpGet? && WellFormed(Apply(s, op).state)
    ensures NoNewOrphans(s.maps, Apply(s, op).state.maps)
  {
    hide FindPin, GrantTo;
  }

  lemma DestroyOrphans(s: State, op: Op)
    requires WellFormed(s) && op.OpDestroy? && WellFormed(Apply(s, op).state)
    ensures NoNewOrphans(s.maps, Apply(s, op).state.maps)
  {
    hide MapStrongCount, Pinned;
  }

  lemma MapOpHoldsOrphans(s: State, op: Op)
    requires Inv(s) && OrphansHeld(s) && (op.OpCreate? || op.OpGet? || op.OpDestroy?)
    requires op.OpCreate? ==> op.owner != PINNED_MAP_OWNER
    ensures Inv(Apply(s, op).state) && OrphansHeld(Apply(s, op).state)
  {
    StepInv(s, op);
    MapFrame(s, op);
    var s' := Apply(s, op).state;
    assert WellFormed(s) && WellFormed(s');
    hide Inv, Apply;
    if op.OpCreate? {
      CreateOrphans(s, op);
    } else if op.OpGet? {
      GetOrphans(s, op);
    } else {
      DestroyOrphans(s, op);
    }
    OrphansStillHeld(s, s');
  }

  lemma PinnedOrRemoved(pins: seq<Pin>, k: nat, m: nat)
    requires k < |pins| && Pinned(pins, m)
    ensures Pinned(RemoveAt(pins, k), m) || m == pins[k].mapId
  {
    var j :| 0 <= j < |pins| && pins[j].mapId == m;
    if j != k {
      assert RemoveAt(pins, k)[if j < k then j else j - 1] == pins[j];
    }
  }

  lemma UnpinHoldsOrphans(s: State, owner: nat, path: string, cleanup: bool)
    requires Inv(s) && OrphansHeld(s)
    ensures Inv(Unpin(s, owner, path, cleanup).state) && OrphansHeld(Unpin(s, owner, path, cleanup).state)
  {
    hide Inv, OrphansHeld, Sweep, FindPin, RemoveAt, Pinned;
    InvWellFormed(s);
    UnpinInv(s, owner, path, cleanup);
    var k := FindPin(s.pins, path);
    if k < |s.pins| {
      var s' := s.(pins := RemoveAt(s.pins, k));
      UnpinnedInv(s, k);
      if !Pinned(s'.pins, s.pins[k].mapId) && Live(s.maps, s.pins[k].mapId)
         && Entry(s.maps, s.pins[k].mapId).owner == PINNED_MAP_OWNER {
        SweepHolds(s');
      } else {
        UnpinUnswept(s, k);
      }
    }
  }

  lemma UnpinnedInv(s: State, k: nat)
    requires Inv(s) && k < |s.pins|
    ensures Inv(s.(pins := RemoveAt(s.pins, k)))
  {
    hide TablesOk, CapturesResolve, HooksOk, ProgramCounts, MapCounts, LedgerMatches;
    var s' := s.(pins := RemoveAt(s.pins, k));
    assert forall i :: 0 <= i < |s'.pins| ==> s'.pins[i] == s.pins[if i < k then i else i + 1];
  }

  /** An unpin that does not sweep removed a pin its map does not depend on. */
  lemma UnpinUnswept(s: State, k: nat)
    requires Inv(s) && OrphansHeld(s) && k < |s.pins|
    requires Live(s.maps, s.pins[k].mapId) && Entry(s.maps, s.pins[k].mapId).owner == PINNED_MAP_OWNER ==>
               Pinned(RemoveAt(s.pins, k), s.pins[k].mapId)
    ensures WellFormed(s) && OrphansHeld(s.(pins := RemoveAt(s.pins, k)))
  {
    hide Inv, Pinned, RemoveAt, OrphansHeld;
    InvWellFormed(s);
    forall i | Occupied(s.maps, i) && Orphan(s.maps.slots[i].value) && Pinned(s.pins, HandleOf(s.maps, i))
      ensures Pinned(RemoveAt(s.pins, k), HandleOf(s.maps, i))
    {
      OccupiedLive(s.maps, i);
      PinnedOrRemoved(s.pins, k, HandleOf(s.maps, i));
    }
    OrphansStillHeld(s, s.(pins := RemoveAt(s.pins, k)));
  }

  lemma UnloadHoldsOrphans(s: State, owner: nat, prog: nat)
    requires Inv(s) && OrphansHeld(s)
    ensures Inv(Unload(s, owner, prog).state) && OrphansHeld(Unload(s, owner, prog).state)
  {
    UnloadInv(s, owner, prog);
    assert WellFormed(s);
    hide Inv, OrphansHeld, FreePrograms, ProgramStrongCount;
    if Unload(s, owner, prog).reply.Done? {
      UnloadIsFree(s, owner, prog);
      FreeProgramsInv(s, {Slot(prog)});
      SweepHolds(Unloaded(s, prog));
    }
  }

  lemma QuietHoldsOrphans(s: State, op: Op)
    requires Inv(s) && OrphansHeld(s) && (Hooks(op) || op.OpPin? || op.OpClone? || op.OpDropClone?)
    ensures Inv(Apply(s, op).state) && OrphansHeld(Apply(s, op).state)
  {
    StepInv(s, op);
    var s' := Apply(s, op).state;
    assert WellFormed(s) && WellFormed(s');
    hide Inv, Apply;
    if Hooks(op) {
      HookFrame(s, op);
    } else {
      PinFrame(s, op);
      PinGrows(s, op);
    }
    OrphansStillHeld(s, s');
  }

  lemma PinGrows(s: State, op: Op)
    requires WellFormed(s) && (op.OpPin? || op.OpClone? || op.OpDropClone?)
    ensures forall m :: Pinned(s.pins, m) ==> Pinned(Apply(s, op).state.pins, m)
  {
    forall m | Pinned(s.pins, m)
      ensures Pinned(Apply(s, op).state.pins, m)
    {
      var j :| 0 <= j < |s.pins| && s.pins[j].mapId == m;
      assert Apply(s, op).state.pins[j] == s.pins[j];
    }
  }

  // ---------------------------------------------------------- exits that meet a clone

  /** Some program the exit cannot free captured the map in this slot. */
  ghost predicate CapturedBySurvivor(s: State, owner: nat, i: nat)
    requires Occupied(s.maps, i)
  {
    exists j :: SurvivesExit(s, owner, j) && CapturesRuntime(s.programs.slots[j].value, s.maps.slots[i].value.runtime)
  }

  /** Every unpinned orphan is captured by a program the exit cannot free. */
  ghost predicate ExitKeepsOrphans(s: State, owner: nat)
    requires WellFormed(s)
  {
    forall i :: Occupied(s.maps, i) && Orphan(s.maps.slots[i].value) && !Pinned(s.pins, HandleOf(s.maps, i)) ==>
      CapturedBySurvivor(s, owner, i)
  }

  /**
   An owner exit that meets a clone answers false before the sweep. Orphans are still held after it exactly when
   each unpinned one was captured by a program the exit could not free.
   */
  lemma IncompleteReclaimOrphans(s: State, owner: nat)
    requires Inv(s) && exists i :: ClonedInFlight(s, owner, i)
    ensures var r := Reclaim(s, owner, true);
            && r.reply == Reclaimed(false) && Inv(r.state)
            && (OrphansHeld(r.state) <==> ExitKeepsOrphans(s, owner))
  {
    hide Inv, ReclaimPrograms, Reclaim, ClonedInFlight, OrphansHeld, ExitKeepsOrphans;
    InvWellFormed(s);
    ReclaimCompletesIff(s, owner, true);
    ReclaimAnswers(s, owner);
    ReclaimProgramsInv(s, owner);
    InvWellFormed(ReclaimPrograms(s, owner));
    ReclaimProgramsFrame(s, owner);
    SurvivorsHold(s, owner);
  }

  lemma ReclaimAnswers(s: State, owner: nat)
    requires WellFormed(s)
    ensures Reclaim(s, owner, true).reply == Reclaimed(true) || Reclaim(s, owner, true).reply == Reclaimed(false)
  {
    hide ReclaimPrograms, Sweep, ReleaseMaps;
  }

  lemma SurvivorsHold(s: State, owner: nat)
    requires Inv(s) && WellFormed(ReclaimPrograms(s, owner))
    ensures OrphansHeld(ReclaimPrograms(s, owner)) <==> ExitKeepsOrphans(s, owner)
  {
    hide Inv, ReclaimPrograms, SurvivesExit, CapturesRuntime, Pinned;
    InvWellFormed(s);
    ReclaimProgramsFrame(s, owner);
    var s' := ReclaimPrograms(s, owner);
    forall i | Occupied(s.maps, i)
      ensures HandleOf(s'.maps, i) == HandleOf(s.maps, i)
      ensures Pinned(s'.pins, HandleOf(s.maps, i)) <==> Pinned(s.pins, HandleOf(s.maps, i))
      ensures CapturedBySome(s'.programs, s.maps.slots[i].value.runtime) <==> CapturedBySurvivor(s, owner, i)
    {
      OrphanPinsPinned(s.pins, owner, HandleOf(s.maps, i));
      SurvivorsCapture(s, owner, i);
    }
  }

  lemma SurvivorsCapture(s: State, owner: nat, i: nat)
    requires Inv(s) && Occupied(s.maps, i)
    ensures CapturedBySome(ReclaimPrograms(s, owner).programs, s.maps.slots[i].value.runtime) <==>
              CapturedBySurvivor(s, owner, i)
  {
    hide Inv, ReclaimPrograms, SurvivesExit, CapturesRuntime;
    InvWellFormed(s);
    forall j
      ensures Occupied(ReclaimPrograms(s, owner).programs, j) <==> SurvivesExit(s, owner, j)
      ensures SurvivesExit(s, owner, j) ==>
                Occupied(s.programs, j) && ReclaimPrograms(s, owner).programs.slots[j] == s.programs.slots[j]
    {
      ReclaimSurvivors(s, owner, j);
    }
  }

  lemma ReclaimSurvivors(s: State, owner: nat, j: int)
    requires Inv(s)
    ensures var s' := ReclaimPrograms(s, owner);
            && (Occupied(s'.programs, j) <==> SurvivesExit(s, owner, j))
            && (Occupied(s'.programs, j) ==> Occupied(s.programs, j) && s'.programs.slots[j] == s.programs.slots[j])
  {
    hide Inv, ReclaimPrograms;
    InvWellFormed(s);
    ReclaimProgramsFrame(s, owner);
    if 0 <= j < |s.programs.slots| {
      ReclaimProgramSlot(s, owner, j);
    }
  }

  lemma ReclaimProgramsFrame(s: State, owner: nat)
    requires WellFormed(s)
    ensures var s' := ReclaimPrograms(s, owner);
            && |s'.programs.slots| == |s.programs.slots|
            && s'.maps == s.maps.(slots := RevokeAll(s.maps.slots, owner))
            && s'.pins == OrphanPins(s.pins, owner)
            && (Reclaim(s, owner, true).reply == Reclaimed(false) ==> Reclaim(s, owner, true).state == s')
  {
    hide FreeablePrograms, Project, UnownedAttachments, ReleaseAll, ReleaseMaps, Sweep;
  }

  lemma OrphanPinsPinned(pins: seq<Pin>, owner: nat, m: nat)
    ensures Pinned(OrphanPins(pins, owner), m) <==> Pinned(pins, m)
  {
    if Pinned(pins, m) {
      var j :| 0 <= j < |pins| && pins[j].mapId == m;
      assert OrphanPins(pins, owner)[j].mapId == m;
    }
  }

  /** The exit of the owner leaves this program loaded. */
  ghost predicate SurvivesExit(s: State, owner: nat, j: int) {
    Occupied(s.programs, j) && (s.programs.slots[j].value.owner != owner || ClonedInFlight(s, owner, j))
  }

  // ---------------------------------------------------------------------- every operation

  /** The sentinel owner's new map is an orphan nothing pins and nothing captured. */
  lemma SentinelOrphan(s: State, op: Op)
    requires Inv(s) && op.OpCreate? && op.owner == PINNED_MAP_OWNER && Apply(s, op).reply.Handle?
    ensures WellFormed(Apply(s, op).state) && !OrphansHeld(Apply(s, op).state)
  {
    StepInv(s, op);
    CreateLater(s, op);
    MapFrame(s, op);
    var s', h := Apply(s, op).state, Apply(s, op).reply.id;
    CreatedEntry(s, op);
    NothingHolds(s, h);
    InvWellFormed(s');
    hide Inv, Apply, Pinned, CapturedBySome;
    HandleUnique(s'.maps, h);
  }

  lemma CreatedEntry(s: State, op: Op)
    requires WellFormed(s) && op.OpCreate? && Apply(s, op).reply.Handle?
    ensures var s', h := Apply(s, op).state, Apply(s, op).reply.id;
            && Live(s'.maps, h) && !Live(s.maps, h)
            && Entry(s'.maps, h).owner == op.owner && Entry(s'.maps, h).charge > 0
               && Entry(s'.maps, h).runtime == s.nextId
  {
    hide MapQuota, Insert;
    var charge := AllocationCharge(s.config.limits, op.mapType, op.keySize, op.valueSize, op.maxEntries);
    InsertEffect(s.maps, s.config.limits.maxMapSlots, MapEntry(s.nextId, ReadWrite, charge.bytes, op.owner, []),
                 op.createMemory.slot, op.createMemory.generation);
  }

  /** A dead handle is not pinned and a fresh identity is not captured. */
  lemma NothingHolds(s: State, h: nat)
    requires Inv(s) && !Live(s.maps, h)
    ensures !Pinned(s.pins, h) && !CapturedBySome(s.programs, s.nextId)
  {
    hide HooksOk, ProgramCounts, MapCounts, LedgerMatches;
    forall i | Occupied(s.programs, i)
      ensures !CapturesRuntime(s.programs.slots[i].value, s.nextId)
    {
      assert EntryResolves(s.maps, s.programs.slots[i].value);
    }
  }

  /** The size is valid, the quota has room and the memory is there, which a reused slot needs only for the backing. */
  ghost predicate CreateSucceeds(s: State, op: Op)
    requires op.OpCreate?
  {
    var charge := AllocationCharge(s.config.limits, op.mapType, op.keySize, op.valueSize, op.maxEntries);
    && charge.Charge? && MapQuota(s, op.owner, charge.bytes) && op.createMemory.backing
    && ((exists i :: Reusable(s.maps, i)) || (op.createMemory.slot && op.createMemory.generation))
  }

  /** A map is created exactly when these pre-state conditions hold. */
  lemma CreateSucceedsIff(s: State, op: Op)
    requires Inv(s) && op.OpCreate?
    ensures WellFormed(s) && (Apply(s, op).reply.Handle? <==> CreateSucceeds(s, op))
  {
    hide MapTotal, HooksOk, ProgramCounts, MapCounts, LedgerMatches, CapturesResolve, PinsResolve, AllocationCharge;
    assert FirstReusable(s.maps, 0) < |s.maps.slots| <==> exists i :: Reusable(s.maps, i);
  }

  /**
   What it takes for an operation to leave no orphan unheld. Only two operations can fail it: a map creation by the
   sentinel owner, which stands for no caller, and an owner exit that meets a clone.
   */
  ghost predicate KeepsOrphans(s: State, op: Op)
    requires WellFormed(s)
  {
    && (op.OpCreate? && op.owner == PINNED_MAP_OWNER ==> !CreateSucceeds(s, op))
    && (op.OpReclaim? && op.memory && (exists i :: ClonedInFlight(s, op.owner, i)) ==> ExitKeepsOrphans(s, op.owner))
  }

  lemma ReclaimRefused(s: State, owner: nat)
    requires WellFormed(s)
    ensures Reclaim(s, owner, false) == Outcome(s, Reclaimed(false))
  {
  }

  lemma ReclaimStepOrphans(s: State, owner: nat, memory: bool)
    requires Inv(s) && OrphansHeld(s)
    ensures Inv(Reclaim(s, owner, memory).state)
    ensures OrphansHeld(Reclaim(s, owner, memory).state) <==>
              (memory && (exists i :: ClonedInFlight(s, owner, i)) ==> ExitKeepsOrphans(s, owner))
  {
    hide Inv, OrphansHeld, Reclaim, ClonedInFlight, ExitKeepsOrphans;
    InvWellFormed(s);
    if !memory {
      ReclaimRefused(s, owner);
    } else if exists i :: ClonedInFlight(s, owner, i) {
      IncompleteReclaimOrphans(s, owner);
    } else {
      ReclaimCompletesIff(s, owner, true);
      ReclaimHoldsOrphans(s, owner);
    }
  }

  lemma CreateStepOrphans(s: State, op: Op)
    requires Inv(s) && OrphansHeld(s) && op.OpCreate?
    ensures Inv(Apply(s, op).state)
    ensures OrphansHeld(Apply(s, op).state) <==> (op.owner == PINNED_MAP_OWNER ==> !CreateSucceeds(s, op))
  {
    hide Inv, OrphansHeld, Apply, CreateSucceeds;
    InvWellFormed(s);
    CreateSucceedsIff(s, op);
    StepInv(s, op);
    if op.owner != PINNED_MAP_OWNER {
      MapOpHoldsOrphans(s, op);
    } else if Apply(s, op).reply.Handle? {
      SentinelOrphan(s, op);
    } else {
      CreateReply(s, op);
      FailureChangesNothing(s, op);
    }
  }

  lemma CreateReply(s: State, op: Op)
    requires WellFormed(s) && op.OpCreate?
    ensures Apply(s, op).reply.Handle? || Apply(s, op).reply.Failed?
  {
    hide MapQuota, Insert, AllocationCharge;
  }

  /** Every operation keeps each orphan map pinned or captured, exactly under that condition. */
  lemma OrphansHeldStep(s: State, op: Op)
    requires Inv(s) && OrphansHeld(s)
    ensures WellFormed(s) && Inv(Apply(s, op).state)
    ensures OrphansHeld(Apply(s, op).state) <==> KeepsOrphans(s, op)
  {
    hide Inv, OrphansHeld, Reclaim, Unload, Unpin, ClonedInFlight, ExitKeepsOrphans, CreateSucceeds;
    InvWellFormed(s);
    if op.OpCreate? {
      CreateStepOrphans(s, op);
    } else if op.OpReclaim? {
      ReclaimStepOrphans(s, op.owner, op.memory);
    } else if Loads(op) {
      LoadHoldsOrphans(s, op);
    } else if op.OpGet? || op.OpDestroy? {
      MapOpHoldsOrphans(s, op);
    } else if op.OpUnpin? {
      UnpinHoldsOrphans(s, op.owner, op.path, op.cleanup);
    } else if op.OpUnload? {
      UnloadHoldsOrphans(s, op.owner, op.prog);
    } else {
      QuietHoldsOrphans(s, op);
    }
  }

  // --------------------------------------------------------------------------- every run

  ghost predicate EachKeeps(s: State, ops: seq<Op>)
    requires Inv(s)
  {
    ops != [] ==> EachKeeps(s, ops[..|ops| - 1]) && KeepsOrphans(After(s, ops[..|ops| - 1]), ops[|ops| - 1])
  }

  /** Over every run whose operations meet the condition, each orphan map stays pinned or captured. */
  lemma {:induction false} OrphansHeldRun(s: State, ops: seq<Op>)
    requires Inv(s) && OrphansHeld(s) && EachKeeps(s, ops)
    ensures OrphansHeld(After(s, ops))
  {
    hide Inv, OrphansHeld, Apply, KeepsOrphans, After;
    if ops == [] {
      AfterNone(s);
    } else {
      OrphansHeldRun(s, ops[..|ops| - 1]);
      AfterStep(s, ops);
      OrphansHeldStep(After(s, ops[..|ops| - 1]), ops[|ops| - 1]);
    }
  }

  lemma AfterNone(s: State)
    requires Inv(s)
    ensures After(s, []) == s
  {
  }

  lemma ExitClones(s: State, op: Op)
    requires WellFormed(s) && (op.OpReclaim? || op.OpUnload? || op.OpUnpin? || op.OpPin?)
    ensures Apply(s, op).state.clones == s.clones
  {
    hide Project, MapTotal, ProgramTotal, MapStrongCount, ProgramStrongCount, Sweepable, FreeableMaps, FreeablePrograms,
      UnownedAttachments, ReleaseAll, GpioRoutes.Remove, FindPin;
  }

  /** Only the two clone operations change which clones are in flight. */
  lemma ClonesKept(s: State, op: Op)
    requires WellFormed(s) && !op.OpClone? && !op.OpDropClone?
    ensures Apply(s, op).state.clones == s.clones
  {
    hide Apply;
    if Loads(op) {
      LoadFrame(s, op);
    } else if Hooks(op) {
      HookFrame(s, op);
    } else if op.OpCreate? || op.OpGet? || op.OpDestroy? {
      MapFrame(s, op);
    } else {
      ExitClones(s, op);
    }
  }

  lemma DropNoClone(s: State, op: Op)
    requires WellFormed(s) && op.OpDropClone? && s.clones == multiset{}
    ensures Apply(s, op).state.clones == multiset{}
  {
  }

  /** No caller is the sentinel and no program is cloned: the kernel without its cost instrumentation. */
  predicate Plain(op: Op) {
    !op.OpClone? && (op.OpCreate? ==> op.owner != PINNED_MAP_OWNER)
  }

  /** Then each orphan map is pinned or captured in every reachable state. */
  lemma {:induction false} OrphansHeldAlways(s: State, ops: seq<Op>)
    requires Inv(s) && OrphansHeld(s) && s.clones == multiset{} && forall i :: 0 <= i < |ops| ==> Plain(ops[i])
    ensures OrphansHeld(After(s, ops)) && After(s, ops).clones == multiset{}
  {
    hide Inv, OrphansHeld, Apply, After;
    if ops == [] {
      AfterNone(s);
    } else {
      var prev, op := After(s, ops[..|ops| - 1]), ops[|ops| - 1];
      OrphansHeldAlways(s, ops[..|ops| - 1]);
      AfterStep(s, ops);
      assert Plain(op);
      OrphansHeldStep(prev, op);
      if op.OpDropClone? {
        DropNoClone(prev, op);
      } else {
        ClonesKept(prev, op);
      }
    }
  }

  // ----------------------------------------------------------------- the last pin of an orphan

  /** The caller may remove the pin with this path. */
  ghost predicate MayUnpin(s: State, owner: nat, path: string, cleanup: bool) {
    var k := FindPin(s.pins, path);
    k < |s.pins| && (s.pins[k].owner == owner || (s.pins[k].owner == PINNED_MAP_OWNER && cleanup))
  }

  /** The map of this pin is an orphan and has no other pin. */
  ghost predicate LastPinOfOrphan(s: State, k: nat)
    requires k < |s.pins|
  {
    && Live(s.maps, s.pins[k].mapId) && Entry(s.maps, s.pins[k].mapId).owner == PINNED_MAP_OWNER
    && !Pinned(RemoveAt(s.pins, k), s.pins[k].mapId)
  }

  /**
   Removing the last pin of an orphan map reclaims the map at once, exactly when no loaded program captured it.
   Whether other programs are loaded plays no part.
   */
  lemma UnpinReclaimsIff(s: State, owner: nat, path: string, cleanup: bool)
    requires Inv(s) && MayUnpin(s, owner, path, cleanup) && LastPinOfOrphan(s, FindPin(s.pins, path))
    ensures var m := s.pins[FindPin(s.pins, path)].mapId;
            && Unpin(s, owner, path, cleanup).reply == Done
            && Unpin(s, owner, path, cleanup).state.programs == s.programs
            && (Live(Unpin(s, owner, path, cleanup).state.maps, m) <==>
                CapturedBySome(s.programs, Entry(s.maps, m).runtime))
  {
    hide Inv, FindPin, CapturedBySome;
    InvWellFormed(s);
    var k := FindPin(s.pins, path);
    var m := s.pins[k].mapId;
    OrphanCharged(s, m);
    HandleUnique(s.maps, m);
    MapCountOne(s.programs, Entry(s.maps, m).runtime);
    RetainLater(s.maps, Sweepable(s.(pins := RemoveAt(s.pins, k))));
    hide Pinned, MapStrongCount;
  }

  lemma OrphanCharged(s: State, m: nat)
    requires Inv(s) && Live(s.maps, m) && Entry(s.maps, m).owner == PINNED_MAP_OWNER
    ensures Entry(s.maps, m).charge != 0
  {
    hide HooksOk, ProgramCounts, MapCounts, LedgerMatches, CapturesResolve, PinsResolve;
    assert Occupied(s.maps, Slot(m));
  }
}
