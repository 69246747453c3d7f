/** Whole runs of the manager: what holds after any sequence of operations. */
module BpfRuns {
  import opened Handles
  import opened Authorization
  import opened Admission
  import opened GpioRoutes
  import opened BpfState
  import opened BpfInvariants
  import opened BpfPreservation

  /** The state after a sequence of operations. */
  ghost function After(s: State, ops: seq<Op>): (r: State)
    requires Inv(s)
    ensures Inv(r)
  {
    if ops == [] then s
    else
      var prev := After(s, ops[..|ops| - 1]);
      StepInv(prev, ops[|ops| - 1]);
      Apply(prev, ops[|ops| - 1]).state
  }

  /** The reply of the last operation of a run. */
  ghost function LastReply(s: State, ops: seq<Op>): Reply
    requires Inv(s) && ops != []
  {
    Apply(After(s, ops[..|ops| - 1]), ops[|ops| - 1]).reply
  }

  /** One more operation. */
  lemma AfterStep(s: State, ops: seq<Op>)
    requires Inv(s) && ops != []
    ensures var prev := After(s, ops[..|ops| - 1]);
            && WellFormed(prev) && WellFormed(After(s, ops))
            && After(s, ops) == Apply(prev, ops[|ops| - 1]).state
               && LastReply(s, ops) == Apply(prev, ops[|ops| - 1]).reply
  {
    hide Apply, TablesOk, CapturesResolve, PinsResolve, HooksOk, ProgramCounts, MapCounts, LedgerMatches;
  }

  lemma InvWellFormed(s: State)
    requires Inv(s)
    ensures WellFormed(s)
  {
    hide TablesOk, CapturesResolve, PinsResolve, HooksOk, ProgramCounts, MapCounts, LedgerMatches, Handles.Valid;
  }

  // ------------------------------------------------------------------ what steps can do

  /** No entry appears or changes. */
  ghost predicate ProgramsShrink(t: Table<ProgramEntry>, u: Table<ProgramEntry>) {
    && |u.slots| == |t.slots| && u.gens == t.gens
    && forall i :: Occupied(u, i) ==> u.slots[i] == t.slots[i]
  }

  /** No map appears; a surviving map may lose grants and may become an orphan. */
  ghost predicate MapsShrink(t: Table<MapEntry>, u: Table<MapEntry>) {
    && |u.slots| == |t.slots| && u.gens == t.gens
    && forall i :: Occupied(u, i) ==> Occupied(t, i) && MapDiminished(t.slots[i].value, u.slots[i].value)
  }

  ghost predicate MapDiminished(e: MapEntry, f: MapEntry) {
    && f == e.(owner := f.owner, grants := f.grants)
    && (f.owner == e.owner || f.owner == PINNED_MAP_OWNER)
    && forall g :: g in f.grants ==> g in e.grants
  }

  ghost predicate PinOffers(pins: seq<Pin>, mapId: nat, offered: Access) {
    exists j :: 0 <= j < |pins| && pins[j].mapId == mapId && pins[j].offered == offered
  }

  /** No pin appears and no offer changes. */
  ghost predicate PinsShrink(pins: seq<Pin>, pins': seq<Pin>) {
    forall i :: 0 <= i < |pins'| ==> PinOffers(pins, pins'[i].mapId, pins'[i].offered)
  }

  ghost predicate Loads(op: Op) {
    op.OpLoadRaw? || op.OpLoadBuiltin? || op.OpLoadElf?
  }

  lemma PinsShrinkSame(pins: seq<Pin>)
    ensures PinsShrink(pins, pins)
  {
  }

  lemma FreeMapsShrink(s: State, gone: set<nat>)
    ensures MapsShrink(s.maps, FreeMaps(s, gone).maps)
  {
  }

  lemma MapsShrinkTransitive(t: Table<MapEntry>, u: Table<MapEntry>, v: Table<MapEntry>)
    requires MapsShrink(t, u) && MapsShrink(u, v)
    ensures MapsShrink(t, v)
  {
    forall i | Occupied(v, i)
      ensures Occupied(t, i) && MapDiminished(t.slots[i].value, v.slots[i].value)
    {
      assert Occupied(u, i);
    }
  }

  lemma ReclaimProgramsShrink(s: State, owner: nat)
    requires Inv(s)
    ensures var s' := ReclaimPrograms(s, owner);
            ProgramsShrink(s.programs, s'.programs) && MapsShrink(s.maps, s'.maps) && PinsShrink(s.pins, s'.pins)
  {
    var s' := ReclaimPrograms(s, owner);
    hide Inv, FreeablePrograms, Project, UnownedAttachments, ReleaseAll;
    forall i | 0 <= i < |s'.pins|
      ensures PinOffers(s.pins, s'.pins[i].mapId, s'.pins[i].offered)
    {
      assert s.pins[i].mapId == s'.pins[i].mapId && s.pins[i].offered == s'.pins[i].offered;
    }
  }

  lemma ReleaseMapsShrink(s: State, owner: nat)
    requires WellFormed(s)
    ensures MapsShrink(s.maps, ReleaseMaps(s, owner).maps)
    ensures ReleaseMaps(s, owner).programs == s.programs && ReleaseMaps(s, owner).pins == s.pins
  {
    var gone := FreeableMaps(s, owner);
    FreeMapsShrink(s, gone);
    MapsShrinkTransitive(s.maps, FreeMaps(s, gone).maps, ReleaseMaps(s, owner).maps);
  }

  /** Owner exit creates nothing and changes nothing but ownership and grants. */
  lemma ReclaimShrink(s: State, owner: nat, memory: bool)
    requires Inv(s)
    ensures var s' := Reclaim(s, owner, memory).state;
            ProgramsShrink(s.programs, s'.programs) && MapsShrink(s.maps, s'.maps) && PinsShrink(s.pins, s'.pins)
  {
    hide Inv, ReclaimPrograms, ReleaseMaps, Sweepable, FreeMaps, MapsShrink, ProgramsShrink, PinsShrink, OwnsProgram;
    PinsShrinkSame(s.pins);
    MapsShrinkReflexive(s.maps);
    ProgramsShrinkReflexive(s.programs);
    InvWellFormed(s);
    ReclaimProgramsInv(s, owner);
    ReclaimProgramsShrink(s, owner);
    var s3 := ReclaimPrograms(s, owner);
    InvWellFormed(s3);
    ReleaseMapsInv(s3, owner);
    var s4 := ReleaseMaps(s3, owner);
    InvWellFormed(s4);
    ReleaseMapsShrink(s3, owner);
    FreeMapsShrink(s4, Sweepable(s4));
    FreeMapsFrame(s4, Sweepable(s4));
    MapsShrinkTransitive(s.maps, s3.maps, s4.maps);
    MapsShrinkTransitive(s.maps, s4.maps, Sweep(s4).maps);
  }

  lemma MapsShrinkReflexive(t: Table<MapEntry>)
    ensures MapsShrink(t, t)
  {
  }

  lemma ProgramsShrinkReflexive(t: Table<ProgramEntry>)
    ensures ProgramsShrink(t, t)
  {
  }

  lemma UnloadShrink(s: State, owner: nat, prog: nat)
    requires Inv(s)
    ensures var s' := Unload(s, owner, prog).state;
            ProgramsShrink(s.programs, s'.programs) && MapsShrink(s.maps, s'.maps) && s'.pins == s.pins
  {
    assert WellFormed(s);
    hide Inv, Sweepable, Project;
    if Unload(s, owner, prog).reply.Done? {
      FreeMapsShrink(Unloaded(s, prog), Sweepable(Unloaded(s, prog)));
    }
  }

  lemma UnpinShrink(s: State, owner: nat, path: string, cleanup: bool)
    requires Inv(s)
    ensures var s' := Unpin(s, owner, path, cleanup).state;
            s'.programs == s.programs && MapsShrink(s.maps, s'.maps) && PinsShrink(s.pins, s'.pins)
  {
    PinsShrinkSame(s.pins);
    MapsShrinkReflexive(s.maps);
    assert WellFormed(s);
    hide Inv, Sweepable, MapsShrink, PinsShrink, FreeMaps, FindPin, RemoveAt;
    var r := Unpin(s, owner, path, cleanup);
    if r.reply.Done? {
      var k := FindPin(s.pins, path);
      RemoveAtShrinks(s.pins, k);
      var s' := s.(pins := RemoveAt(s.pins, k));
      FreeMapsShrink(s', Sweepable(s'));
      FreeMapsFrame(s', Sweepable(s'));
    }
  }

  lemma FreeMapsFrame(s: State, gone: set<nat>)
    ensures FreeMaps(s, gone).programs == s.programs && FreeMaps(s, gone).pins == s.pins
  {
  }

  lemma RemoveAtShrinks(pins: seq<Pin>, k: nat)
    requires k < |pins|
    ensures PinsShrink(pins, RemoveAt(pins, k))
  {
    var rest := RemoveAt(pins, k);
    forall i | 0 <= i < |rest|
      ensures PinOffers(pins, rest[i].mapId, rest[i].offered)
    {
      assert rest[i] == pins[if i < k then i else i + 1];
    }
  }

  ghost predicate Hooks(op: Op) {
    op.OpAttach? || op.OpAttachGpio? || op.OpDetach? || op.OpDetachFor?
  }

  /** A load touches only the program table, its counters and the id supply. */
  lemma LoadFrame(s: State, op: Op)
    requires WellFormed(s) && Loads(op)
    ensures var s' := Apply(s, op).state;
            s' == s.(programs := s'.programs, livePrograms := s'.livePrograms, programBytes := s'.programBytes,
                     nextId := s'.nextId)
  {
    hide ProgramQuota, CaptureMaps, Insert;
  }

  /** Attaching and detaching touch only attachments, admission, routes and the snapshot. */
  lemma HookFrame(s: State, op: Op)
    requires WellFormed(s) && Hooks(op)
    ensures var s' := Apply(s, op).state;
            s' == s.(attachments := s'.attachments, ledger := s'.ledger, routes := s'.routes, published := s'.published)
  {
    hide AttachFor, AttachGpio, Detach;
    match op
    case OpAttach(o, h, p, a, m) => AttachFrame(s, o, h, p, a, m);
    case OpAttachGpio(o, c, pin, e, p, a, m) => AttachGpioFrame(s, o, c, pin, e, p, a, m);
    case OpDetach(h, p, m) => DetachFrame(s, h, p, m);
    case OpDetachFor(o, h, p, m) => DetachFrame(s, h, p, m);
  }

  lemma AttachFrame(s: State, owner: nat, hook: nat, prog: nat, accepted: bool, memory: AttachMemory)
    ensures var s' := AttachFor(s, owner, hook, prog, accepted, memory).state;
            s' == s.(attachments := s'.attachments, ledger := s'.ledger, routes := s'.routes, published := s'.published)
  {
    hide Project, Commit, AttachError;
  }

  lemma AttachGpioFrame(s: State, owner: nat, chip: nat, pin: nat, edge: Edge, prog: nat, accepted: bool,
                        memory: AttachMemory)
    ensures var s' := AttachGpio(s, owner, chip, pin, edge, prog, accepted, memory).state;
            s' == s.(attachments := s'.attachments, ledger := s'.ledger, routes := s'.routes, published := s'.published)
  {
    hide Project, Commit, InsertRoute, CanInsert, AttachError;
  }

  lemma DetachFrame(s: State, hook: nat, prog: nat, memory: bool)
    ensures var s' := Detach(s, hook, prog, memory).state;
            s' == s.(attachments := s'.attachments, ledger := s'.ledger, routes := s'.routes, published := s'.published)
  {
    hide Project, Release, GpioRoutes.Remove;
  }

  lemma MapFrame(s: State, op: Op)
    requires WellFormed(s) && (op.OpCreate? || op.OpGet? || op.OpDestroy?)
    ensures var s' := Apply(s, op).state;
            s' == s.(maps := s'.maps, liveMaps := s'.liveMaps, mapBytes := s'.mapBytes, nextId := s'.nextId)
  {
    hide AllocationCharge, MapQuota, Insert, GrantTo, MapStrongCount;
  }

  lemma PinFrame(s: State, op: Op)
    requires WellFormed(s) && (op.OpPin? || op.OpClone? || op.OpDropClone?)
    ensures var s' := Apply(s, op).state;
            s' == s.(pins := s'.pins, clones := s'.clones) && (!op.OpPin? ==> s'.pins == s.pins)
  {
  }

  /** Only loads add programs. */
  lemma StepPrograms(s: State, op: Op)
    requires Inv(s) && !Loads(op)
    ensures ProgramsShrink(s.programs, Apply(s, op).state.programs)
  {
    assert WellFormed(s);
    ProgramsShrinkReflexive(s.programs);
    hide Inv, Apply, ProgramsShrink;
    if op.OpReclaim? || op.OpUnload? || op.OpUnpin? {
      ExitShrink(s, op);
    } else if Hooks(op) {
      HookFrame(s, op);
    } else if op.OpCreate? || op.OpGet? || op.OpDestroy? {
      MapFrame(s, op);
    } else {
      PinFrame(s, op);
    }
  }

  lemma ExitShrink(s: State, op: Op)
    requires Inv(s) && (op.OpReclaim? || op.OpUnload? || op.OpUnpin?)
    ensures var s' := Apply(s, op).state;
            ProgramsShrink(s.programs, s'.programs) && MapsShrink(s.maps, s'.maps) && PinsShrink(s.pins, s'.pins)
  {
    PinsShrinkSame(s.pins);
    ProgramsShrinkReflexive(s.programs);
    assert WellFormed(s);
    hide Inv, Reclaim, Unload, Unpin, ProgramsShrink, MapsShrink, PinsShrink;
    if op.OpReclaim? {
      ReclaimShrink(s, op.owner, op.memory);
    } else if op.OpUnload? {
      UnloadShrink(s, op.owner, op.prog);
    } else {
      UnpinShrink(s, op.owner, op.path, op.cleanup);
    }
  }

  lemma DestroyShrink(s: State, op: Op)
    requires WellFormed(s) && op.OpDestroy?
    ensures MapsShrink(s.maps, Apply(s, op).state.maps)
  {
  }

  /** Only creation adds maps, and only a get of a pinned map adds grants. */
  lemma StepMaps(s: State, op: Op)
    requires Inv(s) && !op.OpCreate? && !op.OpGet?
    ensures MapsShrink(s.maps, Apply(s, op).state.maps)
  {
    assert WellFormed(s);
    MapsShrinkReflexive(s.maps);
    hide Inv, Apply, MapsShrink;
    if op.OpReclaim? || op.OpUnload? || op.OpUnpin? {
      ExitShrink(s, op);
    } else if Hooks(op) {
      HookFrame(s, op);
    } else if Loads(op) {
      LoadFrame(s, op);
    } else if op.OpDestroy? {
      DestroyShrink(s, op);
    } else {
      PinFrame(s, op);
    }
  }

  /** Only pinning adds pins. */
  lemma StepPins(s: State, op: Op)
    requires Inv(s) && !op.OpPin?
    ensures PinsShrink(s.pins, Apply(s, op).state.pins)
  {
    assert WellFormed(s);
    PinsShrinkSame(s.pins);
    hide Inv, Apply, PinsShrink;
    if op.OpReclaim? || op.OpUnload? || op.OpUnpin? {
      ExitShrink(s, op);
    } else if Hooks(op) {
      HookFrame(s, op);
    } else if Loads(op) {
      LoadFrame(s, op);
    } else if op.OpCreate? || op.OpGet? || op.OpDestroy? {
      MapFrame(s, op);
    } else {
      PinFrame(s, op);
    }
  }
}
