/** Two runs of a new manager at which an expected property of orphan maps fails. */
module BpfWitness {
  import opened Common
  import opened Handles
  import opened Authorization
  import opened BpfState
  import opened BpfInvariants
  import opened BpfPreservation
  import opened BpfRuns
  import opened BpfOwnership
  import opened BpfOrphans

  /** The limits of the kernel's own unit test, over the embedded profile. */
  const TINY_LIMITS := Limits(2, 4, 32, 16, 1, 16, 1048576, 2, 4, 64, 32, 1, 32, 1, 256, 4096, 4096)

  const ALL_LOAD_MEMORY := LoadMemory(true, true, true)
  const ALL_CREATE_MEMORY := CreateMemory(true, true, true)

  function Start(l: Limits): State {
    Init(Config(l, 1000, true), 500_000_000, 1000)
  }

  lemma StartInv(l: Limits)
    requires ValidLimits(l)
    ensures Inv(Start(l)) && OrphansHeld(Start(l))
  {
    InitInv(Config(l, 1000, true), 500_000_000, 1000);
  }

  /** A run followed by one more operation. */
  lemma Extend(s: State, ops: seq<Op>, op: Op)
    requires Inv(s)
    ensures WellFormed(After(s, ops)) && After(s, ops + [op]) == Apply(After(s, ops), op).state
  {
    hide Inv, Apply, After;
    assert (ops + [op])[..|ops|] == ops;
    AfterStep(s, ops + [op]);
  }

  // -------------------------------------------------------------------------- totals

  lemma OneMapTotal(e: Option<MapEntry>, m: Measure)
    ensures MapTotal([e], m) == MapWeight(e, m)
  {
    var none: seq<Option<MapEntry>> := [];
    assert none + [e] == [e];
    MapTotalAppend(none, e, m);
  }

  lemma TwoMapTotal(e: Option<MapEntry>, f: Option<MapEntry>, m: Measure)
    ensures MapTotal([e, f], m) == MapWeight(e, m) + MapWeight(f, m)
  {
    OneMapTotal(e, m);
    assert [e] + [f] == [e, f];
    MapTotalAppend([e], f, m);
  }

  lemma NoProgramTotal(m: Measure)
    ensures ProgramTotal([], m) == 0
  {
  }

  lemma OneProgramTotal(e: ProgramEntry, m: Measure)
    ensures ProgramTotal([Some(e)], m) == ProgramWeight(Some(e), m)
  {
    var none: seq<Option<ProgramEntry>> := [];
    assert none + [Some(e)] == [Some(e)];
    ProgramTotalAppend(none, Some(e), m);
  }

  // ------------------------------------------------- a map goes while a program stays

  const ENVELOPE := MapEntry(0, ReadOnly, 0, 0, [])
  const PATH := "/deferred-orphan"

  /** One map of eight bytes, in the slot after the reserved map. */
  function WithMap(s: State, owner: nat, grants: seq<Grant>): State {
    s.(maps := Table([Some(ENVELOPE), Some(MapEntry(1, ReadWrite, 8, owner, grants))], [0, 0]),
       liveMaps := 1, mapBytes := 8, nextId := 2)
  }

  function CreateOp(owner: nat): Op {
    OpCreate(owner, MAP_TYPE_ARRAY, 4, 8, 1, ALL_CREATE_MEMORY)
  }

  lemma CreateFirst(l: Limits, owner: nat)
    requires l == TINY_LIMITS || l == EMBEDDED_LIMITS
    ensures WellFormed(Start(l)) && Apply(Start(l), CreateOp(owner)) == Outcome(WithMap(Start(l), owner, []), Handle(1))
  {
    hide MapTotal, FirstReusable;
    var s := Start(l);
    OneMapTotal(Some(ENVELOPE), OwnerObjects(owner));
    OneMapTotal(Some(ENVELOPE), OwnerBytes(owner));
    assert s.maps.slots == [Some(ENVELOPE)];
    assert FirstReusable(s.maps, 0) == 1;
    assert s.maps.slots + [Some(MapEntry(1, ReadWrite, 8, owner, []))]
        == [Some(ENVELOPE), Some(MapEntry(1, ReadWrite, 8, owner, []))];
    assert [0] + [0] == [0, 0];
  }

  function PinOp(owner: nat): Op {
    OpPin(owner, PATH, 1, READ_WRITE, true)
  }

  lemma PinFirst(s: State, owner: nat)
    requires s.config.limits == TINY_LIMITS || s.config.limits == EMBEDDED_LIMITS
    requires WellFormed(s) && s.pins == [] && Live(s.maps, 1) && Entry(s.maps, 1).owner == owner
    ensures Apply(s, PinOp(owner)) == Outcome(s.(pins := [Pin(PATH, 1, owner, READ_WRITE)]), Done)
  {
    assert [] + [Pin(PATH, 1, owner, READ_WRITE)] == [Pin(PATH, 1, owner, READ_WRITE)];
  }

  function LoadOp(owner: nat, referenced: seq<nat>): Op {
    OpLoadRaw(owner, 2, READ_WRITE, Some(Stats(1, referenced)), ALL_LOAD_MEMORY)
  }

  function FirstProgram(owner: nat, maps: seq<Option<Capture>>): ProgramEntry {
    ProgramEntry(ProgramRuntime(2, maps), 1, 16, owner, READ_WRITE)
  }

  lemma LoadFirst(s: State, owner: nat, referenced: seq<nat>, maps: seq<Option<Capture>>)
    requires WellFormed(s) && (s.config.limits == TINY_LIMITS || s.config.limits == EMBEDDED_LIMITS)
    requires s.config.allowUnsigned && s.programs == Table([], []) && s.livePrograms == 0 && s.programBytes == 0
             && s.nextId == 2
    requires CaptureMaps(s.maps, owner, READ_WRITE, referenced) == Captured(maps)
    ensures Apply(s, LoadOp(owner, referenced)) ==
              Outcome(s.(programs := Table([Some(FirstProgram(owner, maps))], [0]), livePrograms := 1,
                         programBytes := 16, nextId := 3), Handle(0))
  {
    hide ProgramTotal, FirstReusable, CaptureMaps;
    NoProgramTotal(OwnerObjects(owner));
    NoProgramTotal(OwnerBytes(owner));
    assert FirstReusable(s.programs, 0) == 0;
    assert [] + [Some(FirstProgram(owner, maps))] == [Some(FirstProgram(owner, maps))];
    assert [] + [0] == [0];
  }

  const DEFERRED_RUN := [CreateOp(7), PinOp(7), LoadOp(8, []), OpReclaim(7, true), OpUnpin(9, PATH, true)]

  /** The manager once the map is pinned and the other owner's program is loaded. */
  function Deferred(): State {
    WithMap(Start(TINY_LIMITS), 7, []).(
      pins := [Pin(PATH, 1, 7, READ_WRITE)], nextId := 3, livePrograms := 1, programBytes := 16,
      programs := Table([Some(FirstProgram(8, [None, None]))], [0]))
  }

  lemma DeferredReached()
    ensures Inv(Start(TINY_LIMITS)) && After(Start(TINY_LIMITS), DEFERRED_RUN[..3]) == Deferred()
  {
    hide Inv, After, Apply, CaptureMaps, EmptySnapshot;
    var s := Start(TINY_LIMITS);
    StartInv(TINY_LIMITS);
    AfterNone(s);
    CreateFirst(TINY_LIMITS, 7);
    Extend(s, [], CreateOp(7));
    assert [] + [CreateOp(7)] == DEFERRED_RUN[..1];
    PinFirst(WithMap(s, 7, []), 7);
    Extend(s, DEFERRED_RUN[..1], PinOp(7));
    assert DEFERRED_RUN[..1] + [PinOp(7)] == DEFERRED_RUN[..2];
    var s2 := WithMap(s, 7, []).(pins := [Pin(PATH, 1, 7, READ_WRITE)]);
    CapturesNothing(s2, 8);
    LoadFirst(s2, 8, [], [None, None]);
    Extend(s, DEFERRED_RUN[..2], LoadOp(8, []));
    assert DEFERRED_RUN[..2] + [LoadOp(8, [])] == DEFERRED_RUN[..3];
  }

  lemma CapturesNothing(s: State, owner: nat)
    requires WellFormed(s) && |s.maps.slots| == 2
    ensures CaptureMaps(s.maps, owner, READ_WRITE, []) == Captured([None, None])
  {
    assert seq<Option<Capture>>(2, _ => None) == [None, None];
  }

  /** The exit of the map's owner leaves the pinned map to nobody and the other owner's program loaded. */
  lemma DeferredExit()
    ensures Inv(Deferred())
    ensures var s := Reclaim(Deferred(), 7, true).state;
            && Inv(s)
            && s.pins == [Pin(PATH, 1, PINNED_MAP_OWNER, READ_WRITE)]
            && s.programs == Deferred().programs
            && |s.maps.slots| == 2 && s.maps.gens == [0, 0]
            && s.maps.slots[0] == Some(ENVELOPE)
            && s.maps.slots[1] == Some(MapEntry(1, ReadWrite, 8, PINNED_MAP_OWNER, []))
  {
    hide Inv, After, Apply, Reclaim, EmptySnapshot, Forgotten, OthersKept, OrphansHeld;
    DeferredReached();
    var d, s := Deferred(), Reclaim(Deferred(), 7, true).state;
    ReclaimCompletesIff(d, 7, true);
    ReclaimComplete(d, 7);
    ReclaimFrame(d, 7);
    ReclaimProgramSlot(d, 7, 0);
    ReclaimMapSlot(d, 7, 0);
    ReclaimMapSlot(d, 7, 1);
    assert s.pins == OrphanPins(d.pins, 7);
    PinnedStays(s, 0);
  }

  lemma PinnedStays(s: State, k: nat)
    requires Inv(s) && k < |s.pins|
    ensures Live(s.maps, s.pins[k].mapId)
  {
    hide TablesOk, HooksOk, ProgramCounts, MapCounts, LedgerMatches, CapturesResolve;
  }

  /** Removing the orphan's last pin empties its slot, and the counters follow. */
  lemma DeferredUnpin(s: State)
    requires Inv(s) && s.pins == [Pin(PATH, 1, PINNED_MAP_OWNER, READ_WRITE)] && s.programs == Deferred().programs
    requires |s.maps.slots| == 2 && s.maps.gens == [0, 0] && s.maps.slots[0] == Some(ENVELOPE)
    requires s.maps.slots[1] == Some(MapEntry(1, ReadWrite, 8, PINNED_MAP_OWNER, []))
    ensures WellFormed(s)
    ensures var s' := Unpin(s, 9, PATH, true).state;
            && !Live(s'.maps, 1) && s'.liveMaps == 0 && s'.mapBytes == 0
            && Live(s'.programs, 0) && Entry(s'.programs, 0).owner == 8 && s'.livePrograms == 1
  {
    hide Inv, Unpin;
    InvWellFormed(s);
    UnpinReclaimsIff(s, 9, PATH, true);
    UnpinShrink(s, 9, PATH, true);
    StepInv(s, OpUnpin(9, PATH, true));
    var s' := Unpin(s, 9, PATH, true).state;
    CountersAre(s');
    assert s'.maps.slots == [s'.maps.slots[0], None];
    TwoMapTotal(s'.maps.slots[0], None, Objects);
    TwoMapTotal(s'.maps.slots[0], None, Bytes);
    OneProgramTotal(FirstProgram(8, [None, None]), Objects);
  }

  lemma CountersAre(s: State)
    requires Inv(s)
    ensures s.livePrograms == ProgramTotal(s.programs.slots, Objects)
    ensures s.liveMaps == MapTotal(s.maps.slots, Objects) && s.mapBytes == MapTotal(s.maps.slots, Bytes)
  {
    hide TablesOk, HooksOk, LedgerMatches, CapturesResolve, PinsResolve, ProgramTotal, MapTotal;
  }

  /**
   The unit test's run: a pinned map outlives its owner and its last pin is removed while an unrelated program is
   loaded. The map is gone at once; no unload of the unrelated program is waited for.
   */
  lemma OrphanGoneBeforeUnload()
    ensures Inv(Start(TINY_LIMITS))
    ensures var s := After(Start(TINY_LIMITS), DEFERRED_RUN);
            && !Live(s.maps, 1) && s.liveMaps == 0 && s.mapBytes == 0
            && Live(s.programs, 0) && Entry(s.programs, 0).owner == 8 && s.livePrograms == 1
  {
    hide Inv, After, Reclaim, Unpin, Deferred, Start;
    var s := Start(TINY_LIMITS);
    DeferredReached();
    DeferredExit();
    Extend(s, DEFERRED_RUN[..3], OpReclaim(7, true));
    assert DEFERRED_RUN[..3] + [OpReclaim(7, true)] == DEFERRED_RUN[..4];
    DeferredUnpin(Reclaim(Deferred(), 7, true).state);
    Extend(s, DEFERRED_RUN[..4], OpUnpin(9, PATH, true));
    assert DEFERRED_RUN[..4] + [OpUnpin(9, PATH, true)] == DEFERRED_RUN;
  }

  // ------------------------------------------------- an exit that stops before the sweep

  const STOPPED_RUN := [
    CreateOp(8), PinOp(8), OpGet(7, PATH, READ_WRITE, true), LoadOp(7, [1]), OpUnpin(8, PATH, false), LoadOp(7, []),
    OpClone(7, 1), OpReclaim(8, true)]

  const SHARED := [None, Some(Capture(0, ReadWrite, 1))]

  function SecondProgram(owner: nat, maps: seq<Option<Capture>>): ProgramEntry {
    ProgramEntry(ProgramRuntime(3, maps), 1, 16, owner, READ_WRITE)
  }

  /** Owner 7 may use the map of owner 8. */
  function Shared(): State {
    WithMap(Start(EMBEDDED_LIMITS), 8, [Grant(7, READ_WRITE)]).(pins := [Pin(PATH, 1, 8, READ_WRITE)])
  }

  /** Owner 7 loaded a program that captured the map and one that did not, and the second is cloned. */
  function Cloned(): State {
    Shared().(
      pins := [], livePrograms := 2, programBytes := 32, nextId := 4, clones := multiset{3},
      programs := Table([Some(FirstProgram(7, SHARED)), Some(SecondProgram(7, [None, None]))], [0, 0]))
  }

  lemma GetFirst()
    ensures var s := WithMap(Start(EMBEDDED_LIMITS), 8, []).(pins := [Pin(PATH, 1, 8, READ_WRITE)]);
            WellFormed(s) && Apply(s, OpGet(7, PATH, READ_WRITE, true)) == Outcome(Shared(), Handle(1))
  {
    hide EmptySnapshot;
    assert [] + [Grant(7, READ_WRITE)] == [Grant(7, READ_WRITE)];
  }

  lemma SharedReached()
    ensures Inv(Start(EMBEDDED_LIMITS)) && After(Start(EMBEDDED_LIMITS), STOPPED_RUN[..3]) == Shared()
  {
    hide Inv, After, Apply, EmptySnapshot;
    var s := Start(EMBEDDED_LIMITS);
    StartInv(EMBEDDED_LIMITS);
    AfterNone(s);
    CreateFirst(EMBEDDED_LIMITS, 8);
    Extend(s, [], CreateOp(8));
    assert [] + [CreateOp(8)] == STOPPED_RUN[..1];
    PinFirst(WithMap(s, 8, []), 8);
    Extend(s, STOPPED_RUN[..1], PinOp(8));
    assert STOPPED_RUN[..1] + [PinOp(8)] == STOPPED_RUN[..2];
    GetFirst();
    Extend(s, STOPPED_RUN[..2], OpGet(7, PATH, READ_WRITE, true));
    assert STOPPED_RUN[..2] + [OpGet(7, PATH, READ_WRITE, true)] == STOPPED_RUN[..3];
  }

  lemma CapturesShared()
    ensures WellFormed(Shared()) && CaptureMaps(Shared().maps, 7, READ_WRITE, [1]) == Captured(SHARED)
  {
    hide EmptySnapshot;
    CapturesNothing(Shared(), 7);
    assert [1][..0] == [];
    assert [None, None][1 := Some(Capture(0, ReadWrite, 1))] == SHARED;
  }

  /** The capturing program is loaded and the map's only pin is gone. */
  function Captured7(): State {
    Shared().(
      pins := [], livePrograms := 1, programBytes := 16, nextId := 3,
      programs := Table([Some(FirstProgram(7, SHARED))], [0]))
  }

  lemma UnpinShared(s: State)
    requires s == Captured7().(pins := [Pin(PATH, 1, 8, READ_WRITE)])
    ensures WellFormed(s) && Apply(s, OpUnpin(8, PATH, false)) == Outcome(Captured7(), Done)
  {
    hide EmptySnapshot, Sweep;
    assert RemoveAt(s.pins, 0) == [];
  }

  lemma CapturedReached()
    ensures Inv(Start(EMBEDDED_LIMITS)) && After(Start(EMBEDDED_LIMITS), STOPPED_RUN[..5]) == Captured7()
  {
    hide Inv, After, Apply, CaptureMaps, EmptySnapshot;
    var s := Start(EMBEDDED_LIMITS);
    SharedReached();
    CapturesShared();
    LoadFirst(Shared(), 7, [1], SHARED);
    Extend(s, STOPPED_RUN[..3], LoadOp(7, [1]));
    assert STOPPED_RUN[..3] + [LoadOp(7, [1])] == STOPPED_RUN[..4];
    UnpinShared(Captured7().(pins := [Pin(PATH, 1, 8, READ_WRITE)]));
    Extend(s, STOPPED_RUN[..4], OpUnpin(8, PATH, false));
    assert STOPPED_RUN[..4] + [OpUnpin(8, PATH, false)] == STOPPED_RUN[..5];
  }

  lemma LoadSecond()
    ensures var s := Captured7();
            && WellFormed(s)
            && Apply(s, LoadOp(7, [])) == Outcome(Cloned().(clones := multiset{}), Handle(1))
  {
    hide ProgramTotal, FirstReusable, CaptureMaps, EmptySnapshot;
    var s := Captured7();
    CapturesNothing(s, 7);
    OneProgramTotal(FirstProgram(7, SHARED), OwnerObjects(7));
    OneProgramTotal(FirstProgram(7, SHARED), OwnerBytes(7));
    assert FirstReusable(s.programs, 0) == 1;
    assert s.programs.slots + [Some(SecondProgram(7, [None, None]))] == Cloned().programs.slots;
    assert [0] + [0] == [0, 0];
  }

  lemma ClonedReached()
    ensures Inv(Start(EMBEDDED_LIMITS)) && After(Start(EMBEDDED_LIMITS), STOPPED_RUN[..7]) == Cloned()
  {
    hide Inv, After, CaptureMaps, EmptySnapshot, ProgramQuota;
    var s := Start(EMBEDDED_LIMITS);
    CapturedReached();
    LoadSecond();
    Extend(s, STOPPED_RUN[..5], LoadOp(7, []));
    assert STOPPED_RUN[..5] + [LoadOp(7, [])] == STOPPED_RUN[..6];
    Extend(s, STOPPED_RUN[..6], OpClone(7, 1));
    assert STOPPED_RUN[..6] + [OpClone(7, 1)] == STOPPED_RUN[..7];
  }

  /** The exit of the map's owner orphans the captured map and touches nothing of owner 7. */
  lemma ClonedExit()
    ensures Inv(Cloned())
    ensures var s := Reclaim(Cloned(), 8, true).state;
            && Inv(s) && s.programs == Cloned().programs && s.clones == multiset{3} && s.pins == []
            && |s.maps.slots| == 2 && s.maps.gens == [0, 0]
            && s.maps.slots[1].Some? && s.maps.slots[1].value.runtime == 1 && Orphan(s.maps.slots[1].value)
  {
    hide Inv, After, Apply, Reclaim, EmptySnapshot, Forgotten, OthersKept, OrphansHeld, UnownedAttachments, OwnedKeys;
    ClonedReached();
    var d, s := Cloned(), Reclaim(Cloned(), 8, true).state;
    ReclaimCompletesIff(d, 8, true);
    ReclaimComplete(d, 8);
    ReclaimFrame(d, 8);
    ReclaimProgramSlot(d, 8, 0);
    ReclaimProgramSlot(d, 8, 1);
    ReclaimMapSlot(d, 8, 1);
    CapturedStays(s, 0, 1);
    ClonesStay(d);
  }

  lemma ClonesStay(s: State)
    requires WellFormed(s)
    ensures Reclaim(s, 8, true).state.clones == s.clones
  {
    ExitClones(s, OpReclaim(8, true));
    hide Reclaim;
  }

  lemma CapturedStays(s: State, j: nat, k: nat)
    requires Inv(s) && Occupied(s.programs, j) && k < |s.programs.slots[j].value.program.maps|
    requires s.programs.slots[j].value.program.maps[k].Some?
    ensures Occupied(s.maps, k)
  {
    hide TablesOk, HooksOk, ProgramCounts, MapCounts, LedgerMatches, PinsResolve;
    assert EntryResolves(s.maps, s.programs.slots[j].value);
  }

  /**
   Owner 7 exits while its second program is cloned. Its first program goes, and with it the only capture of the map
   that owner 8 left behind. The exit answers false before the sweep, so an orphan remains that nothing holds.
   */
  lemma OrphanLeftUnheld()
    ensures Inv(Start(EMBEDDED_LIMITS)) && OrphansHeld(Start(EMBEDDED_LIMITS))
    ensures WellFormed(After(Start(EMBEDDED_LIMITS), STOPPED_RUN))
            && OrphansHeld(After(Start(EMBEDDED_LIMITS), STOPPED_RUN))
    ensures var r := Reclaim(After(Start(EMBEDDED_LIMITS), STOPPED_RUN), 7, true);
            r.reply == Reclaimed(false) && WellFormed(r.state) && !OrphansHeld(r.state)
  {
    hide Inv, After, Reclaim, EmptySnapshot, OrphansHeld;
    StartInv(EMBEDDED_LIMITS);
    ClonedReached();
    ClonedExit();
    Extend(Start(EMBEDDED_LIMITS), STOPPED_RUN[..7], OpReclaim(8, true));
    assert STOPPED_RUN[..7] + [OpReclaim(8, true)] == STOPPED_RUN;
    ReclaimCompletesIff(Cloned(), 8, true);
    ReclaimHoldsOrphans(Cloned(), 8);
    StoppedExit(Reclaim(Cloned(), 8, true).state);
  }

  lemma StoppedExit(s: State)
    requires Inv(s) && s.programs == Cloned().programs && s.clones == multiset{3} && s.pins == []
    requires |s.maps.slots| == 2 && s.maps.gens == [0, 0]
    requires s.maps.slots[1].Some? && s.maps.slots[1].value.runtime == 1 && Orphan(s.maps.slots[1].value)
    ensures WellFormed(s)
    ensures var r := Reclaim(s, 7, true); r.reply == Reclaimed(false) && WellFormed(r.state) && !OrphansHeld(r.state)
  {
    hide Inv, Reclaim, EmptySnapshot, OrphansHeld;
    InvWellFormed(s);
    assert ClonedInFlight(s, 7, 1);
    IncompleteReclaimOrphans(s, 7);
    InvWellFormed(Reclaim(s, 7, true).state);
    assert !CapturedBySurvivor(s, 7, 1);
  }
}
