/**
 The manager as the object the kernel keeps: vectors, counters and tables updated in place, with the
 loops of kernel/src/bpf/mod.rs. Every method leaves the object in exactly the state `BpfState` gives
 for the same operation, so the theorems about runs hold of the object.
 */
module BpfManager {
  import opened Common
  import opened Handles
  import opened Authorization
  import opened Admission
  import opened GpioRoutes
  import opened BpfState
  import opened BpfInvariants
  import opened BpfPreservation

  lemma {:induction false} SumPrefix(ws: seq<nat>, i: nat)
    requires i <= |ws|
    ensures Sum(ws[..i]) <= Sum(ws)
  {
    if i == |ws| {
      assert ws[..i] == ws;
    } else {
      SumPrefix(ws[..|ws| - 1], i);
      assert ws[..|ws| - 1][..i] == ws[..i];
    }
  }

  lemma SumNext(ws: seq<nat>, i: nat)
    requires i < |ws|
    ensures Sum(ws[..i + 1]) == Sum(ws[..i]) + ws[i]
  {
    assert ws[..i + 1] == ws[..i] + [ws[i]];
    SumAppend(ws[..i], ws[i]);
  }

  /** A capture failure at one handle is the failure of the whole list. */
  lemma {:induction false} CaptureStops(t: Table<MapEntry>, owner: nat, authorized: Access, referenced: seq<nat>,
                                        n: nat)
    requires Handles.Valid(t) && n <= |referenced| && CaptureMaps(t, owner, authorized, referenced[..n]).CaptureFailed?
    ensures CaptureMaps(t, owner, authorized, referenced) == CaptureMaps(t, owner, authorized, referenced[..n])
  {
    if n == |referenced| {
      assert referenced[..n] == referenced;
    } else {
      var init := referenced[..|referenced| - 1];
      assert init[..n] == referenced[..n];
      CaptureStops(t, owner, authorized, init, n);
    }
  }

  /** What the quota and insertion code relies on. */
  lemma InvTables(s: State)
    requires Inv(s)
    ensures WellFormed(s) && ValidLimits(s.config.limits)
    ensures Handles.Valid(s.programs) && |s.programs.slots| == |s.programs.gens|
    ensures Handles.Valid(s.maps) && |s.maps.slots| == |s.maps.gens|
  {
  }

  /** The checked additions that follow a passed quota check cannot fail. */
  lemma ProgramQuotaRoom(s: State, owner: nat, charge: nat)
    requires ValidLimits(s.config.limits) && ProgramQuota(s, owner, charge)
    ensures s.livePrograms + 1 <= USIZE_MAX && s.programBytes + charge <= USIZE_MAX
  {
  }

  lemma MapQuotaRoom(s: State, owner: nat, charge: nat)
    requires ValidLimits(s.config.limits) && MapQuota(s, owner, charge)
    ensures s.liveMaps + 1 <= USIZE_MAX && s.mapBytes + charge <= USIZE_MAX
  {
  }

  lemma InvHooks(s: State)
    requires Inv(s)
    ensures AttachmentsLoaded(s.attachments, s.programs) && FanoutWithin(s.routes, GPIO_IRQ_FANOUT_LIMIT)
  {
  }

  lemma InvLedger(s: State, hook: nat, prog: nat)
    requires Inv(s)
    ensures Balanced(s.ledger) && SafeProfile(s.ledger.budget, s.config.hookFrequency)
    ensures (hook, prog) in s.ledger.per <==> prog in Attached(s.attachments, hook)
  {
  }

  // ----------------------------------------------------------- loops over plain vectors

  /** The slot scan of the quota checks. */
  method FindSlot<T>(slots: seq<Option<T>>, gens: seq<nat>, maxSlots: nat) returns (found: bool)
    requires |slots| == |gens|
    ensures found == HasSlot(Table(slots, gens), maxSlots)
  {
    if |slots| < maxSlots {
      return true;
    }
    ghost var t := Table(slots, gens);
    var i := 0;
    while i < |slots|
      invariant i <= |slots| && FirstReusable(t, 0) == FirstReusable(t, i)
    {
      if slots[i].None? && CanReuse(gens[i]) {
        return true;
      }
      i := i + 1;
    }
    return false;
  }

  /** The owner fold of `ensure_program_quota`: objects and bytes with checked additions. */
  method ProgramOwnerTotals(programs: seq<Option<ProgramEntry>>, owner: nat) returns (r: Option<(nat, nat)>)
    ensures var o, b := ProgramTotal(programs, OwnerObjects(owner)), ProgramTotal(programs, OwnerBytes(owner));
            r == if o <= USIZE_MAX && b <= USIZE_MAX then Some((o, b)) else None
  {
    var objects, bytes := 0, 0;
    ghost var os, bs := ProgramWeights(programs, OwnerObjects(owner)), ProgramWeights(programs, OwnerBytes(owner));
    var i := 0;
    while i < |programs|
      invariant i <= |programs|
      invariant objects == Sum(os[..i]) <= USIZE_MAX && bytes == Sum(bs[..i]) <= USIZE_MAX
    {
      SumNext(os, i);
      SumNext(bs, i);
      if programs[i].Some? && programs[i].value.owner == owner {
        if objects + 1 > USIZE_MAX || bytes + programs[i].value.charge > USIZE_MAX {
          SumPrefix(os, i + 1);
          SumPrefix(bs, i + 1);
          return None;
        }
        objects, bytes := objects + 1, bytes + programs[i].value.charge;
      }
      i := i + 1;
    }
    assert os[..i] == os && bs[..i] == bs;
    return Some((objects, bytes));
  }

  /** The same fold over charged maps. */
  method MapOwnerTotals(maps: seq<Option<MapEntry>>, owner: nat) returns (r: Option<(nat, nat)>)
    ensures var o, b := MapTotal(maps, OwnerObjects(owner)), MapTotal(maps, OwnerBytes(owner));
            r == if o <= USIZE_MAX && b <= USIZE_MAX then Some((o, b)) else None
  {
    var objects, bytes := 0, 0;
    ghost var os, bs := MapWeights(maps, OwnerObjects(owner)), MapWeights(maps, OwnerBytes(owner));
    var i := 0;
    while i < |maps|
      invariant i <= |maps|
      invariant objects == Sum(os[..i]) <= USIZE_MAX && bytes == Sum(bs[..i]) <= USIZE_MAX
    {
      SumNext(os, i);
      SumNext(bs, i);
      if maps[i].Some? && maps[i].value.owner == owner && maps[i].value.charge != 0 {
        if objects + 1 > USIZE_MAX || bytes + maps[i].value.charge > USIZE_MAX {
          SumPrefix(os, i + 1);
          SumPrefix(bs, i + 1);
          return None;
        }
        objects, bytes := objects + 1, bytes + maps[i].value.charge;
      }
      i := i + 1;
    }
    assert os[..i] == os && bs[..i] == bs;
    return Some((objects, bytes));
  }

  class Manager {
    const config: Config
    var programs: seq<Option<ProgramEntry>>
    var programGenerations: seq<nat>
    var maps: seq<Option<MapEntry>>
    var mapGenerations: seq<nat>
    var attachments: Attachments
    var pinnedMaps: seq<Pin>
    var admission: Ledger
    var gpioRoutes: Routes
    var livePrograms: nat
    var programBytes: nat
    var liveMaps: nat
    var mapBytes: nat
    /** The hook snapshot last published, program references held elsewhere, and the next allocation identity. */
    var published: Snapshot
    var clones: multiset<nat>
    var nextId: nat

    ghost function ProgramTable(): Table<ProgramEntry>
      reads this
    {
      Table(programs, programGenerations)
    }

    ghost function MapTable(): Table<MapEntry>
      reads this
    {
      Table(maps, mapGenerations)
    }

    ghost function Model(): State
      reads this
    {
      State(config, ProgramTable(), MapTable(), attachments, pinnedMaps, admission,
            gpioRoutes, livePrograms, programBytes, liveMaps, mapBytes, published, clones, nextId)
    }

    ghost predicate Valid()
      reads this
    {
      Inv(Model())
    }

    /** `new_with_limits`. */
    constructor (config: Config, budget: nat, cycleUnit: nat)
      requires ValidLimits(config.limits) && budget <= U64_MAX && SafeProfile(budget, config.hookFrequency)
      ensures Valid() && Model() == Init(config, budget, cycleUnit)
    {
      hide Inv;
      this.config := config;
      programs, programGenerations := [], [];
      maps, mapGenerations := [Some(MapEntry(0, ReadOnly, 0, 0, []))], [0];
      attachments, pinnedMaps, gpioRoutes := map[], [], map[];
      admission := Ledger(budget, cycleUnit, 0, map[]);
      livePrograms, programBytes, liveMaps, mapBytes := 0, 0, 0, 0;
      published, clones, nextId := EmptySnapshot(), multiset{}, 1;
      new;
      InitInv(config, budget, cycleUnit);
    }

    // ------------------------------------------------------------------------- lookups

    /** `program_entry`. */
    function ProgramAt(handle: nat): (r: Option<ProgramEntry>)
      requires |programs| == |programGenerations|
      reads this
      ensures r.Some? <==> Live(ProgramTable(), handle)
      ensures r.Some? ==> r.value == Entry(ProgramTable(), handle)
    {
      match Decode(programGenerations, handle)
      case None => None
      case Some(slot) => programs[slot]
    }

    /** `map_entry`. */
    function MapAt(handle: nat): (r: Option<MapEntry>)
      requires |maps| == |mapGenerations|
      reads this
      ensures r.Some? <==> Live(MapTable(), handle)
      ensures r.Some? ==> r.value == Entry(MapTable(), handle)
    {
      match Decode(mapGenerations, handle)
      case None => None
      case Some(slot) => maps[slot]
    }

    // ------------------------------------------------------------------------- loading

    /** `ensure_program_quota`. */
    method EnsureProgramQuota(owner: nat, charge: nat) returns (ok: bool)
      requires |programs| == |programGenerations|
      ensures ok == ProgramQuota(Model(), owner, charge)
    {
      var l := config.limits;
      var hasSlot := FindSlot(programs, programGenerations, l.maxProgramSlots);
      if livePrograms >= l.maxLivePrograms || !hasSlot || charge > l.maxSingleProgramBytes {
        return false;
      }
      if programBytes + charge > USIZE_MAX || programBytes + charge > l.maxProgramBytes {
        return false;
      }
      var totals := ProgramOwnerTotals(programs, owner);
      if totals.None? {
        return false;
      }
      var (objects, bytes) := totals.value;
      return objects < l.maxOwnerPrograms && bytes + charge <= USIZE_MAX && bytes + charge <= l.maxOwnerProgramBytes;
    }

    /** `program_maps_for_owner`. */
    method ProgramMapsForOwner(owner: nat, authorized: Access, referenced: seq<nat>) returns (r: Captures)
      requires Handles.Valid(MapTable())
      ensures r == CaptureMaps(MapTable(), owner, authorized, referenced)
    {
      ghost var t := MapTable();
      var acc: seq<Option<Capture>> := seq(|maps|, _ => None);
      var n := 0;
      while n < |referenced|
        invariant n <= |referenced| && |acc| == |maps|
        invariant CaptureMaps(t, owner, authorized, referenced[..n]) == Captured(acc)
      {
        assert referenced[..n + 1][..n] == referenced[..n];
        var handle := referenced[n];
        var entry := MapAt(handle);
        if entry.None? {
          CaptureStops(t, owner, authorized, referenced, n + 1);
          return CaptureFailed(NotLoaded);
        }
        var perm := OwnerPerm(entry.value, owner, authorized);
        if perm == Unavailable {
          CaptureStops(t, owner, authorized, referenced, n + 1);
          return CaptureFailed(PermissionDenied);
        }
        var slot := Slot(handle);
        acc := acc[slot := Some(Capture(mapGenerations[slot], perm, entry.value.runtime))];
        n := n + 1;
      }
      assert referenced[..n] == referenced;
      return Captured(acc);
    }

    /** The insertion and charging half of `register_program`. */
    method StoreProgram(entry: ProgramEntry, memory: LoadMemory) returns (id: Option<nat>, e: InsertError)
      requires Handles.Valid(ProgramTable()) && livePrograms + 1 <= USIZE_MAX
               && programBytes + entry.charge <= USIZE_MAX
      modifies `programs, `programGenerations, `livePrograms, `programBytes, `nextId
      ensures match Insert(old(ProgramTable()), config.limits.maxProgramSlots, entry, memory.slot, memory.generation)
              case Inserted(t, h) =>
                && id == Some(h)
                && Model() == old(Model()).(programs := t, livePrograms := old(livePrograms) + 1,
                                            programBytes := old(programBytes) + entry.charge, nextId := old(nextId) + 1)
              case Refused(x) => id == None && e == x && Model() == old(Model())
    {
      hide Insert, Handles.Valid;
      var slots, gens, r, x := InsertInto(programs, programGenerations, config.limits.maxProgramSlots, entry,
                                          memory.slot, memory.generation);
      if r.None? {
        return None, x;
      }
      PublishProgram(slots, gens, entry.charge);
      return r, x;
    }

    /** The new entry's slot vectors and the counters, together. */
    method PublishProgram(slots: seq<Option<ProgramEntry>>, gens: seq<nat>, charge: nat)
      modifies `programs, `programGenerations, `livePrograms, `programBytes, `nextId
      ensures Model() == old(Model()).(programs := Table(slots, gens), livePrograms := old(livePrograms) + 1,
                                       programBytes := old(programBytes) + charge, nextId := old(nextId) + 1)
    {
      programs, programGenerations := slots, gens;
      livePrograms := livePrograms + 1;
      programBytes := programBytes + charge;
      nextId := nextId + 1;
    }

    /** `register_program`. */
    method RegisterProgram(owner: nat, authorization: Access, stats: Stats, charge: nat, memory: LoadMemory)
      returns (reply: Reply)
      requires Valid()
      modifies `programs, `programGenerations, `livePrograms, `programBytes, `nextId
      ensures Valid() && Outcome(Model(), reply) == Register(old(Model()), owner, authorization, stats, charge, memory)
    {
      hide Inv, CaptureMaps, Insert, ProgramQuota, Handles.Valid;
      RegisterInv(Model(), owner, authorization, stats, charge, memory);
      InvTables(Model());
      var ok := EnsureProgramQuota(owner, charge);
      if !ok {
        return Failed(ResourceLimit);
      }
      if !memory.captures {
        return Failed(OutOfMemory);
      }
      var captured := ProgramMapsForOwner(owner, authorization, stats.referenced);
      if captured.CaptureFailed? {
        return Failed(captured.error);
      }
      var entry := ProgramEntry(ProgramRuntime(nextId, captured.maps), stats.wcet, charge, owner, authorization);
      ProgramQuotaRoom(Model(), owner, charge);
      var id, e := StoreProgram(entry, memory);
      return if id.Some? then Handle(id.value) else Failed(InsertFailure(e));
    }

    /** `load_verified_raw_program`. */
    method LoadVerifiedProgram(owner: nat, insns: nat, authorization: Access, verdict: Option<Stats>,
                               memory: LoadMemory) returns (reply: Reply)
      requires Valid()
      modifies `programs, `programGenerations, `livePrograms, `programBytes, `nextId
      ensures Valid()
              && Outcome(Model(), reply) == LoadVerified(old(Model()), owner, insns, authorization, verdict, memory)
    {
      hide Inv, ProgramQuota, Register;
      InvTables(Model());
      var charge := insns * INSN_BYTES;
      if charge > USIZE_MAX {
        return Failed(ResourceLimit);
      }
      var ok := EnsureProgramQuota(owner, charge);
      if !ok {
        return Failed(ResourceLimit);
      }
      if verdict.None? {
        return Failed(VerificationFailed);
      }
      reply := RegisterProgram(owner, authorization, verdict.value, charge, memory);
    }

    /** `load_raw_program_authorized`. */
    method LoadRawProgram(owner: nat, insns: nat, authorization: Access, verdict: Option<Stats>, memory: LoadMemory)
      returns (reply: Reply)
      requires Valid()
      modifies `programs, `programGenerations, `livePrograms, `programBytes, `nextId
      ensures Valid() && Outcome(Model(), reply) == LoadRaw(old(Model()), owner, insns, authorization, verdict, memory)
    {
      hide Inv, LoadVerified;
      InvTables(Model());
      if !config.allowUnsigned {
        return Failed(SignatureRejected);
      }
      reply := LoadVerifiedProgram(owner, insns, authorization, verdict, memory);
    }

    /** `load_program_authorized`. */
    method LoadElfProgram(owner: nat, bytes: nat, authentic: bool, program: Option<nat>, authorization: Access,
                          verdict: Option<Stats>, memory: LoadMemory) returns (reply: Reply)
      requires Valid()
      modifies `programs, `programGenerations, `livePrograms, `programBytes, `nextId
      ensures Valid() && Outcome(Model(), reply)
                == LoadElf(old(Model()), owner, bytes, authentic, program, authorization, verdict, memory)
    {
      hide Inv, LoadVerified, ProgramQuota;
      InvTables(Model());
      if bytes > config.limits.maxElfBytes {
        return Failed(ResourceLimit);
      }
      var ok := EnsureProgramQuota(owner, 0);
      if !ok {
        return Failed(ResourceLimit);
      }
      if !authentic {
        return Failed(SignatureRejected);
      }
      if program.None? {
        return Failed(NotLoaded);
      }
      reply := LoadVerifiedProgram(owner, program.value, authorization, verdict, memory);
    }

    // -------------------------------------------------------------------- hook snapshot

    /** Resolve one hook's list into the fixed-size snapshot list; the push never overflows it. */
    method ResolvePrograms(ids: seq<nat>, limit: nat) returns (list: seq<nat>)
      requires |programs| == |programGenerations| && |ids| <= limit
      ensures list == RuntimesOf(ProgramTable(), ids)
    {
      ghost var t := ProgramTable();
      list := [];
      var n := 0;
      while n < |ids|
        invariant n <= |ids| && |list| <= n && list == RuntimesOf(t, ids[..n])
      {
        assert ids[..n + 1][..n] == ids[..n];
        var entry := ProgramAt(ids[n]);
        if entry.Some? {
          assert |list| < limit;
          list := list + [entry.value.program.id];
        }
        n := n + 1;
      }
      assert ids[..n] == ids;
    }

    /** Resolve the routes of one pin that a fired edge reaches. */
    method ResolveRoutes(routes: seq<Route>, fired: Edge, limit: nat) returns (list: seq<nat>)
      requires |programs| == |programGenerations| && |Matching(routes, fired)| <= limit
      ensures list == RuntimesOf(ProgramTable(), Matching(routes, fired))
    {
      hide RuntimesOf;
      ghost var t := ProgramTable();
      list := [];
      RuntimesOfNone(t);
      var n := 0;
      while n < |routes|
        invariant n <= |routes| && |list| <= |Matching(routes[..n], fired)|
        invariant list == RuntimesOf(t, Matching(routes[..n], fired))
      {
        ghost var before := Matching(routes[..n], fired);
        assert routes[..n + 1][..n] == routes[..n];
        MatchingPrefix(routes, n + 1, fired);
        if EdgeMatches(routes[n].edge, fired) {
          assert Matching(routes[..n + 1], fired) == before + [routes[n].prog];
          RuntimesOfNext(t, before, routes[n].prog);
          var entry := ProgramAt(routes[n].prog);
          if entry.Some? {
            assert |list| < limit;
            list := list + [entry.value.program.id];
          }
        }
        n := n + 1;
      }
      assert routes[..n] == routes;
    }

    method ResolveHooks() returns (generic: seq<seq<nat>>)
      requires |programs| == |programGenerations| && AttachmentsLoaded(attachments, ProgramTable())
      ensures |generic| == GENERIC_HOOK_SLOTS
      ensures forall h: nat :: h < GENERIC_HOOK_SLOTS ==>
                generic[h] == RuntimesOf(ProgramTable(), Attached(attachments, h))
    {
      hide RuntimesOf;
      ghost var t := ProgramTable();
      generic := seq(GENERIC_HOOK_SLOTS, _ => []);
      assert RuntimesOf(t, []) == [] by { RuntimesOfNone(t); }
      var hooks := attachments.Keys;
      while hooks != {}
        invariant |generic| == GENERIC_HOOK_SLOTS && hooks <= attachments.Keys
        invariant forall h: nat :: h < GENERIC_HOOK_SLOTS ==>
                    generic[h] == if h in hooks then [] else RuntimesOf(t, Attached(attachments, h))
        decreases |hooks|
      {
        var h :| h in hooks;
        assert HookValid(h, attachments[h], t);
        var list := ResolvePrograms(attachments[h], HOOK_FANOUT_LIMIT);
        generic := generic[h := list];
        hooks := hooks - {h};
      }
    }

    method ResolveGpio() returns (gpio: seq<seq<nat>>)
      requires |programs| == |programGenerations| && FanoutWithin(gpioRoutes, GPIO_IRQ_FANOUT_LIMIT)
      ensures |gpio| == GPIO_ROUTE_SLOTS
      ensures forall k: nat :: k < GPIO_ROUTE_SLOTS ==>
                gpio[k] == RuntimesOf(ProgramTable(),
                                      Matching(At(gpioRoutes, 0, k / GPIO_EDGE_SLOTS), EdgeOf(k % GPIO_EDGE_SLOTS + 1)))
    {
      hide RuntimesOf;
      ghost var t := ProgramTable();
      gpio := seq(GPIO_ROUTE_SLOTS, _ => []);
      var pin := 0;
      while pin < GPIO_PIN_COUNT
        invariant pin <= GPIO_PIN_COUNT && |gpio| == GPIO_ROUTE_SLOTS
        invariant forall k: nat :: k < pin * GPIO_EDGE_SLOTS ==>
                    gpio[k] == RuntimesOf(t, Matching(At(gpioRoutes, 0, k / GPIO_EDGE_SLOTS),
                                                      EdgeOf(k % GPIO_EDGE_SLOTS + 1)))
      {
        var flags := 1;
        while flags <= GPIO_EDGE_SLOTS
          invariant 1 <= flags <= GPIO_EDGE_SLOTS + 1 && |gpio| == GPIO_ROUTE_SLOTS
          invariant forall k: nat :: k < pin * GPIO_EDGE_SLOTS + flags - 1 ==>
                      gpio[k] == RuntimesOf(t, Matching(At(gpioRoutes, 0, k / GPIO_EDGE_SLOTS),
                                                        EdgeOf(k % GPIO_EDGE_SLOTS + 1)))
        {
          var index := GpioIndex(0, pin, flags);
          var k := index.value;
          assert k / GPIO_EDGE_SLOTS == pin && k % GPIO_EDGE_SLOTS + 1 == flags;
          var routes := At(gpioRoutes, 0, pin);
          assert |Matching(routes, EdgeOf(flags))| <= GPIO_IRQ_FANOUT_LIMIT;
          var list := ResolveRoutes(routes, EdgeOf(flags), GPIO_IRQ_FANOUT_LIMIT);
          gpio := gpio[k := list];
          flags := flags + 1;
        }
        pin := pin + 1;
      }
    }

    /** `publish_hook_snapshot`. */
    method PublishHookSnapshot()
      requires |programs| == |programGenerations| && AttachmentsLoaded(attachments, ProgramTable())
      requires FanoutWithin(gpioRoutes, GPIO_IRQ_FANOUT_LIMIT)
      modifies `published
      ensures Model() == Publish(old(Model()))
    {
      hide RuntimesOf, AttachmentsLoaded, FanoutWithin;
      var generic := ResolveHooks();
      var gpio := ResolveGpio();
      published := Snapshot(generic, gpio);
      ghost var p := Project(ProgramTable(), attachments, gpioRoutes);
      assert published.generic == p.generic && published.gpio == p.gpio;
    }

    // ---------------------------------------------------------------------- attachment

    /** `ensure_program_owner`. */
    method EnsureProgramOwner(owner: nat, prog: nat) returns (e: Option<Error>)
      requires |programs| == |programGenerations|
      ensures e == OwnerError(Model(), owner, prog)
    {
      var entry := ProgramAt(prog);
      if entry.None? {
        return Some(NotLoaded);
      }
      return if entry.value.owner == owner then None else Some(PermissionDenied);
    }

    /** `commit_attach`. */
    method CommitAttachmentOf(hook: nat, prog: nat, memory: bool) returns (reply: Reply)
      requires |programs| == |programGenerations| && Balanced(admission)
               && SafeProfile(admission.budget, config.hookFrequency)
      requires (hook, prog) in admission.per ==> prog in Attached(attachments, hook)
      modifies `attachments, `admission
      ensures Outcome(Model(), reply) == CommitAttach(old(Model()), hook, prog, memory)
    {
      var entry := ProgramAt(prog);
      if entry.None? {
        return Failed(NotLoaded);
      }
      var r, ledger := CommitAttachment(attachments, admission, hook, prog, entry.value.wcet, config.hookFrequency,
                                        memory);
      if r.NoReservation? {
        AdmitFits(admission, hook, prog, entry.value.wcet, config.hookFrequency);
      }
      admission := ledger;
      match r
      case OverBudget => return Failed(AdmissionRejected);
      case NoReservation => return Failed(OutOfMemory);
      case Committed(a, _) =>
        attachments := a;
        return Done;
    }

    /** `validate_attach_for`; `Done` means already attached. */
    method ValidateAttach(hook: nat, prog: nat, accepted: bool) returns (e: Option<Error>, attached: bool)
      requires |programs| == |programGenerations|
      ensures e == AttachError(Model(), hook, prog, accepted)
      ensures e.None? ==> attached == (prog in Attached(attachments, hook))
    {
      attached := false;
      if !Supported(hook) {
        return Some(InvalidInstruction), false;
      }
      var entry := ProgramAt(prog);
      if entry.None? {
        return Some(NotLoaded), false;
      }
      if !accepted {
        return Some(VerificationFailed), false;
      }
      attached := hook in attachments && prog in attachments[hook];
      if !attached && hook in attachments && |attachments[hook]| >= HOOK_FANOUT_LIMIT {
        return Some(ResourceLimit), false;
      }
      return None, attached;
    }

    /** `attach_for`. */
    method AttachProgram(owner: nat, hook: nat, prog: nat, accepted: bool, memory: AttachMemory) returns (reply: Reply)
      requires Valid()
      modifies `attachments, `admission, `published
      ensures Valid() && Outcome(Model(), reply) == AttachFor(old(Model()), owner, hook, prog, accepted, memory)
    {
      hide Inv, CommitAttach, Project, AttachmentsLoaded, FanoutWithin, AttachError, OwnerError, Balanced;
      ghost var s := Model();
      ghost var r := AttachFor(s, owner, hook, prog, accepted, memory);
      InvTables(s);
      InvLedger(s, hook, prog);
      AttachInv(s, owner, hook, prog, accepted, memory);
      InvHooks(r.state);
      var e := EnsureProgramOwner(owner, prog);
      if e.Some? {
        return Failed(e.value);
      }
      var e', attached := ValidateAttach(hook, prog, accepted);
      if e'.Some? {
        return Failed(e'.value);
      }
      if attached {
        return Done;
      }
      if !memory.snapshot {
        return Failed(OutOfMemory);
      }
      reply := CommitAttachmentOf(hook, prog, memory.list);
      if reply.Failed? {
        return;
      }
      PublishHookSnapshot();
      reply := Done;
    }

    /** `attach_gpio_route_for`. */
    method AttachGpioRoute(owner: nat, chip: nat, pin: nat, edge: Edge, prog: nat, accepted: bool, memory: AttachMemory)
      returns (reply: Reply)
      requires Valid()
      modifies `attachments, `admission, `gpioRoutes, `published
      ensures Valid()
              && Outcome(Model(), reply) == AttachGpio(old(Model()), owner, chip, pin, edge, prog, accepted, memory)
    {
      hide Inv, CommitAttach, Project, AttachmentsLoaded, FanoutWithin, AttachError, OwnerError, Balanced, CanInsert,
        InsertRoute;
      ghost var s := Model();
      ghost var r := AttachGpio(s, owner, chip, pin, edge, prog, accepted, memory);
      InvTables(s);
      InvLedger(s, ATTACH_GPIO, prog);
      AttachGpioInv(s, owner, chip, pin, edge, prog, accepted, memory);
      InvHooks(r.state);
      var fits := CanInsertWithLimit(gpioRoutes, chip, pin, edge, prog, GPIO_IRQ_FANOUT_LIMIT);
      if !fits {
        return Failed(GpioFanoutExceeded);
      }
      var e := EnsureProgramOwner(owner, prog);
      if e.Some? {
        return Failed(e.value);
      }
      var e', attached := ValidateAttach(ATTACH_GPIO, prog, accepted);
      if e'.Some? {
        return Failed(e'.value);
      }
      if !memory.snapshot {
        return Failed(OutOfMemory);
      }
      if !attached {
        reply := CommitAttachmentOf(ATTACH_GPIO, prog, memory.list);
        if reply.Failed? {
          return;
        }
      }
      gpioRoutes := InsertRoute(gpioRoutes, chip, pin, edge, prog);
      PublishHookSnapshot();
      reply := Done;
    }

    /** `detach`. */
    method DetachProgram(hook: nat, prog: nat, memory: bool) returns (reply: Reply)
      requires Valid()
      modifies `attachments, `admission, `gpioRoutes, `published
      ensures Valid() && Outcome(Model(), reply) == Detach(old(Model()), hook, prog, memory)
    {
      hide Inv, Project, AttachmentsLoaded, FanoutWithin, Release, GpioRoutes.Remove;
      ghost var s := Model();
      InvTables(s);
      DetachInv(s, hook, prog, memory);
      InvHooks(Detach(s, hook, prog, memory).state);
      if !memory {
        return Failed(OutOfMemory);
      }
      if hook in attachments {
        var list := attachments[hook];
        var pos := 0;
        while pos < |list| && list[pos] != prog
          invariant pos <= |list|
          invariant forall j :: 0 <= j < pos ==> list[j] != prog
        {
          pos := pos + 1;
        }
        assert pos == IndexOf(list, prog);
        if pos < |list| {
          attachments := attachments[hook := RemoveAt(list, pos)];
          admission := Release(admission, hook, prog);
          gpioRoutes := RemoveProgram(gpioRoutes, prog);
          PublishHookSnapshot();
          return Done;
        }
      }
      return Failed(NotLoaded);
    }

    /** `detach_for`. */
    method DetachProgramFor(owner: nat, hook: nat, prog: nat, memory: bool) returns (reply: Reply)
      requires Valid()
      modifies `attachments, `admission, `gpioRoutes, `published
      ensures Valid() && Outcome(Model(), reply) == DetachFor(old(Model()), owner, hook, prog, memory)
    {
      hide Inv, Detach;
      InvTables(Model());
      var e := EnsureProgramOwner(owner, prog);
      if e.Some? {
        return Failed(e.value);
      }
      reply := DetachProgram(hook, prog, memory);
    }

    // -------------------------------------------------------------------- orphans, unload

    /** `reclaim_unpinned_orphan_maps_if_quiescent`. */
    method SweepOrphans()
      requires WellFormed(Model())
      modifies `maps, `liveMaps, `mapBytes
      ensures Model() == Sweep(old(Model()))
    {
      hide MapStrongCount, Pinned, Sweepable, MapTotal, FreedMaps;
      ghost var s := Model();
      ghost var gone := Sweepable(s);
      FreedMapsEnds(s.maps.slots, gone);
      var i := 0;
      while i < |maps|
        invariant i <= |maps| == |s.maps.slots|
        invariant forall j :: 0 <= j < |maps| ==> maps[j] == if j < i && j in gone then None else s.maps.slots[j]
        invariant liveMaps == SatSub(s.liveMaps, FreedMaps(s.maps.slots, gone, i, Objects))
        invariant mapBytes == SatSub(s.mapBytes, FreedMaps(s.maps.slots, gone, i, Bytes))
      {
        FreedMapsNext(s.maps.slots, gone, i);
        SweepableAt(s, i);
        var slot := maps[i];
        if slot.Some? && Orphan(slot.value) {
          var handle := Encode(i, mapGenerations[i]);
          if !Pinned(pinnedMaps, handle) && MapStrongCount(programs, slot.value.runtime) == 1 {
            maps := maps[i := None];
            liveMaps := SatSub(liveMaps, 1);
            mapBytes := SatSub(mapBytes, slot.value.charge);
          }
        }
        i := i + 1;
      }
      assert maps == Retain(s.maps.slots, gone);
    }

    /** `unload_program_for`. */
    method UnloadProgram(owner: nat, prog: nat) returns (reply: Reply)
      requires Valid()
      modifies `programs, `livePrograms, `programBytes, `gpioRoutes, `maps, `liveMaps, `mapBytes
      ensures Valid() && Outcome(Model(), reply) == Unload(old(Model()), owner, prog)
    {
      hide Inv, Sweep, AttachedAnywhere, ProgramStrongCount, GpioRoutes.Remove;
      ghost var s := Model();
      InvTables(s);
      UnloadInv(s, owner, prog);
      var e := EnsureProgramOwner(owner, prog);
      if e.Some? {
        return Failed(e.value);
      }
      if AttachedAnywhere(attachments, prog) {
        return Failed(ObjectBusy);
      }
      var slot := Slot(prog);
      var entry := programs[slot].value;
      if ProgramStrongCount(published, clones, entry.program.id) != 1 {
        return Failed(ObjectBusy);
      }
      programs := programs[slot := None];
      livePrograms := SatSub(livePrograms, 1);
      programBytes := SatSub(programBytes, entry.charge);
      gpioRoutes := RemoveProgram(gpioRoutes, prog);
      SweepOrphans();
      return Done;
    }

    // ---------------------------------------------------------------------------- maps

    /** The quota half of `map_allocation_charge`. */
    method EnsureMapQuota(owner: nat, charge: nat) returns (ok: bool)
      requires |maps| == |mapGenerations|
      ensures ok == MapQuota(Model(), owner, charge)
    {
      var l := config.limits;
      var hasSlot := FindSlot(maps, mapGenerations, l.maxMapSlots);
      if liveMaps >= l.maxLiveMaps || !hasSlot || charge > l.maxSingleMapBytes {
        return false;
      }
      if mapBytes + charge > USIZE_MAX || mapBytes + charge > l.maxMapBytes {
        return false;
      }
      var totals := MapOwnerTotals(maps, owner);
      if totals.None? {
        return false;
      }
      var (objects, bytes) := totals.value;
      return objects < l.maxOwnerMaps && bytes + charge <= USIZE_MAX && bytes + charge <= l.maxOwnerMapBytes;
    }

    /** The insertion and charging half of `register_user_map`. */
    method StoreMap(entry: MapEntry, memory: CreateMemory) returns (id: Option<nat>, e: InsertError)
      requires Handles.Valid(MapTable()) && liveMaps + 1 <= USIZE_MAX && mapBytes + entry.charge <= USIZE_MAX
      modifies `maps, `mapGenerations, `liveMaps, `mapBytes, `nextId
      ensures match Insert(old(MapTable()), config.limits.maxMapSlots, entry, memory.slot, memory.generation)
              case Inserted(t, h) =>
                && id == Some(h)
                && Model() == old(Model()).(maps := t, liveMaps := old(liveMaps) + 1,
                                            mapBytes := old(mapBytes) + entry.charge, nextId := old(nextId) + 1)
              case Refused(x) => id == None && e == x && Model() == old(Model())
    {
      hide Insert, Handles.Valid;
      var slots, gens, r, x := InsertInto(maps, mapGenerations, config.limits.maxMapSlots, entry, memory.slot,
                                          memory.generation);
      if r.None? {
        return None, x;
      }
      PublishMap(slots, gens, entry.charge);
      return r, x;
    }

    method PublishMap(slots: seq<Option<MapEntry>>, gens: seq<nat>, charge: nat)
      modifies `maps, `mapGenerations, `liveMaps, `mapBytes, `nextId
      ensures Model() == old(Model()).(maps := Table(slots, gens), liveMaps := old(liveMaps) + 1,
                                       mapBytes := old(mapBytes) + charge, nextId := old(nextId) + 1)
    {
      maps, mapGenerations := slots, gens;
      liveMaps := liveMaps + 1;
      mapBytes := mapBytes + charge;
      nextId := nextId + 1;
    }

    /** `create_map_for`. */
    method CreateUserMap(owner: nat, mapType: nat, keySize: nat, valueSize: nat, maxEntries: nat, memory: CreateMemory)
      returns (reply: Reply)
      requires Valid()
      modifies `maps, `mapGenerations, `liveMaps, `mapBytes, `nextId
      ensures Valid() && Outcome(Model(), reply)
                == CreateMap(old(Model()), owner, mapType, keySize, valueSize, maxEntries, memory)
    {
      hide Inv, AllocationCharge, Insert, MapQuota, Handles.Valid;
      ghost var s := Model();
      CreateInv(s, owner, mapType, keySize, valueSize, maxEntries, memory);
      InvTables(s);
      var charge := AllocationCharge(config.limits, mapType, keySize, valueSize, maxEntries);
      if charge.ChargeFailed? {
        return Failed(charge.error);
      }
      var ok := EnsureMapQuota(owner, charge.bytes);
      if !ok {
        return Failed(ResourceLimit);
      }
      if !memory.backing {
        return Failed(OutOfMemory);
      }
      var entry := MapEntry(nextId, ReadWrite, charge.bytes, owner, []);
      MapQuotaRoom(s, owner, charge.bytes);
      var id, e := StoreMap(entry, memory);
      return if id.Some? then Handle(id.value) else Failed(InsertFailure(e));
    }

    /** The search over pins by path. */
    method PinIndex(path: string) returns (k: nat)
      ensures k == FindPin(pinnedMaps, path)
    {
      k := 0;
      while k < |pinnedMaps| && pinnedMaps[k].path != path
        invariant k <= |pinnedMaps|
        invariant forall j :: 0 <= j < k ==> pinnedMaps[j].path != path
      {
        k := k + 1;
      }
    }

    /** `pin_map_with_access_for`. */
    method PinUserMap(owner: nat, path: string, mapId: nat, offered: Access, memory: bool) returns (reply: Reply)
      requires Valid()
      modifies `pinnedMaps
      ensures Valid() && Outcome(Model(), reply) == PinMap(old(Model()), owner, path, mapId, offered, memory)
    {
      hide Inv, FindPin;
      InvTables(Model());
      PinInv(Model(), owner, path, mapId, offered, memory);
      if |path| == 0 || |path| >= PIN_PATH_MAX {
        return Failed(ResourceLimit);
      }
      if !offered.Contains(READ) && !offered.Contains(WRITE) {
        return Failed(PermissionDenied);
      }
      var entry := MapAt(mapId);
      if entry.None? {
        return Failed(NotLoaded);
      }
      if entry.value.owner != owner {
        return Failed(PermissionDenied);
      }
      var k := PinIndex(path);
      if k < |pinnedMaps| {
        var pin := pinnedMaps[k];
        return if pin.mapId == mapId && pin.owner == owner && pin.offered == offered then Done else Failed(ObjectBusy);
      }
      if |pinnedMaps| >= config.limits.maxPinnedMaps {
        return Failed(ResourceLimit);
      }
      if !memory {
        return Failed(OutOfMemory);
      }
      pinnedMaps := pinnedMaps + [Pin(path, mapId, owner, offered)];
      return Done;
    }

    /** `get_pinned_map_for`. */
    method GetPinnedMap(owner: nat, path: string, requested: Access, memory: bool) returns (reply: Reply)
      requires Valid()
      modifies `maps
      ensures Valid() && Outcome(Model(), reply) == GetPinned(old(Model()), owner, path, requested, memory)
    {
      hide Inv, FindPin, GrantTo;
      InvTables(Model());
      GetInv(Model(), owner, path, requested, memory);
      var k := PinIndex(path);
      if k == |pinnedMaps| {
        return Failed(NotLoaded);
      }
      var pin := pinnedMaps[k];
      if !pin.offered.Contains(requested) {
        return Failed(PermissionDenied);
      }
      var entry := MapAt(pin.mapId);
      if entry.None? {
        return Failed(NotLoaded);
      }
      if entry.value.owner != owner {
        var granted := GrantWithReservation(entry.value.grants, owner, requested, memory);
        if granted.GrantRefused? {
          return Failed(GrantFailure(granted.error));
        }
        maps := maps[Slot(pin.mapId) := Some(entry.value.(grants := granted.grants))];
      }
      return Handle(pin.mapId);
    }

    /** `unpin_map_for`. */
    method UnpinMap(owner: nat, path: string, allowOrphanCleanup: bool) returns (reply: Reply)
      requires Valid()
      modifies `pinnedMaps, `maps, `liveMaps, `mapBytes
      ensures Valid() && Outcome(Model(), reply) == Unpin(old(Model()), owner, path, allowOrphanCleanup)
    {
      hide Inv, FindPin, Sweep;
      ghost var s := Model();
      InvTables(s);
      UnpinInv(s, owner, path, allowOrphanCleanup);
      var index := PinIndex(path);
      if index == |pinnedMaps| {
        return Failed(NotLoaded);
      }
      var pin := pinnedMaps[index];
      if pin.owner != owner && (pin.owner != PINNED_MAP_OWNER || !allowOrphanCleanup) {
        return Failed(PermissionDenied);
      }
      var lastPin := true;
      var n := 0;
      while n < |pinnedMaps|
        invariant n <= |pinnedMaps|
        invariant lastPin <==> forall j :: 0 <= j < n && j != index ==> pinnedMaps[j].mapId != pin.mapId
      {
        if n != index && pinnedMaps[n].mapId == pin.mapId {
          lastPin := false;
        }
        n := n + 1;
      }
      PinnedElsewhere(pinnedMaps, index);
      var entry := MapAt(pin.mapId);
      pinnedMaps := RemoveAt(pinnedMaps, index);
      if lastPin && entry.Some? && entry.value.owner == PINNED_MAP_OWNER {
        SweepOrphans();
      }
      return Done;
    }

    /** `destroy_map_for`. */
    method DestroyMap(owner: nat, mapId: nat) returns (reply: Reply)
      requires Valid()
      modifies `maps, `liveMaps, `mapBytes
      ensures Valid() && Outcome(Model(), reply) == Destroy(old(Model()), owner, mapId)
    {
      hide Inv, Pinned, MapStrongCount;
      InvTables(Model());
      DestroyInv(Model(), owner, mapId);
      var entry := MapAt(mapId);
      if entry.None? {
        return Failed(NotLoaded);
      }
      if Slot(mapId) < RESERVED_MAP_COUNT {
        return Failed(ReadOnlyMap);
      }
      if entry.value.owner != owner {
        return Failed(PermissionDenied);
      }
      if Pinned(pinnedMaps, mapId) || MapStrongCount(programs, entry.value.runtime) != 1 {
        return Failed(ObjectBusy);
      }
      maps := maps[Slot(mapId) := None];
      liveMaps := SatSub(liveMaps, 1);
      mapBytes := SatSub(mapBytes, entry.value.charge);
      return Done;
    }

    // ------------------------------------------------------------------------- owner exit

    /** The inner loop of the detach phase, over one hook's list. */
    method DetachOwnedFrom(hook: nat, owner: nat, list: seq<nat>, ghost l: Ledger, ghost keys: set<(nat, nat)>,
                           ledger: Ledger)
      returns (attached: seq<nat>, released: Ledger)
      requires |programs| == |programGenerations|
      requires Balanced(l) && ledger == ReleaseAll(l, keys)
      ensures attached == Unowned(ProgramTable(), owner, list)
      ensures released == ReleaseAll(l, keys + OwnedIn(ProgramTable(), owner, hook, list))
    {
      hide ReleaseAll, Balanced, Release, Unowned, OwnedIn;
      ghost var t := ProgramTable();
      ghost var n := 0;
      OwnedInNone(t, owner, hook, keys);
      attached, released := list, ledger;
      var index := 0;
      while index < |attached|
        invariant n <= |list| && index == |Unowned(t, owner, list[..n])|
        invariant attached == Unowned(t, owner, list[..n]) + list[n..]
        invariant released == ReleaseAll(l, keys + OwnedIn(t, owner, hook, list[..n]))
        decreases |list| - n
      {
        var prog := attached[index];
        assert prog == list[n];
        OwnedInNext(t, owner, hook, keys, list, n);
        var entry := ProgramAt(prog);
        if entry.Some? && entry.value.owner == owner {
          ReleaseAllStep(l, keys + OwnedIn(t, owner, hook, list[..n]), hook, prog);
          attached := RemoveAt(attached, index);
          released := Release(released, hook, prog);
        } else {
          index := index + 1;
        }
        n := n + 1;
      }
      assert list[..n] == list && list[n..] == [];
    }

    /** The detach phase over every hook. */
    method DetachOwned(owner: nat)
      requires |programs| == |programGenerations| && Balanced(admission)
      modifies `attachments, `admission
      ensures attachments == UnownedAttachments(ProgramTable(), owner, old(attachments))
      ensures admission == ReleaseAll(old(admission), OwnedKeys(ProgramTable(), owner, old(attachments)))
    {
      hide Unowned, UnownedAttachments, Balanced, OwnedIn, OwnedKeys, OwnedOf, ReleaseAll, DetachedExcept;
      ghost var t, a0, l0 := ProgramTable(), attachments, admission;
      ReleaseNone(l0);
      OwnedOfNone(t, owner, a0);
      DetachedNone(t, owner, a0);
      var hooks := attachments.Keys;
      assert a0.Keys - hooks == {};
      while hooks != {}
        invariant hooks <= a0.Keys && DetachedExcept(t, owner, a0, attachments, hooks)
        invariant admission == ReleaseAll(l0, OwnedOf(t, owner, a0, a0.Keys - hooks))
        decreases |hooks|
      {
        var h :| h in hooks;
        ghost var done := a0.Keys - hooks;
        OwnedOfNext(t, owner, a0, done, h);
        DetachedNext(t, owner, a0, attachments, hooks, h);
        var attached, ledger := DetachOwnedFrom(h, owner, attachments[h], l0, OwnedOf(t, owner, a0, done), admission);
        attachments := attachments[h := attached];
        admission := ledger;
        hooks := hooks - {h};
        assert a0.Keys - hooks == done + {h};
      }
      assert a0.Keys - hooks == a0.Keys;
      OwnedOfAll(t, owner, a0);
      FilterUnowned(t, owner, a0, attachments);
      attachments := map h | h in attachments && attachments[h] != [] :: attachments[h];
    }

    /** The route phase: drop the routes of each of the owner's programs. */
    method RemoveOwnedRoutes(owner: nat)
      requires Handles.Valid(ProgramTable())
      requires forall k :: k in gpioRoutes ==> gpioRoutes[k] != []
      modifies `gpioRoutes
      ensures gpioRoutes == GpioRoutes.Remove(old(gpioRoutes), OwnedHandles(ProgramTable(), owner))
    {
      hide GpioRoutes.Remove;
      ghost var t, r0 := ProgramTable(), gpioRoutes;
      RemoveNone(r0);
      var i := 0;
      assert OwnedBelow(t, owner, 0) == {};
      while i < |programs|
        invariant i <= |programs|
        invariant gpioRoutes == GpioRoutes.Remove(r0, OwnedBelow(t, owner, i))
      {
        if programs[i].Some? && programs[i].value.owner == owner {
          var handle := Encode(i, programGenerations[i]);
          assert OwnedBelow(t, owner, i + 1) == OwnedBelow(t, owner, i) + {handle};
          RemoveTwice(r0, OwnedBelow(t, owner, i), {handle});
          gpioRoutes := RemoveProgram(gpioRoutes, handle);
        } else {
          assert OwnedBelow(t, owner, i + 1) == OwnedBelow(t, owner, i);
        }
        i := i + 1;
      }
      assert OwnedBelow(t, owner, i) == OwnedHandles(t, owner);
    }

    /** The grant and pin phases. */
    method RevokeOwnerGrants(owner: nat)
      modifies `maps, `pinnedMaps
      ensures Model() == RevokeOwnerRights(old(Model()), owner)
    {
      ghost var slots, pins := maps, pinnedMaps;
      var i := 0;
      while i < |maps|
        invariant i <= |maps| == |slots| && pinnedMaps == pins
        invariant forall j :: 0 <= j < |maps| ==> maps[j] == if j < i then RevokeSlot(slots[j], owner) else slots[j]
      {
        if maps[i].Some? {
          var grants := RevokeOwner(maps[i].value.grants, owner);
          maps := maps[i := Some(maps[i].value.(grants := grants))];
        }
        i := i + 1;
      }
      assert maps == RevokeAll(slots, owner);
      i := 0;
      while i < |pinnedMaps|
        invariant i <= |pinnedMaps| == |pins| && maps == RevokeAll(slots, owner)
        invariant forall j :: 0 <= j < |pins| ==> pinnedMaps[j] == if j < i then OrphanPin(pins[j], owner) else pins[j]
      {
        if pinnedMaps[i].owner == owner {
          pinnedMaps := pinnedMaps[i := pinnedMaps[i].(owner := PINNED_MAP_OWNER)];
        }
        i := i + 1;
      }
      assert pinnedMaps == OrphanPins(pins, owner);
    }

    /** The program phase: free the owner's programs that nothing else refers to. */
    method FreeOwnedPrograms(owner: nat)
      modifies `programs, `livePrograms, `programBytes
      ensures Model() == FreePrograms(old(Model()), FreeablePrograms(old(Model()), owner))
    {
      hide ProgramStrongCount, FreeablePrograms, ProgramTotal, FreedPrograms;
      ghost var s := Model();
      ghost var gone := FreeablePrograms(s, owner);
      FreedProgramsEnds(s.programs.slots, gone);
      var i := 0;
      while i < |programs|
        invariant i <= |programs| == |s.programs.slots|
        invariant forall j :: 0 <= j < |programs| ==>
                    programs[j] == if j < i && j in gone then None else s.programs.slots[j]
        invariant livePrograms == SatSub(s.livePrograms, FreedPrograms(s.programs.slots, gone, i, Objects))
        invariant programBytes == SatSub(s.programBytes, FreedPrograms(s.programs.slots, gone, i, Bytes))
      {
        FreedProgramsNext(s.programs.slots, gone, i);
        FreeableProgramAt(s, owner, i);
        var slot := programs[i];
        if slot.Some? && slot.value.owner == owner
           && ProgramStrongCount(published, clones, slot.value.program.id) == 1 {
          programs := programs[i := None];
          livePrograms := SatSub(livePrograms, 1);
          programBytes := SatSub(programBytes, slot.value.charge);
        }
        i := i + 1;
      }
      assert programs == Retain(s.programs.slots, gone);
    }

    /** The map phase: free the owner's unreferenced maps and orphan the pinned and captured ones. */
    method ReleaseOwnedMaps(owner: nat)
      requires WellFormed(Model())
      modifies `maps, `liveMaps, `mapBytes
      ensures Model() == ReleaseMaps(old(Model()), owner)
    {
      hide MapStrongCount, Pinned, FreeableMaps, MapTotal, FreedMaps;
      ghost var s := Model();
      ghost var gone := FreeableMaps(s, owner);
      FreedMapsEnds(s.maps.slots, gone);
      var i := 0;
      while i < |maps|
        invariant i <= |maps| == |s.maps.slots|
        invariant forall j :: 0 <= j < |maps| ==>
                    maps[j] == if j >= i then s.maps.slots[j]
                               else if j in gone then None
                               else OrphanSlot(s.maps.slots[j], owner)
        invariant liveMaps == SatSub(s.liveMaps, FreedMaps(s.maps.slots, gone, i, Objects))
        invariant mapBytes == SatSub(s.mapBytes, FreedMaps(s.maps.slots, gone, i, Bytes))
      {
        FreedMapsNext(s.maps.slots, gone, i);
        FreeableAt(s, owner, i);
        var slot := maps[i];
        if slot.Some? && slot.value.owner == owner && slot.value.charge != 0 {
          var handle := Encode(i, mapGenerations[i]);
          if Pinned(pinnedMaps, handle) {
            maps := maps[i := Some(slot.value.(owner := PINNED_MAP_OWNER))];
          } else if MapStrongCount(programs, slot.value.runtime) != 1 {
            maps := maps[i := Some(slot.value.(owner := PINNED_MAP_OWNER))];
          } else {
            maps := maps[i := None];
            liveMaps := SatSub(liveMaps, 1);
            mapBytes := SatSub(mapBytes, slot.value.charge);
          }
        }
        i := i + 1;
      }
      assert maps == OrphanMaps(Retain(s.maps.slots, gone), owner);
    }

    /** `reclaim_owner`. */
    method ReclaimOwner(owner: nat, memory: bool) returns (reply: Reply)
      requires Valid()
      modifies `attachments, `admission, `gpioRoutes, `published, `maps, `pinnedMaps, `programs, `livePrograms,
               `programBytes, `liveMaps, `mapBytes
      ensures Valid() && Outcome(Model(), reply) == Reclaim(old(Model()), owner, memory)
    {
      hide Inv, Project, AttachmentsLoaded, FanoutWithin, UnownedAttachments, OwnedKeys, OwnedHandles, ReleaseAll,
        Balanced, GpioRoutes.Remove, RevokeOwnerRights, FreePrograms, FreeablePrograms, ReleaseMaps, Sweep, OwnsProgram;
      ghost var s := Model();
      InvTables(s);
      ReclaimInv(s, owner, memory);
      if !memory {
        return Reclaimed(false);
      }
      InvLedger(s, 0, 0);
      InvRoutes(s);
      DetachOwned(owner);
      RemoveOwnedRoutes(owner);
      DetachOwnerInv(s, owner);
      InvHooks(DetachOwner(s, owner));
      PublishHookSnapshot();
      assert Model() == DetachOwner(s, owner);
      RevokeOwnerGrants(owner);
      FreeOwnedPrograms(owner);
      assert Model() == ReclaimPrograms(s, owner);
      ReclaimProgramsInv(s, owner);
      InvTables(ReclaimPrograms(s, owner));
      if OwnsProgram(Table(programs, programGenerations), owner) {
        return Reclaimed(false);
      }
      ReleaseMapsInv(Model(), owner);
      ReleaseOwnedMaps(owner);
      InvTables(Model());
      SweepOrphans();
      return Reclaimed(true);
    }

    // ------------------------------------------------------------------- in-flight clones

    /** `get_program_for`. */
    method CloneProgramFor(owner: nat, prog: nat) returns (reply: Reply)
      requires Valid()
      modifies `clones
      ensures Valid() && Outcome(Model(), reply) == CloneProgram(old(Model()), owner, prog)
    {
      hide Inv;
      InvTables(Model());
      CloneInv(Model(), owner, prog);
      var e := EnsureProgramOwner(owner, prog);
      if e.Some? {
        return Failed(e.value);
      }
      clones := clones + multiset{programs[Slot(prog)].value.program.id};
      return Done;
    }

    method DropProgramClone(id: nat)
      requires Valid()
      modifies `clones
      ensures Valid() && Model() == DropClone(old(Model()), id).state
    {
      hide Inv;
      DropCloneInv(Model(), id);
      clones := clones - multiset{id};
    }
  }

  /** The attachments of one hook that belong to the owner. */
  ghost function OwnedIn(programs: Table<ProgramEntry>, owner: nat, hook: nat, ids: seq<nat>): set<(nat, nat)> {
    set p | p in ids && OwnedProgram(programs, owner, p) :: (hook, p)
  }

  lemma OwnedInNone(programs: Table<ProgramEntry>, owner: nat, hook: nat, keys: set<(nat, nat)>)
    ensures keys + OwnedIn(programs, owner, hook, []) == keys
    ensures Unowned(programs, owner, []) == []
  {
  }

  /** One step of the inner loop: an owned program leaves the list, any other one stays at its place. */
  lemma OwnedInNext(programs: Table<ProgramEntry>, owner: nat, hook: nat, keys: set<(nat, nat)>, list: seq<nat>, n: nat)
    requires n < |list|
    ensures var before, after := Unowned(programs, owner, list[..n]), Unowned(programs, owner, list[..n + 1]);
            var owned := OwnedProgram(programs, owner, list[n]);
            && after == (if owned then before else before + [list[n]])
            && keys + OwnedIn(programs, owner, hook, list[..n + 1]) ==
               (if owned then keys + OwnedIn(programs, owner, hook, list[..n]) + {(hook, list[n])}
                else keys + OwnedIn(programs, owner, hook, list[..n]))
            && (owned ==> RemoveAt(before + list[n..], |before|) == after + list[n + 1..])
            && (!owned ==> before + list[n..] == after + list[n + 1..])
  {
    assert list[..n + 1][..n] == list[..n];
    hide OwnedProgram;
    OwnedInOneMore(programs, owner, hook, list, n);
  }

  lemma OwnedInOneMore(programs: Table<ProgramEntry>, owner: nat, hook: nat, list: seq<nat>, n: nat)
    requires n < |list|
    ensures OwnedIn(programs, owner, hook, list[..n + 1]) == OwnedIn(programs, owner, hook, list[..n])
              + (if OwnedProgram(programs, owner, list[n]) then {(hook, list[n])} else {})
  {
    hide OwnedProgram;
    assert forall p :: p in list[..n + 1] <==> p in list[..n] || p == list[n];
  }

  /** The owner's attachments of a set of hooks. */
  ghost function OwnedOf(programs: Table<ProgramEntry>, owner: nat, attachments: Attachments,
                         hooks: set<nat>): set<(nat, nat)> {
    set h, p | h in hooks && h in attachments && p in attachments[h] && OwnedProgram(programs, owner, p) :: (h, p)
  }

  lemma OwnedOfNone(programs: Table<ProgramEntry>, owner: nat, attachments: Attachments)
    ensures OwnedOf(programs, owner, attachments, {}) == {}
  {
  }

  lemma OwnedOfNext(programs: Table<ProgramEntry>, owner: nat, attachments: Attachments, hooks: set<nat>, h: nat)
    requires h in attachments
    ensures OwnedOf(programs, owner, attachments, hooks + {h})
            == OwnedOf(programs, owner, attachments, hooks) + OwnedIn(programs, owner, h, attachments[h])
  {
  }

  /** Every hook outside `hooks` has lost the owner's programs. */
  ghost predicate DetachedExcept(programs: Table<ProgramEntry>, owner: nat, before: Attachments, lists: Attachments,
                                 hooks: set<nat>) {
    && lists.Keys == before.Keys
    && forall h :: h in before ==> lists[h] == if h in hooks then before[h] else Unowned(programs, owner, before[h])
  }

  lemma DetachedNone(programs: Table<ProgramEntry>, owner: nat, before: Attachments)
    ensures DetachedExcept(programs, owner, before, before, before.Keys)
  {
  }

  lemma DetachedNext(programs: Table<ProgramEntry>, owner: nat, before: Attachments, lists: Attachments,
                     hooks: set<nat>, h: nat)
    requires DetachedExcept(programs, owner, before, lists, hooks) && h in hooks && hooks <= before.Keys
    ensures h in lists && lists[h] == before[h]
    ensures DetachedExcept(programs, owner, before, lists[h := Unowned(programs, owner, before[h])], hooks - {h})
  {
  }

  /** Dropping the emptied lists. */
  lemma FilterUnowned(programs: Table<ProgramEntry>, owner: nat, before: Attachments, lists: Attachments)
    requires DetachedExcept(programs, owner, before, lists, {})
    ensures (map h | h in lists && lists[h] != [] :: lists[h]) == UnownedAttachments(programs, owner, before)
  {
    hide Unowned;
  }

  lemma OwnedOfAll(programs: Table<ProgramEntry>, owner: nat, attachments: Attachments)
    ensures OwnedOf(programs, owner, attachments, attachments.Keys) == OwnedKeys(programs, owner, attachments)
  {
  }

  /** Handles of the owner's programs in the first `n` slots. */
  ghost function OwnedBelow(programs: Table<ProgramEntry>, owner: nat, n: nat): set<nat>
    requires Handles.Valid(programs) && n <= |programs.slots|
  {
    set i: nat | i < n && programs.slots[i].Some? && programs.slots[i].value.owner == owner :: HandleOf(programs, i)
  }

  lemma ReleaseNone(l: Ledger)
    ensures ReleaseAll(l, {}) == l
  {
    assert l.per - (l.per.Keys - {}) == map[];
    assert l.per - {} == l.per;
  }

  lemma RemoveNone(routes: Routes)
    requires forall k :: k in routes ==> routes[k] != []
    ensures GpioRoutes.Remove(routes, {}) == routes
  {
    RemoveUnrouted(routes, {});
  }

  lemma InvRoutes(s: State)
    requires Inv(s)
    ensures forall k :: k in s.routes ==> s.routes[k] != []
  {
  }

  lemma FreeableProgramAt(s: State, owner: nat, i: nat)
    requires i < |s.programs.slots|
    ensures i in FreeablePrograms(s, owner) <==>
              && s.programs.slots[i].Some? && s.programs.slots[i].value.owner == owner
              && ProgramStrongCount(s.published, s.clones, s.programs.slots[i].value.program.id) == 1
  {
  }

  /** What freeing the chosen ones of the first `i` programs gives back. */
  ghost function FreedPrograms(slots: seq<Option<ProgramEntry>>, gone: set<nat>, i: nat, m: Measure): nat
    requires i <= |slots|
  {
    Sum(ProgramWeights(Lost(slots, gone), m)[..i])
  }

  lemma FreedProgramsEnds(slots: seq<Option<ProgramEntry>>, gone: set<nat>)
    ensures forall m :: FreedPrograms(slots, gone, 0, m) == 0
    ensures forall m :: FreedPrograms(slots, gone, |slots|, m) == ProgramTotal(Lost(slots, gone), m)
  {
    forall m
      ensures FreedPrograms(slots, gone, |slots|, m) == ProgramTotal(Lost(slots, gone), m)
    {
      var ws := ProgramWeights(Lost(slots, gone), m);
      assert ws[..|slots|] == ws;
    }
  }

  lemma FreedProgramsNext(slots: seq<Option<ProgramEntry>>, gone: set<nat>, i: nat)
    requires i < |slots|
    ensures forall m :: FreedPrograms(slots, gone, i + 1, m)
                        == FreedPrograms(slots, gone, i, m) + (if i in gone then ProgramWeight(slots[i], m) else 0)
  {
    forall m
      ensures FreedPrograms(slots, gone, i + 1, m)
              == FreedPrograms(slots, gone, i, m) + (if i in gone then ProgramWeight(slots[i], m) else 0)
    {
      SumNext(ProgramWeights(Lost(slots, gone), m), i);
    }
  }

  lemma FreeableAt(s: State, owner: nat, i: nat)
    requires WellFormed(s) && i < |s.maps.slots|
    ensures i in FreeableMaps(s, owner) <==>
              && ChargedTo(s.maps.slots[i], owner)
              && !Pinned(s.pins, Encode(i, s.maps.gens[i]))
              && MapStrongCount(s.programs.slots, s.maps.slots[i].value.runtime) == 1
  {
  }

  lemma SweepableAt(s: State, i: nat)
    requires WellFormed(s) && i < |s.maps.slots|
    ensures i in Sweepable(s) <==>
              && s.maps.slots[i].Some? && Orphan(s.maps.slots[i].value)
              && !Pinned(s.pins, Encode(i, s.maps.gens[i]))
              && MapStrongCount(s.programs.slots, s.maps.slots[i].value.runtime) == 1
  {
  }

  /** What freeing the chosen ones of the first `i` maps gives back. */
  ghost function FreedMaps(slots: seq<Option<MapEntry>>, gone: set<nat>, i: nat, m: Measure): nat
    requires i <= |slots|
  {
    Sum(MapWeights(Lost(slots, gone), m)[..i])
  }

  lemma FreedMapsEnds(slots: seq<Option<MapEntry>>, gone: set<nat>)
    ensures forall m :: FreedMaps(slots, gone, 0, m) == 0
    ensures forall m :: FreedMaps(slots, gone, |slots|, m) == MapTotal(Lost(slots, gone), m)
  {
    forall m
      ensures FreedMaps(slots, gone, |slots|, m) == MapTotal(Lost(slots, gone), m)
    {
      var ws := MapWeights(Lost(slots, gone), m);
      assert ws[..|slots|] == ws;
    }
  }

  lemma FreedMapsNext(slots: seq<Option<MapEntry>>, gone: set<nat>, i: nat)
    requires i < |slots|
    ensures forall m :: FreedMaps(slots, gone, i + 1, m)
                        == FreedMaps(slots, gone, i, m) + (if i in gone then MapWeight(slots[i], m) else 0)
  {
    forall m
      ensures FreedMaps(slots, gone, i + 1, m)
              == FreedMaps(slots, gone, i, m) + (if i in gone then MapWeight(slots[i], m) else 0)
    {
      SumNext(MapWeights(Lost(slots, gone), m), i);
    }
  }

  /** A map is pinned after one pin goes exactly when another pin names it. */
  lemma PinnedElsewhere(pins: seq<Pin>, index: nat)
    requires index < |pins|
    ensures Pinned(RemoveAt(pins, index), pins[index].mapId) <==>
              exists j :: 0 <= j < |pins| && j != index && pins[j].mapId == pins[index].mapId
  {
    var rest := RemoveAt(pins, index);
    assert forall j :: 0 <= j < |rest| ==> rest[j] == if j < index then pins[j] else pins[j + 1];
    if j :| 0 <= j < |pins| && j != index && pins[j].mapId == pins[index].mapId {
      assert rest[if j < index then j else j - 1].mapId == pins[index].mapId;
    }
  }

  lemma RuntimesOfNext(programs: Table<ProgramEntry>, ids: seq<nat>, id: nat)
    ensures RuntimesOf(programs, ids + [id])
            == RuntimesOf(programs, ids) + (if Live(programs, id) then [Entry(programs, id).program.id] else [])
  {
    assert (ids + [id])[..|ids|] == ids;
  }

  lemma RuntimesOfNone(programs: Table<ProgramEntry>)
    ensures RuntimesOf(programs, []) == []
  {
  }
}
