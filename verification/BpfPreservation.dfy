/** Every operation of the manager keeps its invariant. */
module BpfPreservation {
  import opened Common
  import opened Handles
  import opened Authorization
  import opened Admission
  import opened GpioRoutes
  import opened BpfState
  import opened BpfInvariants

  // ------------------------------------------------------------------- freeing objects

  ghost predicate FreeableMap(s: State, i: nat)
    requires WellFormed(s)
  {
    && Occupied(s.maps, i) && s.maps.slots[i].value.charge > 0
    && !Pinned(s.pins, HandleOf(s.maps, i))
    && MapStrongCount(s.programs.slots, s.maps.slots[i].value.runtime) == 1
  }

  lemma FreeMapsAccounting(s: State, gone: set<nat>)
    requires MapAccounting(s)
    ensures MapAccounting(FreeMaps(s, gone))
    ensures MapTotal(Lost(s.maps.slots, gone), Objects) <= s.liveMaps
    ensures MapTotal(Lost(s.maps.slots, gone), Bytes) <= s.mapBytes
  {
    forall m: Measure
      ensures MapTotal(s.maps.slots, m)
                == MapTotal(Retain(s.maps.slots, gone), m) + MapTotal(Lost(s.maps.slots, gone), m)
    {
      MapTotalSplit(s.maps.slots, gone, m);
    }
  }

  lemma FreeMapsCaptures(s: State, gone: set<nat>)
    requires Inv(s) && forall i :: i in gone ==> FreeableMap(s, i)
    ensures CapturesResolve(s.programs, FreeMaps(s, gone).maps)
  {
    var maps' := FreeMaps(s, gone).maps;
    forall i, k | Occupied(s.programs, i) && 0 <= k < |s.programs.slots[i].value.program.maps|
                  && s.programs.slots[i].value.program.maps[k].Some?
      ensures CaptureResolves(maps', k, s.programs.slots[i].value.program.maps[k].value)
    {
      var e := s.programs.slots[i].value;
      var c := e.program.maps[k].value;
      assert EntryResolves(s.maps, e);
      assert CaptureResolves(s.maps, k, c);
      assert CapturesRuntime(e, c.runtime);
      MapCountOne(s.programs, c.runtime);
      assert k !in gone;
    }
  }

  lemma FreeMapsPins(s: State, gone: set<nat>)
    requires Inv(s) && forall i :: i in gone ==> FreeableMap(s, i)
    ensures PinsResolve(s.pins, FreeMaps(s, gone).maps)
  {
    RetainLater(s.maps, gone);
    forall i | 0 <= i < |s.pins|
      ensures Live(FreeMaps(s, gone).maps, s.pins[i].mapId)
    {
      HandleUnique(s.maps, s.pins[i].mapId);
      assert Pinned(s.pins, s.pins[i].mapId);
      assert Slot(s.pins[i].mapId) !in gone;
    }
  }

  lemma FreeMapsInv(s: State, gone: set<nat>)
    requires Inv(s) && forall i :: i in gone ==> FreeableMap(s, i)
    ensures Inv(FreeMaps(s, gone))
    ensures Later(s.maps, FreeMaps(s, gone).maps)
  {
    RetainLater(s.maps, gone);
    FreeMapsAccounting(s, gone);
    FreeMapsCaptures(s, gone);
    FreeMapsPins(s, gone);
  }

  lemma SweepInv(s: State)
    requires Inv(s)
    ensures Inv(Sweep(s)) && Later(s.maps, Sweep(s).maps)
  {
    FreeMapsInv(s, Sweepable(s));
  }

  ghost predicate FreeableProgram(s: State, i: nat) {
    && Occupied(s.programs, i)
    && ProgramStrongCount(s.published, s.clones, s.programs.slots[i].value.program.id) == 1
  }

  lemma FreeProgramsAccounting(s: State, gone: set<nat>)
    requires ProgramAccounting(s)
    ensures ProgramAccounting(FreePrograms(s, gone))
    ensures ProgramTotal(Lost(s.programs.slots, gone), Objects) <= s.livePrograms
    ensures ProgramTotal(Lost(s.programs.slots, gone), Bytes) <= s.programBytes
  {
    forall m: Measure
      ensures ProgramTotal(s.programs.slots, m)
           == ProgramTotal(Retain(s.programs.slots, gone), m) + ProgramTotal(Lost(s.programs.slots, gone), m)
    {
      ProgramTotalSplit(s.programs.slots, gone, m);
    }
  }

  lemma FreeProgramsHooks(s: State, gone: set<nat>)
    requires Inv(s) && forall i :: i in gone ==> FreeableProgram(s, i)
    ensures HooksValid(FreePrograms(s, gone))
  {
    var programs' := FreePrograms(s, gone).programs;
    RetainLater(s.programs, gone);
    forall p | AttachedAnywhere(s.attachments, p)
      ensures Live(programs', p) && Entry(programs', p) == Entry(s.programs, p)
    {
      AttachedIsPublished(s, p);
      ProgramCountOne(s.published, s.clones, Entry(s.programs, p).program.id);
      assert Slot(p) !in gone;
    }
    forall h | h in s.attachments
      ensures HookValid(h, s.attachments[h], programs')
    {
      assert forall p :: p in s.attachments[h] ==> AttachedAnywhere(s.attachments, p);
    }
    ProjectSame(s.programs, programs', s.attachments, s.routes);
    forall id | id in s.clones
      ensures LoadedId(programs', id)
    {
      var i :| Occupied(s.programs, i) && s.programs.slots[i].value.program.id == id;
      ProgramCountOne(s.published, s.clones, id);
      assert i !in gone && Occupied(programs', i);
    }
  }

  lemma FreeProgramsInv(s: State, gone: set<nat>)
    requires Inv(s) && forall i :: i in gone ==> FreeableProgram(s, i)
    ensures Inv(FreePrograms(s, gone))
    ensures Later(s.programs, FreePrograms(s, gone).programs)
  {
    var s' := FreePrograms(s, gone);
    RetainLater(s.programs, gone);
    FreeProgramsAccounting(s, gone);
    FreeProgramsHooks(s, gone);
    forall i | Occupied(s'.programs, i)
      ensures EntryResolves(s'.maps, s'.programs.slots[i].value)
    {
      assert Occupied(s.programs, i);
    }
  }

  // ------------------------------------------------------------------------ load, create

  lemma {:induction false} CaptureMapsResolve(maps: Table<MapEntry>, owner: nat, authorized: Access,
                                              referenced: seq<nat>)
    requires Handles.Valid(maps)
    ensures var r := CaptureMaps(maps, owner, authorized, referenced);
            r.Captured? ==>
              forall k :: 0 <= k < |r.maps| && r.maps[k].Some? ==>
                CaptureResolves(maps, k, r.maps[k].value)
                && r.maps[k].value.perm == OwnerPerm(maps.slots[k].value, owner, authorized) != Unavailable
  {
    if referenced != [] {
      CaptureMapsResolve(maps, owner, authorized, referenced[..|referenced| - 1]);
    }
  }

  lemma InsertProgramTotal(t: Table<ProgramEntry>, maxSlots: nat, entry: ProgramEntry, slotMemory: bool,
                           genMemory: bool, m: Measure)
    requires Handles.Valid(t) && Insert(t, maxSlots, entry, slotMemory, genMemory).Inserted?
    ensures ProgramTotal(Insert(t, maxSlots, entry, slotMemory, genMemory).table.slots, m)
         == ProgramTotal(t.slots, m) + ProgramWeight(Some(entry), m)
  {
    var k := FirstReusable(t, 0);
    if k < |t.slots| {
      ProgramTotalUpdate(t.slots, k, Some(entry), m);
    } else {
      ProgramTotalAppend(t.slots, Some(entry), m);
    }
  }

  lemma InsertProgramAccounting(s: State, entry: ProgramEntry, slotMemory: bool, genMemory: bool)
    requires WellFormed(s) && ProgramAccounting(s) && ProgramQuota(s, entry.owner, entry.charge)
    requires Insert(s.programs, s.config.limits.maxProgramSlots, entry, slotMemory, genMemory).Inserted?
    ensures ProgramAccounting(s.(
              programs := Insert(s.programs, s.config.limits.maxProgramSlots, entry, slotMemory, genMemory).table,
              livePrograms := s.livePrograms + 1, programBytes := s.programBytes + entry.charge))
  {
    hide Insert, ProgramTotal, HasSlot, TablesOk;
    forall m: Measure
      ensures ProgramTotal(Insert(s.programs, s.config.limits.maxProgramSlots, entry, slotMemory,
                                  genMemory).table.slots, m)
           == ProgramTotal(s.programs.slots, m) + ProgramWeight(Some(entry), m)
    {
      InsertProgramTotal(s.programs, s.config.limits.maxProgramSlots, entry, slotMemory, genMemory, m);
    }
  }

  lemma InsertProgramHooks(s: State, t: Table<ProgramEntry>)
    requires HooksValid(s)
    requires forall h :: Live(s.programs, h) ==> Live(t, h) && Entry(t, h) == Entry(s.programs, h)
    requires forall i :: Occupied(s.programs, i) ==> Occupied(t, i) && t.slots[i] == s.programs.slots[i]
    ensures HooksValid(s.(programs := t))
  {
    forall p | AttachedAnywhere(s.attachments, p)
      ensures Live(t, p) && Entry(t, p) == Entry(s.programs, p)
    {
      var h :| h in s.attachments && p in s.attachments[h];
      assert HookValid(h, s.attachments[h], s.programs);
    }
    ProjectSame(s.programs, t, s.attachments, s.routes);
    forall h | h in s.attachments
      ensures HookValid(h, s.attachments[h], t)
    {
      assert HookValid(h, s.attachments[h], s.programs);
    }
    forall id | id in s.clones
      ensures LoadedId(t, id)
    {
      var i :| Occupied(s.programs, i) && s.programs.slots[i].value.program.id == id;
      assert Occupied(t, i);
    }
  }

  lemma InsertProgramTables(s: State, entry: ProgramEntry, slotMemory: bool, genMemory: bool)
    requires TablesValid(s) && entry.program.id == s.nextId
    requires Insert(s.programs, s.config.limits.maxProgramSlots, entry, slotMemory, genMemory).Inserted?
    ensures TablesValid(s.(
              programs := Insert(s.programs, s.config.limits.maxProgramSlots, entry, slotMemory, genMemory).table,
              nextId := s.nextId + 1))
  {
    InsertEffect(s.programs, s.config.limits.maxProgramSlots, entry, slotMemory, genMemory);
  }

  lemma InsertProgramCaptures(s: State, entry: ProgramEntry, slotMemory: bool, genMemory: bool)
    requires TablesValid(s) && CapturesResolve(s.programs, s.maps) && EntryResolves(s.maps, entry)
    requires Insert(s.programs, s.config.limits.maxProgramSlots, entry, slotMemory, genMemory).Inserted?
    ensures CapturesResolve(Insert(s.programs, s.config.limits.maxProgramSlots, entry, slotMemory, genMemory).table,
                            s.maps)
  {
    var t := Insert(s.programs, s.config.limits.maxProgramSlots, entry, slotMemory, genMemory).table;
    forall i | Occupied(t, i)
      ensures EntryResolves(s.maps, t.slots[i].value)
    {
      assert Occupied(s.programs, i) || t.slots[i].value == entry;
    }
  }

  lemma InsertProgramInv(s: State, entry: ProgramEntry, slotMemory: bool, genMemory: bool)
    requires Inv(s) && entry.program.id == s.nextId && EntryResolves(s.maps, entry)
    requires ProgramQuota(s, entry.owner, entry.charge)
    requires Insert(s.programs, s.config.limits.maxProgramSlots, entry, slotMemory, genMemory).Inserted?
    ensures Inv(s.(
              programs := Insert(s.programs, s.config.limits.maxProgramSlots, entry, slotMemory, genMemory).table,
              livePrograms := s.livePrograms + 1, programBytes := s.programBytes + entry.charge,
              nextId := s.nextId + 1))
  {
    InsertProgramTables(s, entry, slotMemory, genMemory);
    InsertProgramCaptures(s, entry, slotMemory, genMemory);
    InsertProgramAccounting(s, entry, slotMemory, genMemory);
    InsertEffect(s.programs, s.config.limits.maxProgramSlots, entry, slotMemory, genMemory);
    InsertProgramHooks(s, Insert(s.programs, s.config.limits.maxProgramSlots, entry, slotMemory, genMemory).table);
  }

  lemma RegisterInv(s: State, owner: nat, authorization: Access, stats: Stats, charge: nat, memory: LoadMemory)
    requires Inv(s)
    ensures Inv(Register(s, owner, authorization, stats, charge, memory).state)
  {
    assert WellFormed(s);
    hide Inv, ProgramQuota;
    var r := Register(s, owner, authorization, stats, charge, memory);
    if r.reply.Handle? {
      var maps := CaptureMaps(s.maps, owner, authorization, stats.referenced).maps;
      var entry := ProgramEntry(ProgramRuntime(s.nextId, maps), stats.wcet, charge, owner, authorization);
      assert EntryResolves(s.maps, entry) by {
        CaptureMapsResolve(s.maps, owner, authorization, stats.referenced);
      }
      InsertProgramInv(s, entry, memory.slot, memory.generation);
    }
  }

  lemma LoadVerifiedInv(s: State, owner: nat, insns: nat, authorization: Access, verdict: Option<Stats>,
                        memory: LoadMemory)
    requires Inv(s)
    ensures Inv(LoadVerified(s, owner, insns, authorization, verdict, memory).state)
  {
    if verdict.Some? {
      RegisterInv(s, owner, authorization, verdict.value, insns * INSN_BYTES, memory);
    }
  }

  lemma LoadRawInv(s: State, owner: nat, insns: nat, authorization: Access, verdict: Option<Stats>, memory: LoadMemory)
    requires Inv(s)
    ensures Inv(LoadRaw(s, owner, insns, authorization, verdict, memory).state)
  {
    LoadVerifiedInv(s, owner, insns, authorization, verdict, memory);
  }

  lemma LoadElfInv(s: State, owner: nat, bytes: nat, authentic: bool, program: Option<nat>, authorization: Access,
                   verdict: Option<Stats>, memory: LoadMemory)
    requires Inv(s)
    ensures Inv(LoadElf(s, owner, bytes, authentic, program, authorization, verdict, memory).state)
  {
    if program.Some? {
      LoadVerifiedInv(s, owner, program.value, authorization, verdict, memory);
    }
  }

  lemma InsertMapTotal(t: Table<MapEntry>, maxSlots: nat, entry: MapEntry, slotMemory: bool, genMemory: bool,
                       m: Measure)
    requires Handles.Valid(t) && Insert(t, maxSlots, entry, slotMemory, genMemory).Inserted?
    ensures MapTotal(Insert(t, maxSlots, entry, slotMemory, genMemory).table.slots, m)
         == MapTotal(t.slots, m) + MapWeight(Some(entry), m)
  {
    var k := FirstReusable(t, 0);
    if k < |t.slots| {
      MapTotalUpdate(t.slots, k, Some(entry), m);
    } else {
      MapTotalAppend(t.slots, Some(entry), m);
    }
  }

  lemma InsertMapAccounting(s: State, entry: MapEntry, slotMemory: bool, genMemory: bool)
    requires WellFormed(s) && MapAccounting(s) && MapQuota(s, entry.owner, entry.charge) && entry.charge > 0
    requires Insert(s.maps, s.config.limits.maxMapSlots, entry, slotMemory, genMemory).Inserted?
    ensures MapAccounting(s.(
              maps := Insert(s.maps, s.config.limits.maxMapSlots, entry, slotMemory, genMemory).table,
              liveMaps := s.liveMaps + 1, mapBytes := s.mapBytes + entry.charge))
  {
    hide Insert, MapTotal, HasSlot, TablesOk;
    forall m: Measure
      ensures MapTotal(Insert(s.maps, s.config.limits.maxMapSlots, entry, slotMemory, genMemory).table.slots, m)
           == MapTotal(s.maps.slots, m) + MapWeight(Some(entry), m)
    {
      InsertMapTotal(s.maps, s.config.limits.maxMapSlots, entry, slotMemory, genMemory, m);
    }
  }

  /** Captures and pins survive any change of the map table that keeps the maps they name. */
  lemma MapsKept(s: State, t: Table<MapEntry>)
    requires CapturesResolve(s.programs, s.maps) && PinsResolve(s.pins, s.maps)
    requires forall i :: Occupied(s.maps, i) && i < |s.maps.gens| ==>
               Occupied(t, i) && i < |t.gens| && t.gens[i] == s.maps.gens[i]
               && t.slots[i].value.runtime == s.maps.slots[i].value.runtime
    ensures CapturesResolve(s.programs, t) && PinsResolve(s.pins, t)
  {
    forall i | Occupied(s.programs, i)
      ensures EntryResolves(t, s.programs.slots[i].value)
    {
      var e := s.programs.slots[i].value;
      assert EntryResolves(s.maps, e);
      forall k | 0 <= k < |e.program.maps| && e.program.maps[k].Some?
        ensures CaptureResolves(t, k, e.program.maps[k].value)
      {
        assert CaptureResolves(s.maps, k, e.program.maps[k].value);
      }
    }
    forall i | 0 <= i < |s.pins|
      ensures Live(t, s.pins[i].mapId)
    {
      assert Occupied(s.maps, Slot(s.pins[i].mapId));
    }
  }

  lemma InsertMapTables(s: State, entry: MapEntry, slotMemory: bool, genMemory: bool)
    requires TablesValid(s) && entry.runtime == s.nextId && entry.charge > 0 && entry.perm == ReadWrite
             && entry.grants == []
    requires Insert(s.maps, s.config.limits.maxMapSlots, entry, slotMemory, genMemory).Inserted?
    ensures TablesValid(s.(
              maps := Insert(s.maps, s.config.limits.maxMapSlots, entry, slotMemory, genMemory).table,
              nextId := s.nextId + 1))
  {
    InsertEffect(s.maps, s.config.limits.maxMapSlots, entry, slotMemory, genMemory);
  }

  lemma CreateInv(s: State, owner: nat, mapType: nat, keySize: nat, valueSize: nat, maxEntries: nat,
                  memory: CreateMemory)
    requires Inv(s)
    ensures Inv(CreateMap(s, owner, mapType, keySize, valueSize, maxEntries, memory).state)
  {
    hide AllocationCharge, MapQuota, TablesOk, CapturesResolve, PinsResolve, HooksOk, ProgramCounts, MapCounts,
      LedgerMatches;
    var r := CreateMap(s, owner, mapType, keySize, valueSize, maxEntries, memory);
    if r.reply.Handle? {
      var charge := AllocationCharge(s.config.limits, mapType, keySize, valueSize, maxEntries).bytes;
      var entry := MapEntry(s.nextId, ReadWrite, charge, owner, []);
      InsertMapTables(s, entry, memory.slot, memory.generation);
      InsertMapAccounting(s, entry, memory.slot, memory.generation);
      MapsKept(s, r.state.maps);
    }
  }

  // --------------------------------------------------------------------- attach, detach

  /** The part of the invariant an attachment change can touch, before publication. */
  ghost predicate InvButPublished(s: State) {
    Inv(Publish(s))
  }

  lemma CommitHooks(s: State, hook: nat, prog: nat)
    requires HooksValid(s) && Supported(hook) && Live(s.programs, prog)
    requires prog !in Attached(s.attachments, hook) && |Attached(s.attachments, hook)| < HOOK_FANOUT_LIMIT
    ensures var a := s.attachments[hook := Attached(s.attachments, hook) + [prog]];
            AttachmentsLoaded(a, s.programs) && RoutesAttached(s.routes, a)
  {
    var list := Attached(s.attachments, hook);
    assert hook in s.attachments ==> HookValid(hook, list, s.programs);
    assert HookValid(hook, list + [prog], s.programs);
  }

  lemma CommitInv(s: State, hook: nat, prog: nat, memory: bool)
    requires Inv(s) && Supported(hook) && Live(s.programs, prog)
    requires prog !in Attached(s.attachments, hook) && |Attached(s.attachments, hook)| < HOOK_FANOUT_LIMIT
    ensures var c := CommitAttach(s, hook, prog, memory);
            && (c.reply.Failed? || c.reply.Done?)
            && (c.reply.Failed? ==> c.state == s)
            && (c.reply.Done? ==>
                  && InvButPublished(c.state)
                  && c.state == s.(attachments := s.attachments[hook := Attached(s.attachments, hook) + [prog]],
                                   ledger := c.state.ledger))
  {
    hide TablesOk, CapturesResolve, PinsResolve, ProgramCounts, MapCounts, AttachmentsLoaded, RoutesAttached,
      ClonesLoaded, Project;
    var c := CommitAttach(s, hook, prog, memory);
    if c.reply.Done? {
      assert (hook, prog) !in s.ledger.per;
      AdmitBalanced(s.ledger, hook, prog, Entry(s.programs, prog).wcet, s.config.hookFrequency);
      CommitHooks(s, hook, prog);
      assert LedgerMatches(c.state.ledger, c.state.attachments, s.config.hookFrequency);
    }
  }

  lemma AttachInv(s: State, owner: nat, hook: nat, prog: nat, accepted: bool, memory: AttachMemory)
    requires Inv(s)
    ensures Inv(AttachFor(s, owner, hook, prog, accepted, memory).state)
    ensures AttachFor(s, owner, hook, prog, accepted, memory).reply.Failed? ==>
              AttachFor(s, owner, hook, prog, accepted, memory).state == s
  {
    hide Inv, CommitAttach;
    if AttachError(s, hook, prog, accepted).None? && prog !in Attached(s.attachments, hook) {
      CommitInv(s, hook, prog, memory.list);
    }
  }

  lemma InsertRouteRouted(routes: Routes, chip: nat, pin: nat, edge: Edge, prog: nat, p: nat)
    requires Routed(InsertRoute(routes, chip, pin, edge, prog), p)
    ensures p == prog || Routed(routes, p)
  {
    var routes' := InsertRoute(routes, chip, pin, edge, prog);
    var k :| k in routes' && exists x: Route :: x in routes'[k] && x.prog == p;
    var x: Route :| x in routes'[k] && x.prog == p;
    if p != prog {
      assert x in At(routes, k.0, k.1);
      assert k in routes && x in routes[k];
    }
  }

  lemma RouteInv(s: State, chip: nat, pin: nat, edge: Edge, prog: nat)
    requires InvButPublished(s) && prog in Attached(s.attachments, ATTACH_GPIO)
    requires CanInsert(s.routes, chip, pin, edge, prog, GPIO_IRQ_FANOUT_LIMIT)
    ensures InvButPublished(s.(routes := InsertRoute(s.routes, chip, pin, edge, prog)))
  {
    hide TablesOk, CapturesResolve, PinsResolve, ProgramCounts, MapCounts, AttachmentsLoaded, ClonesLoaded,
      LedgerMatches, Project;
    InsertFanout(s.routes, chip, pin, edge, prog, GPIO_IRQ_FANOUT_LIMIT);
    var routes' := InsertRoute(s.routes, chip, pin, edge, prog);
    forall p | Routed(routes', p)
      ensures p in Attached(s.attachments, ATTACH_GPIO)
    {
      InsertRouteRouted(s.routes, chip, pin, edge, prog, p);
    }
    assert forall k :: k in routes' ==> routes'[k] != [];
    assert RoutesAttached(routes', s.attachments);
  }

  lemma AttachGpioInv(s: State, owner: nat, chip: nat, pin: nat, edge: Edge, prog: nat, accepted: bool,
                      memory: AttachMemory)
    requires Inv(s)
    ensures Inv(AttachGpio(s, owner, chip, pin, edge, prog, accepted, memory).state)
    ensures AttachGpio(s, owner, chip, pin, edge, prog, accepted, memory).reply.Failed? ==>
              AttachGpio(s, owner, chip, pin, edge, prog, accepted, memory).state == s
  {
    assert Publish(s) == s;
    hide Inv, CommitAttach, CanInsert, InsertRoute, Project;
    var r := AttachGpio(s, owner, chip, pin, edge, prog, accepted, memory);
    if AttachError(s, ATTACH_GPIO, prog, accepted).None? && r.reply.Done? {
      if prog in Attached(s.attachments, ATTACH_GPIO) {
        RouteInv(s, chip, pin, edge, prog);
      } else {
        CommitInv(s, ATTACH_GPIO, prog, memory.list);
        RouteInv(CommitAttach(s, ATTACH_GPIO, prog, memory.list).state, chip, pin, edge, prog);
      }
    } else if AttachError(s, ATTACH_GPIO, prog, accepted).None? && prog !in Attached(s.attachments, ATTACH_GPIO) {
      CommitInv(s, ATTACH_GPIO, prog, memory.list);
    }
  }

  lemma RemoveAtMembers(ids: seq<nat>, k: nat)
    requires k < |ids| && NoDuplicates(ids)
    ensures NoDuplicates(RemoveAt(ids, k))
    ensures forall p :: p in RemoveAt(ids, k) <==> p in ids && p != ids[k]
  {
    var r := RemoveAt(ids, k);
    assert forall i :: 0 <= i < |r| ==> r[i] == if i < k then ids[i] else ids[i + 1];
    forall p | p in ids && p != ids[k]
      ensures p in r
    {
      var i :| 0 <= i < |ids| && ids[i] == p;
      assert r[if i < k then i else i - 1] == p;
    }
  }

  /** Dropping one attachment and its routes leaves hooks valid once republished. */
  lemma DetachHooks(s: State, hook: nat, prog: nat)
    requires HooksValid(s) && prog in Attached(s.attachments, hook)
    ensures var list := Attached(s.attachments, hook);
            var a := s.attachments[hook := RemoveAt(list, IndexOf(list, prog))];
            && AttachmentsLoaded(a, s.programs)
            && RoutesAttached(GpioRoutes.Remove(s.routes, {prog}), a)
            && (forall h: nat, p :: p in Attached(a, h) <==>
                    p in Attached(s.attachments, h) && !(h == hook && p == prog))
  {
    var list := Attached(s.attachments, hook);
    var k := IndexOf(list, prog);
    assert HookValid(hook, list, s.programs);
    RemoveAtMembers(list, k);
    var a := s.attachments[hook := RemoveAt(list, k)];
    assert HookValid(hook, RemoveAt(list, k), s.programs);
    RemoveFanout(s.routes, {prog}, GPIO_IRQ_FANOUT_LIMIT);
    var routes' := GpioRoutes.Remove(s.routes, {prog});
    forall p | Routed(routes', p)
      ensures p in Attached(a, ATTACH_GPIO)
    {
      RemoveRouted(s.routes, {prog}, p);
    }
  }

  lemma DetachInv(s: State, hook: nat, prog: nat, memory: bool)
    requires Inv(s)
    ensures Inv(Detach(s, hook, prog, memory).state)
    ensures Detach(s, hook, prog, memory).reply.Failed? ==> Detach(s, hook, prog, memory).state == s
  {
    hide TablesOk, CapturesResolve, PinsResolve, ProgramCounts, MapCounts, AttachmentsLoaded, RoutesAttached,
      ClonesLoaded, Project;
    var r := Detach(s, hook, prog, memory);
    if r.reply.Done? {
      DetachHooks(s, hook, prog);
      ReleaseBalanced(s.ledger, hook, prog);
      assert LedgerMatches(r.state.ledger, r.state.attachments, s.config.hookFrequency);
    }
  }

  lemma DetachForInv(s: State, owner: nat, hook: nat, prog: nat, memory: bool)
    requires Inv(s)
    ensures Inv(DetachFor(s, owner, hook, prog, memory).state)
  {
    hide Inv, Detach;
    DetachInv(s, hook, prog, memory);
  }

  // ------------------------------------------------------------------------------ unload

  lemma LostOne(slots: seq<Option<ProgramEntry>>, i: nat, m: Measure)
    requires i < |slots|
    ensures ProgramTotal(Lost(slots, {i}), m) == ProgramWeight(slots[i], m)
    ensures Retain(slots, {i}) == slots[i := None]
  {
    ProgramTotalSplit(slots, {i}, m);
    ProgramTotalUpdate(slots, i, None, m);
    assert Retain(slots, {i}) == slots[i := None];
  }

  lemma LostOneMap(slots: seq<Option<MapEntry>>, i: nat, m: Measure)
    requires i < |slots|
    ensures MapTotal(Lost(slots, {i}), m) == MapWeight(slots[i], m)
    ensures Retain(slots, {i}) == slots[i := None]
  {
    MapTotalSplit(slots, {i}, m);
    MapTotalUpdate(slots, i, None, m);
    assert Retain(slots, {i}) == slots[i := None];
  }

  /** Unloading is freeing one program: a program that can be unloaded has no routes left. */
  lemma UnloadIsFree(s: State, owner: nat, prog: nat)
    requires Inv(s) && Unload(s, owner, prog).reply.Done?
    ensures Unloaded(s, prog) == FreePrograms(s, {Slot(prog)})
    ensures FreeableProgram(s, Slot(prog))
  {
    LostOne(s.programs.slots, Slot(prog), Objects);
    LostOne(s.programs.slots, Slot(prog), Bytes);
    forall p | Routed(s.routes, p)
      ensures AttachedAnywhere(s.attachments, p)
    {
      assert p in Attached(s.attachments, ATTACH_GPIO) && ATTACH_GPIO in s.attachments;
    }
    RemoveUnrouted(s.routes, {prog});
  }

  lemma UnloadInv(s: State, owner: nat, prog: nat)
    requires Inv(s)
    ensures Inv(Unload(s, owner, prog).state)
  {
    if Unload(s, owner, prog).reply.Done? {
      UnloadIsFree(s, owner, prog);
      FreeProgramsInv(s, {Slot(prog)});
      SweepInv(Unloaded(s, prog));
    }
  }

  // -------------------------------------------------------------------------- pin and get

  lemma PinInv(s: State, owner: nat, path: string, mapId: nat, offered: Access, memory: bool)
    requires Inv(s)
    ensures Inv(PinMap(s, owner, path, mapId, offered, memory).state)
  {
  }

  /** Changing grants moves no counter, capture or pin. */
  lemma GrantsInv(s: State, slots': seq<Option<MapEntry>>)
    requires Inv(s) && |slots'| == |s.maps.slots|
    requires forall i :: 0 <= i < |slots'| ==>
               && (slots'[i].Some? <==> s.maps.slots[i].Some?)
               && (slots'[i].Some? ==> slots'[i].value == s.maps.slots[i].value.(grants := slots'[i].value.grants)
                                       && ValidGrants(slots'[i].value.grants))
    ensures Inv(s.(maps := s.maps.(slots := slots')))
    ensures Later(s.maps, s.maps.(slots := slots'))
  {
    var t := s.maps.(slots := slots');
    MapsKept(s, t);
    forall m: Measure
      ensures MapTotal(s.maps.slots, m) == MapTotal(slots', m)
    {
      MapTotalSame(s.maps.slots, slots', m);
    }
    assert forall i :: Occupied(t, i) <==> Occupied(s.maps, i);
  }

  lemma GetInv(s: State, owner: nat, path: string, requested: Access, memory: bool)
    requires Inv(s)
    ensures Inv(GetPinned(s, owner, path, requested, memory).state)
  {
    var r := GetPinned(s, owner, path, requested, memory);
    if r.state != s {
      var id := s.pins[FindPin(s.pins, path)].mapId;
      GrantEffect(Entry(s.maps, id).grants, owner, requested, memory);
      GrantsInv(s, r.state.maps.slots);
    }
  }

  lemma UnpinInv(s: State, owner: nat, path: string, cleanup: bool)
    requires Inv(s)
    ensures Inv(Unpin(s, owner, path, cleanup).state)
  {
    hide TablesOk, CapturesResolve, HooksOk, ProgramCounts, MapCounts, LedgerMatches, Sweep;
    var r := Unpin(s, owner, path, cleanup);
    if r.reply.Done? {
      var k := FindPin(s.pins, path);
      var s' := s.(pins := RemoveAt(s.pins, k));
      assert forall i :: 0 <= i < |s'.pins| ==> s'.pins[i] == s.pins[if i < k then i else i + 1];
      SweepInv(s');
    }
  }

  /** Destruction is freeing one map. */
  lemma DestroyIsFree(s: State, owner: nat, mapId: nat)
    requires Inv(s) && Destroy(s, owner, mapId).reply.Done?
    ensures Destroy(s, owner, mapId).state == FreeMaps(s, {Slot(mapId)})
    ensures FreeableMap(s, Slot(mapId))
  {
    LostOneMap(s.maps.slots, Slot(mapId), Objects);
    LostOneMap(s.maps.slots, Slot(mapId), Bytes);
    HandleUnique(s.maps, mapId);
  }

  lemma DestroyInv(s: State, owner: nat, mapId: nat)
    requires Inv(s)
    ensures Inv(Destroy(s, owner, mapId).state)
  {
    if Destroy(s, owner, mapId).reply.Done? {
      DestroyIsFree(s, owner, mapId);
      FreeMapsInv(s, {Slot(mapId)});
    }
  }

  // --------------------------------------------------------------------------- owner exit

  lemma {:induction false} UnownedNoDuplicates(programs: Table<ProgramEntry>, owner: nat, ids: seq<nat>)
    requires NoDuplicates(ids)
    ensures NoDuplicates(Unowned(programs, owner, ids)) && |Unowned(programs, owner, ids)| <= |ids|
  {
    if ids != [] {
      UnownedNoDuplicates(programs, owner, ids[..|ids| - 1]);
    }
  }

  lemma UnownedAttached(s: State, owner: nat, h: nat)
    ensures Attached(UnownedAttachments(s.programs, owner, s.attachments), h)
         == Unowned(s.programs, owner, Attached(s.attachments, h))
  {
  }

  lemma DetachOwnerAttachments(s: State, owner: nat)
    requires Inv(s)
    ensures AttachmentsLoaded(UnownedAttachments(s.programs, owner, s.attachments), s.programs)
  {
    var a := UnownedAttachments(s.programs, owner, s.attachments);
    forall h | h in a
      ensures HookValid(h, a[h], s.programs)
    {
      assert HookValid(h, s.attachments[h], s.programs);
      UnownedNoDuplicates(s.programs, owner, s.attachments[h]);
    }
  }

  lemma OwnedInHandles(programs: Table<ProgramEntry>, owner: nat, p: nat)
    requires Handles.Valid(programs)
    ensures OwnedProgram(programs, owner, p) ==> p in OwnedHandles(programs, owner)
  {
    if OwnedProgram(programs, owner, p) {
      HandleUnique(programs, p);
    }
  }

  lemma DetachOwnerRoutes(s: State, owner: nat)
    requires Inv(s)
    ensures RoutesAttached(GpioRoutes.Remove(s.routes, OwnedHandles(s.programs, owner)),
                           UnownedAttachments(s.programs, owner, s.attachments))
  {
    var gone := OwnedHandles(s.programs, owner);
    var routes' := GpioRoutes.Remove(s.routes, gone);
    RemoveFanout(s.routes, gone, GPIO_IRQ_FANOUT_LIMIT);
    UnownedAttached(s, owner, ATTACH_GPIO);
    forall p | Routed(routes', p)
      ensures p in Unowned(s.programs, owner, Attached(s.attachments, ATTACH_GPIO))
    {
      RemoveRouted(s.routes, gone, p);
      OwnedInHandles(s.programs, owner, p);
    }
  }

  lemma DetachOwnerLedger(s: State, owner: nat)
    requires Inv(s)
    ensures LedgerMatches(ReleaseAll(s.ledger, OwnedKeys(s.programs, owner, s.attachments)),
                          UnownedAttachments(s.programs, owner, s.attachments), s.config.hookFrequency)
  {
    var keys := OwnedKeys(s.programs, owner, s.attachments);
    ReleaseAllBalanced(s.ledger, keys);
    var a, l := UnownedAttachments(s.programs, owner, s.attachments), ReleaseAll(s.ledger, keys);
    forall h: nat, p: nat
      ensures (h, p) in l.per <==> p in Attached(a, h)
    {
      UnownedAttached(s, owner, h);
      assert (h, p) in keys <==> p in Attached(s.attachments, h) && OwnedProgram(s.programs, owner, p);
    }
  }

  /** After detaching an owner nothing of its is attached, routed or published. */
  lemma DetachOwnerInv(s: State, owner: nat)
    requires Inv(s)
    ensures Inv(DetachOwner(s, owner))
    ensures forall p :: OwnedProgram(s.programs, owner, p) ==>
              !AttachedAnywhere(DetachOwner(s, owner).attachments, p) && !Routed(DetachOwner(s, owner).routes, p)
  {
    var s' := DetachOwner(s, owner);
    DetachOwnerAttachments(s, owner);
    DetachOwnerRoutes(s, owner);
    DetachOwnerLedger(s, owner);
    forall p | OwnedProgram(s.programs, owner, p)
      ensures !AttachedAnywhere(s'.attachments, p) && !Routed(s'.routes, p)
    {
      forall h | h in s'.attachments
        ensures p !in s'.attachments[h]
      {
        UnownedAttached(s, owner, h);
      }
      assert p !in Attached(s'.attachments, ATTACH_GPIO);
    }
  }

  lemma RevokeInv(s: State, owner: nat)
    requires Inv(s)
    ensures Inv(RevokeOwnerRights(s, owner))
    ensures Later(s.maps, RevokeOwnerRights(s, owner).maps)
  {
    var slots' := RevokeAll(s.maps.slots, owner);
    forall i | 0 <= i < |slots'| && slots'[i].Some?
      ensures ValidGrants(slots'[i].value.grants)
    {
      assert Occupied(s.maps, i);
      RevokeEffect(s.maps.slots[i].value.grants, owner);
    }
    GrantsInv(s, slots');
  }

  lemma OrphanMapsAccounting(s: State, owner: nat)
    requires MapAccounting(s)
    ensures MapAccounting(s.(maps := s.maps.(slots := OrphanMaps(s.maps.slots, owner))))
  {
    var slots' := OrphanMaps(s.maps.slots, owner);
    MapTotalSame(s.maps.slots, slots', Objects);
    MapTotalSame(s.maps.slots, slots', Bytes);
    forall o | o != PINNED_MAP_OWNER
      ensures MapTotal(slots', OwnerObjects(o)) <= MapTotal(s.maps.slots, OwnerObjects(o))
    {
      SumMonotone(MapWeights(slots', OwnerObjects(o)), MapWeights(s.maps.slots, OwnerObjects(o)));
    }
    forall o | o != PINNED_MAP_OWNER
      ensures MapTotal(slots', OwnerBytes(o)) <= MapTotal(s.maps.slots, OwnerBytes(o))
    {
      SumMonotone(MapWeights(slots', OwnerBytes(o)), MapWeights(s.maps.slots, OwnerBytes(o)));
    }
  }

  lemma OrphanMapsTables(s: State, owner: nat)
    requires TablesValid(s)
    ensures TablesValid(s.(maps := s.maps.(slots := OrphanMaps(s.maps.slots, owner))))
    ensures Later(s.maps, s.maps.(slots := OrphanMaps(s.maps.slots, owner)))
  {
    var t := s.maps.(slots := OrphanMaps(s.maps.slots, owner));
    forall i | Occupied(t, i)
      ensures Occupied(s.maps, i) && t.slots[i].value == s.maps.slots[i].value.(owner := t.slots[i].value.owner)
    {
    }
  }

  lemma OrphanMapsInv(s: State, owner: nat)
    requires Inv(s)
    ensures Inv(s.(maps := s.maps.(slots := OrphanMaps(s.maps.slots, owner))))
    ensures Later(s.maps, s.maps.(slots := OrphanMaps(s.maps.slots, owner)))
  {
    OrphanMapsTables(s, owner);
    OrphanMapsAccounting(s, owner);
    MapsKept(s, s.maps.(slots := OrphanMaps(s.maps.slots, owner)));
  }

  lemma ReleaseMapsInv(s: State, owner: nat)
    requires Inv(s)
    ensures Inv(ReleaseMaps(s, owner))
    ensures Later(s.maps, ReleaseMaps(s, owner).maps)
  {
    var gone := FreeableMaps(s, owner);
    FreeMapsInv(s, gone);
    OrphanMapsInv(FreeMaps(s, gone), owner);
    LaterTransitive(s.maps, FreeMaps(s, gone).maps, ReleaseMaps(s, owner).maps);
  }

  lemma ReclaimProgramsInv(s: State, owner: nat)
    requires Inv(s)
    ensures Inv(ReclaimPrograms(s, owner))
    ensures Later(s.programs, ReclaimPrograms(s, owner).programs) && Later(s.maps, ReclaimPrograms(s, owner).maps)
  {
    DetachOwnerInv(s, owner);
    var s1 := DetachOwner(s, owner);
    RevokeInv(s1, owner);
    var s2 := RevokeOwnerRights(s1, owner);
    FreeProgramsInv(s2, FreeablePrograms(s2, owner));
  }

  lemma ReclaimInv(s: State, owner: nat, memory: bool)
    requires Inv(s)
    ensures Inv(Reclaim(s, owner, memory).state)
    ensures Later(s.programs, Reclaim(s, owner, memory).state.programs)
    ensures Later(s.maps, Reclaim(s, owner, memory).state.maps)
  {
    if memory {
      ReclaimProgramsInv(s, owner);
      var s3 := ReclaimPrograms(s, owner);
      if !OwnsProgram(s3.programs, owner) {
        ReleaseMapsInv(s3, owner);
        var s4 := ReleaseMaps(s3, owner);
        SweepInv(s4);
        LaterTransitive(s.maps, s3.maps, s4.maps);
        LaterTransitive(s.maps, s4.maps, Sweep(s4).maps);
      }
    }
  }

  // ------------------------------------------------------------------------------ clones

  lemma CloneInv(s: State, owner: nat, prog: nat)
    requires Inv(s)
    ensures Inv(CloneProgram(s, owner, prog).state)
  {
    if OwnerError(s, owner, prog).None? {
      assert Occupied(s.programs, Slot(prog));
      assert LoadedId(s.programs, Entry(s.programs, prog).program.id);
    }
  }

  lemma DropCloneInv(s: State, id: nat)
    requires Inv(s)
    ensures Inv(DropClone(s, id).state)
  {
  }

  // -------------------------------------------------------------------------- every step

  /** Every operation keeps the invariant. */
  lemma HookStepInv(s: State, op: Op)
    requires Inv(s)
    requires op.OpLoadRaw? || op.OpLoadBuiltin? || op.OpLoadElf? || op.OpAttach? || op.OpAttachGpio? || op.OpDetach?
             || op.OpDetachFor?
    ensures Inv(Apply(s, op).state)
  {
    hide Inv;
    hide LoadRaw, LoadVerified, LoadElf, AttachFor, AttachGpio, Detach, DetachFor;
    match op
    case OpLoadRaw(o, n, a, v, m) => LoadRawInv(s, o, n, a, v, m);
    case OpLoadBuiltin(n, v, m) => LoadVerifiedInv(s, 0, n, READ_WRITE, v, m);
    case OpLoadElf(o, b, au, p, a, v, m) => LoadElfInv(s, o, b, au, p, a, v, m);
    case OpAttach(o, h, p, a, m) => AttachInv(s, o, h, p, a, m);
    case OpAttachGpio(o, c, pin, e, p, a, m) => AttachGpioInv(s, o, c, pin, e, p, a, m);
    case OpDetach(h, p, m) => DetachInv(s, h, p, m);
    case OpDetachFor(o, h, p, m) => DetachForInv(s, o, h, p, m);
  }

  lemma StepInv(s: State, op: Op)
    requires Inv(s)
    ensures Inv(Apply(s, op).state)
  {
    hide Inv;
    hide LoadRaw, LoadVerified, LoadElf, AttachFor, AttachGpio, Detach, DetachFor, Unload;
    hide CreateMap, PinMap, GetPinned, Unpin, Destroy, Reclaim, CloneProgram, DropClone;
    match op
    case OpUnload(o, p) => UnloadInv(s, o, p);
    case OpCreate(o, t, k, v, n, m) => CreateInv(s, o, t, k, v, n, m);
    case OpPin(o, path, id, a, m) => PinInv(s, o, path, id, a, m);
    case OpGet(o, path, r, m) => GetInv(s, o, path, r, m);
    case OpUnpin(o, path, c) => UnpinInv(s, o, path, c);
    case OpDestroy(o, id) => DestroyInv(s, o, id);
    case OpReclaim(o, m) => ReclaimInv(s, o, m);
    case OpClone(o, p) => CloneInv(s, o, p);
    case OpDropClone(id) => DropCloneInv(s, id);
    case _ => HookStepInv(s, op);
  }
}
