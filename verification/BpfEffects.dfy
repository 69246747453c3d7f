/** What the operations on programs, maps and pins do: when each succeeds, and which objects and rights change. */
module BpfEffects {
  import opened Common
  import opened Handles
  import opened Authorization
  import opened BpfState
  import opened BpfInvariants
  import opened BpfPreservation
  import opened BpfRuns
  import opened BpfTheorems

  // ------------------------------------------------------------------------------ the sweep

  /** A program in the table, other than `except`, captured the map. */
  ghost predicate HeldByOther(s: State, mapId: nat, except: nat)
    requires Live(s.maps, mapId)
  {
    exists p ::
      && Live(s.programs, p) && p != except
      && CapturesRuntime(Entry(s.programs, p), Entry(s.maps, mapId).runtime)
  }

  /** The map's owner is gone and nothing pins it. */
  ghost predicate Ownerless(s: State, pins: seq<Pin>, mapId: nat)
    requires Live(s.maps, mapId)
  {
    && Entry(s.maps, mapId).owner == PINNED_MAP_OWNER && Entry(s.maps, mapId).charge > 0
    && forall pin :: pin in pins ==> pin.mapId != mapId
  }

  lemma CapturedByHandle(s: State, runtime: nat)
    requires WellFormed(s)
    ensures CapturedBySome(s.programs, runtime) <==>
              exists p :: Live(s.programs, p) && CapturesRuntime(Entry(s.programs, p), runtime)
  {
    hide CapturesRuntime;
    if CapturedBySome(s.programs, runtime) {
      var i :| Occupied(s.programs, i) && CapturesRuntime(s.programs.slots[i].value, runtime);
      OccupiedLive(s.programs, i);
    }
    if p :| Live(s.programs, p) && CapturesRuntime(Entry(s.programs, p), runtime) {
      assert Occupied(s.programs, Slot(p));
    }
  }

  lemma SweptSlot(s: State, mapId: nat)
    requires WellFormed(s) && Live(s.maps, mapId)
    ensures Slot(mapId) in Sweepable(s) <==>
              Ownerless(s, s.pins, mapId) && !CapturedBySome(s.programs, Entry(s.maps, mapId).runtime)
  {
    hide CapturedBySome, MapStrongCount;
    HandleUnique(s.maps, mapId);
    MapCountOne(s.programs, Entry(s.maps, mapId).runtime);
    assert Pinned(s.pins, mapId) <==> exists pin :: pin in s.pins && pin.mapId == mapId;
  }

  /** The sweep removes exactly the ownerless maps no loaded program captured. */
  lemma SweepExact(s: State)
    requires WellFormed(s)
    ensures var s' := Sweep(s);
            && Handles.Valid(s'.maps)
            && (forall m :: Live(s'.maps, m) <==>
                  && Live(s.maps, m)
                  && !(Ownerless(s, s.pins, m) && !CapturedBySome(s.programs, Entry(s.maps, m).runtime)))
            && (forall m :: Live(s'.maps, m) ==> Entry(s'.maps, m) == Entry(s.maps, m))
            && s' == s.(maps := s'.maps, liveMaps := s'.liveMaps, mapBytes := s'.mapBytes)
  {
    var gone := Sweepable(s);
    RetainLater(s.maps, gone);
    forall m | Live(s.maps, m)
      ensures Slot(m) in gone <==> Ownerless(s, s.pins, m) && !CapturedBySome(s.programs, Entry(s.maps, m).runtime)
    {
      SweptSlot(s, m);
    }
    hide Sweepable, Ownerless, CapturedBySome, MapTotal, Retain;
  }

  // ----------------------------------------------------------------------------- programs

  /** The program has left the table with its charge; every other program is as it was. */
  ghost predicate ProgramGone(s: State, s': State, prog: nat) {
    && Live(s.programs, prog)
    && (forall h :: Live(s'.programs, h) <==> Live(s.programs, h) && h != prog)
    && (forall h :: Live(s'.programs, h) ==> Entry(s'.programs, h) == Entry(s.programs, h))
    && s'.livePrograms == s.livePrograms - 1
    && s'.programBytes == s.programBytes - Entry(s.programs, prog).charge
  }

  lemma SlotDistinct<T>(t: Table<T>, g: nat, h: nat)
    requires Live(t, g) && Live(t, h)
    ensures Slot(g) == Slot(h) <==> g == h
  {
  }

  lemma FreedProgram(s: State, prog: nat)
    requires WellFormed(s) && Live(s.programs, prog) && ProgramAccounting(s)
    ensures ProgramGone(s, FreePrograms(s, {Slot(prog)}), prog)
  {
    FreeProgramsAccounting(s, {Slot(prog)});
    LostOne(s.programs.slots, Slot(prog), Objects);
    LostOne(s.programs.slots, Slot(prog), Bytes);
    RetainLater(s.programs, {Slot(prog)});
    hide ProgramTotal, Lost, Retain, ProgramAccounting;
    forall h | Live(s.programs, h)
      ensures Slot(h) == Slot(prog) <==> h == prog
    {
      SlotDistinct(s.programs, h, prog);
    }
  }

  lemma InvProgramCounts(s: State)
    requires Inv(s)
    ensures ProgramAccounting(s)
  {
  }

  lemma UnloadedGone(s: State, owner: nat, prog: nat)
    requires Inv(s) && Unload(s, owner, prog).reply == Done
    ensures Inv(Unloaded(s, prog)) && ProgramGone(s, Unloaded(s, prog), prog)
    ensures var s1 := Unloaded(s, prog);
            s1 == s.(programs := s1.programs, livePrograms := s1.livePrograms, programBytes := s1.programBytes)
  {
    InvWellFormed(s);
    UnloadSucceedsIff(s, owner, prog);
    hide Inv, Unload, ProgramGone, ProgramAccounting, Unloaded;
    InvProgramCounts(s);
    UnloadIsFree(s, owner, prog);
    FreeProgramsInv(s, {Slot(prog)});
    FreedProgram(s, prog);
  }

  /**
   After a successful unload the program is gone and no other is; a map is gone exactly when its owner had exited,
   nothing pins it and no remaining program captured it; nothing else moved.
   */
  lemma UnloadEffect(s: State, owner: nat, prog: nat)
    requires Inv(s) && Unload(s, owner, prog).reply == Done
    ensures var s' := Unload(s, owner, prog).state;
            && ProgramGone(s, s', prog)
            && (forall m :: Live(s'.maps, m) <==>
                  Live(s.maps, m) && !(Ownerless(s, s.pins, m) && !HeldByOther(s, m, prog)))
            && (forall m :: Live(s'.maps, m) ==> Entry(s'.maps, m) == Entry(s.maps, m))
            && s' == s.(programs := s'.programs, livePrograms := s'.livePrograms, programBytes := s'.programBytes,
                        maps := s'.maps, liveMaps := s'.liveMaps, mapBytes := s'.mapBytes)
  {
    InvWellFormed(s);
    UnloadedGone(s, owner, prog);
    var s1 := Unloaded(s, prog);
    assert Unload(s, owner, prog).state == Sweep(s1);
    InvWellFormed(s1);
    SweepExact(s1);
    forall m | Live(s.maps, m)
      ensures CapturedBySome(s1.programs, Entry(s.maps, m).runtime) <==> HeldByOther(s, m, prog)
    {
      CapturedByHandle(s1, Entry(s.maps, m).runtime);
    }
    hide Inv, Unload, Unloaded, Sweep, CapturedBySome, CapturesRuntime, HeldByOther;
  }

  // ------------------------------------------------------------------------ captured maps

  /** What a load captures of a map: no more than the map allows, the caller has and the load is authorized for. */
  function CapturedRights(e: MapEntry, owner: nat, authorized: Access): Access {
    var rights := PermAccess(e.perm);
    var has := Rights(e, owner);
    Access(rights.read && has.read && authorized.read, rights.write && has.write && authorized.write)
  }

  lemma CapturedPerm(e: MapEntry, owner: nat, authorized: Access)
    requires e.perm == ReadWrite || e.perm == ReadOnly
    ensures PermAccess(OwnerPerm(e, owner, authorized)) == CapturedRights(e, owner, authorized)
  {
  }

  ghost predicate NamesSlot(referenced: seq<nat>, i: nat) {
    exists h :: h in referenced && Slot(h) == i
  }

  /** Every map is writable but the reserved one, which is read-only. */
  ghost predicate PermsPlain(maps: Table<MapEntry>) {
    forall i :: Occupied(maps, i) ==> maps.slots[i].value.perm == ReadWrite || maps.slots[i].value.perm == ReadOnly
  }

  /** The private view holds exactly the referenced maps, each with what `CapturedRights` leaves of it. */
  ghost predicate ViewOf(maps: Table<MapEntry>, owner: nat, authorized: Access, referenced: seq<nat>,
                         view: seq<Option<Capture>>) {
    && |view| == |maps.slots| == |maps.gens|
    && (forall i :: 0 <= i < |view| ==> (view[i].Some? <==> NamesSlot(referenced, i)))
    && (forall i :: 0 <= i < |view| && view[i].Some? ==>
          && maps.slots[i].Some?
          && view[i].value.generation == maps.gens[i] && view[i].value.runtime == maps.slots[i].value.runtime
          && PermAccess(view[i].value.perm) == CapturedRights(maps.slots[i].value, owner, authorized))
  }

  lemma NamesSlotSnoc(init: seq<nat>, last: nat, i: nat)
    ensures NamesSlot(init + [last], i) <==> NamesSlot(init, i) || Slot(last) == i
  {
    if Slot(last) == i {
      assert last in init + [last];
    }
    if NamesSlot(init, i) {
      var h :| h in init && Slot(h) == i;
      assert h in init + [last];
    }
  }

  lemma CaptureOneExact(maps: Table<MapEntry>, owner: nat, authorized: Access, acc: seq<Option<Capture>>, h: nat)
    requires Handles.Valid(maps) && PermsPlain(maps) && |acc| == |maps.slots|
    ensures var r := CaptureOne(maps, owner, authorized, acc, h);
            && (r.Captured? <==> Live(maps, h) && CapturedRights(Entry(maps, h), owner, authorized) != NO_ACCESS)
            && (r.Captured? ==>
                  exists c: Capture ::
                    && r.maps == acc[Slot(h) := Some(c)]
                    && c.generation == maps.gens[Slot(h)] && c.runtime == Entry(maps, h).runtime
                    && PermAccess(c.perm) == CapturedRights(Entry(maps, h), owner, authorized))
  {
    if Live(maps, h) {
      assert Occupied(maps, Slot(h));
      CapturedPerm(Entry(maps, h), owner, authorized);
      var c := Capture(maps.gens[Slot(h)], OwnerPerm(Entry(maps, h), owner, authorized), Entry(maps, h).runtime);
      hide OwnerPerm, CapturedRights;
      assert CaptureOne(maps, owner, authorized, acc, h).Captured? ==>
               CaptureOne(maps, owner, authorized, acc, h).maps == acc[Slot(h) := Some(c)];
    }
  }

  lemma ViewSnoc(maps: Table<MapEntry>, owner: nat, authorized: Access, init: seq<nat>, h: nat,
                 acc: seq<Option<Capture>>, c: Capture)
    requires Live(maps, h) && ViewOf(maps, owner, authorized, init, acc)
    requires c.generation == maps.gens[Slot(h)] && c.runtime == Entry(maps, h).runtime
             && PermAccess(c.perm) == CapturedRights(Entry(maps, h), owner, authorized)
    ensures ViewOf(maps, owner, authorized, init + [h], acc[Slot(h) := Some(c)])
  {
    hide NamesSlot, CapturedRights, PermAccess;
    forall i: nat
      ensures NamesSlot(init + [h], i) <==> NamesSlot(init, i) || Slot(h) == i
    {
      NamesSlotSnoc(init, h, i);
    }
  }

  /** A load captures the maps its code refers to, and fails exactly when one is not loaded or leaves it no right. */
  lemma {:induction false} CaptureExact(maps: Table<MapEntry>, owner: nat, authorized: Access, referenced: seq<nat>)
    requires Handles.Valid(maps) && PermsPlain(maps)
    ensures CaptureMaps(maps, owner, authorized, referenced).Captured? <==>
              forall h :: h in referenced ==>
                Live(maps, h) && CapturedRights(Entry(maps, h), owner, authorized) != NO_ACCESS
    ensures CaptureMaps(maps, owner, authorized, referenced).Captured? ==>
              ViewOf(maps, owner, authorized, referenced, CaptureMaps(maps, owner, authorized, referenced).maps)
  {
    if referenced != [] {
      var init, last := referenced[..|referenced| - 1], referenced[|referenced| - 1];
      CaptureExact(maps, owner, authorized, init);
      assert referenced == init + [last];
      var before := CaptureMaps(maps, owner, authorized, init);
      assert before.CaptureFailed? ==> CaptureMaps(maps, owner, authorized, referenced).CaptureFailed?;
      if before.Captured? {
        var after := CaptureOne(maps, owner, authorized, before.maps, last);
        assert CaptureMaps(maps, owner, authorized, referenced) == after;
        hide CaptureMaps, CaptureOne, ViewOf, CapturedRights;
        CaptureOneExact(maps, owner, authorized, before.maps, last);
        if after.Captured? {
          var c: Capture :|
            && after.maps == before.maps[Slot(last) := Some(c)]
            && c.generation == maps.gens[Slot(last)] && c.runtime == Entry(maps, last).runtime
            && PermAccess(c.perm) == CapturedRights(Entry(maps, last), owner, authorized);
          ViewSnoc(maps, owner, authorized, init, last, before.maps, c);
        }
      }
    }
  }

  lemma InvPerms(s: State)
    requires Inv(s)
    ensures PermsPlain(s.maps)
  {
  }

  /** A load passes exactly when the quota has room, every map it refers to leaves it a right, and memory allows. */
  lemma RegisterSucceedsIff(s: State, owner: nat, authorization: Access, stats: Stats, charge: nat, memory: LoadMemory)
    requires Inv(s)
    ensures WellFormed(s)
    ensures Register(s, owner, authorization, stats, charge, memory).reply.Handle? <==>
              && ProgramQuota(s, owner, charge) && memory.captures
              && (forall h :: h in stats.referenced ==>
                    Live(s.maps, h) && CapturedRights(Entry(s.maps, h), owner, authorization) != NO_ACCESS)
              && ((exists i :: Reusable(s.programs, i)) || (memory.slot && memory.generation))
  {
    InvWellFormed(s);
    InvPerms(s);
    CaptureExact(s.maps, owner, authorization, stats.referenced);
    InvSlots(s);
    assert FirstReusable(s.programs, 0) < |s.programs.slots| <==> exists i :: Reusable(s.programs, i);
    hide Inv, ViewOf, CaptureMaps, CapturedRights, ProgramTotal, FirstReusable, Reusable;
  }

  lemma InvSlots(s: State)
    requires Inv(s)
    ensures s.config.limits.maxProgramSlots <= SLOT_COUNT
  {
  }

  /**
   After a successful load the program is in the table under the new handle with the charge and rights it was loaded
   with, its private view is exactly the maps its code refers to, and nothing else changed but the counters.
   */
  lemma RegisterEffect(s: State, owner: nat, authorization: Access, stats: Stats, charge: nat, memory: LoadMemory)
    requires Inv(s) && Register(s, owner, authorization, stats, charge, memory).reply.Handle?
    ensures var r := Register(s, owner, authorization, stats, charge, memory);
            var s' := r.state;
            && !Live(s.programs, r.reply.id)
            && (forall h :: Live(s'.programs, h) <==> Live(s.programs, h) || h == r.reply.id)
            && (forall h :: Live(s.programs, h) ==> Entry(s'.programs, h) == Entry(s.programs, h))
            && var e := Entry(s'.programs, r.reply.id);
            && e.owner == owner && e.authorization == authorization && e.charge == charge && e.wcet == stats.wcet
            && ViewOf(s.maps, owner, authorization, stats.referenced, e.program.maps)
            && s' == s.(programs := s'.programs, nextId := s'.nextId, livePrograms := s.livePrograms + 1,
                        programBytes := s.programBytes + charge)
  {
    InvWellFormed(s);
    RegisterLater(s, owner, authorization, stats, charge, memory);
    InvPerms(s);
    CaptureExact(s.maps, owner, authorization, stats.referenced);
    hide Inv, ViewOf, CaptureMaps, Insert, ProgramQuota;
  }

  /** The load was let through: verified, authentic unless unsigned programs are allowed, and charged by its code. */
  ghost predicate Vetted(config: Config, op: Op, e: ProgramEntry) {
    Loads(op) && op.verdict.Some? && e.wcet == op.verdict.value.wcet &&
    match op
    case OpLoadRaw(owner, insns, authorization, _, _) =>
      config.allowUnsigned && e.owner == owner && e.authorization == authorization && e.charge == 8 * insns
    case OpLoadBuiltin(insns, _, _) => e.owner == 0 && e.authorization == READ_WRITE && e.charge == 8 * insns
    case OpLoadElf(owner, bytes, authentic, program, authorization, _, _) =>
      && authentic && bytes <= config.limits.maxElfBytes && program.Some?
      && e.owner == owner && e.authorization == authorization && e.charge == 8 * program.value
    case _ => false
  }

  lemma LoadVetted(s: State, op: Op)
    requires WellFormed(s) && Loads(op) && Apply(s, op).reply.Handle?
    ensures var r := Apply(s, op);
            && (forall h :: Live(r.state.programs, h) ==> h == r.reply.id || Live(s.programs, h))
            && Live(r.state.programs, r.reply.id) && Vetted(s.config, op, Entry(r.state.programs, r.reply.id))
  {
    hide ProgramQuota, CaptureMaps, Insert, Register;
    var insns := if op.OpLoadElf? then (if op.program.Some? then op.program.value else 0) else op.insns;
    var owner := if op.OpLoadBuiltin? then 0 else op.owner;
    var authorization := if op.OpLoadBuiltin? then READ_WRITE else op.authorization;
    assert op.verdict.Some?;
    assert Apply(s, op) ==
           Register(s, owner, authorization, op.verdict.value, insns * INSN_BYTES, op.loadMemory);
    RegisterLater(s, owner, authorization, op.verdict.value, insns * INSN_BYTES, op.loadMemory);
  }

  /** In every run, each loaded program was put there by a load the run let through, and still is what was loaded. */
  lemma {:induction false} ProgramsVetted(config: Config, budget: nat, cycleUnit: nat, ops: seq<Op>, h: nat)
    requires Inv(Init(config, budget, cycleUnit)) && Live(After(Init(config, budget, cycleUnit), ops).programs, h)
    ensures exists k :: 0 <= k < |ops|
              && LastReply(Init(config, budget, cycleUnit), ops[..k + 1]) == Handle(h)
              && Vetted(config, ops[k], Entry(After(Init(config, budget, cycleUnit), ops).programs, h))
  {
    hide Inv, Apply, Vetted, Live, Entry;
    var s := Init(config, budget, cycleUnit);
    if ops == [] {
      NoneLoaded(config, budget, cycleUnit, h);
    } else {
      var init, op := ops[..|ops| - 1], ops[|ops| - 1];
      AfterStep(s, ops);
      PinsCapped(s, init);
      var prev := After(s, init);
      assert ops[..|ops| - 1 + 1] == ops;
      StepLoads(prev, op, h);
      if Live(prev.programs, h) {
        ProgramsVetted(config, budget, cycleUnit, init, h);
        var k :| 0 <= k < |init| && LastReply(s, init[..k + 1]) == Handle(h)
                 && Vetted(config, init[k], Entry(prev.programs, h));
        assert ops[..k + 1] == init[..k + 1];
      }
    }
  }

  lemma NoneLoaded(config: Config, budget: nat, cycleUnit: nat, h: nat)
    ensures !Live(Init(config, budget, cycleUnit).programs, h)
  {
  }

  /** A loaded program was loaded before, as it is now, or is what this step loaded. */
  lemma StepLoads(s: State, op: Op, h: nat)
    requires Inv(s) && Live(Apply(s, op).state.programs, h)
    ensures var s' := Apply(s, op).state;
            || (Live(s.programs, h) && Entry(s'.programs, h) == Entry(s.programs, h))
            || (Apply(s, op).reply == Handle(h) && Vetted(s.config, op, Entry(s'.programs, h)))
  {
    InvWellFormed(s);
    StepProgramHandles(s, op);
    hide Inv, Apply, Vetted;
    if Loads(op) {
      if Apply(s, op).reply.Handle? {
        LoadVetted(s, op);
      } else {
        var o, a, st, c, m := LoadIsRegister(s, op);
      }
    } else {
      StepPrograms(s, op);
      assert Occupied(Apply(s, op).state.programs, Slot(h));
    }
  }

  // --------------------------------------------------------------------------------- maps

  /** The map has left the table with its charge; every other map is as it was. */
  ghost predicate MapGone(s: State, s': State, mapId: nat) {
    && Live(s.maps, mapId)
    && (forall h :: Live(s'.maps, h) <==> Live(s.maps, h) && h != mapId)
    && (forall h :: Live(s'.maps, h) ==> Entry(s'.maps, h) == Entry(s.maps, h))
    && s'.liveMaps == s.liveMaps - 1
    && s'.mapBytes == s.mapBytes - Entry(s.maps, mapId).charge
  }

  /** After a successful destroy the map is gone with its charge and nothing else moved. */
  lemma DestroyEffect(s: State, owner: nat, mapId: nat)
    requires Inv(s) && Destroy(s, owner, mapId).reply == Done
    ensures var s' := Destroy(s, owner, mapId).state;
            && MapGone(s, s', mapId)
            && s' == s.(maps := s'.maps, liveMaps := s'.liveMaps, mapBytes := s'.mapBytes)
  {
    InvWellFormed(s);
    DestroyIsFree(s, owner, mapId);
    InvMapCounts(s);
    FreeMapsAccounting(s, {Slot(mapId)});
    LostOneMap(s.maps.slots, Slot(mapId), Objects);
    LostOneMap(s.maps.slots, Slot(mapId), Bytes);
    RetainLater(s.maps, {Slot(mapId)});
    UserMapCharged(s, mapId);
    hide Inv, FreeableMap, MapTotal, Lost, Retain, MapStrongCount, MapAccounting;
    forall h | Live(s.maps, h)
      ensures Slot(h) == Slot(mapId) <==> h == mapId
    {
      SlotDistinct(s.maps, h, mapId);
    }
  }

  lemma InvMapCounts(s: State)
    requires Inv(s)
    ensures MapAccounting(s)
  {
  }

  lemma UserMapCharged(s: State, mapId: nat)
    requires Inv(s) && Live(s.maps, mapId) && Slot(mapId) >= RESERVED_MAP_COUNT
    ensures Entry(s.maps, mapId).charge > 0
  {
    assert Occupied(s.maps, Slot(mapId));
  }

  /** After a successful creation the new map is the caller's, empty of grants, charged; nothing else moved. */
  lemma CreateEffect(s: State, owner: nat, mapType: nat, keySize: nat, valueSize: nat, maxEntries: nat,
                     memory: CreateMemory)
    requires Inv(s) && CreateMap(s, owner, mapType, keySize, valueSize, maxEntries, memory).reply.Handle?
    ensures var r := CreateMap(s, owner, mapType, keySize, valueSize, maxEntries, memory);
            var s' := r.state;
            && !Live(s.maps, r.reply.id)
            && (forall h :: Live(s'.maps, h) <==> Live(s.maps, h) || h == r.reply.id)
            && (forall h :: Live(s.maps, h) ==> Entry(s'.maps, h) == Entry(s.maps, h))
            && var e := Entry(s'.maps, r.reply.id);
            && e.owner == owner && e.grants == [] && e.perm == ReadWrite
            && AllocationCharge(s.config.limits, mapType, keySize, valueSize, maxEntries) == Charge(e.charge)
            && s' == s.(maps := s'.maps, nextId := s'.nextId, liveMaps := s.liveMaps + 1,
                        mapBytes := s.mapBytes + e.charge)
  {
    InvWellFormed(s);
    hide Inv, MapQuota, AllocationCharge;
    var charge := AllocationCharge(s.config.limits, mapType, keySize, valueSize, maxEntries).bytes;
    InsertEffect(s.maps, s.config.limits.maxMapSlots, MapEntry(s.nextId, ReadWrite, charge, owner, []),
                 memory.slot, memory.generation);
    hide Insert;
  }

  /** Bytes one entry of a map needs, with its key, its value, and a presence byte or time stamp. */
  function EntryBytes(mapType: nat, keySize: nat, valueSize: nat): nat {
    match mapType
    case 1 => 1 + keySize + valueSize
    case 2 => valueSize
    case 27 => 1
    case _ => 8 + valueSize
  }

  /** The shapes a map may have: a hash keys anything, an array is indexed by a word, a ring holds a power of two. */
  ghost predicate Shaped(mapType: nat, keySize: nat, valueSize: nat, maxEntries: nat) {
    || (mapType == 1 && keySize > 0 && valueSize > 0)
    || (mapType == 2 && keySize == 4 && valueSize > 0)
    || (mapType == 27 && keySize == 0 && valueSize == 0 && exists k: nat :: maxEntries == Power(k))
    || (mapType == 100 && keySize == 8 && valueSize > 0)
  }

  function Power(k: nat): nat {
    if k == 0 then 1 else 2 * Power(k - 1)
  }

  lemma {:induction false} PowerIsPower(k: nat)
    ensures PowerOfTwo(Power(k))
  {
    if k > 0 {
      PowerIsPower(k - 1);
    }
  }

  lemma {:induction false} PowerOf(n: nat) returns (k: nat)
    requires PowerOfTwo(n)
    ensures n == Power(k)
  {
    if n == 1 {
      k := 0;
    } else {
      k := PowerOf(n / 2);
      k := k + 1;
    }
  }

  /** A map is charged its entries at their full size, exactly when it has a legal shape within the limits. */
  lemma ChargeExact(l: Limits, mapType: nat, keySize: nat, valueSize: nat, maxEntries: nat)
    ensures var r := AllocationCharge(l, mapType, keySize, valueSize, maxEntries);
            var bytes := EntryBytes(mapType, keySize, valueSize) * maxEntries;
            && (r.Charge? <==>
                  && 0 < maxEntries <= l.maxEntries && keySize <= l.maxKeySize && valueSize <= l.maxValueSize
                  && Shaped(mapType, keySize, valueSize, maxEntries) && bytes <= USIZE_MAX)
            && (r.Charge? ==> r.bytes == bytes)
  {
    if PowerOfTwo(maxEntries) {
      var k := PowerOf(maxEntries);
    } else if k: nat :| maxEntries == Power(k) {
      PowerIsPower(k);
    }
    hide PowerOfTwo, Power;
    var unit := EntryBytes(mapType, keySize, valueSize);
    if unit > 0 && maxEntries > 0 {
      assert unit * maxEntries > 0;
    }
  }

  // --------------------------------------------------------------------------------- pins

  /** The caller has an entry among the map's grants. */
  ghost predicate HasGrant(e: MapEntry, owner: nat) {
    exists g :: g in e.grants && g.owner == owner
  }

  ghost predicate PinServes(s: State, pin: Pin, owner: nat, path: string, requested: Access, memory: bool) {
    && pin in s.pins && pin.path == path && pin.offered.Contains(requested) && Live(s.maps, pin.mapId)
    && var e := Entry(s.maps, pin.mapId);
    || e.owner == owner || HasGrant(e, owner)
    || (|e.grants| < MAX_MAP_GRANTS && memory)
  }

  lemma PinFound(s: State, path: string)
    requires PinsResolve(s.pins, s.maps)
    ensures var k := FindPin(s.pins, path);
            && (k < |s.pins| ==> s.pins[k] in s.pins && Live(s.maps, s.pins[k].mapId))
            && (forall pin :: pin in s.pins && pin.path == path ==> k < |s.pins| && pin == s.pins[k])
  {
  }

  lemma InvPins(s: State)
    requires Inv(s)
    ensures PinsResolve(s.pins, s.maps)
  {
    hide TablesOk, CapturesResolve, HooksOk, ProgramCounts, MapCounts, LedgerMatches;
  }

  lemma GrantSucceedsIff(e: MapEntry, owner: nat, access: Access, memory: bool)
    ensures GrantTo(e.grants, owner, access, memory).Granted? <==>
              HasGrant(e, owner) || (|e.grants| < MAX_MAP_GRANTS && memory)
  {
    var k := Find(e.grants, owner);
    if k < |e.grants| {
      assert e.grants[k] in e.grants;
    }
  }

  /** A pinned map is handed out exactly when the pin offers the request and the caller has or can get an entry. */
  lemma GetSucceedsIff(s: State, owner: nat, path: string, requested: Access, memory: bool)
    requires Inv(s)
    ensures GetPinned(s, owner, path, requested, memory).reply.Handle? <==>
              exists pin :: PinServes(s, pin, owner, path, requested, memory)
  {
    InvPins(s);
    PinFound(s, path);
    hide Inv, PinsResolve, FindPin, HasGrant;
    var k := FindPin(s.pins, path);
    if k < |s.pins| {
      GrantSucceedsIff(Entry(s.maps, s.pins[k].mapId), owner, requested, memory);
      hide GrantTo;
      assert GetPinned(s, owner, path, requested, memory).reply.Handle? <==>
             PinServes(s, s.pins[k], owner, path, requested, memory);
    }
  }

  /** Exactly the caller's rights on that map grew, by exactly what was requested. */
  ghost predicate RightsAdded(s: State, s': State, mapId: nat, owner: nat, requested: Access) {
    && Live(s.maps, mapId)
    && (forall m :: Live(s'.maps, m) <==> Live(s.maps, m))
    && (forall m :: Live(s.maps, m) ==>
          Entry(s'.maps, m) == Entry(s.maps, m).(grants := Entry(s'.maps, m).grants))
    && (forall m, o :: Live(s.maps, m) ==>
          Rights(Entry(s'.maps, m), o) ==
            if m == mapId && o == owner then Rights(Entry(s.maps, m), o).Union(requested)
            else Rights(Entry(s.maps, m), o))
    && s' == s.(maps := s'.maps)
  }

  lemma GrantRights(e: MapEntry, owner: nat, access: Access, memory: bool)
    requires ValidGrants(e.grants) && e.owner != owner && GrantTo(e.grants, owner, access, memory).Granted?
    ensures var e' := e.(grants := GrantTo(e.grants, owner, access, memory).grants);
            && Rights(e', owner) == Rights(e, owner).Union(access)
            && (forall o :: o != owner ==> Rights(e', o) == Rights(e, o))
  {
    GrantEffect(e.grants, owner, access, memory);
    hide GrantTo, AccessFor;
  }

  lemma EntryGrantsValid(s: State, mapId: nat)
    requires Inv(s) && Live(s.maps, mapId)
    ensures ValidGrants(Entry(s.maps, mapId).grants)
  {
    assert Occupied(s.maps, Slot(mapId));
  }

  lemma GrantsReplaced(s: State, mapId: nat, owner: nat, requested: Access, grants: seq<Grant>)
    requires Live(s.maps, mapId)
    requires var e := Entry(s.maps, mapId);
             var e' := e.(grants := grants);
             && Rights(e', owner) == Rights(e, owner).Union(requested)
             && (forall o :: o != owner ==> Rights(e', o) == Rights(e, o))
    ensures var e := Entry(s.maps, mapId);
            RightsAdded(s, s.(maps := s.maps.(slots := s.maps.slots[Slot(mapId) := Some(e.(grants := grants))])),
                        mapId, owner, requested)
  {
    var e := Entry(s.maps, mapId);
    var s' := s.(maps := s.maps.(slots := s.maps.slots[Slot(mapId) := Some(e.(grants := grants))]));
    hide Rights;
    forall m | Live(s.maps, m)
      ensures Live(s'.maps, m)
      ensures Entry(s'.maps, m) == if m == mapId then e.(grants := grants) else Entry(s.maps, m)
    {
      SlotDistinct(s.maps, m, mapId);
    }
  }

  /** The handle given out is the pinned map's, and the caller then holds what it asked for; no one else gains. */
  lemma GetEffect(s: State, owner: nat, path: string, requested: Access, memory: bool)
    requires Inv(s) && GetPinned(s, owner, path, requested, memory).reply.Handle?
    ensures var r := GetPinned(s, owner, path, requested, memory);
            && (exists pin :: pin in s.pins && pin.path == path && pin.mapId == r.reply.id)
            && RightsAdded(s, r.state, r.reply.id, owner, requested)
            && Rights(Entry(r.state.maps, r.reply.id), owner).Contains(requested)
  {
    InvPins(s);
    PinFound(s, path);
    var pin := s.pins[FindPin(s.pins, path)];
    EntryGrantsValid(s, pin.mapId);
    var e := Entry(s.maps, pin.mapId);
    hide Inv, PinsResolve, FindPin, GrantTo, ValidGrants;
    if e.owner == owner {
      assert RightsAdded(s, s, pin.mapId, owner, requested);
    } else {
      GrantRights(e, owner, requested, memory);
      GrantsReplaced(s, pin.mapId, owner, requested, GrantTo(e.grants, owner, requested, memory).grants);
    }
    hide RightsAdded, AccessFor;
    GetContains(s, GetPinned(s, owner, path, requested, memory).state, pin.mapId, owner, requested);
  }

  lemma GetContains(s: State, s': State, mapId: nat, owner: nat, requested: Access)
    requires RightsAdded(s, s', mapId, owner, requested)
    ensures Live(s'.maps, mapId) && Rights(Entry(s'.maps, mapId), owner).Contains(requested)
  {
    hide Rights;
  }

  /** A pin is made exactly by the map's owner, under a legal path, and when the same pin is there or one fits. */
  lemma PinSucceedsIff(s: State, owner: nat, path: string, mapId: nat, offered: Access, memory: bool)
    requires Inv(s)
    ensures PinMap(s, owner, path, mapId, offered, memory).reply == Done <==>
              && 0 < |path| < PIN_PATH_MAX && (offered.read || offered.write)
              && Live(s.maps, mapId) && Entry(s.maps, mapId).owner == owner
              && (Pin(path, mapId, owner, offered) in s.pins
                  || ((forall pin :: pin in s.pins ==> pin.path != path)
                      && |s.pins| < s.config.limits.maxPinnedMaps && memory))
  {
    InvPins(s);
    PinFound(s, path);
    hide Inv, PinsResolve, FindPin;
  }

  /** After a successful pin its path names the map; every earlier pin stays, and nothing else moved. */
  lemma PinEffect(s: State, owner: nat, path: string, mapId: nat, offered: Access, memory: bool)
    requires Inv(s) && PinMap(s, owner, path, mapId, offered, memory).reply == Done
    ensures var s' := PinMap(s, owner, path, mapId, offered, memory).state;
            var pin := Pin(path, mapId, owner, offered);
            && s'.pins == (if pin in s.pins then s.pins else s.pins + [pin])
            && (forall q :: q in s'.pins && q.path == path ==> q == pin)
            && s' == s.(pins := s'.pins)
  {
    InvPins(s);
    PinFound(s, path);
    hide Inv, PinsResolve, FindPin;
  }

  /** An unpin succeeds exactly for the pin's owner, or for orphan cleanup when the pin's owner has exited. */
  lemma UnpinSucceedsIff(s: State, owner: nat, path: string, cleanup: bool)
    requires Inv(s)
    ensures WellFormed(s)
    ensures Unpin(s, owner, path, cleanup).reply == Done <==>
              exists pin :: pin in s.pins && pin.path == path
                            && (pin.owner == owner || (pin.owner == PINNED_MAP_OWNER && cleanup))
  {
    InvWellFormed(s);
    InvPins(s);
    PinFound(s, path);
    hide Inv, PinsResolve, FindPin, Sweep, RemoveAt, Pinned;
  }

  /** The pin's map was left without an owner and without a pin. */
  ghost predicate LetGo(s: State, pins: seq<Pin>, mapId: nat) {
    && Live(s.maps, mapId) && Entry(s.maps, mapId).owner == PINNED_MAP_OWNER
    && forall q :: q in pins ==> q.mapId != mapId
  }

  lemma RemovedPins(s: State, k: nat)
    requires PinsResolve(s.pins, s.maps) && k < |s.pins|
    ensures forall q :: q in RemoveAt(s.pins, k) <==> q in s.pins && q.path != s.pins[k].path
  {
    var pins := RemoveAt(s.pins, k);
    assert forall i :: 0 <= i < |pins| ==> pins[i] == s.pins[if i < k then i else i + 1];
    forall q | q in s.pins && q.path != s.pins[k].path
      ensures q in pins
    {
      var i :| 0 <= i < |s.pins| && s.pins[i] == q;
      assert pins[if i < k then i else i - 1] == q;
    }
  }

  /**
   After a successful unpin exactly that path is gone. When its map was left without owner and pin, the maps nothing
   holds are gone, and otherwise no map is; nothing else moved.
   */
  lemma UnpinEffect(s: State, owner: nat, path: string, cleanup: bool, pin: Pin)
    requires Inv(s) && WellFormed(s) && Unpin(s, owner, path, cleanup).reply == Done
    requires pin in s.pins && pin.path == path
    ensures var s' := Unpin(s, owner, path, cleanup).state;
            && (forall q :: q in s'.pins <==> q in s.pins && q.path != path)
            && |s'.pins| == |s.pins| - 1
            && (forall m :: Live(s'.maps, m) <==>
                  && Live(s.maps, m)
                  && !(LetGo(s, s'.pins, pin.mapId) && Ownerless(s, s'.pins, m)
                       && !CapturedBySome(s.programs, Entry(s.maps, m).runtime)))
            && (forall m :: Live(s'.maps, m) ==> Entry(s'.maps, m) == Entry(s.maps, m))
            && s' == s.(pins := s'.pins, maps := s'.maps, liveMaps := s'.liveMaps, mapBytes := s'.mapBytes)
  {
    InvPins(s);
    PinFound(s, path);
    var k := FindPin(s.pins, path);
    RemovedPins(s, k);
    var s1 := s.(pins := RemoveAt(s.pins, k));
    assert |s1.pins| == |s.pins| - 1;
    SweepExact(s1);
    assert LetGo(s, s1.pins, pin.mapId) <==>
           && !Pinned(s1.pins, pin.mapId)
           && Live(s.maps, pin.mapId) && Entry(s.maps, pin.mapId).owner == PINNED_MAP_OWNER;
    hide Inv, PinsResolve, FindPin, Sweep, RemoveAt, Pinned, CapturedBySome, LetGo;
    assert forall m :: Live(s.maps, m) ==> Ownerless(s, s1.pins, m) == Ownerless(s1, s1.pins, m);
    hide Ownerless;
  }

  // ------------------------------------------------------------------------------- clones

  /** A clone is handed out exactly to the program's owner, and blocks the unload until it is dropped. */
  lemma CloneEffect(s: State, owner: nat, prog: nat)
    requires Inv(s)
    ensures var r := CloneProgram(s, owner, prog);
            && (r.reply == Done <==> Live(s.programs, prog) && Entry(s.programs, prog).owner == owner)
            && (r.reply == Done ==>
                  && r.state == s.(clones := r.state.clones)
                  && Unload(r.state, owner, prog).reply == Failed(ObjectBusy)
                  && DropClone(r.state, Entry(s.programs, prog).program.id).state == s)
  {
    hide Inv, Sweep, AttachedAnywhere, ProgramStrongCount;
    InvWellFormed(s);
    if Live(s.programs, prog) && Entry(s.programs, prog).owner == owner {
      var id := Entry(s.programs, prog).program.id;
      ProgramCountOne(s.published, CloneProgram(s, owner, prog).state.clones, id);
      assert (s.clones + multiset{id}) - multiset{id} == s.clones;
    }
  }
}
