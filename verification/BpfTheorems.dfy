/** The manager's guarantees, stated over every reachable state and every run. */
module BpfTheorems {
  import opened Common
  import opened Handles
  import opened Authorization
  import opened Admission
  import opened GpioRoutes
  import opened BpfState
  import opened BpfInvariants
  import opened BpfPreservation
  import opened BpfRuns

  // ------------------------------------------------------------------- failed operations

  /** An operation that reports an error changes nothing at all. */
  lemma FailureChangesNothing(s: State, op: Op)
    requires Inv(s) && Apply(s, op).reply.Failed?
    ensures Apply(s, op).state == s
  {
    assert WellFormed(s);
    if Hooks(op) {
      HookFailure(s, op);
    } else {
      OtherFailure(s, op);
    }
  }

  lemma HookFailure(s: State, op: Op)
    requires Inv(s) && Hooks(op) && Apply(s, op).reply.Failed?
    ensures Apply(s, op).state == s
  {
    hide Inv, AttachFor, AttachGpio, Detach, DetachFor;
    InvWellFormed(s);
    match op
    case OpAttach(o, h, p, a, m) => AttachInv(s, o, h, p, a, m);
    case OpAttachGpio(o, c, pin, e, p, a, m) => AttachGpioInv(s, o, c, pin, e, p, a, m);
    case OpDetach(h, p, m) => DetachInv(s, h, p, m);
    case OpDetachFor(o, h, p, m) => DetachForFailure(s, o, h, p, m);
  }

  lemma DetachForFailure(s: State, owner: nat, hook: nat, prog: nat, memory: bool)
    requires Inv(s) && DetachFor(s, owner, hook, prog, memory).reply.Failed?
    ensures DetachFor(s, owner, hook, prog, memory).state == s
  {
    hide Inv, Detach;
    DetachInv(s, hook, prog, memory);
  }

  lemma OtherFailure(s: State, op: Op)
    requires WellFormed(s) && !Hooks(op) && Apply(s, op).reply.Failed?
    ensures Apply(s, op).state == s
  {
    hide ProgramQuota, CaptureMaps, Insert, AllocationCharge, MapQuota, GrantTo, MapStrongCount, Sweep,
      ReclaimPrograms, ReleaseMaps;
  }

  /** Once the quota check passes and the captures are allowed, a load fails only for lack of memory. */
  lemma LoadFailsOnlyForMemory(s: State, owner: nat, authorization: Access, stats: Stats, charge: nat,
                               memory: LoadMemory)
    requires Inv(s) && ProgramQuota(s, owner, charge)
             && CaptureMaps(s.maps, owner, authorization, stats.referenced).Captured?
    ensures var r := Register(s, owner, authorization, stats, charge, memory).reply;
            r.Handle? || (r == Failed(OutOfMemory) && memory != LoadMemory(true, true, true))
    ensures s.livePrograms + 1 <= USIZE_MAX && s.programBytes + charge <= USIZE_MAX
  {
    var maps := CaptureMaps(s.maps, owner, authorization, stats.referenced).maps;
    InsertRefusal(s.programs, s.config.limits.maxProgramSlots,
                  ProgramEntry(ProgramRuntime(s.nextId, maps), stats.wcet, charge, owner, authorization),
                  memory.slot, memory.generation);
  }

  /** Once the quota check passes, a map creation fails only for lack of memory. */
  lemma CreateFailsOnlyForMemory(s: State, owner: nat, mapType: nat, keySize: nat, valueSize: nat, maxEntries: nat,
                                 memory: CreateMemory)
    requires Inv(s)
    requires var c := AllocationCharge(s.config.limits, mapType, keySize, valueSize, maxEntries);
             c.Charge? && MapQuota(s, owner, c.bytes)
    ensures var r := CreateMap(s, owner, mapType, keySize, valueSize, maxEntries, memory).reply;
            r.Handle? || (r == Failed(OutOfMemory) && memory != CreateMemory(true, true, true))
    ensures s.liveMaps + 1 <= USIZE_MAX
  {
    var charge := AllocationCharge(s.config.limits, mapType, keySize, valueSize, maxEntries).bytes;
    InsertRefusal(s.maps, s.config.limits.maxMapSlots, MapEntry(s.nextId, ReadWrite, charge, owner, []), memory.slot,
                  memory.generation);
  }

  // ------------------------------------------------------------------------------ handles

  lemma RegisterLater(s: State, owner: nat, authorization: Access, stats: Stats, charge: nat, memory: LoadMemory)
    requires WellFormed(s)
    ensures var r := Register(s, owner, authorization, stats, charge, memory);
            && (!r.reply.Handle? ==> r.state == s)
            && (r.reply.Handle? ==>
                  && Later(s.programs, r.state.programs) && Handles.Valid(r.state.programs)
                  && !Issued(s.programs, r.reply.id) && Issued(r.state.programs, r.reply.id) && r.reply.id <= I32_MAX
                  && (forall h :: Live(s.programs, h) ==>
                          Live(r.state.programs, h) && Entry(r.state.programs, h) == Entry(s.programs, h))
                  && (forall h :: Live(r.state.programs, h) ==> h == r.reply.id || Live(s.programs, h))
                  && Live(r.state.programs, r.reply.id)
                  && Entry(r.state.programs, r.reply.id) ==
                       ProgramEntry(ProgramRuntime(s.nextId,
                                                   CaptureMaps(s.maps, owner, authorization, stats.referenced).maps),
                                    stats.wcet, charge, owner, authorization)
                  && CaptureMaps(s.maps, owner, authorization, stats.referenced).Captured?)
  {
    hide ProgramQuota;
    var r := Register(s, owner, authorization, stats, charge, memory);
    if r.reply.Handle? {
      var maps := CaptureMaps(s.maps, owner, authorization, stats.referenced).maps;
      InsertEffect(s.programs, s.config.limits.maxProgramSlots,
                   ProgramEntry(ProgramRuntime(s.nextId, maps), stats.wcet, charge, owner, authorization),
                   memory.slot, memory.generation);
    }
  }

  /** Every load is a registration or does nothing. */
  lemma LoadIsRegister(s: State, op: Op)
    returns (owner: nat, authorization: Access, stats: Stats, charge: nat, memory: LoadMemory)
    requires WellFormed(s) && Loads(op)
    ensures Apply(s, op).reply.Handle? ==> Apply(s, op) == Register(s, owner, authorization, stats, charge, memory)
    ensures !Apply(s, op).reply.Handle? ==> Apply(s, op).state == s
    ensures owner == (if op.OpLoadBuiltin? then 0 else op.owner)
    ensures authorization == (if op.OpLoadBuiltin? then READ_WRITE else op.authorization)
  {
    hide ProgramQuota, CaptureMaps, Insert;
    owner := if op.OpLoadBuiltin? then 0 else op.owner;
    authorization := if op.OpLoadBuiltin? then READ_WRITE else op.authorization;
    memory := op.loadMemory;
    stats := if op.verdict.Some? then op.verdict.value else Stats(0, []);
    var insns := if op.OpLoadElf? then (if op.program.Some? then op.program.value else 0) else op.insns;
    charge := insns * INSN_BYTES;
  }

  lemma ShrinkLater(t: Table<ProgramEntry>, u: Table<ProgramEntry>)
    requires Handles.Valid(t) && ProgramsShrink(t, u)
    ensures Later(t, u)
  {
    forall i | 0 <= i < |t.gens| && t.slots[i].None?
      ensures u.slots[i].None?
    {
      assert !Occupied(t, i);
      assert Occupied(u, i) ==> u.slots[i] == t.slots[i];
    }
  }

  lemma ShrinkLaterMaps(t: Table<MapEntry>, u: Table<MapEntry>)
    requires Handles.Valid(t) && MapsShrink(t, u)
    ensures Later(t, u)
  {
    forall i | 0 <= i < |t.gens| && t.slots[i].None?
      ensures u.slots[i].None?
    {
      assert !Occupied(t, i) && !Occupied(u, i);
    }
  }

  /** A step never rewinds the program table, and a handle it issues is new. */
  lemma StepProgramHandles(s: State, op: Op)
    requires Inv(s)
    ensures var r := Apply(s, op);
            && Later(s.programs, r.state.programs)
            && (Loads(op) && r.reply.Handle? ==>
                    !Issued(s.programs, r.reply.id) && Issued(r.state.programs, r.reply.id) && r.reply.id <= I32_MAX)
            && (forall h :: Live(s.programs, h) && Live(r.state.programs, h) ==>
                    Entry(r.state.programs, h) == Entry(s.programs, h))
  {
    assert WellFormed(s);
    hide Inv, Apply, Register;
    if Loads(op) {
      var o, a, st, c, m := LoadIsRegister(s, op);
      RegisterLater(s, o, a, st, c, m);
    } else {
      StepPrograms(s, op);
      ShrinkLater(s.programs, Apply(s, op).state.programs);
    }
  }

  lemma CreateLater(s: State, op: Op)
    requires WellFormed(s) && op.OpCreate?
    ensures var r := Apply(s, op);
            && (!r.reply.Handle? ==> r.state == s)
            && (r.reply.Handle? ==>
                  && Later(s.maps, r.state.maps) && Handles.Valid(r.state.maps)
                  && !Issued(s.maps, r.reply.id) && Issued(r.state.maps, r.reply.id) && r.reply.id <= I32_MAX
                  && (forall h :: Live(s.maps, h) ==>
                          Live(r.state.maps, h) && Entry(r.state.maps, h) == Entry(s.maps, h))
                  && (forall h :: Live(r.state.maps, h) ==> h == r.reply.id || Live(s.maps, h))
                  && Live(r.state.maps, r.reply.id) && Entry(r.state.maps, r.reply.id).grants == [])
  {
    hide MapQuota;
    var r := Apply(s, op);
    if r.reply.Handle? {
      var charge := AllocationCharge(s.config.limits, op.mapType, op.keySize, op.valueSize, op.maxEntries).bytes;
      InsertEffect(s.maps, s.config.limits.maxMapSlots, MapEntry(s.nextId, ReadWrite, charge, op.owner, []),
                   op.createMemory.slot, op.createMemory.generation);
    }
  }

  lemma GetLater(s: State, op: Op)
    requires WellFormed(s) && op.OpGet?
    ensures Later(s.maps, Apply(s, op).state.maps)
  {
    hide GrantTo, FindPin;
  }

  /** A step never rewinds the map table, and a handle it issues is new. */
  lemma StepMapHandles(s: State, op: Op)
    requires Inv(s)
    ensures var r := Apply(s, op);
            && Later(s.maps, r.state.maps)
            && (op.OpCreate? && r.reply.Handle? ==>
                    !Issued(s.maps, r.reply.id) && Issued(r.state.maps, r.reply.id) && r.reply.id <= I32_MAX)
  {
    assert WellFormed(s);
    hide Inv, Apply;
    if op.OpCreate? {
      CreateLater(s, op);
    } else if op.OpGet? {
      GetLater(s, op);
    } else {
      StepMaps(s, op);
      ShrinkLaterMaps(s.maps, Apply(s, op).state.maps);
    }
  }

  /** Handles returned by the loads of a run, in order. */
  ghost function IssuedPrograms(s: State, ops: seq<Op>): seq<nat>
    requires Inv(s)
  {
    if ops == [] then []
    else
      var prev := IssuedPrograms(s, ops[..|ops| - 1]);
      if Loads(ops[|ops| - 1]) && LastReply(s, ops).Handle? then prev + [LastReply(s, ops).id] else prev
  }

  /** Handles returned by the map creations of a run, in order. */
  ghost function IssuedMaps(s: State, ops: seq<Op>): seq<nat>
    requires Inv(s)
  {
    if ops == [] then []
    else
      var prev := IssuedMaps(s, ops[..|ops| - 1]);
      if ops[|ops| - 1].OpCreate? && LastReply(s, ops).Handle? then prev + [LastReply(s, ops).id] else prev
  }

  /** No run issues a program handle twice, and every handle is a non-negative i32. */
  lemma {:induction false} ProgramHandlesUnique(s: State, ops: seq<Op>)
    requires Inv(s)
    ensures NoDuplicates(IssuedPrograms(s, ops))
    ensures forall h :: h in IssuedPrograms(s, ops) ==>
              h <= I32_MAX && Issued(After(s, ops).programs, h) && !Issued(s.programs, h)
    ensures Later(s.programs, After(s, ops).programs)
  {
    hide Inv, Apply;
    if ops == [] {
      TableLaterReflexive(s);
    } else {
      var init, op := ops[..|ops| - 1], ops[|ops| - 1];
      ProgramHandlesUnique(s, init);
      var prev := After(s, init);
      StepProgramHandles(prev, op);
      LaterTransitive(s.programs, prev.programs, After(s, ops).programs);
      if Loads(op) && LastReply(s, ops).Handle? {
        assert !Issued(prev.programs, LastReply(s, ops).id);
      }
    }
  }

  lemma TableLaterReflexive(s: State)
    requires Inv(s)
    ensures Later(s.programs, s.programs) && Later(s.maps, s.maps)
  {
  }

  /** No run issues a map handle twice, and every handle is a non-negative i32. */
  lemma {:induction false} MapHandlesUnique(s: State, ops: seq<Op>)
    requires Inv(s)
    ensures NoDuplicates(IssuedMaps(s, ops))
    ensures forall h :: h in IssuedMaps(s, ops) ==> h <= I32_MAX && Issued(After(s, ops).maps, h) && !Issued(s.maps, h)
    ensures Later(s.maps, After(s, ops).maps)
  {
    hide Inv, Apply;
    if ops == [] {
      TableLaterReflexive(s);
    } else {
      var init, op := ops[..|ops| - 1], ops[|ops| - 1];
      MapHandlesUnique(s, init);
      var prev := After(s, init);
      StepMapHandles(prev, op);
      LaterTransitive(s.maps, prev.maps, After(s, ops).maps);
      if op.OpCreate? && LastReply(s, ops).Handle? {
        assert !Issued(prev.maps, LastReply(s, ops).id);
      }
    }
  }

  lemma {:induction false} AfterConcat(s: State, ops: seq<Op>, more: seq<Op>)
    requires Inv(s)
    ensures After(s, ops + more) == After(After(s, ops), more)
  {
    hide Inv, Apply;
    if more == [] {
      assert ops + more == ops;
    } else {
      var init := more[..|more| - 1];
      AfterConcat(s, ops, init);
      assert (ops + more)[..|ops + more| - 1] == ops + init;
    }
  }

  /** A freed handle, program's or map's, never resolves again in the rest of the run. */
  lemma FreedHandlesStayDead(s: State, ops: seq<Op>, more: seq<Op>, h: nat)
    requires Inv(s)
    ensures Dead(After(s, ops).programs, h) ==> Dead(After(s, ops + more).programs, h)
    ensures Dead(After(s, ops).maps, h) ==> Dead(After(s, ops + more).maps, h)
  {
    AfterConcat(s, ops, more);
    var mid := After(s, ops);
    ProgramHandlesUnique(mid, more);
    MapHandlesUnique(mid, more);
    hide Inv, After;
    if Dead(mid.programs, h) {
      DeadForever(mid.programs, After(mid, more).programs, h);
    }
    if Dead(mid.maps, h) {
      DeadForever(mid.maps, After(mid, more).maps, h);
    }
  }

  // ----------------------------------------------------------------------- captured maps

  /** The program captured the slot with at least these rights. */
  ghost predicate CapturedWith(p: ProgramRuntime, slot: nat, required: Access) {
    slot < |p.maps| && p.maps[slot].Some? && PermAccess(p.maps[slot].value.perm).Contains(required)
  }

  /** A program's private view of a handle and the manager's table name the same map. */
  lemma PrivateViewAgrees(s: State, prog: nat, handle: nat, required: Access)
    requires Inv(s) && Live(s.programs, prog)
    ensures var p := Entry(s.programs, prog).program;
            var r := ProgramMap(p, handle, required);
            && (r.Some? ==> Live(s.maps, handle) && Entry(s.maps, handle).runtime == r.value)
            && (Live(s.maps, handle) && CapturedWith(p, Slot(handle), required) ==>
                    r == Some(Entry(s.maps, handle).runtime))
  {
    assert Occupied(s.programs, Slot(prog));
    var e := Entry(s.programs, prog);
    assert EntryResolves(s.maps, e);
    var k := Slot(handle);
    if k < |e.program.maps| && e.program.maps[k].Some? {
      assert CaptureResolves(s.maps, k, e.program.maps[k].value);
    }
  }

  /** While a program stays loaded, every handle it captured keeps naming the same live map. */
  lemma CapturedMapsStay(s: State, ops: seq<Op>, more: seq<Op>, prog: nat, handle: nat, required: Access)
    requires Inv(s)
    ensures var a, b := After(s, ops), After(s, ops + more);
            Live(a.programs, prog) && Live(b.programs, prog)
            && ProgramMap(Entry(a.programs, prog).program, handle, required).Some? ==>
              && Live(a.maps, handle) && Live(b.maps, handle)
              && Entry(a.maps, handle).runtime == Entry(b.maps, handle).runtime
              && ProgramMap(Entry(b.programs, prog).program, handle, required) == Some(Entry(b.maps, handle).runtime)
  {
    hide Inv, Apply, After, ProgramMap;
    AfterConcat(s, ops, more);
    var a, b := After(s, ops), After(s, ops + more);
    if Live(a.programs, prog) && Live(b.programs, prog)
       && ProgramMap(Entry(a.programs, prog).program, handle, required).Some? {
      ProgramStable(a, more, prog);
      CaptureNamesLive(a, prog, handle, required);
      CaptureNamesLive(b, prog, handle, required);
    }
  }

  lemma CaptureNamesLive(s: State, prog: nat, handle: nat, required: Access)
    requires Inv(s) && Live(s.programs, prog)
    requires ProgramMap(Entry(s.programs, prog).program, handle, required).Some?
    ensures Live(s.maps, handle)
    ensures ProgramMap(Entry(s.programs, prog).program, handle, required) == Some(Entry(s.maps, handle).runtime)
  {
    hide Inv, ProgramMap;
    PrivateViewAgrees(s, prog, handle, required);
  }

  /** A loaded program's entry never changes. */
  lemma {:induction false} ProgramStable(s: State, ops: seq<Op>, prog: nat)
    requires Inv(s) && Live(s.programs, prog) && Live(After(s, ops).programs, prog)
    ensures Entry(After(s, ops).programs, prog) == Entry(s.programs, prog)
  {
    hide Inv, Apply;
    if ops != [] {
      var init, op := ops[..|ops| - 1], ops[|ops| - 1];
      var prev := After(s, init);
      StepProgramHandles(prev, op);
      if Live(prev.programs, prog) {
        ProgramStable(s, init, prog);
      } else {
        ProgramHandlesUnique(s, init);
        assert Dead(prev.programs, prog);
        DeadForever(prev.programs, After(s, ops).programs, prog);
      }
    }
  }

  // ---------------------------------------------------------------------------- snapshot

  /** The published list of a hook is exactly its attachments' runtimes, in order and within the fan-out. */
  lemma PublishedGeneric(s: State, h: nat)
    requires Inv(s) && h < GENERIC_HOOK_SLOTS
    ensures var ids := Attached(s.attachments, h);
            && |s.published.generic[h]| == |ids| <= HOOK_FANOUT_LIMIT
            && forall i :: 0 <= i < |ids| ==>
                 Live(s.programs, ids[i]) && s.published.generic[h][i] == Entry(s.programs, ids[i]).program.id
  {
    var ids := Attached(s.attachments, h);
    assert h in s.attachments ==> HookValid(h, ids, s.programs);
    RuntimesOfLoaded(s.programs, ids);
  }

  /** The published list of a pin and edge is exactly the matching routes' runtimes, within the IRQ fan-out. */
  lemma PublishedGpio(s: State, pin: nat, flags: nat)
    requires Inv(s) && GpioIndex(0, pin, flags).Some?
    ensures var ids := Matching(At(s.routes, 0, pin), EdgeOf(flags));
            var list := s.published.gpio[GpioIndex(0, pin, flags).value];
            && |list| == |ids| <= GPIO_IRQ_FANOUT_LIMIT
            && forall i :: 0 <= i < |ids| ==>
                 Live(s.programs, ids[i]) && list[i] == Entry(s.programs, ids[i]).program.id
  {
    var k := GpioIndex(0, pin, flags).value;
    assert k / GPIO_EDGE_SLOTS == pin && k % GPIO_EDGE_SLOTS + 1 == flags;
    var ids := Matching(At(s.routes, 0, pin), EdgeOf(flags));
    forall p | p in ids
      ensures Live(s.programs, p)
    {
      MatchingAttached(s.routes, s.attachments, pin, EdgeOf(flags), p);
      assert HookValid(ATTACH_GPIO, s.attachments[ATTACH_GPIO], s.programs);
    }
    RuntimesOfLoaded(s.programs, ids);
  }

  /** Every runtime the snapshot holds belongs to a loaded program, and an attached program cannot be unloaded. */
  lemma PublishedLoaded(s: State, id: nat)
    requires Inv(s) && (InLists(s.published.generic, id) || InLists(s.published.gpio, id))
    ensures LoadedId(s.programs, id)
    ensures forall o: nat, p: nat :: Live(s.programs, p) && Entry(s.programs, p).program.id == id ==>
              Unload(s, o, p).reply.Failed?
  {
    var q := PublishedIsAttached(s, id);
    assert Occupied(s.programs, Slot(q));
    ProgramCountOne(s.published, s.clones, id);
    hide Sweep, Inv;
  }

  // -------------------------------------------------------------------------- accounting

  /**
   Resource conservation over every run: the live counts and byte totals are the sums over the tables, every
   global cap holds, and so does every owner's cap; orphan maps answer to no owner.
   */
  lemma CountersExact(s: State, ops: seq<Op>, owner: nat)
    requires Inv(s)
    ensures var t := After(s, ops);
            var l := t.config.limits;
            && t.livePrograms == ProgramTotal(t.programs.slots, Objects) <= l.maxLivePrograms
            && t.programBytes == ProgramTotal(t.programs.slots, Bytes) <= l.maxProgramBytes
            && t.liveMaps == MapTotal(t.maps.slots, Objects) <= l.maxLiveMaps
            && t.mapBytes == MapTotal(t.maps.slots, Bytes) <= l.maxMapBytes
            && ProgramTotal(t.programs.slots, OwnerObjects(owner)) <= l.maxOwnerPrograms
            && ProgramTotal(t.programs.slots, OwnerBytes(owner)) <= l.maxOwnerProgramBytes
            && (owner != PINNED_MAP_OWNER ==>
                  && MapTotal(t.maps.slots, OwnerObjects(owner)) <= l.maxOwnerMaps
                  && MapTotal(t.maps.slots, OwnerBytes(owner)) <= l.maxOwnerMapBytes)
  {
    hide After;
    assert Inv(After(s, ops));
  }

  /** Over every run the committed utilization is the sum over exactly the current attachments, within the budget. */
  lemma UtilizationExact(s: State, ops: seq<Op>, hook: nat, prog: nat)
    requires Inv(s)
    ensures var t := After(s, ops);
            && t.ledger.committed == SumMap(t.ledger.per) <= t.ledger.budget
            && ((hook, prog) in t.ledger.per <==> prog in Attached(t.attachments, hook))
  {
    hide After, TablesOk, CapturesResolve, PinsResolve, HooksOk, ProgramCounts, MapCounts;
    assert Inv(After(s, ops));
  }

  // -------------------------------------------------------------------------------- pins

  /** Pins are within their cap, under paths of 1 to 255 bytes, and each offers something. */
  ghost predicate PinsShaped(pins: seq<Pin>, most: nat) {
    && |pins| <= most
    && forall i :: 0 <= i < |pins| ==> 0 < |pins[i].path| < PIN_PATH_MAX && pins[i].offered != NO_ACCESS
  }

  /** The pins a reclaim or a removal leaves are as well shaped as before. */
  lemma PinsStayShaped(pins: seq<Pin>, owner: nat, k: nat, most: nat)
    requires PinsShaped(pins, most)
    ensures PinsShaped(OrphanPins(pins, owner), most) && (k < |pins| ==> PinsShaped(RemoveAt(pins, k), most))
  {
  }

  lemma ReclaimPins(s: State, owner: nat, memory: bool)
    requires WellFormed(s)
    ensures var s' := Reclaim(s, owner, memory).state;
            s'.config == s.config && (s'.pins == s.pins || s'.pins == OrphanPins(s.pins, owner))
  {
    hide Project, MapTotal, ProgramTotal, Sweepable, FreeableMaps, FreeablePrograms, UnownedAttachments, ReleaseAll,
      OrphanPins;
  }

  lemma UnpinPins(s: State, owner: nat, path: string, cleanup: bool)
    requires WellFormed(s)
    ensures var s' := Unpin(s, owner, path, cleanup).state;
            && s'.config == s.config
            && (s'.pins == s.pins
                || (FindPin(s.pins, path) < |s.pins| && s'.pins == RemoveAt(s.pins, FindPin(s.pins, path))))
  {
    hide MapTotal, Sweepable, FindPin, RemoveAt, Pinned;
  }

  lemma UnloadPins(s: State, owner: nat, prog: nat)
    requires WellFormed(s)
    ensures Unload(s, owner, prog).state.config == s.config && Unload(s, owner, prog).state.pins == s.pins
  {
    hide MapTotal, Sweepable, ProgramStrongCount, AttachedAnywhere;
  }

  lemma ExitPins(s: State, op: Op)
    requires WellFormed(s) && (op.OpReclaim? || op.OpUnload? || op.OpUnpin?)
    ensures var s' := Apply(s, op).state;
            && s'.config == s.config
            && (PinsShaped(s.pins, s.config.limits.maxPinnedMaps) ==>
                    PinsShaped(s'.pins, s.config.limits.maxPinnedMaps))
  {
    hide Reclaim, Unload, Unpin, PinsShaped, FindPin, OrphanPins, RemoveAt;
    if PinsShaped(s.pins, s.config.limits.maxPinnedMaps) {
      PinsStayShaped(s.pins, if op.OpReclaim? then op.owner else 0,
                     if op.OpUnpin? then FindPin(s.pins, op.path) else |s.pins|, s.config.limits.maxPinnedMaps);
    }
    match op
    case OpReclaim(o, m) => ReclaimPins(s, o, m);
    case OpUnload(o, p) => UnloadPins(s, o, p);
    case OpUnpin(o, path, c) => UnpinPins(s, o, path, c);
  }

  lemma PinOpPins(s: State, op: Op)
    requires WellFormed(s) && op.OpPin?
    ensures var s' := Apply(s, op).state;
            && s'.config == s.config
            && (PinsShaped(s.pins, s.config.limits.maxPinnedMaps) ==>
                    PinsShaped(s'.pins, s.config.limits.maxPinnedMaps))
  {
    hide FindPin;
  }

  lemma PinsShapedStep(s: State, op: Op)
    requires WellFormed(s) && PinsShaped(s.pins, s.config.limits.maxPinnedMaps)
    ensures Apply(s, op).state.config == s.config && PinsShaped(Apply(s, op).state.pins, s.config.limits.maxPinnedMaps)
  {
    hide Apply, PinsShaped;
    if Loads(op) {
      LoadFrame(s, op);
    } else if Hooks(op) {
      HookFrame(s, op);
    } else if op.OpCreate? || op.OpGet? || op.OpDestroy? {
      MapFrame(s, op);
    } else if op.OpPin? {
      PinOpPins(s, op);
    } else if op.OpClone? || op.OpDropClone? {
      PinFrame(s, op);
    } else {
      ExitPins(s, op);
    }
  }

  /** Over every run the pins stay within their cap and keep their shape, and the limits never change. */
  lemma {:induction false} PinsCapped(s: State, ops: seq<Op>)
    requires Inv(s) && PinsShaped(s.pins, s.config.limits.maxPinnedMaps)
    ensures After(s, ops).config == s.config && PinsShaped(After(s, ops).pins, s.config.limits.maxPinnedMaps)
  {
    hide Inv, Apply, PinsShaped;
    if ops != [] {
      PinsCapped(s, ops[..|ops| - 1]);
      AfterStep(s, ops);
      InvWellFormed(After(s, ops[..|ops| - 1]));
      PinsShapedStep(After(s, ops[..|ops| - 1]), ops[|ops| - 1]);
    }
  }

  // ------------------------------------------------------------------- when objects can go

  /** Only attachments put a program into the published snapshot. */
  lemma UnattachedUnpublished(s: State, prog: nat)
    requires TablesValid(s) && HooksValid(s) && Live(s.programs, prog) && !AttachedAnywhere(s.attachments, prog)
    ensures var id := Entry(s.programs, prog).program.id;
            !InLists(s.published.generic, id) && !InLists(s.published.gpio, id)
  {
    hide RoutesAttached, AttachmentsLoaded, Project, ClonesLoaded, MapsShaped, MapIdsFresh;
    var id := Entry(s.programs, prog).program.id;
    if InLists(s.published.generic, id) || InLists(s.published.gpio, id) {
      var p := PublishedIsAttached(s, id);
      assert Occupied(s.programs, Slot(p)) && Occupied(s.programs, Slot(prog));
      HandleUnique(s.programs, p);
      HandleUnique(s.programs, prog);
      assert false;
    }
  }

  lemma InvPieces(s: State)
    requires Inv(s)
    ensures WellFormed(s) && TablesValid(s) && HooksValid(s)
  {
  }

  /** A program unloads exactly when its owner asks, nothing attaches it and no clone is in flight. */
  lemma UnloadSucceedsIff(s: State, owner: nat, prog: nat)
    requires Inv(s)
    ensures Unload(s, owner, prog).reply == Done <==>
              && Live(s.programs, prog) && Entry(s.programs, prog).owner == owner
              && !AttachedAnywhere(s.attachments, prog)
              && Entry(s.programs, prog).program.id !in s.clones
  {
    hide Inv, TablesValid, HooksValid, Sweep, ProgramStrongCount, AttachedAnywhere;
    InvPieces(s);
    if Live(s.programs, prog) && !AttachedAnywhere(s.attachments, prog) {
      UnattachedUnpublished(s, prog);
      ProgramCountOne(s.published, s.clones, Entry(s.programs, prog).program.id);
    }
  }

  /** A user map is destroyed exactly when its owner asks, nothing pins it and no loaded program captured it. */
  lemma DestroySucceedsIff(s: State, owner: nat, mapId: nat)
    requires Inv(s)
    ensures Destroy(s, owner, mapId).reply == Done <==>
              && Live(s.maps, mapId) && Slot(mapId) >= RESERVED_MAP_COUNT && Entry(s.maps, mapId).owner == owner
              && !Pinned(s.pins, mapId) && !CapturedBySome(s.programs, Entry(s.maps, mapId).runtime)
  {
    hide Inv, Pinned, MapStrongCount, CapturedBySome;
    if Live(s.maps, mapId) {
      MapCountOne(s.programs, Entry(s.maps, mapId).runtime);
    }
  }
}
