/** Rights on maps never exceed what their owners offered, over every run. */
module BpfRights {
  import opened Common
  import opened Handles
  import opened Authorization
  import opened Admission
  import opened BpfState
  import opened BpfInvariants
  import opened BpfPreservation
  import opened BpfRuns
  import opened BpfTheorems

  /** A state that has delegated nothing yet; the initial state is one. */
  ghost predicate Pristine(s: State) {
    && s.pins == []
    && (forall i :: Occupied(s.maps, i) ==> s.maps.slots[i].value.grants == [])
    && (forall i :: !Occupied(s.programs, i))
  }

  /** Union of the rights ever offered on a map by a successful pin of its owner. */
  ghost function Offered(s: State, ops: seq<Op>, mapId: nat): Access
    requires Inv(s)
  {
    if ops == [] then NO_ACCESS
    else
      var prev := Offered(s, ops[..|ops| - 1], mapId);
      var op := ops[|ops| - 1];
      if op.OpPin? && op.mapId == mapId && LastReply(s, ops).Done? then prev.Union(op.offered) else prev
  }

  /** A counted offer was made by the map's owner at that moment. */
  lemma OffersComeFromOwners(s: State, ops: seq<Op>)
    requires Inv(s) && ops != []
    ensures var prev, op := After(s, ops[..|ops| - 1]), ops[|ops| - 1];
            op.OpPin? && LastReply(s, ops).Done? ==>
              Live(prev.maps, op.mapId) && Entry(prev.maps, op.mapId).owner == op.owner
  {
    hide Inv, Apply, After, LastReply;
    AfterStep(s, ops);
    if ops[|ops| - 1].OpPin? && LastReply(s, ops).Done? {
      PinNeedsOwner(After(s, ops[..|ops| - 1]), ops[|ops| - 1]);
    }
  }

  lemma PinNeedsOwner(s: State, op: Op)
    requires WellFormed(s) && op.OpPin? && Apply(s, op).reply.Done?
    ensures Live(s.maps, op.mapId) && Entry(s.maps, op.mapId).owner == op.owner
  {
    hide FindPin;
  }

  lemma OfferedGrows(s: State, ops: seq<Op>, mapId: nat)
    requires Inv(s) && ops != []
    ensures Offered(s, ops, mapId).Contains(Offered(s, ops[..|ops| - 1], mapId))
  {
    hide Inv, Apply;
  }

  // ------------------------------------------------------------------------------- pins

  /** Every pin offers only what was offered for its map. */
  ghost predicate PinsWithin(s: State, ops: seq<Op>)
    requires Inv(s)
  {
    var t := After(s, ops);
    forall i :: 0 <= i < |t.pins| ==> Offered(s, ops, t.pins[i].mapId).Contains(t.pins[i].offered)
  }

  lemma PinAdds(s: State, op: Op, i: nat)
    requires WellFormed(s) && op.OpPin? && i < |Apply(s, op).state.pins|
    ensures var r := Apply(s, op);
            || (i < |s.pins| && r.state.pins[i] == s.pins[i])
            || (r.reply.Done? && r.state.pins[i].mapId == op.mapId && r.state.pins[i].offered == op.offered)
  {
    hide FindPin;
  }

  lemma PinsWithinStep(s: State, ops: seq<Op>)
    requires Inv(s) && ops != [] && PinsWithin(s, ops[..|ops| - 1])
    ensures PinsWithin(s, ops)
  {
    hide Inv, Apply, After;
    var op, prev, t := ops[|ops| - 1], After(s, ops[..|ops| - 1]), After(s, ops);
    AfterStep(s, ops);
    if !op.OpPin? {
      StepPins(prev, op);
    }
    forall i | 0 <= i < |t.pins|
      ensures Offered(s, ops, t.pins[i].mapId).Contains(t.pins[i].offered)
    {
      OfferedGrows(s, ops, t.pins[i].mapId);
      if op.OpPin? {
        PinAdds(prev, op, i);
      } else {
        assert PinOffers(prev.pins, t.pins[i].mapId, t.pins[i].offered);
      }
    }
  }

  // ----------------------------------------------------------------------------- grants

  ghost predicate EntryWithin(e: MapEntry, offered: Access) {
    forall g :: g in e.grants ==> offered.Contains(g.access)
  }

  /** Every grant stays within what was offered for its map. */
  ghost predicate GrantsWithin(s: State, ops: seq<Op>)
    requires Inv(s)
  {
    var t := After(s, ops);
    forall h :: Live(t.maps, h) ==> EntryWithin(Entry(t.maps, h), Offered(s, ops, h))
  }

  /** A get adds at most what the pin offers to what the caller already had. */
  lemma GrantWithin(grants: seq<Grant>, owner: nat, requested: Access, memory: bool, offered: Access)
    requires (forall g :: g in grants ==> offered.Contains(g.access)) && offered.Contains(requested)
    ensures var r := GrantTo(grants, owner, requested, memory);
            r.Granted? ==> forall g :: g in r.grants ==> offered.Contains(g.access)
  {
    var k := Find(grants, owner);
    assert k < |grants| ==> grants[k] in grants;
  }

  lemma GetPinnedAdds(s: State, owner: nat, path: string, requested: Access, memory: bool, h: nat, offered: Access)
    requires Inv(s) && Live(GetPinned(s, owner, path, requested, memory).state.maps, h)
    requires Live(s.maps, h) ==> EntryWithin(Entry(s.maps, h), offered)
    requires forall i :: 0 <= i < |s.pins| && s.pins[i].mapId == h ==> offered.Contains(s.pins[i].offered)
    ensures EntryWithin(Entry(GetPinned(s, owner, path, requested, memory).state.maps, h), offered)
  {
    hide Inv, GrantTo, FindPin;
    InvWellFormed(s);
    var k := FindPin(s.pins, path);
    if k < |s.pins| && Live(s.maps, s.pins[k].mapId) && Slot(h) == Slot(s.pins[k].mapId)
       && s.pins[k].offered.Contains(requested) {
      HandleUnique(s.maps, s.pins[k].mapId);
      GrantWithin(Entry(s.maps, s.pins[k].mapId).grants, owner, requested, memory, offered);
    }
  }

  lemma GetAdds(s: State, op: Op, h: nat, offered: Access)
    requires Inv(s) && op.OpGet? && Live(Apply(s, op).state.maps, h)
    requires Live(s.maps, h) ==> EntryWithin(Entry(s.maps, h), offered)
    requires forall i :: 0 <= i < |s.pins| && s.pins[i].mapId == h ==> offered.Contains(s.pins[i].offered)
    ensures EntryWithin(Entry(Apply(s, op).state.maps, h), offered)
  {
    hide Inv, EntryWithin, GetPinned;
    GetPinnedAdds(s, op.owner, op.path, op.requested, op.memory, h, offered);
  }

  lemma EntryWithinGrows(e: MapEntry, f: MapEntry, a: Access, b: Access)
    requires EntryWithin(e, a) && b.Contains(a) && forall g :: g in f.grants ==> g in e.grants
    ensures EntryWithin(f, b)
  {
  }

  lemma NoGrantsWithin(e: MapEntry, a: Access)
    requires e.grants == []
    ensures EntryWithin(e, a)
  {
  }

  lemma GrantsWithinStep(s: State, ops: seq<Op>)
    requires Inv(s) && ops != [] && PinsWithin(s, ops[..|ops| - 1]) && GrantsWithin(s, ops[..|ops| - 1])
    ensures GrantsWithin(s, ops)
  {
    hide Inv, Apply, After, EntryWithin;
    var op, prev, t := ops[|ops| - 1], After(s, ops[..|ops| - 1]), After(s, ops);
    AfterStep(s, ops);
    if op.OpCreate? {
      CreateLater(prev, op);
    } else if !op.OpGet? {
      StepMaps(prev, op);
    }
    forall h | Live(t.maps, h)
      ensures EntryWithin(Entry(t.maps, h), Offered(s, ops, h))
    {
      OfferedGrows(s, ops, h);
      if op.OpGet? {
        GetAdds(prev, op, h, Offered(s, ops[..|ops| - 1], h));
        EntryWithinGrows(Entry(t.maps, h), Entry(t.maps, h), Offered(s, ops[..|ops| - 1], h), Offered(s, ops, h));
      } else if op.OpCreate? && !Live(prev.maps, h) {
        NoGrantsWithin(Entry(t.maps, h), Offered(s, ops, h));
      } else {
        assert Occupied(t.maps, Slot(h));
        assert Live(prev.maps, h);
        EntryWithinGrows(Entry(prev.maps, h), Entry(t.maps, h), Offered(s, ops[..|ops| - 1], h), Offered(s, ops, h));
      }
    }
  }

  lemma {:induction false} DelegationsWithinOffers(s: State, ops: seq<Op>)
    requires Inv(s) && Pristine(s)
    ensures PinsWithin(s, ops) && GrantsWithin(s, ops)
  {
    hide Inv, Apply;
    if ops == [] {
      forall h | Live(s.maps, h)
        ensures EntryWithin(Entry(s.maps, h), Offered(s, ops, h))
      {
        assert Occupied(s.maps, Slot(h));
      }
    } else {
      DelegationsWithinOffers(s, ops[..|ops| - 1]);
      PinsWithinStep(s, ops);
      GrantsWithinStep(s, ops);
    }
  }

  /** A caller that does not own a user map has at most the rights its owners ever offered by pinning it. */
  lemma NoRightsAmplification(s: State, ops: seq<Op>, mapId: nat, caller: nat)
    requires Inv(s) && Pristine(s)
    ensures var t := After(s, ops);
            Live(t.maps, mapId) && Entry(t.maps, mapId).charge != 0 && Entry(t.maps, mapId).owner != caller ==>
              Offered(s, ops, mapId).Contains(Rights(Entry(t.maps, mapId), caller))
  {
    hide Inv, Apply, After, Offered;
    DelegationsWithinOffers(s, ops);
    var t := After(s, ops);
    if Live(t.maps, mapId) {
      var e := Entry(t.maps, mapId);
      assert EntryWithin(e, Offered(s, ops, mapId));
      var k := Find(e.grants, caller);
      assert k < |e.grants| ==> e.grants[k] in e.grants;
    }
  }

  /** `ensure_map_access` passes a request for some right exactly when the map exists and the rights cover it. */
  lemma AccessCheckExact(s: State, caller: nat, mapId: nat, required: Access)
    requires required != NO_ACCESS
    ensures MapAccessError(s, caller, mapId, required) == None <==>
              Live(s.maps, mapId) && Rights(Entry(s.maps, mapId), caller).Contains(required)
  {
  }

  /** Over every run, a non-owner's control-plane access passes the check only within what was offered on the map. */
  lemma AllowedAccessWasOffered(s: State, ops: seq<Op>, mapId: nat, caller: nat, required: Access)
    requires Inv(s) && Pristine(s) && required != NO_ACCESS
    ensures var t := After(s, ops);
            MapAccessError(t, caller, mapId, required) == None ==>
              && Live(t.maps, mapId)
              && (Entry(t.maps, mapId).charge != 0 && Entry(t.maps, mapId).owner != caller ==>
                    Offered(s, ops, mapId).Contains(required))
  {
    hide Inv, Apply, After, Offered, MapAccessError;
    AccessCheckExact(After(s, ops), caller, mapId, required);
    NoRightsAmplification(s, ops, mapId, caller);
  }

  // ---------------------------------------------------------------- captured permissions

  /** A captured permission lies within the load capability and the loader's rights on the map. */
  lemma PermWithinRights(e: MapEntry, owner: nat, authorized: Access)
    requires e.perm == ReadWrite || e.perm == ReadOnly
    ensures authorized.Contains(PermAccess(OwnerPerm(e, owner, authorized)))
    ensures Rights(e, owner).Contains(PermAccess(OwnerPerm(e, owner, authorized)))
    ensures PermAccess(e.perm).Contains(PermAccess(OwnerPerm(e, owner, authorized)))
  {
  }

  /** One captured permission against the current owner and the offers so far. */
  ghost predicate CaptureWithin(t: State, e: ProgramEntry, k: nat, offered: Access)
    requires k < |e.program.maps| && e.program.maps[k].Some? && Occupied(t.maps, k)
  {
    var a := PermAccess(e.program.maps[k].value.perm);
    && e.authorization.Contains(a)
    && PermAccess(t.maps.slots[k].value.perm).Contains(a)
    && (t.maps.slots[k].value.charge != 0 ==> t.maps.slots[k].value.owner == e.owner || offered.Contains(a))
  }

  ghost predicate ProgramWithin(s: State, ops: seq<Op>, e: ProgramEntry)
    requires Inv(s)
  {
    var t := After(s, ops);
    forall k :: 0 <= k < |e.program.maps| && e.program.maps[k].Some? ==>
      Occupied(t.maps, k) && Handles.Valid(t.maps) && CaptureWithin(t, e, k, Offered(s, ops, HandleOf(t.maps, k)))
  }

  ghost predicate CapturesWithin(s: State, ops: seq<Op>)
    requires Inv(s)
  {
    var t := After(s, ops);
    forall p :: Live(t.programs, p) ==> ProgramWithin(s, ops, Entry(t.programs, p))
  }

  /** A fresh program captures only within its loader's current rights. */
  lemma LoadedWithin(s: State, ops: seq<Op>, owner: nat, authorization: Access, stats: Stats, entry: ProgramEntry)
    requires Inv(s) && entry.owner == owner && entry.authorization == authorization
    ensures WellFormed(After(s, ops))
    ensures GrantsWithin(s, ops)
            && CaptureMaps(After(s, ops).maps, owner, authorization, stats.referenced) == Captured(entry.program.maps)
            ==> ProgramWithin(s, ops, entry)
  {
    hide Inv, After, Offered, CaptureMaps;
    var t := After(s, ops);
    InvWellFormed(t);
    if !GrantsWithin(s, ops)
       || CaptureMaps(t.maps, owner, authorization, stats.referenced) != Captured(entry.program.maps) {
      return;
    }
    CaptureMapsResolve(t.maps, owner, authorization, stats.referenced);
    forall k | 0 <= k < |entry.program.maps| && entry.program.maps[k].Some?
      ensures Occupied(t.maps, k) && Handles.Valid(t.maps)
              && CaptureWithin(t, entry, k, Offered(s, ops, HandleOf(t.maps, k)))
    {
      assert CaptureResolves(t.maps, k, entry.program.maps[k].value);
      var e := t.maps.slots[k].value;
      MapPermShape(t, k);
      PermWithinRights(e, owner, authorization);
      OccupiedLive(t.maps, k);
      assert EntryWithin(e, Offered(s, ops, HandleOf(t.maps, k)));
      var j := Find(e.grants, owner);
      assert j < |e.grants| ==> e.grants[j] in e.grants;
    }
  }

  lemma MapPermShape(s: State, k: nat)
    requires Inv(s) && Occupied(s.maps, k)
    ensures s.maps.slots[k].value.perm == ReadWrite || s.maps.slots[k].value.perm == ReadOnly
  {
  }

  /** The maps a surviving program captured keep their owner unless that owner, whose programs are gone, left. */
  lemma CaptureOwnerKept(s: State, op: Op, p: nat, k: nat)
    requires Inv(s) && Live(s.programs, p) && Live(Apply(s, op).state.programs, p)
    requires k < |Entry(s.programs, p).program.maps| && Entry(s.programs, p).program.maps[k].Some?
    ensures var s' := Apply(s, op).state;
            && Occupied(s.maps, k) && Occupied(s'.maps, k)
            && Handles.Valid(s.maps) && Handles.Valid(s'.maps) && HandleOf(s'.maps, k) == HandleOf(s.maps, k)
            && s'.maps.slots[k].value.charge == s.maps.slots[k].value.charge
            && s'.maps.slots[k].value.perm == s.maps.slots[k].value.perm
            && (s.maps.slots[k].value.owner == Entry(s.programs, p).owner ==>
                    s'.maps.slots[k].value.owner == Entry(s.programs, p).owner)
  {
    hide Inv, Apply;
    InvWellFormed(s);
    var s' := Apply(s, op).state;
    StepInv(s, op);
    InvWellFormed(s');
    StepProgramHandles(s, op);
    CaptureOccupied(s, p, k);
    CaptureOccupied(s', p, k);
    if op.OpReclaim? {
      ReclaimOwnerKept(s, op, p, k);
    } else {
      OwnersKept(s, op, k);
    }
  }

  lemma CaptureOccupied(s: State, p: nat, k: nat)
    requires Inv(s) && Live(s.programs, p)
    requires k < |Entry(s.programs, p).program.maps| && Entry(s.programs, p).program.maps[k].Some?
    ensures CaptureResolves(s.maps, k, Entry(s.programs, p).program.maps[k].value)
  {
    assert Occupied(s.programs, Slot(p));
    assert EntryResolves(s.maps, Entry(s.programs, p));
  }

  lemma ReclaimOwnerKept(s: State, op: Op, p: nat, k: nat)
    requires Inv(s) && op.OpReclaim? && Live(Apply(s, op).state.programs, p) && Live(s.programs, p)
    requires Occupied(s.maps, k) && Occupied(Apply(s, op).state.maps, k)
    ensures var s' := Apply(s, op).state;
            && s'.maps.slots[k].value.charge == s.maps.slots[k].value.charge
            && s'.maps.slots[k].value.perm == s.maps.slots[k].value.perm
            && (s.maps.slots[k].value.owner == Entry(s.programs, p).owner ==>
                    s'.maps.slots[k].value.owner == s.maps.slots[k].value.owner)
  {
    hide Inv, Reclaim;
    InvWellFormed(s);
    var s' := Apply(s, op).state;
    ReclaimShrink(s, op.owner, op.memory);
    assert Occupied(s'.programs, Slot(p)) && s'.programs.slots[Slot(p)] == s.programs.slots[Slot(p)];
    assert MapDiminished(s.maps.slots[k].value, s'.maps.slots[k].value);
    ReclaimReply(s, op.owner, op.memory);
    if op.memory && Reclaim(s, op.owner, true).reply == Reclaimed(true) {
      ReclaimedOwners(s, op.owner, k);
    } else {
      UnreclaimedOwners(s, op.owner, op.memory, k);
    }
  }

  lemma ReclaimReply(s: State, owner: nat, memory: bool)
    requires WellFormed(s)
    ensures var r := Reclaim(s, owner, memory).reply; r == Reclaimed(false) || (memory && r == Reclaimed(true))
  {
    hide ReclaimPrograms, ReleaseMaps, Sweep;
  }

  lemma ReclaimedOwners(s: State, owner: nat, k: nat)
    requires Inv(s) && Reclaim(s, owner, true).reply == Reclaimed(true)
    requires Occupied(s.maps, k) && Occupied(Reclaim(s, owner, true).state.maps, k)
    ensures !OwnsProgram(Reclaim(s, owner, true).state.programs, owner)
    ensures s.maps.slots[k].value.owner != owner ==>
              Reclaim(s, owner, true).state.maps.slots[k].value.owner == s.maps.slots[k].value.owner
  {
    ReclaimProgramsInv(s, owner);
    ReleaseMapsInv(ReclaimPrograms(s, owner), owner);
    assert WellFormed(s) && WellFormed(ReclaimPrograms(s, owner))
           && WellFormed(ReleaseMaps(ReclaimPrograms(s, owner), owner));
    hide Inv, FreeablePrograms, Project, ReleaseAll, Sweepable, FreeableMaps, UnownedAttachments;
  }

  lemma UnreclaimedOwners(s: State, owner: nat, memory: bool, k: nat)
    requires Inv(s) && Reclaim(s, owner, memory).reply == Reclaimed(false)
    requires Occupied(s.maps, k) && Occupied(Reclaim(s, owner, memory).state.maps, k)
    ensures Reclaim(s, owner, memory).state.maps.slots[k].value.owner == s.maps.slots[k].value.owner
  {
    assert WellFormed(s);
    hide Inv, FreeablePrograms, Project, ReleaseAll, Sweep, ReleaseMaps, UnownedAttachments;
  }

  lemma OwnersKept(s: State, op: Op, k: nat)
    requires Inv(s) && !op.OpReclaim?
    requires Occupied(s.maps, k) && Occupied(Apply(s, op).state.maps, k)
    ensures var s' := Apply(s, op).state;
            && s'.maps.slots[k].value.charge == s.maps.slots[k].value.charge
            && s'.maps.slots[k].value.perm == s.maps.slots[k].value.perm
            && s'.maps.slots[k].value.owner == s.maps.slots[k].value.owner
  {
    hide Inv, Apply;
    InvWellFormed(s);
    if Loads(op) {
      LoadFrame(s, op);
    } else if Hooks(op) {
      HookFrame(s, op);
    } else if op.OpPin? || op.OpClone? || op.OpDropClone? {
      PinFrame(s, op);
    } else {
      MapOwnersKept(s, op, k);
    }
  }

  /** Same charge, permission and owner. */
  ghost predicate SameMap(t: Table<MapEntry>, u: Table<MapEntry>, k: int) {
    Occupied(t, k) && Occupied(u, k) ==>
      && u.slots[k].value.charge == t.slots[k].value.charge
      && u.slots[k].value.perm == t.slots[k].value.perm
      && u.slots[k].value.owner == t.slots[k].value.owner
  }

  lemma InsertOwners(t: Table<MapEntry>, maxSlots: nat, e: MapEntry, slotMemory: bool, genMemory: bool, k: nat)
    requires Handles.Valid(t)
    ensures var r := Insert(t, maxSlots, e, slotMemory, genMemory); r.Inserted? ==> SameMap(t, r.table, k)
  {
  }

  lemma FreeMapsOwners(s: State, gone: set<nat>, k: nat)
    ensures SameMap(s.maps, FreeMaps(s, gone).maps, k)
  {
  }

  lemma CreateOwners(s: State, owner: nat, mapType: nat, keySize: nat, valueSize: nat, maxEntries: nat,
                     memory: CreateMemory, k: nat)
    requires WellFormed(s)
    ensures SameMap(s.maps, CreateMap(s, owner, mapType, keySize, valueSize, maxEntries, memory).state.maps, k)
  {
    hide MapQuota, AllocationCharge, Insert;
    var charge := AllocationCharge(s.config.limits, mapType, keySize, valueSize, maxEntries);
    if charge.Charge? {
      InsertOwners(s.maps, s.config.limits.maxMapSlots, MapEntry(s.nextId, ReadWrite, charge.bytes, owner, []),
                   memory.slot, memory.generation, k);
    }
  }

  lemma GetOwners(s: State, owner: nat, path: string, requested: Access, memory: bool, k: nat)
    ensures SameMap(s.maps, GetPinned(s, owner, path, requested, memory).state.maps, k)
  {
    hide FindPin, GrantTo;
  }

  lemma DestroyOwners(s: State, owner: nat, mapId: nat, k: nat)
    ensures SameMap(s.maps, Destroy(s, owner, mapId).state.maps, k)
  {
    hide Pinned, MapStrongCount;
  }

  lemma UnpinOwners(s: State, owner: nat, path: string, cleanup: bool, k: nat)
    requires WellFormed(s)
    ensures SameMap(s.maps, Unpin(s, owner, path, cleanup).state.maps, k)
  {
    hide FindPin, Sweepable, FreeMaps, SameMap;
    var i := FindPin(s.pins, path);
    SameMapSelf(s.maps, k);
    if i < |s.pins| {
      var s' := s.(pins := RemoveAt(s.pins, i));
      FreeMapsOwners(s', Sweepable(s'), k);
    }
  }

  lemma UnloadOwners(s: State, owner: nat, prog: nat, k: nat)
    requires WellFormed(s)
    ensures SameMap(s.maps, Unload(s, owner, prog).state.maps, k)
  {
    hide AttachedAnywhere, ProgramStrongCount, Sweepable, FreeMaps, SameMap;
    SameMapSelf(s.maps, k);
    if Live(s.programs, prog) {
      FreeMapsOwners(Unloaded(s, prog), Sweepable(Unloaded(s, prog)), k);
    }
  }

  lemma SameMapSelf(t: Table<MapEntry>, k: nat)
    ensures SameMap(t, t, k)
  {
  }

  lemma MapOwnersKept(s: State, op: Op, k: nat)
    requires WellFormed(s) && (op.OpCreate? || op.OpGet? || op.OpDestroy? || op.OpUnpin? || op.OpUnload?)
    requires Occupied(s.maps, k) && Occupied(Apply(s, op).state.maps, k)
    ensures var s' := Apply(s, op).state;
            && s'.maps.slots[k].value.charge == s.maps.slots[k].value.charge
            && s'.maps.slots[k].value.perm == s.maps.slots[k].value.perm
            && s'.maps.slots[k].value.owner == s.maps.slots[k].value.owner
  {
    hide LoadRaw, LoadVerified, LoadElf, AttachFor, AttachGpio, Detach, DetachFor, Unload;
    hide CreateMap, PinMap, GetPinned, Unpin, Destroy, Reclaim, CloneProgram, DropClone;
    match op
    case OpCreate(o, t, ks, vs, n, m) => CreateOwners(s, o, t, ks, vs, n, m, k);
    case OpGet(o, path, r, m) => GetOwners(s, o, path, r, m, k);
    case OpDestroy(o, m) => DestroyOwners(s, o, m, k);
    case OpUnpin(o, path, c) => UnpinOwners(s, o, path, c, k);
    case OpUnload(o, p) => UnloadOwners(s, o, p, k);
  }

  lemma SurvivorWithin(s: State, ops: seq<Op>, p: nat)
    requires Inv(s) && ops != []
    ensures var prev, t := After(s, ops[..|ops| - 1]), After(s, ops);
            CapturesWithin(s, ops[..|ops| - 1]) && Live(prev.programs, p) && Live(t.programs, p) ==>
              ProgramWithin(s, ops, Entry(t.programs, p))
  {
    hide Inv, Apply, After, Offered;
    var init := ops[..|ops| - 1];
    var op, prev, t := ops[|ops| - 1], After(s, init), After(s, ops);
    if CapturesWithin(s, init) && Live(prev.programs, p) && Live(t.programs, p) {
      AfterStep(s, ops);
      StepProgramHandles(prev, op);
      var e := Entry(t.programs, p);
      assert ProgramWithin(s, init, e);
      forall k | 0 <= k < |e.program.maps| && e.program.maps[k].Some?
        ensures Occupied(t.maps, k) && Handles.Valid(t.maps)
                && CaptureWithin(t, e, k, Offered(s, ops, HandleOf(t.maps, k)))
      {
        CaptureOwnerKept(prev, op, p, k);
        OfferedGrows(s, ops, HandleOf(t.maps, k));
        assert CaptureWithin(prev, e, k, Offered(s, init, HandleOf(prev.maps, k)));
      }
    }
  }

  lemma FreshWithin(s: State, ops: seq<Op>, p: nat)
    requires Inv(s) && ops != [] && Loads(ops[|ops| - 1])
    ensures var prev, t := After(s, ops[..|ops| - 1]), After(s, ops);
            GrantsWithin(s, ops[..|ops| - 1]) && !Live(prev.programs, p) && Live(t.programs, p) ==>
              ProgramWithin(s, ops, Entry(t.programs, p))
  {
    hide Inv, Apply, After, Register, Offered, ProgramWithin, GrantsWithin;
    var init := ops[..|ops| - 1];
    var op, prev, t := ops[|ops| - 1], After(s, init), After(s, ops);
    if GrantsWithin(s, init) && !Live(prev.programs, p) && Live(t.programs, p) {
      AfterStep(s, ops);
      var o, a, st, c, m := LoadIsRegister(prev, op);
      RegisterLater(prev, o, a, st, c, m);
      LoadFrame(prev, op);
      LoadedWithin(s, init, o, a, st, Entry(t.programs, p));
      NoOfferHere(s, ops);
      WithinCarries(s, ops, Entry(t.programs, p));
    }
  }

  lemma CapturesWithinStep(s: State, ops: seq<Op>)
    requires Inv(s) && ops != [] && GrantsWithin(s, ops[..|ops| - 1]) && CapturesWithin(s, ops[..|ops| - 1])
    ensures CapturesWithin(s, ops)
  {
    hide Inv, Apply, After, Offered, GrantsWithin, ProgramWithin;
    var prev, op, t := After(s, ops[..|ops| - 1]), ops[|ops| - 1], After(s, ops);
    AfterStep(s, ops);
    if !Loads(op) {
      StepPrograms(prev, op);
    }
    forall p | Live(t.programs, p)
      ensures ProgramWithin(s, ops, Entry(t.programs, p))
    {
      assert Occupied(t.programs, Slot(p));
      if Live(prev.programs, p) {
        SurvivorWithin(s, ops, p);
      } else {
        FreshWithin(s, ops, p);
      }
    }
  }

  lemma NoOfferHere(s: State, ops: seq<Op>)
    requires Inv(s) && ops != [] && !ops[|ops| - 1].OpPin?
    ensures forall h :: Offered(s, ops, h) == Offered(s, ops[..|ops| - 1], h)
  {
    hide Inv, Apply;
  }

  lemma WithinCarries(s: State, ops: seq<Op>, e: ProgramEntry)
    requires Inv(s) && ops != []
    ensures ProgramWithin(s, ops[..|ops| - 1], e) && After(s, ops).maps == After(s, ops[..|ops| - 1]).maps
            && (forall h :: Offered(s, ops, h) == Offered(s, ops[..|ops| - 1], h))
            ==> ProgramWithin(s, ops, e)
  {
    hide Inv, Apply, After, Offered;
  }

  lemma {:induction false} AllCapturesWithin(s: State, ops: seq<Op>)
    requires Inv(s) && Pristine(s)
    ensures CapturesWithin(s, ops)
  {
    hide Inv, Apply;
    if ops == [] {
      assert forall p :: Live(s.programs, p) ==> Occupied(s.programs, Slot(p));
    } else {
      AllCapturesWithin(s, ops[..|ops| - 1]);
      DelegationsWithinOffers(s, ops[..|ops| - 1]);
      CapturesWithinStep(s, ops);
    }
  }

  /**
   Whatever map a loaded program can reach at run time, it reaches within its load capability, and within READ_WRITE
   if its owner owns the map, else within the rights ever offered on that map.
   */
  lemma CapturedRightsBounded(s: State, ops: seq<Op>, prog: nat, handle: nat, required: Access)
    requires Inv(s) && Pristine(s)
    ensures var t := After(s, ops);
            Live(t.programs, prog) && ProgramMap(Entry(t.programs, prog).program, handle, required).Some? ==>
              var e := Entry(t.programs, prog);
              && e.authorization.Contains(required)
              && Live(t.maps, handle)
              && PermAccess(Entry(t.maps, handle).perm).Contains(required)
              && (Entry(t.maps, handle).charge != 0 && Entry(t.maps, handle).owner != e.owner ==>
                      Offered(s, ops, handle).Contains(required))
  {
    hide Inv, After, Offered;
    AllCapturesWithin(s, ops);
    var t := After(s, ops);
    InvWellFormed(t);
    if Live(t.programs, prog) && ProgramMap(Entry(t.programs, prog).program, handle, required).Some? {
      PrivateViewAgrees(t, prog, handle, required);
      assert ProgramWithin(s, ops, Entry(t.programs, prog));
      HandleUnique(t.maps, handle);
    }
  }

  /** The initial state has delegated nothing. */
  lemma InitPristine(config: Config, budget: nat, cycleUnit: nat)
    ensures Pristine(Init(config, budget, cycleUnit))
  {
  }
}
