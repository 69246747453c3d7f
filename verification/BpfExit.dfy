/** What a completed owner exit leaves of every program, attachment, route, map and pin. */
module BpfExit {
  import opened Common
  import opened Handles
  import opened Authorization
  import opened Admission
  import opened GpioRoutes
  import opened BpfState
  import opened BpfInvariants
  import opened BpfPreservation
  import opened BpfRuns
  import opened BpfOwnership
  import opened BpfOrphans
  import opened BpfEffects

  /** Exactly the owner's programs are gone. */
  ghost predicate ProgramsLeft(s: State, s': State, owner: nat) {
    && (forall p :: Live(s'.programs, p) <==> Live(s.programs, p) && Entry(s.programs, p).owner != owner)
    && (forall p :: Live(s'.programs, p) ==> Entry(s'.programs, p) == Entry(s.programs, p))
  }

  lemma ExitProgramSlot(s: State, owner: nat, i: nat)
    requires Inv(s) && Reclaim(s, owner, true).reply == Reclaimed(true) && i < |s.programs.slots|
    ensures var s' := Reclaim(s, owner, true).state;
            && |s'.programs.slots| == |s.programs.slots|
            && s'.programs.slots[i] ==
               if Occupied(s.programs, i) && s.programs.slots[i].value.owner == owner then None else s.programs.slots[i]
  {
    ReclaimCompletesIff(s, owner, true);
    ReclaimFrame(s, owner);
    ReclaimProgramSlot(s, owner, i);
    hide Inv, Reclaim, ReclaimPrograms;
  }

  lemma Thinned(t: Table<ProgramEntry>, u: Table<ProgramEntry>, owner: nat)
    requires |u.slots| == |t.slots| && u.gens == t.gens
    requires forall i :: 0 <= i < |t.slots| ==>
               u.slots[i] == if Occupied(t, i) && t.slots[i].value.owner == owner then None else t.slots[i]
    ensures forall p :: Live(u, p) <==> Live(t, p) && Entry(t, p).owner != owner
    ensures forall p :: Live(u, p) ==> Entry(u, p) == Entry(t, p)
  {
  }

  lemma ExitPrograms(s: State, owner: nat)
    requires Inv(s) && Reclaim(s, owner, true).reply == Reclaimed(true)
    ensures ProgramsLeft(s, Reclaim(s, owner, true).state, owner)
  {
    InvWellFormed(s);
    ReclaimShrink(s, owner, true);
    hide Inv, Reclaim, MapsShrink, PinsShrink, Live, Entry;
    forall i: nat | i < |s.programs.slots|
      ensures Reclaim(s, owner, true).state.programs.slots[i] ==
              if Occupied(s.programs, i) && s.programs.slots[i].value.owner == owner then None else s.programs.slots[i]
    {
      ExitProgramSlot(s, owner, i);
    }
    Thinned(s.programs, Reclaim(s, owner, true).state.programs, owner);
  }

  /** A program is one of the owner's. */
  ghost predicate Owned(s: State, owner: nat, prog: nat) {
    Live(s.programs, prog) && Entry(s.programs, prog).owner == owner
  }

  /** Exactly the owner's programs have left the hooks, the budget and the routes. */
  ghost predicate HooksLeft(s: State, s': State, owner: nat) {
    && (forall h: nat, p: nat :: p in Attached(s'.attachments, h) <==>
          p in Attached(s.attachments, h) && !Owned(s, owner, p))
    && (forall k :: k in s'.ledger.per <==> k in s.ledger.per && !Owned(s, owner, k.1))
    && (forall k :: k in s'.ledger.per && k in s.ledger.per ==> s'.ledger.per[k] == s.ledger.per[k])
    && (forall chip: nat, pin: nat, x: Route :: x in At(s'.routes, chip, pin) <==>
          x in At(s.routes, chip, pin) && !Owned(s, owner, x.prog))
  }

  lemma OwnedIsHandle(s: State, owner: nat, prog: nat)
    requires WellFormed(s)
    ensures prog in OwnedHandles(s.programs, owner) <==> Owned(s, owner, prog)
  {
    if Owned(s, owner, prog) {
      HandleUnique(s.programs, prog);
      assert prog == HandleOf(s.programs, Slot(prog));
    }
    if i: nat :| i < |s.programs.slots| && s.programs.slots[i].Some? && s.programs.slots[i].value.owner == owner
                 && prog == HandleOf(s.programs, i) {
      OccupiedLive(s.programs, i);
    }
  }

  lemma ExitRoutes(s: State, s': State, owner: nat)
    requires WellFormed(s) && OthersKept(s, s', owner)
    ensures forall chip: nat, pin: nat, x: Route ::
              x in At(s'.routes, chip, pin) <==> x in At(s.routes, chip, pin) && !Owned(s, owner, x.prog)
  {
    hide Drop, OwnedHandles, Owned, Unowned, OwnedKeys;
    forall chip: nat, pin: nat, x: Route
      ensures x in At(s'.routes, chip, pin) <==> x in At(s.routes, chip, pin) && !Owned(s, owner, x.prog)
    {
      OwnedIsHandle(s, owner, x.prog);
      assert At(s'.routes, chip, pin) == Drop(At(s.routes, chip, pin), OwnedHandles(s.programs, owner));
    }
  }

  lemma ExitLists(s: State, s': State, owner: nat)
    requires WellFormed(s) && OthersKept(s, s', owner)
    requires forall h: nat, p: nat :: (h, p) in s.ledger.per <==> p in Attached(s.attachments, h)
    ensures forall h: nat, p: nat ::
              p in Attached(s'.attachments, h) <==> p in Attached(s.attachments, h) && !Owned(s, owner, p)
    ensures forall k :: k in s'.ledger.per <==> k in s.ledger.per && !Owned(s, owner, k.1)
    ensures forall k :: k in s'.ledger.per && k in s.ledger.per ==> s'.ledger.per[k] == s.ledger.per[k]
  {
    hide Drop, OwnedHandles, At, Revoke, Orphan, ChargedTo, OrphanPins, Unowned;
  }

  lemma OthersHooks(s: State, s': State, owner: nat)
    requires WellFormed(s) && OthersKept(s, s', owner)
    requires forall h: nat, p: nat :: (h, p) in s.ledger.per <==> p in Attached(s.attachments, h)
    ensures HooksLeft(s, s', owner)
  {
    ExitRoutes(s, s', owner);
    ExitLists(s, s', owner);
  }

  lemma ExitHooks(s: State, owner: nat)
    requires Inv(s) && Reclaim(s, owner, true).reply == Reclaimed(true)
    ensures HooksLeft(s, Reclaim(s, owner, true).state, owner)
  {
    hide Inv, Reclaim, OthersKept, HooksLeft;
    InvWellFormed(s);
    ReclaimKeepsOthers(s, owner);
    LedgerKeys(s);
    OthersHooks(s, Reclaim(s, owner, true).state, owner);
  }

  lemma LedgerKeys(s: State)
    requires Inv(s)
    ensures forall h: nat, p: nat :: (h, p) in s.ledger.per <==> p in Attached(s.attachments, h)
  {
    hide TablesOk, CapturesResolve, PinsResolve, HooksOk, ProgramCounts, MapCounts, Balanced;
  }

  /** Some other owner's program captured the map. */
  ghost predicate HeldByStranger(s: State, mapId: nat, owner: nat)
    requires Live(s.maps, mapId)
  {
    exists p :: Live(s.programs, p) && Entry(s.programs, p).owner != owner
                && CapturesRuntime(Entry(s.programs, p), Entry(s.maps, mapId).runtime)
  }

  /** The map belongs to the owner, or to an owner that exited before. */
  ghost predicate Abandoned(s: State, mapId: nat, owner: nat)
    requires Live(s.maps, mapId)
  {
    var e := Entry(s.maps, mapId);
    e.charge > 0 && (e.owner == owner || e.owner == PINNED_MAP_OWNER)
  }

  /**
   An abandoned map stays exactly when a pin or another owner's program holds it, and then answers to nobody; every
   other map stays with its owner. Of the grants exactly the owner's is gone.
   */
  ghost predicate MapLeft(s: State, s': State, owner: nat, m: nat) {
    && (Live(s'.maps, m) <==>
          && Live(s.maps, m)
          && (Abandoned(s, m, owner) ==>
                (exists pin :: pin in s.pins && pin.mapId == m) || HeldByStranger(s, m, owner)))
    && (Live(s'.maps, m) && Live(s.maps, m) ==>
          var e, f := Entry(s.maps, m), Entry(s'.maps, m);
          && f == e.(owner := if Abandoned(s, m, owner) then PINNED_MAP_OWNER else e.owner, grants := f.grants)
          && AccessFor(f.grants, owner) == None
          && forall o :: o != owner ==> AccessFor(f.grants, o) == AccessFor(e.grants, o))
  }

  lemma ReleasedSlot(s: State, owner: nat, mapId: nat)
    requires WellFormed(s) && Live(s.maps, mapId)
    ensures Slot(mapId) in FreeableMaps(s, owner) <==>
              && Entry(s.maps, mapId).owner == owner && Entry(s.maps, mapId).charge > 0
              && !Pinned(s.pins, mapId) && !CapturedBySome(s.programs, Entry(s.maps, mapId).runtime)
  {
    hide CapturedBySome, MapStrongCount, Pinned;
    HandleUnique(s.maps, mapId);
    MapCountOne(s.programs, Entry(s.maps, mapId).runtime);
  }

  /** Releasing an owner's maps frees the unheld ones and hands the rest to the sentinel. */
  lemma ReleaseExact(s: State, owner: nat)
    requires WellFormed(s)
    ensures var s' := ReleaseMaps(s, owner);
            && WellFormed(s') && s'.programs == s.programs && s'.pins == s.pins
            && (forall m :: Live(s'.maps, m) <==>
                  && Live(s.maps, m)
                  && !(Entry(s.maps, m).owner == owner && Entry(s.maps, m).charge > 0 && !Pinned(s.pins, m)
                       && !CapturedBySome(s.programs, Entry(s.maps, m).runtime)))
            && (forall m :: Live(s'.maps, m) ==>
                  var e := Entry(s.maps, m);
                  Entry(s'.maps, m) ==
                    if e.owner == owner && e.charge > 0 then e.(owner := PINNED_MAP_OWNER) else e)
  {
    var gone := FreeableMaps(s, owner);
    RetainLater(s.maps, gone);
    forall m | Live(s.maps, m)
      ensures Slot(m) in gone <==>
              && Entry(s.maps, m).owner == owner && Entry(s.maps, m).charge > 0 && !Pinned(s.pins, m)
              && !CapturedBySome(s.programs, Entry(s.maps, m).runtime)
    {
      ReleasedSlot(s, owner, m);
    }
    hide FreeableMaps, Pinned, CapturedBySome, MapTotal, Retain;
  }

  lemma PinnedMeans(pins: seq<Pin>, mapId: nat)
    ensures Pinned(pins, mapId) <==> exists pin :: pin in pins && pin.mapId == mapId
  {
  }

  /** Releasing and then sweeping frees the abandoned maps nothing holds. */
  lemma ReleaseSwept(s: State, owner: nat, m: nat)
    requires WellFormed(s)
    ensures WellFormed(ReleaseMaps(s, owner))
    ensures var s' := Sweep(ReleaseMaps(s, owner));
            && (Live(s'.maps, m) <==>
                  && Live(s.maps, m)
                  && (Abandoned(s, m, owner) ==>
                        Pinned(s.pins, m) || CapturedBySome(s.programs, Entry(s.maps, m).runtime)))
            && (Live(s'.maps, m) && Live(s.maps, m) ==>
                  var e := Entry(s.maps, m);
                  Entry(s'.maps, m) == if Abandoned(s, m, owner) then e.(owner := PINNED_MAP_OWNER) else e)
  {
    ReleaseExact(s, owner);
    SweepExact(ReleaseMaps(s, owner));
    PinnedMeans(s.pins, m);
    hide ReleaseMaps, Sweep, CapturedBySome, Pinned;
  }

  lemma StrangerHolds(s: State, owner: nat, mapId: nat)
    requires Inv(s) && Reclaim(s, owner, true).reply == Reclaimed(true) && Live(s.maps, mapId)
    ensures var runtime := Entry(s.maps, mapId).runtime;
            CapturedBySome(ReclaimPrograms(s, owner).programs, runtime) <==> HeldByStranger(s, mapId, owner)
  {
    InvWellFormed(s);
    ExitPrograms(s, owner);
    ReclaimFrame(s, owner);
    ReclaimProgramsInv(s, owner);
    InvWellFormed(ReclaimPrograms(s, owner));
    hide Inv, Reclaim, ReclaimPrograms, CapturesRuntime, CapturedBySome;
    CapturedByHandle(ReclaimPrograms(s, owner), Entry(s.maps, mapId).runtime);
  }

  /** The program phase changes of a map only its grants, by the owner's entry. */
  lemma RevokedEntry(s: State, owner: nat, mapId: nat)
    requires Inv(s) && WellFormed(s)
    ensures var s3 := ReclaimPrograms(s, owner);
            && (Live(s3.maps, mapId) <==> Live(s.maps, mapId))
            && (Live(s.maps, mapId) ==>
                  var e, f := Entry(s.maps, mapId), Entry(s3.maps, mapId);
                  && f == e.(grants := f.grants) && AccessFor(f.grants, owner) == None
                  && forall o :: o != owner ==> AccessFor(f.grants, o) == AccessFor(e.grants, o))
  {
    ReclaimProgramsFrame(s, owner);
    if Live(s.maps, mapId) {
      EntryGrantsValid(s, mapId);
      RevokeEffect(Entry(s.maps, mapId).grants, owner);
    }
    hide Inv, ReclaimPrograms, AccessFor, Revoke, ValidGrants;
  }

  lemma ExitMap(s: State, owner: nat, m: nat)
    requires Inv(s) && Reclaim(s, owner, true).reply == Reclaimed(true)
    ensures MapLeft(s, Reclaim(s, owner, true).state, owner, m)
  {
    InvWellFormed(s);
    ReclaimProgramsInv(s, owner);
    var s3 := ReclaimPrograms(s, owner);
    InvWellFormed(s3);
    hide Inv, ReclaimPrograms, ReleaseMaps, Sweep, CapturedBySome, HeldByStranger, AccessFor, Pinned;
    RevokedEntry(s, owner, m);
    ReclaimProgramsFrame(s, owner);
    OrphanPinsPinned(s.pins, owner, m);
    PinnedMeans(s.pins, m);
    ReleaseSwept(s3, owner, m);
    assert Reclaim(s, owner, true).state == Sweep(ReleaseMaps(s3, owner));
    hide Reclaim;
    if Live(s.maps, m) {
      StrangerHolds(s, owner, m);
    }
  }

  /** Every pin stays under its path; the owner's pins answer to nobody from now on. */
  ghost predicate PinsLeft(s: State, s': State, owner: nat) {
    && |s'.pins| == |s.pins|
    && forall i :: 0 <= i < |s.pins| ==>
         s'.pins[i] ==
           s.pins[i].(owner := if s.pins[i].owner == owner then PINNED_MAP_OWNER else s.pins[i].owner)
  }

  /**
   A completed owner exit takes exactly the owner's programs, attachments, utilization and routes, frees exactly the
   abandoned maps nothing holds, withdraws exactly the owner's grants, and keeps every pin.
   */
  lemma ExitEffect(s: State, owner: nat)
    requires Inv(s) && Reclaim(s, owner, true).reply == Reclaimed(true)
    ensures var s' := Reclaim(s, owner, true).state;
            && ProgramsLeft(s, s', owner) && HooksLeft(s, s', owner)
            && (forall m: nat :: MapLeft(s, s', owner, m)) && PinsLeft(s, s', owner)
  {
    ExitPrograms(s, owner);
    ExitHooks(s, owner);
    ReclaimFrame(s, owner);
    InvWellFormed(s);
    hide Inv, Reclaim, ReclaimPrograms, ProgramsLeft, HooksLeft, MapLeft;
    forall m: nat
      ensures MapLeft(s, Reclaim(s, owner, true).state, owner, m)
    {
      ExitMap(s, owner, m);
    }
  }
}
