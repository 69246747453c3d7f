/** Owner exit: when it completes, what it forgets and what it leaves to other owners. */
module BpfOwnership {
  import opened Common
  import opened Handles
  import opened Authorization
  import opened Admission
  import opened GpioRoutes
  import opened BpfState
  import opened BpfInvariants
  import opened BpfPreservation
  import opened BpfRuns
  import opened BpfTheorems

  // ------------------------------------------------------------------------- owner exit

  /** The owner's program in this slot has a clone in flight. */
  ghost predicate ClonedInFlight(s: State, owner: nat, i: int) {
    Occupied(s.programs, i) && s.programs.slots[i].value.owner == owner
    && s.programs.slots[i].value.program.id in s.clones
  }

  /** Once detached, only clones keep an owner's program busy. */
  lemma DetachedUnpublished(s: State, owner: nat, i: nat)
    requires Inv(s) && Occupied(s.programs, i) && s.programs.slots[i].value.owner == owner
    ensures var s1 := DetachOwner(s, owner);
            ProgramStrongCount(s1.published, s1.clones, s.programs.slots[i].value.program.id) == 1
            <==> s.programs.slots[i].value.program.id !in s.clones
  {
    var s1 := DetachOwner(s, owner);
    var id := s.programs.slots[i].value.program.id;
    DetachOwnerInv(s, owner);
    OccupiedLive(s.programs, i);
    var h := HandleOf(s.programs, i);
    assert OwnedProgram(s.programs, owner, h);
    if InLists(s1.published.generic, id) || InLists(s1.published.gpio, id) {
      var p := PublishedIsAttached(s1, id);
      assert Occupied(s.programs, Slot(p));
      HandleUnique(s.programs, p);
    }
    ProgramCountOne(s1.published, s1.clones, id);
  }

  /** Which program slots survive the program phase of an owner's exit. */
  lemma ReclaimProgramSlot(s: State, owner: nat, i: nat)
    requires Inv(s) && i < |s.programs.slots|
    ensures var s3 := ReclaimPrograms(s, owner);
            && |s3.programs.slots| == |s.programs.slots| && s3.programs.gens == s.programs.gens
            && s3.programs.slots[i] ==
                 if Occupied(s.programs, i) && s.programs.slots[i].value.owner == owner && !ClonedInFlight(s, owner, i)
                 then None else s.programs.slots[i]
  {
    if Occupied(s.programs, i) && s.programs.slots[i].value.owner == owner {
      DetachedUnpublished(s, owner, i);
    }
    hide Inv, Project, UnownedAttachments, ReleaseAll, ProgramStrongCount;
  }

  /** `reclaim_owner` completes exactly when the snapshot was allocated and no owned program has a clone in flight. */
  lemma ReclaimCompletesIff(s: State, owner: nat, memory: bool)
    requires Inv(s)
    ensures Reclaim(s, owner, memory).reply == Reclaimed(true) <==> memory && !exists i :: ClonedInFlight(s, owner, i)
  {
    var s3 := ReclaimPrograms(s, owner);
    forall i: nat | i < |s.programs.slots|
      ensures |s3.programs.slots| == |s.programs.slots|
      ensures s3.programs.slots[i].Some? && s3.programs.slots[i].value.owner == owner <==> ClonedInFlight(s, owner, i)
    {
      ReclaimProgramSlot(s, owner, i);
    }
    if |s.programs.slots| == 0 {
      assert s3.programs.slots == [];
    }
  }

  /** Every orphan map is pinned or captured by a loaded program. */
  ghost predicate OrphansHeld(s: State)
    requires WellFormed(s)
  {
    forall i :: Occupied(s.maps, i) && Orphan(s.maps.slots[i].value) ==>
      Pinned(s.pins, HandleOf(s.maps, i)) || CapturedBySome(s.programs, s.maps.slots[i].value.runtime)
  }

  /** A sweep leaves no orphan that nothing holds. */
  lemma SweepHolds(s: State)
    requires Inv(s)
    ensures Inv(Sweep(s)) && OrphansHeld(Sweep(s))
  {
    SweepInv(s);
    var s' := Sweep(s);
    forall i | Occupied(s'.maps, i) && Orphan(s'.maps.slots[i].value)
      ensures Pinned(s'.pins, HandleOf(s'.maps, i)) || CapturedBySome(s'.programs, s'.maps.slots[i].value.runtime)
    {
      assert i !in Sweepable(s) && s'.maps.slots[i] == s.maps.slots[i];
      MapCountOne(s.programs, s.maps.slots[i].value.runtime);
    }
  }

  /** What an owner's exit can make of one map slot. */
  ghost predicate MapSlotAfter(e: Option<MapEntry>, f: Option<MapEntry>, owner: nat) {
    if e.None? then f.None?
    else if ChargedTo(e, owner) then
      f.None? || f == Some(e.value.(owner := PINNED_MAP_OWNER, grants := Revoke(e.value.grants, owner)))
    else if Orphan(e.value) then f.None? || f == RevokeSlot(e, owner)
    else f == RevokeSlot(e, owner)
  }

  lemma ReclaimMapSlot(s: State, owner: nat, i: nat)
    requires Inv(s) && i < |s.maps.slots|
    requires Reclaim(s, owner, true).reply == Reclaimed(true)
    ensures var s' := Reclaim(s, owner, true).state;
            |s'.maps.slots| == |s.maps.slots| && s'.maps.gens == s.maps.gens
            && MapSlotAfter(s.maps.slots[i], s'.maps.slots[i], owner)
  {
    ReclaimProgramsInv(s, owner);
    var s3 := ReclaimPrograms(s, owner);
    assert s3.maps.slots[i] == RevokeSlot(s.maps.slots[i], owner);
    ReleaseMapsInv(s3, owner);
    var s4 := ReleaseMaps(s3, owner);
    assert WellFormed(s) && WellFormed(s3) && WellFormed(s4);
    hide Inv, ReclaimPrograms, Pinned, MapStrongCount, MapTotal;
  }

  /**
   Nothing in the state is run for, granted to, charged to or pinned by the owner; orphans stay charged to the sentinel
   that stands for no caller.
   */
  ghost predicate Forgotten(s: State, owner: nat) {
    && !OwnsProgram(s.programs, owner)
    && (owner != PINNED_MAP_OWNER ==> forall i :: 0 <= i < |s.maps.slots| ==> !ChargedTo(s.maps.slots[i], owner))
    && (owner != PINNED_MAP_OWNER ==> forall i :: 0 <= i < |s.pins| ==> s.pins[i].owner != owner)
    && (forall i :: Occupied(s.maps, i) ==> AccessFor(s.maps.slots[i].value.grants, owner) == None)
    && (forall p :: AttachedAnywhere(s.attachments, p) || Routed(s.routes, p) ==>
            Live(s.programs, p) && Entry(s.programs, p).owner != owner)
  }

  /** Other owners keep their programs, attachments, admitted utilization, routes, maps and pins. */
  ghost predicate OthersKept(s: State, s': State, owner: nat)
    requires WellFormed(s)
  {
    && (forall p :: Live(s.programs, p) && Entry(s.programs, p).owner != owner ==>
          Live(s'.programs, p) && Entry(s'.programs, p) == Entry(s.programs, p))
    && (forall h: nat :: Attached(s'.attachments, h) == Unowned(s.programs, owner, Attached(s.attachments, h)))
    && s'.ledger.per == s.ledger.per - OwnedKeys(s.programs, owner, s.attachments)
    && (forall chip, pin ::
          At(s'.routes, chip, pin) == Drop(At(s.routes, chip, pin), OwnedHandles(s.programs, owner)))
    && (forall m :: Live(s.maps, m) && !ChargedTo(Some(Entry(s.maps, m)), owner) && !Orphan(Entry(s.maps, m)) ==>
          && Live(s'.maps, m)
          && Entry(s'.maps, m) == Entry(s.maps, m).(grants := Revoke(Entry(s.maps, m).grants, owner)))
    && s'.pins == OrphanPins(s.pins, owner)
  }

  lemma ReclaimFrame(s: State, owner: nat)
    requires Inv(s) && Reclaim(s, owner, true).reply == Reclaimed(true)
    ensures var s' := Reclaim(s, owner, true).state;
            && s'.programs == ReclaimPrograms(s, owner).programs
            && s'.attachments == UnownedAttachments(s.programs, owner, s.attachments)
            && s'.ledger.per == s.ledger.per - OwnedKeys(s.programs, owner, s.attachments)
            && s'.routes == GpioRoutes.Remove(s.routes, OwnedHandles(s.programs, owner))
            && s'.pins == OrphanPins(s.pins, owner)
            && !OwnsProgram(s'.programs, owner)
  {
    assert WellFormed(s);
    hide Inv, FreeablePrograms, Project, ReleaseAll, Sweepable, FreeableMaps;
  }

  lemma ReclaimForgets(s: State, owner: nat)
    requires Inv(s) && Reclaim(s, owner, true).reply == Reclaimed(true)
    ensures Forgotten(Reclaim(s, owner, true).state, owner)
  {
    hide Inv, Reclaim, ReclaimPrograms, HooksOk, TablesOk, AttachedAnywhere, Routed, UnownedAttachments, OwnedKeys;
    InvPieces(s);
    var s' := Reclaim(s, owner, true).state;
    ReclaimInv(s, owner, true);
    InvPieces(s');
    ReclaimFrame(s, owner);
    forall i: nat | i < |s'.maps.slots|
      ensures owner != PINNED_MAP_OWNER ==> !ChargedTo(s'.maps.slots[i], owner)
      ensures Occupied(s'.maps, i) ==> AccessFor(s'.maps.slots[i].value.grants, owner) == None
    {
      ReclaimSlotForgets(s, owner, i);
    }
    assert forall i :: Occupied(s'.maps, i) ==> 0 <= i < |s'.maps.slots|;
    ForgottenHooks(s', owner);
  }

  lemma ForgottenHooks(s: State, owner: nat)
    requires HooksValid(s) && !OwnsProgram(s.programs, owner)
    ensures forall p :: AttachedAnywhere(s.attachments, p) || Routed(s.routes, p) ==>
              Live(s.programs, p) && Entry(s.programs, p).owner != owner
  {
    forall p | AttachedAnywhere(s.attachments, p) || Routed(s.routes, p)
      ensures Live(s.programs, p) && Entry(s.programs, p).owner != owner
    {
      assert Routed(s.routes, p) ==> p in Attached(s.attachments, ATTACH_GPIO);
      var h :| h in s.attachments && p in s.attachments[h];
      assert HookValid(h, s.attachments[h], s.programs);
    }
  }

  lemma ReclaimSlotForgets(s: State, owner: nat, i: nat)
    requires Inv(s) && Reclaim(s, owner, true).reply == Reclaimed(true)
    requires i < |Reclaim(s, owner, true).state.maps.slots|
    ensures var s' := Reclaim(s, owner, true).state;
            && (owner != PINNED_MAP_OWNER ==> !ChargedTo(s'.maps.slots[i], owner))
            && (Occupied(s'.maps, i) ==> AccessFor(s'.maps.slots[i].value.grants, owner) == None)
  {
    ReclaimShrink(s, owner, true);
    ReclaimMapSlot(s, owner, i);
    if Occupied(s.maps, i) {
      assert ValidGrants(s.maps.slots[i].value.grants);
      RevokeEffect(s.maps.slots[i].value.grants, owner);
    }
    hide Inv, Reclaim, MapsShrink;
  }

  lemma ReclaimKeepsOthers(s: State, owner: nat)
    requires Inv(s) && Reclaim(s, owner, true).reply == Reclaimed(true)
    ensures OthersKept(s, Reclaim(s, owner, true).state, owner)
  {
    var s' := Reclaim(s, owner, true).state;
    assert WellFormed(s);
    ReclaimFrame(s, owner);
    hide Inv, Reclaim, ReclaimPrograms;
    forall p | Live(s.programs, p) && Entry(s.programs, p).owner != owner
      ensures Live(s'.programs, p) && Entry(s'.programs, p) == Entry(s.programs, p)
    {
      ReclaimProgramSlot(s, owner, Slot(p));
    }
    forall h: nat
      ensures Attached(s'.attachments, h) == Unowned(s.programs, owner, Attached(s.attachments, h))
    {
      UnownedAttached(s, owner, h);
    }
    forall m | Live(s.maps, m) && !ChargedTo(Some(Entry(s.maps, m)), owner) && !Orphan(Entry(s.maps, m))
      ensures Live(s'.maps, m)
              && Entry(s'.maps, m) == Entry(s.maps, m).(grants := Revoke(Entry(s.maps, m).grants, owner))
    {
      ReclaimMapSlot(s, owner, Slot(m));
    }
  }

  lemma ReclaimHoldsOrphans(s: State, owner: nat)
    requires Inv(s) && Reclaim(s, owner, true).reply == Reclaimed(true)
    ensures Inv(Reclaim(s, owner, true).state) && OrphansHeld(Reclaim(s, owner, true).state)
  {
    ReclaimProgramsInv(s, owner);
    ReleaseMapsInv(ReclaimPrograms(s, owner), owner);
    SweepHolds(ReleaseMaps(ReclaimPrograms(s, owner), owner));
    hide Inv, ReclaimPrograms, ReleaseMaps, Sweep, OrphansHeld;
  }

  /** A completed owner exit forgets the owner, keeps everyone else's objects and leaves no unheld orphan. */
  lemma ReclaimComplete(s: State, owner: nat)
    requires Inv(s) && !exists i :: ClonedInFlight(s, owner, i)
    ensures Reclaim(s, owner, true).reply == Reclaimed(true)
    ensures var s' := Reclaim(s, owner, true).state;
            Inv(s') && Forgotten(s', owner) && OthersKept(s, s', owner) && OrphansHeld(s')
  {
    hide Inv, Forgotten, OthersKept, OrphansHeld, Reclaim;
    InvWellFormed(s);
    ReclaimCompletesIff(s, owner, true);
    ReclaimForgets(s, owner);
    ReclaimKeepsOthers(s, owner);
    ReclaimHoldsOrphans(s, owner);
  }
}
