/** The quota checks are exact: they refuse an object only when some cap would be exceeded with it. */
module BpfQuota {
  import opened Common
  import opened Handles
  import opened BpfState
  import opened BpfInvariants
  import opened BpfPreservation

  lemma ProgramOwnerPart(slots: seq<Option<ProgramEntry>>, owner: nat)
    ensures ProgramTotal(slots, OwnerObjects(owner)) <= ProgramTotal(slots, Objects)
    ensures ProgramTotal(slots, OwnerBytes(owner)) <= ProgramTotal(slots, Bytes)
  {
    SumMonotone(ProgramWeights(slots, OwnerObjects(owner)), ProgramWeights(slots, Objects));
    SumMonotone(ProgramWeights(slots, OwnerBytes(owner)), ProgramWeights(slots, Bytes));
  }

  lemma MapOwnerPart(slots: seq<Option<MapEntry>>, owner: nat)
    ensures MapTotal(slots, OwnerObjects(owner)) <= MapTotal(slots, Objects)
    ensures MapTotal(slots, OwnerBytes(owner)) <= MapTotal(slots, Bytes)
  {
    SumMonotone(MapWeights(slots, OwnerObjects(owner)), MapWeights(slots, Objects));
    SumMonotone(MapWeights(slots, OwnerBytes(owner)), MapWeights(slots, Bytes));
  }

  /** When the table has a slot, a program passes exactly when its size is allowed and every cap still holds. */
  lemma ProgramQuotaExact(s: State, entry: ProgramEntry, slotMemory: bool, genMemory: bool)
    requires WellFormed(s) && ValidLimits(s.config.limits) && ProgramAccounting(s)
    requires Insert(s.programs, s.config.limits.maxProgramSlots, entry, slotMemory, genMemory).Inserted?
    ensures var t := Insert(s.programs, s.config.limits.maxProgramSlots, entry, slotMemory, genMemory).table;
            ProgramQuota(s, entry.owner, entry.charge) <==>
              && entry.charge <= s.config.limits.maxSingleProgramBytes
              && ProgramCounts(s.config.limits, t.slots, s.livePrograms + 1, s.programBytes + entry.charge)
  {
    hide ProgramTotal;
    var t := Insert(s.programs, s.config.limits.maxProgramSlots, entry, slotMemory, genMemory).table;
    ProgramOwnerPart(s.programs.slots, entry.owner);
    forall m: Measure
      ensures ProgramTotal(t.slots, m) == ProgramTotal(s.programs.slots, m) + Weigh(m, entry.owner, entry.charge)
    {
      InsertProgramTotal(s.programs, s.config.limits.maxProgramSlots, entry, slotMemory, genMemory, m);
    }
    var o := entry.owner;
    assert ProgramTotal(t.slots, OwnerObjects(o)) == ProgramTotal(s.programs.slots, OwnerObjects(o)) + 1;
    assert ProgramTotal(t.slots, OwnerBytes(o)) == ProgramTotal(s.programs.slots, OwnerBytes(o)) + entry.charge;
  }

  /** Likewise for a charged map of a caller. */
  lemma MapQuotaExact(s: State, entry: MapEntry, slotMemory: bool, genMemory: bool)
    requires WellFormed(s) && ValidLimits(s.config.limits) && MapAccounting(s)
    requires entry.charge > 0 && entry.owner != PINNED_MAP_OWNER
    requires Insert(s.maps, s.config.limits.maxMapSlots, entry, slotMemory, genMemory).Inserted?
    ensures var t := Insert(s.maps, s.config.limits.maxMapSlots, entry, slotMemory, genMemory).table;
            MapQuota(s, entry.owner, entry.charge) <==>
              && entry.charge <= s.config.limits.maxSingleMapBytes
              && MapCounts(s.config.limits, t.slots, s.liveMaps + 1, s.mapBytes + entry.charge)
  {
    hide MapTotal;
    var t := Insert(s.maps, s.config.limits.maxMapSlots, entry, slotMemory, genMemory).table;
    MapOwnerPart(s.maps.slots, entry.owner);
    forall m: Measure
      ensures MapTotal(t.slots, m) == MapTotal(s.maps.slots, m) + Weigh(m, entry.owner, entry.charge)
    {
      InsertMapTotal(s.maps, s.config.limits.maxMapSlots, entry, slotMemory, genMemory, m);
    }
    var o := entry.owner;
    assert MapTotal(t.slots, OwnerObjects(o)) == MapTotal(s.maps.slots, OwnerObjects(o)) + 1;
    assert MapTotal(t.slots, OwnerBytes(o)) == MapTotal(s.maps.slots, OwnerBytes(o)) + entry.charge;
  }
}
