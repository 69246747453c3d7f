/**
 The frame table and the reference counts together (`PhysicalMemory` of kernel/src/mem/phys.rs): what boot leaves is
 a state the reference-count machine starts from, and every locked section of the facade is one of its steps.
 */
module FrameLife {
  import opened Common
  import opened PhysBoot
  import opened PhysHandoff
  import opened FrameTable
  import opened FrameRefs

  // ------------------------------------------------------------------------ the two views

  /** Every frame of the table, by address. */
  function Addresses(mem: seq<FrameRegion>): set<nat> {
    set i, k | 0 <= i < |mem| && 0 <= k < |mem[i].frames| :: Address(mem[i], k)
  }

  ghost predicate CountShape(mem: seq<FrameRegion>, refs: seq<CountRegion>) {
    && |refs| == |mem|
    && forall i :: 0 <= i < |mem| ==> refs[i].base == mem[i].base && |refs[i].counts| == |mem[i].frames|
  }

  ghost predicate NoUnusable(mem: seq<FrameRegion>) {
    forall i, k :: 0 <= i < |mem| && 0 <= k < |mem[i].frames| ==> mem[i].frames[k] != Unusable
  }

  /** The table's free frames and the count vectors are the machine's. */
  ghost predicate Represents(regions: seq<Region>, mem: seq<FrameRegion>, refs: seq<CountRegion>, m: Frames) {
    && BootMap(regions) && Shape(mem, regions) && CountShape(mem, refs) && NoUnusable(mem)
    && m.counts.Keys == Addresses(mem)
    && (forall a :: a in m.counts ==> CountAt(refs, a) == Some(m.counts[a]))
    && (forall a: nat :: a in m.free <==> FreeAt(mem, a))
  }

  // ------------------------------------------------------------------- where a frame is kept

  lemma IndexOfAddress(base: nat, k: nat)
    ensures (base + k * FRAME - base) / FRAME == k
  {
  }

  lemma BeyondRegion(base: nat, n: nat, a: nat)
    requires base <= a && (a - base) / FRAME < n
    ensures a < base + n * FRAME
  {
  }

  /** Only one region of the map has a frame's address. */
  lemma OnlyRegion(regions: seq<Region>, mem: seq<FrameRegion>, i: nat, k: nat, j: nat)
    requires BootMap(regions) && Shape(mem, regions) && i < |mem| && k < |mem[i].frames| && j < |mem|
    requires mem[j].base <= Address(mem[i], k) && (Address(mem[i], k) - mem[j].base) / FRAME < |mem[j].frames|
    ensures j == i
  {
    BeyondRegion(mem[j].base, |mem[j].frames|, Address(mem[i], k));
    assert Inside(regions[i], Address(mem[i], k)) && Inside(regions[j], Address(mem[i], k));
  }

  lemma TableLocated(regions: seq<Region>, mem: seq<FrameRegion>, i: nat, k: nat)
    requires BootMap(regions) && Shape(mem, regions) && i < |mem| && k < |mem[i].frames|
    ensures LocationOf(mem, Address(mem[i], k)) == Some((i, k))
  {
    hide BootMap, Shape;
    var a := Address(mem[i], k);
    IndexOfAddress(mem[i].base, k);
    assert FrameIndex(mem[i], a) == Some(k);
    var r := FirstHolding(mem, a, 0);
    assert r < |mem|;
    OnlyRegion(regions, mem, i, k, r);
  }

  lemma CountLocated(regions: seq<Region>, mem: seq<FrameRegion>, refs: seq<CountRegion>, i: nat, k: nat)
    requires BootMap(regions) && Shape(mem, regions) && CountShape(mem, refs) && i < |mem| && k < |mem[i].frames|
    ensures FirstRegion(refs, Address(mem[i], k), 0) == i && CountIndex(refs[i], Address(mem[i], k)) == Some(k)
    ensures CountAt(refs, Address(mem[i], k)) == Some(refs[i].counts[k])
  {
    hide BootMap, Shape;
    var a := Address(mem[i], k);
    IndexOfAddress(mem[i].base, k);
    assert CountIndex(refs[i], a) == Some(k);
    var r := FirstRegion(refs, a, 0);
    assert r < |refs|;
    OnlyRegion(regions, mem, i, k, r);
  }

  /** The table position of a tracked frame. */
  lemma Position(mem: seq<FrameRegion>, a: nat) returns (i: nat, k: nat)
    requires a in Addresses(mem)
    ensures i < |mem| && k < |mem[i].frames| && Address(mem[i], k) == a
  {
    i, k :| 0 <= i < |mem| && 0 <= k < |mem[i].frames| && Address(mem[i], k) == a;
  }

  lemma FreeTracked(mem: seq<FrameRegion>, a: nat)
    ensures FreeAt(mem, a) ==> a in Addresses(mem)
  {
  }

  // ------------------------------------------------------------------------------- boot

  /** What boot's table and counts say, frame by frame: every frame that is not free is held once. */
  ghost function FramesOf(mem: seq<FrameRegion>, refs: seq<CountRegion>): Frames {
    var counts := map a | a in Addresses(mem) :: match CountAt(refs, a) case Some(c) => c case None => 0;
    Frames((set a | a in Addresses(mem) && FreeAt(mem, a)), counts, counts, {}, {})
  }

  /** Boot hands the facade a state the reference-count machine starts from. */
  lemma BootStarts(regions: seq<Region>, reserved: seq<Region>, next: nat, mem: seq<FrameRegion>,
                   refs: seq<CountRegion>)
    requires BootMap(regions) && HandedOff(mem, regions, reserved, next) && CountsMatch(mem, refs)
    ensures Represents(regions, mem, refs, FramesOf(mem, refs)) && Booted(FramesOf(mem, refs))
  {
    hide UsableFrames, Taken, BootMap, CountAt, Addresses;
    var m := FramesOf(mem, refs);
    forall a | a in m.counts
      ensures CountAt(refs, a) == Some(m.counts[a]) && m.counts[a] <= 1 && (m.counts[a] == 0 <==> FreeAt(mem, a))
    {
      var i, k := Position(mem, a);
      CountLocated(regions, mem, refs, i, k);
      FreeExactly(regions, mem, i, k);
    }
    forall a: nat
      ensures a in m.free <==> FreeAt(mem, a)
    {
      FreeTracked(mem, a);
    }
  }

  lemma FreeExactly(regions: seq<Region>, mem: seq<FrameRegion>, i: nat, k: nat)
    requires BootMap(regions) && Shape(mem, regions) && i < |mem| && k < |mem[i].frames|
    ensures FreeAt(mem, Address(mem[i], k)) <==> mem[i].frames[k] == Free
  {
    hide BootMap, Shape;
    if FreeAt(mem, Address(mem[i], k)) {
      var j, l :| 0 <= j < |mem| && 0 <= l < |mem[j].frames| && Address(mem[j], l) == Address(mem[i], k)
                  && mem[j].frames[l] == Free;
      AddressUnique(mem, regions, i, k, j, l);
    }
  }

  // -------------------------------------------------------------------------- locked sections

  /** One table entry changed state. */
  ghost predicate EntrySet(mem: seq<FrameRegion>, mem': seq<FrameRegion>, r: nat, i: nat, state: FrameState) {
    && |mem'| == |mem|
    && (forall j :: 0 <= j < |mem| ==> mem'[j].base == mem[j].base && |mem'[j].frames| == |mem[j].frames|)
    && (forall j, k :: 0 <= j < |mem| && 0 <= k < |mem[j].frames| ==>
          mem'[j].frames[k] == if j == r && k == i then state else mem[j].frames[k])
  }

  /** Changing one entry changes the free set by that frame and nothing else. */
  lemma EntryFree(regions: seq<Region>, mem: seq<FrameRegion>, mem': seq<FrameRegion>, r: nat, i: nat,
                  state: FrameState, a: nat)
    requires BootMap(regions) && Shape(mem, regions) && InTable(mem, r, i) && EntrySet(mem, mem', r, i, state)
    ensures Shape(mem', regions)
    ensures FreeAt(mem', a) <==> if a == Address(mem[r], i) then state == Free else FreeAt(mem, a)
  {
    hide BootMap;
    assert Shape(mem', regions);
    if a == Address(mem[r], i) {
      FreeExactly(regions, mem', r, i);
      assert Address(mem'[r], i) == a;
    } else {
      if FreeAt(mem', a) {
        var j, l :| 0 <= j < |mem'| && 0 <= l < |mem'[j].frames| && Address(mem'[j], l) == a
                    && mem'[j].frames[l] == Free;
        assert Address(mem[j], l) == a && mem[j].frames[l] == Free;
      }
      if FreeAt(mem, a) {
        var j, l :| 0 <= j < |mem| && 0 <= l < |mem[j].frames| && Address(mem[j], l) == a && mem[j].frames[l] == Free;
        assert Address(mem'[j], l) == a && mem'[j].frames[l] == Free;
      }
    }
  }

  lemma SameAddresses(mem: seq<FrameRegion>, mem': seq<FrameRegion>)
    requires |mem'| == |mem|
    requires forall j :: 0 <= j < |mem| ==> mem'[j].base == mem[j].base && |mem'[j].frames| == |mem[j].frames|
    ensures Addresses(mem') == Addresses(mem)
  {
    forall a | a in Addresses(mem)
      ensures a in Addresses(mem')
    {
      var i, k := Position(mem, a);
      assert Address(mem'[i], k) == a;
    }
    forall a | a in Addresses(mem')
      ensures a in Addresses(mem)
    {
      var i, k := Position(mem', a);
      assert Address(mem[i], k) == a;
    }
  }

  /** The table's part of a step: the machine's free set gains or loses one frame. */
  lemma TableStep(regions: seq<Region>, mem: seq<FrameRegion>, mem': seq<FrameRegion>, refs: seq<CountRegion>,
                  m: Frames, m': Frames, r: nat, i: nat, state: FrameState)
    requires Represents(regions, mem, refs, m) && InTable(mem, r, i) && EntrySet(mem, mem', r, i, state)
             && state != Unusable
    requires m'.counts == m.counts
    requires m'.free == if state == Free then m.free + {Address(mem[r], i)} else m.free - {Address(mem[r], i)}
    ensures Represents(regions, mem', refs, m')
  {
    hide BootMap, FreeAt, CountAt, Addresses;
    SameAddresses(mem, mem');
    forall a: nat
      ensures a in m'.free <==> FreeAt(mem', a)
      ensures Shape(mem', regions)
    {
      EntryFree(regions, mem, mem', r, i, state, a);
    }
  }

  lemma FilledEntry(mem: seq<FrameRegion>, r: nat, i: nat)
    requires RunAt(mem, r, i, 1)
    ensures EntrySet(mem, Filled(mem, r, i, 1), r, i, Allocated)
  {
  }

  lemma FreedEntry(mem: seq<FrameRegion>, r: nat, i: nat)
    requires InTable(mem, r, i)
    ensures EntrySet(mem, Freed(mem, r, i), r, i, Free)
  {
  }

  /** The allocator's section of an allocation is `TakeFrame`. */
  lemma TakeStep(regions: seq<Region>, mem: seq<FrameRegion>, refs: seq<CountRegion>, m: Frames, r: nat, i: nat)
    requires Represents(regions, mem, refs, m) && FrameRefs.Inv(m) && RunAt(mem, r, i, 1)
    ensures var f := Address(mem[r], i);
            f in m.free && Represents(regions, Filled(mem, r, i, 1), refs, Next(m, TakeFrame(f)))
  {
    hide BootMap, CountAt, Addresses;
    assert mem[r].frames[i] == Free;
    assert FreeAt(mem, Address(mem[r], i));
    FilledEntry(mem, r, i);
    TableStep(regions, mem, Filled(mem, r, i, 1), refs, m, Next(m, TakeFrame(Address(mem[r], i))), r, i, Allocated);
  }

  /** The allocator's section of a release is `Return`, and the table accepts the frame. */
  lemma ReturnStep(regions: seq<Region>, mem: seq<FrameRegion>, refs: seq<CountRegion>, m: Frames, f: nat)
    requires Represents(regions, mem, refs, m) && FrameRefs.Inv(m) && f in m.freeing
    ensures AllocatedAt(mem, LocationOf(mem, f))
    ensures var (r, i) := LocationOf(mem, f).value; Represents(regions, Freed(mem, r, i), refs, Next(m, Return(f)))
  {
    hide BootMap, CountAt, Addresses, LocationOf;
    var r, i := Position(mem, f);
    TableLocated(regions, mem, r, i);
    FreeExactly(regions, mem, r, i);
    FreedEntry(mem, r, i);
    TableStep(regions, mem, Freed(mem, r, i), refs, m, Next(m, Return(f)), r, i, Free);
  }

  /** Different tracked frames have different counts. */
  lemma DifferentFrames(regions: seq<Region>, mem: seq<FrameRegion>, refs: seq<CountRegion>, f: nat, a: nat)
    requires BootMap(regions) && Shape(mem, regions) && CountShape(mem, refs)
    requires f in Addresses(mem) && a in Addresses(mem) && f != a
    ensures !SameFrame(refs, f, a)
  {
    hide BootMap, Shape, FirstRegion, CountIndex;
    var i, k := Position(mem, f);
    var j, l := Position(mem, a);
    CountLocated(regions, mem, refs, i, k);
    CountLocated(regions, mem, refs, j, l);
  }

  /** The counts' part of a step: the machine's count of one frame changes. */
  lemma CountStep(regions: seq<Region>, mem: seq<FrameRegion>, refs: seq<CountRegion>, refs': seq<CountRegion>,
                  m: Frames, m': Frames, f: nat, v: nat)
    requires Represents(regions, mem, refs, m) && f in m.counts && CountSet(refs, refs', f, v)
    requires m'.free == m.free && m'.counts == m.counts[f := v]
    ensures Represents(regions, mem, refs', m')
  {
    hide BootMap, FreeAt, CountAt, Addresses, SameFrame;
    assert m'.counts.Keys == m.counts.Keys;
    forall a | a in m'.counts
      ensures CountAt(refs', a) == Some(m'.counts[a])
    {
      if a != f {
        DifferentFrames(regions, mem, refs, f, a);
      }
    }
  }

  lemma CountAtTracked(regions: seq<Region>, mem: seq<FrameRegion>, refs: seq<CountRegion>, m: Frames, f: nat)
    requires Represents(regions, mem, refs, m) && f % FRAME == 0
    ensures f in m.counts <==> CountAt(refs, f).Some?
    ensures f in m.counts <==> LocationOf(mem, f).Some?
  {
    hide BootMap, FreeAt, Addresses;
    if f !in m.counts {
      NotTracked(regions, mem, refs, f);
    } else {
      var i, k := Position(mem, f);
      TableLocated(regions, mem, i, k);
    }
  }

  lemma NotTracked(regions: seq<Region>, mem: seq<FrameRegion>, refs: seq<CountRegion>, f: nat)
    requires BootMap(regions) && Shape(mem, regions) && CountShape(mem, refs) && f % FRAME == 0 && f !in Addresses(mem)
    ensures CountAt(refs, f).None? && LocationOf(mem, f).None?
  {
    forall i: nat | i < |mem|
      ensures FrameIndex(mem[i], f).None?
    {
      FrameIndexExact(mem[i], f);
    }
    forall i: nat | i < |refs|
      ensures CountIndex(refs[i], f).None?
    {
      assert CountIndex(refs[i], f) == FrameIndex(mem[i], f);
    }
  }

  // ----------------------------------------------------------------------------- the facade

  /** `PhysicalMemory` after boot. Each method takes the two locks one after the other; no call is half done here. */
  class PhysicalMemory {
    const allocator: FrameAllocator
    const refs: FrameRefCounts
    ghost const bootMap: seq<Region>
    ghost var frames: Frames

    ghost predicate Valid()
      reads this, allocator, refs
    {
      && allocator.Valid() && Represents(bootMap, allocator.regions, refs.regions, frames)
      && FrameRefs.Inv(frames) && frames.allocating == {} && frames.freeing == {}
    }

    /** The machine starts where boot ends. */
    constructor (ghost regions: seq<Region>, ghost reserved: seq<Region>, ghost next: nat, mem: seq<FrameRegion>,
                 counts: seq<CountRegion>)
      requires BootMap(regions) && HandedOff(mem, regions, reserved, next) && CountsMatch(mem, counts)
      ensures Valid() && fresh(allocator) && fresh(refs)
      ensures Booted(frames) && frames == FramesOf(mem, counts)
    {
      allocator := new FrameAllocator(mem);
      refs := new FrameRefCounts(counts);
      bootMap := regions;
      frames := FramesOf(mem, counts);
      new;
      BootStarts(regions, reserved, next, mem, counts);
      BootInv(frames);
    }

    /** `allocate_frame`: some free frame, held once afterwards; it fails exactly when none is free. */
    method AllocateFrame() returns (frame: Option<nat>)
      requires Valid()
      modifies this, allocator, refs
      ensures Valid()
      ensures frame.None? <==> old(frames).free == {}
      ensures frame.None? ==> frames == old(frames)
      ensures frame.Some? ==>
                && frame.value in old(frames).free
                && frames == Next(Next(old(frames), TakeFrame(frame.value)), FrameRefs.Step.SetAllocated(frame.value))
    {
      hide Represents;
      var found := allocator.AllocateFrames(1);
      if found.None? {
        if frames.free != {} {
          SomeFree(bootMap, allocator.regions, refs.regions, frames);
        }
        return None;
      }
      var (r, i) := found.value;
      ghost var before := old(allocator.regions);
      var f := Address(allocator.regions[r], i);
      TakeStep(bootMap, before, refs.regions, frames, r, i);
      StepInv(frames, TakeFrame(f));
      frames := Next(frames, TakeFrame(f));
      SetCount(f);
      return Some(f);
    }

    /** The second section of an allocation. */
    method SetCount(f: nat)
      requires Represents(bootMap, allocator.regions, refs.regions, frames) && FrameRefs.Inv(frames)
               && f in frames.allocating
      modifies this, refs
      ensures Represents(bootMap, allocator.regions, refs.regions, frames) && FrameRefs.Inv(frames)
      ensures frames == Next(old(frames), FrameRefs.Step.SetAllocated(f))
    {
      hide Represents, CountSet, CountAt, FrameRefs.FrameOk;
      ghost var counts := refs.regions;
      TrackedCount(bootMap, allocator.regions, counts, frames, f);
      refs.SetAllocated(f);
      ghost var after := Next(frames, FrameRefs.Step.SetAllocated(f));
      CountStep(bootMap, allocator.regions, counts, refs.regions, frames, after, f, 1);
      StepInv(frames, FrameRefs.Step.SetAllocated(f));
      frames := after;
    }

    /**
     `retain_frame`; it panics on an unknown frame. The memory stays consistent exactly when somebody already holds the
     frame or its count is saturated: a retain by nobody counts a reference to a frame the table still calls free.
     */
    method RetainFrame(f: nat) returns (count: nat)
      requires Valid() && f in frames.counts
      modifies this, refs
      ensures CountSet(old(refs.regions), refs.regions, f, count) && count == RetainCount(old(frames.counts[f]))
      ensures frames == Next(old(frames), FrameRefs.Step.Retain(f))
      ensures Valid() <==> old(frames.held[f]) > 0 || Immortal(old(frames), f)
    {
      hide Represents, CountSet, CountAt;
      ghost var counts := refs.regions;
      TrackedCount(bootMap, allocator.regions, counts, frames, f);
      RetainedCount(frames, f);
      count := refs.Retain(f);
      ghost var after := Next(frames, FrameRefs.Step.Retain(f));
      StepInv(frames, FrameRefs.Step.Retain(f));
      if frames.held[f] > 0 || Immortal(frames, f) {
        CountStep(bootMap, allocator.regions, counts, refs.regions, frames, after, f, count);
      } else {
        Miscounted(bootMap, allocator.regions, counts, refs.regions, after, f, count);
      }
      frames := after;
    }

    /** The first section of a release, whoever calls it. */
    method ReleaseOne(f: nat) returns (remaining: nat)
      requires Valid() && f % FRAME == 0
      modifies this, refs
      ensures Represents(bootMap, allocator.regions, refs.regions, frames) && FrameRefs.Inv(frames)
      ensures frames == Next(old(frames), FrameRefs.Step.Release(f))
      ensures remaining == if f in frames.counts then frames.counts[f] else 0
    {
      ghost var counts := refs.regions;
      CountAtTracked(bootMap, allocator.regions, counts, frames, f);
      ReleasedCount(frames, f);
      ghost var after := Next(frames, FrameRefs.Step.Release(f));
      StepInv(frames, FrameRefs.Step.Release(f));
      var answer := refs.Release(f);
      if answer.Some? {
        CountStep(bootMap, allocator.regions, counts, refs.regions, frames, after, f, answer.value);
      }
      frames := after;
      return if answer.Some? then answer.value else 0;
    }

    /** The second section, reached when the answer was zero. */
    method ReturnOne(f: nat)
      requires Represents(bootMap, allocator.regions, refs.regions, frames) && FrameRefs.Inv(frames)
               && allocator.Valid()
      requires f % FRAME == 0 && frames.allocating == {} && (f in frames.counts ==> frames.counts[f] == 0)
      modifies this, allocator
      ensures Represents(bootMap, allocator.regions, refs.regions, frames) && FrameRefs.Inv(frames) && allocator.Valid()
      ensures frames == Next(old(frames), Return(f))
    {
      hide Represents, LocationOf, Freed;
      if f in frames.freeing {
        ReturnStep(bootMap, allocator.regions, refs.regions, frames, f);
      } else {
        StrayRefused(bootMap, allocator.regions, refs.regions, frames, f);
      }
      StepInv(frames, Return(f));
      var ok := allocator.DeallocateFrame(f);
      frames := Next(frames, Return(f));
    }

    /**
     `deallocate_frame`: a release, and the hand-back when it was the last one. A release of a frame nobody holds, or
     of one the table does not know, changes nothing.
     */
    method DeallocateFrame(f: nat)
      requires Valid() && f % FRAME == 0
      modifies this, allocator, refs
      ensures Valid()
      ensures frames == Next(Next(old(frames), FrameRefs.Step.Release(f)), Return(f))
      ensures f in frames.free <==>
                f in old(frames).free
                || (f in old(frames).held && old(frames).held[f] == 1 && !Immortal(old(frames), f))
    {
      hide Represents;
      HandBackExact(frames, f);
      var remaining := ReleaseOne(f);
      if remaining == 0 {
        ReturnOne(f);
      }
    }
  }

  /** What a retain makes of the counts, by a holder and by nobody. */
  lemma RetainedCount(m: Frames, f: nat)
    requires FrameRefs.Inv(m) && f in m.counts
    ensures var m' := Next(m, FrameRefs.Step.Retain(f));
            && f in m.held && m'.free == m.free && m'.allocating == m.allocating && m'.freeing == m.freeing
            && f in m'.counts
            && (m.held[f] > 0 || Immortal(m, f) ==> m'.counts == m.counts[f := RetainCount(m.counts[f])])
            && (m.held[f] == 0 && !Immortal(m, f) ==> m'.counts[f] != RetainCount(m.counts[f]))
  {
    assert FrameRefs.FrameOk(m, f);
  }

  lemma Miscounted(regions: seq<Region>, mem: seq<FrameRegion>, refs: seq<CountRegion>, refs': seq<CountRegion>,
                   m: Frames,
                   f: nat, v: nat)
    requires CountSet(refs, refs', f, v) && f in m.counts && m.counts[f] != v
    ensures !Represents(regions, mem, refs', m)
  {
    hide CountAt;
  }

  lemma SomeFree(regions: seq<Region>, mem: seq<FrameRegion>, refs: seq<CountRegion>, m: Frames)
    requires Represents(regions, mem, refs, m) && m.free != {}
    ensures exists r, i :: RunAt(mem, r, i, 1)
  {
    hide BootMap, CountAt, Addresses;
    var a :| a in m.free;
    var i, k :| 0 <= i < |mem| && 0 <= k < |mem[i].frames| && Address(mem[i], k) == a && mem[i].frames[k] == Free;
    assert RunAt(mem, i, k, 1);
  }

  lemma TrackedCount(regions: seq<Region>, mem: seq<FrameRegion>, refs: seq<CountRegion>, m: Frames, f: nat)
    requires Represents(regions, mem, refs, m) && f in m.counts
    ensures CountAt(refs, f) == Some(m.counts[f])
  {
    hide CountAt;
  }

  /** A release changes one count, by the rule of `release`, whether or not its caller holds the frame. */
  lemma ReleasedCount(m: Frames, f: nat)
    requires FrameRefs.Inv(m)
    ensures var m' := Next(m, FrameRefs.Step.Release(f));
            && m'.free == m.free
            && (if f in m.counts then m'.counts == m.counts[f := ReleaseCount(m.counts[f])] else m' == m)
  {
    if f in m.counts {
      assert FrameRefs.FrameOk(m, f);
    }
  }

  /** The table refuses a frame that is not on its way back. */
  lemma StrayRefused(regions: seq<Region>, mem: seq<FrameRegion>, refs: seq<CountRegion>, m: Frames, f: nat)
    requires Represents(regions, mem, refs, m) && FrameRefs.Inv(m) && f % FRAME == 0 && f !in m.freeing
             && m.allocating == {}
    requires f in m.counts ==> m.counts[f] == 0
    ensures !AllocatedAt(mem, LocationOf(mem, f))
  {
    hide BootMap, Addresses, CountAt, LocationOf;
    CountAtTracked(regions, mem, refs, m, f);
    if f in m.counts {
      assert FrameRefs.FrameOk(m, f);
      var i, k := Position(mem, f);
      TableLocated(regions, mem, i, k);
      FreeExactly(regions, mem, i, k);
    }
  }

  /** When a whole release leaves the frame free. */
  lemma HandBackExact(m: Frames, f: nat)
    requires FrameRefs.Inv(m) && m.allocating == {} && m.freeing == {}
    ensures var m' := Next(Next(m, FrameRefs.Step.Release(f)), Return(f));
            && m'.allocating == {} && m'.freeing == {}
            && (f in m'.free <==> f in m.free || (f in m.held && m.held[f] == 1 && !Immortal(m, f)))
            && (f in Next(m, FrameRefs.Step.Release(f)).freeing ==>
                  f in Next(m, FrameRefs.Step.Release(f)).counts && Next(m, FrameRefs.Step.Release(f)).counts[f] == 0)
  {
    if f in m.counts {
      assert FrameRefs.FrameOk(m, f);
    }
  }

  // ------------------------------------------------------------------------ every interleaving

  /** The table, the count vectors, and who holds what and stands where. */
  datatype World = World(mem: seq<FrameRegion>, refs: seq<CountRegion>, frames: Frames)

  /**
   One locked section on the vectors themselves: the allocator hands out some free frame of the table, or frees the one
   it is given if it is allocated; the counts are set, raised or lowered. Callers retain and release what they hold.
   */
  ghost predicate Locked(w: World, w': World, step: FrameRefs.Step) {
    var f := step.frame;
    && w'.frames == Next(w.frames, step)
    && match step
       case TakeFrame(_) =>
         w'.refs == w.refs && exists r, i :: TakenAt(w.mem, w'.mem, r, i, f)
       case SetAllocated(_) =>
         f in w.frames.allocating && w'.mem == w.mem && CountSet(w.refs, w'.refs, f, 1)
       case Retain(_) =>
         && f in w.frames.held && w.frames.held[f] > 0 && w'.mem == w.mem
         && CountAt(w.refs, f).Some? && CountSet(w.refs, w'.refs, f, RetainCount(CountAt(w.refs, f).value))
       case Release(_) =>
         && f in w.frames.held && w.frames.held[f] > 0 && w'.mem == w.mem
         && CountAt(w.refs, f).Some? && CountSet(w.refs, w'.refs, f, ReleaseCount(CountAt(w.refs, f).value))
       case Return(_) =>
         f in w.frames.freeing && w'.refs == w.refs && w'.mem == AfterFree(w.mem, LocationOf(w.mem, f))
  }

  ghost predicate TakenAt(mem: seq<FrameRegion>, mem': seq<FrameRegion>, r: nat, i: nat, f: nat) {
    RunAt(mem, r, i, 1) && Address(mem[r], i) == f && mem' == Filled(mem, r, i, 1)
  }

  function AfterFree(mem: seq<FrameRegion>, loc: Option<(nat, nat)>): seq<FrameRegion> {
    if AllocatedAt(mem, loc) then Freed(mem, loc.value.0, loc.value.1) else mem
  }

  /** The vectors and the machine agree. */
  ghost predicate Agrees(regions: seq<Region>, w: World) {
    Represents(regions, w.mem, w.refs, w.frames) && FrameRefs.Inv(w.frames)
  }

  lemma TableSection(regions: seq<Region>, w: World, w': World, step: FrameRefs.Step)
    requires Agrees(regions, w) && Locked(w, w', step) && (step.TakeFrame? || step.Return?)
    ensures Agrees(regions, w')
    ensures step.Return? ==> AllocatedAt(w.mem, LocationOf(w.mem, step.frame))
  {
    hide Represents, LocationOf, Filled, FrameRefs.Inv, Next, Freed;
    StepInv(w.frames, step);
    if step.TakeFrame? {
      var r, i :| TakenAt(w.mem, w'.mem, r, i, step.frame);
      TakeStep(regions, w.mem, w.refs, w.frames, r, i);
    } else {
      ReturnStep(regions, w.mem, w.refs, w.frames, step.frame);
    }
  }

  lemma CountSection(regions: seq<Region>, w: World, w': World, step: FrameRefs.Step)
    requires Agrees(regions, w) && Locked(w, w', step) && !step.TakeFrame? && !step.Return?
    ensures Agrees(regions, w')
  {
    hide Represents, CountSet, CountAt, FrameRefs.FrameOk;
    var f := step.frame;
    StepInv(w.frames, step);
    TrackedCount(regions, w.mem, w.refs, w.frames, f);
    CountStep(regions, w.mem, w.refs, w'.refs, w.frames, w'.frames, f, w'.frames.counts[f]);
  }

  /** A run of locked sections of any callers, in any order. */
  ghost predicate Interleaving(worlds: seq<World>, steps: seq<FrameRefs.Step>) {
    |worlds| == |steps| + 1 && forall k :: 0 <= k < |steps| ==> Locked(worlds[k], worlds[k + 1], steps[k])
  }

  /**
   In every interleaving of locked sections the vectors agree with the machine, and the machine makes the same run.
   */
  lemma {:induction false} InterleavingAgrees(regions: seq<Region>, worlds: seq<World>, steps: seq<FrameRefs.Step>,
                                              k: nat)
    requires Interleaving(worlds, steps) && Agrees(regions, worlds[0]) && k <= |steps|
    ensures Agrees(regions, worlds[k]) && worlds[k].frames == FrameRefs.Run(worlds[0].frames, steps[..k])
  {
    hide Agrees, Next;
    if k > 0 {
      InterleavingAgrees(regions, worlds, steps, k - 1);
      assert Locked(worlds[k - 1], worlds[k], steps[k - 1]);
      assert steps[..k][..k - 1] == steps[..k - 1];
      if steps[k - 1].TakeFrame? || steps[k - 1].Return? {
        TableSection(regions, worlds[k - 1], worlds[k], steps[k - 1]);
      } else {
        CountSection(regions, worlds[k - 1], worlds[k], steps[k - 1]);
      }
    }
  }

  /**
   From boot on, in every interleaving: a frame the table hands out is held by nobody and counted zero, and the table
   accepts every frame whose last reference is gone.
   */
  lemma BootedHandout(regions: seq<Region>, reserved: seq<Region>, next: nat, worlds: seq<World>,
                      steps: seq<FrameRefs.Step>, k: nat)
    requires BootMap(regions) && Interleaving(worlds, steps) && k < |steps|
    requires var w := worlds[0];
             HandedOff(w.mem, regions, reserved, next) && CountsMatch(w.mem, w.refs)
             && w.frames == FramesOf(w.mem, w.refs)
    ensures var w, f := worlds[k], steps[k].frame;
            && (steps[k].TakeFrame? ==> f in w.frames.held && w.frames.held[f] == 0 && CountAt(w.refs, f) == Some(0))
            && (steps[k].Return? ==> AllocatedAt(w.mem, LocationOf(w.mem, f)))
  {
    hide HandedOff, CountsMatch, Represents, FramesOf, LocationOf, CountAt;
    var w, f := worlds[k], steps[k].frame;
    BootStarts(regions, reserved, next, worlds[0].mem, worlds[0].refs);
    BootInv(worlds[0].frames);
    InterleavingAgrees(regions, worlds, steps, k);
    assert Locked(w, worlds[k + 1], steps[k]);
    if steps[k].Return? {
      TableSection(regions, w, worlds[k + 1], steps[k]);
    } else if steps[k].TakeFrame? {
      var r, i :| TakenAt(w.mem, worlds[k + 1].mem, r, i, f);
      TakeStep(regions, w.mem, w.refs, w.frames, r, i);
      assert FrameRefs.FrameOk(w.frames, f);
      TrackedCount(regions, w.mem, w.refs, w.frames, f);
    }
  }
}
