/**
 Frame reference counts and the allocation facade (kernel/src/mem/phys.rs). The facade takes the
 allocator's lock and the counts' lock one after the other, so allocating and releasing are two steps
 each and other callers run between them.
 */
module FrameRefs {
  import opened Common
  import opened PhysBoot
  import opened PhysHandoff

  const IMMORTAL_FRAME_REFS: nat := U32_MAX

  function RetainCount(count: nat): nat {
    if count == IMMORTAL_FRAME_REFS then count else count + 1
  }

  /** What `release` leaves, which is also what it answers. */
  function ReleaseCount(count: nat): nat {
    if count == 0 then 0
    else if count == IMMORTAL_FRAME_REFS then IMMORTAL_FRAME_REFS
    else count - 1
  }

  // ---------------------------------------------------------------------- the count vectors

  /** `FrameRefCountRegion::frame_index`. */
  function CountIndex(r: CountRegion, addr: nat): Option<nat> {
    if addr < r.base then None
    else
      var index := (addr - r.base) / FRAME;
      if index < |r.counts| then Some(index) else None
  }

  /** The first region, from `i` on, that has the address. */
  function FirstRegion(regions: seq<CountRegion>, addr: nat, i: nat): (r: nat)
    requires i <= |regions|
    ensures i <= r <= |regions|
    ensures r < |regions| ==> CountIndex(regions[r], addr).Some?
    ensures forall j :: i <= j < r ==> CountIndex(regions[j], addr).None?
    decreases |regions| - i
  {
    if i == |regions| || CountIndex(regions[i], addr).Some? then i else FirstRegion(regions, addr, i + 1)
  }

  function CountAt(regions: seq<CountRegion>, addr: nat): Option<nat> {
    var r := FirstRegion(regions, addr, 0);
    if r < |regions| then Some(regions[r].counts[CountIndex(regions[r], addr).value]) else None
  }

  /** Two addresses in the same frame of the same region. */
  predicate SameFrame(regions: seq<CountRegion>, a: nat, b: nat) {
    var r := FirstRegion(regions, a, 0);
    r == FirstRegion(regions, b, 0) && (r < |regions| ==> CountIndex(regions[r], a) == CountIndex(regions[r], b))
  }

  /** One frame's count became `v`; no other frame's count moved. */
  ghost predicate CountSet(regions: seq<CountRegion>, regions': seq<CountRegion>, addr: nat, v: nat) {
    && SameShape(regions, regions') && CountAt(regions', addr) == Some(v)
    && forall a: nat :: !SameFrame(regions, addr, a) ==> CountAt(regions', a) == CountAt(regions, a)
  }

  ghost predicate SameShape(a: seq<CountRegion>, b: seq<CountRegion>) {
    |a| == |b| && forall i :: 0 <= i < |a| ==> a[i].base == b[i].base && |a[i].counts| == |b[i].counts|
  }

  /** Writing one frame's count changes that frame's answer and no other frame's. */
  lemma CountsElsewhere(regions: seq<CountRegion>, r: nat, k: nat, v: nat, addr: nat)
    requires r < |regions| && k < |regions[r].counts|
    ensures var regions' := regions[r := regions[r].(counts := regions[r].counts[k := v])];
            && SameShape(regions, regions')
            && FirstRegion(regions', addr, 0) == FirstRegion(regions, addr, 0)
            && CountAt(regions', addr) ==
               if FirstRegion(regions, addr, 0) == r && CountIndex(regions[r], addr) == Some(k) then Some(v)
               else CountAt(regions, addr)
  {
    var regions' := regions[r := regions[r].(counts := regions[r].counts[k := v])];
    assert forall j :: 0 <= j < |regions| ==> CountIndex(regions'[j], addr) == CountIndex(regions[j], addr);
  }

  class FrameRefCounts {
    var regions: seq<CountRegion>

    constructor (regions: seq<CountRegion>)
      ensures this.regions == regions
    {
      this.regions := regions;
    }

    /** `locate_mut`. */
    method Locate(addr: nat) returns (loc: Option<(nat, nat)>)
      ensures loc.Some? <==> FirstRegion(regions, addr, 0) < |regions|
      ensures loc.Some? ==>
                && loc.value.0 == FirstRegion(regions, addr, 0)
                && CountIndex(regions[loc.value.0], addr) == Some(loc.value.1)
    {
      var i := 0;
      while i < |regions|
        invariant i <= |regions| && FirstRegion(regions, addr, 0) == FirstRegion(regions, addr, i)
      {
        var index := CountIndex(regions[i], addr);
        if index.Some? {
          return Some((i, index.value));
        }
        i := i + 1;
      }
      return None;
    }

    method Store(loc: (nat, nat), v: nat, addr: nat)
      requires FirstRegion(regions, addr, 0) < |regions|
      requires loc.0 == FirstRegion(regions, addr, 0) && CountIndex(regions[loc.0], addr) == Some(loc.1)
      modifies this
      ensures CountSet(old(regions), regions, addr, v)
    {
      ghost var before := regions;
      regions := regions[loc.0 := regions[loc.0].(counts := regions[loc.0].counts[loc.1 := v])];
      CountsElsewhere(before, loc.0, loc.1, v, addr);
      forall a: nat | !SameFrame(before, addr, a)
        ensures CountAt(regions, a) == CountAt(before, a)
      {
        CountsElsewhere(before, loc.0, loc.1, v, a);
      }
    }

    /** `set_allocated`; it panics on an unknown frame. */
    method SetAllocated(addr: nat)
      requires CountAt(regions, addr).Some?
      modifies this
      ensures CountSet(old(regions), regions, addr, 1)
    {
      var loc := Locate(addr);
      Store(loc.value, 1, addr);
    }

    /** `retain`; it panics on an unknown frame. */
    method Retain(addr: nat) returns (count: nat)
      requires CountAt(regions, addr).Some?
      modifies this
      ensures count == RetainCount(old(CountAt(regions, addr)).value) && CountSet(old(regions), regions, addr, count)
    {
      var loc := Locate(addr);
      var (r, k) := loc.value;
      count := regions[r].counts[k];
      if count != IMMORTAL_FRAME_REFS {
        count := count + 1;
        Store(loc.value, count, addr);
      }
    }

    /** `release`; an unknown frame is `None`. */
    method Release(addr: nat) returns (remaining: Option<nat>)
      modifies this
      ensures remaining.Some? <==> old(CountAt(regions, addr)).Some?
      ensures remaining.None? ==> regions == old(regions)
      ensures remaining.Some? ==>
                && remaining.value == ReleaseCount(old(CountAt(regions, addr)).value)
                && CountSet(old(regions), regions, addr, remaining.value)
    {
      var loc := Locate(addr);
      if loc.None? {
        return None;
      }
      var (r, k) := loc.value;
      var count := regions[r].counts[k];
      if count == 0 {
        return Some(0);
      }
      if count == IMMORTAL_FRAME_REFS {
        return Some(IMMORTAL_FRAME_REFS);
      }
      Store(loc.value, count - 1, addr);
      return Some(count - 1);
    }
  }

  // --------------------------------------------------------------------------- the facade

  /**
   Tracked frames by address: the allocator's free set, the counts, how many references callers really
   hold, frames between allocation and their count, and frames between their last release and the
   allocator's `deallocate_frame`.
   */
  datatype Frames = Frames(free: set<nat>, counts: map<nat, nat>, held: map<nat, nat>, allocating: set<nat>,
                           freeing: set<nat>)

  datatype Step =
    | TakeFrame(frame: nat)
    | SetAllocated(frame: nat)
    | Retain(frame: nat)
    | Release(frame: nat)
    | Return(frame: nat)

  /** One step; callers retain and release only what they hold. A step that is not enabled changes nothing. */
  function Next(m: Frames, step: Step): Frames {
    var f := step.frame;
    if f !in m.counts || f !in m.held then m
    else
      match step
      case TakeFrame(_) => if f in m.free then m.(free := m.free - {f}, allocating := m.allocating + {f}) else m
      case SetAllocated(_) =>
        if f in m.allocating
        then m.(allocating := m.allocating - {f}, counts := m.counts[f := 1], held := m.held[f := 1]) else m
      case Retain(_) =>
        if m.held[f] > 0
        then m.(counts := m.counts[f := RetainCount(m.counts[f])], held := m.held[f := m.held[f] + 1]) else m
      case Release(_) =>
        if m.held[f] > 0
        then m.(counts := m.counts[f := ReleaseCount(m.counts[f])], held := m.held[f := m.held[f] - 1],
                freeing := if ReleaseCount(m.counts[f]) == 0 then m.freeing + {f} else m.freeing) else m
      case Return(_) => if f in m.freeing then m.(freeing := m.freeing - {f}, free := m.free + {f}) else m
  }

  /** After boot: zero counts are free, the others are held once. */
  ghost predicate Booted(m: Frames) {
    && m.held == m.counts && m.allocating == {} && m.freeing == {} && m.free <= m.counts.Keys
    && forall f :: f in m.counts ==> m.counts[f] <= 1 && (m.counts[f] == 0 <==> f in m.free)
  }

  ghost predicate Immortal(m: Frames, f: nat) {
    f in m.counts && m.counts[f] == IMMORTAL_FRAME_REFS
  }

  ghost predicate Idle(m: Frames, f: nat) {
    f in m.free || f in m.allocating || f in m.freeing
  }

  ghost predicate FrameOk(m: Frames, f: nat)
    requires f in m.counts && f in m.held
  {
    && m.counts[f] <= IMMORTAL_FRAME_REFS
    && (m.counts[f] != IMMORTAL_FRAME_REFS ==> m.counts[f] == m.held[f])
    && (Idle(m, f) <==> m.held[f] == 0 && m.counts[f] != IMMORTAL_FRAME_REFS)
  }

  ghost predicate Inv(m: Frames) {
    && m.counts.Keys == m.held.Keys
    && m.free <= m.counts.Keys && m.allocating <= m.counts.Keys && m.freeing <= m.counts.Keys
    && m.free !! m.allocating && m.free !! m.freeing && m.allocating !! m.freeing
    && forall f :: f in m.counts ==> FrameOk(m, f)
  }

  lemma BootInv(m: Frames)
    requires Booted(m)
    ensures Inv(m)
  {
  }

  lemma StepInv(m: Frames, step: Step)
    requires Inv(m)
    ensures Inv(Next(m, step))
  {
    var m' := Next(m, step);
    forall f | f in m'.counts
      ensures FrameOk(m', f)
    {
      assert FrameOk(m, f);
    }
    assert step.frame in m.counts ==> FrameOk(m, step.frame);
  }

  function Run(m: Frames, steps: seq<Step>): Frames {
    if steps == [] then m else Next(Run(m, steps[..|steps| - 1]), steps[|steps| - 1])
  }

  lemma {:induction false} RunInv(m: Frames, steps: seq<Step>)
    requires Inv(m)
    ensures Inv(Run(m, steps))
  {
    hide Inv, Next;
    if steps != [] {
      RunInv(m, steps[..|steps| - 1]);
      StepInv(Run(m, steps[..|steps| - 1]), steps[|steps| - 1]);
    }
  }

  lemma BootRun(m: Frames, steps: seq<Step>)
    requires Booted(m)
    ensures Inv(Run(m, steps))
  {
    BootInv(m);
    RunInv(m, steps);
  }

  /**
   In every run a release hands the frame to the allocator exactly when it is the last one and the frame never
   became immortal. While anybody holds a frame it is in no idle set, so it is neither free nor on its way there.
   */
  lemma LastReleaseExact(m: Frames, steps: seq<Step>, f: nat)
    requires Booted(m) && f in Run(m, steps).held && Run(m, steps).held[f] > 0
    ensures var r := Run(m, steps);
            && !Idle(r, f)
            && (f in Next(r, Release(f)).freeing <==> r.held[f] == 1 && !Immortal(r, f))
            && (forall step :: step != Release(f) ==> f !in Next(r, step).freeing)
  {
    hide Run;
    BootRun(m, steps);
    var r := Run(m, steps);
    assert FrameOk(r, f);
  }

  /** The allocator gives out a frame only when nobody holds it, and takes it back only once. */
  lemma NoSharedHandout(m: Frames, steps: seq<Step>, f: nat)
    requires Booted(m) && f in Run(m, steps).counts && f in Run(m, steps).held
    ensures var r := Run(m, steps);
            && (f in r.free ==> r.held[f] == 0 && r.counts[f] == 0)
            && (f in r.allocating ==> r.held[f] == 0 && f !in r.free)
            && (f in r.freeing ==> r.held[f] == 0 && f !in r.free)
            && (r.counts[f] == 0 <==> Idle(r, f))
  {
    hide Run;
    BootRun(m, steps);
    var r := Run(m, steps);
    assert FrameOk(r, f);
  }

  /** A frame nobody holds and no step is moving is free, unless its count once saturated: nothing else leaks. */
  lemma NoLeak(m: Frames, steps: seq<Step>, f: nat)
    requires Booted(m) && f in Run(m, steps).held && Run(m, steps).held[f] == 0
    ensures var r := Run(m, steps); f in r.free || f in r.allocating || f in r.freeing || Immortal(r, f)
  {
    hide Run;
    BootRun(m, steps);
    assert FrameOk(Run(m, steps), f);
  }

  /** Once saturated, a frame is never handed back, whatever follows. */
  lemma {:induction false} ImmortalForever(m: Frames, steps: seq<Step>, f: nat)
    requires Inv(m) && Immortal(m, f)
    ensures Immortal(Run(m, steps), f) && !Idle(Run(m, steps), f)
  {
    if steps == [] {
      assert FrameOk(m, f);
    } else {
      var init := steps[..|steps| - 1];
      ImmortalForever(m, init, f);
      RunInv(m, init);
      RunInv(m, steps);
      assert FrameOk(Run(m, init), f);
      assert FrameOk(Run(m, steps), f);
    }
  }

  /** The answer of `release` is zero exactly for counts zero and one: a stray release reaches the allocator too. */
  lemma ReleaseAnswersZero(count: nat)
    requires count <= IMMORTAL_FRAME_REFS
    ensures ReleaseCount(count) == 0 <==> count <= 1
    ensures RetainCount(count) <= IMMORTAL_FRAME_REFS
    ensures count != 0 && RetainCount(count) != IMMORTAL_FRAME_REFS ==> ReleaseCount(RetainCount(count)) == count
  {
  }
}
