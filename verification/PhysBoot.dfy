/**
 Boot-time physical frames (kernel/src/mem/phys.rs): the usable regions, the reserved regions and the bump
 allocator. Addresses are naturals; `base + length` does not wrap.
 */
module PhysBoot {
  import opened Common

  const FRAME: nat := 4096
  const MAX_RESERVED: nat := 16

  datatype Region = Region(base: nat, length: nat)

  datatype FrameState = Unusable | Allocated | Free

  /** `kernel_physical_memory::MemoryRegion`. */
  datatype FrameRegion = FrameRegion(base: nat, frames: seq<FrameState>)

  /** `PhysFrame::containing_address`. */
  function FrameOf(addr: nat): nat {
    addr / FRAME * FRAME
  }

  function CeilFrames(bytes: nat): nat {
    (bytes + FRAME - 1) / FRAME
  }

  /** `ReservedRegions::push`: a seventeenth region is dropped. */
  function Push(reserved: seq<Region>, r: Region): seq<Region> {
    if |reserved| < MAX_RESERVED then reserved + [r] else reserved
  }

  function Registered(calls: seq<Region>): seq<Region> {
    if calls == [] then [] else Push(Registered(calls[..|calls| - 1]), calls[|calls| - 1])
  }

  /** Only the first sixteen registrations count. */
  lemma {:induction false} RegisteredPrefix(calls: seq<Region>)
    ensures Registered(calls) == calls[..Min(|calls|, MAX_RESERVED)]
  {
    if calls != [] {
      RegisteredPrefix(calls[..|calls| - 1]);
    }
  }

  predicate Inside(r: Region, addr: nat) {
    r.base <= addr < r.base + r.length
  }

  predicate IsReserved(reserved: seq<Region>, addr: nat) {
    exists j :: 0 <= j < |reserved| && Inside(reserved[j], addr)
  }

  // ------------------------------------------------------------------------ usable frames

  /** The frames `(base..base + length).step_by(4096)` visits. */
  function RegionFrames(r: Region): seq<nat> {
    seq(CeilFrames(r.length), k requires 0 <= k < CeilFrames(r.length) => FrameOf(r.base + k * FRAME))
  }

  function AllFrames(regions: seq<Region>): seq<nat> {
    if regions == [] then [] else AllFrames(regions[..|regions| - 1]) + RegionFrames(regions[|regions| - 1])
  }

  function Unreserved(frames: seq<nat>, reserved: seq<Region>): (r: seq<nat>)
    ensures |r| <= |frames|
    ensures forall f :: f in r <==> f in frames && !IsReserved(reserved, f)
  {
    if frames == [] then []
    else
      var last := |frames| - 1;
      assert forall f :: f in frames <==> f in frames[..last] || f == frames[last];
      var rest := Unreserved(frames[..last], reserved);
      if IsReserved(reserved, frames[last]) then rest else rest + [frames[last]]
  }

  function UsableFrames(regions: seq<Region>, reserved: seq<Region>): seq<nat> {
    Unreserved(AllFrames(regions), reserved)
  }

  predicate Aligned(r: Region) {
    r.base % FRAME == 0 && r.length % FRAME == 0
  }

  /** What the boot memory map promises: frame-aligned regions that do not overlap. */
  ghost predicate BootMap(regions: seq<Region>) {
    && (forall i :: 0 <= i < |regions| ==> Aligned(regions[i]))
    && (forall i, j :: 0 <= i < j < |regions| ==>
          regions[i].base + regions[i].length <= regions[j].base
          || regions[j].base + regions[j].length <= regions[i].base)
  }

  ghost predicate Distinct(xs: seq<nat>) {
    forall i, j :: 0 <= i < j < |xs| ==> xs[i] != xs[j]
  }

  lemma AlignedFrames(r: Region, k: nat)
    requires Aligned(r) && k < CeilFrames(r.length)
    ensures RegionFrames(r)[k] == r.base + k * FRAME
    ensures Inside(r, r.base + k * FRAME) && (r.base + k * FRAME) % FRAME == 0
  {
    var q := r.base / FRAME;
    assert r.base + k * FRAME == (q + k) * FRAME;
    assert (q + k) * FRAME / FRAME == q + k;
  }

  lemma RegionFramesInside(r: Region, f: nat)
    requires Aligned(r)
    ensures f in RegionFrames(r) ==> Inside(r, f) && f % FRAME == 0
  {
    if f in RegionFrames(r) {
      var k :| 0 <= k < |RegionFrames(r)| && RegionFrames(r)[k] == f;
      AlignedFrames(r, k);
    }
  }

  lemma {:induction false} AllFramesInside(regions: seq<Region>, f: nat)
    requires BootMap(regions) && f in AllFrames(regions)
    ensures f % FRAME == 0 && exists i :: 0 <= i < |regions| && Inside(regions[i], f)
  {
    var last := |regions| - 1;
    if f in AllFrames(regions[..last]) {
      AllFramesInside(regions[..last], f);
      var i :| 0 <= i < last && Inside(regions[..last][i], f);
      assert Inside(regions[i], f);
    } else {
      RegionFramesInside(regions[last], f);
    }
  }

  lemma RegionDistinct(r: Region)
    requires Aligned(r)
    ensures Distinct(RegionFrames(r))
  {
    forall i, j | 0 <= i < j < |RegionFrames(r)|
      ensures RegionFrames(r)[i] != RegionFrames(r)[j]
    {
      AlignedFrames(r, i);
      AlignedFrames(r, j);
    }
  }

  lemma DistinctConcat(xs: seq<nat>, ys: seq<nat>)
    requires Distinct(xs) && Distinct(ys) && forall x :: x in xs ==> x !in ys
    ensures Distinct(xs + ys)
  {
    var zs := xs + ys;
    forall i, j | 0 <= i < j < |zs|
      ensures zs[i] != zs[j]
    {
      if i < |xs| <= j {
        assert zs[i] in xs && zs[j] == ys[j - |xs|];
      }
    }
  }

  lemma {:induction false} AllDistinct(regions: seq<Region>)
    requires BootMap(regions)
    ensures Distinct(AllFrames(regions))
  {
    if regions != [] {
      var last := |regions| - 1;
      var init := AllFrames(regions[..last]);
      AllDistinct(regions[..last]);
      RegionDistinct(regions[last]);
      forall x | x in init
        ensures x !in RegionFrames(regions[last])
      {
        AllFramesInside(regions[..last], x);
        var i :| 0 <= i < last && Inside(regions[..last][i], x);
        assert Inside(regions[i], x) && !Inside(regions[last], x);
        RegionFramesInside(regions[last], x);
      }
      DistinctConcat(init, RegionFrames(regions[last]));
    }
  }

  lemma {:induction false} UnreservedDistinct(frames: seq<nat>, reserved: seq<Region>)
    requires Distinct(frames)
    ensures Distinct(Unreserved(frames, reserved))
  {
    if frames != [] {
      UnreservedDistinct(frames[..|frames| - 1], reserved);
    }
  }

  /** The bump allocator hands out no frame twice, none whose first byte is reserved and none outside the map. */
  lemma BumpFramesSound(regions: seq<Region>, reserved: seq<Region>)
    requires BootMap(regions)
    ensures Distinct(UsableFrames(regions, reserved))
    ensures forall f :: f in UsableFrames(regions, reserved) ==>
              && f % FRAME == 0 && !IsReserved(reserved, f)
              && exists i :: 0 <= i < |regions| && Inside(regions[i], f)
  {
    AllDistinct(regions);
    UnreservedDistinct(AllFrames(regions), reserved);
    forall f | f in UsableFrames(regions, reserved)
      ensures exists i :: 0 <= i < |regions| && Inside(regions[i], f)
      ensures f % FRAME == 0
    {
      AllFramesInside(regions, f);
    }
  }

  // -------------------------------------------------------------------- reserved overlap

  predicate Overlaps(r: Region, f: nat) {
    f < r.base + r.length && r.base < f + FRAME && r.length > 0
  }

  /** A reserved region that starts inside a frame whose own start is not reserved. */
  predicate StartsInside(reserved: seq<Region>, r: Region, frames: seq<nat>) {
    r.length > 0 && r.base % FRAME != 0 && FrameOf(r.base) in frames && !IsReserved(reserved, FrameOf(r.base))
  }

  /**
   The allocator looks only at a frame's first byte. No frame it hands out overlaps a reserved region
   exactly when no reserved region starts in the middle of a mapped frame that is otherwise unreserved.
   */
  lemma NoOverlapIff(regions: seq<Region>, reserved: seq<Region>)
    requires BootMap(regions)
    ensures (forall f, j :: f in UsableFrames(regions, reserved) && 0 <= j < |reserved| ==> !Overlaps(reserved[j], f))
            <==> (forall j :: 0 <= j < |reserved| ==> !StartsInside(reserved, reserved[j], AllFrames(regions)))
  {
    var all := AllFrames(regions);
    forall j | 0 <= j < |reserved| && StartsInside(reserved, reserved[j], all)
      ensures FrameOf(reserved[j].base) in UsableFrames(regions, reserved)
              && Overlaps(reserved[j], FrameOf(reserved[j].base))
    {
    }
    forall f, j | f in UsableFrames(regions, reserved) && 0 <= j < |reserved| && Overlaps(reserved[j], f)
      ensures StartsInside(reserved, reserved[j], all)
    {
      AllFramesInside(regions, f);
      assert !Inside(reserved[j], f);
      OffsetFrame(f, reserved[j].base);
    }
  }

  lemma OffsetFrame(f: nat, addr: nat)
    requires f % FRAME == 0 && f < addr < f + FRAME
    ensures FrameOf(addr) == f && addr % FRAME != 0
  {
  }

  /** With frame-aligned reserved regions the allocator's frames and the reserved bytes are disjoint. */
  lemma AlignedReservedDisjoint(regions: seq<Region>, reserved: seq<Region>, f: nat, j: nat)
    requires BootMap(regions) && (forall i :: 0 <= i < |reserved| ==> Aligned(reserved[i]))
    requires f in UsableFrames(regions, reserved) && j < |reserved|
    ensures !Overlaps(reserved[j], f)
  {
    NoOverlapIff(regions, reserved);
  }

  lemma OneFrame()
    ensures RegionFrames(Region(4096, 4096)) == [4096]
  {
    assert CeilFrames(4096) == 1 && FrameOf(4096) == 4096;
  }

  lemma OneRegion(r: Region)
    ensures AllFrames([r]) == RegionFrames(r)
  {
    hide RegionFrames;
    assert [r][..0] == [];
    assert AllFrames([]) == [];
  }

  lemma OneUnreserved(f: nat, reserved: seq<Region>)
    requires !IsReserved(reserved, f)
    ensures Unreserved([f], reserved) == [f]
  {
    hide IsReserved;
    assert [f][..0] == [];
    assert Unreserved([], reserved) == [];
  }

  /** A reserved region that starts mid-frame is handed out in part. */
  lemma UnalignedReservedHandedOut()
    ensures var regions, reserved := [Region(4096, 4096)], [Region(6144, 100)];
            BootMap(regions) && UsableFrames(regions, reserved) == [4096] && Overlaps(reserved[0], 4096)
  {
    hide RegionFrames, AllFrames, Unreserved;
    OneFrame();
    OneRegion(Region(4096, 4096));
    OneUnreserved(4096, [Region(6144, 100)]);
  }

  // ------------------------------------------------------------------------ bump allocator

  lemma UnreservedAppend(xs: seq<nat>, f: nat, reserved: seq<Region>)
    ensures Unreserved(xs + [f], reserved) == Unreserved(xs, reserved) + (if IsReserved(reserved, f) then [] else [f])
  {
    assert (xs + [f])[..|xs|] == xs;
  }

  lemma {:induction false} UnreservedPrefix(xs: seq<nat>, ys: seq<nat>, reserved: seq<Region>)
    ensures Unreserved(xs, reserved) <= Unreserved(xs + ys, reserved)
  {
    if ys == [] {
      assert xs + ys == xs;
    } else {
      var last := |ys| - 1;
      UnreservedPrefix(xs, ys[..last], reserved);
      assert xs + ys == (xs + ys[..last]) + [ys[last]];
      UnreservedAppend(xs + ys[..last], ys[last], reserved);
    }
  }

  /** Where the walk over the regions stands in the list of all frames. */
  lemma {:induction false} FrameAt(regions: seq<Region>, i: nat, k: nat)
    requires i < |regions| && k < |RegionFrames(regions[i])|
    ensures var n := |AllFrames(regions[..i])| + k;
            n < |AllFrames(regions)| && AllFrames(regions)[n] == RegionFrames(regions[i])[k]
  {
    hide RegionFrames;
    var last := |regions| - 1;
    if i < last {
      FrameAt(regions[..last], i, k);
      assert regions[..last][..i] == regions[..i];
    }
  }

  lemma UnreservedNext(all: seq<nat>, n: nat, reserved: seq<Region>)
    requires n < |all|
    ensures Unreserved(all[..n + 1], reserved)
            == Unreserved(all[..n], reserved) + (if IsReserved(reserved, all[n]) then [] else [all[n]])
    ensures Unreserved(all[..n + 1], reserved) <= Unreserved(all, reserved)
  {
    assert all[..n + 1] == all[..n] + [all[n]];
    UnreservedAppend(all[..n], all[n], reserved);
    assert all == all[..n + 1] + all[n + 1..];
    UnreservedPrefix(all[..n + 1], all[n + 1..], reserved);
  }

  /** `PhysicalBumpAllocator`; the reserved regions are fixed before its first use. */
  class BumpAllocator {
    const regions: seq<Region>
    const reserved: seq<Region>
    var nextFrame: nat

    constructor (regions: seq<Region>, reserved: seq<Region>)
      ensures this.regions == regions && this.reserved == reserved && nextFrame == 0
    {
      this.regions, this.reserved, nextFrame := regions, reserved, 0;
    }

    ghost function Frames(): seq<nat> {
      UsableFrames(regions, reserved)
    }

    /** `is_reserved`. */
    method CheckReserved(addr: nat) returns (b: bool)
      ensures b == IsReserved(reserved, addr)
    {
      var i := 0;
      while i < |reserved|
        invariant i <= |reserved| && forall j :: 0 <= j < i ==> !Inside(reserved[j], addr)
      {
        if Inside(reserved[i], addr) {
          return true;
        }
        i := i + 1;
      }
      return false;
    }

    /** `allocate_frame`: the next frame of the filtered walk, which resumes from the start every time. */
    method AllocateFrame() returns (frame: Option<nat>)
      modifies this
      ensures frame == if old(nextFrame) < |Frames()| then Some(Frames()[old(nextFrame)]) else None
      ensures nextFrame == if frame.Some? then old(nextFrame) + 1 else old(nextFrame)
    {
      hide Unreserved, AllFrames, RegionFrames, IsReserved;
      ghost var all := AllFrames(regions);
      ghost var n := 0;
      FrameCounts(regions, 0);
      var seen := 0;
      var i := 0;
      while i < |regions|
        invariant i <= |regions| && nextFrame == old(nextFrame) && seen <= nextFrame
        invariant n == |AllFrames(regions[..i])| <= |all| && seen == |Unreserved(all[..n], reserved)|
      {
        FrameCounts(regions, i);
        var k := 0;
        while k < CeilFrames(regions[i].length)
          invariant k <= CeilFrames(regions[i].length) && nextFrame == old(nextFrame) && seen <= nextFrame
          invariant n == |AllFrames(regions[..i])| + k <= |all| && seen == |Unreserved(all[..n], reserved)|
        {
          var f := FrameOf(regions[i].base + k * FRAME);
          FrameValue(regions[i], k);
          FrameAt(regions, i, k);
          UnreservedNext(all, n, reserved);
          var isReserved := CheckReserved(f);
          n := n + 1;
          if !isReserved {
            if seen == nextFrame {
              nextFrame := nextFrame + 1;
              return Some(f);
            }
            seen := seen + 1;
          }
          k := k + 1;
        }
        i := i + 1;
      }
      assert regions[..i] == regions && all[..n] == all;
      return None;
    }
  }

  lemma FrameValue(r: Region, k: nat)
    requires k < CeilFrames(r.length)
    ensures k < |RegionFrames(r)| && RegionFrames(r)[k] == FrameOf(r.base + k * FRAME)
  {
  }

  lemma FrameCounts(regions: seq<Region>, i: nat)
    requires i <= |regions|
    ensures i == 0 ==> AllFrames(regions[..i]) == []
    ensures i < |regions| ==> |AllFrames(regions[..i + 1])| == |AllFrames(regions[..i])| + CeilFrames(regions[i].length)
  {
    if i < |regions| {
      assert regions[..i + 1][..i] == regions[..i];
    }
  }
}
