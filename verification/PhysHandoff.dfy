/** The hand-off from the bump allocator to the frame table (`init_stage2` of kernel/src/mem/phys.rs). */
module PhysHandoff {
  import opened Common
  import opened PhysBoot

  function Address(r: FrameRegion, k: nat): nat {
    r.base + k * FRAME
  }

  /** `frame_index`. */
  function FrameIndex(r: FrameRegion, addr: nat): Option<nat> {
    if addr < r.base then None
    else
      var index := (addr - r.base) / FRAME;
      if index < |r.frames| then Some(index) else None
  }

  /** The table has one entry per frame of the boot map. */
  ghost predicate Shape(mem: seq<FrameRegion>, regions: seq<Region>) {
    && |mem| == |regions|
    && forall i :: 0 <= i < |mem| ==> mem[i].base == regions[i].base && |mem[i].frames| * FRAME == regions[i].length
  }

  /** On aligned addresses `frame_index` finds exactly the frame that starts there. */
  lemma FrameIndexExact(r: FrameRegion, addr: nat)
    requires r.base % FRAME == 0 && addr % FRAME == 0
    ensures forall k :: FrameIndex(r, addr) == Some(k) <==> 0 <= k < |r.frames| && Address(r, k) == addr
  {
  }

  /** Two frames of the table with the same address are the same frame. */
  lemma AddressUnique(mem: seq<FrameRegion>, regions: seq<Region>, i: nat, k: nat, j: nat, l: nat)
    requires BootMap(regions) && Shape(mem, regions)
    requires i < |mem| && k < |mem[i].frames| && j < |mem| && l < |mem[j].frames|
             && Address(mem[i], k) == Address(mem[j], l)
    ensures i == j && k == l
  {
    assert Inside(regions[i], Address(mem[i], k)) && Inside(regions[j], Address(mem[j], l));
  }

  predicate Marks(state: FrameState, force: bool) {
    force || state == Free
  }

  /** The inner search of both marking loops: the first region that has the frame marks it. */
  method MarkFrame(mem: seq<FrameRegion>, addr: nat, force: bool, ghost regions: seq<Region>)
    returns (mem': seq<FrameRegion>)
    requires BootMap(regions) && Shape(mem, regions) && addr % FRAME == 0
    ensures Shape(mem', regions)
    ensures forall i, k :: 0 <= i < |mem| && 0 <= k < |mem[i].frames| ==>
              mem'[i].frames[k] == if Address(mem[i], k) == addr && Marks(mem[i].frames[k], force) then Allocated
                                   else mem[i].frames[k]
  {
    mem' := mem;
    var i := 0;
    while i < |mem|
      invariant i <= |mem|
      invariant forall j, k :: 0 <= j < i && 0 <= k < |mem[j].frames| ==> Address(mem[j], k) != addr
    {
      FrameIndexExact(mem[i], addr);
      var index := FrameIndex(mem[i], addr);
      if index.Some? {
        forall j: nat, k: nat | j < |mem| && k < |mem[j].frames| && Address(mem[j], k) == addr
          ensures j == i && k == index.value
        {
          AddressUnique(mem, regions, i, index.value, j, k);
        }
        if Marks(mem[i].frames[index.value], force) {
          mem' := mem[i := mem[i].(frames := mem[i].frames[index.value := Allocated])];
        }
        return;
      }
      i := i + 1;
    }
  }

  /** The frames the reserved pass marks: each reserved region, widened to whole frames. */
  predicate Swept(r: Region, addr: nat) {
    r.base / FRAME * FRAME <= addr < CeilFrames(r.base + r.length) * FRAME
  }

  predicate SweptByAny(reserved: seq<Region>, addr: nat) {
    exists j :: 0 <= j < |reserved| && Swept(reserved[j], addr)
  }

  ghost predicate States(mem: seq<FrameRegion>, regions: seq<Region>, taken: nat -> bool) {
    && Shape(mem, regions)
    && forall i, k :: 0 <= i < |mem| && 0 <= k < |mem[i].frames| ==>
      mem[i].frames[k] == if taken(Address(mem[i], k)) then Allocated else Free
  }

  /** The stage-one pass. */
  method MarkHandedOut(mem: seq<FrameRegion>, regions: seq<Region>, usable: seq<nat>, next: nat)
    returns (mem': seq<FrameRegion>)
    requires BootMap(regions) && next <= |usable| && (forall f :: f in usable ==> f % FRAME == 0)
    requires States(mem, regions, (a: nat) => false)
    ensures States(mem', regions, (a: nat) => a in usable[..next])
  {
    mem' := mem;
    var n := 0;
    while n < next
      invariant n <= next && States(mem', regions, (a: nat) => a in usable[..n])
    {
      assert usable[n] in usable;
      mem' := MarkFrame(mem', usable[n], true, regions);
      assert forall a :: a in usable[..n + 1] <==> a in usable[..n] || a == usable[n];
      n := n + 1;
    }
  }

  /** One reserved region, widened to whole frames and walked frame by frame. */
  method MarkReserved(mem: seq<FrameRegion>, regions: seq<Region>, r: Region, ghost taken: nat -> bool)
    returns (mem': seq<FrameRegion>)
    requires BootMap(regions) && States(mem, regions, taken)
    ensures States(mem', regions, (a: nat) => taken(a) || Swept(r, a))
  {
    mem' := mem;
    var start := r.base / FRAME * FRAME;
    var end := CeilFrames(r.base + r.length) * FRAME;
    SweepBounds(r);
    var addr := start;
    while addr < end
      invariant start <= addr <= end && addr % FRAME == 0
      invariant States(mem', regions, (a: nat) => taken(a) || start <= a < addr)
      decreases end - addr
    {
      FramesBetween(mem', regions, addr);
      mem' := MarkFrame(mem', addr, false, regions);
      addr := addr + FRAME;
    }
    assert addr == end && forall a: nat :: Swept(r, a) <==> start <= a < end;
  }

  /** No frame of the table starts strictly inside another. */
  lemma FramesBetween(mem: seq<FrameRegion>, regions: seq<Region>, addr: nat)
    requires BootMap(regions) && Shape(mem, regions) && addr % FRAME == 0
    ensures forall i, k :: 0 <= i < |mem| && 0 <= k < |mem[i].frames| ==> !(addr < Address(mem[i], k) < addr + FRAME)
  {
  }

  /** A reserved region is walked from its first frame to the frame after its last. */
  lemma SweepBounds(r: Region)
    ensures r.base / FRAME * FRAME <= CeilFrames(r.base + r.length) * FRAME
    ensures r.base / FRAME * FRAME % FRAME == 0 && CeilFrames(r.base + r.length) * FRAME % FRAME == 0
  {
  }

  /** The reserved pass. */
  method MarkAllReserved(mem: seq<FrameRegion>, regions: seq<Region>, reserved: seq<Region>, ghost taken: nat -> bool)
    returns (mem': seq<FrameRegion>)
    requires BootMap(regions) && States(mem, regions, taken)
    ensures States(mem', regions, (a: nat) => taken(a) || SweptByAny(reserved, a))
  {
    mem' := mem;
    var i := 0;
    while i < |reserved|
      invariant i <= |reserved| && States(mem', regions, (a: nat) => taken(a) || SweptByAny(reserved[..i], a))
    {
      mem' := MarkReserved(mem', regions, reserved[i], (a: nat) => taken(a) || SweptByAny(reserved[..i], a));
      forall a
        ensures SweptByAny(reserved[..i + 1], a) <==> SweptByAny(reserved[..i], a) || Swept(reserved[i], a)
      {
        SweptNext(reserved, i, a);
      }
      i := i + 1;
    }
    assert reserved[..i] == reserved;
  }

  lemma SweptNext(reserved: seq<Region>, i: nat, a: nat)
    requires i < |reserved|
    ensures SweptByAny(reserved[..i + 1], a) <==> SweptByAny(reserved[..i], a) || Swept(reserved[i], a)
  {
    if SweptByAny(reserved[..i], a) {
      var j :| 0 <= j < i && Swept(reserved[..i][j], a);
      assert Swept(reserved[..i + 1][j], a);
    }
    if Swept(reserved[i], a) {
      assert reserved[..i + 1][i] == reserved[i];
    }
  }

  ghost predicate Taken(regions: seq<Region>, reserved: seq<Region>, next: nat, a: nat)
    requires next <= |UsableFrames(regions, reserved)|
  {
    a in UsableFrames(regions, reserved)[..next] || SweptByAny(reserved, a)
  }

  /** `init_stage2`: build the table, mark what stage one handed out, mark what is reserved. */
  method InitStage2(regions: seq<Region>, reserved: seq<Region>, next: nat) returns (mem: seq<FrameRegion>)
    requires BootMap(regions) && next <= |UsableFrames(regions, reserved)|
    ensures Shape(mem, regions)
    ensures forall i, k :: 0 <= i < |mem| && 0 <= k < |mem[i].frames| ==>
              mem[i].frames[k] == if Taken(regions, reserved, next, Address(mem[i], k)) then Allocated else Free
  {
    BumpFramesSound(regions, reserved);
    hide UsableFrames, SweptByAny;
    mem := [];
    var i := 0;
    while i < |regions|
      invariant i <= |regions| && |mem| == i
      invariant forall j :: 0 <= j < i ==>
                  mem[j].base == regions[j].base && |mem[j].frames| * FRAME == regions[j].length
                  && forall k :: 0 <= k < |mem[j].frames| ==> mem[j].frames[k] == Free
    {
      assert Aligned(regions[i]);
      mem := mem + [FrameRegion(regions[i].base, seq(regions[i].length / FRAME, _ => Free))];
      i := i + 1;
    }
    var usable := UsableFrames(regions, reserved);
    mem := MarkHandedOut(mem, regions, usable, next);
    mem := MarkAllReserved(mem, regions, reserved, (a: nat) => a in usable[..next]);
  }

  // -------------------------------------------------------------- what the hand-off means

  ghost predicate FreeAt(mem: seq<FrameRegion>, a: nat) {
    exists i, k :: 0 <= i < |mem| && 0 <= k < |mem[i].frames| && Address(mem[i], k) == a && mem[i].frames[k] == Free
  }

  /** The table `InitStage2` returns. */
  ghost predicate HandedOff(mem: seq<FrameRegion>, regions: seq<Region>, reserved: seq<Region>, next: nat) {
    && next <= |UsableFrames(regions, reserved)| && Shape(mem, regions)
    && forall i, k :: 0 <= i < |mem| && 0 <= k < |mem[i].frames| ==>
      mem[i].frames[k] == if Taken(regions, reserved, next, Address(mem[i], k)) then Allocated else Free
  }

  lemma CeilExact(n: nat)
    ensures CeilFrames(n * FRAME) == n
  {
  }

  lemma IndexExact(base: nat, n: nat, a: nat)
    requires base % FRAME == 0 && a % FRAME == 0 && base <= a < base + n * FRAME
    ensures (a - base) / FRAME < n && base + (a - base) / FRAME * FRAME == a
  {
  }

  lemma FrameInTable(mem: seq<FrameRegion>, regions: seq<Region>, i: nat, k: nat)
    requires BootMap(regions) && Shape(mem, regions) && i < |mem| && k < |mem[i].frames|
    ensures Address(mem[i], k) in AllFrames(regions)
  {
    hide AllFrames, RegionFrames, CeilFrames;
    CeilExact(|mem[i].frames|);
    FrameValue(regions[i], k);
    AlignedFrames(regions[i], k);
    FrameAt(regions, i, k);
  }

  lemma TableHasFrame(mem: seq<FrameRegion>, regions: seq<Region>, a: nat) returns (i: nat, k: nat)
    requires BootMap(regions) && Shape(mem, regions) && a in AllFrames(regions)
    ensures i < |mem| && k < |mem[i].frames| && Address(mem[i], k) == a
  {
    hide AllFrames;
    AllFramesInside(regions, a);
    i :| 0 <= i < |regions| && Inside(regions[i], a);
    IndexExact(regions[i].base, |mem[i].frames|, a);
    k := (a - regions[i].base) / FRAME;
  }

  /**
   For every boot map of frame-aligned regions that do not overlap, and every list of reserved regions, the free
   frames after the hand-off are exactly the map's frames minus those handed out minus those the
   widened reserved regions cover.
   */
  lemma FreeSetExact(mem: seq<FrameRegion>, regions: seq<Region>, reserved: seq<Region>, next: nat, a: nat)
    requires BootMap(regions) && HandedOff(mem, regions, reserved, next)
    ensures FreeAt(mem, a) <==>
              a in AllFrames(regions) && a !in UsableFrames(regions, reserved)[..next] && !SweptByAny(reserved, a)
  {
    hide UsableFrames, SweptByAny;
    if FreeAt(mem, a) {
      var i, k :| 0 <= i < |mem| && 0 <= k < |mem[i].frames| && Address(mem[i], k) == a && mem[i].frames[k] == Free;
      FrameInTable(mem, regions, i, k);
    } else if a in AllFrames(regions) {
      var i, k := TableHasFrame(mem, regions, a);
    }
  }

  lemma AlignedSweep(r: Region, a: nat)
    requires Aligned(r) && a % FRAME == 0
    ensures Swept(r, a) <==> Inside(r, a)
  {
    var q, n := r.base / FRAME, r.length / FRAME;
    assert r.base + r.length == (q + n) * FRAME;
    assert CeilFrames((q + n) * FRAME) == q + n;
  }

  /** With frame-aligned reserved regions, what is free is what the bump allocator had still to hand out. */
  lemma FreeIsRemainder(mem: seq<FrameRegion>, regions: seq<Region>, reserved: seq<Region>, next: nat, a: nat)
    requires BootMap(regions) && HandedOff(mem, regions, reserved, next)
    requires forall j :: 0 <= j < |reserved| ==> Aligned(reserved[j])
    ensures FreeAt(mem, a) <==> a in UsableFrames(regions, reserved)[next..]
  {
    FreeSetExact(mem, regions, reserved, next, a);
    BumpFramesSound(regions, reserved);
    UsableMember(regions, reserved, a);
    hide UsableFrames, AllFrames, IsReserved, SweptByAny, BootMap;
    if a in AllFrames(regions) {
      AllFramesInside(regions, a);
      SweptAligned(reserved, a);
    }
    SplitDistinct(UsableFrames(regions, reserved), next, a);
  }

  lemma UsableMember(regions: seq<Region>, reserved: seq<Region>, a: nat)
    ensures a in UsableFrames(regions, reserved) <==> a in AllFrames(regions) && !IsReserved(reserved, a)
  {
  }

  lemma SweptAligned(reserved: seq<Region>, a: nat)
    requires (forall j :: 0 <= j < |reserved| ==> Aligned(reserved[j])) && a % FRAME == 0
    ensures SweptByAny(reserved, a) <==> IsReserved(reserved, a)
  {
    forall j | 0 <= j < |reserved|
      ensures Swept(reserved[j], a) <==> Inside(reserved[j], a)
    {
      AlignedSweep(reserved[j], a);
    }
  }

  lemma SplitDistinct(xs: seq<nat>, n: nat, a: nat)
    requires Distinct(xs) && n <= |xs|
    ensures a in xs[n..] <==> a in xs && a !in xs[..n]
  {
    assert xs == xs[..n] + xs[n..];
    if a in xs[n..] {
      var j :| n <= j < |xs| && xs[j] == a;
      assert forall i :: 0 <= i < n ==> xs[i] != xs[j];
    }
  }

  // ------------------------------------------------------------------ initial reference counts

  datatype CountRegion = CountRegion(base: nat, counts: seq<nat>)

  /** The count vectors have one entry per frame of the table: zero on a free frame and one on any other. */
  ghost predicate CountsMatch(mem: seq<FrameRegion>, refs: seq<CountRegion>) {
    && |refs| == |mem|
    && (forall i :: 0 <= i < |mem| ==> refs[i].base == mem[i].base && |refs[i].counts| == |mem[i].frames|)
    && forall i, k :: 0 <= i < |mem| && 0 <= k < |mem[i].frames| ==>
      refs[i].counts[k] <= 1 && (refs[i].counts[k] == 0 <==> mem[i].frames[k] == Free)
  }

  /** `FrameRefCounts::with_regions`. */
  method InitialCounts(mem: seq<FrameRegion>) returns (refs: seq<CountRegion>)
    ensures CountsMatch(mem, refs)
  {
    refs := [];
    var i := 0;
    while i < |mem|
      invariant i <= |mem| && |refs| == i
      invariant forall j :: 0 <= j < i ==> refs[j].base == mem[j].base && |refs[j].counts| == |mem[j].frames|
      invariant forall j, k :: 0 <= j < i && 0 <= k < |mem[j].frames| ==>
                  refs[j].counts[k] <= 1 && (refs[j].counts[k] == 0 <==> mem[j].frames[k] == Free)
    {
      var frames := mem[i].frames;
      var counts := seq(|frames|, k requires 0 <= k < |frames| => if frames[k] == Free then 0 else 1);
      refs := refs + [CountRegion(mem[i].base, counts)];
      i := i + 1;
    }
  }

  /** Boot as a whole: the reference count is zero exactly on the free frames. */
  method Boot(regions: seq<Region>, reserved: seq<Region>, next: nat)
    returns (mem: seq<FrameRegion>, refs: seq<CountRegion>)
    requires BootMap(regions) && next <= |UsableFrames(regions, reserved)|
    ensures HandedOff(mem, regions, reserved, next) && CountsMatch(mem, refs)
    ensures forall i, k :: 0 <= i < |mem| && 0 <= k < |mem[i].frames| ==>
              (refs[i].counts[k] == 0 <==> !Taken(regions, reserved, next, Address(mem[i], k)))
  {
    mem := InitStage2(regions, reserved, next);
    refs := InitialCounts(mem);
  }

  /** The region begins before the frame ends and ends after the frame begins. */
  predicate Meets(r: Region, a: nat) {
    a < r.base + r.length && r.base < a + FRAME
  }

  /** A walk over a widened region meets exactly the frames the region meets: those it shares a byte with, if any. */
  lemma SweptMeets(r: Region, a: nat)
    requires a % FRAME == 0
    ensures Swept(r, a) <==> Meets(r, a)
    ensures Overlaps(r, a) <==> Meets(r, a) && r.length > 0
  {
    var n := a / FRAME;
    FloorBound(r.base, n);
    CeilBound(r.base + r.length, n);
  }

  lemma FloorBound(x: nat, n: nat)
    ensures x / FRAME * FRAME <= n * FRAME <==> x < n * FRAME + FRAME
  {
  }

  lemma CeilBound(x: nat, n: nat)
    ensures n * FRAME < CeilFrames(x) * FRAME <==> n * FRAME < x
  {
  }

  /**
   In terms of bytes: after the hand-off a frame is free exactly when it is a whole frame of the boot map, stage one
   did not hand it out and no reserved region reaches into it.
   */
  lemma FreeByBytes(mem: seq<FrameRegion>, regions: seq<Region>, reserved: seq<Region>, next: nat, a: nat)
    requires BootMap(regions) && HandedOff(mem, regions, reserved, next)
    ensures FreeAt(mem, a) <==>
              && a % FRAME == 0 && (exists i :: 0 <= i < |regions| && Inside(regions[i], a))
              && a !in UsableFrames(regions, reserved)[..next]
              && forall j :: 0 <= j < |reserved| ==> !Meets(reserved[j], a)
  {
    FreeSetExact(mem, regions, reserved, next, a);
    FramesOfMap(regions, a);
    hide UsableFrames, AllFrames, FreeAt, Inside, BootMap, Shape, SweptByAny;
    if a % FRAME == 0 {
      SweptByAnyMeets(reserved, a);
    }
  }

  /** The frames of the map are the aligned addresses inside its regions. */
  lemma FramesOfMap(regions: seq<Region>, a: nat)
    requires BootMap(regions)
    ensures a in AllFrames(regions) <==> a % FRAME == 0 && exists i :: 0 <= i < |regions| && Inside(regions[i], a)
  {
    hide AllFrames, RegionFrames, FrameOf;
    if a in AllFrames(regions) {
      AllFramesInside(regions, a);
    } else if a % FRAME == 0 && exists i :: 0 <= i < |regions| && Inside(regions[i], a) {
      var i :| 0 <= i < |regions| && Inside(regions[i], a);
      var n := regions[i].length / FRAME;
      var k := (a - regions[i].base) / FRAME;
      IndexExact(regions[i].base, n, a);
      CeilExact(n);
      FrameValue(regions[i], k);
      AlignedFrames(regions[i], k);
      FrameAt(regions, i, k);
    }
  }

  lemma SweptByAnyMeets(reserved: seq<Region>, a: nat)
    requires a % FRAME == 0
    ensures SweptByAny(reserved, a) <==> exists j :: 0 <= j < |reserved| && Meets(reserved[j], a)
  {
    hide Swept, Meets;
    forall j | 0 <= j < |reserved|
      ensures Swept(reserved[j], a) <==> Meets(reserved[j], a)
    {
      SweptMeets(reserved[j], a);
    }
  }
}
