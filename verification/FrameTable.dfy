/** The frame table's allocator for 4 KiB frames (kernel/crates/kernel_physical_memory/src/lib.rs). */
module FrameTable {
  import opened Common
  import opened PhysBoot
  import opened PhysHandoff

  predicate InTable(regions: seq<FrameRegion>, r: int, i: int) {
    0 <= r < |regions| && 0 <= i < |regions[r].frames|
  }

  predicate FreeFrame(regions: seq<FrameRegion>, r: int, i: int) {
    InTable(regions, r, i) && regions[r].frames[i] == Free
  }

  /** Table order: by region, then by index. */
  predicate Before(r: int, i: int, q: int, j: int) {
    r < q || (r == q && i < j)
  }

  /** `n` free frames in a row. */
  predicate RunAt(regions: seq<FrameRegion>, r: int, i: int, n: nat) {
    && 0 <= r < |regions| && 0 <= i && i + n <= |regions[r].frames|
    && forall k :: i <= k < i + n ==> regions[r].frames[k] == Free
  }

  predicate Covered(r: int, i: int, n: nat, q: int, j: int) {
    q == r && i <= j < i + n
  }

  function Filled(regions: seq<FrameRegion>, r: nat, i: nat, n: nat): seq<FrameRegion>
    requires RunAt(regions, r, i, n)
  {
    regions[r := regions[r].(frames := seq(|regions[r].frames|, k requires 0 <= k < |regions[r].frames| =>
      if i <= k < i + n then Allocated else regions[r].frames[k]))]
  }

  /** `first_free` is the first free frame of the table. */
  ghost predicate FirstFree(regions: seq<FrameRegion>, first: Option<(nat, nat)>) {
    match first
    case None => forall r, i :: !FreeFrame(regions, r, i)
    case Some((r, i)) => FreeFrame(regions, r, i) && forall q, j :: FreeFrame(regions, q, j) ==> !Before(q, j, r, i)
  }

  /** The first region, from `i` on, that has the address. */
  function FirstHolding(regions: seq<FrameRegion>, addr: nat, i: nat): (r: nat)
    requires i <= |regions|
    ensures i <= r <= |regions|
    ensures r < |regions| ==> FrameIndex(regions[r], addr).Some?
    ensures forall j :: i <= j < r ==> FrameIndex(regions[j], addr).None?
    decreases |regions| - i
  {
    if i == |regions| || FrameIndex(regions[i], addr).Some? then i else FirstHolding(regions, addr, i + 1)
  }

  /** Where the table keeps an address: the first region that has it. */
  function LocationOf(regions: seq<FrameRegion>, addr: nat): (loc: Option<(nat, nat)>)
    ensures loc.Some? ==> InTable(regions, loc.value.0, loc.value.1)
  {
    var r := FirstHolding(regions, addr, 0);
    if r < |regions| then Some((r, FrameIndex(regions[r], addr).value)) else None
  }

  predicate AllocatedAt(regions: seq<FrameRegion>, loc: Option<(nat, nat)>) {
    loc.Some? && InTable(regions, loc.value.0, loc.value.1) && regions[loc.value.0].frames[loc.value.1] == Allocated
  }

  function Freed(regions: seq<FrameRegion>, r: nat, i: nat): seq<FrameRegion>
    requires InTable(regions, r, i)
  {
    regions[r := regions[r].(frames := regions[r].frames[i := Free])]
  }

  class FrameAllocator {
    var regions: seq<FrameRegion>
    var firstFree: Option<(nat, nat)>

    ghost predicate Valid()
      reads this
    {
      FirstFree(regions, firstFree)
    }

    constructor (regions: seq<FrameRegion>)
      ensures Valid() && this.regions == regions
    {
      this.regions, firstFree := regions, None;
      new;
      UpdateFirstFree(0, 0);
    }

    /** `position(Free)` from an index on. */
    static method FindFree(frames: seq<FrameState>, start: nat) returns (k: nat)
      ensures start <= k
      ensures forall j :: start <= j < k && j < |frames| ==> frames[j] != Free
      ensures k < |frames| ==> frames[k] == Free
      ensures k <= |frames| || k == start
    {
      k := start;
      while k < |frames| && frames[k] != Free
        invariant start <= k
        invariant forall j :: start <= j < k && j < |frames| ==> frames[j] != Free
        invariant k <= |frames| || k == start
      {
        k := k + 1;
      }
    }

    /** `update_first_free`, and `find_first_free_internal` when started at the origin. */
    method UpdateFirstFree(startRegion: nat, startIndex: nat)
      requires forall r, i :: FreeFrame(regions, r, i) ==> !Before(r, i, startRegion, startIndex)
      modifies `firstFree
      ensures Valid()
    {
      if startRegion < |regions| && startIndex < |regions[startRegion].frames| {
        var k := FindFree(regions[startRegion].frames, startIndex);
        if k < |regions[startRegion].frames| {
          firstFree := Some((startRegion, k));
          return;
        }
      }
      var r := startRegion + 1;
      while r < |regions|
        invariant startRegion < r
        invariant forall q, i :: FreeFrame(regions, q, i) ==> q >= r
      {
        var k := FindFree(regions[r].frames, 0);
        if k < |regions[r].frames| {
          firstFree := Some((r, k));
          return;
        }
        r := r + 1;
      }
      firstFree := None;
    }

    /** The check of one candidate run. */
    static method AllFree(frames: seq<FrameState>, i: nat, n: nat) returns (b: bool)
      requires i + n <= |frames|
      ensures b <==> forall k :: i <= k < i + n ==> frames[k] == Free
    {
      var k := i;
      while k < i + n
        invariant i <= k <= i + n && forall j :: i <= j < k ==> frames[j] == Free
      {
        if frames[k] != Free {
          return false;
        }
        k := k + 1;
      }
      return true;
    }

    /**
     `allocate_frames`: the first run of `n` free frames in table order. It fails exactly when no region has
     such a run, although the search skips everything before `first_free`.
     */
    method AllocateFrames(n: nat) returns (found: Option<(nat, nat)>)
      requires Valid() && n > 0
      modifies this
      ensures Valid()
      ensures found.None? ==> regions == old(regions) && forall r, i :: !RunAt(regions, r, i, n)
      ensures found.Some? ==>
                var (r, i) := found.value;
                && RunAt(old(regions), r, i, n) && regions == Filled(old(regions), r, i, n)
                && forall q, j :: RunAt(old(regions), q, j, n) ==> !Before(q, j, r, i)
    {
      if firstFree.None? {
        assert forall r, i :: RunAt(regions, r, i, n) ==> FreeFrame(regions, r, i);
        return None;
      }
      var (fr, fi) := firstFree.value;
      assert forall q, j :: RunAt(regions, q, j, n) ==> FreeFrame(regions, q, j);
      var r := fr;
      while r < |regions|
        invariant fr <= r && regions == old(regions) && firstFree == old(firstFree)
        invariant forall q, j :: RunAt(regions, q, j, n) ==> q >= r
      {
        var i := if r == fr then fi else 0;
        assert forall j :: RunAt(regions, r, j, n) ==> j >= i;
        while i + n <= |regions[r].frames|
          invariant regions == old(regions) && firstFree == old(firstFree)
          invariant r == fr ==> i >= fi
          invariant forall j :: RunAt(regions, r, j, n) ==> j >= i
        {
          var free := AllFree(regions[r].frames, i, n);
          if free {
            Take(r, i, n);
            return Some((r, i));
          }
          i := i + 1;
        }
        r := r + 1;
      }
      return None;
    }

    /** Mark a found run and move `first_free` past it when it started there. */
    method Take(r: nat, i: nat, n: nat)
      requires Valid() && n > 0 && RunAt(regions, r, i, n) && firstFree.Some?
      requires firstFree.value.0 <= r && (firstFree.value.0 == r ==> firstFree.value.1 <= i)
      modifies this
      ensures Valid() && regions == Filled(old(regions), r, i, n)
    {
      var (fr, fi) := firstFree.value;
      regions := Filled(regions, r, i, n);
      assert forall q, j :: FreeFrame(regions, q, j) <==> FreeFrame(old(regions), q, j) && !Covered(r, i, n, q, j);
      if r == fr && i <= fi {
        UpdateFirstFree(r, i + n);
      }
    }

    /** `find_frame_location`. */
    method Locate(addr: nat) returns (loc: Option<(nat, nat)>)
      ensures loc == LocationOf(regions, addr)
    {
      var r := 0;
      while r < |regions|
        invariant r <= |regions| && FirstHolding(regions, addr, 0) == FirstHolding(regions, addr, r)
      {
        var i := FrameIndex(regions[r], addr);
        if i.Some? {
          return Some((r, i.value));
        }
        r := r + 1;
      }
      return None;
    }

    /** `deallocate_frame`: succeeds exactly on an allocated frame of the table, and frees only it. */
    method DeallocateFrame(addr: nat) returns (ok: bool)
      requires Valid()
      modifies this
      ensures Valid()
      ensures ok <==> AllocatedAt(old(regions), LocationOf(old(regions), addr))
      ensures ok ==> var (r, i) := LocationOf(old(regions), addr).value; regions == Freed(old(regions), r, i)
      ensures !ok ==> regions == old(regions)
    {
      var loc := Locate(addr);
      if loc.None? {
        return false;
      }
      var (r, i) := loc.value;
      if regions[r].frames[i] != Allocated {
        return false;
      }
      regions := regions[r := regions[r].(frames := regions[r].frames[i := Free])];
      assert forall q, j :: FreeFrame(regions, q, j) <==> FreeFrame(old(regions), q, j) || (q == r && j == i);
      if firstFree.None? || Before(r, i, firstFree.value.0, firstFree.value.1) {
        firstFree := Some((r, i));
      }
      return true;
    }
  }

  /** A run of frames given back one by one, the first frame first. */
  function FreedRun(regions: seq<FrameRegion>, r: nat, i: nat, n: nat): (after: seq<FrameRegion>)
    requires r < |regions| && i + n <= |regions[r].frames|
    ensures |after| == |regions| && |after[r].frames| == |regions[r].frames|
  {
    if n == 0 then regions else Freed(FreedRun(regions, r, i, n - 1), r, i + n - 1)
  }

  lemma {:induction false} FreedRunFrames(regions: seq<FrameRegion>, r: nat, i: nat, n: nat)
    requires r < |regions| && i + n <= |regions[r].frames|
    ensures var after := FreedRun(regions, r, i, n);
            && (forall q :: 0 <= q < |regions| && q != r ==> after[q] == regions[q])
            && after[r].base == regions[r].base
            && forall k :: 0 <= k < |regions[r].frames| ==>
                 after[r].frames[k] == if i <= k < i + n then Free else regions[r].frames[k]
  {
    if n > 0 {
      FreedRunFrames(regions, r, i, n - 1);
    }
  }

  /**
   An allocated run is the run's frames and no other, and giving it back frame by frame restores the table, whatever
   its length.
   */
  lemma FreeUndoesFill(regions: seq<FrameRegion>, r: nat, i: nat, n: nat)
    requires RunAt(regions, r, i, n)
    ensures var filled := Filled(regions, r, i, n);
            && (forall q, j :: InTable(regions, q, j) ==>
                  InTable(filled, q, j)
                  && filled[q].frames[j] == if Covered(r, i, n, q, j) then Allocated else regions[q].frames[j])
            && FreedRun(filled, r, i, n) == regions
  {
    var filled := Filled(regions, r, i, n);
    FreedRunFrames(filled, r, i, n);
    var after := FreedRun(filled, r, i, n);
    assert after[r].frames == regions[r].frames;
    assert forall q :: 0 <= q < |regions| ==> after[q] == regions[q];
  }
}
