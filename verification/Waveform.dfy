/** Edges of a two-channel capture and what they say about its levels (scripts/hil/v03d-reduce.py). */
module Waveform {

  /** Levels of one channel, one per sample; true is high. */
  type Levels = seq<bool>

  /** Samples at which a channel goes from high to low, by comparing each sample with the one before. */
  function Falls(bits: Levels): seq<nat> {
    if |bits| < 2 then []
    else
      var n := |bits| - 1;
      Falls(bits[..n]) + (if bits[n - 1] && !bits[n] then [n] else [])
  }

  function Rises(bits: Levels): seq<nat> {
    if |bits| < 2 then []
    else
      var n := |bits| - 1;
      Rises(bits[..n]) + (if !bits[n - 1] && bits[n] then [n] else [])
  }

  /** How many of the listed samples are at or before `s`. */
  function UpTo(edges: seq<nat>, s: nat): nat {
    if edges == [] then 0
    else UpTo(edges[..|edges| - 1], s) + (if edges[|edges| - 1] <= s then 1 else 0)
  }

  ghost predicate Ascending(edges: seq<nat>) {
    forall i, j :: 0 <= i < j < |edges| ==> edges[i] < edges[j]
  }

  ghost predicate Below(edges: seq<nat>, n: nat) {
    forall i :: 0 <= i < |edges| ==> edges[i] < n
  }

  /** One more sample adds at most one edge, at itself. */
  lemma EdgeNext(bits: Levels)
    requires |bits| >= 2
    ensures var n := |bits| - 1;
            && Falls(bits) == (if bits[n - 1] && !bits[n] then Falls(bits[..n]) + [n] else Falls(bits[..n]))
            && Rises(bits) == (if !bits[n - 1] && bits[n] then Rises(bits[..n]) + [n] else Rises(bits[..n]))
  {
    var n := |bits| - 1;
    assert Falls(bits[..n]) + [] == Falls(bits[..n]) && Rises(bits[..n]) + [] == Rises(bits[..n]);
  }

  lemma EdgeNone(bits: Levels)
    requires |bits| < 2
    ensures Falls(bits) == [] && Rises(bits) == [] && forall s :: UpTo([], s) == 0
  {
  }

  lemma {:induction false} EdgesAscending(bits: Levels)
    ensures Ascending(Falls(bits)) && Below(Falls(bits), |bits|)
    ensures Ascending(Rises(bits)) && Below(Rises(bits), |bits|)
  {
    hide Falls, Rises;
    if |bits| < 2 {
      EdgeNone(bits);
    } else {
      EdgesAscending(bits[..|bits| - 1]);
      EdgeNext(bits);
    }
  }

  /** The lists hold exactly the samples where the level moves. */
  lemma {:induction false} EdgesExact(bits: Levels, s: nat)
    ensures s in Falls(bits) <==> 0 < s < |bits| && bits[s - 1] && !bits[s]
    ensures s in Rises(bits) <==> 0 < s < |bits| && !bits[s - 1] && bits[s]
  {
    hide Falls, Rises;
    if |bits| < 2 {
      EdgeNone(bits);
    } else {
      EdgesExact(bits[..|bits| - 1], s);
      EdgeNext(bits);
    }
  }

  lemma {:induction false} UpToAll(edges: seq<nat>, s: nat)
    requires Below(edges, s + 1)
    ensures UpTo(edges, s) == |edges|
  {
    if edges != [] {
      UpToAll(edges[..|edges| - 1], s);
    }
  }

  lemma UpToAppend(edges: seq<nat>, e: nat, s: nat)
    ensures UpTo(edges + [e], s) == UpTo(edges, s) + (if e <= s then 1 else 0)
  {
    assert (edges + [e])[..|edges|] == edges;
  }

  lemma {:induction false} UpToAtLeast(edges: seq<nat>, i: nat, s: nat)
    requires Ascending(edges) && i < |edges| && edges[i] <= s
    ensures UpTo(edges, s) >= i + 1
  {
    if i == |edges| - 1 {
      UpToAll(edges[..i], s);
    } else {
      UpToAtLeast(edges[..|edges| - 1], i, s);
    }
  }

  lemma {:induction false} UpToAtMost(edges: seq<nat>, i: nat, s: nat)
    requires Ascending(edges) && (i < |edges| ==> edges[i] > s)
    ensures UpTo(edges, s) <= i
  {
    if |edges| > 0 {
      UpToAtMost(edges[..|edges| - 1], i, s);
      if |edges| <= i {
        UpToLength(edges, s);
      }
    }
  }

  lemma {:induction false} UpToLength(edges: seq<nat>, s: nat)
    ensures UpTo(edges, s) <= |edges|
  {
    if edges != [] {
      UpToLength(edges[..|edges| - 1], s);
    }
  }

  function Bit(b: bool): nat {
    if b then 1 else 0
  }

  /** A level is the first level plus the rises so far minus the falls so far. */
  lemma {:induction false} LevelFromEdges(bits: Levels, s: nat)
    requires s < |bits|
    ensures Bit(bits[s]) + UpTo(Falls(bits), s) == Bit(bits[0]) + UpTo(Rises(bits), s)
  {
    hide Falls, Rises, UpTo;
    var n := |bits| - 1;
    if n == 0 {
      EdgeNone(bits);
    } else {
      var f, r := Falls(bits[..n]), Rises(bits[..n]);
      EdgeNext(bits);
      UpToAppend(f, n, s);
      UpToAppend(r, n, s);
      if s < n {
        LevelFromEdges(bits[..n], s);
      } else {
        EdgesAscending(bits[..n]);
        LevelFromEdges(bits[..n], n - 1);
        UpToAll(f, n - 1);
        UpToAll(r, n - 1);
        UpToAll(f, n);
        UpToAll(r, n);
      }
    }
  }
}
