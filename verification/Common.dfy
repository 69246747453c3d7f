/** Shared value types, machine-integer arithmetic and sums. */
module Common {

  datatype Option<+T> = None | Some(value: T)

  newtype Byte = x: int | 0 <= x < 256

  const U64_MAX: nat := 0xffff_ffff_ffff_ffff
  const USIZE_MAX: nat := U64_MAX
  const U32_MAX: nat := 0xffff_ffff

  function Min(a: nat, b: nat): nat {
    if a <= b then a else b
  }

  function Max(a: nat, b: nat): nat {
    if a <= b then b else a
  }

  /** `u64::saturating_add`. */
  function SatAdd(a: nat, b: nat): nat {
    Min(a + b, U64_MAX)
  }

  /** `usize::saturating_sub`. */
  function SatSub(a: nat, b: nat): nat {
    if b <= a then a - b else 0
  }

  /** `u64::saturating_mul`. */
  function SatMul(a: nat, b: nat): nat {
    Min(a * b, U64_MAX)
  }

  // ---------------------------------------------------------------- sums over sequences

  function Sum(ws: seq<nat>): nat {
    if ws == [] then 0 else Sum(ws[..|ws| - 1]) + ws[|ws| - 1]
  }

  lemma SumAppend(ws: seq<nat>, w: nat)
    ensures Sum(ws + [w]) == Sum(ws) + w
  {
    assert (ws + [w])[..|ws|] == ws;
  }

  lemma {:induction false} SumUpdate(ws: seq<nat>, i: nat, w: nat)
    requires i < |ws|
    ensures Sum(ws[i := w]) + ws[i] == Sum(ws) + w
  {
    var n := |ws| - 1;
    if i == n {
      assert ws[i := w][..n] == ws[..n];
    } else {
      assert ws[i := w][..n] == ws[..n][i := w];
      SumUpdate(ws[..n], i, w);
    }
  }

  lemma {:induction false} SumAtLeast(ws: seq<nat>, i: nat)
    requires i < |ws|
    ensures ws[i] <= Sum(ws)
  {
    if i < |ws| - 1 {
      SumAtLeast(ws[..|ws| - 1], i);
    }
  }

  lemma {:induction false} SumZero(ws: seq<nat>)
    ensures Sum(ws) == 0 <==> forall i :: 0 <= i < |ws| ==> ws[i] == 0
  {
    if ws != [] {
      SumZero(ws[..|ws| - 1]);
    }
  }

  /** Pointwise splitting of a sum. */
  lemma {:induction false} SumSplit(ws: seq<nat>, us: seq<nat>, vs: seq<nat>)
    requires |ws| == |us| == |vs|
    requires forall i :: 0 <= i < |ws| ==> ws[i] == us[i] + vs[i]
    ensures Sum(ws) == Sum(us) + Sum(vs)
  {
    if ws != [] {
      var n := |ws| - 1;
      SumSplit(ws[..n], us[..n], vs[..n]);
    }
  }

  // -------------------------------------------------------------------- sums over maps

  ghost function SumMap<K(!new)>(m: map<K, nat>): nat
    decreases m.Keys
  {
    if m == map[] then 0
    else
      var k :| k in m;
      m[k] + SumMap(m - {k})
  }

  lemma {:induction false} SumMapRemove<K(!new)>(m: map<K, nat>, k: K)
    requires k in m
    ensures SumMap(m) == m[k] + SumMap(m - {k})
    decreases m.Keys
  {
    var j :| j in m && SumMap(m) == m[j] + SumMap(m - {j});
    if j != k {
      SumMapRemove(m - {j}, k);
      assert (m - {j}) - {k} == (m - {k}) - {j};
      SumMapRemove(m - {k}, j);
    }
  }

  lemma SumMapInsert<K(!new)>(m: map<K, nat>, k: K, v: nat)
    requires k !in m
    ensures SumMap(m[k := v]) == SumMap(m) + v
  {
    SumMapRemove(m[k := v], k);
    assert m[k := v] - {k} == m;
  }

  lemma {:induction false} SumMapSplit<K(!new)>(m: map<K, nat>, ks: set<K>)
    ensures SumMap(m) == SumMap(m - ks) + SumMap(m - (m.Keys - ks))
    decreases m.Keys
  {
    if m == map[] {
      assert m - ks == m && m - (m.Keys - ks) == m;
    } else {
      var k :| k in m;
      var r := m - {k};
      SumMapRemove(m, k);
      SumMapSplit(r, ks);
      if k in ks {
        assert r - ks == m - ks;
        assert (m - (m.Keys - ks)) - {k} == r - (r.Keys - ks);
        SumMapRemove(m - (m.Keys - ks), k);
      } else {
        assert r - (r.Keys - ks) == m - (m.Keys - ks);
        assert (m - ks) - {k} == r - ks;
        SumMapRemove(m - ks, k);
      }
    }
  }

  /** A number above every element. */
  lemma {:induction false} Above(s: set<nat>) returns (n: nat)
    ensures n !in s && forall x :: x in s ==> x < n
    decreases s
  {
    if s == {} {
      n := 0;
    } else {
      var x :| x in s;
      var m := Above(s - {x});
      n := Max(m, x + 1);
      assert forall y :: y in s ==> y == x || y in s - {x};
    }
  }
}
