/** Captures that must pass: every press answered in time, however long each level is held. */
module EstopCapture {
  import opened Common
  import opened EstopScan
  import opened EstopVerdict

  /** Samples each stage of a press lasts: e-stop low, output low, e-stop released, output re-armed. */
  datatype Press = Press(react: nat, hold: nat, release: nat, rest: nat)

  predicate Proper(p: Press) {
    0 < p.react < LIMIT_SAMPLES && p.hold > 0 && p.release > 0 && p.rest > 0
  }

  function Held(level: nat, n: nat): seq<nat> {
    seq(n, _ => level)
  }

  /** Both high for a while, then the presses before the last. */
  function Presses(idle: nat, ps: seq<Press>): seq<nat> {
    if ps == [] then Held(3, idle)
    else
      var p := ps[|ps| - 1];
      Presses(idle, ps[..|ps| - 1]) + Held(2, p.react) + Held(0, p.hold) + Held(1, p.release) + Held(3, p.rest)
  }

  /** The last press ends safe; its output may fall in the very sample of the e-stop. */
  function Recording(idle: nat, ps: seq<Press>, react: nat, hold: nat): seq<nat> {
    Presses(idle, ps) + Held(2, react) + Held(0, hold)
  }

  lemma {:induction false} HeldEdges(samples: seq<nat>, value: nat, n: nat)
    requires samples != [] && n > 0
    ensures EdgesOf(samples + Held(value, n)) ==
            WithEdge(EdgesOf(samples), |samples|, samples[|samples| - 1], value).(final := Some(Pair(value)))
  {
    hide EdgesOf, WithEdge, Pair;
    if n == 1 {
      assert Held(value, 1) == [value];
      EdgesNext(samples, value);
    } else {
      HeldEdges(samples, value, n - 1);
      assert samples + Held(value, n) == (samples + Held(value, n - 1)) + [value];
      EdgesRepeat(samples + Held(value, n - 1), value);
    }
  }

  lemma {:induction false} IdleEdges(idle: nat)
    requires idle > 0
    ensures EdgesOf(Held(3, idle)) == Edges([], [], [], [], Some((true, true)), Some((true, true)))
  {
    hide EdgesOf;
    if idle == 1 {
      assert Held(3, 1) == [] + [3];
      EdgesNext([], 3);
    } else {
      IdleEdges(idle - 1);
      assert Held(3, idle) == Held(3, idle - 1) + [3];
      EdgesRepeat(Held(3, idle - 1), 3);
    }
  }

  /** Press `i` is answered in time and re-armed. */
  ghost predicate Complete(e: Edges, i: nat)
    requires i < |e.d0Falls| && i < |e.d1Falls| && i < |e.d0Rises| && i < |e.d1Rises|
  {
    e.d0Falls[i] < e.d1Falls[i] < e.d0Rises[i] < e.d1Rises[i] && e.d1Falls[i] - e.d0Falls[i] < LIMIT_SAMPLES
  }

  /** All `k` presses so far are complete, in order, before sample `n`. */
  ghost predicate Ready(e: Edges, k: nat, n: nat) {
    && e.initial == Some((true, true)) && e.final == Some((true, true))
    && |e.d0Falls| == |e.d1Falls| == |e.d0Rises| == |e.d1Rises| == k
    && (forall i :: 0 <= i < k ==> Complete(e, i))
    && (forall i :: 0 <= i < k - 1 ==> e.d1Rises[i] < e.d0Falls[i + 1])
    && (k > 0 ==> e.d1Rises[k - 1] < n)
  }

  lemma PressEdges(before: seq<nat>, p: Press)
    requires before != [] && before[|before| - 1] == 3 && Proper(p)
    ensures var n := |before|;
            var e := EdgesOf(before);
            EdgesOf(before + Held(2, p.react) + Held(0, p.hold) + Held(1, p.release) + Held(3, p.rest)) ==
              Edges(e.d0Falls + [n], e.d0Rises + [n + p.react + p.hold],
                    e.d1Falls + [n + p.react], e.d1Rises + [n + p.react + p.hold + p.release],
                    e.initial, Some((true, true)))
  {
    hide EdgesOf;
    HeldEdges(before, 2, p.react);
    HeldEdges(before + Held(2, p.react), 0, p.hold);
    HeldEdges(before + Held(2, p.react) + Held(0, p.hold), 1, p.release);
    HeldEdges(before + Held(2, p.react) + Held(0, p.hold) + Held(1, p.release), 3, p.rest);
  }

  lemma {:induction false} PressesReady(idle: nat, ps: seq<Press>)
    requires idle > 0 && forall p :: p in ps ==> Proper(p)
    ensures var samples := Presses(idle, ps);
            && samples != [] && samples[|samples| - 1] == 3
            && Ready(EdgesOf(samples), |ps|, |samples|)
  {
    hide EdgesOf, Held, Ready;
    if ps == [] {
      IdleEdges(idle);
      HeldLevels(3, idle);
      IdleReady(idle);
    } else {
      var p := ps[|ps| - 1];
      var before := Presses(idle, ps[..|ps| - 1]);
      PressesReady(idle, ps[..|ps| - 1]);
      PressEdges(before, p);
      HeldLevels(2, p.react);
      HeldLevels(0, p.hold);
      HeldLevels(1, p.release);
      HeldLevels(3, p.rest);
      ReadyNext(EdgesOf(before), |ps| - 1, |before|, p);
    }
  }

  lemma IdleReady(n: nat)
    ensures Ready(Edges([], [], [], [], Some((true, true)), Some((true, true))), 0, n)
  {
  }

  lemma HeldLevels(level: nat, n: nat)
    ensures |Held(level, n)| == n && forall i :: 0 <= i < n ==> Held(level, n)[i] == level
  {
  }

  lemma ReadyNext(e: Edges, k: nat, n: nat, p: Press)
    requires Ready(e, k, n) && Proper(p)
    ensures Ready(Edges(e.d0Falls + [n], e.d0Rises + [n + p.react + p.hold],
                        e.d1Falls + [n + p.react], e.d1Rises + [n + p.react + p.hold + p.release],
                        e.initial, Some((true, true))),
                  k + 1, n + p.react + p.hold + p.release + p.rest)
  {
    var e' := Edges(e.d0Falls + [n], e.d0Rises + [n + p.react + p.hold],
                    e.d1Falls + [n + p.react], e.d1Rises + [n + p.react + p.hold + p.release],
                    e.initial, Some((true, true)));
    forall i | 0 <= i < k + 1
      ensures Complete(e', i)
    {
      if i < k {
        assert Complete(e, i);
      }
    }
  }

  lemma LastPress(before: seq<nat>, react: nat, hold: nat)
    requires before != [] && before[|before| - 1] == 3 && hold > 0
    ensures var n := |before|;
            var e := EdgesOf(before);
            EdgesOf(before + Held(2, react) + Held(0, hold)) ==
              e.(d0Falls := e.d0Falls + [n], d1Falls := e.d1Falls + [n + react], final := Some((false, false)))
  {
    hide EdgesOf;
    if react == 0 {
      assert before + Held(2, react) == before;
    } else {
      HeldEdges(before, 2, react);
    }
    HeldEdges(before + Held(2, react), 0, hold);
  }

  lemma ReadyClean(e: Edges, k: nat, n: nat, react: nat)
    requires Ready(e, k, n) && react < LIMIT_SAMPLES
    ensures var e' := e.(d0Falls := e.d0Falls + [n], d1Falls := e.d1Falls + [n + react], final := Some((false, false)));
            Clean(e', k + 1) && Fast(e')
  {
    var e' := e.(d0Falls := e.d0Falls + [n], d1Falls := e.d1Falls + [n + react], final := Some((false, false)));
    forall i | 0 <= i < |e'.d0Falls|
      ensures PressOk(e', i) && Latency(e', i) < LIMIT_NS
    {
      if i < k {
        assert Complete(e, i);
      }
      NsLimit(e'.d1Falls[i] - e'.d0Falls[i]);
    }
  }

  /**
   Every capture that begins high, answers each press within 24,000 samples, re-arms only after the release and ends
   safe is good, whatever the other six bits of its bytes hold and however it is cut into chunks.
   */
  lemma ProperCapturePasses(chunks: seq<seq<Byte>>, idle: nat, ps: seq<Press>, react: nat, hold: nat)
    requires idle > 0 && hold > 0 && react < LIMIT_SAMPLES && forall p :: p in ps ==> Proper(p)
    requires var data, want := Concat(chunks), Recording(idle, ps, react, hold);
             |data| == |want| && forall s :: 0 <= s < |data| ==> data[s] as int % 4 == want[s]
    ensures Good(Some(chunks), |ps| + 1)
  {
    hide Clean, Fast, EdgesOf, Concat, Held;
    var before := Presses(idle, ps);
    CuttingIrrelevant(chunks);
    assert Samples(chunks) == Recording(idle, ps, react, hold);
    hide Samples, Presses;
    PressesReady(idle, ps);
    LastPress(before, react, hold);
    ReadyClean(EdgesOf(before), |ps|, |before|, react);
  }
}
