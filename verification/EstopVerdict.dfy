/** Validation and verdict of the e-stop capture reducer (scripts/hil/v03d-reduce.py). */
module EstopVerdict {
  import opened Common
  import opened Waveform
  import opened EstopScan

  const LIMIT_NS: nat := 1_000_000
  const LIMIT_SAMPLES: nat := 24_000

  /** Nanoseconds of a sample count at 24 MHz, rounded to nearest: 125/3 per sample, so never a tie. */
  function Ns(samples: nat): nat {
    (250 * samples + 3) / 6
  }

  /** Below one millisecond exactly when below 24,000 samples. */
  lemma NsLimit(samples: nat)
    ensures Ns(samples) < LIMIT_NS <==> samples < LIMIT_SAMPLES
  {
  }

  // ------------------------------------------------------------------------ validation

  datatype Complaint =
    | BadStart | BadEnd | BadCount(channel: nat) | NoResponse(press: nat) | EarlyResponse(press: nat)
    | LateResponse(press: nat) | MissingRearm(press: nat) | Misaligned(press: nat) | ExtraResponse(at: nat)

  /** Press `i` is answered: safe output, then release, then re-arm, then the next press. */
  predicate PressOk(e: Edges, i: nat)
    requires i < |e.d0Falls|
  {
    && i < |e.d1Falls| && e.d0Falls[i] <= e.d1Falls[i]
    && (i + 1 < |e.d0Falls| ==>
          && i < |e.d0Rises| && i < |e.d1Rises|
          && e.d0Falls[i] < e.d1Falls[i] < e.d0Rises[i] < e.d1Rises[i] < e.d0Falls[i + 1])
  }

  predicate Counted(e: Edges, expected: int) {
    |e.d0Falls| == expected && |e.d0Rises| == expected - 1 && |e.d1Falls| == expected && |e.d1Rises| == expected - 1
  }

  predicate Framed(e: Edges) {
    e.initial == Some((true, true)) && e.final == Some((false, false))
  }

  ghost predicate Clean(e: Edges, expected: int) {
    Framed(e) && Counted(e, expected) && forall i :: 0 <= i < |e.d0Falls| ==> PressOk(e, i)
  }

  function Latency(e: Edges, i: nat): nat
    requires i < |e.d0Falls| && i < |e.d1Falls| && e.d0Falls[i] <= e.d1Falls[i]
  {
    Ns(e.d1Falls[i] - e.d0Falls[i])
  }

  /** The count checks. */
  method CheckCounts(e: Edges, expected: int) returns (errors: seq<Complaint>)
    ensures errors == [] <==> Framed(e) && Counted(e, expected)
  {
    errors := [];
    if e.initial != Some((true, true)) {
      errors := errors + [BadStart];
    }
    if e.final != Some((false, false)) {
      errors := errors + [BadEnd];
    }
    var actual: seq<int> := [|e.d0Falls|, |e.d0Rises|, |e.d1Falls|, |e.d1Rises|];
    var wanted: seq<int> := [expected, expected - 1, expected, expected - 1];
    var i := 0;
    while i < 4
      invariant 0 <= i <= 4
      invariant errors == [] <==> Framed(e) && forall j :: 0 <= j < i ==> actual[j] == wanted[j]
    {
      if actual[i] != wanted[i] {
        errors := errors + [BadCount(i)];
      }
      i := i + 1;
    }
    assert actual[0] == |e.d0Falls| && actual[1] == |e.d0Rises| && actual[2] == |e.d1Falls| && actual[3] == |e.d1Rises|;
  }

  /** The checks of one press, in the source's order. */
  method CheckPress(e: Edges, i: nat) returns (errors: seq<Complaint>, latency: Option<nat>)
    requires i < |e.d0Falls| && i < |e.d1Falls|
    ensures errors == [] <==> PressOk(e, i)
    ensures errors == [] ==> latency == Some(Latency(e, i))
  {
    errors, latency := [], None;
    var d0, d1 := e.d0Falls[i], e.d1Falls[i];
    if d1 < d0 {
      errors := errors + [EarlyResponse(i)];
    } else if i + 1 < |e.d0Falls| && d1 >= e.d0Falls[i + 1] {
      errors := errors + [LateResponse(i)];
    } else {
      latency := Some(Ns(d1 - d0));
    }
    if i + 1 < |e.d0Falls| {
      if i >= |e.d0Rises| || i >= |e.d1Rises| {
        errors := errors + [MissingRearm(i)];
      } else if !(d0 < d1 < e.d0Rises[i] < e.d1Rises[i] < e.d0Falls[i + 1]) {
        errors := errors + [Misaligned(i)];
      }
    }
  }

  /** `validate`: no complaint exactly when the capture is clean, and then one latency per press. */
  method Validate(e: Edges, expected: int) returns (latencies: seq<nat>, errors: seq<Complaint>)
    ensures errors == [] <==> Clean(e, expected)
    ensures errors == [] ==> Answered(e, latencies, |e.d0Falls|)
  {
    hide PressOk, Framed, Counted;
    errors := CheckCounts(e, expected);
    latencies := [];
    var i := 0;
    while i < |e.d0Falls|
      invariant i <= |e.d0Falls|
      invariant errors == [] <==> Framed(e) && Counted(e, expected) && forall k :: 0 <= k < i ==> PressOk(e, k)
      invariant errors == [] ==> Answered(e, latencies, i)
    {
      PressAnswered(e, i);
      if i >= |e.d1Falls| {
        errors := errors + [NoResponse(i)];
        break;
      }
      var wrong, latency := CheckPress(e, i);
      if latency.Some? {
        latencies := latencies + [latency.value];
      }
      errors := errors + wrong;
      i := i + 1;
    }
    CountedExtra(e, expected);
    if |e.d1Falls| > |e.d0Falls| {
      errors := errors + [ExtraResponse(e.d1Falls[|e.d0Falls|])];
    }
  }

  ghost predicate Answered(e: Edges, latencies: seq<nat>, n: nat) {
    && |latencies| == n <= |e.d0Falls|
    && forall k :: 0 <= k < n ==> k < |e.d1Falls| && e.d0Falls[k] <= e.d1Falls[k] && latencies[k] == Latency(e, k)
  }

  lemma PressAnswered(e: Edges, i: nat)
    requires i < |e.d0Falls|
    ensures PressOk(e, i) ==> i < |e.d1Falls| && e.d0Falls[i] <= e.d1Falls[i]
  {
  }

  lemma CountedExtra(e: Edges, expected: int)
    ensures Counted(e, expected) ==> |e.d1Falls| == |e.d0Falls|
  {
  }

  // ------------------------------------------------------------------- what a clean capture says

  /** The measured window of press `i`: from the e-stop's fall to the output's. */
  predicate InWindow(e: Edges, i: nat, s: nat) {
    i < |e.d0Falls| && i < |e.d1Falls| && e.d0Falls[i] <= s < e.d1Falls[i]
  }

  lemma ChannelLevels(samples: seq<nat>, s: nat)
    requires s < |samples|
    ensures var e := EdgesOf(samples);
            && Bit(D0(samples[s])) + UpTo(e.d0Falls, s) == Bit(D0(samples[0])) + UpTo(e.d0Rises, s)
            && Bit(D1(samples[s])) + UpTo(e.d1Falls, s) == Bit(D1(samples[0])) + UpTo(e.d1Rises, s)
            && Ascending(e.d0Falls) && Ascending(e.d0Rises) && Ascending(e.d1Falls) && Ascending(e.d1Rises)
            && e.initial == Some(Pair(samples[0]))
  {
    LevelFromEdges(Channel0(samples), s);
    LevelFromEdges(Channel1(samples), s);
    EdgesAscending(Channel0(samples));
    EdgesAscending(Channel1(samples));
  }

  /** While the e-stop is low the sample lies between a fall and the matching rise. */
  lemma PressOf(samples: seq<nat>, expected: int, s: nat) returns (i: nat)
    requires s < |samples| && Clean(EdgesOf(samples), expected) && !D0(samples[s])
    ensures var e := EdgesOf(samples);
            && i < |e.d0Falls| && e.d0Falls[i] <= s
            && (i < |e.d0Rises| ==> s < e.d0Rises[i])
  {
    hide PressOk, EdgesOf, UpTo;
    var e := EdgesOf(samples);
    ChannelLevels(samples, s);
    i := UpTo(e.d0Rises, s);
    assert UpTo(e.d0Falls, s) == i + 1;
    UpToLength(e.d0Falls, s);
    if e.d0Falls[i] > s {
      UpToAtMost(e.d0Falls, i, s);
    }
    if i < |e.d0Rises| && e.d0Rises[i] <= s {
      UpToAtLeast(e.d0Rises, i, s);
    }
  }

  /** Inside a press, the output is low from its own fall on. */
  lemma OutputLow(samples: seq<nat>, expected: int, s: nat, i: nat)
    requires s < |samples| && Clean(EdgesOf(samples), expected)
    requires var e := EdgesOf(samples);
             && i < |e.d0Falls| && (i < |e.d0Rises| ==> s < e.d0Rises[i])
             && i < |e.d1Falls| && e.d1Falls[i] <= s
    ensures !D1(samples[s])
  {
    hide EdgesOf, UpTo;
    var e := EdgesOf(samples);
    ChannelLevels(samples, s);
    assert PressOk(e, i);
    UpToAtLeast(e.d1Falls, i, s);
    UpToAtMost(e.d1Rises, i, s);
  }

  /** Inside a window the e-stop is low and the output still high. */
  lemma WindowLevels(samples: seq<nat>, expected: int, s: nat, i: nat)
    requires s < |samples| && Clean(EdgesOf(samples), expected) && InWindow(EdgesOf(samples), i, s)
    ensures !D0(samples[s]) && D1(samples[s])
  {
    hide EdgesOf, UpTo;
    var e := EdgesOf(samples);
    ChannelLevels(samples, s);
    assert PressOk(e, i);
    UpToAtLeast(e.d0Falls, i, s);
    UpToAtMost(e.d0Rises, i, s);
    UpToAtMost(e.d1Falls, i, s);
    if i > 0 {
      assert PressOk(e, i - 1);
      UpToAtLeast(e.d1Rises, i - 1, s);
    }
  }

  /**
   For every waveform that validates, the e-stop is low with the output high exactly inside the measured windows:
   everywhere else a low e-stop means a low output.
   */
  lemma UnsafeExactlyWindows(samples: seq<nat>, expected: int, s: nat)
    requires s < |samples| && Clean(EdgesOf(samples), expected)
    ensures !D0(samples[s]) && D1(samples[s]) <==> exists i: nat :: InWindow(EdgesOf(samples), i, s)
  {
    hide EdgesOf;
    var e := EdgesOf(samples);
    if !D0(samples[s]) && D1(samples[s]) {
      var i := PressOf(samples, expected, s);
      assert PressOk(e, i);
      if e.d1Falls[i] <= s {
        OutputLow(samples, expected, s, i);
      }
      assert InWindow(e, i, s);
    }
    if i: nat :| InWindow(e, i, s) {
      WindowLevels(samples, expected, s, i);
    }
  }

  // --------------------------------------------------------------------------- verdict

  datatype Verdict = Pass | Fail | Usage

  /** A capture that could not be read is `None`. */
  type Capture = Option<seq<seq<Byte>>>

  ghost predicate Fast(e: Edges) {
    forall i :: 0 <= i < |e.d0Falls| && i < |e.d1Falls| && e.d0Falls[i] <= e.d1Falls[i] ==> Latency(e, i) < LIMIT_NS
  }

  ghost predicate CleanCapture(c: Capture, count: nat) {
    c.Some? && Clean(EdgesOf(Samples(c.value)), count)
  }

  ghost predicate FastCapture(c: Capture) {
    c.Some? && Fast(EdgesOf(Samples(c.value)))
  }

  ghost predicate Good(c: Capture, count: nat) {
    CleanCapture(c, count) && FastCapture(c)
  }

  /** Read and validate one capture. */
  method Measure(c: Capture, count: nat) returns (ok: bool, latencies: seq<nat>)
    ensures ok <==> CleanCapture(c, count)
    ensures ok ==> |latencies| == count && (AllFast(latencies) <==> FastCapture(c))
  {
    hide Clean, EdgesOf, Samples;
    if c.None? {
      return false, [];
    }
    var edges := Scan(c.value);
    var errors;
    latencies, errors := Validate(edges, count);
    ok := errors == [];
    if ok {
      CleanFast(edges, count, latencies);
    }
  }

  /** The last two checks over all latencies. */
  method MaxBelow(latencies: seq<nat>) returns (ok: bool)
    ensures ok <==> AllFast(latencies)
  {
    var i := 0;
    while i < |latencies|
      invariant i <= |latencies| && forall j :: 0 <= j < i ==> latencies[j] < LIMIT_NS
    {
      if latencies[i] >= LIMIT_NS {
        return false;
      }
      i := i + 1;
    }
    return true;
  }

  ghost predicate AllFast(latencies: seq<nat>) {
    forall i :: 0 <= i < |latencies| ==> latencies[i] < LIMIT_NS
  }

  lemma FastAppend(a: seq<nat>, b: seq<nat>)
    ensures AllFast(a + b) <==> AllFast(a) && AllFast(b)
  {
    if AllFast(a + b) {
      forall i | 0 <= i < |a|
        ensures a[i] < LIMIT_NS
      {
        assert (a + b)[i] == a[i];
      }
      forall i | 0 <= i < |b|
        ensures b[i] < LIMIT_NS
      {
        assert (a + b)[|a| + i] == b[i];
      }
    }
  }

  lemma CleanFast(e: Edges, expected: int, latencies: seq<nat>)
    requires Clean(e, expected) && Answered(e, latencies, |e.d0Falls|)
    ensures AllFast(latencies) <==> Fast(e)
    ensures |latencies| == expected
  {
    if AllFast(latencies) {
      forall i | 0 <= i < |e.d0Falls| && i < |e.d1Falls| && e.d0Falls[i] <= e.d1Falls[i]
        ensures Latency(e, i) < LIMIT_NS
      {
        assert latencies[i] == Latency(e, i);
      }
    }
    if Fast(e) {
      forall i | 0 <= i < |latencies|
        ensures latencies[i] < LIMIT_NS
      {
        assert PressOk(e, i);
        assert Latency(e, i) < LIMIT_NS;
      }
    }
  }

  /**
   A PASS verdict bounds the hazard: in each capture, whenever the e-stop is low the output is low, except within
   fewer than 24,000 samples (one millisecond) after a fall of the e-stop.
   */
  lemma PassMeansSafe(captures: seq<Capture>, count: nat, c: nat, s: nat)
    requires c < |captures| && Good(captures[c], count) && s < |Samples(captures[c].value)|
    requires !D0(Samples(captures[c].value)[s])
    ensures var samples := Samples(captures[c].value);
            var e := EdgesOf(samples);
            || !D1(samples[s])
            || exists i: nat :: InWindow(e, i, s) && e.d1Falls[i] - e.d0Falls[i] < LIMIT_SAMPLES
  {
    hide EdgesOf, Samples;
    var samples := Samples(captures[c].value);
    var e := EdgesOf(samples);
    UnsafeExactlyWindows(samples, count, s);
    if D1(samples[s]) {
      var i: nat :| InWindow(e, i, s);
      assert PressOk(e, i);
      NsLimit(e.d1Falls[i] - e.d0Falls[i]);
      assert Latency(e, i) < LIMIT_NS;
    }
  }

  /** The output is high while the e-stop is low only in a window under a millisecond: both falls are in the bytes. */
  ghost predicate Safe(data: seq<Byte>) {
    forall s :: 0 <= s < |data| && !High(data[s], 0) && High(data[s], 1) ==>
      exists f: nat, g: nat :: f <= s < g < f + LIMIT_SAMPLES && FallsAt(data, 0, f) && FallsAt(data, 1, g)
  }

  lemma WindowBytes(c: Capture, count: nat, s: nat)
    requires Good(c, count) && s < |Concat(c.value)| && !High(Concat(c.value)[s], 0) && High(Concat(c.value)[s], 1)
    ensures exists f: nat, g: nat ::
              f <= s < g < f + LIMIT_SAMPLES && FallsAt(Concat(c.value), 0, f) && FallsAt(Concat(c.value), 1, g)
  {
    hide EdgesOf, Samples, Clean, Fast, Concat, High, FallsAt, RisesAt;
    var data, samples := Concat(c.value), Samples(c.value);
    var e := EdgesOf(samples);
    CuttingIrrelevant(c.value);
    ScanDescribes(c.value);
    LevelBits(data[s]);
    PassMeansSafe([c], count, 0, s);
    var i: nat :| InWindow(e, i, s) && e.d1Falls[i] - e.d0Falls[i] < LIMIT_SAMPLES;
    assert e.d0Falls[i] in e.d0Falls && e.d1Falls[i] in e.d1Falls;
  }

  lemma CaptureRead(c: Capture, count: nat)
    requires Good(c, count)
    ensures c.Some?
  {
  }

  lemma GoodIsSafe(c: Capture, count: nat)
    requires Good(c, count)
    ensures Safe(Concat(c.value))
  {
    hide CleanCapture, FastCapture, Concat, High, FallsAt;
    assert c.Some? by { CaptureRead(c, count); }
    forall s | 0 <= s < |Concat(c.value)| && !High(Concat(c.value)[s], 0) && High(Concat(c.value)[s], 1)
      ensures exists f: nat, g: nat ::
                f <= s < g < f + LIMIT_SAMPLES && FallsAt(Concat(c.value), 0, f) && FallsAt(Concat(c.value), 1, g)
    {
      WindowBytes(c, count, s);
    }
  }

  /** `main`: PASS exactly when every capture is readable, clean and fast. */
  method Judge(captures: seq<Capture>, count: nat) returns (v: Verdict)
    ensures v == Usage <==> captures == [] || count < 100
    ensures v == Pass <==>
              captures != [] && count >= 100 && forall i :: 0 <= i < |captures| ==> Good(captures[i], count)
    ensures v == Pass ==> forall i :: 0 <= i < |captures| ==> captures[i].Some? && Safe(Concat(captures[i].value))
  {
    if captures == [] || count < 100 {
      return Usage;
    }
    assert AllFast([]);
    hide CleanCapture, FastCapture, AllFast, Safe;
    var all: seq<nat> := [];
    var failed := false;
    var i := 0;
    while i < |captures|
      invariant i <= |captures|
      invariant failed <==> exists j :: 0 <= j < i && !CleanCapture(captures[j], count)
      invariant !failed ==> (AllFast(all) <==> forall j :: 0 <= j < i ==> FastCapture(captures[j]))
      invariant !failed && i > 0 ==> |all| >= count
    {
      var ok, latencies := Measure(captures[i], count);
      if ok {
        FastAppend(all, latencies);
      } else {
        failed := true;
      }
      all := all + latencies;
      i := i + 1;
    }
    var below := MaxBelow(all);
    if failed || |all| < count || !below {
      return Fail;
    }
    forall j | 0 <= j < |captures|
      ensures captures[j].Some? && Safe(Concat(captures[j].value))
    {
      GoodIsSafe(captures[j], count);
    }
    return Pass;
  }
}
