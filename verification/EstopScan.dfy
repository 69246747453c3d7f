/** The chunked run-length edge scan (scripts/hil/v03d-reduce.py). */
module EstopScan {
  import opened Common
  import opened Waveform

  /** `value & 3`: bit 0 is the e-stop input D0, bit 1 the output D1. */
  function Level(b: Byte): nat {
    b as int % 4
  }

  function Translate(data: seq<Byte>): seq<nat> {
    seq(|data|, i requires 0 <= i < |data| => Level(data[i]))
  }

  predicate D0(level: nat) {
    level % 2 == 1
  }

  predicate D1(level: nat) {
    level / 2 % 2 == 1
  }

  function Channel0(samples: seq<nat>): Levels {
    seq(|samples|, i requires 0 <= i < |samples| => D0(samples[i]))
  }

  function Channel1(samples: seq<nat>): Levels {
    seq(|samples|, i requires 0 <= i < |samples| => D1(samples[i]))
  }

  /** All samples of a capture, in order. */
  function Samples(chunks: seq<seq<Byte>>): seq<nat> {
    if chunks == [] then [] else Samples(chunks[..|chunks| - 1]) + Translate(chunks[|chunks| - 1])
  }

  datatype Edges = Edges(
    d0Falls: seq<nat>, d0Rises: seq<nat>, d1Falls: seq<nat>, d1Rises: seq<nat>,
    initial: Option<(bool, bool)>, final: Option<(bool, bool)>)

  function Pair(level: nat): (bool, bool) {
    (D0(level), D1(level))
  }

  /** The definition: compare every sample with the one before. */
  function EdgesOf(samples: seq<nat>): Edges {
    Edges(Falls(Channel0(samples)), Rises(Channel0(samples)), Falls(Channel1(samples)), Rises(Channel1(samples)),
          if samples == [] then None else Some(Pair(samples[0])),
          if samples == [] then None else Some(Pair(samples[|samples| - 1])))
  }

  /** What the scan adds at sample `at` when the level moves from `previous` to `value`. */
  function WithEdge(e: Edges, at: nat, previous: nat, value: nat): Edges {
    e.(d0Falls := if D0(previous) && !D0(value) then e.d0Falls + [at] else e.d0Falls,
       d0Rises := if !D0(previous) && D0(value) then e.d0Rises + [at] else e.d0Rises,
       d1Falls := if D1(previous) && !D1(value) then e.d1Falls + [at] else e.d1Falls,
       d1Rises := if !D1(previous) && D1(value) then e.d1Rises + [at] else e.d1Rises)
  }

  /** One more sample adds at most its own edges. */
  lemma EdgesNext(samples: seq<nat>, value: nat)
    ensures EdgesOf(samples + [value]) ==
            (if samples == [] then Edges([], [], [], [], Some(Pair(value)), Some(Pair(value)))
             else WithEdge(EdgesOf(samples), |samples|, samples[|samples| - 1], value).(final := Some(Pair(value))))
  {
    var more := samples + [value];
    assert Channel0(more)[..|samples|] == Channel0(samples);
    assert Channel1(more)[..|samples|] == Channel1(samples);
  }

  /** Repeating the last level adds no edge. */
  lemma EdgesRepeat(samples: seq<nat>, value: nat)
    requires samples != [] && samples[|samples| - 1] == value
    ensures EdgesOf(samples + [value]) == EdgesOf(samples)
  {
    EdgesNext(samples, value);
  }

  lemma SamplesNext(chunks: seq<seq<Byte>>, i: nat)
    requires i < |chunks|
    ensures Samples(chunks[..i + 1]) == Samples(chunks[..i]) + Translate(chunks[i])
  {
    assert chunks[..i + 1][..i] == chunks[..i];
  }

  lemma OneMore(seen: seq<nat>, data: seq<nat>, pos: nat)
    requires pos < |data|
    ensures seen + data[..pos + 1] == (seen + data[..pos]) + [data[pos]]
  {
  }

  /** The initial levels play no part in an edge. */
  lemma WithEdgeInitial(e: Edges, initial: Option<(bool, bool)>, at: nat, previous: nat, value: nat)
    ensures WithEdge(e.(initial := initial), at, previous, value) ==
              WithEdge(e, at, previous, value).(initial := initial)
  {
  }

  /** The loop over one chunk's runs of equal levels; Python work happens only at the start of a run. */
  method ScanChunk(data: seq<nat>, before: Edges, previous: Option<nat>, samples: nat, ghost seen: seq<nat>)
    returns (edges: Edges, last: Option<nat>)
    requires samples == |seen| && before == EdgesOf(seen)
    requires previous == if seen == [] then None else Some(seen[|seen| - 1])
    ensures edges == EdgesOf(seen + data)
    ensures last == if seen + data == [] then None else Some((seen + data)[|seen + data| - 1])
  {
    hide EdgesOf, WithEdge, Pair;
    edges, last := before, previous;
    if data != [] && edges.initial.None? {
      edges := edges.(initial := Some(Pair(data[0])));
    }
    ghost var fixed := edges.initial;
    var pos := 0;
    assert seen + data[..0] == seen;
    InitialIs(seen);
    NoEdges();
    while pos < |data|
      invariant pos <= |data|
      invariant edges == EdgesOf(seen + data[..pos]).(initial := fixed)
      invariant last == if seen + data[..pos] == [] then None else Some((seen + data[..pos])[|seen| + pos - 1])
    {
      var value := data[pos];
      var at := samples + pos;
      ghost var here := seen + data[..pos];
      EdgesNext(here, value);
      OneMore(seen, data, pos);
      if last.Some? {
        WithEdgeInitial(EdgesOf(here), fixed, at, last.value, value);
        edges := WithEdge(edges, at, last.value, value);
      }
      edges := edges.(final := Some(Pair(value)));
      last := Some(value);
      pos := pos + 1;
      while pos < |data| && data[pos] == value
        invariant 0 < pos <= |data| && last == Some(value) && data[pos - 1] == value
        invariant edges == EdgesOf(seen + data[..pos]).(initial := fixed)
      {
        OneMore(seen, data, pos);
        EdgesRepeat(seen + data[..pos], value);
        pos := pos + 1;
      }
    }
    assert data[..pos] == data;
    InitialIs(seen + data);
  }

  lemma InitialIs(samples: seq<nat>)
    ensures EdgesOf(samples).initial == if samples == [] then None else Some(Pair(samples[0]))
  {
  }

  lemma NoEdges()
    ensures EdgesOf([]) == Edges([], [], [], [], None, None)
  {
  }

  /** Two cuttings of the same bytes scan alike. */
  lemma {:induction false} CuttingIrrelevant(chunks: seq<seq<Byte>>)
    ensures Samples(chunks) == Translate(Concat(chunks))
  {
    if chunks != [] {
      var last := |chunks| - 1;
      CuttingIrrelevant(chunks[..last]);
      TranslateConcat(Concat(chunks[..last]), chunks[last]);
    }
  }

  function Concat(chunks: seq<seq<Byte>>): seq<Byte> {
    if chunks == [] then [] else Concat(chunks[..|chunks| - 1]) + chunks[|chunks| - 1]
  }

  lemma TranslateConcat(a: seq<Byte>, b: seq<Byte>)
    ensures Translate(a + b) == Translate(a) + Translate(b)
  {
  }

  // ----------------------------------------------------------------------- in terms of the bytes

  /** The e-stop input D0 is bit 0 of a sample byte and the output D1 is bit 1; a set bit is high. */
  predicate High(b: Byte, channel: nat) {
    if channel == 0 then b as int % 2 == 1 else b as int / 2 % 2 == 1
  }

  predicate FallsAt(data: seq<Byte>, channel: nat, s: nat) {
    0 < s < |data| && High(data[s - 1], channel) && !High(data[s], channel)
  }

  predicate RisesAt(data: seq<Byte>, channel: nat, s: nat) {
    0 < s < |data| && !High(data[s - 1], channel) && High(data[s], channel)
  }

  /** Each list holds, in ascending order, exactly the samples where its channel moves its way. */
  ghost predicate Describes(e: Edges, data: seq<Byte>) {
    && Ascending(e.d0Falls) && Ascending(e.d0Rises) && Ascending(e.d1Falls) && Ascending(e.d1Rises)
    && (forall s :: s in e.d0Falls <==> FallsAt(data, 0, s))
    && (forall s :: s in e.d0Rises <==> RisesAt(data, 0, s))
    && (forall s :: s in e.d1Falls <==> FallsAt(data, 1, s))
    && (forall s :: s in e.d1Rises <==> RisesAt(data, 1, s))
    && e.initial == (if data == [] then None else Some((High(data[0], 0), High(data[0], 1))))
    && e.final == (if data == [] then None else Some((High(data[|data| - 1], 0), High(data[|data| - 1], 1))))
  }

  lemma LevelBits(b: Byte)
    ensures D0(Level(b)) == High(b, 0) && D1(Level(b)) == High(b, 1)
  {
  }

  function Bits(data: seq<Byte>, channel: nat): Levels {
    seq(|data|, i requires 0 <= i < |data| => High(data[i], channel))
  }

  lemma ChannelBytes(data: seq<Byte>)
    ensures Channel0(Translate(data)) == Bits(data, 0) && Channel1(Translate(data)) == Bits(data, 1)
    ensures forall i :: 0 <= i < |data| ==> Pair(Translate(data)[i]) == (High(data[i], 0), High(data[i], 1))
  {
    hide High, Level, D0, D1;
    forall i | 0 <= i < |data|
      ensures D0(Translate(data)[i]) == High(data[i], 0) && D1(Translate(data)[i]) == High(data[i], 1)
    {
      LevelBits(data[i]);
    }
  }

  lemma ListsExact(data: seq<Byte>, channel: nat)
    ensures Ascending(Falls(Bits(data, channel))) && Ascending(Rises(Bits(data, channel)))
    ensures forall s :: s in Falls(Bits(data, channel)) <==> FallsAt(data, channel, s)
    ensures forall s :: s in Rises(Bits(data, channel)) <==> RisesAt(data, channel, s)
  {
    hide High, Falls, Rises;
    EdgesAscending(Bits(data, channel));
    forall s: nat
      ensures s in Falls(Bits(data, channel)) <==> FallsAt(data, channel, s)
      ensures s in Rises(Bits(data, channel)) <==> RisesAt(data, channel, s)
    {
      EdgesExact(Bits(data, channel), s);
    }
  }

  lemma TranslateDescribes(data: seq<Byte>)
    ensures Describes(EdgesOf(Translate(data)), data)
  {
    ChannelBytes(data);
    ListsExact(data, 0);
    ListsExact(data, 1);
    hide High, Bits, Falls, Rises, Channel0, Channel1, Pair, FallsAt, RisesAt, Level;
  }

  lemma ScanDescribes(chunks: seq<seq<Byte>>)
    ensures Describes(EdgesOf(Samples(chunks)), Concat(chunks))
  {
    hide EdgesOf, Describes, Translate;
    CuttingIrrelevant(chunks);
    TranslateDescribes(Concat(chunks));
  }

  /**
   The whole scan: for every way of cutting a capture into chunks, the lists are exactly the samples where
   the capture's bytes move, in order, with the first and last levels.
   */
  method Scan(chunks: seq<seq<Byte>>) returns (edges: Edges)
    ensures edges == EdgesOf(Samples(chunks)) && Describes(edges, Concat(chunks))
  {
    hide EdgesOf, Translate;
    edges := Edges([], [], [], [], None, None);
    NoEdges();
    var previous: Option<nat> := None;
    var samples := 0;
    var i := 0;
    while i < |chunks|
      invariant i <= |chunks| && samples == |Samples(chunks[..i])| && edges == EdgesOf(Samples(chunks[..i]))
      invariant previous == if samples == 0 then None else Some(Samples(chunks[..i])[samples - 1])
    {
      SamplesNext(chunks, i);
      var data := Translate(chunks[i]);
      edges, previous := ScanChunk(data, edges, previous, samples, Samples(chunks[..i]));
      samples := samples + |data|;
      i := i + 1;
    }
    assert chunks[..i] == chunks;
    ScanDescribes(chunks);
  }
}
