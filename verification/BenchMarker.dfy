/** What a reader of the bench console recovers: the recorded text, and the counters a loss marker prints. */
module BenchMarker {
  import opened Common
  import opened BenchBuffer

  const EQUALS: Byte := 61

  // ------------------------------------------------------------------------------- text

  /** Drop the carriage return in front of every line feed. */
  function Unexpand(stored: seq<Byte>): seq<Byte> {
    if stored == [] then []
    else
      var last := |stored| - 1;
      if stored[last] == LF && last > 0 then Unexpand(stored[..last - 1]) + [LF]
      else Unexpand(stored[..last]) + [stored[last]]
  }

  /** The text of a record is recovered from what is stored of it. */
  lemma {:induction false} TextRecovered(text: seq<Byte>)
    ensures Unexpand(Expand(text)) == text
  {
    if text != [] {
      var last := |text| - 1;
      var front, b := Expand(text[..last]), text[last];
      TextRecovered(text[..last]);
      if b == LF {
        assert (front + [CR, LF])[..|front|] == front;
      } else {
        assert (front + [b])[..|front|] == front;
      }
    }
  }

  // ------------------------------------------------------------------------------ fields

  predicate Digit(b: Byte) {
    48 <= b <= 57
  }

  /** The values read so far, and whether the last one can still grow. */
  datatype Scan = Scan(values: seq<nat>, reading: bool)

  predicate Reading(s: Scan) {
    s.reading && s.values != []
  }

  function ScanByte(s: Scan, b: Byte): Scan {
    if b == EQUALS then Scan(s.values + [0], true)
    else if Digit(b) && Reading(s) then
      var last := |s.values| - 1;
      Scan(s.values[last := 10 * s.values[last] + (b as nat - 48)], true)
    else Scan(s.values, false)
  }

  function ScanFrom(s: Scan, text: seq<Byte>): Scan {
    if text == [] then s else ScanByte(ScanFrom(s, text[..|text| - 1]), text[|text| - 1])
  }

  /** The numbers that follow the equals signs of a text, in order. */
  function Fields(text: seq<Byte>): seq<nat> {
    ScanFrom(Scan([], false), text).values
  }

  lemma {:induction false} ScanConcat(s: Scan, a: seq<Byte>, b: seq<Byte>)
    ensures ScanFrom(s, a + b) == ScanFrom(ScanFrom(s, a), b)
  {
    hide ScanByte;
    if b == [] {
      assert a + b == a;
    } else {
      var last := |b| - 1;
      ScanConcat(s, a, b[..last]);
      assert (a + b)[..|a| + last] == a + b[..last];
    }
  }

  lemma ScanOne(s: Scan, b: Byte)
    ensures ScanFrom(s, [b]) == ScanByte(s, b)
  {
    assert [b][..0] == [];
    assert ScanFrom(s, []) == s;
  }

  /** The carriage returns do not disturb the fields. */
  lemma {:induction false} ScanExpanded(s: Scan, text: seq<Byte>)
    ensures ScanFrom(s, Expand(text)) == ScanFrom(s, text)
  {
    if text != [] {
      var last := |text| - 1;
      var front, b := Expand(text[..last]), text[last];
      ScanExpanded(s, text[..last]);
      if b == LF {
        assert Expand(text) == front + [CR] + [LF];
        assert (front + [CR] + [LF])[..|front| + 1] == front + [CR];
        assert (front + [CR])[..|front|] == front;
      } else {
        assert Expand(text) == front + [b];
        assert (front + [b])[..|front|] == front;
      }
    }
  }

  lemma DigitReads(values: seq<nat>, v: nat, d: nat)
    requires d < 10
    ensures ScanByte(Scan(values + [v], true), (48 + d) as Byte) == Scan(values + [10 * v + d], true)
  {
  }

  /** A number's digits read back as the number. */
  lemma {:induction false} DecimalReads(values: seq<nat>, n: nat)
    ensures ScanFrom(Scan(values + [0], true), Decimal(n)) == Scan(values + [n], true)
  {
    var s := Scan(values + [0], true);
    if n < 10 {
      assert Decimal(n) == [(48 + n) as Byte];
      hide ScanFrom, ScanByte, Decimal;
      ScanOne(s, (48 + n) as Byte);
      DigitReads(values, 0, n);
    } else {
      var front, d := n / 10, n % 10;
      assert Decimal(n) == Decimal(front) + [(48 + d) as Byte];
      hide ScanFrom, ScanByte, Decimal;
      DecimalReads(values, front);
      ScanConcat(s, Decimal(front), [(48 + d) as Byte]);
      ScanOne(Scan(values + [front], true), (48 + d) as Byte);
      DigitReads(values, front, d);
    }
  }

  /** A label ends with its only equals sign and does not begin with a digit. */
  ghost predicate Label(text: seq<Byte>) {
    && |text| > 1 && !Digit(text[0]) && text[|text| - 1] == EQUALS
    && forall i :: 0 <= i < |text| - 1 ==> text[i] != EQUALS
  }

  lemma {:induction false} LabelSkipped(s: Scan, text: seq<Byte>)
    requires text != [] && !Digit(text[0]) && forall i :: 0 <= i < |text| ==> text[i] != EQUALS
    ensures ScanFrom(s, text) == Scan(s.values, false)
  {
    if |text| == 1 {
      ScanOne(s, text[0]);
      assert text == [text[0]];
    } else {
      LabelSkipped(s, text[..|text| - 1]);
    }
  }

  lemma LabelReads(s: Scan, text: seq<Byte>)
    requires Label(text)
    ensures ScanFrom(s, text) == Scan(s.values + [0], true)
  {
    LabelSkipped(s, text[..|text| - 1]);
  }

  /** Labels and numbers in turn. */
  function Labelled(labels: seq<seq<Byte>>, ns: seq<nat>): seq<seq<Byte>>
    requires |labels| == |ns|
  {
    if ns == [] then []
    else
      var last := |ns| - 1;
      Labelled(labels[..last], ns[..last]) + [labels[last], Decimal(ns[last])]
  }

  lemma {:induction false} LabelledReads(labels: seq<seq<Byte>>, ns: seq<nat>)
    requires |labels| == |ns| && forall i :: 0 <= i < |labels| ==> Label(labels[i])
    ensures ScanFrom(Scan([], false), Joined(Labelled(labels, ns))).values == ns
  {
    if ns != [] {
      var last := |ns| - 1;
      var front := Labelled(labels[..last], ns[..last]);
      var start := Scan([], false);
      LabelledReads(labels[..last], ns[..last]);
      JoinedTwo(Labelled(labels, ns));
      assert Labelled(labels, ns)[..|Labelled(labels, ns)| - 2] == front;
      hide ScanFrom, Label;
      var before := ScanFrom(start, Joined(front));
      ScanConcat(start, Joined(front) + labels[last], Decimal(ns[last]));
      ScanConcat(start, Joined(front), labels[last]);
      LabelReads(before, labels[last]);
      DecimalReads(before.values, ns[last]);
      assert ns[..last] + [ns[last]] == ns;
    }
  }

  function Labels(): seq<seq<Byte>> {
    [Ascii("PI5_BENCH_LOG_STATE full="), Ascii(" format="), Ascii(" contended="), Ascii(" high_water="),
     Ascii(" drains="), Ascii(" sent="), Ascii(" fifo_full="), Ascii("\nPI5_BENCH_LOG_LOSS dropped_records=")]
  }

  function Counters(c: Console): seq<nat> {
    [c.full, c.format, c.contended, c.highWater, c.drains, c.sent, c.fifoFull, c.dropped]
  }

  lemma PlainLabel(s: string)
    requires |s| > 1 && s[0] in {'P', ' ', '\n'} && s[|s| - 1] == '='
    requires forall i :: 0 <= i < |s| ==> s[i] as int < 256
    requires forall i :: 0 <= i < |s| - 1 ==> s[i] != '='
    ensures Label(Ascii(s))
  {
  }

  /** The loss marker, as it is stored, gives back all eight counters. */
  lemma MarkerParses(c: Console)
    ensures Fields(Marker(c)) == Counters(c)
  {
    LabelsPlain();
    LabelledReads(Labels(), Counters(c));
    MarkerLabelled(c);
    var text := Joined(Labelled(Labels(), Counters(c)));
    ScanExpanded(Scan([], false), text + [LF]);
    ScanConcat(Scan([], false), text, [LF]);
    ScanOne(ScanFrom(Scan([], false), text), LF);
  }

  lemma LabelsPlain()
    ensures forall i :: 0 <= i < |Labels()| ==> Label(Labels()[i])
  {
    hide Label, Ascii;
    LongLabels();
    PlainLabel(" format=");
    PlainLabel(" contended=");
    PlainLabel(" high_water=");
    PlainLabel(" drains=");
    PlainLabel(" sent=");
    PlainLabel(" fifo_full=");
  }

  lemma LongLabels()
    ensures Label(Ascii("PI5_BENCH_LOG_STATE full=")) && Label(Ascii("\nPI5_BENCH_LOG_LOSS dropped_records="))
  {
    hide Label, Ascii;
    PlainLabel("PI5_BENCH_LOG_STATE full=");
    PlainLabel("\nPI5_BENCH_LOG_LOSS dropped_records=");
  }

  lemma {:induction false} Alternates(labels: seq<seq<Byte>>, ns: seq<nat>, pieces: seq<seq<Byte>>)
    requires |labels| == |ns| && |pieces| == 2 * |ns|
    requires forall k :: 0 <= k < |ns| ==> pieces[2 * k] == labels[k] && pieces[2 * k + 1] == Decimal(ns[k])
    ensures Labelled(labels, ns) == pieces
  {
    if ns != [] {
      var last := |ns| - 1;
      hide Decimal;
      Alternates(labels[..last], ns[..last], pieces[..2 * last]);
      assert pieces == pieces[..2 * last] + [pieces[2 * last], pieces[2 * last + 1]];
    }
  }

  lemma MarkerPiece(c: Console, k: nat)
    requires k < 8
    ensures |MarkerPieces(c)| == 17 && MarkerPieces(c)[16] == [LF] && |Labels()| == |Counters(c)| == 8
    ensures MarkerPieces(c)[2 * k] == Labels()[k] && MarkerPieces(c)[2 * k + 1] == Decimal(Counters(c)[k])
  {
    hide Ascii, Decimal;
  }

  lemma MarkerLabelled(c: Console)
    ensures Joined(MarkerPieces(c)) == Joined(Labelled(Labels(), Counters(c))) + [LF]
  {
    hide Labels, Counters, MarkerPieces, Labelled;
    var pieces := MarkerPieces(c);
    MarkerPiece(c, 0);
    forall k | 0 <= k < 8
      ensures pieces[..16][2 * k] == Labels()[k] && pieces[..16][2 * k + 1] == Decimal(Counters(c)[k])
    {
      MarkerPiece(c, k);
    }
    Alternates(Labels(), Counters(c), pieces[..16]);
  }

  /** Two markers that read alike came from the same counters. */
  lemma MarkerExact(c: Console, d: Console)
    requires Marker(c) == Marker(d)
    ensures Counters(c) == Counters(d)
  {
    MarkerParses(c);
    MarkerParses(d);
  }
}
