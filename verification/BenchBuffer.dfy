/** The deferred bench console (kernel/src/serial/bench_buffer.rs). */
module BenchBuffer {
  import opened Common
  import opened RingBuf

  const RECORD_BYTES: nat := 1024
  const LF: Byte := 10
  const CR: Byte := 13

  // ------------------------------------------------------------------------- records

  /** Text as it is stored: every line feed gains a carriage return. */
  function Expand(text: seq<Byte>): (r: seq<Byte>)
    ensures |text| <= |r| <= 2 * |text|
  {
    if text == [] then []
    else
      var last := |text| - 1;
      Expand(text[..last]) + (if text[last] == LF then [CR, LF] else [text[last]])
  }

  function Joined(pieces: seq<seq<Byte>>): seq<Byte> {
    if pieces == [] then [] else Joined(pieces[..|pieces| - 1]) + pieces[|pieces| - 1]
  }

  lemma {:induction false} ExpandConcat(a: seq<Byte>, b: seq<Byte>)
    ensures Expand(a + b) == Expand(a) + Expand(b)
  {
    hide Expand;
    if b == [] {
      assert a + b == a && Expand(b) == [];
    } else {
      var last := |b| - 1;
      ExpandConcat(a, b[..last]);
      assert a + b == (a + b[..last]) + [b[last]] && b == b[..last] + [b[last]];
      ExpandSnoc(a + b[..last], b[last]);
      ExpandSnoc(b[..last], b[last]);
    }
  }

  lemma ExpandSnoc(text: seq<Byte>, b: Byte)
    ensures Expand(text + [b]) == Expand(text) + (if b == LF then [CR, LF] else [b])
  {
    assert (text + [b])[..|text|] == text;
  }

  lemma {:induction false} ExpandPrefix(text: seq<Byte>, n: nat)
    requires n <= |text|
    ensures |Expand(text[..n])| <= |Expand(text)|
  {
    assert text == text[..n] + text[n..];
    ExpandConcat(text[..n], text[n..]);
  }

  lemma ExpandNext(text: seq<Byte>, i: nat)
    requires i < |text|
    ensures Expand(text[..i + 1]) == Expand(text[..i]) + (if text[i] == LF then [CR, LF] else [text[i]])
  {
    assert text[..i + 1][..i] == text[..i];
  }

  /** `Record`. */
  class Record {
    const bytes: array<Byte>
    var len: nat

    ghost predicate Valid()
      reads this
    {
      bytes.Length == RECORD_BYTES && len <= RECORD_BYTES
    }

    ghost function Contents(): seq<Byte>
      requires Valid()
      reads this, bytes
    {
      bytes[..len]
    }

    constructor ()
      ensures Valid() && fresh(bytes) && Contents() == []
    {
      bytes := new Byte[RECORD_BYTES](_ => 0);
      len := 0;
    }

    /** `write_str`: accepted exactly when the expanded text fits. */
    method WriteStr(text: seq<Byte>) returns (ok: bool)
      requires Valid()
      modifies this, bytes
      ensures Valid() && ok == (old(len) + |Expand(text)| <= RECORD_BYTES)
      ensures ok ==> Contents() == old(Contents()) + Expand(text)
    {
      hide Expand;
      if |text| > RECORD_BYTES - len {
        return false;
      }
      var i := 0;
      while i < |text|
        invariant i <= |text| && Valid()
        invariant Contents() == old(Contents()) + Expand(text[..i])
      {
        ExpandNext(text, i);
        ExpandPrefix(text, i + 1);
        var needed := if text[i] == LF then 2 else 1;
        if needed > RECORD_BYTES - len {
          return false;
        }
        if text[i] == LF {
          bytes[len] := CR;
          len := len + 1;
        }
        bytes[len] := text[i];
        len := len + 1;
        i := i + 1;
      }
      assert text[..i] == text;
      return true;
    }

    /** `write_fmt` over the pieces a format produces. */
    method WriteFmt(pieces: seq<seq<Byte>>) returns (ok: bool)
      requires Valid() && len == 0
      modifies this, bytes
      ensures Valid() && ok == (|Expand(Joined(pieces))| <= RECORD_BYTES)
      ensures ok ==> Contents() == Expand(Joined(pieces))
    {
      var i := 0;
      while i < |pieces|
        invariant i <= |pieces| && Valid()
        invariant Contents() == Expand(Joined(pieces[..i]))
      {
        assert pieces[..i + 1][..i] == pieces[..i];
        ExpandConcat(Joined(pieces[..i]), pieces[i]);
        var fits := WriteStr(pieces[i]);
        if !fits {
          JoinedPrefix(pieces, i + 1);
          return false;
        }
        i := i + 1;
      }
      assert pieces[..i] == pieces;
      return true;
    }
  }

  lemma {:induction false} JoinedPrefix(pieces: seq<seq<Byte>>, n: nat)
    requires n <= |pieces|
    ensures |Expand(Joined(pieces[..n]))| <= |Expand(Joined(pieces))|
  {
    if n == |pieces| {
      assert pieces[..n] == pieces;
    } else {
      var last := |pieces| - 1;
      JoinedPrefix(pieces[..last], n);
      assert pieces[..last][..n] == pieces[..n];
      ExpandConcat(Joined(pieces[..last]), pieces[last]);
    }
  }

  // -------------------------------------------------------------------------- loss marker

  function Ascii(s: string): seq<Byte> {
    seq(|s|, i requires 0 <= i < |s| => (s[i] as int % 256) as Byte)
  }

  function Decimal(n: nat): seq<Byte> {
    if n < 10 then [(48 + n) as Byte] else Decimal(n / 10) + [(48 + n % 10) as Byte]
  }

  function Power10(k: nat): nat {
    if k == 0 then 1 else 10 * Power10(k - 1)
  }

  lemma {:induction false} DecimalLength(n: nat, k: nat)
    requires k > 0 && n < Power10(k)
    ensures |Decimal(n)| <= k
    decreases k
  {
    if n >= 10 {
      DecimalLength(n / 10, k - 1);
    }
  }

  lemma CounterDigits(n: nat)
    requires n <= U64_MAX
    ensures |Decimal(n)| <= 20
  {
    assert Power10(10) == 10_000_000_000;
    assert Power10(20) == 100_000_000_000_000_000_000;
    DecimalLength(n, 20);
  }

  /** The counters a marker prints, and the buffer they belong to. */
  datatype Console = Console(
    ring: seq<Byte>, pending: Option<Byte>, dropped: nat, reported: nat, full: nat, format: nat, contended: nat,
    highWater: nat, drains: nat, sent: nat, fifoFull: nat)

  const NEW_CONSOLE := Console([], None, 0, 0, 0, 0, 0, 0, 0, 0, 0)

  function MarkerPieces(c: Console): seq<seq<Byte>> {
    [Ascii("PI5_BENCH_LOG_STATE full="), Decimal(c.full), Ascii(" format="), Decimal(c.format),
     Ascii(" contended="), Decimal(c.contended), Ascii(" high_water="), Decimal(c.highWater),
     Ascii(" drains="), Decimal(c.drains), Ascii(" sent="), Decimal(c.sent), Ascii(" fifo_full="), Decimal(c.fifoFull),
     Ascii("\nPI5_BENCH_LOG_LOSS dropped_records="), Decimal(c.dropped), [LF]]
  }

  function Marker(c: Console): seq<Byte> {
    Expand(Joined(MarkerPieces(c)))
  }

  ghost predicate CountersFit(c: Console) {
    && c.dropped <= U64_MAX && c.reported <= c.dropped && c.full <= U64_MAX && c.format <= U64_MAX
       && c.contended <= U64_MAX
    && c.highWater <= U64_MAX && c.drains <= U64_MAX && c.sent <= U64_MAX && c.fifoFull <= U64_MAX
  }

  /** Markers always fit a record, so formatting one never fails. */
  lemma MarkerFits(c: Console)
    requires CountersFit(c)
    ensures |Marker(c)| <= RECORD_BYTES
  {
    CounterDigits(c.full);
    CounterDigits(c.format);
    CounterDigits(c.contended);
    CounterDigits(c.highWater);
    CounterDigits(c.drains);
    CounterDigits(c.sent);
    CounterDigits(c.fifoFull);
    CounterDigits(c.dropped);
    var pieces := MarkerPieces(c);
    JoinedLength(pieces[..14], 25);
    JoinedTwo(pieces[..16]);
    assert pieces[..16][..14] == pieces[..14];
  }

  lemma JoinedTwo(pieces: seq<seq<Byte>>)
    requires |pieces| >= 2
    ensures Joined(pieces) == Joined(pieces[..|pieces| - 2]) + pieces[|pieces| - 2] + pieces[|pieces| - 1]
  {
    assert pieces[..|pieces| - 1][..|pieces| - 2] == pieces[..|pieces| - 2];
  }

  lemma OneMoreTimes(n: nat, most: nat)
    ensures (n + 1) * most == n * most + most
  {
  }

  lemma {:induction false} JoinedLength(pieces: seq<seq<Byte>>, most: nat)
    requires forall i :: 0 <= i < |pieces| ==> |pieces[i]| <= most
    ensures |Joined(pieces)| <= |pieces| * most
  {
    if pieces != [] {
      JoinedLength(pieces[..|pieces| - 1], most);
      OneMoreTimes(|pieces| - 1, most);
    }
  }

  // ------------------------------------------------------------------ the console as a value

  /** Everything accepted and not yet on the wire, oldest first. */
  function Queue(c: Console): seq<Byte> {
    Waiting(c.pending, c.ring)
  }

  function Waiting(pending: Option<Byte>, ring: seq<Byte>): seq<Byte> {
    (if pending.Some? then [pending.value] else []) + ring
  }

  /** `push_record`: the whole record or nothing. */
  function PushRecord(c: Console, n: nat, record: seq<Byte>): Option<Console> {
    if |record| + |c.ring| > n then None
    else Some(c.(ring := c.ring + record, highWater := Max(c.highWater, |c.ring + record|)))
  }

  function ReportLoss(c: Console, n: nat): Console {
    if c.dropped == c.reported then c
    else match PushRecord(c, n, Marker(c))
         case None => c
         case Some(c') => c'.(reported := c.dropped)
  }

  function RecordCall(c: Console, n: nat, pieces: seq<seq<Byte>>): Console {
    var c1 := ReportLoss(c, n);
    var record := Expand(Joined(pieces));
    if |record| > RECORD_BYTES then c1.(format := SatAdd(c1.format, 1), dropped := SatAdd(c1.dropped, 1))
    else match PushRecord(c1, n, record)
         case None => c1.(full := SatAdd(c1.full, 1), dropped := SatAdd(c1.dropped, 1))
         case Some(c') => c'
  }

  /** Whether the UART takes the next byte at the `i`-th attempt. */
  predicate Ready(answers: seq<bool>, i: nat) {
    i < |answers| && answers[i]
  }

  /** Bytes taken from `i` on before the UART refuses or `limit` attempts are made. */
  function Taken(answers: seq<bool>, i: nat, limit: nat): (k: nat)
    requires i <= limit
    ensures i <= k <= limit
    ensures forall j :: i <= j < k ==> Ready(answers, j)
    ensures k < limit ==> !Ready(answers, k)
    decreases limit - i
  {
    if i < limit && Ready(answers, i) then Taken(answers, i + 1, limit) else i
  }

  lemma TakenNext(answers: seq<bool>, i: nat, limit: nat)
    requires i < limit
    ensures Taken(answers, i, limit) == if Ready(answers, i) then Taken(answers, i + 1, limit) else i
  {
  }

  function Sends(c: Console, budget: nat, answers: seq<bool>): (k: nat)
    ensures k <= |Queue(c)| && k <= budget
  {
    Taken(answers, 0, Min(budget, |Queue(c)|))
  }

  /** `drain` before its loss report. */
  function Drained(c: Console, budget: nat, answers: seq<bool>): Console {
    var q, k := Queue(c), Sends(c, budget, answers);
    var c1 := c.(drains := SatAdd(c.drains, 1), sent := SatAdd(c.sent, k));
    if budget == 0 then c1
    else if k < Min(budget, |q|) then c1.(pending := Some(q[k]), ring := q[k + 1..], fifoFull := SatAdd(c.fifoFull, 1))
    else c1.(pending := None, ring := q[k..])
  }

  function DrainCall(c: Console, n: nat, budget: nat, answers: seq<bool>): Console {
    ReportLoss(Drained(c, budget, answers), n)
  }

  function NoteDropped(c: Console, count: nat): Console {
    c.(contended := SatAdd(c.contended, count), dropped := SatAdd(c.dropped, count))
  }

  ghost predicate ConsoleOk(c: Console, n: nat) {
    CountersFit(c) && |c.ring| <= n <= USIZE_MAX
  }

  /** What a drain sends and keeps is exactly what was queued, in order. */
  lemma DrainKeepsOrder(c: Console, budget: nat, answers: seq<bool>)
    ensures var k := Sends(c, budget, answers);
            Queue(c)[..k] + Queue(Drained(c, budget, answers)) == Queue(c)
  {
    var q, k := Queue(c), Sends(c, budget, answers);
    var c' := Drained(c, budget, answers);
    if budget > 0 && k < Min(budget, |q|) {
      assert Queue(c') == [q[k]] + q[k + 1..];
    } else if budget > 0 {
      assert Queue(c') == q[k..];
    }
  }

  /** Draining makes room, except that a pending byte never returns to the ring. */
  lemma DrainFits(c: Console, n: nat, budget: nat, answers: seq<bool>)
    requires ConsoleOk(c, n)
    ensures ConsoleOk(Drained(c, budget, answers), n)
  {
    var q, k := Queue(c), Sends(c, budget, answers);
    assert |q| <= |c.ring| + 1;
    assert k == 0 && budget > 0 && |q| > 0 ==> !Ready(answers, 0);
  }

  lemma PushQueue(c: Console, n: nat, record: seq<Byte>)
    ensures var r := PushRecord(c, n, record);
            r.Some? ==> Queue(r.value) == Queue(c) + record && |r.value.ring| <= n
  {
  }

  // ------------------------------------------------------------------------- the object

  class Buffer {
    const ring: Ring
    const capacity: nat
    var pending: Option<Byte>
    var dropped: nat
    var reported: nat
    var full: nat
    var format: nat
    var contended: nat
    var highWater: nat
    var drains: nat
    var sent: nat
    var fifoFull: nat

    ghost function Model(): Console
      requires ring.Valid()
      reads this, ring, ring.buf
    {
      Console(ring.Contents(), pending, dropped, reported, full, format, contended, highWater, drains, sent, fifoFull)
    }

    ghost predicate Valid()
      reads this, ring, ring.buf
    {
      ring.Valid() && ring.buf.Length == capacity && ConsoleOk(Model(), capacity)
    }

    constructor (capacity: nat)
      requires capacity <= USIZE_MAX
      ensures Valid() && fresh(ring) && fresh(ring.buf) && this.capacity == capacity && Model() == NEW_CONSOLE
    {
      this.capacity := capacity;
      ring := new Ring(capacity);
      pending, dropped, reported, full, format, contended := None, 0, 0, 0, 0, 0;
      highWater, drains, sent, fifoFull := 0, 0, 0, 0;
    }

    /** `push_record`. */
    method Push(record: seq<Byte>) returns (ok: bool)
      requires Valid()
      modifies `highWater, ring, ring.buf
      ensures Valid() && ok == PushRecord(old(Model()), capacity, record).Some?
      ensures Model() == if ok then PushRecord(old(Model()), capacity, record).value else old(Model())
    {
      if |record| > capacity - ring.len {
        return false;
      }
      ghost var before := ring.Contents();
      var i := 0;
      while i < |record|
        invariant i <= |record| && ring.Valid() && ring.Contents() == before + record[..i]
        invariant highWater == old(highWater)
        modifies ring, ring.buf
      {
        var pushed := ring.Push(record[i]);
        assert record[..i + 1] == record[..i] + [record[i]];
        i := i + 1;
      }
      assert record[..i] == record;
      highWater := Max(highWater, ring.len);
      return true;
    }

    /** `report_loss`. */
    method Report()
      requires Valid()
      modifies `reported, `highWater, ring, ring.buf
      ensures Valid() && Model() == ReportLoss(old(Model()), capacity)
    {
      hide Marker, MarkerPieces;
      if dropped == reported {
        return;
      }
      var c := Console([], None, dropped, reported, full, format, contended, highWater, drains, sent, fifoFull);
      MarkerFits(c);
      MarkerSame(c, Model());
      var record := new Record();
      var ok := record.WriteFmt(MarkerPieces(c));
      var pushed := Push(record.bytes[..record.len]);
      if pushed {
        reported := dropped;
      }
    }

    /** `record`. */
    method RecordText(pieces: seq<seq<Byte>>)
      requires Valid()
      modifies `reported, `highWater, `full, `format, `dropped, ring, ring.buf
      ensures Valid() && Model() == RecordCall(old(Model()), capacity, pieces)
    {
      hide ReportLoss, Expand;
      Report();
      var record := new Record();
      var ok := record.WriteFmt(pieces);
      if !ok {
        format := SatAdd(format, 1);
        dropped := SatAdd(dropped, 1);
      } else {
        var pushed := Push(record.bytes[..record.len]);
        if !pushed {
          full := SatAdd(full, 1);
          dropped := SatAdd(dropped, 1);
        }
      }
    }

    /** The pending byte if there is one, else the ring's oldest. */
    method TakeByte() returns (r: Option<Byte>)
      requires ring.Valid()
      modifies `pending, ring
      ensures ring.Valid() && pending == None
      ensures r.Some? ==> [r.value] + ring.Contents() == old(Waiting(pending, ring.Contents()))
      ensures r.None? ==> ring.Contents() == old(Waiting(pending, ring.Contents())) == []
    {
      if pending.Some? {
        r := pending;
        pending := None;
      } else {
        r := ring.Pop();
      }
    }

    /** The send loop of `drain`: at most `budget` attempts; a refused byte becomes pending again. */
    method SendBytes(budget: nat, answers: seq<bool>) returns (wire: seq<Byte>, refused: bool)
      requires ring.Valid()
      modifies `pending, ring
      ensures ring.Valid()
      ensures var q := old(Waiting(pending, ring.Contents()));
              var limit := Min(budget, |q|);
              var k := Taken(answers, 0, limit);
              && wire == q[..k] && refused == (k < limit)
              && (budget == 0 ==> pending == old(pending) && ring.Contents() == old(ring.Contents()))
              && (refused ==> pending == Some(q[k]) && ring.Contents() == q[k + 1..])
              && (budget > 0 && !refused ==> pending == None && ring.Contents() == q[k..])
    {
      hide Taken, View;
      ghost var q := Waiting(pending, ring.Contents());
      ghost var limit := Min(budget, |q|);
      wire, refused := [], false;
      var i := 0;
      while i < budget
        invariant i <= limit && ring.Valid() && wire == q[..i]
        invariant Taken(answers, 0, limit) == Taken(answers, i, limit)
        invariant Waiting(pending, ring.Contents()) == q[i..]
        invariant i > 0 ==> pending.None?
        invariant i == 0 ==> pending == old(pending) && ring.Contents() == old(ring.Contents())
        decreases budget - i
      {
        var byte := TakeByte();
        if byte.None? {
          return;
        }
        HeadAndTail(q, i, byte.value, ring.Contents());
        TakenNext(answers, i, limit);
        if !Ready(answers, i) {
          pending := Some(byte.value);
          refused := true;
          return;
        }
        wire := wire + [byte.value];
        i := i + 1;
      }
    }

    /** `drain`; returns what went on the wire. */
    method Drain(budget: nat, answers: seq<bool>) returns (wire: seq<Byte>)
      requires Valid()
      modifies `pending, `drains, `sent, `fifoFull, `reported, `highWater, ring, ring.buf
      ensures Valid() && Model() == DrainCall(old(Model()), capacity, budget, answers)
      ensures wire == old(Queue(Model()))[..old(Sends(Model(), budget, answers))]
    {
      hide ReportLoss, Taken;
      ghost var c := Model();
      drains := SatAdd(drains, 1);
      var refused;
      wire, refused := SendBytes(budget, answers);
      if refused {
        fifoFull := SatAdd(fifoFull, 1);
      }
      sent := SatAdd(sent, |wire|);
      assert Model() == Drained(c, budget, answers);
      DrainFits(c, capacity, budget, answers);
      Report();
    }

    /** `note_dropped`. */
    method Note(count: nat)
      requires Valid()
      modifies `contended, `dropped
      ensures Valid() && Model() == NoteDropped(old(Model()), count)
    {
      contended := SatAdd(contended, count);
      dropped := SatAdd(dropped, count);
    }
  }

  lemma HeadAndTail(q: seq<Byte>, i: nat, b: Byte, rest: seq<Byte>)
    requires i <= |q| && q[i..] == [b] + rest
    ensures i < |q| && q[i] == b && q[i + 1..] == rest && q[..i + 1] == q[..i] + [b]
  {
    assert |q[i..]| == 1 + |rest|;
    assert q[i..][0] == b && q[i..][1..] == rest;
  }

  lemma MarkerSame(c: Console, d: Console)
    requires d == c.(ring := d.ring, pending := d.pending)
    ensures MarkerPieces(c) == MarkerPieces(d) && Marker(c) == Marker(d)
    ensures Marker(c) == Expand(Joined(MarkerPieces(c)))
  {
  }
}
