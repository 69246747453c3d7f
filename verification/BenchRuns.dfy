/** Whole runs of the deferred bench console: nothing is reordered or torn, and every loss is counted. */
module BenchRuns {
  import opened Common
  import opened BenchBuffer

  datatype Op = RecordOp(pieces: seq<seq<Byte>>) | DrainOp(budget: nat, answers: seq<bool>) | NoteOp(count: nat)

  /**
   A run so far: the console, the bytes sent, every record and marker that was queued, in order, and the
   true numbers of losses by cause.
   */
  datatype Trace = Trace(console: Console, wire: seq<Byte>, queued: seq<seq<Byte>>, capacity: nat, formatting: nat,
                         contention: nat)

  const START := Trace(NEW_CONSOLE, [], [], 0, 0, 0)

  /** The marker an operation queues when it reports losses first. */
  function Reported(c: Console, n: nat): seq<seq<Byte>> {
    if c.dropped != c.reported && |Marker(c)| + |c.ring| <= n then [Marker(c)] else []
  }

  predicate TooLong(pieces: seq<seq<Byte>>) {
    |Expand(Joined(pieces))| > RECORD_BYTES
  }

  predicate NoRoom(c: Console, n: nat, pieces: seq<seq<Byte>>) {
    |Expand(Joined(pieces))| + |c.ring| > n
  }

  function Next(t: Trace, n: nat, op: Op): Trace {
    var c := t.console;
    match op
    case RecordOp(pieces) =>
      var c1 := ReportLoss(c, n);
      var t1 := t.(console := RecordCall(c, n, pieces), queued := t.queued + Reported(c, n));
      if TooLong(pieces) then t1.(formatting := t.formatting + 1)
      else if NoRoom(c1, n, pieces) then t1.(capacity := t.capacity + 1)
      else t1.(queued := t1.queued + [Expand(Joined(pieces))])
    case DrainOp(budget, answers) =>
      t.(console := DrainCall(c, n, budget, answers), wire := t.wire + Queue(c)[..Sends(c, budget, answers)],
         queued := t.queued + Reported(Drained(c, budget, answers), n))
    case NoteOp(count) => t.(console := NoteDropped(c, count), contention := t.contention + count)
  }

  function Run(n: nat, ops: seq<Op>): Trace {
    if ops == [] then START else Next(Run(n, ops[..|ops| - 1]), n, ops[|ops| - 1])
  }

  /** A counter that stops at the largest 64-bit value. */
  predicate Saturates(counter: nat, total: nat) {
    counter == Min(total, U64_MAX)
  }

  ghost predicate Losses(t: Trace) {
    && Saturates(t.console.full, t.capacity)
    && Saturates(t.console.format, t.formatting)
    && Saturates(t.console.contended, t.contention)
    && Saturates(t.console.dropped, t.capacity + t.formatting + t.contention)
  }

  ghost predicate Inv(t: Trace, n: nat) {
    && ConsoleOk(t.console, n)
    && t.wire + Queue(t.console) == Joined(t.queued)
    && Losses(t)
  }

  lemma JoinedAppend(xs: seq<seq<Byte>>, x: seq<Byte>)
    ensures Joined(xs + [x]) == Joined(xs) + x
  {
    assert (xs + [x])[..|xs|] == xs;
  }

  /** Reporting queues the marker whole or does nothing. */
  lemma ReportEffect(c: Console, n: nat, queued: seq<seq<Byte>>)
    requires ConsoleOk(c, n)
    ensures var c' := ReportLoss(c, n);
            && ConsoleOk(c', n) && c' == c.(ring := c'.ring, reported := c'.reported, highWater := c'.highWater)
            && Joined(queued + Reported(c, n)) == Joined(queued) + Queue(c')[|Queue(c)|..]
            && Queue(c) <= Queue(c')
  {
    hide Marker;
    var c' := ReportLoss(c, n);
    if Reported(c, n) == [] {
      assert queued + [] == queued && Queue(c')[|Queue(c)|..] == [];
    } else {
      PushQueue(c, n, Marker(c));
      JoinedAppend(queued, Marker(c));
      assert Queue(c') == Queue(c) + Marker(c);
    }
  }

  lemma ReportKeeps(t: Trace, n: nat)
    requires Inv(t, n)
    ensures Inv(t.(console := ReportLoss(t.console, n), queued := t.queued + Reported(t.console, n)), n)
  {
    hide ReportLoss, Reported, Joined, Queue, ConsoleOk;
    ReportEffect(t.console, n, t.queued);
    var q, q' := Queue(t.console), Queue(ReportLoss(t.console, n));
    assert q' == q + q'[|q|..];
    assert t.wire + q' == t.wire + q + q'[|q|..];
  }

  lemma RecordKeeps(t: Trace, n: nat, pieces: seq<seq<Byte>>)
    requires Inv(t, n)
    ensures Inv(Next(t, n, RecordOp(pieces)), n)
  {
    hide Expand, ReportLoss, Reported;
    var c := t.console;
    ReportKeeps(t, n);
    var c1, queued1 := ReportLoss(c, n), t.queued + Reported(c, n);
    var record := Expand(Joined(pieces));
    if !TooLong(pieces) && !NoRoom(c1, n, pieces) {
      PushQueue(c1, n, record);
      JoinedAppend(queued1, record);
    }
  }

  lemma DrainedLosses(c: Console, budget: nat, answers: seq<bool>)
    ensures var c' := Drained(c, budget, answers);
            c'.dropped == c.dropped && c'.full == c.full && c'.format == c.format && c'.contended == c.contended
  {
  }

  lemma DrainKeeps(t: Trace, n: nat, budget: nat, answers: seq<bool>)
    requires Inv(t, n)
    ensures Inv(Next(t, n, DrainOp(budget, answers)), n)
  {
    hide ReportLoss, Reported, Sends, Drained, Queue;
    var c := t.console;
    DrainedLosses(c, budget, answers);
    DrainKeepsOrder(c, budget, answers);
    DrainFits(c, n, budget, answers);
    var sent := Queue(c)[..Sends(c, budget, answers)];
    var t1 := t.(console := Drained(c, budget, answers), wire := t.wire + sent);
    assert t1.wire + Queue(t1.console) == t.wire + (sent + Queue(t1.console));
    ReportKeeps(t1, n);
  }

  lemma {:induction false} RunInv(n: nat, ops: seq<Op>)
    requires n <= USIZE_MAX
    ensures Inv(Run(n, ops), n)
  {
    if ops != [] {
      var prev, op := Run(n, ops[..|ops| - 1]), ops[|ops| - 1];
      RunInv(n, ops[..|ops| - 1]);
      hide ReportLoss, Expand;
      match op
      case RecordOp(pieces) => RecordKeeps(prev, n, pieces);
      case DrainOp(budget, answers) => DrainKeeps(prev, n, budget, answers);
      case NoteOp(_) =>
    }
  }

  /**
   For every sequence of calls and every UART behaviour, the bytes sent, then the pending byte, then the ring are
   exactly the whole records and markers accepted so far, in order, and the ring stays within its capacity.
   */
  lemma NothingTorn(n: nat, ops: seq<Op>)
    requires n <= USIZE_MAX
    ensures var t := Run(n, ops);
            && t.wire + Queue(t.console) == Joined(t.queued)
            && |t.console.ring| <= n
  {
    hide Run, Losses;
    RunInv(n, ops);
  }

  /** `dropped` is the saturated total of the capacity, format and contention losses, and so is each of its parts. */
  lemma LossesExact(n: nat, ops: seq<Op>)
    requires n <= USIZE_MAX
    ensures var t := Run(n, ops);
            && t.console.dropped == Min(t.capacity + t.formatting + t.contention, U64_MAX)
            && t.console.full == Min(t.capacity, U64_MAX)
            && t.console.format == Min(t.formatting, U64_MAX)
            && t.console.contended == Min(t.contention, U64_MAX)
            && t.console.reported <= t.console.dropped
  {
    hide Run;
    RunInv(n, ops);
  }

  // ----------------------------------------------------------------- one record, one marker

  lemma RunNext(n: nat, ops: seq<Op>, op: Op)
    ensures Run(n, ops + [op]) == Next(Run(n, ops), n, op)
  {
    hide Next;
    assert (ops + [op])[..|ops|] == ops;
  }

  /** The record passes the length limit and the ring has room for it. */
  predicate Accepted(c: Console, n: nat, pieces: seq<seq<Byte>>) {
    !TooLong(pieces) && !NoRoom(ReportLoss(c, n), n, pieces)
  }

  /**
   A record call first settles the loss marker, then adds the whole record to the bytes waiting for the wire when it
   is accepted; otherwise it adds no byte and exactly one loss, of the right cause.
   */
  lemma RecordWholeOrDropped(n: nat, ops: seq<Op>, pieces: seq<seq<Byte>>)
    ensures var c, c' := Run(n, ops).console, Run(n, ops + [RecordOp(pieces)]).console;
            var settled := Queue(ReportLoss(c, n));
            && (settled == Queue(c) || settled == Queue(c) + Marker(c))
            && (if Accepted(c, n, pieces) then
                  && Queue(c') == settled + Expand(Joined(pieces))
                  && c'.dropped == c.dropped && c'.full == c.full && c'.format == c.format
                else
                  && Queue(c') == settled && c'.dropped == SatAdd(c.dropped, 1)
                  && c'.format == (if TooLong(pieces) then SatAdd(c.format, 1) else c.format)
                  && c'.full == (if TooLong(pieces) then c.full else SatAdd(c.full, 1)))
  {
    hide Run, Expand, Marker;
    RunNext(n, ops, RecordOp(pieces));
    var c := Run(n, ops).console;
    PushQueue(c, n, Marker(c));
    PushQueue(ReportLoss(c, n), n, Expand(Joined(pieces)));
  }

  /** Every byte handed over so far, sent or waiting, in order. */
  function Stream(t: Trace): seq<Byte> {
    t.wire + Queue(t.console)
  }

  lemma {:induction false} JoinedGrows(xs: seq<seq<Byte>>, ys: seq<seq<Byte>>)
    ensures Joined(xs) <= Joined(xs + ys)
  {
    if ys == [] {
      assert xs + ys == xs;
    } else {
      var last := |ys| - 1;
      JoinedGrows(xs, ys[..last]);
      assert xs + ys == (xs + ys[..last]) + [ys[last]];
      JoinedAppend(xs + ys[..last], ys[last]);
    }
  }

  lemma QueuedGrows(t: Trace, n: nat, op: Op)
    ensures t.queued <= Next(t, n, op).queued
  {
    hide ReportLoss, Expand, Reported, Joined;
  }

  /** No call takes a byte back or moves one. */
  lemma {:induction false} StreamGrows(n: nat, ops: seq<Op>, more: seq<Op>)
    requires n <= USIZE_MAX
    ensures Stream(Run(n, ops)) <= Stream(Run(n, ops + more))
  {
    hide Run, Next, Queue;
    if more == [] {
      assert ops + more == ops;
    } else {
      var last := |more| - 1;
      var t := Run(n, ops + more[..last]);
      StreamGrows(n, ops, more[..last]);
      assert ops + more == (ops + more[..last]) + [more[last]];
      RunNext(n, ops + more[..last], more[last]);
      NothingTorn(n, ops + more[..last]);
      NothingTorn(n, ops + more);
      QueuedGrows(t, n, more[last]);
      var queued' := Next(t, n, more[last]).queued;
      JoinedGrows(t.queued, queued'[|t.queued|..]);
      assert queued' == t.queued + queued'[|t.queued|..];
    }
  }

  /**
   An accepted record keeps its place: after any later calls and any UART behaviour, the bytes from where the record
   started are the record, unbroken.
   */
  lemma RecordKeepsPlace(n: nat, ops: seq<Op>, pieces: seq<seq<Byte>>, more: seq<Op>)
    requires n <= USIZE_MAX && Accepted(Run(n, ops).console, n, pieces)
    ensures var t := Run(n, ops);
            var start := |t.wire| + |Queue(ReportLoss(t.console, n))|;
            var record := Expand(Joined(pieces));
            var stream := Stream(Run(n, ops + [RecordOp(pieces)] + more));
            start + |record| <= |stream| && stream[start..start + |record|] == record
  {
    hide Run, Expand, Queue, ReportLoss, Accepted;
    var t, t1 := Run(n, ops), Run(n, ops + [RecordOp(pieces)]);
    var settled, record := Queue(ReportLoss(t.console, n)), Expand(Joined(pieces));
    RunNext(n, ops, RecordOp(pieces));
    RecordWholeOrDropped(n, ops, pieces);
    StreamGrows(n, ops + [RecordOp(pieces)], more);
    assert Stream(t1) == t.wire + (settled + record);
    SliceOfPrefix(t.wire, settled, record, Stream(Run(n, ops + [RecordOp(pieces)] + more)));
  }

  lemma SliceOfPrefix(wire: seq<Byte>, settled: seq<Byte>, record: seq<Byte>, stream: seq<Byte>)
    requires wire + (settled + record) <= stream
    ensures var start := |wire| + |settled|;
            start + |record| <= |stream| && stream[start..start + |record|] == record
  {
    var whole := wire + (settled + record);
    assert stream[..|whole|] == whole;
    forall i | 0 <= i < |record|
      ensures stream[|wire| + |settled| + i] == record[i]
    {
      assert stream[|wire| + |settled| + i] == whole[|wire| + |settled| + i];
    }
  }

  /**
   Losses are reported as soon as room allows. After a record or drain call, the losses known when it tried to report
   are reported and their marker is queued, or the marker did not fit; after a drain nothing is unreported unless
   the marker still does not fit.
   */
  lemma LossReported(n: nat, ops: seq<Op>, op: Op)
    requires n <= USIZE_MAX && !op.NoteOp?
    ensures var c, c' := Run(n, ops).console, Run(n, ops + [op]).console;
            var d := if op.DrainOp? then Drained(c, op.budget, op.answers) else c;
            var fits := |Marker(d)| + |d.ring| <= n;
            && c'.reported == (if fits then d.dropped else d.reported)
            && (fits && d.reported < d.dropped ==> Queue(d) + Marker(d) <= Queue(c'))
            && (op.DrainOp? ==> c'.reported == c'.dropped || |Marker(c')| + |c'.ring| > n)
            && |Marker(d)| <= RECORD_BYTES
  {
    hide Run, Marker, Expand;
    RunInv(n, ops);
    RunNext(n, ops, op);
    var c := Run(n, ops).console;
    if op.DrainOp? {
      DrainFits(c, n, op.budget, op.answers);
      ReportedAfter(Drained(c, op.budget, op.answers), n);
    } else {
      ReportedAfter(c, n);
      RecordReports(c, n, op.pieces);
    }
  }

  lemma ReportedAfter(c: Console, n: nat)
    requires ConsoleOk(c, n)
    ensures var c' := ReportLoss(c, n);
            var fits := |Marker(c)| + |c.ring| <= n;
            && c'.reported == (if fits then c.dropped else c.reported) && c'.dropped == c.dropped
            && (fits && c.reported < c.dropped ==> Queue(c') == Queue(c) + Marker(c))
            && (!fits ==> c' == c)
            && |Marker(c)| <= RECORD_BYTES
  {
    hide Marker;
    MarkerFits(c);
    PushQueue(c, n, Marker(c));
  }

  lemma RecordReports(c: Console, n: nat, pieces: seq<seq<Byte>>)
    requires ConsoleOk(c, n)
    ensures var c1, c' := ReportLoss(c, n), RecordCall(c, n, pieces);
            c'.reported == c1.reported && Queue(c1) <= Queue(c')
  {
    hide ReportLoss, Expand;
    PushQueue(ReportLoss(c, n), n, Expand(Joined(pieces)));
  }

  lemma DrainTakes(t: Trace, n: nat, budget: nat, answers: seq<bool>) returns (k: nat)
    ensures var t' := Next(t, n, DrainOp(budget, answers));
            var q := Queue(t.console);
            && k <= |q| && k <= budget && t'.wire == t.wire + q[..k]
            && (forall j :: 0 <= j < k ==> Ready(answers, j))
            && (k < budget && k < |q| ==> !Ready(answers, k))
            && t'.console.drains == SatAdd(t.console.drains, 1) && t'.console.sent == SatAdd(t.console.sent, k)
            && t'.console.fifoFull ==
                 if k < budget && k < |q| then SatAdd(t.console.fifoFull, 1) else t.console.fifoFull
  {
    k := Sends(t.console, budget, answers);
  }

  /**
   A drain sends the oldest waiting bytes, as many as the UART takes: it stops early only when the budget or the queue
   is used up or the UART refuses, and a refusal is counted.
   */
  lemma DrainSendsAll(n: nat, ops: seq<Op>, budget: nat, answers: seq<bool>) returns (k: nat)
    ensures var t, t' := Run(n, ops), Run(n, ops + [DrainOp(budget, answers)]);
            var q := Queue(t.console);
            && k <= |q| && k <= budget && t'.wire == t.wire + q[..k]
            && (forall j :: 0 <= j < k ==> Ready(answers, j))
            && (k < budget && k < |q| ==> !Ready(answers, k))
            && t'.console.drains == SatAdd(t.console.drains, 1) && t'.console.sent == SatAdd(t.console.sent, k)
            && t'.console.fifoFull ==
                 if k < budget && k < |q| then SatAdd(t.console.fifoFull, 1) else t.console.fifoFull
  {
    hide Run, Marker;
    RunNext(n, ops, DrainOp(budget, answers));
    k := DrainTakes(Run(n, ops), n, budget, answers);
  }
}
