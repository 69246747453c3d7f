/** Two runs of a pipe: tasks parked on both sides with the lock free, and a task that every drain missed. */
module PipeWitness {
  import opened Common
  import opened PipeState
  import opened Pipe
  import Calls = WaitProgress

  // ----------------------------------------------------------------------- runs in pieces

  lemma {:induction false} FromConcat(m: Monitor, xs: seq<Step>, ys: seq<Step>)
    ensures RunFrom(m, xs + ys) == RunFrom(RunFrom(m, xs), ys)
  {
    hide Next;
    if ys == [] {
      assert xs + ys == xs;
    } else {
      var last := |ys| - 1;
      FromConcat(m, xs, ys[..last]);
      assert (xs + ys)[..|xs| + last] == xs + ys[..last];
    }
  }

  lemma FromOne(m: Monitor, step: Step)
    ensures RunFrom(m, [step]) == Next(m, step)
  {
    hide Next;
    assert [step][..0] == [];
    assert RunFrom(m, []) == m;
  }

  lemma FromTwo(m: Monitor, first: Step, second: Step)
    ensures RunFrom(m, [first, second]) == Next(Next(m, first), second)
  {
    hide Next, RunFrom;
    assert [first, second] == [first] + [second];
    FromConcat(m, [first], [second]);
    FromOne(m, first);
    FromOne(Next(m, first), second);
  }

  function OnSide(side: Side, steps: seq<WC.Step>): seq<Step> {
    seq(|steps|, i requires 0 <= i < |steps| => ChannelStep(side, steps[i]))
  }

  /** A channel's own steps run in the monitor as they run alone. */
  lemma {:induction false} ChannelRun(m: Monitor, side: Side, steps: seq<WC.Step>)
    requires forall i :: 0 <= i < |steps| ==> !steps[i].Publish? && !steps[i].Subscribe?
    ensures RunFrom(m, OnSide(side, steps)) == Put(m, side, WC.Run(On(m, side), steps))
  {
    hide WC.Next;
    if steps != [] {
      var last := |steps| - 1;
      ChannelRun(m, side, steps[..last]);
      assert OnSide(side, steps)[..last] == OnSide(side, steps[..last]);
    }
  }

  // ------------------------------------------------------------------------ a late reader

  /** Reader 1 found nothing, and its park has passed the first check. */
  const LATE_READER := [ReadCall(1, 4), Register] + OnSide(Readable, [WC.StartPark(10, 1), WC.Advance(10, None)])

  const LATE := WC.Channel(0, false, false, {}, map[1 := 0], map[10 := WC.ParkSwap(1)])

  lemma LateReader()
    ensures RunFrom(START, LATE_READER) == START.(readable := LATE)
  {
    hide RunFrom;
    var c := WC.Channel(0, false, false, {}, map[1 := 0], map[]);
    var m1 := START.(lock := Blocking(Readable, 1));
    var m2 := START.(readable := c);
    assert Next(START, ReadCall(1, 4)) == m1;
    assert Next(m1, Register) == m2;
    FromTwo(START, ReadCall(1, 4), Register);
    var steps := [WC.StartPark(10, 1), WC.Advance(10, None)];
    ChannelRun(m2, Readable, steps);
    Calls.RunTwo(c, WC.StartPark(10, 1), WC.Advance(10, None));
    assert WC.Next(c, WC.StartPark(10, 1)) == WC.Channel(0, false, false, {}, map[1 := 0], map[10 := WC.ParkCheck(1)]);
    FromConcat(START, [ReadCall(1, 4), Register], OnSide(Readable, steps));
  }

  /** A write, with a wake-up that finds nobody parked. */
  function WriteAndWake(bytes: seq<Byte>): seq<Step> {
    [WriteCall(2, bytes), Publish(20)] + OnSide(Readable, Calls.VainDrain(20)) + [Unlock]
  }

  const MISSED := WC.Channel(1, false, false, {}, map[1 := 0], map[10 := WC.ParkSwap(1)])

  /** The pipe holds the bytes, and reader 1 has missed their publication. */
  function Written1(bytes: seq<Byte>): Monitor {
    START.(pipe := PipeState.Pipe(bytes, 1, 1), readable := MISSED, accepted := bytes)
  }

  lemma WakeNobody(m: Monitor, side: Side, a: nat)
    requires m.lock == InWake(side, a) && a in On(m, side).agents && On(m, side).agents[a].Request?
    requires !On(m, side).active && !On(m, side).requested && On(m, side).queue == {}
    ensures RunFrom(m, OnSide(side, Calls.VainDrain(a)) + [Unlock]) ==
              Put(m, side, WC.Leave(On(m, side), a)).(lock := Unlocked)
  {
    hide RunFrom;
    ChannelRun(m, side, Calls.VainDrain(a));
    Calls.VainDrainRun(On(m, side), a);
    var m1 := Put(m, side, WC.Leave(On(m, side), a));
    FromConcat(m, OnSide(side, Calls.VainDrain(a)), [Unlock]);
    FromOne(m1, Unlock);
  }

  lemma LateWrite(bytes: seq<Byte>)
    requires 0 < |bytes| <= PIPE_CAPACITY
    ensures RunFrom(START, LATE_READER + WriteAndWake(bytes)) == Written1(bytes)
  {
    hide RunFrom;
    LateReader();
    var m := START.(readable := LATE);
    var p := PipeState.Pipe(bytes, 1, 1);
    var m1 := m.(pipe := p, accepted := bytes, lock := Waking(Readable));
    assert bytes[..|bytes|] == bytes && [] + bytes == bytes;
    assert Next(m, WriteCall(2, bytes)) == m1;
    var c := WC.Channel(1, false, false, {}, map[1 := 0], map[10 := WC.ParkSwap(1), 20 := WC.Request]);
    var m2 := m1.(readable := c, lock := InWake(Readable, 20));
    assert Next(m1, Publish(20)) == m2;
    FromTwo(m, WriteCall(2, bytes), Publish(20));
    WakeNobody(m2, Readable, 20);
    assert WC.Leave(c, 20) == MISSED;
    var rest := OnSide(Readable, Calls.VainDrain(20)) + [Unlock];
    assert WriteAndWake(bytes) == [WriteCall(2, bytes), Publish(20)] + rest;
    FromConcat(m, [WriteCall(2, bytes), Publish(20)], rest);
    FromConcat(START, LATE_READER, WriteAndWake(bytes));
  }

  /** A call that must wait registers its task. */
  lemma BlockRun(m: Monitor, call: Step, side: Side, task: nat)
    requires m.lock == Unlocked && Next(m, call) == m.(lock := Blocking(side, task)) && task !in On(m, side).observed
    ensures RunFrom(m, [call, Register]) ==
              Put(m, side, On(m, side).(observed := On(m, side).observed[task := On(m, side).gen]))
  {
    hide RunFrom;
    FromTwo(m, call, Register);
  }

  // ---------------------------------------------------------------------- both sides parked

  const FULL: seq<Byte> := seq(PIPE_CAPACITY, _ => 0)

  const BOTH_RUN :=
    LATE_READER + WriteAndWake(FULL) + OnSide(Readable, [WC.Advance(10, None), WC.Advance(10, None)])
    + [WriteCall(2, [0]), Register] + OnSide(Writable, Calls.HalfPark(30, 2) + Calls.RestOfPark(30))

  const LATE_PARKED := WC.Channel(1, false, false, {1}, map[1 := 0], map[10 := WC.ParkRecheck(0)])

  const READER_PARKED := Written1(FULL).(readable := LATE_PARKED)

  lemma ReaderParks()
    ensures RunFrom(Written1(FULL), OnSide(Readable, [WC.Advance(10, None), WC.Advance(10, None)])) == READER_PARKED
  {
    hide RunFrom;
    ChannelRun(Written1(FULL), Readable, [WC.Advance(10, None), WC.Advance(10, None)]);
    Calls.RunTwo(MISSED, WC.Advance(10, None), WC.Advance(10, None));
    assert WC.Next(MISSED, WC.Advance(10, None)) ==
        WC.Channel(1, false, false, {1}, map[1 := 0], map[10 := WC.ParkLink(1, 0)]);
  }

  const REGISTERED := WC.Channel(0, false, false, {}, map[2 := 0], map[])

  lemma WriterBlocks()
    ensures RunFrom(READER_PARKED, [WriteCall(2, [0]), Register]) == READER_PARKED.(writable := REGISTERED)
  {
    hide RunFrom;
    BlockRun(READER_PARKED, WriteCall(2, [0]), Writable, 2);
  }

  lemma WriterParks()
    ensures RunFrom(READER_PARKED.(writable := REGISTERED),
                    OnSide(Writable, Calls.HalfPark(30, 2) + Calls.RestOfPark(30))) ==
              READER_PARKED.(writable := REGISTERED.(queue := {2}))
  {
    hide RunFrom;
    ChannelRun(READER_PARKED.(writable := REGISTERED), Writable, Calls.HalfPark(30, 2) + Calls.RestOfPark(30));
    Calls.RunConcat(REGISTERED, Calls.HalfPark(30, 2), Calls.RestOfPark(30));
    Calls.HalfParkRun(REGISTERED, 30, 2);
    assert REGISTERED.queue + {2} == {2};
    var c := WC.Go(REGISTERED, 30, WC.ParkLink(2, 0)).(queue := {2});
    Calls.RestOfParkRun(c, 30);
    assert WC.Leave(c, 30) == REGISTERED.(queue := {2});
  }

  /**
   With the lock free, reader 1 and writer 2 are both parked and the buffer is full: the reader's park is between its
   enqueue and its re-check, and the publication of the bytes came before that enqueue.
   */
  lemma BothParked()
    ensures var m := Run(BOTH_RUN);
            && m.lock == Unlocked && m.readable.queue == {1} && m.writable.queue == {2}
            && |m.pipe.buffer| == PIPE_CAPACITY && AllStale(m, Readable)
  {
    hide RunFrom;
    LateWrite(FULL);
    ReaderParks();
    WriterBlocks();
    WriterParks();
    var a := LATE_READER + WriteAndWake(FULL);
    var b := OnSide(Readable, [WC.Advance(10, None), WC.Advance(10, None)]);
    FromConcat(START, a, b);
    FromConcat(START, a + b, [WriteCall(2, [0]), Register]);
    FromConcat(START, a + b + [WriteCall(2, [0]), Register],
               OnSide(Writable, Calls.HalfPark(30, 2) + Calls.RestOfPark(30)));
    assert LATE_PARKED.agents[10] == WC.ParkRecheck(0);
  }

  // ----------------------------------------------------------------------- a missed reader

  /** Reader 1 goes on to own the drain gate; reader 3 takes the byte; reader 4 waits and is half enqueued. */
  const OWN_GATE := [
    WC.Advance(10, None), WC.Advance(10, None), WC.Advance(10, None), WC.Advance(10, None), WC.Advance(10, None)]
  const PASS := [WC.Advance(10, None), WC.Advance(10, None), WC.Advance(10, None), WC.Advance(10, None)]
  const TAKE_BYTE := [ReadCall(3, 1), Publish(21)] + OnSide(Writable, Calls.VainDrain(21)) + [Unlock]
  const WAIT_AGAIN := [ReadCall(4, 1), Register] + OnSide(Readable, Calls.HalfPark(40, 4))

  const MISSED_RUN :=
    LATE_READER + WriteAndWake([0]) + OnSide(Readable, OWN_GATE) + TAKE_BYTE + WAIT_AGAIN
    + OnSide(Readable, PASS) + OnSide(Readable, Calls.RestOfPark(40))

  const OWNED := WC.Channel(1, true, true, {1}, map[1 := 0], map[10 := WC.BeginPass])
  const HIDDEN := WC.Channel(
    1, true, true, {1, 4}, map[1 := 0, 4 := 1], map[10 := WC.BeginPass, 40 := WC.ParkLink(4, 1)])
  const MISSING := WC.Channel(
    1, true, false, {1, 4}, map[1 := 0, 4 := 1], map[10 := WC.ReleaseGate, 40 := WC.ParkLink(4, 1)])
  const PASSED := WC.Channel(1, false, false, {1, 4}, map[1 := 0, 4 := 1], map[40 := WC.ParkLink(4, 1)])

  /** After reader 3 took the byte. */
  function Emptied(c: WC.Channel): Monitor {
    Monitor(NEW_PIPE, Unlocked, c, WC.NEW_CHANNEL.(gen := 1), [0], [0], false)
  }

  lemma GateOwned()
    ensures WC.Run(MISSED, OWN_GATE) == OWNED
  {
    hide WC.Run;
    var c2 := WC.Channel(1, false, false, {1}, map[1 := 0], map[10 := WC.ParkRecheck(0)]);
    var c4 := WC.Channel(1, false, true, {1}, map[1 := 0], map[10 := WC.Acquire]);
    var two := [WC.Advance(10, None), WC.Advance(10, None)];
    GateOwnedSteps();
    Calls.RunTwo(MISSED, WC.Advance(10, None), WC.Advance(10, None));
    Calls.RunTwo(c2, WC.Advance(10, None), WC.Advance(10, None));
    Calls.RunOne(c4, WC.Advance(10, None));
    Calls.RunConcat(MISSED, two, two);
    Calls.RunConcat(MISSED, two + two, [WC.Advance(10, None)]);
    assert two + two + [WC.Advance(10, None)] == OWN_GATE;
  }

  lemma GateOwnedSteps()
    ensures WC.Next(WC.Next(MISSED, WC.Advance(10, None)), WC.Advance(10, None)) ==
              WC.Channel(1, false, false, {1}, map[1 := 0], map[10 := WC.ParkRecheck(0)])
    ensures var c2 := WC.Channel(1, false, false, {1}, map[1 := 0], map[10 := WC.ParkRecheck(0)]);
            WC.Next(WC.Next(c2, WC.Advance(10, None)), WC.Advance(10, None)) ==
              WC.Channel(1, false, true, {1}, map[1 := 0], map[10 := WC.Acquire])
    ensures WC.Next(WC.Channel(1, false, true, {1}, map[1 := 0], map[10 := WC.Acquire]), WC.Advance(10, None)) == OWNED
  {
    assert WC.Next(MISSED, WC.Advance(10, None)) ==
        WC.Channel(1, false, false, {1}, map[1 := 0], map[10 := WC.ParkLink(1, 0)]);
    var c2 := WC.Channel(1, false, false, {1}, map[1 := 0], map[10 := WC.ParkRecheck(0)]);
    assert WC.Next(c2, WC.Advance(10, None)) ==
        WC.Channel(1, false, false, {1}, map[1 := 0], map[10 := WC.Request]);
  }

  lemma ByteTaken()
    ensures RunFrom(Written1([0]).(readable := OWNED), TAKE_BYTE) == Emptied(OWNED)
  {
    hide RunFrom;
    var m := Written1([0]).(readable := OWNED);
    var m1 := m.(pipe := NEW_PIPE, delivered := [0], lock := Waking(Writable));
    assert [0 as Byte][1..] == [] && [0 as Byte][..1] == [0] && [] + [0 as Byte] == [0];
    assert Next(m, ReadCall(3, 1)) == m1;
    var c := WC.Channel(1, false, false, {}, map[], map[21 := WC.Request]);
    var m2 := m1.(writable := c, lock := InWake(Writable, 21));
    assert Next(m1, Publish(21)) == m2;
    FromTwo(m, ReadCall(3, 1), Publish(21));
    WakeNobody(m2, Writable, 21);
    assert WC.Leave(c, 21) == WC.NEW_CHANNEL.(gen := 1);
    var rest := OnSide(Writable, Calls.VainDrain(21)) + [Unlock];
    assert TAKE_BYTE == [ReadCall(3, 1), Publish(21)] + rest;
    FromConcat(m, [ReadCall(3, 1), Publish(21)], rest);
  }

  lemma WaitsAgain()
    ensures RunFrom(Emptied(OWNED), WAIT_AGAIN) == Emptied(HIDDEN)
  {
    hide RunFrom;
    var c := OWNED.(observed := map[1 := 0, 4 := 1]);
    BlockRun(Emptied(OWNED), ReadCall(4, 1), Readable, 4);
    assert OWNED.observed[4 := 1] == map[1 := 0, 4 := 1];
    ChannelRun(Emptied(c), Readable, Calls.HalfPark(40, 4));
    Calls.HalfParkRun(c, 40, 4);
    assert WC.Go(c, 40, WC.ParkLink(4, 1)).(queue := c.queue + {4}) == HIDDEN;
    FromConcat(Emptied(OWNED), [ReadCall(4, 1), Register], OnSide(Readable, Calls.HalfPark(40, 4)));
  }

  lemma PassStarts()
    ensures WC.Next(WC.Next(HIDDEN, WC.Advance(10, None)), WC.Advance(10, None)) == MISSING
  {
    var c := HIDDEN.(requested := false, agents := map[10 := WC.TakePass, 40 := WC.ParkLink(4, 1)]);
    assert WC.Next(HIDDEN, WC.Advance(10, None)) == c;
    assert WC.Links(c, 40, 4) && WC.Unlinked(c, 4);
  }

  lemma PassEnds()
    ensures WC.Next(WC.Next(MISSING, WC.Advance(10, None)), WC.Advance(10, None)) == PASSED
  {
    assert WC.Next(MISSING, WC.Advance(10, None)) ==
        MISSING.(active := false, agents := map[10 := WC.Look, 40 := WC.ParkLink(4, 1)]);
  }

  lemma PassMisses()
    ensures WC.Run(HIDDEN, PASS) == PASSED
  {
    hide WC.Run, WC.Next;
    PassStarts();
    PassEnds();
    var two := [WC.Advance(10, None), WC.Advance(10, None)];
    Calls.RunTwo(HIDDEN, WC.Advance(10, None), WC.Advance(10, None));
    Calls.RunTwo(MISSING, WC.Advance(10, None), WC.Advance(10, None));
    Calls.RunConcat(HIDDEN, two, two);
    assert two + two == PASS;
  }

  /**
   Every caller keeps to the lock, and still reader 1 is parked after its publication with no call left to wake it:
   reader 4, half enqueued, hid it from the last pass. The pipe is empty again, so reader 1 has its reason to wait.
   */
  lemma ReaderMissed()
    ensures var m := Run(MISSED_RUN);
            && m.lock == Unlocked && m.readable.queue == {1, 4} && WC.Stale(m.readable, 1)
            && Calls.Lost(m.readable) && m.writable.agents == map[] && MustWait(m.pipe, Readable)
  {
    hide RunFrom;
    LateWrite([0]);
    GateOwned();
    ChannelRun(Written1([0]), Readable, OWN_GATE);
    ByteTaken();
    WaitsAgain();
    PassMisses();
    ChannelRun(Emptied(HIDDEN), Readable, PASS);
    ChannelRun(Emptied(PASSED), Readable, Calls.RestOfPark(40));
    Calls.RestOfParkRun(PASSED, 40);
    var a := LATE_READER + WriteAndWake([0]);
    FromConcat(START, a, OnSide(Readable, OWN_GATE));
    FromConcat(START, a + OnSide(Readable, OWN_GATE), TAKE_BYTE);
    FromConcat(START, a + OnSide(Readable, OWN_GATE) + TAKE_BYTE, WAIT_AGAIN);
    var b := a + OnSide(Readable, OWN_GATE) + TAKE_BYTE + WAIT_AGAIN;
    FromConcat(START, b, OnSide(Readable, PASS));
    FromConcat(START, b + OnSide(Readable, PASS), OnSide(Readable, Calls.RestOfPark(40)));
    var last := WC.Leave(PASSED, 40);
    assert WC.Stale(last, 1) && last.agents == map[];
  }
}
