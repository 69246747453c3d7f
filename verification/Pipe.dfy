/**
 The pipe as a blocking monitor (kernel/src/file/pipe.rs): reads, writes and closes under the state
 lock, with both wait channels' own steps interleaved. A call that changes the state publishes on the
 other side's channel before it unlocks; a call that must wait subscribes before it unlocks and parks
 some time later.
 */
module Pipe {
  import opened Common
  import opened PipeState
  import WC = WaitChannel

  datatype Side = Readable | Writable

  /**
   Who has the state lock: nobody, a call about to publish on a channel, a call inside that channel's
   `wake_all`, or a call about to subscribe a task.
   */
  datatype Lock = Unlocked | Waking(side: Side) | InWake(side: Side, agent: nat) | Blocking(side: Side, task: nat)

  /** `accepted` and `delivered` are all bytes ever written and read; `ended` records an end-of-file answer. */
  datatype Monitor = Monitor(
    pipe: Pipe, lock: Lock, readable: WC.Channel, writable: WC.Channel,
    accepted: seq<Byte>, delivered: seq<Byte>, ended: bool)

  const START := Monitor(NEW_PIPE, Unlocked, WC.NEW_CHANNEL, WC.NEW_CHANNEL, [], [], false)

  datatype Step =
    | ReadCall(task: nat, wanted: nat)
    | WriteCall(task: nat, bytes: seq<Byte>)
    | CloseReader
    | CloseWriter
    | Publish(agent: nat)
    | Unlock
    | Register
    | ChannelStep(side: Side, step: WC.Step)

  function On(m: Monitor, side: Side): WC.Channel {
    if side == Readable then m.readable else m.writable
  }

  function Put(m: Monitor, side: Side, c: WC.Channel): Monitor {
    if side == Readable then m.(readable := c) else m.(writable := c)
  }

  /** A task can call only while it runs. */
  predicate Runs(m: Monitor, task: nat) {
    task !in m.readable.observed && task !in m.writable.observed
  }

  /** One step; a step that is not enabled changes nothing. */
  ghost function Next(m: Monitor, step: Step): Monitor {
    match step
    case ReadCall(t, wanted) =>
      if m.lock != Unlocked || !Runs(m, t) || m.pipe.readers == 0 then m
      else
        (match ReadAnswerOf(m.pipe, wanted)
         case ReadBlocks => m.(lock := Blocking(Readable, t))
         case EndOfFile => m.(ended := true)
         case Read(n) =>
           m.(pipe := m.pipe.(buffer := m.pipe.buffer[n..]), delivered := m.delivered + m.pipe.buffer[..n],
              lock := Waking(Writable)))
    case WriteCall(t, bytes) =>
      if m.lock != Unlocked || !Runs(m, t) || m.pipe.writers == 0 then m
      else
        (match WriteAnswerOf(m.pipe, |bytes|)
         case WriteBlocks => m.(lock := Blocking(Writable, t))
         case Broken => m
         case Written(n) =>
           m.(pipe := m.pipe.(buffer := m.pipe.buffer + bytes[..n]), accepted := m.accepted + bytes[..n],
              lock := Waking(Readable)))
    case CloseReader =>
      if m.lock != Unlocked || m.pipe.readers == 0 then m
      else m.(pipe := m.pipe.(readers := m.pipe.readers - 1), lock := Waking(Writable))
    case CloseWriter =>
      if m.lock != Unlocked || m.pipe.writers == 0 then m
      else m.(pipe := m.pipe.(writers := m.pipe.writers - 1), lock := Waking(Readable))
    case Publish(a) =>
      if !m.lock.Waking? || a in On(m, m.lock.side).agents then m
      else Put(m, m.lock.side, WC.Next(On(m, m.lock.side), WC.Publish(a))).(lock := InWake(m.lock.side, a))
    case Unlock =>
      if !m.lock.InWake? || m.lock.agent in On(m, m.lock.side).agents then m else m.(lock := Unlocked)
    case Register =>
      if !m.lock.Blocking? then m
      else Put(m, m.lock.side, WC.Next(On(m, m.lock.side), WC.Subscribe(m.lock.task))).(lock := Unlocked)
    case ChannelStep(side, s) =>
      if s.Publish? || s.Subscribe? then m else Put(m, side, WC.Next(On(m, side), s))
  }

  ghost function RunFrom(m: Monitor, steps: seq<Step>): Monitor {
    if steps == [] then m else Next(RunFrom(m, steps[..|steps| - 1]), steps[|steps| - 1])
  }

  ghost function Run(steps: seq<Step>): Monitor {
    RunFrom(START, steps)
  }

  // ------------------------------------------------------------------------- invariant

  /** A reason to wait on a side: nothing to read and a writer left, or no room and a reader left. */
  predicate MustWait(p: Pipe, side: Side) {
    if side == Readable then p.buffer == [] && p.writers > 0 else |p.buffer| == PIPE_CAPACITY && p.readers > 0
  }

  ghost predicate Flow(m: Monitor) {
    && m.accepted == m.delivered + m.pipe.buffer
    && |m.pipe.buffer| <= PIPE_CAPACITY
    && (m.ended ==> m.pipe.writers == 0 && m.pipe.buffer == [])
  }

  /** A registration that has seen every publication still has its reason, or the next publication is coming. */
  ghost predicate Justified(m: Monitor, side: Side) {
    && (m.lock.Blocking? && m.lock.side == side ==> MustWait(m.pipe, side))
    && forall t :: t in On(m, side).observed && On(m, side).observed[t] == On(m, side).gen ==>
      MustWait(m.pipe, side) || m.lock == Waking(side)
  }

  /**
   A parked task that missed a publication is on its way to being woken, or it still has its reason to wait, or the
   next publication is coming. The channel alone does not promise this: a drain can miss the task because another one
   is half enqueued. That other task registered under the lock after the last publication, so the reason still holds.
   */
  ghost predicate Minded(m: Monitor, side: Side) {
    (exists t :: WC.Stale(On(m, side), t)) ==>
      WC.DrainComing(On(m, side)) || MustWait(m.pipe, side) || m.lock == Waking(side)
  }

  ghost predicate Channels(m: Monitor) {
    WC.Inv(m.readable) && WC.Inv(m.writable)
  }

  ghost predicate Inv(m: Monitor) {
    && Flow(m) && Justified(m, Readable) && Justified(m, Writable)
    && Minded(m, Readable) && Minded(m, Writable) && Channels(m)
  }

  lemma StartInv()
    ensures Inv(START)
  {
    WC.NewInv();
  }

  lemma ReadFlow(m: Monitor, task: nat, wanted: nat)
    requires Flow(m)
    ensures Flow(Next(m, ReadCall(task, wanted)))
  {
    hide WC.Next, Runs;
    var answer := ReadAnswerOf(m.pipe, wanted);
    if answer.Read? {
      assert m.pipe.buffer == m.pipe.buffer[..answer.count] + m.pipe.buffer[answer.count..];
    }
  }

  lemma WriteFlow(m: Monitor, task: nat, bytes: seq<Byte>)
    requires Flow(m)
    ensures Flow(Next(m, WriteCall(task, bytes)))
  {
    hide WC.Next, Runs;
  }

  lemma StepFlow(m: Monitor, step: Step)
    requires Flow(m)
    ensures Flow(Next(m, step))
  {
    if step.ReadCall? {
      ReadFlow(m, step.task, step.wanted);
    } else if step.WriteCall? {
      WriteFlow(m, step.task, step.bytes);
    } else {
      hide WC.Next, Runs;
    }
  }

  /** A channel's own steps add no registration that is up to date and never move the generation back. */
  lemma ChannelKeeps(c: WC.Channel, s: WC.Step)
    requires WC.TasksOk(c)
    ensures var c' := WC.Next(c, s);
            && (!s.Publish? ==> c'.gen == c.gen)
            && (!s.Subscribe? ==> c'.observed.Keys <= c.observed.Keys)
            && (forall t :: t in c'.observed && t in c.observed ==> c'.observed[t] == c.observed[t])
            && (s.Publish? && s.agent !in c.agents ==> c'.gen == c.gen + 1)
            && (s.Subscribe? ==> forall t :: t in c'.observed ==> t in c.observed || t == s.task)
  {
    hide WC.TasksOk, WC.Move;
    if s.Advance? && s.agent in c.agents {
      WC.MoveBounds(c, s.agent, s.taken);
    }
  }

  lemma CallJustified(m: Monitor, step: Step, side: Side)
    requires Inv(m) && !step.ChannelStep? && !step.Publish? && !step.Register?
    ensures Justified(Next(m, step), side)
  {
    hide WC.Inv, WC.Next, Runs, Minded;
    assert Justified(m, side) by { assert side == Readable || side == Writable; }
    assert m.pipe.buffer[0..] == m.pipe.buffer;
    assert step.WriteCall? ==> m.pipe.buffer + step.bytes[..0] == m.pipe.buffer;
    assert On(Next(m, step), side) == On(m, side);
  }

  lemma ChannelJustified(m: Monitor, step: Step, side: Side)
    requires Inv(m) && (step.ChannelStep? || step.Publish? || step.Register?)
    ensures Justified(Next(m, step), side)
  {
    hide WC.Next, WC.GateOk, WC.RequestMinded, WC.ParksOk, WC.LinksOk, Flow, MustWait, Minded;
    var c := On(m, side);
    if step.ChannelStep? {
      ChannelKeeps(c, step.step);
    } else if step.Publish? {
      ChannelKeeps(c, WC.Publish(step.agent));
      assert forall t :: t in c.observed ==> c.observed[t] <= c.gen;
    } else if m.lock.Blocking? {
      ChannelKeeps(c, WC.Subscribe(m.lock.task));
    }
  }

  lemma StepJustified(m: Monitor, step: Step, side: Side)
    requires Inv(m)
    ensures Justified(Next(m, step), side)
  {
    hide Inv, Justified, Next;
    if step.ChannelStep? || step.Publish? || step.Register? {
      ChannelJustified(m, step, side);
    } else {
      CallJustified(m, step, side);
    }
  }

  /** A fresh enqueue means a registration that has seen every publication, which still has its reason. */
  lemma FreshJustified(m: Monitor, side: Side)
    requires WC.TasksOk(On(m, side)) && Justified(m, side) && WC.FreshEnqueue(On(m, side))
    ensures MustWait(m.pipe, side) || m.lock == Waking(side)
  {
    var c := On(m, side);
    var a, t :| WC.Links(c, a, t) && c.agents[a].observed == c.gen;
    assert t in c.observed && c.observed[t] == c.gen;
  }

  lemma ChannelMinded(m: Monitor, side: Side, s: WC.Step)
    requires WC.TasksOk(On(m, side)) && Justified(m, side) && Minded(m, side) && !s.Publish? && !s.Subscribe?
    ensures Minded(Next(m, ChannelStep(side, s)), side)
  {
    hide WC.Next, WC.TasksOk, WC.LosesWake, WC.Stale, WC.DrainComing, MustWait, Justified;
    var c := On(m, side);
    if WC.StaleMinded(c) {
      WC.StepStaleIff(c, s);
      if WC.LosesWake(c, s) {
        WC.LosesByFresh(c, s);
        FreshJustified(m, side);
      }
    } else {
      assert MustWait(m.pipe, side) || m.lock == Waking(side);
    }
  }

  lemma PublishMinded(m: Monitor, a: nat, side: Side)
    requires Minded(m, side)
    ensures Minded(Next(m, Publish(a)), side)
  {
    hide MustWait;
    var m' := Next(m, Publish(a));
    if m' != m && m.lock.side == side {
      assert On(m', side).agents[a] == WC.Request;
      assert WC.DrainComing(On(m', side));
    } else if m' != m {
      assert On(m', side) == On(m, side) && m.lock != Waking(side);
    }
  }

  lemma RegisterMinded(m: Monitor, side: Side)
    requires WC.TasksOk(On(m, side)) && Minded(m, side)
    ensures Minded(Next(m, Register), side)
  {
    hide MustWait, WC.ParksOk, WC.LinksOk;
    var c, c' := On(m, side), On(Next(m, Register), side);
    assert c'.agents == c.agents && c'.gen == c.gen && c'.requested == c.requested;
    assert forall t :: WC.Stale(c', t) ==> WC.Stale(c, t);
    assert forall p :: WC.WillDrain(c', p) == WC.WillDrain(c, p);
  }

  lemma CallMinded(m: Monitor, step: Step, side: Side)
    requires Flow(m) && Minded(m, side) && !step.ChannelStep? && !step.Publish? && !step.Register?
    ensures Minded(Next(m, step), side)
  {
    hide WC.Next, WC.Stale, WC.DrainComing, Runs;
    assert m.pipe.buffer[0..] == m.pipe.buffer;
    assert step.WriteCall? ==> m.pipe.buffer + step.bytes[..0] == m.pipe.buffer;
    assert On(Next(m, step), side) == On(m, side);
  }

  lemma StepMinded(m: Monitor, step: Step, side: Side)
    requires Flow(m) && WC.TasksOk(On(m, side)) && Justified(m, side) && Minded(m, side)
    ensures Minded(Next(m, step), side)
  {
    hide Minded, Justified, Flow, WC.TasksOk, WC.Next;
    if step.ChannelStep? {
      if step.side == side && !step.step.Publish? && !step.step.Subscribe? {
        ChannelMinded(m, side, step.step);
      } else {
        ElsewhereMinded(m, Next(m, step), side);
      }
    } else if step.Publish? {
      PublishMinded(m, step.agent, side);
    } else if step.Register? {
      RegisterMinded(m, side);
    } else {
      CallMinded(m, step, side);
    }
  }

  lemma ElsewhereMinded(m: Monitor, m': Monitor, side: Side)
    requires Minded(m, side) && On(m', side) == On(m, side) && m'.pipe == m.pipe && m'.lock == m.lock
    ensures Minded(m', side)
  {
  }

  lemma StepChannels(m: Monitor, step: Step)
    requires Channels(m)
    ensures Channels(Next(m, step))
  {
    hide WC.Inv, WC.Next;
    if step.ChannelStep? {
      WC.StepInv(On(m, step.side), step.step);
    } else if step.Publish? && m.lock.Waking? {
      WC.StepInv(On(m, m.lock.side), WC.Publish(step.agent));
    } else if step.Register? && m.lock.Blocking? {
      WC.StepInv(On(m, m.lock.side), WC.Subscribe(m.lock.task));
    }
  }

  lemma StepInv(m: Monitor, step: Step)
    requires Inv(m)
    ensures Inv(Next(m, step))
  {
    hide WC.Inv, Next, Flow, Justified, Minded;
    StepFlow(m, step);
    StepJustified(m, step, Readable);
    StepJustified(m, step, Writable);
    WC.InvTasks(m.readable);
    WC.InvTasks(m.writable);
    StepMinded(m, step, Readable);
    StepMinded(m, step, Writable);
    StepChannels(m, step);
  }

  lemma {:induction false} RunInv(steps: seq<Step>)
    ensures Inv(Run(steps))
  {
    hide Inv, Next;
    if steps == [] {
      StartInv();
    } else {
      RunInv(steps[..|steps| - 1]);
      StepInv(Run(steps[..|steps| - 1]), steps[|steps| - 1]);
    }
  }

  // --------------------------------------------------------------------------- all runs

  /** Bytes come out in the order they went in; the buffer is what is in between and never exceeds 64 KiB. */
  lemma Conserved(steps: seq<Step>)
    ensures var m := Run(steps);
            m.accepted == m.delivered + m.pipe.buffer && |m.pipe.buffer| <= PIPE_CAPACITY
  {
    hide Run;
    RunInv(steps);
  }

  /** End-of-file is answered only once the writer is closed and everything accepted was delivered, and stays true. */
  lemma EndIsFinal(steps: seq<Step>)
    requires Run(steps).ended
    ensures Run(steps).pipe.writers == 0 && Run(steps).delivered == Run(steps).accepted
  {
    hide Run;
    RunInv(steps);
    assert Run(steps).delivered + [] == Run(steps).delivered;
  }

  /** A waiter whose reason is gone has missed a publication, and then a call that will wake it is in progress. */
  lemma WaiterJustified(steps: seq<Step>, side: Side, t: nat)
    requires Run(steps).lock == Unlocked && t in On(Run(steps), side).queue
    ensures var m := Run(steps);
            || MustWait(m.pipe, side)
            || (WC.Stale(On(m, side), t) && WC.DrainComing(On(m, side)) && On(m, side).agents != map[])
  {
    hide Run;
    RunInv(steps);
    var m := Run(steps);
    var c := On(m, side);
    assert WC.Inv(c) && Justified(m, side) && Minded(m, side);
    if !MustWait(m.pipe, side) {
      assert WC.Stale(c, t);
      assert WC.DrainComing(c);
    }
  }

  /** Some task is parked on the side and has seen every publication. */
  ghost predicate ParkedCurrent(m: Monitor, side: Side) {
    exists t :: t in On(m, side).queue && !WC.Stale(On(m, side), t)
  }

  /** Every task parked on the side has missed a publication, and a call that will drain it is in progress. */
  ghost predicate AllStale(m: Monitor, side: Side) {
    && (forall t :: t in On(m, side).queue ==> WC.Stale(On(m, side), t))
    && WC.DrainComing(On(m, side)) && On(m, side).agents != map[]
  }

  /**
   Whenever the lock is free, a parked reader that has seen every publication means an empty buffer and an open
   writer, and such a writer means a full buffer and an open reader; so they are never parked together.
   */
  lemma NeverBothCurrent(steps: seq<Step>)
    requires Run(steps).lock == Unlocked
    ensures var m := Run(steps);
            && (ParkedCurrent(m, Readable) ==> m.pipe.buffer == [] && m.pipe.writers > 0)
            && (ParkedCurrent(m, Writable) ==> |m.pipe.buffer| == PIPE_CAPACITY && m.pipe.readers > 0)
            && !(ParkedCurrent(m, Readable) && ParkedCurrent(m, Writable))
  {
    hide Run;
    var m := Run(steps);
    forall side | ParkedCurrent(m, side)
      ensures MustWait(m.pipe, side)
    {
      var t :| t in On(m, side).queue && !WC.Stale(On(m, side), t);
      WaiterJustified(steps, side, t);
    }
  }

  /** When the lock is free and tasks are parked on both sides, one side is all stale and about to be drained. */
  lemma BothParkedMeansStale(steps: seq<Step>)
    requires var m := Run(steps); m.lock == Unlocked && m.readable.queue != {} && m.writable.queue != {}
    ensures AllStale(Run(steps), Readable) || AllStale(Run(steps), Writable)
  {
    hide Run;
    var m := Run(steps);
    var side := if MustWait(m.pipe, Readable) then Writable else Readable;
    assert !MustWait(m.pipe, side);
    forall t | t in On(m, side).queue
      ensures WC.Stale(On(m, side), t) && WC.DrainComing(On(m, side)) && On(m, side).agents != map[]
    {
      WaiterJustified(steps, side, t);
    }
    assert AllStale(m, side);
  }

  /** With no call in progress, the two sides are never parked together, and each parked task has its reason. */
  lemma NeverBothParked(steps: seq<Step>)
    requires var m := Run(steps); m.lock == Unlocked && m.readable.agents == map[] && m.writable.agents == map[]
    ensures var m := Run(steps);
            && (m.readable.queue != {} ==> m.pipe.buffer == [] && m.pipe.writers > 0)
            && (m.writable.queue != {} ==> |m.pipe.buffer| == PIPE_CAPACITY && m.pipe.readers > 0)
            && (m.readable.queue == {} || m.writable.queue == {})
  {
    hide Run;
    var m := Run(steps);
    forall side, t | t in On(m, side).queue
      ensures MustWait(m.pipe, side)
    {
      WaiterJustified(steps, side, t);
    }
    assert m.readable.queue != {} ==> exists t :: t in On(m, Readable).queue;
    assert m.writable.queue != {} ==> exists t :: t in On(m, Writable).queue;
  }
}
