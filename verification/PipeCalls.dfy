/** What a pipe call does in any run, said of the bytes accepted and delivered so far. */
module PipeCalls {
  import opened Common
  import opened PipeState
  import opened Pipe
  import WaitProgress
  import PipeWitness

  lemma RunOne(steps: seq<Step>, step: Step)
    ensures Run(steps + [step]) == Next(Run(steps), step)
  {
    assert (steps + [step])[..|steps|] == steps;
  }

  /** The task runs, nobody has the lock and the end it calls through is open. */
  ghost predicate CanCall(m: Monitor, task: nat, ends: nat) {
    m.lock == Unlocked && Runs(m, task) && ends > 0
  }

  /**
   A read delivers as much of what was accepted as it asked for and is there, in order. It blocks exactly when it
   wants bytes, has none and a writer is left, and reports the end exactly when no writer is left either.
   */
  lemma ReadMoves(steps: seq<Step>, task: nat, wanted: nat)
    requires CanCall(Run(steps), task, Run(steps).pipe.readers)
    ensures var m, m' := Run(steps), Run(steps + [ReadCall(task, wanted)]);
            var unread := |m.accepted| - |m.delivered|;
            && 0 <= unread && m'.accepted == m.accepted
            && m'.delivered == m.accepted[..|m.delivered| + Min(wanted, unread)]
            && (m'.lock == Blocking(Readable, task) <==> wanted > 0 && unread == 0 && m.pipe.writers > 0)
            && (m'.ended <==> m.ended || (wanted > 0 && unread == 0 && m.pipe.writers == 0))
            && m'.pipe.readers == m.pipe.readers && m'.pipe.writers == m.pipe.writers
  {
    hide Run;
    RunOne(steps, ReadCall(task, wanted));
    RunInv(steps);
    hide Channels, Justified, Minded;
  }

  /**
   A write accepts as much as there is room for, in order, and nothing once no reader is left. It blocks exactly when
   it offers bytes to a full pipe that a reader may still empty.
   */
  lemma WriteMoves(steps: seq<Step>, task: nat, bytes: seq<Byte>)
    requires CanCall(Run(steps), task, Run(steps).pipe.writers)
    ensures var m, m' := Run(steps), Run(steps + [WriteCall(task, bytes)]);
            var room := PIPE_CAPACITY - (|m.accepted| - |m.delivered|);
            && 0 <= room && m'.delivered == m.delivered && m'.ended == m.ended
            && m'.accepted == m.accepted + (if m.pipe.readers == 0 then [] else bytes[..Min(|bytes|, room)])
            && (m'.lock == Blocking(Writable, task) <==> bytes != [] && room == 0 && m.pipe.readers > 0)
            && m'.pipe.readers == m.pipe.readers && m'.pipe.writers == m.pipe.writers
  {
    hide Run;
    RunOne(steps, WriteCall(task, bytes));
    RunInv(steps);
    hide Channels, Justified, Minded;
  }

  /** A close takes one end away and wakes the other side. */
  lemma CloseTakesOne(steps: seq<Step>)
    requires Run(steps).lock == Unlocked
    ensures var m := Run(steps);
            && (m.pipe.readers > 0 ==>
                  Run(steps + [CloseReader]) ==
                    m.(pipe := m.pipe.(readers := m.pipe.readers - 1), lock := Waking(Writable)))
            && (m.pipe.writers > 0 ==>
                  Run(steps + [CloseWriter]) ==
                    m.(pipe := m.pipe.(writers := m.pipe.writers - 1), lock := Waking(Readable)))
  {
    hide Run;
    RunOne(steps, CloseReader);
    RunOne(steps, CloseWriter);
  }

  lemma StepEnds(m: Monitor, step: Step)
    ensures Next(m, step).pipe.readers <= m.pipe.readers && Next(m, step).pipe.writers <= m.pipe.writers
    ensures m.pipe.readers == 0 || m.pipe.writers == 0 ==> Next(m, step).accepted == m.accepted
    ensures m.pipe.readers == 0 ==> Next(m, step).delivered == m.delivered
  {
    hide Runs;
  }

  /** Once every reader, or every writer, is gone, no byte is accepted any more, whatever is called. */
  lemma {:induction false} NoEndNoByte(steps: seq<Step>, more: seq<Step>)
    requires Run(steps).pipe.readers == 0 || Run(steps).pipe.writers == 0
    ensures var m, m' := Run(steps), Run(steps + more);
            && m'.accepted == m.accepted
            && (m.pipe.readers == 0 ==> m'.pipe.readers == 0 && m'.delivered == m.delivered)
            && (m.pipe.writers == 0 ==> m'.pipe.writers == 0)
  {
    hide Run, Next;
    if more == [] {
      assert steps + more == steps;
    } else {
      var last := |more| - 1;
      NoEndNoByte(steps, more[..last]);
      assert steps + more == (steps + more[..last]) + [more[last]];
      RunOne(steps + more[..last], more[last]);
      StepEnds(Run(steps + more[..last]), more[last]);
    }
  }

  // ----------------------------------------------------------------------------- the lock

  /** A blocked call registers its task and a waking call publishes, each before it lets go of the lock. */
  lemma LockPasses(steps: seq<Step>, a: nat)
    ensures var m := Run(steps);
            && (m.lock.Blocking? ==>
                  && Run(steps + [Register]).lock == Unlocked
                  && m.lock.task in On(Run(steps + [Register]), m.lock.side).observed)
            && (m.lock.Waking? && a !in On(m, m.lock.side).agents ==>
                  && Run(steps + [Publish(a)]).lock == InWake(m.lock.side, a)
                  && On(Run(steps + [Publish(a)]), m.lock.side).gen == On(m, m.lock.side).gen + 1)
            && (m.lock.InWake? ==>
                  (Run(steps + [Unlock]).lock == Unlocked <==> m.lock.agent !in On(m, m.lock.side).agents))
  {
    hide Run;
    RunOne(steps, Register);
    RunOne(steps, Publish(a));
    RunOne(steps, Unlock);
  }

  /** The calls already in progress go on; none begins. */
  ghost predicate NoNewCall(steps: seq<Step>) {
    forall i :: 0 <= i < |steps| ==>
      || steps[i].Publish? || steps[i].Unlock? || steps[i].Register?
      || (steps[i].ChannelStep? && steps[i].step.Advance?)
  }

  lemma WakeEnds(m: Monitor) returns (more: seq<Step>)
    requires m.lock.InWake? && WC.Inv(On(m, m.lock.side))
    ensures NoNewCall(more) && RunFrom(m, more).lock == Unlocked
  {
    hide RunFrom, WC.Inv, WC.Run;
    var side := m.lock.side;
    var drain := WaitProgress.CallsEnd(On(m, side));
    PipeWitness.ChannelRun(m, side, drain);
    more := PipeWitness.OnSide(side, drain) + [Unlock];
    PipeWitness.FromConcat(m, PipeWitness.OnSide(side, drain), [Unlock]);
    PipeWitness.FromOne(RunFrom(m, PipeWitness.OnSide(side, drain)), Unlock);
  }

  /** The lock is never held for good: from every reachable state the call that has it can bring itself to let go. */
  lemma LockReleased(steps: seq<Step>) returns (more: seq<Step>)
    ensures NoNewCall(more) && Run(steps + more).lock == Unlocked
  {
    hide Run, WC.Inv, RunFrom;
    RunInv(steps);
    var m := Run(steps);
    match m.lock
    case Unlocked =>
      more := [];
      assert steps + more == steps;
    case Blocking(_, _) =>
      more := [Register];
      LockPasses(steps, 0);
    case InWake(_, _) =>
      more := WakeEnds(m);
      RunMore(steps, more);
    case Waking(side) =>
      var a := Unused(On(m, side).agents.Keys);
      LockPasses(steps, a);
      RunInv(steps + [Publish(a)]);
      var rest := WakeEnds(Run(steps + [Publish(a)]));
      more := [Publish(a)] + rest;
      RunMore(steps + [Publish(a)], rest);
      assert steps + more == steps + [Publish(a)] + rest;
  }

  lemma RunMore(steps: seq<Step>, more: seq<Step>)
    ensures Run(steps + more) == RunFrom(Run(steps), more)
  {
    hide RunFrom;
    PipeWitness.FromConcat(START, steps, more);
  }

  lemma {:induction false} Unused(used: set<nat>) returns (a: nat)
    ensures forall b :: b in used ==> b < a
  {
    if used == {} {
      a := 0;
    } else {
      var x :| x in used;
      var above := Unused(used - {x});
      a := Max(above, x + 1);
      forall b | b in used
        ensures b < a
      {
        assert b == x || b in used - {x};
      }
    }
  }
}
