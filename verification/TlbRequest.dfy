/** What a caller of `shootdown_tlb` gets for the mask it passed: the request followed through every interleaving. */
module TlbRequest {
  import opened CpuMask
  import opened TlbShootdown

  /** The targets cover the requested CPUs that were online, and no CPU that was not requested. */
  ghost predicate Carries(targets: nat, cpu: nat, mask: nat, online: nat) {
    && (forall c: nat :: HasBit(mask, c) && HasBit(online, c) && c != cpu ==> HasBit(targets, c))
    && (forall c: nat :: HasBit(targets, c) ==> HasBit(mask, c) && c != cpu)
  }

  /** The epoch was allocated after the time. */
  ghost predicate BornAfter(m: Machine, e: nat, time: nat) {
    0 < e <= |m.born| && m.born[e - 1] > time
  }

  /** The frame still works on the request its call made at that time. */
  ghost predicate Follows(m: Machine, f: nat, cpu: nat, mask: nat, online: nat, time: nat) {
    && f in m.frames && m.frames[f].cpu == cpu && Subset(online, m.online) && time < m.clock
    && match m.frames[f].job
       case Requested(k) => k == mask
       case Allocate(t) => Carries(t, cpu, mask, online)
       case Own(t, e) => Carries(t, cpu, mask, online) && BornAfter(m, e, time)
       case Sending(t, e, _) => Carries(t, cpu, mask, online) && BornAfter(m, e, time)
       case Polling(t, e, _) => Carries(t, cpu, mask, online) && BornAfter(m, e, time)
       case Retry(t, e) => Carries(t, cpu, mask, online) && BornAfter(m, e, time)
       case Returned(t, e) => Carries(t, cpu, mask, online) && BornAfter(m, e, time)
       case _ => false
  }

  lemma TargetsCarry(mask: nat, cpu: nat, before: nat, now: nat)
    requires Subset(before, now)
    ensures Carries(TargetsOf(mask, now, cpu), cpu, mask, before)
  {
    hide TargetsOf;
    forall c: nat
      ensures HasBit(TargetsOf(mask, now, cpu), c) <==> HasBit(mask, c) && HasBit(now, c) && c != cpu
    {
      TargetBits(mask, now, cpu, c);
    }
  }

  lemma OnlineGrows(m: Machine, step: Step)
    requires Shaped(m)
    ensures Subset(m.online, Next(m, step).online)
  {
    MovesKeepOnline(m, step);
    hide MoveJob, MoveAck, HasBit, Or;
    forall c: nat | HasBit(m.online, c)
      ensures HasBit(Next(m, step).online, c)
    {
      if step.MarkOnline? {
        OrBits(m.online, Bit(step.cpu), c);
      }
    }
  }

  lemma MovesKeepOnline(m: Machine, step: Step)
    requires Shaped(m)
    ensures step.Advance? ==> Next(m, step).online == m.online
  {
    hide And, TargetsOf, TrailingZeros;
  }

  lemma OwnFollows(m: Machine, f: nat, cpu: nat, mask: nat, online: nat, time: nat)
    requires Inv(m) && Follows(m, f, cpu, mask, online, time) && Shaped(m)
    ensures Follows(Next(m, Advance(f)), f, cpu, mask, online, time)
  {
    OnlineGrows(m, Advance(f));
    if m.frames[f].job.Requested? {
      TargetsCarry(mask, cpu, online, m.online);
    }
    assert FrameOk(m, m.frames[f]);
    hide NoneLost, AcksOk, TimesOk, AckOk, JobOk, Carries, TargetsOf, HasBit, And, TrailingZeros;
  }

  lemma FollowsStep(m: Machine, step: Step, f: nat, cpu: nat, mask: nat, online: nat, time: nat)
    requires Inv(m) && Follows(m, f, cpu, mask, online, time) && Shaped(m)
    ensures Follows(Next(m, step), f, cpu, mask, online, time)
  {
    if step == Advance(f) {
      OwnFollows(m, f, cpu, mask, online, time);
    } else {
      OnlineGrows(m, step);
      StepInv(m, step);
      FrameUnmoved(m, step, f);
      hide Inv, Carries, HasBit, Next;
      assert m.born <= Next(m, step).born;
    }
  }

  /** A frame moves only by its own steps. */
  lemma FrameUnmoved(m: Machine, step: Step, f: nat)
    requires Shaped(m) && f in m.frames && step != Advance(f)
    ensures f in Next(m, step).frames && Next(m, step).frames[f] == m.frames[f] && Next(m, step).clock > m.clock
  {
    hide TargetsOf, And, Or, TrailingZeros;
  }

  lemma {:induction false} FollowsRun(steps: seq<Step>, more: seq<Step>, f: nat, cpu: nat, mask: nat)
    requires f !in Run(steps).frames && cpu in Run(steps).contexts
    ensures Follows(Run(steps + [Call(f, cpu, mask)] + more), f, cpu, mask, Run(steps).online, Run(steps).clock)
  {
    hide Run, Inv, Follows;
    var called := steps + [Call(f, cpu, mask)];
    if more == [] {
      assert called + more == called;
      RunNext(steps, Call(f, cpu, mask));
      CallFollows(Run(steps), f, cpu, mask);
    } else {
      var last := |more| - 1;
      FollowsRun(steps, more[..last], f, cpu, mask);
      assert called + more == (called + more[..last]) + [more[last]];
      RunNext(called + more[..last], more[last]);
      FollowsStep(Run(called + more[..last]), more[last], f, cpu, mask, Run(steps).online, Run(steps).clock);
    }
  }

  lemma CallFollows(m: Machine, f: nat, cpu: nat, mask: nat)
    requires Inv(m) && f !in m.frames && cpu in m.contexts && Shaped(m)
    ensures Follows(Next(m, Call(f, cpu, mask)), f, cpu, mask, m.online, m.clock)
  {
    hide NoneLost, AcksOk, TimesOk, FrameOk, Carries, HasBit;
  }

  /**
   A shootdown that has returned did what its caller asked, in every interleaving: on the caller's CPU and on every
   CPU that was in the mask and online at the call, nothing is cached that was there before the call.
   */
  lemma RequestFlushed(steps: seq<Step>, more: seq<Step>, f: nat, cpu: nat, mask: nat, c: nat)
    requires f !in Run(steps).frames && cpu in Run(steps).contexts
    requires var m := Run(steps + [Call(f, cpu, mask)] + more); f in m.frames && m.frames[f].job.Returned?
    requires c == cpu || (HasBit(mask, c) && HasBit(Run(steps).online, c))
    ensures var m := Run(steps + [Call(f, cpu, mask)] + more);
            c < |m.tlb| && forall t :: t in m.tlb[c] ==> t.filled > Run(steps).clock
  {
    hide Run, Inv, HasBit;
    FollowsRun(steps, more, f, cpu, mask);
    ReturnMeansFlushed(steps + [Call(f, cpu, mask)] + more, f, c);
  }

  /** It interrupts no CPU but those in the mask, and never its own. */
  lemma RequestBounded(steps: seq<Step>, more: seq<Step>, f: nat, cpu: nat, mask: nat, c: nat)
    requires f !in Run(steps).frames && cpu in Run(steps).contexts
    requires var m := Run(steps + [Call(f, cpu, mask)] + more);
             && Shaped(m) && f in m.frames
             && c in Next(m, Advance(f)).ipis && c !in m.ipis
    ensures HasBit(mask, c) && c != cpu
  {
    hide Run, Next;
    var m := Run(steps + [Call(f, cpu, mask)] + more);
    FollowsRun(steps, more, f, cpu, mask);
    InterruptsTarget(m, f, c);
  }

  lemma InterruptsTarget(m: Machine, f: nat, c: nat)
    requires Inv(m) && Shaped(m) && f in m.frames && c in Next(m, Advance(f)).ipis && c !in m.ipis
    ensures m.frames[f].job.Sending? && HasBit(m.frames[f].job.targets, c)
  {
    assert FrameOk(m, m.frames[f]);
    hide NoneLost, AcksOk, TimesOk, AckOk, Within, TargetsOf, HasBit;
    if m.frames[f].job.Sending? && m.frames[f].job.remaining > 0 {
      AndNotSelf(m.frames[f].job.remaining);
    }
  }

  /** A caller whose CPU has no context yet flushes its own TLB at once, which is all that can be cached then. */
  lemma EarlyCallFlushes(steps: seq<Step>, f: nat, cpu: nat, mask: nat)
    requires f !in Run(steps).frames && cpu !in Run(steps).contexts && cpu < MAX_TRACKED_CPUS
    ensures var m := Run(steps + [Call(f, cpu, mask)]);
            && |m.tlb| == MAX_TRACKED_CPUS == |Run(steps).tlb| && m.tlb[cpu] == {} && f !in m.frames
            && (forall c :: 0 <= c < MAX_TRACKED_CPUS && c != cpu ==> m.tlb[c] == Run(steps).tlb[c])
  {
    hide Run, Inv;
    RunNext(steps, Call(f, cpu, mask));
  }

  /** What the rest of the machine does meanwhile: CPUs come up, go online and cache translations. */
  lemma Environment(steps: seq<Step>, cpu: nat, page: nat, c: nat)
    requires cpu < MAX_TRACKED_CPUS
    ensures var m := Run(steps);
            && |m.tlb| == |Run(steps + [Fill(cpu, page)]).tlb| == MAX_TRACKED_CPUS
            && Run(steps + [Fill(cpu, page)]).tlb[cpu] == m.tlb[cpu] + {Translation(page, m.clock)}
            && Run(steps + [CreateContext(cpu)]).contexts == m.contexts + {cpu}
            && (HasBit(Run(steps + [MarkOnline(cpu)]).online, c) <==>
                  HasBit(m.online, c) || (c == cpu && cpu in m.contexts))
  {
    hide Run, Inv, HasBit, Or;
    RunNext(steps, Fill(cpu, page));
    RunNext(steps, CreateContext(cpu));
    RunNext(steps, MarkOnline(cpu));
    OrBits(Run(steps).online, Bit(cpu), c);
    BitBits(cpu, c);
  }
}
