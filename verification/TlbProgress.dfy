/**
 Progress of the TLB shootdown (kernel/src/arch/x86_64.rs): whatever state the machine is in, delivering the pending
 interrupts and letting frames go on brings a shootdown to its return. Nothing else has to happen first.
 */
module TlbProgress {
  import opened Common
  import opened CpuMask
  import opened TlbShootdown

  ghost function RunFrom(m: Machine, steps: seq<Step>): (r: Machine)
    requires Inv(m)
    ensures Inv(r)
  {
    if steps == [] then m
    else
      var prev := RunFrom(m, steps[..|steps| - 1]);
      StepInv(prev, steps[|steps| - 1]);
      Next(prev, steps[|steps| - 1])
  }

  lemma {:induction false} FromConcat(m: Machine, xs: seq<Step>, ys: seq<Step>)
    requires Inv(m)
    ensures RunFrom(m, xs + ys) == RunFrom(RunFrom(m, xs), ys)
  {
    hide Next, Inv;
    if ys == [] {
      assert xs + ys == xs;
    } else {
      var last := |ys| - 1;
      FromConcat(m, xs, ys[..last]);
      assert (xs + ys)[..|xs| + last] == xs + ys[..last];
      assert (xs + ys)[|xs| + last] == ys[last];
    }
  }

  lemma FromNone(m: Machine)
    requires Inv(m)
    ensures RunFrom(m, []) == m
  {
  }

  lemma FromOne(m: Machine, step: Step)
    requires Inv(m)
    ensures Shaped(m) && RunFrom(m, [step]) == Next(m, step)
  {
    InvCore(m);
    hide Inv, Next;
    assert [step][..0] == [];
    FromNone(m);
  }

  lemma {:induction false} FromStart(steps: seq<Step>, more: seq<Step>)
    ensures Run(steps + more) == RunFrom(Run(steps), more)
  {
    hide Next, Inv;
    if more == [] {
      assert steps + more == steps;
    } else {
      var last := |more| - 1;
      FromStart(steps, more[..last]);
      assert steps + more == (steps + more[..last]) + [more[last]];
      RunNext(steps + more[..last], more[last]);
    }
  }

  /** Interrupts are delivered and frames go on; nobody calls, fills or comes online. */
  ghost predicate Schedule(steps: seq<Step>) {
    forall i :: 0 <= i < |steps| ==> steps[i].Deliver? || steps[i].Advance?
  }

  /** `r` is `m` later: the frame stands where it stood, and acknowledgements have only grown. */
  ghost predicate Later(m: Machine, r: Machine, f: nat) {
    && Inv(m) && Inv(r) && r.epoch == m.epoch
    && f in m.frames && f in r.frames && r.frames[f] == m.frames[f]
    && |m.acks| == |r.acks| && forall c :: 0 <= c < |m.acks| ==> m.acks[c] <= r.acks[c]
  }

  lemma LaterSelf(m: Machine, f: nat)
    requires Inv(m) && f in m.frames
    ensures Later(m, m, f)
  {
  }

  lemma LaterTransitive(m: Machine, r: Machine, q: Machine, f: nat)
    requires Later(m, r, f) && Later(r, q, f)
    ensures Later(m, q, f)
  {
    hide Inv;
  }

  // --------------------------------------------------------------------- one acknowledgement

  function AckRank(ack: Ack): nat {
    match ack
    case Idle => 0
    case Flushed(_) => 1
    case Loaded(_) => 2
    case Begin => 3
  }

  /** What one access of an acknowledgement does. */
  lemma AckStep(m: Machine, g: nat, f: nat, e: nat)
    requires Inv(m) && g in m.frames && !m.frames[g].ack.Idle? && f in m.frames && f != g && e <= m.epoch
    ensures var r := Next(m, Advance(g));
            && Later(m, r, f) && g in r.frames && r.frames[g].cpu == m.frames[g].cpu < |r.acks|
            && AckRank(r.frames[g].ack) < AckRank(m.frames[g].ack)
            && (Covers(m.frames[g].ack, e) ==> Covers(r.frames[g].ack, e) || r.acks[m.frames[g].cpu] >= e)
            && (r.frames[g].ack.Idle? ==> r.frames[g].job == AfterAck(m.frames[g].job))
            && (!r.frames[g].ack.Idle? ==> r.frames[g].job == m.frames[g].job)
  {
    StepInv(m, Advance(g));
    hide NoneLost, FrameOk, TimesOk, AcksOk, Within;
  }

  /** The rest of an acknowledgement, run to its end beside another frame. */
  lemma {:induction false} Acknowledge(m: Machine, g: nat, f: nat, e: nat) returns (steps: seq<Step>)
    requires Inv(m) && g in m.frames && f in m.frames && f != g && e <= m.epoch
    requires Covers(m.frames[g].ack, e)
    ensures Schedule(steps)
    ensures var r := RunFrom(m, steps);
            Later(m, r, f) && m.frames[g].cpu < |r.acks| && r.acks[m.frames[g].cpu] >= e
    decreases AckRank(m.frames[g].ack)
  {
    hide Inv, RunFrom, Next, Later;
    FromOne(m, Advance(g));
    AckStep(m, g, f, e);
    var r := Next(m, Advance(g));
    LaterParts(m, r, f);
    if r.acks[m.frames[g].cpu] >= e {
      steps := [Advance(g)];
    } else {
      var rest := Acknowledge(r, g, f, e);
      LaterTransitive(m, r, RunFrom(r, rest), f);
      steps := [Advance(g)] + rest;
      FromConcat(m, [Advance(g)], rest);
    }
  }

  lemma LaterParts(m: Machine, r: Machine, f: nat)
    requires Later(m, r, f)
    ensures Inv(r) && r.epoch == m.epoch && f in m.frames && f in r.frames && r.frames[f] == m.frames[f]
  {
    hide Inv;
  }

  // ----------------------------------------------------------------------- lagging targets

  lemma DeliverStep(m: Machine, g: nat, c: nat, f: nat)
    requires Inv(m) && c in m.ipis && g !in m.frames && f in m.frames
    ensures var r := Next(m, Deliver(g, c));
            Later(m, r, f) && f != g && g in r.frames && r.frames[g] == Frame(c, Handler, Begin)
  {
    StepInv(m, Deliver(g, c));
    hide NoneLost, FrameOk, TimesOk, AcksOk, Within;
  }

  /** A notified CPU can be made to acknowledge. */
  lemma AnswerOne(m: Machine, f: nat, c: nat, e: nat) returns (steps: seq<Step>)
    requires Inv(m) && f in m.frames && !m.frames[f].job.Handler? && e <= m.epoch && Notified(m, c, e)
    ensures Schedule(steps)
    ensures var r := RunFrom(m, steps); Later(m, r, f) && c < |r.acks| && r.acks[c] >= e
  {
    hide Inv, RunFrom, Next, Later;
    if c in m.ipis {
      var g := Above(m.frames.Keys);
      FromOne(m, Deliver(g, c));
      DeliverStep(m, g, c, f);
      var r := Next(m, Deliver(g, c));
      LaterParts(m, r, f);
      var rest := Acknowledge(r, g, f, e);
      LaterTransitive(m, r, RunFrom(r, rest), f);
      steps := [Deliver(g, c)] + rest;
      FromConcat(m, [Deliver(g, c)], rest);
    } else {
      var g :| Answering(m, g, c, e);
      steps := Acknowledge(m, g, f, e);
    }
  }

  lemma LaggingNotified(m: Machine, f: nat, c: nat)
    requires Inv(m) && f in m.frames && m.frames[f].job.Polling?
    requires c in Lagging(m.frames[f].job.targets, m.frames[f].job.epoch, m.acks)
    ensures Notified(m, c, m.frames[f].job.epoch) && m.frames[f].job.epoch <= m.epoch
  {
    hide Notified, TimesOk, AcksOk, HasBit;
    assert FrameOk(m, m.frames[f]);
    assert Owed(m, m.frames[f], c);
  }

  lemma LaggingShrinks(m: Machine, r: Machine, f: nat, c: nat, targets: nat, e: nat)
    requires Later(m, r, f) && c in Lagging(targets, e, m.acks) && c < |r.acks| && r.acks[c] >= e
    ensures |Lagging(targets, e, r.acks)| < |Lagging(targets, e, m.acks)|
  {
    hide Inv, HasBit;
    SubsetSize(Lagging(targets, e, r.acks), Lagging(targets, e, m.acks));
  }

  /** Every target a poller waits for can be made to acknowledge, while the poller stands still. */
  lemma {:induction false} AnswerAll(m: Machine, f: nat) returns (steps: seq<Step>)
    requires Inv(m) && f in m.frames && m.frames[f].job.Polling?
    ensures Schedule(steps)
    ensures var r := RunFrom(m, steps);
            Later(m, r, f) && Lagging(m.frames[f].job.targets, m.frames[f].job.epoch, r.acks) == {}
    decreases |Lagging(m.frames[f].job.targets, m.frames[f].job.epoch, m.acks)|
  {
    hide Inv, RunFrom, Next, Later, Lagging;
    var targets, e := m.frames[f].job.targets, m.frames[f].job.epoch;
    if Lagging(targets, e, m.acks) == {} {
      steps := [];
      FromNone(m);
      LaterSelf(m, f);
    } else {
      var c :| c in Lagging(targets, e, m.acks);
      LaggingNotified(m, f, c);
      var first := AnswerOne(m, f, c, e);
      var r := RunFrom(m, first);
      LaterParts(m, r, f);
      LaggingShrinks(m, r, f, c, targets, e);
      var rest := AnswerAll(r, f);
      LaterTransitive(m, r, RunFrom(r, rest), f);
      steps := first + rest;
      FromConcat(m, first, rest);
    }
  }

  // --------------------------------------------------------------------------- the waiter

  lemma PollStep(m: Machine, f: nat)
    requires Inv(m) && f in m.frames && m.frames[f].job.Polling?
    requires Lagging(m.frames[f].job.targets, m.frames[f].job.epoch, m.acks) == {}
    ensures var r, job := Next(m, Advance(f)), m.frames[f].job;
            && Inv(r) && f in r.frames && r.acks == m.acks
            && (if job.remaining == 0 then r.frames[f].job == Returned(job.targets, job.epoch)
                else && r.frames[f].job.Polling? && r.frames[f].job.targets == job.targets
                     && r.frames[f].job.epoch == job.epoch && r.frames[f].job.remaining < job.remaining)
  {
    StepInv(m, Advance(f));
    var job := m.frames[f].job;
    assert FrameOk(m, m.frames[f]);
    hide NoneLost, TimesOk, AcksOk, HasBit;
    if job.remaining > 0 {
      AndNotSelf(job.remaining);
      AndSmaller(job.remaining, job.remaining - 1);
      var c := TrailingZeros(job.remaining);
      assert HasBit(job.targets, c);
      assert c !in Lagging(job.targets, job.epoch, m.acks);
    }
  }

  lemma {:induction false} PollOut(m: Machine, f: nat) returns (steps: seq<Step>)
    requires Inv(m) && f in m.frames && m.frames[f].job.Polling?
    requires Lagging(m.frames[f].job.targets, m.frames[f].job.epoch, m.acks) == {}
    ensures Schedule(steps) && f in RunFrom(m, steps).frames && RunFrom(m, steps).frames[f].job.Returned?
    decreases m.frames[f].job.remaining
  {
    hide Inv, RunFrom, Next, Lagging;
    FromOne(m, Advance(f));
    PollStep(m, f);
    if m.frames[f].job.remaining == 0 {
      steps := [Advance(f)];
    } else {
      var rest := PollOut(Next(m, Advance(f)), f);
      steps := [Advance(f)] + rest;
      FromConcat(m, [Advance(f)], rest);
    }
  }

  predicate Shootdown(job: Job) {
    !job.Handler? && !job.Finished?
  }

  function JobRank(job: Job): nat {
    match job
    case Requested(_) => 6
    case Allocate(_) => 5
    case Own(_, _) => 4
    case Sending(_, _, _) => 3
    case Retry(_, _) => 2
    case Polling(_, _, _) => 1
    case _ => 0
  }

  function Unsent(job: Job): nat {
    if job.Sending? then job.remaining else 0
  }

  /** The frame's next access led on: to a later stage, further through its sending, or through its own flush. */
  ghost predicate LedOn(x: Frame, y: Frame) {
    || JobRank(y.job) < JobRank(x.job)
    || (JobRank(y.job) == JobRank(x.job) && Unsent(y.job) < Unsent(x.job))
    || (y.job == x.job && AckRank(y.ack) < AckRank(x.ack))
  }

  lemma OwnAccess(m: Machine, f: nat)
    requires Shaped(m) && f in m.frames && Shootdown(m.frames[f].job)
    requires Acknowledging(m.frames[f].job) <==> !m.frames[f].ack.Idle?
    requires !m.frames[f].job.Returned? && !m.frames[f].job.Polling?
    ensures var r := Next(m, Advance(f));
            f in r.frames && Shootdown(r.frames[f].job) && LedOn(m.frames[f], r.frames[f])
  {
    hide HasBit, TargetsOf;
    var x := m.frames[f];
    if x.job.Sending? && x.job.remaining > 0 {
      AndSmaller(x.job.remaining, x.job.remaining - 1);
    }
  }

  lemma OwnStep(m: Machine, f: nat)
    requires Inv(m) && f in m.frames && Shootdown(m.frames[f].job)
    requires !m.frames[f].job.Returned? && !m.frames[f].job.Polling?
    ensures var r := Next(m, Advance(f));
            Inv(r) && f in r.frames && Shootdown(r.frames[f].job) && LedOn(m.frames[f], r.frames[f])
  {
    StepInv(m, Advance(f));
    assert FrameOk(m, m.frames[f]);
    hide Next, NoneLost, TimesOk, AcksOk, AckOk, JobOk, LedOn;
    OwnAccess(m, f);
  }

  lemma {:induction false} ToReturned(m: Machine, f: nat) returns (steps: seq<Step>)
    requires Inv(m) && f in m.frames && Shootdown(m.frames[f].job)
    ensures Schedule(steps) && f in RunFrom(m, steps).frames && RunFrom(m, steps).frames[f].job.Returned?
    decreases JobRank(m.frames[f].job), Unsent(m.frames[f].job), AckRank(m.frames[f].ack)
  {
    hide Inv, RunFrom, Next, Lagging;
    if m.frames[f].job.Returned? {
      steps := [];
      FromNone(m);
    } else if m.frames[f].job.Polling? {
      var first := AnswerAll(m, f);
      LaterParts(m, RunFrom(m, first), f);
      var rest := PollOut(RunFrom(m, first), f);
      steps := first + rest;
      FromConcat(m, first, rest);
    } else {
      FromOne(m, Advance(f));
      OwnStep(m, f);
      var rest := ToReturned(Next(m, Advance(f)), f);
      steps := [Advance(f)] + rest;
      FromConcat(m, [Advance(f)], rest);
    }
  }

  /**
   From every reachable state, some schedule of deliveries and accesses alone brings a given shootdown to its return:
   nobody is ever left waiting for something that cannot happen.
   */
  lemma CanReturn(steps: seq<Step>, f: nat) returns (more: seq<Step>)
    requires f in Run(steps).frames && Shootdown(Run(steps).frames[f].job)
    ensures Schedule(more) && f in Run(steps + more).frames && Run(steps + more).frames[f].job.Returned?
  {
    hide Run, RunFrom, Inv;
    more := ToReturned(Run(steps), f);
    FromStart(steps, more);
  }
}
