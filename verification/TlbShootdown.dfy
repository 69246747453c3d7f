/**
 The TLB shootdown protocol (kernel/src/arch/x86_64.rs) as a step machine. Each atomic access and
 each flush is one step, sequentially consistent, with epochs as naturals. Activations, called frames
 here, interleave freely: an interrupt handler nested in a thread's acknowledgement is one
 interleaving among many.

 `clock` counts steps. A cached translation carries the time it was filled, and `born[e - 1]` is the
 time epoch `e` was allocated.
 */
module TlbShootdown {
  import opened Common
  import opened CpuMask

  /** Progress of `acknowledge_latest_tlb_epoch`; `Idle` is outside it. */
  datatype Ack = Idle | Begin | Loaded(epoch: nat) | Flushed(epoch: nat)

  /** The handler, or a stage of `shootdown_tlb`; `Own` and `Retry` are its two acknowledgements. */
  datatype Job =
    | Handler
    | Requested(mask: nat)
    | Allocate(targets: nat)
    | Own(targets: nat, epoch: nat)
    | Sending(targets: nat, epoch: nat, remaining: nat)
    | Polling(targets: nat, epoch: nat, remaining: nat)
    | Retry(targets: nat, epoch: nat)
    | Returned(targets: nat, epoch: nat)
    | Finished

  datatype Frame = Frame(cpu: nat, job: Job, ack: Ack)

  datatype Translation = Translation(page: nat, filled: nat)

  datatype Machine = Machine(
    clock: nat, epoch: nat, born: seq<nat>, acks: seq<nat>, tlb: seq<set<Translation>>,
    contexts: set<nat>, online: nat, ipis: set<nat>, frames: map<nat, Frame>)

  function Start(): Machine {
    Machine(0, 0, [], seq(MAX_TRACKED_CPUS, _ => 0), seq(MAX_TRACKED_CPUS, _ => {}), {}, 0, {}, map[])
  }

  datatype Step =
    | Fill(cpu: nat, page: nat)
    | CreateContext(cpu: nat)
    | MarkOnline(cpu: nat)
    | Call(frame: nat, cpu: nat, mask: nat)
    | Deliver(frame: nat, cpu: nat)
    | Advance(frame: nat)

  ghost predicate Shaped(m: Machine) {
    && |m.acks| == MAX_TRACKED_CPUS && |m.tlb| == MAX_TRACKED_CPUS && |m.born| == m.epoch
    && (forall c :: c in m.contexts ==> c < MAX_TRACKED_CPUS)
    && (forall f :: f in m.frames ==> m.frames[f].cpu in m.contexts)
  }

  /** The mask a call acts on: its request, restricted to online CPUs other than the caller's. */
  function TargetsOf(mask: nat, online: nat, cpu: nat): nat {
    AndNot(And(mask, online), Bit(cpu))
  }

  /** Where a frame goes when its acknowledgement is complete. */
  function AfterAck(job: Job): Job {
    match job
    case Own(t, e) => if t == 0 then Returned(t, e) else Sending(t, e, t)
    case Retry(t, e) => Polling(t, e, t)
    case _ => Finished
  }

  function Put(m: Machine, f: nat, x: Frame): Machine {
    m.(frames := m.frames[f := x])
  }

  /** A frame's next access inside `acknowledge_latest_tlb_epoch`: load, flush, `fetch_max`. */
  function MoveAck(m: Machine, f: nat): Machine
    requires Shaped(m) && f in m.frames && !m.frames[f].ack.Idle?
  {
    var x := m.frames[f];
    match x.ack
    case Begin => Put(m, f, x.(ack := Loaded(m.epoch)))
    case Loaded(e) => Put(m, f, x.(ack := Flushed(e))).(tlb := m.tlb[x.cpu := {}])
    case Flushed(e) =>
      Put(m, f, x.(ack := Idle, job := AfterAck(x.job))).(acks := m.acks[x.cpu := Max(m.acks[x.cpu], e)])
  }

  /** A frame's next access outside it. */
  function MoveJob(m: Machine, f: nat): Machine
    requires Shaped(m) && f in m.frames && m.frames[f].ack.Idle?
  {
    var x := m.frames[f];
    match x.job
    case Requested(mask) => Put(m, f, x.(job := Allocate(TargetsOf(mask, m.online, x.cpu))))
    case Allocate(t) =>
      Put(m, f, x.(job := Own(t, m.epoch + 1), ack := Begin)).(epoch := m.epoch + 1, born := m.born + [m.clock])
    case Sending(t, e, r) =>
      if r == 0 then Put(m, f, x.(job := Polling(t, e, t)))
      else Put(m, f, x.(job := Sending(t, e, And(r, r - 1)))).(ipis := m.ipis + {TrailingZeros(r)})
    case Polling(t, e, r) =>
      if r == 0 then Put(m, f, x.(job := Returned(t, e)))
      else if TrailingZeros(r) < |m.acks| && m.acks[TrailingZeros(r)] < e
      then Put(m, f, x.(job := Retry(t, e), ack := Begin))
      else Put(m, f, x.(job := Polling(t, e, And(r, r - 1))))
    case _ => m
  }

  /** One step; a step that is not enabled only lets time pass. */
  function Next(m: Machine, step: Step): Machine
    requires Shaped(m)
  {
    var m' := match step
      case Fill(c, p) => if c < |m.tlb| then m.(tlb := m.tlb[c := m.tlb[c] + {Translation(p, m.clock)}]) else m
      case CreateContext(c) => if c < MAX_TRACKED_CPUS then m.(contexts := m.contexts + {c}) else m
      case MarkOnline(c) => if c in m.contexts then m.(online := Or(m.online, Bit(c))) else m
      case Call(f, c, mask) =>
        if f in m.frames || c >= |m.tlb| then m
        else if c in m.contexts then Put(m, f, Frame(c, Requested(mask), Idle))
        else m.(tlb := m.tlb[c := {}])
      case Deliver(f, c) =>
        if f in m.frames || c !in m.ipis then m
        else if c in m.contexts then Put(m, f, Frame(c, Handler, Begin)).(ipis := m.ipis - {c})
        else m.(ipis := m.ipis - {c})
      case Advance(f) =>
        if f !in m.frames then m else if m.frames[f].ack.Idle? then MoveJob(m, f) else MoveAck(m, f);
    m'.(clock := m.clock + 1)
  }

  // ------------------------------------------------------------------------- invariant

  /** Nothing cached on the CPU was filled before epoch `e` was allocated. */
  ghost predicate Fresh(m: Machine, c: nat, e: nat)
    requires c < |m.tlb| && e <= |m.born|
  {
    e > 0 ==> forall t :: t in m.tlb[c] ==> t.filled > m.born[e - 1]
  }

  ghost predicate TimesOk(m: Machine) {
    && (forall i :: 0 <= i < |m.born| ==> m.born[i] < m.clock)
    && (forall i, j :: 0 <= i < j < |m.born| ==> m.born[i] < m.born[j])
  }

  /** The heart of the protocol: an acknowledged epoch was followed by a flush. */
  ghost predicate AcksOk(m: Machine)
    requires Shaped(m)
  {
    forall c :: 0 <= c < MAX_TRACKED_CPUS ==> m.acks[c] <= m.epoch && Fresh(m, c, m.acks[c])
  }

  ghost predicate AckOk(m: Machine, x: Frame)
    requires Shaped(m) && x.cpu in m.contexts
  {
    match x.ack
    case Loaded(e) => e <= m.epoch && (x.job.Own? ==> x.job.epoch <= e)
    case Flushed(e) => e <= m.epoch && Fresh(m, x.cpu, e) && (x.job.Own? ==> x.job.epoch <= e)
    case _ => true
  }

  predicate Acknowledging(job: Job) {
    job.Handler? || job.Own? || job.Retry?
  }

  ghost predicate Within(mask: nat, cpus: set<nat>) {
    forall c: nat :: HasBit(mask, c) ==> c in cpus
  }

  ghost predicate Subset(a: nat, b: nat) {
    forall c: nat :: HasBit(a, c) ==> HasBit(b, c)
  }

  /** Every target outside `remaining` has acknowledged the epoch. */
  ghost predicate Answered(m: Machine, targets: nat, remaining: nat, e: nat) {
    forall c: nat :: HasBit(targets, c) && !HasBit(remaining, c) && c < |m.acks| ==> m.acks[c] >= e
  }

  ghost predicate JobOk(m: Machine, x: Frame)
    requires Shaped(m) && x.cpu in m.contexts
  {
    match x.job
    case Allocate(t) => Within(t, m.contexts)
    case Own(t, e) => Within(t, m.contexts) && 0 < e <= m.epoch
    case Sending(t, e, r) => Within(t, m.contexts) && Subset(r, t) && 0 < e <= m.epoch && m.acks[x.cpu] >= e
    case Polling(t, e, r) =>
      Within(t, m.contexts) && Subset(r, t) && 0 < e <= m.epoch && m.acks[x.cpu] >= e && Answered(m, t, r, e)
    case Retry(t, e) => Within(t, m.contexts) && 0 < e <= m.epoch && m.acks[x.cpu] >= e
    case Returned(t, e) => Within(t, m.contexts) && 0 < e <= m.epoch && m.acks[x.cpu] >= e && Answered(m, t, 0, e)
    case _ => true
  }

  ghost predicate FrameOk(m: Machine, x: Frame)
    requires Shaped(m) && x.cpu in m.contexts
  {
    AckOk(m, x) && JobOk(m, x) && (Acknowledging(x.job) <==> !x.ack.Idle?)
  }

  ghost predicate Core(m: Machine) {
    && Shaped(m) && TimesOk(m) && AcksOk(m)
    && Within(m.online, m.contexts) && m.ipis <= m.contexts
    && forall f :: f in m.frames ==> FrameOk(m, m.frames[f])
  }

  lemma StartCore()
    ensures Core(Start())
  {
    NoBits();
  }

  // --------------------------------------------------------- what every step only increases

  /** Epochs, acknowledgements, contexts and freshness only grow. */
  ghost predicate Grows(m: Machine, m': Machine) {
    && Shaped(m) && Shaped(m')
    && m.epoch <= m'.epoch && m.born <= m'.born && m.contexts <= m'.contexts
    && (forall c :: 0 <= c < MAX_TRACKED_CPUS ==> m.acks[c] <= m'.acks[c])
    && (forall c, e :: 0 <= c < MAX_TRACKED_CPUS && 0 <= e <= m.epoch && Fresh(m, c, e) ==> Fresh(m', c, e))
  }

  /** What a frame knows survives other frames' steps. */
  lemma FrameKept(m: Machine, m': Machine, x: Frame)
    requires Grows(m, m') && x.cpu in m.contexts && FrameOk(m, x)
    ensures FrameOk(m', x)
  {
  }

  lemma StepShaped(m: Machine, step: Step)
    requires Core(m)
    ensures Shaped(Next(m, step))
  {
    hide TimesOk, AcksOk, FrameOk, Within, TargetsOf;
  }

  lemma StepGrows(m: Machine, step: Step)
    requires Core(m)
    ensures Grows(m, Next(m, step))
  {
    StepShaped(m, step);
    hide AcksOk, FrameOk, Within, TargetsOf;
    var m' := Next(m, step);
    forall c, e | 0 <= c < MAX_TRACKED_CPUS && 0 <= e <= m.epoch && Fresh(m, c, e)
      ensures Fresh(m', c, e)
    {
    }
  }

  lemma FreshEarlier(m: Machine, c: nat, e: nat, later: nat)
    requires Shaped(m) && TimesOk(m) && c < MAX_TRACKED_CPUS && e <= later <= m.epoch && Fresh(m, c, later)
    ensures Fresh(m, c, e)
  {
  }

  // ------------------------------------------------------------------------ preservation

  lemma TargetsWithin(mask: nat, online: nat, cpu: nat, cpus: set<nat>)
    requires Within(online, cpus)
    ensures Within(TargetsOf(mask, online, cpu), cpus)
  {
    forall c: nat | HasBit(TargetsOf(mask, online, cpu), c)
      ensures c in cpus
    {
      TargetBits(mask, online, cpu, c);
    }
  }

  /** The masked target set is the request, online, without the caller. */
  lemma TargetBits(mask: nat, online: nat, cpu: nat, c: nat)
    ensures HasBit(TargetsOf(mask, online, cpu), c) <==> HasBit(mask, c) && HasBit(online, c) && c != cpu
  {
    AndNotBits(And(mask, online), Bit(cpu), c);
    AndBits(mask, online, c);
    BitBits(cpu, c);
  }

  lemma OnlineWithin(online: nat, cpu: nat, cpus: set<nat>)
    requires Within(online, cpus) && cpu in cpus
    ensures Within(Or(online, Bit(cpu)), cpus)
  {
    forall c: nat | HasBit(Or(online, Bit(cpu)), c)
      ensures c in cpus
    {
      OrBits(online, Bit(cpu), c);
      BitBits(cpu, c);
    }
  }

  lemma AckStepFrame(m: Machine, f: nat)
    requires Core(m) && f in m.frames && !m.frames[f].ack.Idle?
    requires Grows(m, Next(m, Advance(f)))
    ensures FrameOk(Next(m, Advance(f)), Next(m, Advance(f)).frames[f])
  {
    hide Within, TimesOk, AcksOk;
    var x, m' := m.frames[f], Next(m, Advance(f));
    assert FrameOk(m, x);
    if x.ack.Flushed? && x.job.Own? && x.job.targets == 0 {
      NoBits();
    }
  }

  lemma JobStepFrame(m: Machine, f: nat)
    requires Core(m) && f in m.frames && m.frames[f].ack.Idle?
    requires Grows(m, Next(m, Advance(f)))
    ensures FrameOk(Next(m, Advance(f)), Next(m, Advance(f)).frames[f])
  {
    hide TimesOk, AcksOk, TargetsOf, Within;
    var x, m' := m.frames[f], Next(m, Advance(f));
    assert FrameOk(m, x);
    if x.job.Requested? {
      TargetsWithin(x.job.mask, m.online, x.cpu, m.contexts);
    } else if (x.job.Sending? || x.job.Polling?) && x.job.remaining > 0 {
      AndNotSelf(x.job.remaining);
    }
  }

  lemma StepFrames(m: Machine, step: Step)
    requires Core(m) && Grows(m, Next(m, step))
    ensures forall f :: f in Next(m, step).frames ==> FrameOk(Next(m, step), Next(m, step).frames[f])
  {
    hide TimesOk, AcksOk, FrameOk, Within, TargetsOf, Grows;
    var m' := Next(m, step);
    forall f | f in m'.frames
      ensures FrameOk(m', m'.frames[f])
    {
      assert m'.frames[f].cpu in m'.contexts by { hide *; GrowsShaped(m, m', f); }
      if f in m.frames && m.frames[f] == m'.frames[f] {
        FrameKept(m, m', m.frames[f]);
      } else if f in m.frames {
        if m.frames[f].ack.Idle? {
          JobStepFrame(m, f);
        } else {
          AckStepFrame(m, f);
        }
      } else {
        NewFrameOk(m', m'.frames[f]);
      }
    }
  }

  lemma GrowsShaped(m: Machine, m': Machine, f: nat)
    requires Grows(m, m') && f in m'.frames
    ensures m'.frames[f].cpu in m'.contexts
  {
  }

  lemma NewFrameOk(m: Machine, x: Frame)
    requires Shaped(m) && x.cpu in m.contexts
    requires (x.job.Requested? && x.ack == Idle) || (x.job.Handler? && x.ack == Begin)
    ensures FrameOk(m, x)
  {
  }

  lemma StepAcks(m: Machine, step: Step)
    requires Core(m) && Grows(m, Next(m, step))
    ensures TimesOk(Next(m, step)) && AcksOk(Next(m, step))
  {
    hide JobOk, Within, TargetsOf;
    var m' := Next(m, step);
    forall c | 0 <= c < MAX_TRACKED_CPUS
      ensures m'.acks[c] <= m'.epoch && Fresh(m', c, m'.acks[c])
    {
      assert Fresh(m', c, m.acks[c]);
      if m'.acks[c] != m.acks[c] {
        assert step.Advance? && FrameOk(m, m.frames[step.frame]);
        assert m'.acks[c] == m.frames[step.frame].ack.epoch && c == m.frames[step.frame].cpu;
      }
    }
  }

  lemma StepWiring(m: Machine, step: Step)
    requires Core(m) && Grows(m, Next(m, step))
    ensures Within(Next(m, step).online, Next(m, step).contexts) && Next(m, step).ipis <= Next(m, step).contexts
  {
    hide TimesOk, AcksOk, AckOk, TargetsOf;
    if step.MarkOnline? && step.cpu in m.contexts {
      OnlineWithin(m.online, step.cpu, m.contexts);
    }
    if step.Advance? && step.frame in m.frames && m.frames[step.frame].job.Sending?
       && m.frames[step.frame].job.remaining > 0 {
      assert FrameOk(m, m.frames[step.frame]);
      AndNotSelf(m.frames[step.frame].job.remaining);
    }
  }

  lemma StepCore(m: Machine, step: Step)
    requires Core(m)
    ensures Core(Next(m, step)) && Grows(m, Next(m, step))
  {
    hide TimesOk, AcksOk, FrameOk, Within, Next, Shaped;
    StepGrows(m, step);
    StepFrames(m, step);
    StepAcks(m, step);
    StepWiring(m, step);
    assert Shaped(Next(m, step));
  }

  // ---------------------------------------------------------------- nobody waits for nothing

  predicate Waiting(job: Job) {
    job.Sending? || job.Polling? || job.Retry?
  }

  /** An acknowledgement that will cover epoch `e` when it completes. */
  predicate Covers(ack: Ack, e: nat) {
    match ack
    case Idle => false
    case Begin => true
    case Loaded(x) => x >= e
    case Flushed(x) => x >= e
  }

  ghost predicate Answering(m: Machine, g: nat, c: nat, e: nat) {
    g in m.frames && m.frames[g].cpu == c && m.frames[g].job.Handler? && Covers(m.frames[g].ack, e)
  }

  /** The CPU has an interrupt pending, or runs a handler that will acknowledge the epoch. */
  ghost predicate Notified(m: Machine, c: nat, e: nat) {
    c in m.ipis || exists g :: Answering(m, g, c, e)
  }

  /** The frame has sent its interrupt to the CPU and the CPU has not acknowledged its epoch. */
  ghost predicate Owed(m: Machine, x: Frame, c: nat)
    requires Shaped(m)
  {
    && Waiting(x.job) && c < MAX_TRACKED_CPUS && HasBit(x.job.targets, c) && m.acks[c] < x.job.epoch
    && (x.job.Sending? ==> !HasBit(x.job.remaining, c))
  }

  ghost predicate NoneLost(m: Machine)
    requires Shaped(m)
  {
    forall f, c: nat :: f in m.frames && Owed(m, m.frames[f], c) ==> Notified(m, c, m.frames[f].job.epoch)
  }

  lemma NotifiedKept(m: Machine, step: Step, c: nat, e: nat)
    requires Core(m) && Grows(m, Next(m, step)) && e <= m.epoch && c in m.contexts && Notified(m, c, e)
    ensures Notified(Next(m, step), c, e) || Next(m, step).acks[c] >= e
  {
    hide TimesOk, AcksOk, JobOk, Within, TargetsOf, Grows;
    var m' := Next(m, step);
    if c in m.ipis {
      if c !in m'.ipis {
        assert Answering(m', step.frame, c, e);
      }
    } else {
      var g :| Answering(m, g, c, e);
      if step == Advance(g) && m.frames[g].ack.Flushed? {
        assert m'.acks[c] >= e;
      } else {
        assert Answering(m', g, c, e);
      }
    }
  }

  /** Who is owed an answer is a tracked CPU, and the epoch it owes exists. */
  lemma OwedTracked(m: Machine, x: Frame, c: nat)
    requires Shaped(m) && x.cpu in m.contexts && FrameOk(m, x) && Owed(m, x, c)
    ensures c in m.contexts && x.job.epoch <= m.epoch
  {
    hide AckOk;
  }

  lemma DebtNotified(m: Machine, step: Step, f: nat, c: nat)
    requires Core(m) && NoneLost(m) && Grows(m, Next(m, step)) && f in Next(m, step).frames
    requires Owed(Next(m, step), Next(m, step).frames[f], c)
    ensures Notified(Next(m, step), c, Next(m, step).frames[f].job.epoch)
  {
    hide Next, Grows, FrameOk, TimesOk, AcksOk, Notified, HasBit;
    OwedBefore(m, step, f, c);
    if f in m.frames && Owed(m, m.frames[f], c) && m.frames[f].job.epoch == Next(m, step).frames[f].job.epoch {
      OwedTracked(m, m.frames[f], c);
      NotifiedKept(m, step, c, m.frames[f].job.epoch);
    } else {
      InterruptSent(Next(m, step), c, Next(m, step).frames[f].job.epoch);
    }
  }

  lemma StepNoneLost(m: Machine, step: Step)
    requires Core(m) && NoneLost(m) && Grows(m, Next(m, step))
    ensures NoneLost(Next(m, step))
  {
    hide Next, Core, Notified, HasBit;
    forall f, c: nat | f in Next(m, step).frames && Owed(Next(m, step), Next(m, step).frames[f], c)
      ensures Notified(Next(m, step), c, Next(m, step).frames[f].job.epoch)
    {
      DebtNotified(m, step, f, c);
    }
  }

  lemma InterruptSent(m: Machine, c: nat, e: nat)
    requires c in m.ipis
    ensures Notified(m, c, e)
  {
  }

  /** A debt is old, or its interrupt was sent in this very step. */
  lemma OwedBefore(m: Machine, step: Step, f: nat, c: nat)
    requires Core(m) && Grows(m, Next(m, step)) && f in Next(m, step).frames
             && Owed(Next(m, step), Next(m, step).frames[f], c)
    ensures var x := Next(m, step).frames[f];
            || (f in m.frames && Owed(m, m.frames[f], c) && m.frames[f].job.epoch == x.job.epoch
                && m.frames[f].job.targets == x.job.targets)
            || c in Next(m, step).ipis
  {
    if step == Advance(f) && f in m.frames {
      OwnDebt(m, f, c);
    } else {
      hide Core, FrameOk, TargetsOf, HasBit;
      assert f in m.frames && m.frames[f] == Next(m, step).frames[f];
    }
  }

  lemma OwnDebt(m: Machine, f: nat, c: nat)
    requires Core(m) && Grows(m, Next(m, Advance(f))) && f in m.frames
    requires Owed(Next(m, Advance(f)), Next(m, Advance(f)).frames[f], c)
    ensures var x := Next(m, Advance(f)).frames[f];
            || (Owed(m, m.frames[f], c) && m.frames[f].job.epoch == x.job.epoch
                && m.frames[f].job.targets == x.job.targets)
            || c in Next(m, Advance(f)).ipis
  {
    assert FrameOk(m, m.frames[f]);
    hide Core, TimesOk, AcksOk, AckOk, TargetsOf, Within, HasBit;
    NoBits();
    if m.frames[f].job.Sending? && m.frames[f].job.remaining > 0 {
      AndNotSelf(m.frames[f].job.remaining);
    }
  }

  // --------------------------------------------------------------------------- all runs

  ghost predicate Inv(m: Machine) {
    Core(m) && NoneLost(m)
  }

  lemma StartInv()
    ensures Inv(Start())
  {
    StartCore();
  }

  lemma StepInv(m: Machine, step: Step)
    requires Inv(m)
    ensures Inv(Next(m, step)) && Grows(m, Next(m, step))
  {
    hide Core, NoneLost, Next;
    StepCore(m, step);
    StepNoneLost(m, step);
  }

  ghost function Run(steps: seq<Step>): (m: Machine)
    ensures Inv(m)
  {
    if steps == [] then StartInv(); Start()
    else
      var prev := Run(steps[..|steps| - 1]);
      StepInv(prev, steps[|steps| - 1]);
      Next(prev, steps[|steps| - 1])
  }

  /**
   When a shootdown returns, on each masked target and on the caller's own CPU nothing is cached that
   was filled before its epoch was allocated, in every interleaving.
   */
  lemma ReturnMeansFlushed(steps: seq<Step>, f: nat, c: nat)
    requires f in Run(steps).frames && Run(steps).frames[f].job.Returned?
    requires HasBit(Run(steps).frames[f].job.targets, c) || c == Run(steps).frames[f].cpu
    ensures var m := Run(steps);
            var e := m.frames[f].job.epoch;
            && c < |m.tlb| && 0 < e <= |m.born|
            && forall t :: t in m.tlb[c] ==> t.filled > m.born[e - 1]
  {
    hide Run, NoneLost;
    var m := Run(steps);
    var x := m.frames[f];
    assert FrameOk(m, x);
    NoBits();
    assert m.acks[c] >= x.job.epoch;
    FreshEarlier(m, c, x.job.epoch, m.acks[c]);
  }

  /** Acknowledgements never go back, and an acknowledged epoch always stands for a later flush. */
  lemma AcksMonotone(steps: seq<Step>, step: Step, c: nat, e: nat)
    requires c < MAX_TRACKED_CPUS
    ensures var m := Run(steps);
            && Shaped(m) && m.acks[c] <= Next(m, step).acks[c] <= Next(m, step).epoch
            && (0 < e <= m.acks[c] ==> forall t :: t in m.tlb[c] ==> t.filled > m.born[e - 1])
  {
    hide Run, NoneLost;
    var m := Run(steps);
    StepInv(m, step);
    if 0 < e <= m.acks[c] {
      FreshEarlier(m, c, e, m.acks[c]);
    }
  }

  /** A waiter's lagging targets never increase. */
  lemma LaggingNeverRises(steps: seq<Step>, step: Step, targets: nat, epoch: nat)
    ensures var m := Run(steps);
            && Shaped(m)
            && Lagging(targets, epoch, Next(m, step).acks) <= Lagging(targets, epoch, m.acks)
            && |Lagging(targets, epoch, Next(m, step).acks)| <= |Lagging(targets, epoch, m.acks)|
  {
    hide Run, NoneLost, Core, Next;
    var m := Run(steps);
    StepInv(m, step);
    SubsetSize(Lagging(targets, epoch, Next(m, step).acks), Lagging(targets, epoch, m.acks));
  }

  lemma {:induction false} SubsetSize(a: set<nat>, b: set<nat>)
    requires a <= b
    ensures |a| <= |b|
    ensures a != b ==> |a| < |b|
  {
    assert b == a + (b - a);
    assert a != b ==> |b - a| > 0;
  }

  lemma FlushedFalls(m: Machine, g: nat, targets: nat, epoch: nat)
    requires Inv(m) && g in m.frames && m.frames[g].ack.Flushed? && m.frames[g].ack.epoch >= epoch
    requires m.frames[g].cpu in Lagging(targets, epoch, m.acks)
    ensures m.frames[g].cpu !in Lagging(targets, epoch, Next(m, Advance(g)).acks)
    ensures |Lagging(targets, epoch, Next(m, Advance(g)).acks)| < |Lagging(targets, epoch, m.acks)|
  {
    hide NoneLost, FrameOk, AcksOk, TimesOk, HasBit;
    StepInv(m, Advance(g));
    SubsetSize(Lagging(targets, epoch, Next(m, Advance(g)).acks), Lagging(targets, epoch, m.acks));
  }

  lemma CoversStep(m: Machine, step: Step, g: nat, e: nat)
    requires Inv(m) && g in m.frames && e <= m.epoch && Covers(m.frames[g].ack, e)
    ensures g in Next(m, step).frames && Next(m, step).frames[g].cpu == m.frames[g].cpu
    ensures Covers(Next(m, step).frames[g].ack, e) || Next(m, step).acks[m.frames[g].cpu] >= e
  {
    hide NoneLost, FrameOk, AcksOk, TimesOk, TargetsOf;
  }

  lemma FrameStays(m: Machine, step: Step, g: nat)
    requires Inv(m) && g in m.frames
    ensures g in Next(m, step).frames && Next(m, step).frames[g].cpu == m.frames[g].cpu < MAX_TRACKED_CPUS
  {
    hide NoneLost, FrameOk, AcksOk, TimesOk, TargetsOf;
  }

  /** The frame's CPU has acknowledged the epoch, or the frame's acknowledgement will. */
  ghost predicate Settles(m: Machine, g: nat, cpu: nat, e: nat) {
    && g in m.frames && m.frames[g].cpu == cpu && e <= m.epoch
    && (Covers(m.frames[g].ack, e) || (cpu < |m.acks| && m.acks[cpu] >= e))
  }

  lemma BeginSettles(m: Machine, g: nat, e: nat)
    requires g in m.frames && m.frames[g].ack.Begin? && e <= m.epoch
    ensures Settles(m, g, m.frames[g].cpu, e)
  {
  }

  lemma SettlesStep(m: Machine, step: Step, g: nat, cpu: nat, e: nat)
    requires Inv(m) && Settles(m, g, cpu, e)
    ensures Settles(Next(m, step), g, cpu, e)
  {
    hide Next, Core, NoneLost, Covers;
    StepInv(m, step);
    FrameStays(m, step, g);
    if Covers(m.frames[g].ack, e) {
      CoversStep(m, step, g, e);
    }
  }

  lemma RunNext(steps: seq<Step>, step: Step)
    ensures Shaped(Run(steps)) && Run(steps + [step]) == Next(Run(steps), step)
  {
    hide Next, Inv;
    assert (steps + [step])[..|steps|] == steps;
    assert Core(Run(steps)) by { hide Core, NoneLost, Run; InvCore(Run(steps)); }
  }

  lemma InvCore(m: Machine)
    requires Inv(m)
    ensures Core(m)
  {
  }

  /**
   An acknowledgement that has begun covers every epoch allocated before it: in every later state it still covers
   them, or its CPU has acknowledged them.
   */
  lemma {:induction false} BegunAfterCovers(steps: seq<Step>, more: seq<Step>, g: nat, e: nat)
    requires g in Run(steps).frames && Run(steps).frames[g].ack.Begin? && e <= Run(steps).epoch
    ensures Settles(Run(steps + more), g, Run(steps).frames[g].cpu, e)
  {
    hide Run, Inv, Settles, Next;
    if more == [] {
      assert steps + more == steps;
      BeginSettles(Run(steps), g, e);
    } else {
      var last := |more| - 1;
      BegunAfterCovers(steps, more[..last], g, e);
      assert steps + more == (steps + more[..last]) + [more[last]];
      RunNext(steps + more[..last], more[last]);
      SettlesStep(Run(steps + more[..last]), more[last], g, Run(steps).frames[g].cpu, e);
    }
  }

  /**
   The number strictly falls when a lagging target completes an acknowledgement: it had begun, at some moment of the
   run, when the epoch was already allocated.
   */
  lemma LaggingFalls(steps: seq<Step>, more: seq<Step>, g: nat, targets: nat, epoch: nat)
    requires g in Run(steps).frames && Run(steps).frames[g].ack.Begin? && epoch <= Run(steps).epoch
    requires var m := Run(steps + more);
             g in m.frames && m.frames[g].ack.Flushed? && m.frames[g].cpu in Lagging(targets, epoch, m.acks)
    ensures var m := Run(steps + more);
            && Shaped(m)
            && m.frames[g].cpu !in Lagging(targets, epoch, Next(m, Advance(g)).acks)
            && |Lagging(targets, epoch, Next(m, Advance(g)).acks)| < |Lagging(targets, epoch, m.acks)|
  {
    hide Run, Inv, Next;
    BegunAfterCovers(steps, more, g, epoch);
    InvCore(Run(steps + more));
    FlushedFalls(Run(steps + more), g, targets, epoch);
  }

  /** A frame is never blocked: whatever the others do, its own next access is possible and moves it on. */
  lemma NeverBlocked(steps: seq<Step>, f: nat)
    ensures Shaped(Run(steps))
    ensures var m := Run(steps);
            f in m.frames && !m.frames[f].job.Returned? && !m.frames[f].job.Finished? ==>
              f in Next(m, Advance(f)).frames && Next(m, Advance(f)).frames[f] != m.frames[f]
  {
    hide Run, NoneLost, AcksOk, TimesOk, TargetsOf;
    var m := Run(steps);
    if f in m.frames {
      var x := m.frames[f];
      assert FrameOk(m, x);
      if (x.job.Sending? || x.job.Polling?) && x.job.remaining > 0 {
        AndSmaller(x.job.remaining, x.job.remaining - 1);
      }
    }
  }

  /**
   No circular wait. A waiter that finds a lagging target begins an acknowledgement of its own, which covers
   every epoch that exists; and each target it still waits for has an interrupt pending or is already answering.
   */
  lemma NoCircularWait(steps: seq<Step>, f: nat)
    ensures Shaped(Run(steps))
    ensures var m := Run(steps);
            f in m.frames && m.frames[f].job.Polling? ==>
            var job := m.frames[f].job;
            && (forall c :: c in Lagging(job.targets, job.epoch, m.acks) ==> Notified(m, c, job.epoch))
            && (job.remaining > 0 && TrailingZeros(job.remaining) in Lagging(job.targets, job.epoch, m.acks) ==>
                  Next(m, Advance(f)).frames[f].job.Retry?
                  && forall e :: 0 <= e <= m.epoch ==> Covers(Next(m, Advance(f)).frames[f].ack, e))
            && (Next(m, Advance(f)).frames[f].job.Returned? ==> Lagging(job.targets, job.epoch, m.acks) == {})
  {
    hide Run, AcksOk, TimesOk, Notified;
    var m := Run(steps);
    if f in m.frames && m.frames[f].job.Polling? {
      var job := m.frames[f].job;
      assert FrameOk(m, m.frames[f]);
      NoBits();
      forall c | c in Lagging(job.targets, job.epoch, m.acks)
        ensures Notified(m, c, job.epoch)
      {
        assert Owed(m, m.frames[f], c);
      }
    }
  }
}
