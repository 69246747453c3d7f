/**
 The lock-free snapshot behind hook dispatch
 (kernel/crates/kernel_bpf/src/concurrency/epoch_snapshot.rs) as a step machine: one step per atomic
 access, any number of readers and serialized writers, sequentially consistent. Values are boxes;
 `boxes` is the set of boxes that are allocated and not yet freed.
 */
module EpochSnapshot {
  import opened Common

  /** A call of `read`, or the guard it returned. */
  datatype Reader =
    | Sampled(epoch: nat)
    | Pinned(epoch: nat)
    | Checked(epoch: nat)
    | Leaving(epoch: nat)
    | Holding(epoch: nat, value: nat)

  /** The call of `publish` that holds the writer flag. */
  datatype Writer =
    | Locked(next: nat)
    | Loaded(next: nat, epoch: nat)
    | Swapped(epoch: nat, previous: Option<nat>)
    | Flipped(epoch: nat, previous: Option<nat>)
    | Drained(epoch: nat, previous: Option<nat>)
    | Freed

  datatype Machine = Machine(
    current: Option<nat>, epoch: nat, even: nat, odd: nat, writer: Option<Writer>, readers: map<nat, Reader>,
    boxes: set<nat>)

  const START := Machine(None, 0, 0, 0, None, map[], {})

  datatype Step =
    | Sample(r: nat) | Pin(r: nat) | Check(r: nat) | Load(r: nat) | Unpin(r: nat) | DropGuard(r: nat)
    | Acquire(next: nat) | LoadEpoch | Swap | Flip | Observe | Free | Release

  function Put(m: Machine, r: nat, x: Reader): Machine {
    m.(readers := m.readers[r := x])
  }

  /** The reader counter of an epoch. */
  function CountOf(m: Machine, e: nat): nat {
    if e == 0 then m.even else m.odd
  }

  function SetCount(m: Machine, e: nat, count: nat): Machine {
    if e == 0 then m.(even := count) else m.(odd := count)
  }

  function Other(e: nat): nat {
    if e == 0 then 1 else 0
  }

  /** One step; a step that is not enabled changes nothing. */
  function Next(m: Machine, step: Step): Machine {
    match step
    case Sample(r) => if r in m.readers then m else Put(m, r, Sampled(m.epoch))
    case Pin(r) =>
      if !(r in m.readers && m.readers[r].Sampled?) then m
      else
        var e := m.readers[r].epoch;
        if CountOf(m, e) == USIZE_MAX then m.(readers := m.readers - {r})
        else SetCount(Put(m, r, Pinned(e)), e, CountOf(m, e) + 1)
    case Check(r) =>
      if !(r in m.readers && m.readers[r].Pinned?) then m
      else Put(m, r, if m.epoch == m.readers[r].epoch then Checked(m.epoch) else Leaving(m.readers[r].epoch))
    case Load(r) =>
      if !(r in m.readers && m.readers[r].Checked?) then m
      else Put(m, r, if m.current.None? then Leaving(m.readers[r].epoch)
                     else Holding(m.readers[r].epoch, m.current.value))
    case Unpin(r) =>
      if !(r in m.readers && m.readers[r].Leaving?) then m else Unpinned(m, r)
    case DropGuard(r) =>
      if !(r in m.readers && m.readers[r].Holding?) then m else Unpinned(m, r)
    case Acquire(n) =>
      if m.writer.Some? || n in m.boxes then m else m.(writer := Some(Locked(n)), boxes := m.boxes + {n})
    case LoadEpoch =>
      if !(m.writer.Some? && m.writer.value.Locked?) then m
      else m.(writer := Some(Loaded(m.writer.value.next, m.epoch)))
    case Swap =>
      if !(m.writer.Some? && m.writer.value.Loaded?) then m
      else m.(writer := Some(Swapped(m.writer.value.epoch, m.current)), current := Some(m.writer.value.next))
    case Flip =>
      if !(m.writer.Some? && m.writer.value.Swapped?) then m
      else m.(writer := Some(Flipped(m.writer.value.epoch, m.writer.value.previous)),
              epoch := Other(m.writer.value.epoch))
    case Observe =>
      if !(m.writer.Some? && m.writer.value.Flipped? && CountOf(m, m.writer.value.epoch) == 0) then m
      else m.(writer := Some(Drained(m.writer.value.epoch, m.writer.value.previous)))
    case Free =>
      if !(m.writer.Some? && m.writer.value.Drained?) then m
      else m.(writer := Some(Freed),
              boxes := if m.writer.value.previous.Some? then m.boxes - {m.writer.value.previous.value} else m.boxes)
    case Release =>
      if !(m.writer.Some? && m.writer.value.Freed?) then m else m.(writer := None)
  }

  /** `fetch_sub` on the reader's counter. */
  function Unpinned(m: Machine, r: nat): Machine
    requires r in m.readers
  {
    var e := m.readers[r].epoch;
    SetCount(m.(readers := m.readers - {r}), e, SatSub(CountOf(m, e), 1))
  }

  // ------------------------------------------------------------------------- invariant

  /** Epochs are bits. */
  ghost predicate Shaped(m: Machine) {
    && m.epoch < 2
    && (forall r :: r in m.readers ==> m.readers[r].epoch < 2)
    && (m.writer.Some? && !m.writer.value.Locked? && !m.writer.value.Freed? ==> m.writer.value.epoch < 2)
  }

  ghost predicate PinnedBy(m: Machine, r: nat, e: nat) {
    r in m.readers && !m.readers[r].Sampled? && m.readers[r].epoch == e
  }

  ghost function PinnedOn(m: Machine, e: nat): set<nat> {
    set r | r in m.readers && PinnedBy(m, r, e)
  }

  /** The counters are the numbers of pinned readers. */
  ghost predicate Counted(m: Machine) {
    forall e :: 0 <= e < 2 ==> CountOf(m, e) == |PinnedOn(m, e)| <= USIZE_MAX
  }

  ghost predicate Committed(x: Reader) {
    x.Checked? || x.Holding?
  }

  /** A reader past the re-check is on the current epoch, or on the one a writer is waiting for. */
  ghost predicate Covered(m: Machine, x: Reader) {
    Committed(x) ==>
      x.epoch == m.epoch || (m.writer.Some? && m.writer.value.Flipped? && m.writer.value.epoch == x.epoch)
  }

  /** The value a writer took out of `current` and has not freed. */
  ghost function InFlight(m: Machine): Option<nat> {
    match m.writer
    case Some(Swapped(_, p)) => p
    case Some(Flipped(_, p)) => p
    case Some(Drained(_, p)) => p
    case _ => None
  }

  /** A guard's value is the current one, or the replaced one while its writer still waits for the guard's epoch. */
  ghost predicate ValueSafe(m: Machine, x: Reader) {
    x.Holding? ==>
      || m.current == Some(x.value)
      || (InFlight(m) == Some(x.value) && !m.writer.value.Drained? && m.writer.value.epoch == x.epoch)
  }

  ghost predicate ReadersSafe(m: Machine) {
    forall r :: r in m.readers ==> Covered(m, m.readers[r]) && ValueSafe(m, m.readers[r])
  }

  ghost predicate WriterOk(m: Machine) {
    match m.writer
    case Some(Loaded(_, e)) => m.epoch == e
    case Some(Swapped(e, _)) => m.epoch == e
    case Some(Flipped(e, _)) => m.epoch == Other(e)
    case Some(Drained(e, _)) => m.epoch == Other(e)
    case _ => true
  }

  ghost function Owned(v: Option<nat>): set<nat> {
    if v.Some? then {v.value} else {}
  }

  /** The box a writer brought and has not published. */
  ghost function Brought(m: Machine): Option<nat> {
    match m.writer
    case Some(Locked(n)) => Some(n)
    case Some(Loaded(n, _)) => Some(n)
    case _ => None
  }

  /** Every live box is the current value or a writer's new or replaced value, and these are different boxes. */
  ghost predicate BoxesExact(m: Machine) {
    && m.boxes == Owned(m.current) + Owned(InFlight(m)) + Owned(Brought(m))
    && Owned(m.current) !! Owned(InFlight(m))
    && Owned(m.current) !! Owned(Brought(m))
    && Owned(InFlight(m)) !! Owned(Brought(m))
  }

  ghost predicate Inv(m: Machine) {
    Shaped(m) && Counted(m) && ReadersSafe(m) && WriterOk(m) && BoxesExact(m)
  }

  lemma StartInv()
    ensures Inv(START)
  {
    assert PinnedOn(START, 0) == {} && PinnedOn(START, 1) == {};
  }

  // ---------------------------------------------------------------------- preservation

  predicate ReaderStep(step: Step) {
    step.Sample? || step.Pin? || step.Check? || step.Load? || step.Unpin? || step.DropGuard?
  }

  lemma StepShaped(m: Machine, step: Step)
    requires Inv(m)
    ensures Shaped(Next(m, step))
  {
    hide Counted, ReadersSafe, BoxesExact;
  }

  lemma StepCounted(m: Machine, step: Step)
    requires Inv(m)
    ensures Shaped(Next(m, step)) && Counted(Next(m, step))
  {
    StepShaped(m, step);
    hide ReadersSafe, BoxesExact, WriterOk, Shaped, PinnedOn, Next;
    var m' := Next(m, step);
    forall e | 0 <= e < 2
      ensures CountOf(m', e) == |PinnedOn(m', e)| <= USIZE_MAX
    {
      if ReaderStep(step) {
        ReaderStepCount(m, step, e);
      } else {
        WriterStepCount(m, step, e);
      }
    }
  }

  lemma WriterStepCount(m: Machine, step: Step, e: nat)
    requires Shaped(m) && e < 2 && !ReaderStep(step)
    ensures CountOf(Next(m, step), e) == CountOf(m, e)
    ensures PinnedOn(Next(m, step), e) == PinnedOn(m, e)
  {
  }

  lemma ReaderStepCount(m: Machine, step: Step, e: nat)
    requires Shaped(m) && e < 2 && ReaderStep(step) && CountOf(m, e) == |PinnedOn(m, e)| <= USIZE_MAX
    ensures CountOf(Next(m, step), e) == |PinnedOn(Next(m, step), e)| <= USIZE_MAX
  {
    hide PinnedOn;
    var r, m' := step.r, Next(m, step);
    assert m'.readers - {r} == m.readers - {r};
    PinChanges(m, m', r, e);
  }

  /** Only one reader's pin can change in a reader's step. */
  lemma PinChanges(m: Machine, m': Machine, r: nat, e: nat)
    requires m'.readers - {r} == m.readers - {r}
    ensures |PinnedOn(m', e)|
              == |PinnedOn(m, e)| + (if PinnedBy(m', r, e) then 1 else 0) - (if PinnedBy(m, r, e) then 1 else 0)
  {
    var a, b := PinnedOn(m, e), PinnedOn(m', e);
    forall x | x != r
      ensures x in a <==> x in b
    {
      assert x in m.readers <==> x in m.readers - {r};
      assert x in m'.readers <==> x in m'.readers - {r};
    }
    assert a - {r} == b - {r};
    assert r in a ==> |a - {r}| == |a| - 1;
    assert r in b ==> |b - {r}| == |b| - 1;
    assert r !in a ==> a - {r} == a;
    assert r !in b ==> b - {r} == b;
  }

  /** A counter seen at zero: no reader is committed to its epoch. */
  lemma ZeroMeansNone(m: Machine, e: nat)
    requires Shaped(m) && Counted(m) && e < 2 && CountOf(m, e) == 0
    ensures forall r :: r in m.readers && Committed(m.readers[r]) ==> m.readers[r].epoch != e
  {
    assert PinnedOn(m, e) == {};
    forall r | r in m.readers && Committed(m.readers[r])
      ensures m.readers[r].epoch != e
    {
      assert PinnedBy(m, r, e) ==> r in PinnedOn(m, e);
    }
  }

  lemma StepReaders(m: Machine, step: Step)
    requires Inv(m)
    ensures ReadersSafe(Next(m, step))
  {
    hide BoxesExact, Counted;
    var m' := Next(m, step);
    if step.Observe? && m' != m {
      ZeroMeansNone(m, m.writer.value.epoch);
    }
    forall r | r in m'.readers
      ensures Covered(m', m'.readers[r]) && ValueSafe(m', m'.readers[r])
    {
      if r in m.readers {
        assert Covered(m, m.readers[r]) && ValueSafe(m, m.readers[r]);
      }
    }
  }

  lemma StepBoxes(m: Machine, step: Step)
    requires Inv(m)
    ensures WriterOk(Next(m, step)) && BoxesExact(Next(m, step))
  {
    hide Counted, ReadersSafe;
  }

  lemma StepInv(m: Machine, step: Step)
    requires Inv(m)
    ensures Inv(Next(m, step))
  {
    hide Counted, ReadersSafe, WriterOk, BoxesExact, Next;
    StepCounted(m, step);
    StepReaders(m, step);
    StepBoxes(m, step);
  }

  // --------------------------------------------------------------------------- all runs

  function Run(steps: seq<Step>): Machine {
    if steps == [] then START else Next(Run(steps[..|steps| - 1]), steps[|steps| - 1])
  }

  lemma {:induction false} RunInv(steps: seq<Step>)
    ensures Inv(Run(steps))
  {
    hide Inv, Next;
    if steps == [] {
      StartInv();
    } else {
      RunInv(steps[..|steps| - 1]);
      StepInv(Run(steps[..|steps| - 1]), steps[|steps| - 1]);
    }
  }

  /** In every interleaving a value somebody holds a guard on is not freed. */
  lemma HeldNeverFreed(steps: seq<Step>, r: nat)
    requires r in Run(steps).readers && Run(steps).readers[r].Holding?
    ensures Run(steps).readers[r].value in Run(steps).boxes
  {
    hide Run;
    RunInv(steps);
    var m := Run(steps);
    assert ValueSafe(m, m.readers[r]);
  }

  /** When a publisher frees the value it replaced, nobody holds it and nobody can come to hold it again. */
  lemma FreedUnheld(steps: seq<Step>)
    requires var m := Run(steps); m.writer.Some? && m.writer.value.Drained? && m.writer.value.previous.Some?
    ensures var m := Run(steps);
            var gone := m.writer.value.previous.value;
            && gone in m.boxes && m.current != Some(gone)
            && (forall r :: r in m.readers && m.readers[r].Holding? ==> m.readers[r].value != gone)
            && gone !in Next(m, Free).boxes
  {
    hide Run;
    RunInv(steps);
    var m := Run(steps);
    forall r | r in m.readers && m.readers[r].Holding?
      ensures m.readers[r].value != m.writer.value.previous.value
    {
      assert ValueSafe(m, m.readers[r]);
    }
  }

  /** No box leaks: between publications the only live box is the published one. */
  lemma NoLeak(steps: seq<Step>)
    requires Run(steps).writer.None?
    ensures Run(steps).boxes == Owned(Run(steps).current)
  {
    hide Run;
    RunInv(steps);
  }

  /** A counter never underflows and never wraps; a full one turns the reader away unpinned. */
  lemma CountersExact(steps: seq<Step>, r: nat)
    requires r in Run(steps).readers
    ensures var m := Run(steps);
            var e := m.readers[r].epoch;
            && (m.readers[r].Leaving? || m.readers[r].Holding? ==> CountOf(m, e) > 0)
            && (m.readers[r].Sampled? && CountOf(m, e) == USIZE_MAX ==>
                  r !in Next(m, Pin(r)).readers && Next(m, Pin(r)).even == m.even && Next(m, Pin(r)).odd == m.odd)
  {
    hide Run;
    RunInv(steps);
    var m := Run(steps);
    var e := m.readers[r].epoch;
    assert !m.readers[r].Sampled? ==> r in PinnedOn(m, e) && |PinnedOn(m, e)| > 0;
  }

  /** The guards a waiting publisher waits for. */
  ghost function Blockers(m: Machine, e: nat): set<nat> {
    set r | r in m.readers && Committed(m.readers[r]) && m.readers[r].epoch == e
  }

  /** While a publisher waits, nobody new joins the readers it waits for, and a guard's drop removes it. */
  lemma WaitShrinks(steps: seq<Step>, step: Step)
    requires var m := Run(steps); m.writer.Some? && m.writer.value.Flipped?
    ensures var m := Run(steps);
            var e := m.writer.value.epoch;
            && Blockers(Next(m, step), e) <= Blockers(m, e)
            && (step.DropGuard? && step.r in Blockers(m, e) && m.readers[step.r].Holding? ==>
                  Blockers(Next(m, step), e) == Blockers(m, e) - {step.r})
  {
    hide Run, Counted, BoxesExact;
    RunInv(steps);
    var m := Run(steps);
    var e := m.writer.value.epoch;
    assert m.epoch != e;
    forall r | r in Blockers(Next(m, step), e)
      ensures r in Blockers(m, e)
    {
    }
  }
}
