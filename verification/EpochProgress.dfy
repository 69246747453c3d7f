/** Readers and publishers of the hook snapshot get through: what a read returns and what a publication leaves. */
module EpochProgress {
  import opened Common
  import opened EpochSnapshot

  ghost function RunFrom(m: Machine, steps: seq<Step>): Machine {
    if steps == [] then m else Next(RunFrom(m, steps[..|steps| - 1]), steps[|steps| - 1])
  }

  lemma FromNone(m: Machine)
    ensures RunFrom(m, []) == m
  {
  }

  lemma {:induction false} FromConcat(m: Machine, xs: seq<Step>, ys: seq<Step>)
    ensures RunFrom(m, xs + ys) == RunFrom(RunFrom(m, xs), ys)
  {
    hide Next;
    if ys == [] {
      assert xs + ys == xs;
    } else {
      var last := |ys| - 1;
      FromConcat(m, xs, ys[..last]);
      assert (xs + ys)[..|xs| + last] == xs + ys[..last];
    }
  }

  lemma FromFirst(m: Machine, step: Step, rest: seq<Step>)
    ensures RunFrom(m, [step] + rest) == RunFrom(Next(m, step), rest)
  {
    hide Next;
    FromConcat(m, [step], rest);
    assert [step][..0] == [];
    FromNone(m);
  }

  lemma {:induction false} FromStart(steps: seq<Step>, more: seq<Step>)
    ensures Run(steps + more) == RunFrom(Run(steps), more)
  {
    hide Next;
    if more == [] {
      assert steps + more == steps;
    } else {
      var last := |more| - 1;
      FromStart(steps, more[..last]);
      assert (steps + more)[..|steps| + last] == steps + more[..last];
    }
  }

  /** No read and no publication begins; those in progress go on. */
  ghost predicate NoneBegins(steps: seq<Step>) {
    forall i :: 0 <= i < |steps| ==> !steps[i].Acquire? && !steps[i].Sample?
  }

  // ------------------------------------------------------------------------------ readers

  /** A read between publications returns the published value, and none before the first publication. */
  lemma ReadGetsCurrent(steps: seq<Step>, r: nat)
    requires var m := Run(steps); m.writer.None? && r !in m.readers && CountOf(m, m.epoch) < USIZE_MAX
    ensures var m, m' := Run(steps), Run(steps + [Sample(r), Pin(r), Check(r), Load(r)]);
            && m'.current == m.current && m'.boxes == m.boxes
            && m'.readers == m.readers[r := if m.current.Some? then Holding(m.epoch, m.current.value)
                                            else Leaving(m.epoch)]
  {
    hide Run;
    var m := Run(steps);
    FromStart(steps, [Sample(r), Pin(r), Check(r), Load(r)]);
    FromFour(m, Sample(r), Pin(r), Check(r), Load(r));
  }

  lemma FromFour(m: Machine, a: Step, b: Step, c: Step, d: Step)
    ensures RunFrom(m, [a, b, c, d]) == Next(Next(Next(Next(m, a), b), c), d)
  {
    hide Next, RunFrom;
    assert [a, b, c, d] == [a] + ([b] + ([c] + ([d] + [])));
    FromFirst(m, a, [b] + ([c] + ([d] + [])));
    FromFirst(Next(m, a), b, [c] + ([d] + []));
    FromFirst(Next(Next(m, a), b), c, [d] + []);
    FromFirst(Next(Next(Next(m, a), b), c), d, []);
    FromNone(Next(Next(Next(Next(m, a), b), c), d));
  }

  /** What a pinned reader does next to be gone. */
  function Outward(x: Reader, r: nat): Step {
    match x
    case Sampled(_) => Pin(r)
    case Pinned(_) => Check(r)
    case Checked(_) => Load(r)
    case Leaving(_) => Unpin(r)
    case Holding(_, _) => DropGuard(r)
  }

  function Rank(x: Reader): nat {
    match x
    case Sampled(_) => 4
    case Pinned(_) => 3
    case Checked(_) => 2
    case Leaving(_) => 1
    case Holding(_, _) => 1
  }

  /** Nothing moved but the reader, which is still on its epoch or gone. */
  ghost predicate OnlyReader(m: Machine, m': Machine, r: nat) {
    && m'.writer == m.writer && m'.current == m.current && m'.epoch == m.epoch && m'.boxes == m.boxes
    && m'.readers - {r} == m.readers - {r}
  }

  lemma OutwardStep(m: Machine, r: nat)
    requires r in m.readers && !m.readers[r].Sampled?
    ensures var m' := Next(m, Outward(m.readers[r], r));
            && OnlyReader(m, m', r)
            && (r in m'.readers ==> !m'.readers[r].Sampled? && Rank(m'.readers[r]) < Rank(m.readers[r]))
  {
  }

  lemma {:induction false} ReaderLeaves(m: Machine, r: nat) returns (more: seq<Step>)
    requires Inv(m) && (r in m.readers ==> !m.readers[r].Sampled?)
    ensures Inv(RunFrom(m, more)) && OnlyReader(m, RunFrom(m, more), r) && r !in RunFrom(m, more).readers
    ensures NoneBegins(more)
    decreases if r in m.readers then Rank(m.readers[r]) else 0
  {
    hide Inv, RunFrom;
    if r !in m.readers {
      more := [];
      FromNone(m);
    } else {
      var step := Outward(m.readers[r], r);
      OutwardStep(m, r);
      StepInv(m, step);
      hide Next;
      var rest := ReaderLeaves(Next(m, step), r);
      more := [step] + rest;
      FromFirst(m, step, rest);
    }
  }

  /** All readers pinned on an epoch leave. */
  lemma {:induction false} EpochEmpties(m: Machine, e: nat) returns (more: seq<Step>)
    requires Inv(m) && e < 2
    ensures var r := RunFrom(m, more);
            && Inv(r) && CountOf(r, e) == 0
            && r.writer == m.writer && r.current == m.current && r.epoch == m.epoch && r.boxes == m.boxes
    ensures NoneBegins(more)
    decreases |PinnedOn(m, e)|
  {
    hide Inv, RunFrom;
    InvCounted(m, e);
    if PinnedOn(m, e) == {} {
      more := [];
      FromNone(m);
    } else {
      var r :| r in PinnedOn(m, e);
      var first := ReaderLeaves(m, r);
      var m1 := RunFrom(m, first);
      PinnedWithout(m, m1, r, e);
      var rest := EpochEmpties(m1, e);
      more := first + rest;
      FromConcat(m, first, rest);
    }
  }

  lemma InvCounted(m: Machine, e: nat)
    requires Inv(m) && e < 2
    ensures CountOf(m, e) == |PinnedOn(m, e)|
  {
  }

  lemma PinnedWithout(m: Machine, m1: Machine, r: nat, e: nat)
    requires r in PinnedOn(m, e) && r !in m1.readers && m1.readers - {r} == m.readers - {r}
    ensures |PinnedOn(m1, e)| < |PinnedOn(m, e)|
  {
    PinChanges(m, m1, r, e);
  }

  // --------------------------------------------------------------------------- publishers

  /** A publication in progress can always be brought to its end, once the readers it waits for leave. */
  lemma {:induction false} WriterEnds(m: Machine) returns (more: seq<Step>)
    requires Inv(m)
    ensures var r := RunFrom(m, more);
            && Inv(r) && r.writer.None?
            && r.current == (if Brought(m).Some? then Brought(m) else m.current)
    ensures NoneBegins(more)
    decreases WriterRank(m)
  {
    hide Inv, RunFrom;
    if m.writer.None? {
      more := [];
      FromNone(m);
    } else if m.writer.value.Flipped? && CountOf(m, m.writer.value.epoch) > 0 {
      var e := m.writer.value.epoch;
      FlippedBit(m);
      var drain := EpochEmpties(m, e);
      var m1 := RunFrom(m, drain);
      var rest := WriterEnds(m1);
      more := drain + rest;
      FromConcat(m, drain, rest);
    } else {
      var step := WriterStep(m.writer.value);
      StepInv(m, step);
      WriterMoves(m);
      hide Next;
      var rest := WriterEnds(Next(m, step));
      more := [step] + rest;
      FromFirst(m, step, rest);
    }
  }

  lemma FlippedBit(m: Machine)
    requires Inv(m) && m.writer.Some? && m.writer.value.Flipped?
    ensures m.writer.value.epoch < 2
  {
  }

  function WriterStep(w: Writer): Step {
    match w
    case Locked(_) => LoadEpoch
    case Loaded(_, _) => Swap
    case Swapped(_, _) => Flip
    case Flipped(_, _) => Observe
    case Drained(_, _) => Free
    case Freed => Release
  }

  function WriterRank(m: Machine): nat {
    match m.writer
    case None => 0
    case Some(Freed) => 1
    case Some(Drained(_, _)) => 2
    case Some(Flipped(e, _)) => if CountOf(m, e) == 0 then 3 else 4
    case Some(Swapped(_, _)) => 5
    case Some(Loaded(_, _)) => 6
    case Some(Locked(_)) => 7
  }

  lemma WriterMoves(m: Machine)
    requires m.writer.Some? && (m.writer.value.Flipped? ==> CountOf(m, m.writer.value.epoch) == 0)
    ensures var m' := Next(m, WriterStep(m.writer.value));
            && WriterRank(m') < WriterRank(m)
            && (if Brought(m').Some? then Brought(m') else m'.current) ==
               (if Brought(m).Some? then Brought(m) else m.current)
  {
  }

  /**
   A publication takes effect: from every state with no publisher, publishing a new box can end, and then that box is
   the current one and the only one left.
   */
  lemma PublicationLands(steps: seq<Step>, n: nat) returns (more: seq<Step>)
    requires Run(steps).writer.None? && n !in Run(steps).boxes
    ensures var m := Run(steps + [Acquire(n)] + more);
            m.writer.None? && m.current == Some(n) && m.boxes == {n}
    ensures NoneBegins(more)
  {
    hide Run, RunFrom, Inv;
    var begun := steps + [Acquire(n)];
    FromStart(steps, [Acquire(n)]);
    FromFirst(Run(steps), Acquire(n), []);
    FromNone(Next(Run(steps), Acquire(n)));
    assert [Acquire(n)] + [] == [Acquire(n)];
    RunInv(begun);
    more := WriterEnds(Run(begun));
    FromStart(begun, more);
    NoLeak(begun + more);
  }
}
