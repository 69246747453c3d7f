/** An operation that changes hooks takes effect: it can always complete, and what it published is then current. */
module SnapshotProgress {
  import opened Common
  import opened BpfState
  import opened BpfInvariants
  import opened BpfRuns
  import opened SnapshotLife
  import Sync = EpochSnapshot
  import EpochProgress

  function Lifted(steps: seq<Sync.Step>): seq<Step> {
    seq(|steps|, i requires 0 <= i < |steps| => SyncStep(steps[i]))
  }

  lemma {:induction false} RunConcat(w: World, xs: seq<Step>, ys: seq<Step>)
    requires WorldInv(w)
    ensures Run(w, xs + ys) == Run(Run(w, xs), ys)
  {
    hide Next, WorldInv;
    if ys == [] {
      assert xs + ys == xs;
    } else {
      var last := |ys| - 1;
      RunConcat(w, xs, ys[..last]);
      assert (xs + ys)[..|xs| + last] == xs + ys[..last];
    }
  }

  /** The snapshot machine's own steps run in the world as they run alone. */
  lemma {:induction false} LiftedRun(w: World, steps: seq<Sync.Step>)
    requires WorldInv(w) && EpochProgress.NoneBegins(steps)
    ensures Run(w, Lifted(steps)) == w.(sync := EpochProgress.RunFrom(w.sync, steps))
  {
    hide WorldInv, Sync.Next;
    if steps != [] {
      var last := |steps| - 1;
      LiftedRun(w, steps[..last]);
      assert Lifted(steps)[..last] == Lifted(steps[..last]);
    }
  }

  lemma WorldParts(w: World)
    requires WorldInv(w)
    ensures Sync.Inv(w.sync) && Inv(w.s) && WellFormed(w.s)
    ensures w.pending.None? ==> w.sync.writer.None?
    ensures w.pending.Some? ==> Inv(w.pending.value.before) && WellFormed(w.pending.value.before)
  {
    hide Inv, Sync.Inv, Publishes, OwnsBox, Contains, Midway;
    InvWellFormed(w.s);
  }

  lemma RunOne(w: World, step: Step)
    requires WorldInv(w)
    ensures Inv(w.s) && (w.pending.Some? ==> Inv(w.pending.value.before))
    ensures Run(w, [step]) == Next(w, step)
  {
    hide Next, WorldInv;
    WorldParts(w);
    assert [step][..0] == [];
    assert Run(w, []) == w;
  }

  lemma BeginStep(w: World, op: Op, box: nat)
    requires Inv(w.s) && WellFormed(w.s) && w.pending.None? && w.sync.writer.None? && Publishes(op)
    requires box !in w.sync.boxes
    ensures var v := Next(w, Begin(op, box));
            && v.sync == Sync.Next(w.sync, Sync.Acquire(box)) && v.pending == Some(Pending(w.s, op, box))
            && v.s == Midway(w.s, op) && Contains(v, box, v.s.published)
            && Sync.Brought(v.sync) == Some(box)
  {
    hide Inv, Midway, Publishes, Apply;
  }

  lemma BeginWorld(w: World, op: Op, box: nat)
    requires WorldInv(w) && w.pending.None? && Publishes(op) && box !in w.sync.boxes
    ensures WellFormed(w.s)
    ensures var v := Run(w, [Begin(op, box)]);
            && v.pending == Some(Pending(w.s, op, box))
            && v.s == Midway(w.s, op) && Contains(v, box, v.s.published)
            && Sync.Brought(v.sync) == Some(box)
  {
    hide Inv, WorldInv, Run, Next, Midway, Publishes, Contains;
    WorldParts(w);
    RunOne(w, Begin(op, box));
    BeginStep(w, op, box);
  }

  lemma EndStep(v: World)
    requires Inv(v.s) && v.pending.Some? && Inv(v.pending.value.before) && WellFormed(v.pending.value.before)
    requires v.sync.writer.None?
    ensures Next(v, End) == v.(s := Apply(v.pending.value.before, v.pending.value.op).state, pending := None)
  {
    hide Inv, Midway, Publishes, Apply;
  }

  lemma EndWorld(v: World)
    requires WorldInv(v) && v.pending.Some? && v.sync.writer.None?
    ensures WellFormed(v.pending.value.before)
    ensures Run(v, [End]) ==
            v.(s := Apply(v.pending.value.before, v.pending.value.op).state, pending := None)
  {
    hide Inv, WorldInv, Run, Next, Apply;
    WorldParts(v);
    RunOne(v, End);
    EndStep(v);
  }

  /**
   From every reachable world between operations, an operation that publishes can complete. The manager is then in the
   state the operation leaves, and the current box, which every new reader gets, holds what that state published.
   */
  lemma OperationCompletes(w: World, op: Op, box: nat) returns (more: seq<Sync.Step>)
    requires WorldInv(w) && w.pending.None? && Publishes(op) && box !in w.sync.boxes
    ensures EpochProgress.NoneBegins(more) && WellFormed(w.s)
    ensures var v := Run(w, [Begin(op, box)] + Lifted(more) + [End]);
            && v.pending.None? && v.s == Apply(w.s, op).state
            && v.sync.writer.None? && v.sync.current == Some(box) && Contains(v, box, v.s.published)
  {
    hide Inv, Sync.Inv, Run, Midway, Apply, Publishes, WorldInv, EpochProgress.RunFrom, Sync.Next;
    BeginWorld(w, op, box);
    var begun := Run(w, [Begin(op, box)]);
    WorldParts(begun);
    more := EpochProgress.WriterEnds(begun.sync);
    LiftedRun(begun, more);
    var drained := Run(begun, Lifted(more));
    EndWorld(drained);
    RunConcat(w, [Begin(op, box)], Lifted(more));
    RunConcat(w, [Begin(op, box)] + Lifted(more), [End]);
    MidwayPublished(w.s, op);
  }
}
