/**
 The hook snapshot and the manager together (kernel/src/bpf/mod.rs,
 kernel/crates/kernel_bpf/src/concurrency/epoch_snapshot.rs). The manager's lock serializes its operations; an
 operation that changes hooks publishes a new snapshot half-way and waits there for the readers of the old one, while
 readers come and go. A program in a snapshot that a reader still guards is loaded.
 */
module SnapshotLife {
  import opened Common
  import opened Handles
  import opened BpfState
  import opened BpfInvariants
  import opened BpfPreservation
  import opened BpfRuns
  import opened BpfTheorems
  import opened LeaseLife
  import Sync = EpochSnapshot

  /** An operation that has published or is publishing in `box`; `before` is the manager before it. */
  datatype Pending = Pending(before: State, op: Op, box: nat)

  /** The manager, the snapshot machine, what is in each box, and the publishing operation in progress. */
  datatype World = World(s: State, sync: Sync.Machine, contents: map<nat, Snapshot>, pending: Option<Pending>)

  datatype Step = Manage(op: Op) | Begin(op: Op, box: nat) | End | SyncStep(step: Sync.Step)

  /** The operations that publish. */
  ghost predicate Publishes(op: Op) {
    Hooks(op) || (op.OpReclaim? && op.memory)
  }

  /** The manager when such an operation publishes: an owner exit has detached and not yet freed anything. */
  ghost function Midway(s: State, op: Op): State
    requires WellFormed(s)
  {
    if op.OpReclaim? then DetachOwner(s, op.owner) else Apply(s, op).state
  }

  /** One step; a step that is not enabled changes nothing. */
  ghost function Next(w: World, step: Step): World
    requires Inv(w.s) && (w.pending.Some? ==> Inv(w.pending.value.before))
  {
    InvWellFormed(w.s);
    match step
    case Manage(op) =>
      if w.pending.Some? || (Publishes(op) && Apply(w.s, op).state != w.s) then w
      else w.(s := Apply(w.s, op).state)
    case Begin(op, box) =>
      if w.pending.Some? || !Publishes(op) || w.sync.writer.Some? || box in w.sync.boxes then w
      else
        var s' := Midway(w.s, op);
        World(s', Sync.Next(w.sync, Sync.Acquire(box)), w.contents[box := s'.published], Some(Pending(w.s, op, box)))
    case End =>
      if w.pending.None? || w.sync.writer.Some? then w
      else
        InvWellFormed(w.pending.value.before);
        w.(s := Apply(w.pending.value.before, w.pending.value.op).state, pending := None)
    case SyncStep(step) =>
      if step.Acquire? then w else w.(sync := Sync.Next(w.sync, step))
  }

  // ------------------------------------------------------------------------- invariant

  ghost predicate InSnapshot(p: Snapshot, id: nat) {
    InLists(p.generic, id) || InLists(p.gpio, id)
  }

  ghost predicate AllLoaded(programs: Table<ProgramEntry>, p: Snapshot) {
    forall id :: InSnapshot(p, id) ==> LoadedId(programs, id)
  }

  /** Boxes with this content. */
  ghost predicate Contains(w: World, box: nat, p: Snapshot) {
    box in w.contents && w.contents[box] == p
  }

  /** Between operations the current box is what the manager published. */
  ghost predicate Settled(w: World) {
    w.sync.writer.None? && forall b :: w.sync.current == Some(b) ==> Contains(w, b, w.s.published)
  }

  /** The box is about to become current, or has become it and no other is on its way. */
  ghost predicate OwnsBox(m: Sync.Machine, box: nat) {
    Sync.Brought(m) == Some(box) || (m.current == Some(box) && Sync.Brought(m).None?)
  }

  /** During one, each box is what was published before it or what it publishes, and the tables of programs agree. */
  ghost predicate Publishing(w: World, p: Pending) {
    && Inv(p.before) && Publishes(p.op) && w.s == Midway(p.before, p.op) && w.s.programs == p.before.programs
    && Contains(w, p.box, w.s.published)
    && OwnsBox(w.sync, p.box)
    && (forall b :: w.sync.current == Some(b) && b != p.box ==> Contains(w, b, p.before.published))
    && (forall b :: Sync.InFlight(w.sync) == Some(b) ==> Contains(w, b, p.before.published))
  }

  ghost predicate WorldInv(w: World) {
    && Inv(w.s) && Sync.Inv(w.sync)
    && (if w.pending.Some? then WellFormed(w.pending.value.before) && Publishing(w, w.pending.value) else Settled(w))
  }

  lemma StartInv(config: Config, budget: nat, cycleUnit: nat)
    requires Inv(Init(config, budget, cycleUnit))
    ensures WorldInv(World(Init(config, budget, cycleUnit), Sync.START, map[], None))
  {
    Sync.StartInv();
  }

  lemma PublishedAllLoaded(s: State)
    requires Inv(s)
    ensures AllLoaded(s.programs, s.published)
  {
    hide Inv, LoadedId;
    forall id | InSnapshot(s.published, id)
      ensures LoadedId(s.programs, id)
    {
      PublishedLoaded(s, id);
    }
  }

  // ---------------------------------------------------------------------- the manager's part

  /** Operations that do not publish leave the published snapshot alone. */
  lemma QuietPublished(s: State, op: Op)
    requires WellFormed(s) && !Publishes(op)
    ensures Apply(s, op).state.published == s.published
  {
    hide Apply;
    if Loads(op) {
      LoadFrame(s, op);
    } else if op.OpCreate? || op.OpGet? || op.OpDestroy? {
      MapFrame(s, op);
    } else if op.OpPin? || op.OpClone? || op.OpDropClone? {
      PinFrame(s, op);
    } else {
      ExitPublished(s, op);
    }
  }

  lemma ExitPublished(s: State, op: Op)
    requires WellFormed(s) && (op.OpUnload? || op.OpUnpin? || (op.OpReclaim? && !op.memory))
    ensures Apply(s, op).state.published == s.published
  {
    hide MapTotal, Sweepable, ProgramStrongCount, AttachedAnywhere, FindPin, Pinned, GpioRoutes.Remove, ReclaimPrograms,
      ReleaseMaps;
  }

  lemma MidwayInv(s: State, op: Op)
    requires Inv(s) && Publishes(op)
    ensures WellFormed(s) && Inv(Midway(s, op)) && Midway(s, op).programs == s.programs
  {
    InvWellFormed(s);
    hide Inv, Apply, Project, UnownedAttachments, OwnedKeys, OwnedHandles;
    if op.OpReclaim? {
      DetachOwnerInv(s, op.owner);
    } else {
      StepInv(s, op);
      HookFrame(s, op);
    }
  }

  /** What an operation published is what is published when it ends. */
  lemma MidwayPublished(s: State, op: Op)
    requires WellFormed(s) && Publishes(op)
    ensures Apply(s, op).state.published == Midway(s, op).published
  {
    if op.OpReclaim? {
      hide Project, MapTotal, ProgramTotal, Sweepable, FreeableMaps, FreeablePrograms, UnownedAttachments;
    }
  }

  // -------------------------------------------------------------------- the snapshot's part

  /** What one step of the machine does to the boxes, seen from an operation that publishes in `box`. */
  lemma SyncBoxes(m: Sync.Machine, step: Sync.Step, box: nat)
    requires Sync.Inv(m) && !step.Acquire? && OwnsBox(m, box)
    ensures var m' := Sync.Next(m, step);
            && OwnsBox(m', box)
            && (forall b :: m'.current == Some(b) && b != box ==> m.current == Some(b))
            && (forall b :: Sync.InFlight(m') == Some(b) ==>
                  Sync.InFlight(m) == Some(b) || (m.current == Some(b) && b != box))
  {
    hide Sync.Counted, Sync.ReadersSafe, Sync.Shaped;
  }

  lemma SyncPublishing(w: World, step: Sync.Step)
    requires WorldInv(w) && w.pending.Some? && !step.Acquire?
    ensures WorldInv(w.(sync := Sync.Next(w.sync, step)))
  {
    hide Inv, WellFormed, Midway, Publishes, Sync.Next, Sync.Inv, Sync.Brought, Sync.InFlight, OwnsBox;
    Sync.StepInv(w.sync, step);
    SyncBoxes(w.sync, step, w.pending.value.box);
  }

  /** Between operations the readers' steps move no box. */
  lemma SyncSettled(w: World, step: Sync.Step)
    requires WorldInv(w) && w.pending.None? && !step.Acquire?
    ensures WorldInv(w.(sync := Sync.Next(w.sync, step)))
  {
    hide Inv, WellFormed, Sync.Next, Sync.Inv;
    Sync.StepInv(w.sync, step);
    IdleWriter(w.sync, step);
  }

  lemma IdleWriter(m: Sync.Machine, step: Sync.Step)
    requires m.writer.None? && !step.Acquire?
    ensures Sync.Next(m, step).writer.None? && Sync.Next(m, step).current == m.current
  {
  }

  // --------------------------------------------------------------------------- every step

  lemma ManageInv(w: World, op: Op)
    requires WorldInv(w)
    ensures WorldInv(Next(w, Manage(op)))
  {
    hide Inv, Apply, Sync.Inv, Midway, Publishes;
    InvWellFormed(w.s);
    StepInv(w.s, op);
    if !Publishes(op) {
      QuietPublished(w.s, op);
    }
  }

  lemma BeginInv(w: World, op: Op, box: nat)
    requires WorldInv(w)
    ensures WorldInv(Next(w, Begin(op, box)))
  {
    hide Inv, Apply, Sync.Inv, Midway, Publishes;
    InvWellFormed(w.s);
    if w.pending.None? && Publishes(op) && w.sync.writer.None? && box !in w.sync.boxes {
      MidwayInv(w.s, op);
      Sync.StepInv(w.sync, Sync.Acquire(box));
      CurrentBoxed(w.sync);
    }
  }

  lemma CurrentBoxed(m: Sync.Machine)
    requires Sync.Inv(m)
    ensures forall b :: m.current == Some(b) ==> b in m.boxes
  {
    hide Sync.Counted, Sync.ReadersSafe, Sync.Shaped, Sync.WriterOk;
  }

  lemma EndInv(w: World)
    requires WorldInv(w)
    ensures WorldInv(Next(w, End))
  {
    hide Inv, Apply, Sync.Inv, Midway, Publishes;
    if w.pending.Some? && w.sync.writer.None? {
      var p := w.pending.value;
      StepInv(p.before, p.op);
      MidwayPublished(p.before, p.op);
    }
  }

  lemma WorldStepInv(w: World, step: Step)
    requires WorldInv(w)
    ensures WorldInv(Next(w, step))
  {
    hide WorldInv, Inv, Apply, Midway, Publishes, Sync.Next;
    match step
    case Manage(op) => ManageInv(w, op);
    case Begin(op, box) => BeginInv(w, op, box);
    case End => EndInv(w);
    case SyncStep(s) =>
      if !s.Acquire? {
        if w.pending.Some? {
          SyncPublishing(w, s);
        } else {
          SyncSettled(w, s);
        }
      }
  }

  ghost function Run(w: World, steps: seq<Step>): (r: World)
    requires WorldInv(w)
    ensures WorldInv(r)
  {
    if steps == [] then w
    else
      var prev := Run(w, steps[..|steps| - 1]);
      WorldStepInv(prev, steps[|steps| - 1]);
      Next(prev, steps[|steps| - 1])
  }

  // ----------------------------------------------------------------------------- all runs

  /** The box a guard holds is the current one, or the replaced one of the publication in progress. */
  lemma GuardedBox(m: Sync.Machine, r: nat)
    requires Sync.Inv(m) && r in m.readers && m.readers[r].Holding?
    ensures m.current == Some(m.readers[r].value) || Sync.InFlight(m) == Some(m.readers[r].value)
    ensures m.writer.None? ==> Sync.InFlight(m).None?
  {
    hide Sync.Counted, Sync.BoxesExact, Sync.Shaped;
    assert Sync.ValueSafe(m, m.readers[r]);
  }

  /**
   In every interleaving of manager operations, publications and readers, the box a guard holds was published by the
   manager, and every program in it is loaded: between operations, and while a publisher waits for that very guard.
   */
  lemma GuardedLoaded(w: World, steps: seq<Step>, r: nat)
    requires WorldInv(w) && r in Run(w, steps).sync.readers && Run(w, steps).sync.readers[r].Holding?
    ensures var v := Run(w, steps);
            var box := v.sync.readers[r].value;
            box in v.contents && AllLoaded(v.s.programs, v.contents[box])
  {
    hide Run, Inv, Sync.Inv, Sync.InFlight, Midway, Publishes, AllLoaded;
    var v := Run(w, steps);
    GuardedBox(v.sync, r);
    PublishedAllLoaded(v.s);
    if v.pending.Some? {
      PublishedAllLoaded(v.pending.value.before);
    }
  }

  /** After these steps of the lease machine, an activation of the program holds the map. */
  ghost predicate Leases(steps: seq<Lease.Step>, a: nat, x: nat, p: ProgramRuntime) {
    var m := Lease.Run(Lease.START, steps);
    Lease.Holds(m, Lease.Execution(a), x) && m.acts[a].program == p
  }

  /** A loaded program, and no map that an activation of it leases can go away. */
  ghost predicate RunsSafely(s: State, j: int, id: nat)
    requires WellFormed(s)
  {
    && Occupied(s.programs, j) && s.programs.slots[j].value.program.id == id
    && forall steps, a, x :: Leases(steps, a, x, s.programs.slots[j].value.program) ==> exists i :: Safe(s, i, x)
  }

  lemma LoadedRunsSafely(s: State, j: nat)
    requires Inv(s) && Occupied(s.programs, j)
    ensures WellFormed(s) && RunsSafely(s, j, s.programs.slots[j].value.program.id)
  {
    hide Inv, Lease.Run, Views, Safe;
    InvWellFormed(s);
    OccupiedLive(s.programs, j);
    forall steps, a, x | Leases(steps, a, x, s.programs.slots[j].value.program)
      ensures exists i :: Safe(s, i, x)
    {
      HeldIsCaptured(steps, a, x);
      var i := CapturedLive(s, HandleOf(s.programs, j), x);
      CapturedSafe(s, i);
    }
  }

  /**
   While a reader guards a snapshot, each of its programs is loaded and every map leased by a run of it is live and
   cannot be destroyed, whatever the manager does meanwhile.
   */
  lemma GuardedRunsSafely(w: World, steps: seq<Step>, r: nat, id: nat)
    requires WorldInv(w) && r in Run(w, steps).sync.readers && Run(w, steps).sync.readers[r].Holding?
    requires var v := Run(w, steps);
             var box := v.sync.readers[r].value;
             box in v.contents && InSnapshot(v.contents[box], id)
    ensures WellFormed(Run(w, steps).s) && exists j :: RunsSafely(Run(w, steps).s, j, id)
  {
    hide Run, Inv, Sync.Inv, RunsSafely, Midway;
    var v := Run(w, steps);
    GuardedLoaded(w, steps, r);
    assert LoadedId(v.s.programs, id);
    var j :| Occupied(v.s.programs, j) && v.s.programs.slots[j].value.program.id == id;
    LoadedRunsSafely(v.s, j);
  }
}
