/**
 Map leases and per-CPU execution (kernel/src/bpf/mod.rs, kernel/src/mcore/context.rs) as a step
 machine: every compare-exchange and every guard drop is one step, and activations of
 `execute_program` on any CPUs, nested in one another or not, interleave freely with control-plane
 leases.
 */
module MapLease {
  import opened Common
  import opened Authorization
  import opened BpfState

  const MAX_EXECUTION_MAP_LEASES: nat := 128

  /**
   Where an activation of `execute_program` stands. `Running` may sit between winning a map's flag
   and recording it; `Dropping` has cleared the flags of the first `cleared` leases.
   */
  datatype Phase = Entered | HasStack | Running(taking: Option<nat>) | Dropping(cleared: nat)

  datatype Activation = Activation(cpu: nat, program: ProgramRuntime, phase: Phase, leased: seq<nat>)

  /** Activations by id, the CPUs' two words, the set `leased` flags, and the control plane's leases by holder. */
  datatype Machine = Machine(
    acts: map<nat, Activation>,
    inUse: set<nat>,
    pointer: map<nat, nat>,
    flags: set<nat>,
    control: map<nat, nat>)

  datatype Step =
    | Enter(act: nat, cpu: nat, program: ProgramRuntime)
    | TakeStack(act: nat)
    | Install(act: nat)
    | MapCall(act: nat, handle: nat, required: Access)
    | Record(act: nat)
    | Finish(act: nat)
    | DropLease(act: nat)
    | ReleaseStack(act: nat)
    | TryLease(holder: nat, runtime: nat)
    | DropControl(holder: nat)

  const START := Machine(map[], {}, map[], {}, map[])

  predicate At(m: Machine, a: nat, p: Phase) {
    a in m.acts && m.acts[a].phase == p
  }

  /** The execution a helper reaches through the CPU's pointer. */
  function Current(m: Machine, a: nat): Option<nat>
    requires a in m.acts
  {
    if m.acts[a].cpu in m.pointer && m.pointer[m.acts[a].cpu] in m.acts then Some(m.pointer[m.acts[a].cpu]) else None
  }

  /** The map `BpfExecution::map` must win before it can return it, if it gets that far. */
  function Wanted(m: Machine, e: nat, handle: nat, required: Access): Option<nat>
    requires e in m.acts
  {
    match ProgramMap(m.acts[e].program, handle, required)
    case None => None
    case Some(x) =>
      if x in m.acts[e].leased || |m.acts[e].leased| == MAX_EXECUTION_MAP_LEASES then None else Some(x)
  }

  function With(m: Machine, a: nat, x: Activation): Machine {
    m.(acts := m.acts[a := x])
  }

  /** One step; a step that is not enabled changes nothing. */
  function Next(m: Machine, step: Step): Machine {
    match step
    case Enter(a, cpu, program) =>
      if a in m.acts then m else With(m, a, Activation(cpu, program, Entered, []))
    case TakeStack(a) =>
      if !At(m, a, Entered) then m
      else if m.acts[a].cpu in m.inUse then m.(acts := m.acts - {a})
      else With(m, a, m.acts[a].(phase := HasStack)).(inUse := m.inUse + {m.acts[a].cpu})
    case Install(a) =>
      if !At(m, a, HasStack) then m
      else if m.acts[a].cpu in m.pointer then With(m, a, m.acts[a].(phase := Dropping(0)))
      else With(m, a, m.acts[a].(phase := Running(None))).(pointer := m.pointer[m.acts[a].cpu := a])
    case MapCall(a, handle, required) =>
      if !At(m, a, Running(None)) || Current(m, a).None? then m
      else
        var e := Current(m, a).value;
        var x := Wanted(m, e, handle, required);
        if x.None? || x.value in m.flags then m
        else With(m, e, m.acts[e].(phase := Running(x))).(flags := m.flags + {x.value})
    case Record(a) =>
      if !(a in m.acts && m.acts[a].phase.Running? && m.acts[a].phase.taking.Some?) then m
      else With(m, a, m.acts[a].(phase := Running(None), leased := m.acts[a].leased + [m.acts[a].phase.taking.value]))
    case Finish(a) =>
      if !At(m, a, Running(None)) then m
      else With(m, a, m.acts[a].(phase := Dropping(0))).(pointer := m.pointer - {m.acts[a].cpu})
    case DropLease(a) =>
      if !(a in m.acts && m.acts[a].phase.Dropping? && m.acts[a].phase.cleared < |m.acts[a].leased|) then m
      else
        var k := m.acts[a].phase.cleared;
        With(m, a, m.acts[a].(phase := Dropping(k + 1))).(flags := m.flags - {m.acts[a].leased[k]})
    case ReleaseStack(a) =>
      if !(a in m.acts && m.acts[a].phase == Dropping(|m.acts[a].leased|)) then m
      else m.(acts := m.acts - {a}, inUse := m.inUse - {m.acts[a].cpu})
    case TryLease(c, x) =>
      if c in m.control || x in m.flags then m
      else m.(control := m.control[c := x], flags := m.flags + {x})
    case DropControl(c) =>
      if c !in m.control then m else m.(control := m.control - {c}, flags := m.flags - {m.control[c]})
  }

  function Run(m: Machine, steps: seq<Step>): Machine {
    if steps == [] then m else Next(Run(m, steps[..|steps| - 1]), steps[|steps| - 1])
  }

  // ------------------------------------------------------------------------- invariant

  datatype Holder = Execution(act: nat) | Control(id: nat)

  /** The leases an activation has and has not cleared yet. */
  ghost predicate Keeps(x: Activation, runtime: nat) {
    || (x.phase == Running(Some(runtime)))
    || (exists k :: 0 <= k < |x.leased| && x.leased[k] == runtime && (x.phase.Dropping? ==> x.phase.cleared <= k))
  }

  ghost predicate Holds(m: Machine, h: Holder, runtime: nat) {
    match h
    case Execution(a) => a in m.acts && Keeps(m.acts[a], runtime)
    case Control(c) => c in m.control && m.control[c] == runtime
  }

  ghost predicate ActivationOk(x: Activation) {
    && |x.leased| <= MAX_EXECUTION_MAP_LEASES
    && (forall i, j :: 0 <= i < j < |x.leased| ==> x.leased[i] != x.leased[j])
    && (x.phase.Entered? || x.phase.HasStack? ==> x.leased == [])
    && (x.phase.Running? && x.phase.taking.Some? ==>
          x.phase.taking.value !in x.leased && |x.leased| < MAX_EXECUTION_MAP_LEASES)
    && (x.phase.Dropping? ==> x.phase.cleared <= |x.leased|)
  }

  /** The lease flag of a map is set exactly when somebody holds it. */
  ghost predicate FlagsExact(m: Machine) {
    && (forall h, x: nat :: Holds(m, h, x) ==> x in m.flags)
    && (forall x: nat :: x in m.flags ==> exists h :: Holds(m, h, x))
  }

  ghost predicate HoldersUnique(m: Machine) {
    forall g, h, x: nat :: Holds(m, g, x) && Holds(m, h, x) ==> g == h
  }

  ghost predicate OwnsStack(m: Machine, a: nat, cpu: nat) {
    a in m.acts && m.acts[a].cpu == cpu && !m.acts[a].phase.Entered?
  }

  ghost predicate StacksExact(m: Machine) {
    && (forall a, c :: OwnsStack(m, a, c) ==> c in m.inUse)
    && (forall c :: c in m.inUse ==> exists a :: OwnsStack(m, a, c))
    && (forall a, b, c :: OwnsStack(m, a, c) && OwnsStack(m, b, c) ==> a == b)
  }

  /** A CPU's pointer names an activation exactly while that activation runs on that CPU. */
  ghost predicate PointersExact(m: Machine) {
    && (forall c :: c in m.pointer ==> OwnsStack(m, m.pointer[c], c) && m.acts[m.pointer[c]].phase.Running?)
    && (forall a :: a in m.acts && m.acts[a].phase.Running? ==>
            m.acts[a].cpu in m.pointer && m.pointer[m.acts[a].cpu] == a)
  }

  ghost predicate Inv(m: Machine) {
    && (forall a :: a in m.acts ==> ActivationOk(m.acts[a]))
    && FlagsExact(m) && HoldersUnique(m) && StacksExact(m) && PointersExact(m)
  }

  lemma StartInv()
    ensures Inv(START)
  {
  }

  /** Taking the stack means the pointer is free: the second compare-exchange cannot lose. */
  lemma PointerFree(m: Machine, a: nat)
    requires Inv(m) && At(m, a, HasStack)
    ensures m.acts[a].cpu !in m.pointer
  {
    var c := m.acts[a].cpu;
    assert OwnsStack(m, a, c);
    assert c in m.pointer ==> OwnsStack(m, m.pointer[c], c);
  }

  /** A helper called by a running program reaches that program's own execution. */
  lemma CurrentIsSelf(m: Machine, a: nat)
    requires Inv(m) && a in m.acts && m.acts[a].phase.Running?
    ensures Current(m, a) == Some(a)
  {
  }

  // ------------------------------------------------------------ what one step does to leases

  /** The lease a step takes. */
  ghost function Gained(m: Machine, step: Step): Option<(Holder, nat)> {
    match step
    case MapCall(a, handle, required) =>
      if !At(m, a, Running(None)) then None
      else
        var x := Wanted(m, a, handle, required);
        if x.None? || x.value in m.flags then None else Some((Execution(a), x.value))
    case TryLease(c, x) => if c in m.control || x in m.flags then None else Some((Control(c), x))
    case _ => None
  }

  /** The lease a step gives back: the next one of an ending execution, or a dropped control lease. */
  ghost function Given(m: Machine, step: Step): Option<(Holder, nat)> {
    match step
    case DropLease(a) =>
      if a in m.acts && m.acts[a].phase.Dropping? && m.acts[a].phase.cleared < |m.acts[a].leased|
      then Some((Execution(a), m.acts[a].leased[m.acts[a].phase.cleared])) else None
    case DropControl(c) => if c in m.control then Some((Control(c), m.control[c])) else None
    case _ => None
  }

  /** `m'` holds what `m` held, plus `gained`, minus `given`, and the flags say so. */
  ghost predicate Moves(m: Machine, m': Machine, gained: Option<(Holder, nat)>, given: Option<(Holder, nat)>) {
    && (forall h, x: nat :: Holds(m', h, x) <==> (Holds(m, h, x) && given != Some((h, x))) || gained == Some((h, x)))
    && (gained.None? || given.None?)
    && (gained.Some? ==> gained.value.1 !in m.flags && m'.flags == m.flags + {gained.value.1})
    && (given.Some? ==> Holds(m, given.value.0, given.value.1) && m'.flags == m.flags - {given.value.1})
    && (gained.None? && given.None? ==> m'.flags == m.flags)
  }

  lemma ActChanged(m: Machine, m': Machine, a: nat)
    requires m'.control == m.control && m'.acts - {a} == m.acts - {a}
    ensures forall h, x: nat :: h != Execution(a) ==> (Holds(m', h, x) <==> Holds(m, h, x))
  {
    forall h, x: nat | h != Execution(a)
      ensures Holds(m', h, x) <==> Holds(m, h, x)
    {
      if h.Execution? {
        assert h.act in m'.acts <==> h.act in m'.acts - {a};
        assert h.act in m.acts <==> h.act in m.acts - {a};
      }
    }
  }

  /** Recording a won lease changes nobody's holdings; clearing one gives up exactly it. */
  lemma KeepsRecord(x: Activation, runtime: nat)
    requires x.phase == Running(Some(runtime))
    ensures forall y: nat :: Keeps(x.(phase := Running(None), leased := x.leased + [runtime]), y) <==> Keeps(x, y)
  {
    var x' := x.(phase := Running(None), leased := x.leased + [runtime]);
    forall y: nat
      ensures Keeps(x', y) <==> Keeps(x, y)
    {
      if y == runtime {
        assert x'.leased[|x.leased|] == y;
      } else if Keeps(x, y) {
        var k :| 0 <= k < |x.leased| && x.leased[k] == y;
        assert x'.leased[k] == y;
      }
    }
  }

  lemma KeepsClear(x: Activation)
    requires ActivationOk(x) && x.phase.Dropping? && x.phase.cleared < |x.leased|
    ensures forall y: nat :: Keeps(x.(phase := Dropping(x.phase.cleared + 1)), y) <==>
              Keeps(x, y) && y != x.leased[x.phase.cleared]
    ensures Keeps(x, x.leased[x.phase.cleared])
  {
  }

  lemma KeepsTake(x: Activation, runtime: nat)
    requires x.phase == Running(None)
    ensures forall y: nat :: Keeps(x.(phase := Running(Some(runtime))), y) <==> Keeps(x, y) || y == runtime
  {
  }

  lemma LeaseSteps(m: Machine, step: Step)
    requires Inv(m) && (step.MapCall? || step.Record? || step.DropLease?)
    ensures Moves(m, Next(m, step), Gained(m, step), Given(m, step))
  {
    hide FlagsExact, HoldersUnique, StacksExact, Keeps;
    var a, m' := step.act, Next(m, step);
    if a in m.acts {
      if m.acts[a].phase.Running? {
        assert Current(m, a) == Some(a) by { hide *; CurrentIsSelf(m, a); }
      }
      ActChanged(m, m', a);
      var x := m.acts[a];
      if step.Record? && x.phase.Running? && x.phase.taking.Some? {
        KeepsRecord(x, x.phase.taking.value);
      } else if step.DropLease? && Given(m, step).Some? {
        KeepsClear(x);
      } else if Gained(m, step).Some? {
        KeepsTake(x, Gained(m, step).value.1);
      }
    }
  }

  lemma PhaseSteps(m: Machine, step: Step)
    requires Inv(m) && (step.Enter? || step.TakeStack? || step.Install? || step.Finish? || step.ReleaseStack?)
    ensures Moves(m, Next(m, step), Gained(m, step), Given(m, step))
  {
    hide FlagsExact, HoldersUnique, StacksExact, PointersExact;
    ActChanged(m, Next(m, step), step.act);
  }

  lemma ControlSteps(m: Machine, step: Step)
    requires Inv(m) && (step.TryLease? || step.DropControl?)
    ensures Moves(m, Next(m, step), Gained(m, step), Given(m, step))
  {
    hide FlagsExact, HoldersUnique, StacksExact, PointersExact, Keeps, ActivationOk;
  }

  /** A step takes one free lease for its own actor, gives back one of its own actor's leases, or moves none. */
  lemma StepMoves(m: Machine, step: Step)
    requires Inv(m)
    ensures Moves(m, Next(m, step), Gained(m, step), Given(m, step))
    ensures Gained(m, step).Some? && Gained(m, step).value.0.Execution? ==>
              step.MapCall? && Gained(m, step).value.0.act == step.act
    ensures Given(m, step).Some? && Given(m, step).value.0.Execution? ==>
              step.DropLease? && Given(m, step).value.0.act == step.act
  {
    hide Inv, Moves, Next, Wanted;
    if step.TryLease? || step.DropControl? {
      ControlSteps(m, step);
    } else if step.MapCall? || step.Record? || step.DropLease? {
      LeaseSteps(m, step);
    } else {
      PhaseSteps(m, step);
    }
  }

  lemma MovesExact(m: Machine, m': Machine, gained: Option<(Holder, nat)>, given: Option<(Holder, nat)>)
    requires FlagsExact(m) && HoldersUnique(m) && Moves(m, m', gained, given)
    ensures FlagsExact(m') && HoldersUnique(m')
  {
    forall x | x in m'.flags
      ensures exists h :: Holds(m', h, x)
    {
      if gained.Some? && gained.value.1 == x {
        assert Holds(m', gained.value.0, x);
      } else {
        var h :| Holds(m, h, x);
        assert Holds(m', h, x);
      }
    }
  }

  // ------------------------------------------------------------------------ preservation

  lemma StepActivations(m: Machine, step: Step)
    requires Inv(m)
    ensures forall a :: a in Next(m, step).acts ==> ActivationOk(Next(m, step).acts[a])
  {
    hide FlagsExact, HoldersUnique, StacksExact, ProgramMap;
    if step.MapCall? && step.act in m.acts && m.acts[step.act].phase.Running? {
      CurrentIsSelf(m, step.act);
    }
    hide PointersExact, Current;
    var m' := Next(m, step);
    forall a | a in m'.acts
      ensures ActivationOk(m'.acts[a])
    {
      assert a in m.acts ==> ActivationOk(m.acts[a]);
    }
  }

  lemma StacksKept(m: Machine, m': Machine)
    requires StacksExact(m) && m'.inUse == m.inUse
    requires forall a, c :: OwnsStack(m', a, c) <==> OwnsStack(m, a, c)
    ensures StacksExact(m')
  {
  }

  lemma StackTaken(m: Machine, m': Machine, b: nat, d: nat)
    requires StacksExact(m) && d !in m.inUse && m'.inUse == m.inUse + {d}
    requires forall a, c :: OwnsStack(m', a, c) <==> OwnsStack(m, a, c) || (a == b && c == d)
    ensures StacksExact(m')
  {
    assert OwnsStack(m', b, d);
    forall c | c in m.inUse
      ensures exists a :: OwnsStack(m', a, c)
    {
      var a :| OwnsStack(m, a, c);
      assert OwnsStack(m', a, c);
    }
  }

  lemma StackFreed(m: Machine, m': Machine, b: nat, d: nat)
    requires StacksExact(m) && OwnsStack(m, b, d) && m'.inUse == m.inUse - {d}
    requires forall a, c :: OwnsStack(m', a, c) <==> OwnsStack(m, a, c) && !(a == b && c == d)
    ensures StacksExact(m')
  {
    forall c | c in m'.inUse
      ensures exists a :: OwnsStack(m', a, c)
    {
      var a :| OwnsStack(m, a, c);
      assert OwnsStack(m', a, c);
    }
  }

  lemma StepStacks(m: Machine, step: Step)
    requires Inv(m)
    ensures StacksExact(Next(m, step))
  {
    hide FlagsExact, HoldersUnique, StacksExact, ActivationOk, ProgramMap, Wanted;
    if step.MapCall? && step.act in m.acts && m.acts[step.act].phase.Running? {
      CurrentIsSelf(m, step.act);
    }
    hide PointersExact, Current;
    var m' := Next(m, step);
    if step.TakeStack? && At(m, step.act, Entered) && m.acts[step.act].cpu !in m.inUse {
      StackTaken(m, m', step.act, m.acts[step.act].cpu);
    } else if step.ReleaseStack? && step.act in m.acts
              && m.acts[step.act].phase == Dropping(|m.acts[step.act].leased|) {
      StackFreed(m, m', step.act, m.acts[step.act].cpu);
    } else {
      StacksKept(m, m');
    }
  }

  ghost predicate RunsOn(m: Machine, a: nat, cpu: nat) {
    a in m.acts && m.acts[a].cpu == cpu && m.acts[a].phase.Running?
  }

  /** `PointersExact`, said of who runs where. */
  lemma PointersMean(m: Machine)
    ensures PointersExact(m) <==>
              && (forall c :: c in m.pointer ==> RunsOn(m, m.pointer[c], c))
              && (forall a, c :: RunsOn(m, a, c) ==> c in m.pointer && m.pointer[c] == a)
  {
    if forall a, c :: RunsOn(m, a, c) ==> c in m.pointer && m.pointer[c] == a {
      forall a | a in m.acts && m.acts[a].phase.Running?
        ensures m.acts[a].cpu in m.pointer && m.pointer[m.acts[a].cpu] == a
      {
        assert RunsOn(m, a, m.acts[a].cpu);
      }
    }
  }

  /** Only installing and finishing change who runs where. */
  lemma RunsStep(m: Machine, step: Step)
    requires PointersExact(m)
    requires step.Install? && At(m, step.act, HasStack) ==> m.acts[step.act].cpu !in m.pointer
    ensures var m' := Next(m, step);
            if step.Install? && At(m, step.act, HasStack) then
              var d := m.acts[step.act].cpu;
              && m'.pointer == m.pointer[d := step.act]
              && forall a, c :: RunsOn(m', a, c) <==> RunsOn(m, a, c) || (a == step.act && c == d)
            else if step.Finish? && At(m, step.act, Running(None)) then
              var d := m.acts[step.act].cpu;
              && m'.pointer == m.pointer - {d}
              && forall a, c :: RunsOn(m', a, c) <==> RunsOn(m, a, c) && !(a == step.act && c == d)
            else m'.pointer == m.pointer && forall a, c :: RunsOn(m', a, c) <==> RunsOn(m, a, c)
  {
  }

  lemma StepPointers(m: Machine, step: Step)
    requires Inv(m)
    ensures PointersExact(Next(m, step))
  {
    hide FlagsExact, HoldersUnique, ActivationOk, StacksExact, PointersExact, Next;
    if step.Install? && At(m, step.act, HasStack) {
      PointerFree(m, step.act);
    }
    RunsStep(m, step);
    PointersMean(m);
    if step.Finish? && At(m, step.act, Running(None)) {
      assert RunsOn(m, step.act, m.acts[step.act].cpu);
    }
    var m' := Next(m, step);
    assert forall a, c :: RunsOn(m', a, c) ==> c in m'.pointer && m'.pointer[c] == a;
    assert forall c :: c in m'.pointer ==> RunsOn(m', m'.pointer[c], c);
    PointersMean(m');
  }

  lemma StepInv(m: Machine, step: Step)
    requires Inv(m)
    ensures Inv(Next(m, step))
  {
    hide FlagsExact, HoldersUnique, StacksExact, PointersExact, ActivationOk, Next;
    StepMoves(m, step);
    MovesExact(m, Next(m, step), Gained(m, step), Given(m, step));
    StepActivations(m, step);
    StepStacks(m, step);
    StepPointers(m, step);
  }

  // --------------------------------------------------------------------------- all runs

  lemma {:induction false} RunInv(steps: seq<Step>)
    ensures Inv(Run(START, steps))
  {
    hide Inv, Next;
    if steps == [] {
      StartInv();
    } else {
      RunInv(steps[..|steps| - 1]);
      StepInv(Run(START, steps[..|steps| - 1]), steps[|steps| - 1]);
    }
  }

  ghost predicate SoleHolder(m: Machine, h: Holder, x: nat) {
    Holds(m, h, x) && forall g :: Holds(m, g, x) ==> g == h
  }

  /** In every interleaving a map's flag is set exactly when exactly one holder exists. */
  lemma LeaseExclusive(steps: seq<Step>, x: nat)
    ensures var m := Run(START, steps);
            && (x in m.flags <==> exists h :: SoleHolder(m, h, x))
            && (x !in m.flags <==> forall h :: !Holds(m, h, x))
  {
    hide Run, Next, Holds, StacksExact, PointersExact;
    RunInv(steps);
    var m := Run(START, steps);
    if x in m.flags {
      var h :| Holds(m, h, x);
      assert SoleHolder(m, h, x);
    }
  }

  /**
   In every interleaving a CPU's execution pointer is set exactly while an activation runs there. That
   activation is alive, is the only one past the stack guard on the CPU, and a helper it calls reaches it.
   */
  lemma PointerAlive(steps: seq<Step>, cpu: nat)
    ensures var m := Run(START, steps);
            && (cpu in m.pointer <==> exists a :: a in m.acts && m.acts[a].cpu == cpu && m.acts[a].phase.Running?)
            && (cpu in m.pointer ==>
                  var a := m.pointer[cpu];
                  && a in m.acts && m.acts[a].cpu == cpu && m.acts[a].phase.Running? && cpu in m.inUse
                  && Current(m, a) == Some(a)
                  && forall b :: OwnsStack(m, b, cpu) ==> b == a)
  {
    hide Run, Next, Holds, FlagsExact, HoldersUnique;
    RunInv(steps);
    var m := Run(START, steps);
    if cpu in m.pointer {
      assert OwnsStack(m, m.pointer[cpu], cpu);
    }
  }

  /** A nested attempt is refused exactly when another activation on the CPU is past the stack guard. */
  lemma RefusedIff(steps: seq<Step>, a: nat)
    requires At(Run(START, steps), a, Entered)
    ensures var m := Run(START, steps);
            var c := m.acts[a].cpu;
            && (a !in Next(m, TakeStack(a)).acts <==> exists b :: OwnsStack(m, b, c))
            && (a in Next(m, TakeStack(a)).acts ==> At(Next(m, TakeStack(a)), a, HasStack))
  {
    hide Run, Holds, FlagsExact, HoldersUnique, PointersExact;
    RunInv(steps);
  }

  /** The execution pointer's compare-exchange never loses, so an activation that got the stack runs. */
  lemma InstallSucceeds(steps: seq<Step>, a: nat)
    requires At(Run(START, steps), a, HasStack)
    ensures At(Next(Run(START, steps), Install(a)), a, Running(None))
  {
    hide Run, Inv;
    RunInv(steps);
    PointerFree(Run(START, steps), a);
  }

  /** A lease is lost only by its holder's own drop: no step of another actor ends it. */
  lemma LeaseKept(steps: seq<Step>, step: Step, h: Holder, x: nat)
    requires Holds(Run(START, steps), h, x)
    requires h.Execution? ==> step != DropLease(h.act)
    requires h.Control? ==> step != DropControl(h.id)
    ensures SoleHolder(Run(START, steps + [step]), h, x)
  {
    hide Run, Holds, Inv, Next;
    RunInv(steps);
    RunInv(steps + [step]);
    var m := Run(START, steps);
    RunNext(steps, step);
    StepMoves(m, step);
    assert Holds(Next(m, step), h, x);
    InvUnique(Next(m, step));
  }

  lemma RunNext(steps: seq<Step>, step: Step)
    ensures Run(START, steps + [step]) == Next(Run(START, steps), step)
  {
    assert (steps + [step])[..|steps|] == steps;
  }

  lemma InvUnique(m: Machine)
    requires Inv(m)
    ensures HoldersUnique(m) && FlagsExact(m)
  {
  }

  /**
   An ending execution clears exactly the leases it took: each clearing step frees the flag of a lease
   it still holds and no other flag, and when it releases the stack it holds nothing.
   */
  lemma EndingClearsOwn(steps: seq<Step>, a: nat)
    requires a in Run(START, steps).acts && Run(START, steps).acts[a].phase.Dropping?
    ensures var m := Run(START, steps);
            var x, k := m.acts[a], m.acts[a].phase.cleared;
            && (k < |x.leased| ==>
                  && Holds(m, Execution(a), x.leased[k])
                  && Next(m, DropLease(a)).flags == m.flags - {x.leased[k]}
                  && !Holds(Next(m, DropLease(a)), Execution(a), x.leased[k]))
            && (k == |x.leased| ==>
                  && (forall y :: !Holds(m, Execution(a), y))
                  && Next(m, ReleaseStack(a)).flags == m.flags
                  && a !in Next(m, ReleaseStack(a)).acts)
            && k <= |x.leased|
  {
    hide Run, FlagsExact, HoldersUnique, StacksExact, PointersExact;
    RunInv(steps);
  }

  /** No lease leaks: with no activation past the stack guard and no control lease, every flag is clear. */
  lemma QuietMeansFree(steps: seq<Step>)
    requires var m := Run(START, steps);
             m.control == map[] && forall a :: a in m.acts ==> m.acts[a].phase.Entered?
    ensures Run(START, steps).flags == {} && Run(START, steps).inUse == {} && Run(START, steps).pointer == map[]
  {
    hide Run;
    RunInv(steps);
    var m := Run(START, steps);
    assert forall h, x: nat :: !Holds(m, h, x);
    assert forall a, c :: !OwnsStack(m, a, c);
  }

  /** What `BpfExecution::map` answers: the captured map when its rights suffice and the lease is or can be held. */
  lemma HelperAnswer(steps: seq<Step>, a: nat, handle: nat, required: Access)
    requires At(Run(START, steps), a, Running(None))
    ensures var m := Run(START, steps);
            var m' := Next(m, MapCall(a, handle, required));
            var x := ProgramMap(m.acts[a].program, handle, required);
            && (m' != m <==> x.Some? && x.value !in m.acts[a].leased
                             && |m.acts[a].leased| < MAX_EXECUTION_MAP_LEASES
                             && forall h :: !Holds(m, h, x.value))
            && (m' != m ==> SoleHolder(m', Execution(a), x.value))
  {
    hide Run, StacksExact, PointersExact, ProgramMap;
    RunInv(steps);
    var m := Run(START, steps);
    CurrentIsSelf(m, a);
    var m' := Next(m, MapCall(a, handle, required));
    StepInv(m, MapCall(a, handle, required));
    var x := ProgramMap(m.acts[a].program, handle, required);
    if m' != m {
      assert At(m', a, Running(x));
      assert Holds(m', Execution(a), x.value);
    }
  }
}
