/** Activations begin, end and give everything back: what a run of one activation, or of a control lease, leaves. */
module LeaseProgress {
  import opened Common
  import opened BpfState
  import opened MapLease

  lemma {:induction false} RunConcat(m: Machine, xs: seq<Step>, ys: seq<Step>)
    ensures Run(m, xs + ys) == Run(Run(m, xs), ys)
  {
    hide Next;
    if ys == [] {
      assert xs + ys == xs;
    } else {
      var last := |ys| - 1;
      RunConcat(m, xs, ys[..last]);
      assert (xs + ys)[..|xs| + last] == xs + ys[..last];
    }
  }

  lemma RunFirst(m: Machine, step: Step, rest: seq<Step>)
    ensures Run(m, [step] + rest) == Run(Next(m, step), rest)
  {
    hide Next;
    RunConcat(m, [step], rest);
    assert [step][..0] == [];
    assert Run(m, []) == m;
  }

  /** A step of the activation itself, other than entering or asking for a map. */
  predicate Winds(step: Step, a: nat) {
    step in {TakeStack(a), Install(a), Record(a), Finish(a), DropLease(a), ReleaseStack(a)}
  }

  /** What an activation does next to get to its end. */
  function Onward(x: Activation, a: nat): (step: Step)
    ensures Winds(step, a)
  {
    match x.phase
    case Entered => TakeStack(a)
    case HasStack => Install(a)
    case Running(taking) => if taking.Some? then Record(a) else Finish(a)
    case Dropping(k) => if k < |x.leased| then DropLease(a) else ReleaseStack(a)
  }

  function Stage(x: Activation): nat {
    match x.phase
    case Entered => 4
    case HasStack => 3
    case Running(taking) => if taking.Some? then 2 else 1
    case Dropping(_) => 0
  }

  function Uncleared(x: Activation): nat {
    if x.phase.Dropping? && x.phase.cleared <= |x.leased| then |x.leased| - x.phase.cleared else 0
  }

  /** Everything the activation had is given back, and nothing of anybody else's moved. */
  ghost predicate Ended(m: Machine, r: Machine, a: nat) {
    && r.acts == m.acts - {a} && r.control == m.control
    && (forall y :: y in r.flags <==> y in m.flags && !Holds(m, Execution(a), y))
    && (forall c :: c in r.inUse <==> c in m.inUse && !OwnsStack(m, a, c))
    && (forall c :: c in r.pointer <==> c in m.pointer && m.pointer[c] != a)
    && (forall c :: c in r.pointer ==> r.pointer[c] == m.pointer[c])
  }

  lemma GoneEnded(m: Machine, a: nat)
    requires Inv(m) && a !in m.acts
    ensures Ended(m, m, a)
  {
    hide FlagsExact, HoldersUnique, ActivationOk;
    assert forall c :: c in m.pointer ==> m.pointer[c] in m.acts;
  }

  /** Giving back after one more step is giving back before it. */
  ghost predicate Toward(m: Machine, m': Machine, a: nat) {
    && m'.acts - {a} == m.acts - {a} && m'.control == m.control
    && (forall y :: y in m'.flags && !Holds(m', Execution(a), y) <==> y in m.flags && !Holds(m, Execution(a), y))
    && (forall c :: c in m'.inUse && !OwnsStack(m', a, c) <==> c in m.inUse && !OwnsStack(m, a, c))
    && (forall c :: c in m'.pointer && m'.pointer[c] != a <==> c in m.pointer && m.pointer[c] != a)
    && (forall c :: c in m'.pointer && c in m.pointer && m.pointer[c] != a ==> m'.pointer[c] == m.pointer[c])
  }

  lemma TowardEnded(m: Machine, m': Machine, r: Machine, a: nat)
    requires Toward(m, m', a) && Ended(m', r, a)
    ensures Ended(m, r, a)
  {
    hide Holds, OwnsStack;
  }

  lemma StackSteps(m: Machine, a: nat)
    requires Inv(m) && a in m.acts && (m.acts[a].phase.Entered? || m.acts[a].phase.HasStack?)
    ensures Toward(m, Next(m, Onward(m.acts[a], a)), a)
  {
    assert ActivationOk(m.acts[a]);
    if m.acts[a].phase.HasStack? {
      PointerFree(m, a);
    }
    hide FlagsExact, HoldersUnique, StacksExact, PointersExact;
  }

  lemma RunningSteps(m: Machine, a: nat)
    requires Inv(m) && a in m.acts && m.acts[a].phase.Running?
    ensures Toward(m, Next(m, Onward(m.acts[a], a)), a)
  {
    var x := m.acts[a];
    assert PointersExact(m);
    assert forall c :: c in m.pointer && c != x.cpu ==> m.pointer[c] != a;
    if x.phase.taking.Some? {
      KeepsRecord(x, x.phase.taking.value);
    } else {
      assert forall y: nat :: Keeps(x.(phase := Dropping(0)), y) <==> Keeps(x, y);
    }
    hide FlagsExact, HoldersUnique, StacksExact, PointersExact, ActivationOk, Keeps;
  }

  lemma DroppingSteps(m: Machine, a: nat)
    requires Inv(m) && a in m.acts && m.acts[a].phase.Dropping?
    ensures Toward(m, Next(m, Onward(m.acts[a], a)), a)
  {
    var x := m.acts[a];
    assert ActivationOk(x);
    if x.phase.cleared < |x.leased| {
      KeepsClear(x);
      hide FlagsExact, HoldersUnique, StacksExact, PointersExact, ActivationOk, Keeps;
    } else {
      assert forall y: nat :: !Keeps(x, y);
      assert forall c :: c in m.pointer ==> m.pointer[c] != a;
      hide FlagsExact, HoldersUnique, StacksExact, PointersExact, ActivationOk, Keeps;
    }
  }

  lemma StageFalls(m: Machine, a: nat)
    requires Inv(m) && a in m.acts
    ensures var m' := Next(m, Onward(m.acts[a], a));
            a in m'.acts ==>
              || Stage(m'.acts[a]) < Stage(m.acts[a])
              || (Stage(m'.acts[a]) == Stage(m.acts[a]) && Uncleared(m'.acts[a]) < Uncleared(m.acts[a]))
  {
    assert ActivationOk(m.acts[a]);
    if m.acts[a].phase.HasStack? {
      PointerFree(m, a);
    }
    hide FlagsExact, HoldersUnique, StacksExact, PointersExact;
  }

  /** An activation can always bring itself to its end by its own steps, and then everything it had is free. */
  lemma {:induction false} CanEnd(m: Machine, a: nat) returns (more: seq<Step>)
    requires Inv(m)
    ensures (forall i :: 0 <= i < |more| ==> Winds(more[i], a)) && Ended(m, Run(m, more), a)
    decreases if a in m.acts then Stage(m.acts[a]) + 1 else 0, if a in m.acts then Uncleared(m.acts[a]) else 0
  {
    hide Inv, Ended, Toward, Winds, Run;
    if a !in m.acts {
      more := [];
      RunNothing(m);
      GoneEnded(m, a);
    } else {
      var step := Onward(m.acts[a], a);
      StepInv(m, step);
      StageFalls(m, a);
      if m.acts[a].phase.Dropping? {
        DroppingSteps(m, a);
      } else if m.acts[a].phase.Running? {
        RunningSteps(m, a);
      } else {
        StackSteps(m, a);
      }
      hide Next;
      var rest := CanEnd(Next(m, step), a);
      more := [step] + rest;
      RunFirst(m, step, rest);
      TowardEnded(m, Next(m, step), Run(m, more), a);
    }
  }

  lemma RunNothing(m: Machine)
    ensures Run(m, []) == m
  {
  }

  /** In every reachable state every activation can end, and its leases, its stack and the pointer are then free. */
  lemma ActivationEnds(steps: seq<Step>, a: nat) returns (more: seq<Step>)
    ensures (forall i :: 0 <= i < |more| ==> Winds(more[i], a))
    ensures Ended(Run(START, steps), Run(START, steps + more), a)
  {
    hide Inv, Ended, Winds, Run;
    RunInv(steps);
    more := CanEnd(Run(START, steps), a);
    RunConcat(START, steps, more);
  }

  /** On a CPU whose stack nobody has, entering, taking the stack and installing make the program run there. */
  lemma ActivationRuns(steps: seq<Step>, a: nat, cpu: nat, program: ProgramRuntime)
    requires var m := Run(START, steps); a !in m.acts && forall b :: !OwnsStack(m, b, cpu)
    ensures var m, m' := Run(START, steps), Run(START, steps + [Enter(a, cpu, program), TakeStack(a), Install(a)]);
            && m'.acts == m.acts[a := Activation(cpu, program, Running(None), [])]
            && m'.pointer == m.pointer[cpu := a] && m'.inUse == m.inUse + {cpu}
            && m'.flags == m.flags && m'.control == m.control
  {
    hide Run;
    var m := Run(START, steps);
    RunInv(steps);
    assert cpu !in m.inUse && cpu !in m.pointer;
    hide Inv;
    RunConcat(START, steps, [Enter(a, cpu, program), TakeStack(a), Install(a)]);
    RunThree(m, Enter(a, cpu, program), TakeStack(a), Install(a));
    assert Run(START, steps + [Enter(a, cpu, program), TakeStack(a), Install(a)]) ==
           Next(Next(Next(m, Enter(a, cpu, program)), TakeStack(a)), Install(a));
  }

  lemma RunThree(m: Machine, x: Step, y: Step, z: Step)
    ensures Run(m, [x, y, z]) == Next(Next(Next(m, x), y), z)
  {
    hide Next, Run;
    assert [x, y, z] == [x] + ([y] + ([z] + []));
    RunFirst(m, x, [y] + ([z] + []));
    RunFirst(Next(m, x), y, [z] + []);
    RunFirst(Next(Next(m, x), y), z, []);
    RunNothing(Next(Next(Next(m, x), y), z));
  }

  /** A control lease is won exactly when nobody holds the map, and its drop frees that map and no other. */
  lemma ControlLease(steps: seq<Step>, c: nat, x: nat)
    ensures var m := Run(START, steps);
            var t, d := Run(START, steps + [TryLease(c, x)]), Run(START, steps + [DropControl(c)]);
            && (c !in m.control ==> (Holds(t, Control(c), x) <==> forall h :: !Holds(m, h, x)))
            && (forall h, y :: h != Control(c) ==> (Holds(t, h, y) <==> Holds(m, h, y)))
            && (forall y :: !Holds(d, Control(c), y))
            && (forall y :: y in d.flags <==> y in m.flags && !Holds(m, Control(c), y))
            && (forall h, y :: h != Control(c) ==> (Holds(d, h, y) <==> Holds(m, h, y)))
  {
    hide Run;
    RunNext(steps, TryLease(c, x));
    RunNext(steps, DropControl(c));
    RunInv(steps);
    InvUnique(Run(START, steps));
    hide Inv, HoldersUnique, Keeps;
  }
}
