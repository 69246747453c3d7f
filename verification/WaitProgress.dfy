/**
 Progress of the wait channel (kernel/src/mcore/mtask/scheduler/wait_channel.rs): calls in progress end, and a wake is
 lost exactly when a task may register beside an exposed one.
 */
module WaitProgress {
  import opened Common
  import opened WaitChannel

  lemma {:induction false} RunConcat(c: Channel, xs: seq<Step>, ys: seq<Step>)
    ensures Run(c, xs + ys) == Run(Run(c, xs), ys)
  {
    hide Next;
    if ys == [] {
      assert xs + ys == xs;
    } else {
      var last := |ys| - 1;
      RunConcat(c, xs, ys[..last]);
      assert (xs + ys)[..|xs| + last] == xs + ys[..last];
    }
  }

  lemma RunNone(c: Channel)
    ensures Run(c, []) == c
  {
  }

  lemma RunOne(c: Channel, step: Step)
    ensures Run(c, [step]) == Next(c, step)
  {
    hide Next;
    assert [step][..0] == [];
    assert Run(c, []) == c;
  }

  lemma RunFirst(c: Channel, step: Step, rest: seq<Step>)
    ensures Run(c, [step] + rest) == Run(Next(c, step), rest)
  {
    hide Run, Next;
    RunConcat(c, [step], rest);
    RunOne(c, step);
  }

  // --------------------------------------------------------------------------- whole calls

  /** A park up to the middle of its enqueue. */
  function HalfPark(a: nat, t: nat): seq<Step> {
    [StartPark(a, t), Advance(a, None), Advance(a, None)]
  }

  /** The rest of a park whose re-check sees no change. */
  function RestOfPark(a: nat): seq<Step> {
    [Advance(a, None), Advance(a, None)]
  }

  /** A drain whose one pass finds nothing. */
  function VainDrain(a: nat): seq<Step> {
    [Advance(a, None), Advance(a, None), Advance(a, None), Advance(a, None), Advance(a, None), Advance(a, None)]
  }

  lemma RunTwo(c: Channel, first: Step, second: Step)
    ensures Run(c, [first, second]) == Next(Next(c, first), second)
  {
    hide Run, Next;
    assert [first, second] == [first] + [second];
    RunFirst(c, first, [second]);
    RunOne(Next(c, first), second);
  }

  lemma HalfParkRun(c: Channel, a: nat, t: nat)
    requires a !in c.agents && t in c.observed && c.observed[t] == c.gen && t !in c.queue && !BeingParked(c, t)
    ensures Run(c, HalfPark(a, t)) == Go(c, a, ParkLink(t, c.gen)).(queue := c.queue + {t})
  {
    hide Run;
    var c1 := Next(c, StartPark(a, t));
    RunFirst(c, StartPark(a, t), RestOfPark(a));
    assert HalfPark(a, t) == [StartPark(a, t)] + RestOfPark(a);
    RunTwo(c1, Advance(a, None), Advance(a, None));
    assert Next(c1, Advance(a, None)) == Go(c, a, ParkSwap(t));
  }

  lemma RestOfParkRun(c: Channel, a: nat)
    requires a in c.agents && c.agents[a].ParkLink? && c.agents[a].observed == c.gen
    ensures Run(c, RestOfPark(a)) == Leave(c, a)
  {
    hide Run;
    RunTwo(c, Advance(a, None), Advance(a, None));
    assert Next(c, Advance(a, None)) == Go(c, a, ParkRecheck(c.gen));
  }

  lemma VainDrainRun(c: Channel, a: nat)
    requires a in c.agents && c.agents[a].Request? && !c.active && MayAnswer(c, None)
    ensures Run(c, VainDrain(a)) == Leave(c, a).(requested := false)
  {
    hide Run;
    var c2 := Go(c, a, BeginPass).(requested := true, active := true);
    var c4 := Go(c, a, ReleaseGate).(requested := false, active := true);
    VainDrainStart(c, a);
    VainDrainPass(c, a);
    RunTwo(c, Advance(a, None), Advance(a, None));
    RunTwo(c2, Advance(a, None), Advance(a, None));
    RunTwo(c4, Advance(a, None), Advance(a, None));
    assert Next(c4, Advance(a, None)) == Go(c, a, Look).(requested := false, active := false);
    assert Leave(Go(c, a, Look), a) == Leave(c, a);
    RunConcat(c, RestOfPark(a), RestOfPark(a));
    RunConcat(c, RestOfPark(a) + RestOfPark(a), RestOfPark(a));
    assert RestOfPark(a) + RestOfPark(a) + RestOfPark(a) == VainDrain(a);
  }

  lemma VainDrainStart(c: Channel, a: nat)
    requires a in c.agents && c.agents[a].Request? && !c.active
    ensures Next(Next(c, Advance(a, None)), Advance(a, None)) ==
              Go(c, a, BeginPass).(requested := true, active := true)
  {
    assert Next(c, Advance(a, None)) == Go(c, a, Acquire).(requested := true);
  }

  lemma VainDrainPass(c: Channel, a: nat)
    requires a in c.agents && c.agents[a].Request? && !c.active && MayAnswer(c, None)
    ensures var c2 := Go(c, a, BeginPass).(requested := true, active := true);
            Next(Next(c2, Advance(a, None)), Advance(a, None)) ==
              Go(c, a, ReleaseGate).(requested := false, active := true)
  {
    var c2 := Go(c, a, BeginPass).(requested := true, active := true);
    var c3 := Go(c, a, TakePass).(requested := false, active := true);
    assert Next(c2, Advance(a, None)) == c3;
    if Enqueuing(c) {
      var t :| Unlinked(c, t);
      var b :| Links(c, b, t);
      assert Links(c3, b, t);
      assert Unlinked(c3, t);
    }
  }

  // ------------------------------------------------------------------------------ measure

  /** The call may still raise the request flag. */
  predicate MayRequest(p: Phase) {
    p.Request? || p.ParkCheck? || p.ParkSwap? || p.ParkLink? || p.ParkRecheck?
  }

  /** Accesses left to a call that meets no new request; a set flag is cleared at the start of a pass. */
  function Weight(requested: bool, p: Phase): nat {
    match p
    case ParkCheck(_) => 20
    case ParkSwap(_) => 19
    case ParkLink(_, _) => 16
    case ParkRecheck(_) => 15
    case Request => 14
    case Acquire => 13
    case Reacquire => if requested then 9 else 12
    case BeginPass => if requested then 8 else 11
    case TakePass => if requested then 12 else 10
    case ReleaseGate => if requested then 11 else 9
    case Look => if requested then 10 else 8
  }

  ghost function Requesters(c: Channel): set<nat> {
    set a | a in c.agents && MayRequest(c.agents[a])
  }

  ghost function Weights(c: Channel): map<nat, nat> {
    map a | a in c.agents :: Weight(c.requested, c.agents[a])
  }

  ghost function Load(c: Channel): nat {
    SumMap(Weights(c)) + |c.queue|
  }

  function Flag(c: Channel): nat {
    if c.requested then 1 else 0
  }

  /** Fewer calls that may ask, or as many and the flag went down, or else less left to do. */
  ghost predicate Closer(c': Channel, c: Channel) {
    || |Requesters(c')| < |Requesters(c)|
    || (|Requesters(c')| == |Requesters(c)| && Flag(c') < Flag(c))
    || (|Requesters(c')| == |Requesters(c)| && Flag(c') == Flag(c) && Load(c') < Load(c))
  }

  lemma RequestersStep(c: Channel, c': Channel, a: nat)
    requires a in c.agents && c'.agents - {a} == c.agents - {a}
    ensures var more := if a in c'.agents && MayRequest(c'.agents[a]) then 1 else 0;
            var less := if MayRequest(c.agents[a]) then 1 else 0;
            |Requesters(c')| == |Requesters(c)| + more - less
  {
    forall b | b != a
      ensures b in Requesters(c') <==> b in Requesters(c)
    {
      assert b in c'.agents <==> b in c'.agents - {a};
      assert b in c.agents <==> b in c.agents - {a};
    }
    assert Requesters(c') - {a} == Requesters(c) - {a};
    SizeWithout(Requesters(c'), a);
    SizeWithout(Requesters(c), a);
  }

  lemma SizeWithout(s: set<nat>, a: nat)
    ensures |s| == |s - {a}| + (if a in s then 1 else 0)
  {
    assert a !in s ==> s - {a} == s;
  }

  lemma WeightsStep(c: Channel, c': Channel, a: nat)
    requires a in c.agents && c'.agents - {a} == c.agents - {a} && c'.requested == c.requested
    ensures var more := if a in c'.agents then Weight(c.requested, c'.agents[a]) else 0;
            SumMap(Weights(c')) == SumMap(Weights(c)) + more - Weight(c.requested, c.agents[a])
  {
    forall b | b != a
      ensures b in Weights(c') <==> b in Weights(c)
      ensures b in Weights(c) ==> Weights(c')[b] == Weights(c)[b]
    {
      assert b in c'.agents <==> b in c'.agents - {a};
      assert b in c.agents <==> b in c.agents - {a};
      assert b in c.agents ==> (c'.agents - {a})[b] == (c.agents - {a})[b];
    }
    assert Weights(c') - {a} == Weights(c) - {a};
    SumMapRemove(Weights(c), a);
    if a in c'.agents {
      SumMapRemove(Weights(c'), a);
    } else {
      assert Weights(c') - {a} == Weights(c');
    }
  }

  lemma MoveAgents(c: Channel, a: nat, taken: Option<nat>)
    requires a in c.agents
    ensures Move(c, a, taken).agents - {a} == c.agents - {a}
  {
    hide Move;
    MoveOthers(c, a, taken);
  }

  /** Every access of a call brings it closer to its end, whatever the queue answers and the other calls have done. */
  lemma AdvanceCloser(c: Channel, a: nat, taken: Option<nat>)
    requires TasksOk(c) && a in c.agents && (c.agents[a].TakePass? ==> MayAnswer(c, taken))
    ensures Closer(Move(c, a, taken), c)
  {
    hide Requesters, Load, Weights, TasksOk;
    MoveAgents(c, a, taken);
    RequestersStep(c, Move(c, a, taken), a);
    if Move(c, a, taken).requested == c.requested {
      LoadStep(c, a, taken);
    }
    hide MayAnswer;
  }

  /** The weight a call has after its access, zero when it ended. */
  ghost function WeightAfter(c: Channel, a: nat, taken: Option<nat>): nat
    requires a in c.agents
  {
    var c' := Move(c, a, taken);
    if a in c'.agents then Weight(c.requested, c'.agents[a]) else 0
  }

  lemma WeightFalls(c: Channel, a: nat, taken: Option<nat>)
    requires a in c.agents && Move(c, a, taken).requested == c.requested
    ensures c.agents[a].TakePass? && taken.Some? ==> WeightAfter(c, a, taken) == Weight(c.requested, c.agents[a])
    ensures !(c.agents[a].TakePass? && taken.Some?) && (c.agents[a].TakePass? ==> MayAnswer(c, taken)) ==>
              WeightAfter(c, a, taken) + (if c.agents[a].ParkSwap? then 1 else 0) < Weight(c.requested, c.agents[a])
  {
    hide MayAnswer;
  }

  lemma LoadStep(c: Channel, a: nat, taken: Option<nat>)
    requires TasksOk(c) && a in c.agents && (c.agents[a].TakePass? ==> MayAnswer(c, taken))
    requires Move(c, a, taken).requested == c.requested
    ensures Load(Move(c, a, taken)) < Load(c)
  {
    hide Weights, Move, Weight, TasksOk, MayAnswer;
    MoveAgents(c, a, taken);
    WeightsStep(c, Move(c, a, taken), a);
    WeightFalls(c, a, taken);
    QueueStep(c, a, taken);
  }

  lemma QueueStep(c: Channel, a: nat, taken: Option<nat>)
    requires TasksOk(c) && a in c.agents && (c.agents[a].TakePass? ==> MayAnswer(c, taken))
    ensures var c' := Move(c, a, taken);
            && |c'.queue| <= |c.queue| + (if c.agents[a].ParkSwap? then 1 else 0)
            && (c.agents[a].TakePass? && taken.Some? ==> |c'.queue| < |c.queue|)
  {
    var p := c.agents[a];
    if Quiet(p) {
      hide Move;
      MoveQuiet(c, a, taken);
    } else if p.TakePass? {
      if taken.Some? {
        SizeWithout(c.queue, taken.value);
      }
    } else {
      assert Parks(p, p.task);
      SizeWithout(c.queue, p.task);
    }
  }

  // ------------------------------------------------------------------------- calls end

  ghost predicate OnlyAdvances(steps: seq<Step>) {
    forall i :: 0 <= i < |steps| ==> steps[i].Advance?
  }

  /** The queue always has an answer to give. */
  lemma SomeAnswer(c: Channel) returns (taken: Option<nat>)
    ensures MayAnswer(c, taken)
  {
    if c.queue == {} || Enqueuing(c) {
      taken := None;
    } else {
      var t :| t in c.queue;
      assert !Unlinked(c, t);
      taken := Some(t);
    }
  }

  /** From every reachable state, when no further call starts, the calls in progress all end. */
  lemma {:induction false} CallsEnd(c: Channel) returns (more: seq<Step>)
    requires Inv(c)
    ensures OnlyAdvances(more) && Run(c, more).agents == map[]
    decreases |Requesters(c)|, Flag(c), Load(c)
  {
    hide Inv, Run, Move, Requesters, Load;
    if c.agents == map[] {
      more := [];
      RunNone(c);
    } else {
      var a :| a in c.agents;
      var taken := SomeAnswer(c);
      var step := Advance(a, taken);
      InvTasks(c);
      AdvanceCloser(c, a, taken);
      StepInv(c, step);
      var rest := CallsEnd(Next(c, step));
      more := [step] + rest;
      RunFirst(c, step, rest);
    }
  }

  // --------------------------------------------------------------------- how a wake is lost

  /** Somebody parked has missed a publication and no call is left to drain. */
  ghost predicate Lost(c: Channel) {
    c.agents == map[] && !c.requested && exists t :: Stale(c, t)
  }

  /** Nothing is published and nobody registers. */
  ghost predicate Calm(steps: seq<Step>) {
    forall i :: 0 <= i < |steps| ==> !steps[i].Publish? && !steps[i].Subscribe?
  }

  /** While an enqueue is in progress, an access that finds nothing leaves every parked task parked. */
  lemma MissKeeps(c: Channel, a: nat, t: nat)
    requires TasksOk(c) && a in c.agents && Stale(c, t)
    ensures Stale(Move(c, a, None), t)
  {
    var p := c.agents[a];
    if Quiet(p) {
      hide Move;
      MoveQuiet(c, a, None);
    } else {
      assert p.ParkCheck? ==> Parks(p, p.task);
      hide MayAnswer;
    }
  }

  /** One more access that finds nothing, while an enqueue is in progress. */
  lemma OneMisses(c: Channel, keep: nat, u: nat, t: nat, a: nat)
    requires Inv(c) && Links(c, keep, u) && Stale(c, t) && a in c.agents && a != keep
    ensures var c' := Move(c, a, None);
            && Closer(c', c) && c'.gen == c.gen && Stale(c', t)
            && Links(c', keep, u) && c'.agents[keep] == c.agents[keep]
  {
    hide Inv, Move, Closer, Stale;
    InvTasks(c);
    assert Unlinked(c, u);
    assert MayAnswer(c, None);
    AdvanceCloser(c, a, None);
    MoveOthers(c, a, None);
    MoveBounds(c, a, None);
    MissKeeps(c, a, t);
  }

  /** All calls but one can end while that one stands inside its enqueue, and take nothing from the queue. */
  lemma {:induction false} OthersMiss(c: Channel, keep: nat, u: nat, t: nat) returns (more: seq<Step>)
    requires Inv(c) && Links(c, keep, u) && Stale(c, t)
    ensures OnlyAdvances(more)
    ensures var r := Run(c, more);
            Inv(r) && r.agents == map[keep := c.agents[keep]] && Stale(r, t) && r.gen == c.gen
    decreases |Requesters(c)|, Flag(c), Load(c)
  {
    hide Inv, Run, Move, Requesters, Load, Stale;
    if c.agents.Keys == {keep} {
      more := [];
      RunNone(c);
      assert c.agents == map[keep := c.agents[keep]];
    } else {
      var a := Another(c, keep);
      var step := Advance(a, None);
      OneMisses(c, keep, u, t, a);
      StepInv(c, step);
      var rest := OthersMiss(Next(c, step), keep, u, t);
      more := [step] + rest;
      RunFirst(c, step, rest);
    }
  }

  lemma Another(c: Channel, keep: nat) returns (a: nat)
    requires keep in c.agents && c.agents.Keys != {keep}
    ensures a in c.agents && a != keep
  {
    a :| a in c.agents && a != keep;
  }

  /** The hiding task's own enqueue and re-check end last, and nobody is left. */
  lemma LastLeaves(c: Channel, keep: nat, u: nat, t: nat)
    requires Inv(c) && c.agents == map[keep := ParkLink(u, c.gen)] && Stale(c, t)
    ensures Lost(Run(c, RestOfPark(keep)))
  {
    hide Run;
    RestOfParkRun(c, keep);
    assert !c.requested;
    assert Stale(Leave(c, keep), t);
  }

  /** A stale task is parked, and another task registered since: the wake can be lost. */
  lemma StaleCanBeLost(c: Channel, u: nat, t: nat) returns (more: seq<Step>)
    requires Inv(c) && Stale(c, t) && u in c.observed && c.observed[u] == c.gen && u !in c.queue && !BeingParked(c, u)
    ensures Calm(more) && Lost(Run(c, more))
  {
    hide Run, Inv;
    InvTasks(c);
    var a := Above(c.agents.Keys);
    HalfParkRun(c, a, u);
    RunKeepsInv(c, HalfPark(a, u));
    var c1 := Run(c, HalfPark(a, u));
    assert Links(c1, a, u) && Stale(c1, t);
    var rest := OthersMiss(c1, a, u, t);
    LastLeaves(Run(c1, rest), a, u, t);
    more := HalfPark(a, u) + (rest + RestOfPark(a));
    RunConcat(c, HalfPark(a, u), rest + RestOfPark(a));
    RunConcat(c1, rest, RestOfPark(a));
  }

  /** An exposed task that is not parked yet can be parked first. */
  lemma ExposedParks(c: Channel, t: nat) returns (first: seq<Step>)
    requires Inv(c) && Exposed(c, t)
    ensures Calm(first) && OnlyAdvances(first)
    ensures var r := Run(c, first);
            && Inv(r) && Stale(r, t) && r.gen == c.gen && r.observed == c.observed
            && (forall x :: x in r.queue ==> x in c.queue || x == t)
            && (forall x :: BeingParked(r, x) ==> BeingParked(c, x))
  {
    hide Inv, Run;
    if t in c.queue {
      first := [];
      RunNone(c);
    } else {
      var a :| a in c.agents && c.agents[a] == ParkSwap(t);
      var step := Advance(a, None);
      first := [step];
      StepInv(c, step);
      RunOne(c, step);
      assert Next(c, step) == Go(c, a, ParkLink(t, c.observed[t])).(queue := c.queue + {t});
      hide Next, Move;
      forall x | BeingParked(Next(c, step), x)
        ensures BeingParked(c, x)
      {
        var b :| b in Next(c, step).agents && Parks(Next(c, step).agents[b], x);
        assert b in c.agents && Parks(c.agents[b], x);
      }
    }
  }

  /**
   The discipline is needed: after any run, if a task registers while another is exposed, the run can go on without a
   further publication until no call is in progress and a parked task has missed a publication for good.
   */
  lemma WakeCanBeLost(steps: seq<Step>, u: nat) returns (more: seq<Step>)
    requires AnyExposed(Run(NEW_CHANNEL, steps)) && u !in Run(NEW_CHANNEL, steps).observed
    ensures Calm(more) && Lost(Run(NEW_CHANNEL, steps + [Subscribe(u)] + more))
  {
    hide Run, Inv, Exposed;
    RunInv(steps);
    var c := Run(NEW_CHANNEL, steps);
    var c1 := Next(c, Subscribe(u));
    StepInv(c, Subscribe(u));
    var t := StillExposed(c, u);
    var first := ExposedParks(c1, t);
    var c2 := Run(c1, first);
    NotYet(c, c1, u);
    var rest := StaleCanBeLost(c2, u, t);
    more := first + rest;
    RunConcat(NEW_CHANNEL, steps, [Subscribe(u)]);
    RunOne(c, Subscribe(u));
    RunConcat(NEW_CHANNEL, steps + [Subscribe(u)], more);
    RunConcat(c1, first, rest);
  }

  lemma {:induction false} CalmDisciplined(steps: seq<Step>, more: seq<Step>)
    requires Disciplined(steps) && Calm(more)
    ensures Disciplined(steps + more)
  {
    hide Run;
    if more == [] {
      assert steps + more == steps;
    } else {
      var last := |more| - 1;
      CalmDisciplined(steps, more[..last]);
      assert (steps + more)[..|steps| + last] == steps + more[..last];
    }
  }

  /** A run that kept to the discipline loses no wake. */
  lemma NotLost(steps: seq<Step>)
    requires Disciplined(steps)
    ensures !Lost(Run(NEW_CHANNEL, steps))
  {
    hide Run, Disciplined;
    forall t | Stale(Run(NEW_CHANNEL, steps), t)
      ensures Run(NEW_CHANNEL, steps).agents != map[]
    {
      NoLostWake(steps, t);
    }
  }

  /**
   Exactly when a registration can cost a wake. After a run that kept to the discipline, let a task register. The wake
   of some task can then be lost, with no further publication or registration, if and only if a task was exposed.
   */
  lemma LostExactlyWhenExposed(steps: seq<Step>, u: nat)
    requires Disciplined(steps) && u !in Run(NEW_CHANNEL, steps).observed
    ensures AnyExposed(Run(NEW_CHANNEL, steps)) <==>
              exists more :: Calm(more) && Lost(Run(NEW_CHANNEL, steps + [Subscribe(u)] + more))
  {
    if AnyExposed(Run(NEW_CHANNEL, steps)) {
      var more := WakeCanBeLost(steps, u);
    } else {
      assert (steps + [Subscribe(u)])[..|steps|] == steps;
      assert Disciplined(steps + [Subscribe(u)]);
      hide Run, Disciplined, Lost;
      forall more | Calm(more)
        ensures !Lost(Run(NEW_CHANNEL, steps + [Subscribe(u)] + more))
      {
        CalmDisciplined(steps + [Subscribe(u)], more);
        NotLost(steps + [Subscribe(u)] + more);
      }
    }
  }

  lemma StillExposed(c: Channel, u: nat) returns (t: nat)
    requires AnyExposed(c) && u !in c.observed
    ensures t != u && Exposed(Next(c, Subscribe(u)), t)
  {
    t :| Exposed(c, t);
  }

  lemma NotYet(c: Channel, c1: Channel, u: nat)
    requires Inv(c) && u !in c.observed && c1 == Next(c, Subscribe(u))
    ensures u in c1.observed && c1.observed[u] == c1.gen && u !in c1.queue && !BeingParked(c1, u)
  {
  }

  // ------------------------------------------------------------------------ a lost wake

  /** Task 1 parks; then a publication comes and task 2 registers. */
  const FIRST_PARKED := [Subscribe(1)] + HalfPark(10, 1) + RestOfPark(10)
  const SECOND_REGISTERED := [Publish(20), Subscribe(2)]

  /** Task 2 stands inside its enqueue while the publisher drains. */
  const LOST_RUN := FIRST_PARKED + SECOND_REGISTERED + HalfPark(30, 2) + VainDrain(20) + RestOfPark(30)

  lemma FirstParked()
    ensures Run(NEW_CHANNEL, FIRST_PARKED) == Channel(0, false, false, {1}, map[1 := 0], map[])
  {
    hide Run;
    var c1 := Channel(0, false, false, {}, map[1 := 0], map[]);
    assert Next(NEW_CHANNEL, Subscribe(1)) == c1;
    RunOne(NEW_CHANNEL, Subscribe(1));
    HalfParkRun(c1, 10, 1);
    var c2 := Go(c1, 10, ParkLink(1, 0)).(queue := c1.queue + {1});
    RestOfParkRun(c2, 10);
    RunConcat(NEW_CHANNEL, [Subscribe(1)], HalfPark(10, 1));
    RunConcat(NEW_CHANNEL, [Subscribe(1)] + HalfPark(10, 1), RestOfPark(10));
    assert Leave(c2, 10) == Channel(0, false, false, {1}, map[1 := 0], map[]);
  }

  lemma SecondRegistered()
    ensures Run(NEW_CHANNEL, FIRST_PARKED + SECOND_REGISTERED) ==
              Channel(1, false, false, {1}, map[1 := 0, 2 := 1], map[20 := Request])
  {
    hide Run;
    FirstParked();
    var c := Channel(0, false, false, {1}, map[1 := 0], map[]);
    RunConcat(NEW_CHANNEL, FIRST_PARKED, SECOND_REGISTERED);
    RunTwo(c, Publish(20), Subscribe(2));
    assert Next(c, Publish(20)) == Channel(1, false, false, {1}, map[1 := 0], map[20 := Request]);
  }

  /**
   A lost wake. Task 1 is parked; a publication comes; task 2 registers after it and stands inside its enqueue while
   the publisher's whole drain finds nothing; task 2 sees no change and leaves. Nobody is left to wake task 1.
   */
  lemma WakeLost()
    ensures Lost(Run(NEW_CHANNEL, LOST_RUN)) && Stale(Run(NEW_CHANNEL, LOST_RUN), 1)
  {
    hide Run;
    SecondRegistered();
    var c1 := Channel(1, false, false, {1}, map[1 := 0, 2 := 1], map[20 := Request]);
    var c2 := Go(c1, 30, ParkLink(2, 1)).(queue := c1.queue + {2});
    var c3 := Leave(c2, 20).(requested := false);
    HalfParkRun(c1, 30, 2);
    assert Links(c2, 30, 2) && Unlinked(c2, 2);
    VainDrainRun(c2, 20);
    RestOfParkRun(c3, 30);
    var start := FIRST_PARKED + SECOND_REGISTERED;
    RunConcat(NEW_CHANNEL, start, HalfPark(30, 2));
    RunConcat(NEW_CHANNEL, start + HalfPark(30, 2), VainDrain(20));
    RunConcat(NEW_CHANNEL, start + HalfPark(30, 2) + VainDrain(20), RestOfPark(30));
    assert Leave(c3, 30).agents == map[];
    assert Stale(Leave(c3, 30), 1);
  }
}
