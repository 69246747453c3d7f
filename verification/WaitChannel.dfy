/**
 The lock-free wait channel (kernel/src/mcore/mtask/scheduler/wait_channel.rs and wait_protocol.rs) as
 a step machine: one step per atomic access, sequentially consistent, with the generation as a
 natural. Agents are calls of `wake_all` and `park` in progress, in any number and interleaving.

 The production queue (kernel/crates/kernel_run_queue/src/queue.rs) publishes a task in two accesses, and
 while any enqueue stands between them a dequeue may answer that it found nothing. Which task a dequeue
 returns, and whether it misses, are answers of the queue.
 */
module WaitChannel {
  import opened Common

  /** Where a call stands: `drain_waiters`, or `park` of one task. `ParkLink` is inside the enqueue. */
  datatype Phase =
    | Request
    | Acquire
    | BeginPass
    | TakePass
    | ReleaseGate
    | Look
    | Reacquire
    | ParkCheck(task: nat)
    | ParkSwap(task: nat)
    | ParkLink(task: nat, observed: nat)
    | ParkRecheck(observed: nat)

  /**
   The generation, the drain gate's two flags, the parked tasks, the generation each registered task
   observed, and the calls in progress. A task leaves `observed` when it is woken.
   */
  datatype Channel = Channel(
    gen: nat, active: bool, requested: bool, queue: set<nat>, observed: map<nat, nat>, agents: map<nat, Phase>)

  const NEW_CHANNEL := Channel(0, false, false, {}, map[], map[])

  datatype Step =
    | Publish(agent: nat)
    | Subscribe(task: nat)
    | Abort(task: nat)
    | StartPark(agent: nat, task: nat)
    | Advance(agent: nat, taken: Option<nat>)

  predicate Parks(p: Phase, task: nat) {
    p == ParkCheck(task) || p == ParkSwap(task)
  }

  predicate BeingParked(c: Channel, task: nat) {
    exists a :: a in c.agents && Parks(c.agents[a], task)
  }

  predicate Links(c: Channel, a: nat, task: nat) {
    a in c.agents && c.agents[a].ParkLink? && c.agents[a].task == task
  }

  /** The task's enqueue stands between its two accesses. */
  ghost predicate Unlinked(c: Channel, task: nat) {
    exists a :: Links(c, a, task)
  }

  /** Some enqueue does. */
  ghost predicate Enqueuing(c: Channel) {
    exists t :: Unlinked(c, t)
  }

  /** What `try_take` may answer: a task whose enqueue is complete, or a miss when the queue is empty or one is not. */
  ghost predicate MayAnswer(c: Channel, taken: Option<nat>) {
    match taken
    case Some(t) => t in c.queue && !Unlinked(c, t)
    case None => c.queue == {} || Enqueuing(c)
  }

  function Go(c: Channel, a: nat, p: Phase): Channel {
    c.(agents := c.agents[a := p])
  }

  function Leave(c: Channel, a: nat): Channel {
    c.(agents := c.agents - {a})
  }

  function Wake(c: Channel, task: nat): Channel {
    c.(queue := c.queue - {task}, observed := c.observed - {task})
  }

  /** The next access of a call; `taken` is what a dequeue answers. */
  ghost function Move(c: Channel, a: nat, taken: Option<nat>): Channel
    requires a in c.agents
  {
    match c.agents[a]
    case Request => Go(c, a, Acquire).(requested := true)
    case Acquire => if c.active then Leave(c, a) else Go(c, a, BeginPass).(active := true)
    case BeginPass => Go(c, a, TakePass).(requested := false)
    case TakePass =>
      if !MayAnswer(c, taken) then c else if taken.None? then Go(c, a, ReleaseGate) else Wake(c, taken.value)
    case ReleaseGate => Go(c, a, Look).(active := false)
    case Look => if c.requested then Go(c, a, Reacquire) else Leave(c, a)
    case Reacquire => if c.active then Leave(c, a) else Go(c, a, BeginPass).(active := true)
    case ParkCheck(t) =>
      if t in c.observed && c.observed[t] == c.gen then Go(c, a, ParkSwap(t)) else Wake(Leave(c, a), t)
    case ParkSwap(t) =>
      if t in c.observed then Go(c, a, ParkLink(t, c.observed[t])).(queue := c.queue + {t}) else Leave(c, a)
    case ParkLink(t, o) => Go(c, a, ParkRecheck(o))
    case ParkRecheck(o) => if c.gen != o then Go(c, a, Request) else Leave(c, a)
  }

  /** One step; a step that is not enabled changes nothing. */
  ghost function Next(c: Channel, step: Step): Channel {
    match step
    case Publish(a) => if a in c.agents then c else Go(c, a, Request).(gen := c.gen + 1)
    case Subscribe(t) => if t in c.observed then c else c.(observed := c.observed[t := c.gen])
    case Abort(t) =>
      if t !in c.observed || t in c.queue || BeingParked(c, t) then c else c.(observed := c.observed - {t})
    case StartPark(a, t) =>
      if a in c.agents || t !in c.observed || t in c.queue || BeingParked(c, t) then c else Go(c, a, ParkCheck(t))
    case Advance(a, taken) => if a in c.agents then Move(c, a, taken) else c
  }

  // ------------------------------------------------------------------------- invariant

  predicate Owns(p: Phase) {
    p.BeginPass? || p.TakePass? || p.ReleaseGate?
  }

  /** Will read, or has yet to hand over, the request flag. */
  predicate Minds(p: Phase) {
    p.Acquire? || Owns(p) || p.Look? || p.Reacquire?
  }

  /** Will run a pass over the queue, or ask for one. */
  predicate WillDrain(c: Channel, p: Phase) {
    || p.Request? || p.BeginPass? || p.TakePass?
    || ((p.ParkLink? || p.ParkRecheck?) && p.observed != c.gen)
  }

  ghost predicate GateOk(c: Channel) {
    && (c.active ==> exists a :: a in c.agents && Owns(c.agents[a]))
    && (forall a :: a in c.agents && Owns(c.agents[a]) ==> c.active)
    && (forall a, b :: a in c.agents && b in c.agents && Owns(c.agents[a]) && Owns(c.agents[b]) ==> a == b)
  }

  ghost predicate RequestMinded(c: Channel) {
    c.requested ==> exists a :: a in c.agents && Minds(c.agents[a])
  }

  /** A parked task that missed a publication. */
  predicate Stale(c: Channel, t: nat) {
    t in c.queue && t in c.observed && c.observed[t] != c.gen
  }

  ghost predicate DrainComing(c: Channel) {
    c.requested || exists a :: a in c.agents && WillDrain(c, c.agents[a])
  }

  ghost predicate StaleMinded(c: Channel) {
    (exists t :: Stale(c, t)) ==> DrainComing(c)
  }

  ghost predicate ParksOk(c: Channel) {
    && (forall a, t :: a in c.agents && Parks(c.agents[a], t) ==> t in c.observed && t !in c.queue)
    && (forall a, b, t :: a in c.agents && b in c.agents && Parks(c.agents[a], t) && Parks(c.agents[b], t) ==> a == b)
  }

  ghost predicate LinksOk(c: Channel) {
    forall a, t :: Links(c, a, t) ==> t in c.queue && t in c.observed && c.observed[t] == c.agents[a].observed
  }

  ghost predicate TasksOk(c: Channel) {
    && c.queue <= c.observed.Keys
    && (forall t :: t in c.observed ==> c.observed[t] <= c.gen)
    && (forall a :: a in c.agents && c.agents[a].ParkRecheck? ==> c.agents[a].observed <= c.gen)
    && ParksOk(c) && LinksOk(c)
  }

  /** What holds in every run. */
  ghost predicate Inv(c: Channel) {
    GateOk(c) && RequestMinded(c) && TasksOk(c)
  }

  lemma NewInv()
    ensures Inv(NEW_CHANNEL)
  {
  }

  // ---------------------------------------------------------------------- preservation

  lemma MoveOther(c: Channel, a: nat, taken: Option<nat>, b: nat)
    requires a in c.agents && b != a
    ensures b in Move(c, a, taken).agents <==> b in c.agents
    ensures b in c.agents ==> Move(c, a, taken).agents[b] == c.agents[b]
  {
  }

  /** A call's own step leaves every other call where it is. */
  lemma MoveOthers(c: Channel, a: nat, taken: Option<nat>)
    requires a in c.agents
    ensures forall b :: b != a ==>
              && (b in Move(c, a, taken).agents <==> b in c.agents)
              && (b in c.agents ==> Move(c, a, taken).agents[b] == c.agents[b])
  {
    hide Move;
    forall b | b != a
      ensures b in Move(c, a, taken).agents <==> b in c.agents
      ensures b in c.agents ==> Move(c, a, taken).agents[b] == c.agents[b]
    {
      MoveOther(c, a, taken, b);
    }
  }

  ghost predicate IsOwner(c: Channel, a: nat) {
    a in c.agents && Owns(c.agents[a])
  }

  predicate Tries(p: Phase) {
    p.Acquire? || p.Reacquire?
  }

  /** How a call's step moves the gate. */
  lemma MoveGate(c: Channel, a: nat, taken: Option<nat>)
    requires a in c.agents
    ensures IsOwner(Move(c, a, taken), a) <==>
              (Owns(c.agents[a]) && !c.agents[a].ReleaseGate?) || (Tries(c.agents[a]) && !c.active)
    ensures Move(c, a, taken).active == (if c.agents[a].ReleaseGate? then false else c.active || Tries(c.agents[a]))
  {
  }

  /** The accesses that touch neither the queue nor a registration. */
  predicate Quiet(p: Phase) {
    !p.TakePass? && !p.ParkCheck? && !p.ParkSwap?
  }

  lemma MoveQuiet(c: Channel, a: nat, taken: Option<nat>)
    requires a in c.agents && Quiet(c.agents[a])
    ensures var c' := Move(c, a, taken);
            && c'.queue == c.queue && c'.observed == c.observed && c'.gen == c.gen
            && (a in c'.agents ==> !c'.agents[a].ParkCheck? && !c'.agents[a].ParkSwap? && !c'.agents[a].ParkLink?)
            && (a in c'.agents && c'.agents[a].ParkRecheck? ==>
                  c.agents[a].ParkLink? && c'.agents[a].observed == c.agents[a].observed)
  {
  }

  lemma MoveBounds(c: Channel, a: nat, taken: Option<nat>)
    requires TasksOk(c) && a in c.agents
    ensures var c' := Move(c, a, taken);
            && c'.queue <= c'.observed.Keys && c'.observed.Keys <= c.observed.Keys && c'.gen == c.gen
            && (forall t :: t in c'.observed ==> c'.observed[t] == c.observed[t])
            && (a in c'.agents && c'.agents[a].ParkRecheck? ==> c'.agents[a].observed <= c.gen)
  {
    var p := c.agents[a];
    assert p.ParkLink? ==> Links(c, a, p.task) && p.observed <= c.gen;
    hide MayAnswer, ParksOk, LinksOk;
    if Quiet(p) {
      hide Move;
      MoveQuiet(c, a, taken);
    } else {
      MayTake(c, taken);
    }
  }

  lemma MayTake(c: Channel, taken: Option<nat>)
    ensures MayAnswer(c, taken) && taken.Some? ==> taken.value in c.queue && !Unlinked(c, taken.value)
    ensures MayAnswer(c, None) <==> c.queue == {} || Enqueuing(c)
  {
  }

  lemma MoveTasks(c: Channel, a: nat, taken: Option<nat>)
    requires TasksOk(c) && a in c.agents
    ensures TasksOk(Move(c, a, taken))
  {
    hide Move;
    var c' := Move(c, a, taken);
    MoveOthers(c, a, taken);
    MoveBounds(c, a, taken);
    MoveParks(c, a, taken);
    MoveLinks(c, a, taken);
    forall b, t | b in c'.agents && Parks(c'.agents[b], t)
      ensures t in c'.observed && t !in c'.queue
    {
      assert b in c.agents && Parks(c.agents[b], t);
    }
    forall b, t | Links(c', b, t)
      ensures t in c'.queue && t in c'.observed && c'.observed[t] == c'.agents[b].observed
    {
      if b != a {
        assert Links(c, b, t);
      }
    }
  }

  /** A step starts parking no new task, and what it wakes or queues nobody else parks. */
  lemma MoveParks(c: Channel, a: nat, taken: Option<nat>)
    requires TasksOk(c) && a in c.agents
    ensures forall t :: a in Move(c, a, taken).agents && Parks(Move(c, a, taken).agents[a], t) ==> Parks(c.agents[a], t)
    ensures forall t :: t in c.observed && t !in Move(c, a, taken).observed ==> t in c.queue || Parks(c.agents[a], t)
    ensures forall t :: t in Move(c, a, taken).queue && t !in c.queue ==> Parks(c.agents[a], t)
    ensures forall t :: a in Move(c, a, taken).agents && Parks(Move(c, a, taken).agents[a], t) ==>
              t in Move(c, a, taken).observed && t !in Move(c, a, taken).queue
  {
    hide MayAnswer, LinksOk;
    var p := c.agents[a];
    if Quiet(p) {
      hide Move;
      MoveQuiet(c, a, taken);
    } else {
      MayTake(c, taken);
      assert !p.TakePass? ==> Parks(p, p.task);
    }
  }

  /** A step keeps every task that another call is enqueuing, and a new enqueue is of a registered task. */
  lemma MoveLinks(c: Channel, a: nat, taken: Option<nat>)
    requires TasksOk(c) && a in c.agents
    ensures forall b, t :: b != a && Links(c, b, t) ==> t in Move(c, a, taken).queue && t in Move(c, a, taken).observed
    ensures forall t :: Links(Move(c, a, taken), a, t) ==>
              && t in Move(c, a, taken).queue && t in Move(c, a, taken).observed
              && Move(c, a, taken).observed[t] == Move(c, a, taken).agents[a].observed
  {
    var p := c.agents[a];
    if Quiet(p) {
      hide Move;
      MoveQuiet(c, a, taken);
    } else {
      assert !p.TakePass? ==> Parks(p, p.task);
      forall b, t | b != a && Links(c, b, t)
        ensures t in Move(c, a, taken).queue && t in Move(c, a, taken).observed
      {
        assert Unlinked(c, t);
        assert t in c.queue && t in c.observed;
        hide TasksOk;
      }
    }
  }

  lemma StartTasks(c: Channel, a: nat, t: nat)
    requires TasksOk(c)
    ensures TasksOk(Next(c, StartPark(a, t)))
  {
    var c' := Next(c, StartPark(a, t));
    if c' != c {
      assert forall b, x :: Links(c', b, x) ==> Links(c, b, x);
      assert forall b :: b in c.agents ==> !Parks(c.agents[b], t);
    }
  }

  lemma AbortTasks(c: Channel, t: nat)
    requires TasksOk(c)
    ensures TasksOk(Next(c, Abort(t)))
  {
    var c' := Next(c, Abort(t));
    assert forall b, x :: Links(c', b, x) ==> Links(c, b, x);
  }

  lemma PublishTasks(c: Channel, a: nat)
    requires TasksOk(c)
    ensures TasksOk(Next(c, Publish(a)))
  {
    var c' := Next(c, Publish(a));
    assert forall b, x :: Links(c', b, x) ==> Links(c, b, x);
  }

  lemma SubscribeTasks(c: Channel, t: nat)
    requires TasksOk(c)
    ensures TasksOk(Next(c, Subscribe(t)))
  {
    var c' := Next(c, Subscribe(t));
    assert forall b, x :: Links(c', b, x) ==> Links(c, b, x);
  }

  lemma StepTasks(c: Channel, step: Step)
    requires TasksOk(c)
    ensures TasksOk(Next(c, step))
  {
    hide Move, TasksOk;
    match step
    case Publish(a) => PublishTasks(c, a);
    case Subscribe(t) => SubscribeTasks(c, t);
    case Abort(t) => AbortTasks(c, t);
    case StartPark(a, t) => StartTasks(c, a, t);
    case Advance(a, taken) =>
      if a in c.agents {
        MoveTasks(c, a, taken);
      }
  }

  lemma StepGate(c: Channel, step: Step)
    requires GateOk(c)
    ensures GateOk(Next(c, step))
  {
    hide Move, BeingParked;
    var c' := Next(c, step);
    if step.Advance? && step.agent in c.agents {
      var a := step.agent;
      MoveOthers(c, a, step.taken);
      MoveGate(c, a, step.taken);
      assert forall b :: b != a ==> (IsOwner(c', b) <==> IsOwner(c, b));
      OwnersExact(c, c', a);
    } else {
      assert forall b :: IsOwner(c', b) <==> IsOwner(c, b);
      OwnersExact(c, c', 0);
    }
  }

  lemma OwnersExact(c: Channel, c': Channel, a: nat)
    requires GateOk(c) && forall b :: b != a ==> (IsOwner(c', b) <==> IsOwner(c, b))
    requires IsOwner(c, a) ==> IsOwner(c', a) == c'.active
    requires !IsOwner(c, a) ==> IsOwner(c', a) == (c'.active && !c.active) && (c.active ==> c'.active)
    ensures GateOk(c')
  {
    if c'.active {
      if c.active {
        var b :| b in c.agents && Owns(c.agents[b]);
        assert IsOwner(c, b) && IsOwner(c', b);
      } else {
        assert IsOwner(c', a) || IsOwner(c, a);
      }
    }
    forall b | b in c'.agents && Owns(c'.agents[b])
      ensures c'.active
    {
      assert IsOwner(c', b);
      assert b != a ==> IsOwner(c, b);
    }
    forall b, d | b in c'.agents && d in c'.agents && Owns(c'.agents[b]) && Owns(c'.agents[d])
      ensures b == d
    {
      assert IsOwner(c', b) && IsOwner(c', d);
      assert b != a ==> IsOwner(c, b);
      assert d != a ==> IsOwner(c, d);
    }
  }

  ghost predicate IsMinder(c: Channel, a: nat) {
    a in c.agents && Minds(c.agents[a])
  }

  /** A call that minds the request flag goes on minding it, unless it saw the flag clear or another pass running. */
  lemma MoveMinds(c: Channel, a: nat, taken: Option<nat>)
    requires a in c.agents
    ensures Move(c, a, taken).requested && !c.requested ==> IsMinder(Move(c, a, taken), a)
    ensures c.requested && Minds(c.agents[a]) && !IsMinder(Move(c, a, taken), a) ==> c.active && !Owns(c.agents[a])
  {
  }

  lemma StepRequest(c: Channel, step: Step)
    requires GateOk(c) && RequestMinded(c)
    ensures RequestMinded(Next(c, step))
  {
    hide Move, BeingParked;
    var c' := Next(c, step);
    if c'.requested {
      if step.Advance? && step.agent in c.agents {
        var a := step.agent;
        MoveOthers(c, a, step.taken);
        MoveMinds(c, a, step.taken);
        if !IsMinder(c', a) {
          var b :| b in c.agents && Minds(c.agents[b]);
          if b == a {
            var d :| d in c.agents && Owns(c.agents[d]);
            assert IsMinder(c', d);
          } else {
            assert IsMinder(c', b);
          }
        }
      } else {
        var b :| b in c.agents && Minds(c.agents[b]);
        assert IsMinder(c', b);
      }
    }
  }

  ghost predicate IsDrainer(c: Channel, a: nat) {
    a in c.agents && WillDrain(c, c.agents[a])
  }

  /** The step is a pass that ends on a miss. */
  ghost predicate EndsOnMiss(c: Channel, step: Step) {
    step.Advance? && step.agent in c.agents && c.agents[step.agent].TakePass? && step.taken.None? && Enqueuing(c)
  }

  /**
   A step that leaves a stale task behind leaves somebody who will drain, or the request flag set, unless it ends a
   pass on a miss.
   */
  lemma MoveDrains(c: Channel, a: nat, taken: Option<nat>, t: nat)
    requires a in c.agents && TasksOk(c) && Stale(Move(c, a, taken), t)
    ensures Stale(c, t) || IsDrainer(Move(c, a, taken), a)
    ensures c.requested || WillDrain(c, c.agents[a]) ==>
              || Move(c, a, taken).requested || IsDrainer(Move(c, a, taken), a)
              || EndsOnMiss(c, Advance(a, taken))
    ensures Move(c, a, taken).gen == c.gen
    ensures EndsOnMiss(c, Advance(a, taken)) ==> Move(c, a, taken) == Go(c, a, ReleaseGate)
  {
    hide Unlinked, LinksOk;
  }

  /**
   The step ends a pass on a miss while a stale task is parked, and nobody else will drain: each enqueue in progress
   is of a task that registered after the last publication.
   */
  ghost predicate LosesWake(c: Channel, step: Step) {
    && EndsOnMiss(c, step) && (exists t :: Stale(c, t)) && !c.requested
    && forall b :: b != step.agent ==> !IsDrainer(c, b)
  }

  /** Some enqueue in progress is of a task that registered after the last publication. */
  ghost predicate FreshEnqueue(c: Channel) {
    exists a, t :: Links(c, a, t) && c.agents[a].observed == c.gen
  }

  lemma LosesByFresh(c: Channel, step: Step)
    requires LosesWake(c, step)
    ensures FreshEnqueue(c)
  {
    var t :| Unlinked(c, t);
    var a :| Links(c, a, t);
    assert !IsDrainer(c, a);
  }

  /** Stale tasks go on being minded, exactly unless the step ends a pass on such a miss. */
  lemma StepStaleIff(c: Channel, step: Step)
    requires TasksOk(c) && StaleMinded(c)
    ensures StaleMinded(Next(c, step)) <==> !LosesWake(c, step)
  {
    hide Move, BeingParked, EndsOnMiss;
    var c' := Next(c, step);
    if step.Advance? && step.agent in c.agents {
      AdvanceStale(c, step.agent, step.taken);
    } else {
      NoMiss(c, step);
      if t :| Stale(c', t) {
        if step.Publish? && step.agent !in c.agents {
          assert IsDrainer(c', step.agent);
        } else {
          assert Stale(c, t);
          if !c'.requested {
            var b :| b in c.agents && WillDrain(c, c.agents[b]);
            assert IsDrainer(c', b);
          }
        }
      }
    }
  }

  lemma NoMiss(c: Channel, step: Step)
    requires !(step.Advance? && step.agent in c.agents)
    ensures !EndsOnMiss(c, step)
  {
  }

  lemma SomeDrainer(c: Channel)
    requires DrainComing(c) && !c.requested
    ensures exists b :: IsDrainer(c, b)
  {
    var a :| a in c.agents && WillDrain(c, c.agents[a]);
    assert IsDrainer(c, a);
  }

  lemma AdvanceStale(c: Channel, a: nat, taken: Option<nat>)
    requires TasksOk(c) && StaleMinded(c) && a in c.agents
    ensures StaleMinded(Move(c, a, taken)) <==> !LosesWake(c, Advance(a, taken))
  {
    hide Move, EndsOnMiss, TasksOk;
    var c' := Move(c, a, taken);
    MoveOthers(c, a, taken);
    if LosesWake(c, Advance(a, taken)) {
      LosingStep(c, a, taken);
    } else if t :| Stale(c', t) {
      MoveDrains(c, a, taken, t);
      if !c'.requested && !IsDrainer(c', a) {
        assert Stale(c, t);
        if !c.requested {
          SomeDrainer(c);
        }
        var b :| IsDrainer(c, b) && (EndsOnMiss(c, Advance(a, taken)) ==> b != a);
        assert IsDrainer(c', b);
      }
    }
  }

  lemma LosingStep(c: Channel, a: nat, taken: Option<nat>)
    requires a in c.agents && LosesWake(c, Advance(a, taken))
    ensures !StaleMinded(Move(c, a, taken))
  {
    var t :| Stale(c, t);
    var c' := Move(c, a, taken);
    assert c.queue != {};
    assert c' == Go(c, a, ReleaseGate);
    assert Stale(c', t);
    forall b | b in c'.agents
      ensures !WillDrain(c', c'.agents[b])
    {
      assert b != a ==> !IsDrainer(c, b);
    }
  }

  lemma StepInv(c: Channel, step: Step)
    requires Inv(c)
    ensures Inv(Next(c, step))
  {
    hide GateOk, RequestMinded, TasksOk, Next;
    StepTasks(c, step);
    StepGate(c, step);
    StepRequest(c, step);
  }

  // ---------------------------------------------------------------- who may register when

  /** The task missed a publication and is parked, or will be: its park is past the first check. */
  ghost predicate Exposed(c: Channel, t: nat) {
    && t in c.observed && c.observed[t] != c.gen
    && (t in c.queue || exists a :: a in c.agents && c.agents[a] == ParkSwap(t))
  }

  ghost predicate AnyExposed(c: Channel) {
    exists t :: Exposed(c, t)
  }

  /** While a task is exposed, no registered task is up to date. */
  ghost predicate Exclusive(c: Channel) {
    AnyExposed(c) ==> forall x :: x in c.observed ==> c.observed[x] != c.gen
  }

  /** A caller registers only while no task is exposed. */
  ghost predicate Allowed(c: Channel, step: Step) {
    step.Subscribe? && step.task !in c.observed ==> !AnyExposed(c)
  }

  /** A call's own step exposes no task. */
  lemma MoveExposes(c: Channel, a: nat, taken: Option<nat>, t: nat)
    requires TasksOk(c) && a in c.agents && Exposed(Move(c, a, taken), t)
    ensures Exposed(c, t)
  {
    hide Move;
    var c' := Move(c, a, taken);
    MoveOthers(c, a, taken);
    MoveBounds(c, a, taken);
    MoveParks(c, a, taken);
    MoveSwaps(c, a, taken, t);
    if t !in c'.queue {
      var b :| b in c'.agents && c'.agents[b] == ParkSwap(t);
      assert b != a ==> b in c.agents && c.agents[b] == ParkSwap(t);
    }
  }

  lemma MoveSwaps(c: Channel, a: nat, taken: Option<nat>, t: nat)
    requires TasksOk(c) && a in c.agents
    ensures var c' := Move(c, a, taken);
            && (t in c'.queue && t !in c.queue ==> c.agents[a] == ParkSwap(t))
            && (a in c'.agents && c'.agents[a] == ParkSwap(t) ==> t in c.observed && c.observed[t] == c.gen)
  {
    hide MayAnswer, TasksOk;
    if Quiet(c.agents[a]) {
      hide Move;
      MoveQuiet(c, a, taken);
    }
  }

  lemma StepExclusive(c: Channel, step: Step)
    requires TasksOk(c) && Exclusive(c) && Allowed(c, step)
    ensures Exclusive(Next(c, step))
  {
    hide Move, BeingParked;
    var c' := Next(c, step);
    if t :| Exposed(c', t) {
      if step.Advance? && step.agent in c.agents {
        MoveBounds(c, step.agent, step.taken);
        MoveExposes(c, step.agent, step.taken, t);
      } else if !(step.Publish? && step.agent !in c.agents) {
        assert Exposed(c, t);
      }
    }
  }

  /** Then no pass ever loses a wake. */
  lemma ExclusiveKeeps(c: Channel, step: Step)
    requires TasksOk(c) && Exclusive(c)
    ensures !LosesWake(c, step)
  {
    if LosesWake(c, step) {
      LosesByFresh(c, step);
      var a, u :| Links(c, a, u) && c.agents[a].observed == c.gen;
      var t :| Stale(c, t);
      assert Exposed(c, t);
      assert false;
    }
  }

  // --------------------------------------------------------------------------- all runs

  ghost function Run(c: Channel, steps: seq<Step>): Channel {
    if steps == [] then c else Next(Run(c, steps[..|steps| - 1]), steps[|steps| - 1])
  }

  lemma {:induction false} RunKeepsInv(c: Channel, steps: seq<Step>)
    requires Inv(c)
    ensures Inv(Run(c, steps))
  {
    hide Inv, Next;
    if steps != [] {
      RunKeepsInv(c, steps[..|steps| - 1]);
      StepInv(Run(c, steps[..|steps| - 1]), steps[|steps| - 1]);
    }
  }

  lemma RunInv(steps: seq<Step>)
    ensures Inv(Run(NEW_CHANNEL, steps))
  {
    hide Inv, Run;
    NewInv();
    RunKeepsInv(NEW_CHANNEL, steps);
  }

  /** Every registration of the run is made while no task is exposed. */
  ghost predicate Disciplined(steps: seq<Step>) {
    steps != [] ==>
      Disciplined(steps[..|steps| - 1]) && Allowed(Run(NEW_CHANNEL, steps[..|steps| - 1]), steps[|steps| - 1])
  }

  lemma {:induction false} DisciplinedRun(steps: seq<Step>)
    requires Disciplined(steps)
    ensures Exclusive(Run(NEW_CHANNEL, steps)) && StaleMinded(Run(NEW_CHANNEL, steps))
  {
    hide Inv, Next, Exclusive, StaleMinded, Allowed;
    if steps == [] {
      NewExclusive();
    } else {
      var prev, step := Run(NEW_CHANNEL, steps[..|steps| - 1]), steps[|steps| - 1];
      DisciplinedRun(steps[..|steps| - 1]);
      RunInv(steps[..|steps| - 1]);
      InvTasks(prev);
      StepExclusive(prev, step);
      ExclusiveKeeps(prev, step);
      StepStaleIff(prev, step);
    }
  }

  lemma NewExclusive()
    ensures Exclusive(NEW_CHANNEL) && StaleMinded(NEW_CHANNEL)
  {
  }

  lemma InvTasks(c: Channel)
    requires Inv(c)
    ensures TasksOk(c)
  {
  }

  /**
   No wake-up is lost when tasks register only while no other task is exposed: in every such interleaving, when a
   parked task has missed a publication, some call will drain the queue or ask for it, or the request flag is set and
   some call has still to act on it.
   */
  lemma NoLostWake(steps: seq<Step>, t: nat)
    requires Disciplined(steps) && Stale(Run(NEW_CHANNEL, steps), t)
    ensures var c := Run(NEW_CHANNEL, steps);
            || (exists a :: a in c.agents && WillDrain(c, c.agents[a]))
            || (c.requested && exists a :: a in c.agents && Minds(c.agents[a]))
  {
    hide Run, Disciplined, Exclusive, TasksOk, GateOk;
    RunInv(steps);
    DisciplinedRun(steps);
    assert DrainComing(Run(NEW_CHANNEL, steps));
  }

  /** With no call in progress, nobody parked has then missed a publication. */
  lemma QuietMeansCurrent(steps: seq<Step>, t: nat)
    requires Disciplined(steps)
    requires Run(NEW_CHANNEL, steps).agents == map[] && t in Run(NEW_CHANNEL, steps).queue
    ensures var c := Run(NEW_CHANNEL, steps); t in c.observed && c.observed[t] == c.gen
  {
    hide Run, Disciplined;
    RunInv(steps);
    var c := Run(NEW_CHANNEL, steps);
    if Stale(c, t) {
      NoLostWake(steps, t);
    }
  }

  /**
   In every interleaving one pass runs at a time, a pass ends only when the queue is empty or an enqueue is in
   progress, and no call ever waits for another.
   */
  lemma PassComplete(steps: seq<Step>, a: nat, taken: Option<nat>)
    requires a in Run(NEW_CHANNEL, steps).agents
    ensures var c := Run(NEW_CHANNEL, steps);
            var c' := Move(c, a, taken);
            && (c.agents[a].TakePass? && a in c'.agents && c'.agents[a].ReleaseGate? ==> c.queue == {} || Enqueuing(c))
            && (Owns(c.agents[a]) ==> c.active && forall b :: b in c.agents && Owns(c.agents[b]) ==> b == a)
            && (c' == c ==> c.agents[a].TakePass? && !MayAnswer(c, taken))
  {
    hide Run, Enqueuing, Unlinked;
    RunInv(steps);
    var c := Run(NEW_CHANNEL, steps);
    if c.agents[a].TakePass? && MayAnswer(c, taken) && taken.Some? {
      assert taken.value in c.queue && taken.value !in Move(c, a, taken).queue;
    }
  }

  /** A task that subscribed before a publication is not parked past it: the check wakes it, or the re-check drains. */
  lemma ParkAfterPublish(steps: seq<Step>, a: nat, taken: Option<nat>)
    requires var c := Run(NEW_CHANNEL, steps); a in c.agents && c.agents[a].ParkCheck?
    ensures var c := Run(NEW_CHANNEL, steps);
            var t := c.agents[a].task;
            var c' := Move(c, a, taken);
            && t in c.observed && t !in c.queue
            && (c.observed[t] != c.gen <==> t !in c'.observed)
            && (c.observed[t] == c.gen ==> c'.agents[a] == ParkSwap(t))
  {
    hide Run;
    RunInv(steps);
    var c := Run(NEW_CHANNEL, steps);
    assert Parks(c.agents[a], c.agents[a].task);
  }
}
