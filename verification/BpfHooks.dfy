/** What attaching and detaching do: when each succeeds, and what the hooks, the budget and the snapshot are then. */
module BpfHooks {
  import opened Common
  import opened Handles
  import opened Admission
  import opened GpioRoutes
  import opened BpfState
  import opened BpfInvariants
  import opened BpfPreservation
  import opened BpfTheorems

  // ---------------------------------------------------------------------------- admission

  lemma TimesCapped(a: nat, b: nat, c: nat)
    ensures Min(Min(a * b, U64_MAX) * c, U64_MAX) == Min(a * b * c, U64_MAX)
  {
    if a * b > U64_MAX && c > 0 {
      assert U64_MAX * c >= U64_MAX;
      assert a * b * c >= U64_MAX * c;
    }
  }

  /** What a program costs on a hook: its worst-case cycles, in the ledger's unit, times how often hooks fire. */
  function Cost(s: State, prog: nat): nat
    requires Live(s.programs, prog)
  {
    Min(Entry(s.programs, prog).wcet * s.ledger.cycleUnit * s.config.hookFrequency, U64_MAX)
  }

  lemma CostIsContribution(s: State, prog: nat)
    requires Live(s.programs, prog)
    ensures Contribution(s.ledger, Entry(s.programs, prog).wcet, s.config.hookFrequency) == Cost(s, prog)
  {
    TimesCapped(Entry(s.programs, prog).wcet, s.ledger.cycleUnit, s.config.hookFrequency);
  }

  lemma AdmitExact(l: Ledger, hook: nat, prog: nat, wcet: nat, freq: nat)
    requires Balanced(l) && SafeProfile(l.budget, freq) && (hook, prog) !in l.per
    ensures var cost := Contribution(l, wcet, freq);
            && (Admit(l, hook, prog, wcet, freq).Some? <==> l.committed + cost <= l.budget)
            && (Admit(l, hook, prog, wcet, freq).Some? ==>
                  Admit(l, hook, prog, wcet, freq).value ==
                    l.(committed := l.committed + cost, per := l.per[(hook, prog) := cost]))
  {
    if Admit(l, hook, prog, wcet, freq).Some? {
      AdmitFits(l, hook, prog, wcet, freq);
    }
  }

  /** The hook has room for the program and the budget covers it. */
  ghost predicate Admissible(s: State, hook: nat, prog: nat, list: bool)
    requires Live(s.programs, prog)
  {
    && |Attached(s.attachments, hook)| < HOOK_FANOUT_LIMIT && list
    && s.ledger.committed + Cost(s, prog) <= s.ledger.budget
  }

  /** The program is on the hook, charged for it, and nothing else moved. */
  ghost predicate Hooked(s: State, s': State, hook: nat, prog: nat) {
    && Live(s.programs, prog)
    && (if prog in Attached(s.attachments, hook) then
          s'.attachments == s.attachments && s'.ledger == s.ledger
        else
          && s'.attachments == s.attachments[hook := Attached(s.attachments, hook) + [prog]]
          && s'.ledger.per == s.ledger.per[(hook, prog) := Cost(s, prog)]
          && s'.ledger.committed == s.ledger.committed + Cost(s, prog)
          && s'.ledger == s.ledger.(per := s'.ledger.per, committed := s'.ledger.committed))
    && s' == s.(attachments := s'.attachments, ledger := s'.ledger, routes := s'.routes, published := s'.published)
  }

  lemma CommitExact(s: State, hook: nat, prog: nat, memory: bool)
    requires Inv(s) && Supported(hook) && Live(s.programs, prog)
    requires prog !in Attached(s.attachments, hook) && |Attached(s.attachments, hook)| < HOOK_FANOUT_LIMIT
    ensures var c := CommitAttach(s, hook, prog, memory);
            && (c.reply == Done <==> Admissible(s, hook, prog, memory))
            && (c.reply == Done || c.reply.Failed?)
            && (c.reply == Done ==> Hooked(s, c.state, hook, prog) && c.state.routes == s.routes)
  {
    InvLedgerParts(s, hook, prog);
    hide Inv;
    CostIsContribution(s, prog);
    AdmitExact(s.ledger, hook, prog, Entry(s.programs, prog).wcet, s.config.hookFrequency);
    hide Admit, Contribution, Cost;
  }

  lemma InvLedgerParts(s: State, hook: nat, prog: nat)
    requires Inv(s)
    ensures Balanced(s.ledger) && SafeProfile(s.ledger.budget, s.config.hookFrequency)
    ensures (hook, prog) in s.ledger.per <==> prog in Attached(s.attachments, hook)
  {
    hide TablesOk, CapturesResolve, PinsResolve, HooksOk, ProgramCounts, MapCounts, Balanced;
  }

  // ------------------------------------------------------------------------------- attach

  /** The caller owns the loaded program and the verifier accepts it for a supported hook. */
  ghost predicate MayAttach(s: State, owner: nat, hook: nat, prog: nat, accepted: bool) {
    && Live(s.programs, prog) && Entry(s.programs, prog).owner == owner
    && hook in {ATTACH_TIMER, ATTACH_GPIO, ATTACH_IIO, ATTACH_SYS_ENTER, ATTACH_SYS_EXIT, ATTACH_SCHED_SWITCH}
    && accepted
  }

  lemma MayAttachExact(s: State, owner: nat, hook: nat, prog: nat, accepted: bool)
    ensures OwnerError(s, owner, prog).None? && AttachError(s, hook, prog, accepted).None? <==>
              && MayAttach(s, owner, hook, prog, accepted)
              && (prog in Attached(s.attachments, hook) || |Attached(s.attachments, hook)| < HOOK_FANOUT_LIMIT)
  {
  }

  /** An attachment succeeds exactly when the caller may make it, and it is there already or fits and has memory. */
  lemma AttachSucceedsIff(s: State, owner: nat, hook: nat, prog: nat, accepted: bool, memory: AttachMemory)
    requires Inv(s)
    ensures AttachFor(s, owner, hook, prog, accepted, memory).reply == Done <==>
              && MayAttach(s, owner, hook, prog, accepted)
              && (prog in Attached(s.attachments, hook)
                  || (memory.snapshot && Admissible(s, hook, prog, memory.list)))
  {
    MayAttachExact(s, owner, hook, prog, accepted);
    if MayAttach(s, owner, hook, prog, accepted) && prog !in Attached(s.attachments, hook)
       && |Attached(s.attachments, hook)| < HOOK_FANOUT_LIMIT {
      CommitExact(s, hook, prog, memory.list);
    }
    hide Inv, CommitAttach, Cost, Project;
  }

  /** The program's runtime is in the published list of the hook. */
  lemma AttachedPublished(s: State, hook: nat, prog: nat)
    requires Inv(s) && hook < GENERIC_HOOK_SLOTS && prog in Attached(s.attachments, hook)
    ensures Live(s.programs, prog) && |s.published.generic| == GENERIC_HOOK_SLOTS
    ensures Entry(s.programs, prog).program.id in s.published.generic[hook]
  {
    PublishedShape(s);
    hide Inv;
    PublishedGeneric(s, hook);
    var i :| 0 <= i < |Attached(s.attachments, hook)| && Attached(s.attachments, hook)[i] == prog;
    assert s.published.generic[hook][i] == Entry(s.programs, prog).program.id;
  }

  lemma PublishedShape(s: State)
    requires Inv(s)
    ensures |s.published.generic| == GENERIC_HOOK_SLOTS && |s.published.gpio| == GPIO_ROUTE_SLOTS
  {
    hide TablesOk, CapturesResolve, PinsResolve, LedgerMatches, ProgramCounts, MapCounts, RuntimesOf;
  }

  lemma AttachHooked(s: State, owner: nat, hook: nat, prog: nat, accepted: bool, memory: AttachMemory)
    requires Inv(s) && AttachFor(s, owner, hook, prog, accepted, memory).reply == Done
    ensures var s' := AttachFor(s, owner, hook, prog, accepted, memory).state;
            Hooked(s, s', hook, prog) && s'.routes == s.routes && hook < GENERIC_HOOK_SLOTS
  {
    MayAttachExact(s, owner, hook, prog, accepted);
    if prog !in Attached(s.attachments, hook) {
      CommitExact(s, hook, prog, memory.list);
    }
    hide Inv, CommitAttach, Cost, Project;
  }

  /**
   After a successful attachment the program is last on the hook's list, or where it was; every other hook is as
   before; the budget is charged its cost once; and interrupt handlers of the hook find it in the snapshot.
   */
  lemma AttachEffect(s: State, owner: nat, hook: nat, prog: nat, accepted: bool, memory: AttachMemory)
    requires Inv(s) && AttachFor(s, owner, hook, prog, accepted, memory).reply == Done
    ensures var s' := AttachFor(s, owner, hook, prog, accepted, memory).state;
            && Hooked(s, s', hook, prog) && s'.routes == s.routes
            && hook < GENERIC_HOOK_SLOTS == |s'.published.generic|
            && Entry(s.programs, prog).program.id in s'.published.generic[hook]
  {
    hide Inv, AttachFor, Cost, Project;
    AttachHooked(s, owner, hook, prog, accepted, memory);
    AttachInv(s, owner, hook, prog, accepted, memory);
    AttachedPublished(AttachFor(s, owner, hook, prog, accepted, memory).state, hook, prog);
  }

  // --------------------------------------------------------------------------------- GPIO

  /** An attachment for one edge is reached by that edge and by a report of both; one for both is reached by any. */
  predicate Reaches(attached: Edge, fired: Edge) {
    match attached
    case Rising => fired != Falling
    case Falling => fired != Rising
    case Both => true
  }

  /** A fired edge reaches exactly the programs of the routes it meets. */
  lemma {:induction false} MatchingExact(list: seq<Route>, fired: Edge, prog: nat)
    ensures prog in Matching(list, fired) <==> exists x :: x in list && x.prog == prog && Reaches(x.edge, fired)
  {
    if list != [] {
      var init, x := list[..|list| - 1], list[|list| - 1];
      MatchingExact(init, fired, prog);
      assert list == init + [x];
    }
  }

  /** The route is there already, or each edge it would be reached by has room. */
  ghost predicate RouteFits(s: State, chip: nat, pin: nat, edge: Edge, prog: nat) {
    var list := At(s.routes, chip, pin);
    || Route(edge, prog) in list
    || forall fired :: Reaches(edge, fired) ==> |Matching(list, fired)| < GPIO_IRQ_FANOUT_LIMIT
  }

  lemma RouteFitsExact(s: State, chip: nat, pin: nat, edge: Edge, prog: nat)
    ensures CanInsert(s.routes, chip, pin, edge, prog, GPIO_IRQ_FANOUT_LIMIT) <==> RouteFits(s, chip, pin, edge, prog)
  {
    hide Matching;
    var list := At(s.routes, chip, pin);
    if CanInsert(s.routes, chip, pin, edge, prog, GPIO_IRQ_FANOUT_LIMIT) && Route(edge, prog) !in list {
      forall fired | Reaches(edge, fired)
        ensures |Matching(list, fired)| < GPIO_IRQ_FANOUT_LIMIT
      {
        match fired
        case Rising =>
        case Falling =>
        case Both =>
      }
    }
    assert forall fired :: Reaches(edge, fired) == EdgeMatches(edge, fired);
  }

  /** A routed attachment succeeds exactly when the route fits as well. */
  lemma AttachGpioSucceedsIff(s: State, owner: nat, chip: nat, pin: nat, edge: Edge, prog: nat, accepted: bool,
                              memory: AttachMemory)
    requires Inv(s)
    ensures AttachGpio(s, owner, chip, pin, edge, prog, accepted, memory).reply == Done <==>
              && RouteFits(s, chip, pin, edge, prog) && MayAttach(s, owner, ATTACH_GPIO, prog, accepted)
              && memory.snapshot
              && (prog in Attached(s.attachments, ATTACH_GPIO) || Admissible(s, ATTACH_GPIO, prog, memory.list))
  {
    RouteFitsExact(s, chip, pin, edge, prog);
    MayAttachExact(s, owner, ATTACH_GPIO, prog, accepted);
    if MayAttach(s, owner, ATTACH_GPIO, prog, accepted) && prog !in Attached(s.attachments, ATTACH_GPIO)
       && |Attached(s.attachments, ATTACH_GPIO)| < HOOK_FANOUT_LIMIT {
      CommitExact(s, ATTACH_GPIO, prog, memory.list);
    }
    hide Inv, CommitAttach, Cost, Project, CanInsert, RouteFits;
  }

  /** The route is on its pin, once, and no other route moved. */
  ghost predicate RouteAdded(s: State, s': State, chip: nat, pin: nat, edge: Edge, prog: nat) {
    var list := At(s.routes, chip, pin);
    && At(s'.routes, chip, pin) == (if Route(edge, prog) in list then list else list + [Route(edge, prog)])
    && forall c: nat, p: nat :: (c, p) != (chip, pin) ==> At(s'.routes, c, p) == At(s.routes, c, p)
  }

  /** The report flags an edge attachment is reached by. */
  predicate FiresOn(edge: Edge, flags: nat) {
    match edge
    case Rising => flags == 1 || flags == 3
    case Falling => flags == 2 || flags == 3
    case Both => flags == 1 || flags == 2 || flags == 3
  }

  lemma RoutePublished(s: State, pin: nat, edge: Edge, prog: nat, flags: nat)
    requires Inv(s) && pin < GPIO_PIN_COUNT && FiresOn(edge, flags) && Route(edge, prog) in At(s.routes, 0, pin)
    ensures |s.published.gpio| == GPIO_ROUTE_SLOTS && pin * 3 + flags - 1 < GPIO_ROUTE_SLOTS
    ensures Live(s.programs, prog) && Entry(s.programs, prog).program.id in s.published.gpio[pin * 3 + flags - 1]
  {
    PublishedShape(s);
    hide Inv;
    PublishedGpio(s, pin, flags);
    MatchingExact(At(s.routes, 0, pin), EdgeOf(flags), prog);
    var ids := Matching(At(s.routes, 0, pin), EdgeOf(flags));
    var i :| 0 <= i < |ids| && ids[i] == prog;
    assert s.published.gpio[pin * 3 + flags - 1][i] == Entry(s.programs, prog).program.id;
  }

  lemma AttachGpioHooked(s: State, owner: nat, chip: nat, pin: nat, edge: Edge, prog: nat, accepted: bool,
                         memory: AttachMemory)
    requires Inv(s) && AttachGpio(s, owner, chip, pin, edge, prog, accepted, memory).reply == Done
    ensures var s' := AttachGpio(s, owner, chip, pin, edge, prog, accepted, memory).state;
            Hooked(s, s', ATTACH_GPIO, prog) && RouteAdded(s, s', chip, pin, edge, prog)
  {
    MayAttachExact(s, owner, ATTACH_GPIO, prog, accepted);
    if prog !in Attached(s.attachments, ATTACH_GPIO) {
      CommitExact(s, ATTACH_GPIO, prog, memory.list);
    }
    hide Inv, CommitAttach, Cost, Project, CanInsert, Matching;
  }

  /**
   After a successful routed attachment the program is on the GPIO hook and charged, its route is on the pin and no
   other route moved, and each report the edge is reached by finds the program in the snapshot.
   */
  lemma AttachGpioEffect(s: State, owner: nat, chip: nat, pin: nat, edge: Edge, prog: nat, accepted: bool,
                         memory: AttachMemory, flags: nat)
    requires Inv(s) && AttachGpio(s, owner, chip, pin, edge, prog, accepted, memory).reply == Done
    ensures var s' := AttachGpio(s, owner, chip, pin, edge, prog, accepted, memory).state;
            && Hooked(s, s', ATTACH_GPIO, prog) && RouteAdded(s, s', chip, pin, edge, prog)
            && (chip == 0 && pin < GPIO_PIN_COUNT && FiresOn(edge, flags) ==>
                  && pin * 3 + flags - 1 < |s'.published.gpio|
                  && Entry(s.programs, prog).program.id in s'.published.gpio[pin * 3 + flags - 1])
  {
    AttachGpioHooked(s, owner, chip, pin, edge, prog, accepted, memory);
    AttachGpioInv(s, owner, chip, pin, edge, prog, accepted, memory);
    hide Inv, AttachGpio, Cost, FiresOn, Matching, Project;
    var s' := AttachGpio(s, owner, chip, pin, edge, prog, accepted, memory).state;
    if chip == 0 && pin < GPIO_PIN_COUNT && FiresOn(edge, flags) {
      RoutePublished(s', pin, edge, prog, flags);
    }
  }

  // ------------------------------------------------------------------------------- detach

  /** One occurrence is gone from the list and the rest is in its old order. */
  ghost predicate TakenOut(before: seq<nat>, after: seq<nat>, x: nat) {
    exists a: seq<nat>, b: seq<nat> :: before == a + [x] + b && after == a + b
  }

  /** A detach succeeds exactly when the snapshot could be allocated and the program is on the hook. */
  lemma DetachSucceedsIff(s: State, hook: nat, prog: nat, memory: bool)
    ensures Detach(s, hook, prog, memory).reply == Done <==> memory && prog in Attached(s.attachments, hook)
  {
    hide Project;
    var list := Attached(s.attachments, hook);
    var k := IndexOf(list, prog);
    assert k < |list| ==> prog in list;
  }

  /** By a caller: exactly when the caller also owns the program. */
  lemma DetachForSucceedsIff(s: State, owner: nat, hook: nat, prog: nat, memory: bool)
    ensures DetachFor(s, owner, hook, prog, memory).reply == Done <==>
              && Live(s.programs, prog) && Entry(s.programs, prog).owner == owner
              && memory && prog in Attached(s.attachments, hook)
    ensures DetachFor(s, owner, hook, prog, memory).reply == Done ==>
              DetachFor(s, owner, hook, prog, memory) == Detach(s, hook, prog, memory)
  {
    DetachSucceedsIff(s, hook, prog, memory);
    hide Detach;
  }

  /** The program has no route, and every other program keeps its own. */
  ghost predicate Unrouted(before: Routes, after: Routes, prog: nat) {
    forall chip: nat, pin: nat, x: Route ::
      x in At(after, chip, pin) <==> x in At(before, chip, pin) && x.prog != prog
  }

  lemma RemoveUnroutes(routes: Routes, prog: nat)
    ensures Unrouted(routes, GpioRoutes.Remove(routes, {prog}), prog)
  {
    var after := GpioRoutes.Remove(routes, {prog});
    forall chip: nat, pin: nat, x: Route
      ensures x in At(after, chip, pin) <==> x in At(routes, chip, pin) && x.prog != prog
    {
      if (chip, pin) in routes && x in routes[(chip, pin)] && x.prog != prog {
        assert x in Drop(routes[(chip, pin)], {prog});
      }
    }
  }

  /** The program left the hook's list, which keeps its order, and every other hook is as before. */
  ghost predicate Unhooked(s: State, s': State, hook: nat, prog: nat) {
    && TakenOut(Attached(s.attachments, hook), Attached(s'.attachments, hook), prog)
    && prog !in Attached(s'.attachments, hook)
    && (forall h: nat :: h != hook ==> Attached(s'.attachments, h) == Attached(s.attachments, h))
    && (hook, prog) in s.ledger.per && s'.ledger.per == s.ledger.per - {(hook, prog)}
    && s'.ledger.committed == s.ledger.committed - s.ledger.per[(hook, prog)]
    && s' == s.(attachments := s'.attachments, ledger := s'.ledger, routes := s'.routes, published := s'.published)
  }

  /**
   After a successful detach the program has left that hook's list, every other attachment stays, its cost on the hook
   is back in the budget, and it has no route on any pin while other programs keep theirs.
   */
  lemma DetachEffect(s: State, hook: nat, prog: nat, memory: bool)
    requires Inv(s) && Detach(s, hook, prog, memory).reply == Done
    ensures var s' := Detach(s, hook, prog, memory).state;
            Unhooked(s, s', hook, prog) && Unrouted(s.routes, s'.routes, prog)
  {
    hide Inv, Unrouted, TakenOut, GpioRoutes.Remove, RemoveAt, IndexOf, Detach, Release;
    DetachSucceedsIff(s, hook, prog, memory);
    DetachParts(s, hook, prog);
    RemoveUnroutes(s.routes, prog);
    DetachFields(s, hook, prog);
  }

  lemma DetachFields(s: State, hook: nat, prog: nat)
    requires prog in Attached(s.attachments, hook) && (hook, prog) in s.ledger.per
    requires s.ledger.per[(hook, prog)] <= s.ledger.committed
    ensures var list, s' := Attached(s.attachments, hook), Detach(s, hook, prog, true).state;
            && IndexOf(list, prog) < |list|
            && s'.attachments == s.attachments[hook := RemoveAt(list, IndexOf(list, prog))]
            && s'.ledger.per == s.ledger.per - {(hook, prog)}
            && s'.ledger.committed == s.ledger.committed - s.ledger.per[(hook, prog)]
            && s'.routes == GpioRoutes.Remove(s.routes, {prog})
            && s' == s.(attachments := s'.attachments, ledger := s'.ledger, routes := s'.routes,
                        published := s'.published)
  {
    hide Project, GpioRoutes.Remove, RemoveAt;
  }

  lemma RemoveAtTakes(list: seq<nat>, k: nat)
    requires k < |list|
    ensures TakenOut(list, RemoveAt(list, k), list[k])
  {
    assert list == list[..k] + [list[k]] + list[k + 1..];
  }

  lemma DetachParts(s: State, hook: nat, prog: nat)
    requires Inv(s) && prog in Attached(s.attachments, hook)
    ensures (hook, prog) in s.ledger.per && s.ledger.per[(hook, prog)] <= s.ledger.committed
    ensures var list := Attached(s.attachments, hook);
            var rest := RemoveAt(list, IndexOf(list, prog));
            prog !in rest && TakenOut(list, rest, prog)
  {
    hide TablesOk, CapturesResolve, PinsResolve, ProgramCounts, MapCounts, TakenOut, RoutesAttached, Project;
    SumMapRemove(s.ledger.per, (hook, prog));
    var list := Attached(s.attachments, hook);
    assert HookValid(hook, list, s.programs);
    RemoveAtMembers(list, IndexOf(list, prog));
    RemoveAtTakes(list, IndexOf(list, prog));
  }

  /** The detached program's runtime has left the hook's published list. */
  lemma DetachedUnlisted(s: State, hook: nat, prog: nat, memory: bool)
    requires Inv(s) && Detach(s, hook, prog, memory).reply == Done && hook < GENERIC_HOOK_SLOTS
    ensures var s' := Detach(s, hook, prog, memory).state;
            && Live(s.programs, prog) && |s'.published.generic| == GENERIC_HOOK_SLOTS
            && Entry(s.programs, prog).program.id !in s'.published.generic[hook]
  {
    hide Inv, Detach;
    var s' := Detach(s, hook, prog, memory).state;
    DetachEffect(s, hook, prog, memory);
    DetachSucceedsIff(s, hook, prog, memory);
    DetachInv(s, hook, prog, memory);
    AttachedPublished(s, hook, prog);
    PublishedShape(s');
    PublishedGeneric(s', hook);
    var ids := Attached(s'.attachments, hook);
    forall i | 0 <= i < |ids|
      ensures s'.published.generic[hook][i] != Entry(s.programs, prog).program.id
    {
      RuntimesDiffer(s', ids[i], prog);
    }
  }

  lemma RuntimesDiffer(s: State, p: nat, q: nat)
    requires Inv(s) && Live(s.programs, p) && Live(s.programs, q) && p != q
    ensures Entry(s.programs, p).program.id != Entry(s.programs, q).program.id
  {
    hide CapturesResolve, PinsResolve, HooksOk, LedgerMatches, ProgramCounts, MapCounts, MapIdsFresh, MapsShaped;
    HandleUnique(s.programs, p);
    HandleUnique(s.programs, q);
    assert Occupied(s.programs, Slot(p)) && Occupied(s.programs, Slot(q));
  }
}
