/** GPIO attachment routing (kernel/crates/kernel_bpf/src/attach/route.rs). */
module GpioRoutes {

  datatype Edge = Rising | Falling | Both

  datatype Route = Route(edge: Edge, prog: nat)

  /** Routes keyed by (chip, pin). */
  type Routes = map<(nat, nat), seq<Route>>

  /** `GpioEdge::from_flags`. */
  function EdgeOf(flags: nat): Edge {
    if flags % 4 == 1 then Rising else if flags % 4 == 2 then Falling else Both
  }

  predicate EdgeMatches(attached: Edge, fired: Edge) {
    attached == fired || attached == Both || fired == Both
  }

  function At(routes: Routes, chip: nat, pin: nat): seq<Route> {
    if (chip, pin) in routes then routes[(chip, pin)] else []
  }

  /** `for_each_program`: the programs a fired edge reaches, in insertion order. */
  function Matching(list: seq<Route>, fired: Edge): (r: seq<nat>)
    ensures |r| <= |list|
    ensures forall p :: p in r ==> exists x :: x in list && x.prog == p
  {
    if list == [] then []
    else
      var rest := Matching(list[..|list| - 1], fired);
      var x := list[|list| - 1];
      assert x in list && forall y :: y in list[..|list| - 1] ==> y in list;
      if EdgeMatches(x.edge, fired) then rest + [x.prog] else rest
  }

  function InsertRoute(routes: Routes, chip: nat, pin: nat, edge: Edge, prog: nat): Routes {
    var list := At(routes, chip, pin);
    if Route(edge, prog) in list then routes[(chip, pin) := list]
    else routes[(chip, pin) := list + [Route(edge, prog)]]
  }

  /** `can_insert_with_limit`. */
  predicate CanInsert(routes: Routes, chip: nat, pin: nat, edge: Edge, prog: nat, limit: nat) {
    var list := At(routes, chip, pin);
    || Route(edge, prog) in list
    || ((EdgeMatches(edge, Rising) ==> |Matching(list, Rising)| < limit)
        && (EdgeMatches(edge, Falling) ==> |Matching(list, Falling)| < limit)
        && (EdgeMatches(edge, Both) ==> |Matching(list, Both)| < limit))
  }

  function Drop(list: seq<Route>, progs: set<nat>): (r: seq<Route>)
    ensures forall x :: x in r <==> x in list && x.prog !in progs
  {
    if list == [] then []
    else
      var rest := Drop(list[..|list| - 1], progs);
      var x := list[|list| - 1];
      assert forall y :: y in list <==> y == x || y in list[..|list| - 1];
      if x.prog in progs then rest else rest + [x]
  }

  /** Removal of every route of the given programs; emptied keys disappear. */
  function Remove(routes: Routes, progs: set<nat>): Routes {
    map k | k in routes && Drop(routes[k], progs) != [] :: Drop(routes[k], progs)
  }

  ghost predicate FanoutWithin(routes: Routes, limit: nat) {
    forall k, fired :: k in routes ==> |Matching(routes[k], fired)| <= limit
  }

  predicate Routed(routes: Routes, prog: nat) {
    exists k :: k in routes && exists x :: x in routes[k] && x.prog == prog
  }

  /** An admitted route keeps every fired edge of every pin within the limit. */
  lemma InsertFanout(routes: Routes, chip: nat, pin: nat, edge: Edge, prog: nat, limit: nat)
    requires FanoutWithin(routes, limit) && CanInsert(routes, chip, pin, edge, prog, limit)
    ensures FanoutWithin(InsertRoute(routes, chip, pin, edge, prog), limit)
  {
    var list, x := At(routes, chip, pin), Route(edge, prog);
    assert (list + [x])[..|list|] == list;
    forall fired
      ensures |Matching(list, fired)| <= limit
    {
    }
    forall k, fired | k in InsertRoute(routes, chip, pin, edge, prog)
      ensures |Matching(InsertRoute(routes, chip, pin, edge, prog)[k], fired)| <= limit
    {
      if k == (chip, pin) && x !in list {
        assert Matching(list + [x], fired) ==
               if EdgeMatches(edge, fired) then Matching(list, fired) + [prog] else Matching(list, fired);
      }
    }
  }

  lemma {:induction false} DropMatching(list: seq<Route>, progs: set<nat>, fired: Edge)
    ensures |Matching(Drop(list, progs), fired)| <= |Matching(list, fired)|
  {
    if list != [] {
      var init, x := list[..|list| - 1], list[|list| - 1];
      DropMatching(init, progs, fired);
      var rest := Drop(init, progs);
      assert (rest + [x])[..|rest|] == rest;
    }
  }

  lemma RemoveFanout(routes: Routes, progs: set<nat>, limit: nat)
    requires FanoutWithin(routes, limit)
    ensures FanoutWithin(Remove(routes, progs), limit)
  {
    forall k, fired | k in Remove(routes, progs)
      ensures |Matching(Remove(routes, progs)[k], fired)| <= limit
    {
      DropMatching(routes[k], progs, fired);
    }
  }

  lemma {:induction false} DropTwice(list: seq<Route>, a: set<nat>, b: set<nat>)
    ensures Drop(Drop(list, a), b) == Drop(list, a + b)
  {
    if list != [] {
      var init, x := list[..|list| - 1], list[|list| - 1];
      DropTwice(init, a, b);
      var rest := Drop(init, a);
      assert (rest + [x])[..|rest|] == rest;
    }
  }

  /** Removing programs one at a time is removing them together. */
  lemma RemoveTwice(routes: Routes, a: set<nat>, b: set<nat>)
    ensures Remove(Remove(routes, a), b) == Remove(routes, a + b)
  {
    forall k | k in routes
      ensures Drop(Drop(routes[k], a), b) == Drop(routes[k], a + b)
    {
      DropTwice(routes[k], a, b);
    }
    assert Drop([], b) == [];
  }

  lemma {:induction false} DropNothing(list: seq<Route>, progs: set<nat>)
    requires forall x :: x in list ==> x.prog !in progs
    ensures Drop(list, progs) == list
  {
    if list != [] {
      DropNothing(list[..|list| - 1], progs);
      assert list == list[..|list| - 1] + [list[|list| - 1]];
    }
  }

  /** Removing programs without routes changes nothing in a table that holds no empty key. */
  lemma RemoveUnrouted(routes: Routes, progs: set<nat>)
    requires forall k :: k in routes ==> routes[k] != []
    requires forall p :: p in progs ==> !Routed(routes, p)
    ensures Remove(routes, progs) == routes
  {
    forall k | k in routes
      ensures Drop(routes[k], progs) == routes[k]
    {
      forall x | x in routes[k]
        ensures x.prog !in progs
      {
        if x.prog in progs {
          assert Routed(routes, x.prog);
        }
      }
      DropNothing(routes[k], progs);
    }
  }

  lemma RemoveRouted(routes: Routes, progs: set<nat>, prog: nat)
    ensures Routed(Remove(routes, progs), prog) <==> Routed(routes, prog) && prog !in progs
  {
    if Routed(routes, prog) && prog !in progs {
      var k :| k in routes && exists x :: x in routes[k] && x.prog == prog;
      var x :| x in routes[k] && x.prog == prog;
      assert x in Drop(routes[k], progs);
      assert k in Remove(routes, progs);
    }
  }

  // ------------------------------------------------------------------ the table's loops

  lemma {:induction false} MatchingPrefix(list: seq<Route>, n: nat, fired: Edge)
    requires n <= |list|
    ensures |Matching(list[..n], fired)| <= |Matching(list, fired)|
  {
    if n == |list| {
      assert list[..n] == list;
    } else {
      var init := list[..|list| - 1];
      assert init[..n] == list[..n];
      MatchingPrefix(init, n, fired);
    }
  }

  /** `matching_count`. */
  method MatchingCount(list: seq<Route>, fired: Edge) returns (count: nat)
    ensures count == |Matching(list, fired)|
  {
    count := 0;
    var n := 0;
    while n < |list|
      invariant n <= |list| && count == |Matching(list[..n], fired)|
    {
      assert list[..n + 1][..n] == list[..n];
      if EdgeMatches(list[n].edge, fired) {
        count := count + 1;
      }
      n := n + 1;
    }
    assert list[..n] == list;
  }

  /** `can_insert_with_limit` as it counts each edge the route would fire on. */
  method CanInsertWithLimit(routes: Routes, chip: nat, pin: nat, edge: Edge, prog: nat, limit: nat) returns (ok: bool)
    ensures ok == CanInsert(routes, chip, pin, edge, prog, limit)
  {
    var list := At(routes, chip, pin);
    if Route(edge, prog) in list {
      return true;
    }
    var edges := [Rising, Falling, Both];
    var n := 0;
    while n < 3
      invariant n <= 3
      invariant forall i :: 0 <= i < n && EdgeMatches(edge, edges[i]) ==> |Matching(list, edges[i])| < limit
    {
      if EdgeMatches(edge, edges[n]) {
        var count := MatchingCount(list, edges[n]);
        if count >= limit {
          return false;
        }
      }
      n := n + 1;
    }
    assert edges[0] == Rising && edges[1] == Falling && edges[2] == Both;
    return true;
  }

  /** `retain` over one pin's list. */
  method RetainOthers(list: seq<Route>, prog: nat) returns (kept: seq<Route>)
    ensures kept == Drop(list, {prog})
  {
    kept := [];
    var n := 0;
    while n < |list|
      invariant n <= |list| && kept == Drop(list[..n], {prog})
    {
      assert list[..n + 1][..n] == list[..n];
      if list[n].prog != prog {
        kept := kept + [list[n]];
      }
      n := n + 1;
    }
    assert list[..n] == list;
  }

  /** `remove`: retain on every pin, then drop the emptied pins. */
  method RemoveProgram(routes: Routes, prog: nat) returns (r: Routes)
    ensures r == Remove(routes, {prog})
  {
    r := routes;
    var keys := routes.Keys;
    while keys != {}
      invariant keys <= routes.Keys == r.Keys
      invariant forall k :: k in routes ==> r[k] == if k in keys then routes[k] else Drop(routes[k], {prog})
      decreases |keys|
    {
      var k :| k in keys;
      var kept := RetainOthers(r[k], prog);
      r := r[k := kept];
      keys := keys - {k};
    }
    r := map k | k in r && r[k] != [] :: r[k];
  }
}
