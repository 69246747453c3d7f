/** What every reachable manager state satisfies, and the facts about counts and projections behind it. */
module BpfInvariants {
  import opened Common
  import opened Handles
  import opened Authorization
  import opened Admission
  import opened GpioRoutes
  import opened BpfState

  // ------------------------------------------------------------------------ invariant

  ghost predicate ProgramIdsFresh(programs: Table<ProgramEntry>, nextId: nat) {
    && (forall i :: Occupied(programs, i) ==> programs.slots[i].value.program.id < nextId)
    && (forall i, j :: Occupied(programs, i) && Occupied(programs, j) && i != j ==>
          programs.slots[i].value.program.id != programs.slots[j].value.program.id)
  }

  ghost predicate MapIdsFresh(maps: Table<MapEntry>, nextId: nat) {
    && (forall i :: Occupied(maps, i) ==> maps.slots[i].value.runtime < nextId)
    && (forall i, j :: Occupied(maps, i) && Occupied(maps, j) && i != j ==>
          maps.slots[i].value.runtime != maps.slots[j].value.runtime)
  }

  /** The captured slot still holds the captured map. */
  ghost predicate CaptureResolves(maps: Table<MapEntry>, k: int, c: Capture) {
    Occupied(maps, k) && k < |maps.gens| && maps.gens[k] == c.generation && maps.slots[k].value.runtime == c.runtime
  }

  ghost predicate EntryResolves(maps: Table<MapEntry>, e: ProgramEntry) {
    forall k :: 0 <= k < |e.program.maps| && e.program.maps[k].Some? ==>
      CaptureResolves(maps, k, e.program.maps[k].value)
  }

  ghost predicate CapturesResolve(programs: Table<ProgramEntry>, maps: Table<MapEntry>) {
    forall i :: Occupied(programs, i) ==> EntryResolves(maps, programs.slots[i].value)
  }

  ghost predicate PinsResolve(pins: seq<Pin>, maps: Table<MapEntry>) {
    && (forall i :: 0 <= i < |pins| ==> Live(maps, pins[i].mapId))
    && (forall i, j :: 0 <= i < j < |pins| ==> pins[i].path != pins[j].path)
  }

  ghost predicate NoDuplicates(ids: seq<nat>) {
    forall i, j :: 0 <= i < j < |ids| ==> ids[i] != ids[j]
  }

  ghost predicate HookValid(hook: nat, ids: seq<nat>, programs: Table<ProgramEntry>) {
    Supported(hook) && |ids| <= HOOK_FANOUT_LIMIT && NoDuplicates(ids) && forall p :: p in ids ==> Live(programs, p)
  }

  ghost predicate AttachmentsLoaded(attachments: Attachments, programs: Table<ProgramEntry>) {
    forall h :: h in attachments ==> HookValid(h, attachments[h], programs)
  }

  ghost predicate RoutesAttached(routes: Routes, attachments: Attachments) {
    && FanoutWithin(routes, GPIO_IRQ_FANOUT_LIMIT)
    && (forall k :: k in routes ==> routes[k] != [])
    && (forall p :: Routed(routes, p) ==> p in Attached(attachments, ATTACH_GPIO))
  }

  ghost predicate LedgerMatches(ledger: Ledger, attachments: Attachments, frequency: nat) {
    && Balanced(ledger) && SafeProfile(ledger.budget, frequency)
    && forall h: nat, p: nat :: (h, p) in ledger.per <==> p in Attached(attachments, h)
  }

  /** The counters are the table's totals, within the global caps and every owner's caps. */
  ghost predicate ProgramCounts(l: Limits, slots: seq<Option<ProgramEntry>>, live: nat, bytes: nat) {
    && live == ProgramTotal(slots, Objects) <= l.maxLivePrograms
    && bytes == ProgramTotal(slots, Bytes) <= l.maxProgramBytes
    && (forall o :: ProgramTotal(slots, OwnerObjects(o)) <= l.maxOwnerPrograms)
    && (forall o :: ProgramTotal(slots, OwnerBytes(o)) <= l.maxOwnerProgramBytes)
  }

  /** Likewise for charged maps; orphans answer to no owner's cap. */
  ghost predicate MapCounts(l: Limits, slots: seq<Option<MapEntry>>, live: nat, bytes: nat) {
    && live == MapTotal(slots, Objects) <= l.maxLiveMaps
    && bytes == MapTotal(slots, Bytes) <= l.maxMapBytes
    && (forall o :: o != PINNED_MAP_OWNER ==> MapTotal(slots, OwnerObjects(o)) <= l.maxOwnerMaps)
    && (forall o :: o != PINNED_MAP_OWNER ==> MapTotal(slots, OwnerBytes(o)) <= l.maxOwnerMapBytes)
  }

  ghost predicate LoadedId(programs: Table<ProgramEntry>, id: nat) {
    exists i :: Occupied(programs, i) && programs.slots[i].value.program.id == id
  }

  ghost predicate ClonesLoaded(clones: multiset<nat>, programs: Table<ProgramEntry>) {
    forall id :: id in clones ==> LoadedId(programs, id)
  }

  /** Slot 0 is the read-only envelope map; every other map is a charged read-write map. */
  ghost predicate MapsShaped(maps: Table<MapEntry>) {
    && Occupied(maps, 0) && |maps.gens| > 0 && maps.gens[0] == 0
    && maps.slots[0].value.charge == 0 && maps.slots[0].value.perm == ReadOnly && maps.slots[0].value.owner == 0
    && (forall i :: Occupied(maps, i) && i > 0 ==>
            maps.slots[i].value.charge > 0 && maps.slots[i].value.perm == ReadWrite)
    && (forall i :: Occupied(maps, i) ==> ValidGrants(maps.slots[i].value.grants))
  }

  ghost predicate TablesOk(l: Limits, programs: Table<ProgramEntry>, maps: Table<MapEntry>, nextId: nat) {
    && Handles.Valid(programs) && Handles.Valid(maps) && ValidLimits(l)
    && |programs.slots| <= l.maxProgramSlots && |maps.slots| <= l.maxMapSlots
    && ProgramIdsFresh(programs, nextId) && MapIdsFresh(maps, nextId)
    && MapsShaped(maps)
  }

  ghost predicate HooksOk(programs: Table<ProgramEntry>, attachments: Attachments, routes: Routes, published: Snapshot,
                          clones: multiset<nat>) {
    && AttachmentsLoaded(attachments, programs)
    && RoutesAttached(routes, attachments)
    && published == Project(programs, attachments, routes)
    && ClonesLoaded(clones, programs)
  }

  ghost predicate TablesValid(s: State) {
    TablesOk(s.config.limits, s.programs, s.maps, s.nextId)
  }

  ghost predicate HooksValid(s: State) {
    HooksOk(s.programs, s.attachments, s.routes, s.published, s.clones)
  }

  ghost predicate ProgramAccounting(s: State) {
    ProgramCounts(s.config.limits, s.programs.slots, s.livePrograms, s.programBytes)
  }

  ghost predicate MapAccounting(s: State) {
    MapCounts(s.config.limits, s.maps.slots, s.liveMaps, s.mapBytes)
  }

  ghost predicate Inv(s: State) {
    && WellFormed(s)
    && TablesValid(s)
    && CapturesResolve(s.programs, s.maps)
    && PinsResolve(s.pins, s.maps)
    && HooksValid(s)
    && LedgerMatches(s.ledger, s.attachments, s.config.hookFrequency)
    && ProgramAccounting(s)
    && MapAccounting(s)
  }

  // ------------------------------------------------------------------ handles and slots

  lemma HandleUnique<T>(t: Table<T>, h: nat)
    requires Handles.Valid(t) && Live(t, h)
    ensures HandleOf(t, Slot(h)) == h
  {
  }

  lemma OccupiedLive<T>(t: Table<T>, i: nat)
    requires Handles.Valid(t) && Occupied(t, i)
    ensures Live(t, HandleOf(t, i)) && Entry(t, HandleOf(t, i)) == t.slots[i].value
  {
  }

  lemma RetainLater<T>(t: Table<T>, gone: set<nat>)
    requires Handles.Valid(t)
    ensures var u := t.(slots := Retain(t.slots, gone));
            && Handles.Valid(u) && Later(t, u)
            && (forall h :: Live(u, h) <==> Live(t, h) && Slot(h) !in gone)
            && (forall h :: Live(u, h) ==> Entry(u, h) == Entry(t, h))
            && (forall i :: Occupied(u, i) <==> Occupied(t, i) && i !in gone)
  {
  }

  // ----------------------------------------------------------------- reference counts

  ghost predicate CapturesRuntime(e: ProgramEntry, runtime: nat) {
    exists k :: 0 <= k < |e.program.maps| && e.program.maps[k].Some? && e.program.maps[k].value.runtime == runtime
  }

  /** Some loaded program captured the map. */
  ghost predicate CapturedBySome(programs: Table<ProgramEntry>, runtime: nat) {
    exists i :: Occupied(programs, i) && CapturesRuntime(programs.slots[i].value, runtime)
  }

  lemma CaptureCountZero(e: ProgramEntry, runtime: nat)
    ensures CaptureCount(e.program.maps, runtime) == 0 <==> !CapturesRuntime(e, runtime)
  {
    var maps := e.program.maps;
    var ws := seq(|maps|, i requires 0 <= i < |maps| =>
      if maps[i].Some? && maps[i].value.runtime == runtime then 1 else 0);
    SumZero(ws);
    if !CapturesRuntime(e, runtime) {
      assert forall i :: 0 <= i < |ws| ==> ws[i] == 0;
    } else {
      var k :| 0 <= k < |maps| && maps[k].Some? && maps[k].value.runtime == runtime;
      assert ws[k] == 1;
    }
  }

  /** A map's reference count is one exactly when no loaded program captured it. */
  lemma MapCountOne(programs: Table<ProgramEntry>, runtime: nat)
    ensures MapStrongCount(programs.slots, runtime) == 1 <==> !CapturedBySome(programs, runtime)
  {
    var ws := ProgramRefs(programs.slots, runtime);
    SumZero(ws);
    forall i | Occupied(programs, i)
      ensures ws[i] == 0 <==> !CapturesRuntime(programs.slots[i].value, runtime)
    {
      CaptureCountZero(programs.slots[i].value, runtime);
    }
    forall i | 0 <= i < |ws| && !Occupied(programs, i)
      ensures ws[i] == 0
    {
    }
  }

  ghost predicate InLists(lists: seq<seq<nat>>, id: nat) {
    exists i :: 0 <= i < |lists| && id in lists[i]
  }

  lemma ListRefsZero(lists: seq<seq<nat>>, id: nat)
    ensures Sum(ListRefs(lists, id)) == 0 <==> !InLists(lists, id)
  {
    var ws := ListRefs(lists, id);
    SumZero(ws);
    assert forall i :: 0 <= i < |lists| ==> (ws[i] == 0 <==> id !in lists[i]);
  }

  /** A program's reference count is one exactly when neither the snapshot nor a clone holds it. */
  lemma ProgramCountOne(published: Snapshot, clones: multiset<nat>, id: nat)
    ensures ProgramStrongCount(published, clones, id) == 1 <==>
              !InLists(published.generic, id) && !InLists(published.gpio, id) && id !in clones
  {
    ListRefsZero(published.generic, id);
    ListRefsZero(published.gpio, id);
  }

  // ------------------------------------------------------------------------- projection

  lemma {:induction false} RuntimesOfSame(programs: Table<ProgramEntry>, programs': Table<ProgramEntry>, ids: seq<nat>)
    requires forall p :: p in ids ==>
               && Live(programs, p) && Live(programs', p)
               && Entry(programs, p).program.id == Entry(programs', p).program.id
    ensures RuntimesOf(programs, ids) == RuntimesOf(programs', ids)
  {
    if ids != [] {
      RuntimesOfSame(programs, programs', ids[..|ids| - 1]);
    }
  }

  /** When every listed program is loaded, the projection keeps the list's length and order. */
  lemma {:induction false} RuntimesOfLoaded(programs: Table<ProgramEntry>, ids: seq<nat>)
    requires forall p :: p in ids ==> Live(programs, p)
    ensures |RuntimesOf(programs, ids)| == |ids|
    ensures forall i :: 0 <= i < |ids| ==> RuntimesOf(programs, ids)[i] == Entry(programs, ids[i]).program.id
  {
    if ids != [] {
      RuntimesOfLoaded(programs, ids[..|ids| - 1]);
    }
  }

  /** Two reachable shapes of the program table give the same snapshot when they agree on attached programs. */
  lemma ProjectSame(programs: Table<ProgramEntry>, programs': Table<ProgramEntry>, attachments: Attachments,
                    routes: Routes)
    requires AttachmentsLoaded(attachments, programs) && RoutesAttached(routes, attachments)
    requires forall p :: AttachedAnywhere(attachments, p) ==>
               Live(programs', p) && Entry(programs', p) == Entry(programs, p)
    ensures Project(programs, attachments, routes) == Project(programs', attachments, routes)
  {
    var a, b := Project(programs, attachments, routes), Project(programs', attachments, routes);
    forall h | 0 <= h < GENERIC_HOOK_SLOTS
      ensures a.generic[h] == b.generic[h]
    {
      var ids := Attached(attachments, h);
      forall p | p in ids
        ensures Live(programs, p) && Live(programs', p) && Entry(programs, p) == Entry(programs', p)
      {
        assert AttachedAnywhere(attachments, p);
      }
      RuntimesOfSame(programs, programs', ids);
    }
    forall k | 0 <= k < GPIO_ROUTE_SLOTS
      ensures a.gpio[k] == b.gpio[k]
    {
      var ids := Matching(At(routes, 0, k / GPIO_EDGE_SLOTS), EdgeOf(k % GPIO_EDGE_SLOTS + 1));
      forall p | p in ids
        ensures Live(programs, p) && Live(programs', p) && Entry(programs, p) == Entry(programs', p)
      {
        MatchingAttached(routes, attachments, k / GPIO_EDGE_SLOTS, EdgeOf(k % GPIO_EDGE_SLOTS + 1), p);
        assert AttachedAnywhere(attachments, p);
      }
      RuntimesOfSame(programs, programs', ids);
    }
    assert a.generic == b.generic && a.gpio == b.gpio;
  }

  lemma MatchingAttached(routes: Routes, attachments: Attachments, pin: nat, fired: Edge, p: nat)
    requires RoutesAttached(routes, attachments) && p in Matching(At(routes, 0, pin), fired)
    ensures p in Attached(attachments, ATTACH_GPIO) && ATTACH_GPIO in attachments
  {
    var x :| x in At(routes, 0, pin) && x.prog == p;
    assert (0, pin) in routes && x in routes[(0, pin)];
    assert Routed(routes, p);
  }

  /** An attached program is held by the published snapshot. */
  lemma AttachedIsPublished(s: State, p: nat)
    requires HooksValid(s) && AttachedAnywhere(s.attachments, p)
    ensures Live(s.programs, p) && InLists(s.published.generic, Entry(s.programs, p).program.id)
  {
    var h :| h in s.attachments && p in s.attachments[h];
    var ids := Attached(s.attachments, h);
    assert HookValid(h, ids, s.programs);
    RuntimesOfLoaded(s.programs, ids);
    var i :| 0 <= i < |ids| && ids[i] == p;
    assert s.published.generic[h][i] == Entry(s.programs, p).program.id;
    assert Entry(s.programs, p).program.id in s.published.generic[h];
  }

  /** Every runtime in the published snapshot belongs to a program that is attached, hence loaded. */
  lemma PublishedIsAttached(s: State, id: nat) returns (p: nat)
    requires HooksValid(s) && (InLists(s.published.generic, id) || InLists(s.published.gpio, id))
    ensures AttachedAnywhere(s.attachments, p) && Live(s.programs, p) && Entry(s.programs, p).program.id == id
  {
    if InLists(s.published.generic, id) {
      var h :| 0 <= h < |s.published.generic| && id in s.published.generic[h];
      var ids := Attached(s.attachments, h);
      RuntimesOfLoaded(s.programs, ids);
      var i :| 0 <= i < |s.published.generic[h]| && s.published.generic[h][i] == id;
      p := ids[i];
      assert p in s.attachments[h];
    } else {
      var k :| 0 <= k < |s.published.gpio| && id in s.published.gpio[k];
      var fired := EdgeOf(k % GPIO_EDGE_SLOTS + 1);
      var ids := Matching(At(s.routes, 0, k / GPIO_EDGE_SLOTS), fired);
      forall q | q in ids
        ensures q in Attached(s.attachments, ATTACH_GPIO) && ATTACH_GPIO in s.attachments && Live(s.programs, q)
      {
        MatchingAttached(s.routes, s.attachments, k / GPIO_EDGE_SLOTS, fired, q);
        assert HookValid(ATTACH_GPIO, s.attachments[ATTACH_GPIO], s.programs);
      }
      RuntimesOfLoaded(s.programs, ids);
      var i :| 0 <= i < |s.published.gpio[k]| && s.published.gpio[k][i] == id;
      p := ids[i];
    }
  }

  // ------------------------------------------------------------------------ accounting

  lemma ProgramTotalUpdate(slots: seq<Option<ProgramEntry>>, i: nat, e: Option<ProgramEntry>, m: Measure)
    requires i < |slots|
    ensures ProgramTotal(slots[i := e], m) + ProgramWeight(slots[i], m) == ProgramTotal(slots, m) + ProgramWeight(e, m)
  {
    assert ProgramWeights(slots[i := e], m) == ProgramWeights(slots, m)[i := ProgramWeight(e, m)];
    SumUpdate(ProgramWeights(slots, m), i, ProgramWeight(e, m));
  }

  lemma ProgramTotalAppend(slots: seq<Option<ProgramEntry>>, e: Option<ProgramEntry>, m: Measure)
    ensures ProgramTotal(slots + [e], m) == ProgramTotal(slots, m) + ProgramWeight(e, m)
  {
    assert ProgramWeights(slots + [e], m) == ProgramWeights(slots, m) + [ProgramWeight(e, m)];
    SumAppend(ProgramWeights(slots, m), ProgramWeight(e, m));
  }

  lemma MapTotalUpdate(slots: seq<Option<MapEntry>>, i: nat, e: Option<MapEntry>, m: Measure)
    requires i < |slots|
    ensures MapTotal(slots[i := e], m) + MapWeight(slots[i], m) == MapTotal(slots, m) + MapWeight(e, m)
  {
    assert MapWeights(slots[i := e], m) == MapWeights(slots, m)[i := MapWeight(e, m)];
    SumUpdate(MapWeights(slots, m), i, MapWeight(e, m));
  }

  lemma MapTotalAppend(slots: seq<Option<MapEntry>>, e: Option<MapEntry>, m: Measure)
    ensures MapTotal(slots + [e], m) == MapTotal(slots, m) + MapWeight(e, m)
  {
    assert MapWeights(slots + [e], m) == MapWeights(slots, m) + [MapWeight(e, m)];
    SumAppend(MapWeights(slots, m), MapWeight(e, m));
  }

  /** What is kept and what is lost add up. */
  lemma ProgramTotalSplit(slots: seq<Option<ProgramEntry>>, gone: set<nat>, m: Measure)
    ensures ProgramTotal(slots, m) == ProgramTotal(Retain(slots, gone), m) + ProgramTotal(Lost(slots, gone), m)
  {
    SumSplit(ProgramWeights(slots, m), ProgramWeights(Retain(slots, gone), m), ProgramWeights(Lost(slots, gone), m));
  }

  lemma MapTotalSplit(slots: seq<Option<MapEntry>>, gone: set<nat>, m: Measure)
    ensures MapTotal(slots, m) == MapTotal(Retain(slots, gone), m) + MapTotal(Lost(slots, gone), m)
  {
    SumSplit(MapWeights(slots, m), MapWeights(Retain(slots, gone), m), MapWeights(Lost(slots, gone), m));
  }

  lemma {:induction false} SumMonotone(us: seq<nat>, vs: seq<nat>)
    requires |us| == |vs| && forall i :: 0 <= i < |us| ==> us[i] <= vs[i]
    ensures Sum(us) <= Sum(vs)
  {
    if us != [] {
      SumMonotone(us[..|us| - 1], vs[..|vs| - 1]);
    }
  }

  /** Entries that keep their owner and charge weigh the same. */
  lemma MapTotalSame(slots: seq<Option<MapEntry>>, slots': seq<Option<MapEntry>>, m: Measure)
    requires |slots| == |slots'|
    requires forall i :: 0 <= i < |slots| ==> MapWeight(slots[i], m) == MapWeight(slots'[i], m)
    ensures MapTotal(slots, m) == MapTotal(slots', m)
  {
    assert MapWeights(slots, m) == MapWeights(slots', m);
  }

  // --------------------------------------------------------------------------- start

  lemma InitInv(config: Config, budget: nat, cycleUnit: nat)
    requires ValidLimits(config.limits) && budget <= U64_MAX && SafeProfile(budget, config.hookFrequency)
    ensures Inv(Init(config, budget, cycleUnit))
  {
    hide ProgramTotal, MapTotal, Project;
    var s := Init(config, budget, cycleUnit);
    forall m: Measure
      ensures ProgramTotal(s.programs.slots, m) == 0 && MapTotal(s.maps.slots, m) == 0
    {
      InitTotals(s.maps.slots[0], m);
    }
    InitProjected(config, budget, cycleUnit);
    assert s.ledger.committed == SumMap(s.ledger.per);
  }

  lemma InitTotals(e: Option<MapEntry>, m: Measure)
    requires MapWeight(e, m) == 0
    ensures ProgramTotal([], m) == 0 && MapTotal([e], m) == 0
  {
    var none: seq<Option<MapEntry>> := [];
    MapTotalAppend(none, e, m);
    assert none + [e] == [e];
  }

  lemma InitProjected(config: Config, budget: nat, cycleUnit: nat)
    ensures var s := Init(config, budget, cycleUnit); Project(s.programs, s.attachments, s.routes) == s.published
  {
    var s := Init(config, budget, cycleUnit);
    assert Matching([], Rising) == [];
    assert Project(s.programs, s.attachments, s.routes) == s.published;
  }

  /** Both shipped profiles satisfy what the invariant needs. */
  lemma ProfilesValid()
    ensures ValidLimits(CLOUD_LIMITS) && SafeProfile(U64_MAX, 0)
    ensures ValidLimits(EMBEDDED_LIMITS) && SafeProfile(500_000_000, 1000)
  {
  }
}
