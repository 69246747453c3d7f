/**
 Map leases and the manager together (kernel/src/bpf/mod.rs): what an activation leases is a map its program
 captured, so it is alive and cannot be destroyed while the program is loaded.
 */
module LeaseLife {
  import opened Handles
  import opened Authorization
  import opened BpfState
  import opened BpfInvariants
  import opened BpfRuns
  import opened BpfTheorems
  import Lease = MapLease

  /** The program's private view names the map. */
  ghost predicate Views(p: ProgramRuntime, runtime: nat) {
    exists k :: 0 <= k < |p.maps| && p.maps[k].Some? && p.maps[k].value.runtime == runtime
  }

  ghost predicate LeasesOwn(x: Lease.Activation) {
    && (forall k :: 0 <= k < |x.leased| ==> Views(x.program, x.leased[k]))
    && (x.phase.Running? && x.phase.taking.Some? ==> Views(x.program, x.phase.taking.value))
  }

  ghost predicate AllLeasesOwn(m: Lease.Machine) {
    forall a :: a in m.acts ==> LeasesOwn(m.acts[a])
  }

  lemma WantedViewed(m: Lease.Machine, e: nat, handle: nat, required: Access)
    requires e in m.acts && Lease.Wanted(m, e, handle, required).Some?
    ensures Views(m.acts[e].program, Lease.Wanted(m, e, handle, required).value)
  {
  }

  lemma StepLeasesOwn(m: Lease.Machine, step: Lease.Step)
    requires AllLeasesOwn(m)
    ensures AllLeasesOwn(Lease.Next(m, step))
  {
    hide Views, Lease.Wanted;
    var m' := Lease.Next(m, step);
    forall a | a in m'.acts
      ensures LeasesOwn(m'.acts[a])
    {
      if a in m.acts {
        assert LeasesOwn(m.acts[a]);
        if step.MapCall? && Lease.Wanted(m, a, step.handle, step.required).Some? {
          WantedViewed(m, a, step.handle, step.required);
        }
      }
    }
  }

  lemma {:induction false} RunLeasesOwn(steps: seq<Lease.Step>)
    ensures AllLeasesOwn(Lease.Run(Lease.START, steps))
  {
    hide AllLeasesOwn, Lease.Next;
    if steps == [] {
      NoLeases();
    } else {
      RunLeasesOwn(steps[..|steps| - 1]);
      StepLeasesOwn(Lease.Run(Lease.START, steps[..|steps| - 1]), steps[|steps| - 1]);
    }
  }

  lemma NoLeases()
    ensures AllLeasesOwn(Lease.START)
  {
  }

  /** In every interleaving an activation holds only maps its own program captured. */
  lemma HeldIsCaptured(steps: seq<Lease.Step>, a: nat, x: nat)
    requires Lease.Holds(Lease.Run(Lease.START, steps), Lease.Execution(a), x)
    ensures Views(Lease.Run(Lease.START, steps).acts[a].program, x)
  {
    hide Lease.Run, Views;
    RunLeasesOwn(steps);
    assert LeasesOwn(Lease.Run(Lease.START, steps).acts[a]);
  }

  lemma CapturedLive(s: State, prog: nat, x: nat) returns (i: nat)
    requires Inv(s) && Live(s.programs, prog) && Views(Entry(s.programs, prog).program, x)
    ensures Occupied(s.maps, i) && s.maps.slots[i].value.runtime == x && CapturedBySome(s.programs, x)
  {
    hide TablesOk, HooksOk, ProgramCounts, MapCounts, LedgerMatches, PinsResolve;
    var e := Entry(s.programs, prog);
    assert Occupied(s.programs, Slot(prog)) && EntryResolves(s.maps, e);
    i :| 0 <= i < |e.program.maps| && e.program.maps[i].Some? && e.program.maps[i].value.runtime == x;
    assert CaptureResolves(s.maps, i, e.program.maps[i].value);
    assert CapturesRuntime(e, x);
  }

  /** A live map of this runtime that no caller can destroy. */
  ghost predicate Safe(s: State, i: int, x: nat)
    requires WellFormed(s)
  {
    && Occupied(s.maps, i) && s.maps.slots[i].value.runtime == x
    && forall owner: nat :: Destroy(s, owner, HandleOf(s.maps, i)).reply.Failed?
  }

  lemma CapturedSafe(s: State, i: nat)
    requires Inv(s) && Occupied(s.maps, i) && CapturedBySome(s.programs, s.maps.slots[i].value.runtime)
    ensures WellFormed(s) && Safe(s, i, s.maps.slots[i].value.runtime)
  {
    hide Inv, CapturedBySome, Pinned, MapStrongCount;
    InvWellFormed(s);
    OccupiedLive(s.maps, i);
    forall owner: nat
      ensures Destroy(s, owner, HandleOf(s.maps, i)).reply.Failed?
    {
      DestroySucceedsIff(s, owner, HandleOf(s.maps, i));
    }
  }

  /**
   An activation runs a program the manager had loaded. In every later state of the manager in which the program is
   still loaded, every map the activation leases is a live map of the table and nobody can destroy it.
   */
  lemma LeasedMapsLive(s: State, ops: seq<Op>, more: seq<Op>, prog: nat, steps: seq<Lease.Step>, a: nat, x: nat)
    requires Inv(s) && Live(After(s, ops).programs, prog) && Live(After(s, ops + more).programs, prog)
    requires Lease.Holds(Lease.Run(Lease.START, steps), Lease.Execution(a), x)
    requires Lease.Run(Lease.START, steps).acts[a].program == Entry(After(s, ops).programs, prog).program
    ensures WellFormed(After(s, ops + more)) && exists i :: Safe(After(s, ops + more), i, x)
  {
    hide Inv, After, Views, Lease.Run, Safe;
    var b := After(s, ops + more);
    HeldIsCaptured(steps, a, x);
    AfterConcat(s, ops, more);
    ProgramStable(After(s, ops), more, prog);
    var i := CapturedLive(b, prog, x);
    CapturedSafe(b, i);
  }
}
