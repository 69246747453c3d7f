/**
 Utilization admission and the attachment transaction
 (kernel/crates/kernel_bpf/src/verifier/admission.rs).
 */
module Admission {
  import opened Common

  /** Program ids per hook, in attachment order. */
  type Attachments = map<nat, seq<nat>>

  datatype Ledger = Ledger(budget: nat, cycleUnit: nat, committed: nat, per: map<(nat, nat), nat>)

  datatype CommitResult =
    | Committed(attachments: Attachments, ledger: Ledger)
    | OverBudget
    | NoReservation

  function Attached(attachments: Attachments, hook: nat): seq<nat> {
    if hook in attachments then attachments[hook] else []
  }

  function Contribution(l: Ledger, wcet: nat, freq: nat): nat {
    SatMul(SatMul(wcet, l.cycleUnit), freq)
  }

  /** `admit`; the committed total is a 64-bit counter whose `+=` is not saturating. */
  function Admit(l: Ledger, hook: nat, prog: nat, wcet: nat, freq: nat): Option<Ledger> {
    if (hook, prog) in l.per then Some(l)
    else
      var requested := Contribution(l, wcet, freq);
      if SatAdd(l.committed, requested) > l.budget then None
      else Some(l.(committed := (l.committed + requested) % (U64_MAX + 1),
                   per := l.per[(hook, prog) := requested]))
  }

  function Release(l: Ledger, hook: nat, prog: nat): Ledger {
    if (hook, prog) in l.per then
      l.(committed := SatSub(l.committed, l.per[(hook, prog)]), per := l.per - {(hook, prog)})
    else l
  }

  /** `commit_attachment_with_reservation`; `memory` is the answer of the list reservation. */
  function Commit(attachments: Attachments, l: Ledger, hook: nat, prog: nat, wcet: nat, freq: nat,
                  memory: bool): CommitResult {
    match Admit(l, hook, prog, wcet, freq)
    case None => OverBudget
    case Some(admitted) =>
      if prog in Attached(attachments, hook) then Committed(attachments, admitted)
      else if !memory then NoReservation
      else Committed(attachments[hook := Attached(attachments, hook) + [prog]], admitted)
  }

  /** The committed utilization is exactly what the attachments were admitted with, within the budget. */
  ghost predicate Balanced(l: Ledger) {
    l.committed == SumMap(l.per) <= l.budget <= U64_MAX
  }

  /** The profiles pair an unbounded budget with a zero hook frequency. */
  predicate SafeProfile(budget: nat, freq: nat) {
    budget < U64_MAX || freq == 0
  }

  /** A successful admission stays balanced exactly when the 64-bit total does not wrap. */
  lemma AdmitBalanced(l: Ledger, hook: nat, prog: nat, wcet: nat, freq: nat)
    requires Balanced(l) && (hook, prog) !in l.per && Admit(l, hook, prog, wcet, freq).Some?
    ensures Balanced(Admit(l, hook, prog, wcet, freq).value) <==>
              l.committed + Contribution(l, wcet, freq) <= U64_MAX
    ensures SafeProfile(l.budget, freq) ==> Balanced(Admit(l, hook, prog, wcet, freq).value)
  {
    var requested := Contribution(l, wcet, freq);
    SumMapInsert(l.per, (hook, prog), requested);
  }

  /** With an unbounded budget and a firing hook the total wraps and undercounts. */
  lemma UnboundedBudgetWraps()
    ensures exists l: Ledger, wcet: nat, freq: nat ::
              && Balanced(l) && l.budget == U64_MAX && freq != 0
              && Admit(l, 1, 1, wcet, freq).Some?
              && !Balanced(Admit(l, 1, 1, wcet, freq).value)
  {
    var per: map<(nat, nat), nat> := map[];
    var l := Ledger(U64_MAX, 1, 1, per[(1, 0) := 1]);
    SumMapInsert(per, (1, 0), 1);
    var admitted := Admit(l, 1, 1, U64_MAX, 1);
    assert Contribution(l, U64_MAX, 1) == U64_MAX;
    AdmitBalanced(l, 1, 1, U64_MAX, 1);
  }

  lemma ReleaseBalanced(l: Ledger, hook: nat, prog: nat)
    requires Balanced(l)
    ensures Balanced(Release(l, hook, prog))
  {
    if (hook, prog) in l.per {
      SumMapRemove(l.per, (hook, prog));
    }
  }

  /** A firing hook under an unbounded budget is the only way for an admitted total to wrap. */
  lemma AdmitFits(l: Ledger, hook: nat, prog: nat, wcet: nat, freq: nat)
    requires Balanced(l) && SafeProfile(l.budget, freq) && (hook, prog) !in l.per
             && Admit(l, hook, prog, wcet, freq).Some?
    ensures l.committed + Contribution(l, wcet, freq) <= U64_MAX
  {
  }

  /** A rollback restores the total exactly when the admission did not wrap it. */
  lemma RollbackExact(l: Ledger, hook: nat, prog: nat, wcet: nat, freq: nat)
    requires l.committed <= U64_MAX && Admit(l, hook, prog, wcet, freq).Some?
    ensures var back := Release(Admit(l, hook, prog, wcet, freq).value, hook, prog);
            && back.per == l.per - {(hook, prog)}
            && (back == l <==> (hook, prog) !in l.per && l.committed + Contribution(l, wcet, freq) <= U64_MAX)
  {
    var requested := Contribution(l, wcet, freq);
    assert (hook, prog) !in l.per ==>
             l.per[(hook, prog) := requested] - {(hook, prog)} == l.per == l.per - {(hook, prog)};
  }

  /**
   A failed reservation that does not restore the ledger: the budget is unbounded, the admission wrapped the total, and
   the rollback leaves zero where one unit is still attached.
   */
  lemma WrappedRollback()
    ensures var l := Ledger(U64_MAX, 1, 1, map[(1, 0) := 1]);
            var admitted := Admit(l, 1, 1, U64_MAX, 1);
            && Balanced(l) && Commit(map[1 := [0]], l, 1, 1, U64_MAX, 1, false) == NoReservation
            && admitted.Some? && Release(admitted.value, 1, 1) == l.(committed := 0)
            && !Balanced(Release(admitted.value, 1, 1))
  {
    var none: map<(nat, nat), nat> := map[];
    SumMapInsert(none, (1, 0), 1);
    var l := Ledger(U64_MAX, 1, 1, map[(1, 0) := 1]);
    assert none[(1, 0) := 1] == l.per;
    assert Contribution(l, U64_MAX, 1) == U64_MAX;
    assert l.per[(1, 1) := U64_MAX] - {(1, 1)} == l.per;
  }

  /** Another: the pair was admitted before without being attached, and the rollback takes that admission away. */
  lemma RepeatedRollback()
    ensures var l := Ledger(10, 1, 1, map[(1, 1) := 1]);
            var admitted := Admit(l, 1, 1, 1, 1);
            && Balanced(l) && Commit(map[], l, 1, 1, 1, 1, false) == NoReservation
            && admitted == Some(l) && Release(l, 1, 1) == l.(committed := 0, per := map[])
  {
    var none: map<(nat, nat), nat> := map[];
    SumMapInsert(none, (1, 1), 1);
    var l := Ledger(10, 1, 1, map[(1, 1) := 1]);
    assert none[(1, 1) := 1] == l.per;
    assert l.per - {(1, 1)} == map[];
  }

  /** Rolling an admission back restores the ledger. */
  lemma ReleaseUndoesAdmit(l: Ledger, hook: nat, prog: nat, wcet: nat, freq: nat)
    requires Balanced(l) && (hook, prog) !in l.per && SafeProfile(l.budget, freq)
    requires Admit(l, hook, prog, wcet, freq).Some?
    ensures Release(Admit(l, hook, prog, wcet, freq).value, hook, prog) == l
  {
    AdmitFits(l, hook, prog, wcet, freq);
    RollbackExact(l, hook, prog, wcet, freq);
  }

  /**
   The transaction as the source runs it: admit, then reserve, rolling back on failure. A failed reservation leaves
   the ledger as it was exactly when the admission was new and its total did not wrap.
   */
  method CommitAttachment(attachments: Attachments, l: Ledger, hook: nat, prog: nat, wcet: nat, freq: nat, memory: bool)
    returns (r: CommitResult, ledger: Ledger)
    requires l.committed <= U64_MAX
    ensures r == Commit(attachments, l, hook, prog, wcet, freq, memory)
    ensures r.Committed? ==> ledger == r.ledger
    ensures r.OverBudget? ==> ledger == l
    ensures r.NoReservation? ==> ledger.per == l.per - {(hook, prog)}
    ensures r.NoReservation? ==>
              (ledger == l <==> (hook, prog) !in l.per && l.committed + Contribution(l, wcet, freq) <= U64_MAX)
  {
    ledger := l;
    var admitted := Admit(ledger, hook, prog, wcet, freq);
    if admitted.None? {
      return OverBudget, l;
    }
    ledger := admitted.value;
    var list := Attached(attachments, hook);
    if prog in list {
      return Committed(attachments, ledger), ledger;
    }
    if !memory {
      RollbackExact(l, hook, prog, wcet, freq);
      ledger := Release(ledger, hook, prog);
      return NoReservation, ledger;
    }
    return Committed(attachments[hook := list + [prog]], ledger), ledger;
  }

  // ----------------------------------------------------------- releasing many attachments

  /** Release of a whole set of attachments. */
  ghost function ReleaseAll(l: Ledger, keys: set<(nat, nat)>): Ledger {
    l.(committed := SatSub(l.committed, SumMap(l.per - (l.per.Keys - keys))), per := l.per - keys)
  }

  lemma ReleaseAllBalanced(l: Ledger, keys: set<(nat, nat)>)
    requires Balanced(l)
    ensures Balanced(ReleaseAll(l, keys))
  {
    SumMapSplit(l.per, keys);
  }

  /** Releasing one more attachment extends the released set. */
  lemma ReleaseAllStep(l: Ledger, keys: set<(nat, nat)>, hook: nat, prog: nat)
    requires Balanced(l)
    ensures Release(ReleaseAll(l, keys), hook, prog) == ReleaseAll(l, keys + {(hook, prog)})
  {
    var k := (hook, prog);
    var a, b := ReleaseAll(l, keys), ReleaseAll(l, keys + {k});
    SumMapSplit(l.per, keys);
    SumMapSplit(l.per, keys + {k});
    assert l.per - (keys + {k}) == (l.per - keys) - {k};
    if k in a.per {
      SumMapRemove(a.per, k);
    } else {
      assert a.per - {k} == a.per;
    }
  }
}
