/** The planner sorts its operations by issue. Sorting the plan of a ledger gives the plan of the
    sorted ledger, so what is proved of plans in ledger order is proved of sorted ones. */
module LedgerSorting {
  import opened Wrappers
  import opened BoardModel
  import opened ProjectPlan
  import opened PlanFixpoint
  import opened PlanAndApply
  import opened LedgerPlanning
  import opened LedgerRows
  import opened NameOrder

  function RowHandles(ledger: seq<LedgerRow>): (handles: seq<string>)
    ensures |handles| == |ledger| && forall i | 0 <= i < |ledger| :: handles[i] == ledger[i].handle
  {
    seq(|ledger|, i requires 0 <= i < |ledger| => ledger[i].handle)
  }

  function UpdateHandles(updates: seq<Update>): (handles: seq<string>)
    ensures |handles| == |updates| && forall i | 0 <= i < |updates| :: handles[i] == updates[i].handle
  {
    seq(|updates|, i requires 0 <= i < |updates| => updates[i].handle)
  }

  /** Deletes and updates are each sorted by issue. */
  ghost predicate Sorted(p: Planned) {
    Increasing(p.deletes) && Increasing(UpdateHandles(p.updates))
  }

  /** The same deletes and updates, in whatever order. */
  ghost predicate SameContents(p: Planned, q: Planned) {
    && (forall handle :: handle in p.deletes <==> handle in q.deletes)
    && (forall update :: update in p.updates <==> update in q.updates)
  }

  ghost predicate SameRows(a: seq<LedgerRow>, b: seq<LedgerRow>) {
    forall row :: row in a <==> row in b
  }

  // ---- The order of the rows does not matter ----

  lemma OrderIsIrrelevant(s: Snapshot, issues: LedgerPlanning.Issues, a: seq<LedgerRow>, b: seq<LedgerRow>)
    requires SameRows(a, b) && DistinctRows(a) && DistinctRows(b)
    ensures PlanLedger(s, issues, a).Ok? <==> PlanLedger(s, issues, b).Ok?
    ensures PlanLedger(s, issues, a).Ok? ==>
      SameContents(PlanLedger(s, issues, a).value, PlanLedger(s, issues, b).value)
  {
    hide PlanLedger, DesiredRow, UpdatePlan;
    PlansIff(s, issues, a);
    PlansIff(s, issues, b);
    if PlanLedger(s, issues, a).Ok? {
      ContentsOf(s, issues, a);
      ContentsOf(s, issues, b);
    }
  }

  /** What is in a plan, row by row. */
  lemma ContentsOf(s: Snapshot, issues: LedgerPlanning.Issues, ledger: seq<LedgerRow>)
    requires DistinctRows(ledger) && PlanLedger(s, issues, ledger).Ok?
    ensures forall row | row in ledger && row.kind.KeepInProject? ::
      row.handle in issues && row.handle in s.items && DesiredRow(s, Retain(issues, row)).Ok?
    ensures var plan := PlanLedger(s, issues, ledger).value;
      && (forall handle :: handle in plan.deletes <==>
            exists row | row in ledger :: row.kind == RemoveFromProject && row.handle == handle)
      && (forall update :: update in plan.updates <==>
            exists row | row in ledger && row.kind.KeepInProject? ::
              update == Update(row.handle, PlannedChanges(s, Retain(issues, row))) && update.changes != [])
  {
    hide PlanLedger, DesiredRow, UpdatePlan, PlannedChanges, CheckTotals;
    var rows := Retained(issues, ledger);
    PlansIff(s, issues, ledger);
    PlanLedgerIff(s, issues, ledger);
    RemovedRows(ledger);
    RetainedRows(issues, ledger);
    RetainedAreKept(issues, ledger);
    PlansIffAllPlanned(s, rows);
    PlanContents(s, rows);
    var updates := UpdatePlan(s, rows).value;
    forall row | row in ledger && row.kind.KeepInProject? ensures Retain(issues, row) in rows {
      KeptIsRetained(issues, ledger, row);
    }
    forall update | update in updates
      ensures exists row | row in ledger && row.kind.KeepInProject? ::
        update == Update(row.handle, PlannedChanges(s, Retain(issues, row))) && update.changes != []
    {
      assert UpdateOfSome(s, rows, update);
    }
  }

  // ---- The plan of a sorted ledger is sorted ----

  lemma {:induction false} PlanOfSorted(s: Snapshot, issues: LedgerPlanning.Issues, ledger: seq<LedgerRow>)
    requires PlanRows(s, issues, ledger).Ok? && Increasing(RowHandles(ledger))
    ensures Sorted(PlanRows(s, issues, ledger).value)
    ensures var plan := PlanRows(s, issues, ledger).value;
      && (forall handle | handle in plan.deletes :: handle in RowHandles(ledger))
      && (forall handle | handle in UpdateHandles(plan.updates) :: handle in RowHandles(ledger))
  {
    hide DesiredRow, Changes, PlanRow, NameLess;
    if ledger != [] {
      var n := |ledger| - 1;
      var front, handles := ledger[..n], RowHandles(ledger);
      assert handles == RowHandles(front) + [ledger[n].handle];
      PlanOfSorted(s, issues, front);
      var before, plan := PlanRows(s, issues, front).value, PlanRows(s, issues, ledger).value;
      AddsAtMostOne(s, issues, ledger[n], before);
      assert forall handle | handle in RowHandles(front) :: NameLess(handle, ledger[n].handle);
      if |plan.updates| > |before.updates| {
        assert UpdateHandles(plan.updates) == UpdateHandles(before.updates) + [ledger[n].handle];
      }
    }
  }

  lemma AddsAtMostOne(s: Snapshot, issues: LedgerPlanning.Issues, row: LedgerRow, sofar: Planned)
    requires PlanRow(s, issues, row, sofar).Ok?
    ensures var next := PlanRow(s, issues, row, sofar).value;
      && (next.deletes == sofar.deletes || next.deletes == sofar.deletes + [row.handle])
      && (next.updates == sofar.updates ||
          exists changes :: next.updates == sofar.updates + [Update(row.handle, changes)])
  {
    hide DesiredRow, Changes;
  }

  // ---- Sorting the plan ----

  lemma SameSorted(p: Planned, q: Planned)
    requires Sorted(p) && Sorted(q) && SameContents(p, q)
    ensures p == q
  {
    hide NameLess;
    assert Elements(p.deletes) == Elements(q.deletes);
    SortedIsUnique(p.deletes, q.deletes);
    var a, b := UpdateHandles(p.updates), UpdateHandles(q.updates);
    forall handle ensures handle in a <==> handle in b {
      if handle in a {
        var i :| 0 <= i < |a| && a[i] == handle;
        assert p.updates[i] in q.updates;
        var j :| 0 <= j < |b| && q.updates[j] == p.updates[i];
        assert b[j] == handle;
      }
      if handle in b {
        var j :| 0 <= j < |b| && b[j] == handle;
        assert q.updates[j] in p.updates;
        var i :| 0 <= i < |a| && p.updates[i] == q.updates[j];
        assert a[i] == handle;
      }
    }
    assert Elements(a) == Elements(b);
    SortedIsUnique(a, b);
    forall i | 0 <= i < |a| ensures p.updates[i] == q.updates[i] {
      assert p.updates[i] in q.updates;
      var j :| 0 <= j < |b| && q.updates[j] == p.updates[i];
      assert b[j] == a[i] == b[i];
      OnePlace(b, i, j);
    }
    assert p.updates == q.updates;
  }

  lemma OnePlace(names: seq<string>, i: nat, j: nat)
    requires Increasing(names) && i < |names| && j < |names| && names[i] == names[j]
    ensures i == j
  {
    NameLessTotal(names[i], names[i]);
  }

  /** Sort the deletes and the updates of a ledger's plan by issue: the outcome is the plan of the ledger
      sorted by issue. */
  lemma SortedPlan(s: Snapshot, issues: LedgerPlanning.Issues, ledger: seq<LedgerRow>, sorted: seq<LedgerRow>,
      plan: Planned)
    requires DistinctRows(ledger) && PlanLedger(s, issues, ledger).Ok?
    requires SameRows(ledger, sorted) && Increasing(RowHandles(sorted))
    requires Sorted(plan) && SameContents(plan, PlanLedger(s, issues, ledger).value)
    ensures PlanLedger(s, issues, sorted) == Ok(plan)
  {
    hide PlanRows, CheckTotals, NameLess;
    SortedIsDistinct(sorted);
    OrderIsIrrelevant(s, issues, ledger, sorted);
    PlanOfSorted(s, issues, sorted);
    SameSorted(plan, PlanLedger(s, issues, sorted).value);
  }

  lemma SortedIsDistinct(ledger: seq<LedgerRow>)
    requires Increasing(RowHandles(ledger))
    ensures DistinctRows(ledger)
  {
    forall i, j | 0 <= i < j < |ledger| ensures ledger[i].handle != ledger[j].handle {
      assert NameLess(RowHandles(ledger)[i], RowHandles(ledger)[j]);
      NameLessTotal(ledger[i].handle, ledger[i].handle);
    }
  }
}
