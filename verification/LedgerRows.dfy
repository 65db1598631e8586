/** What a plan of the ledger makes of the rows it keeps, in terms of the live issues and the board. */
module LedgerRows {
  import opened Wrappers
  import opened BoardModel
  import opened Inheritance
  import opened ProjectPlan
  import opened PlanFixpoint
  import opened ProjectApply
  import opened ApplyRestart
  import opened PlanAndApply
  import opened LedgerPlanning
  import opened LedgerRestart

  /** A field that the planner fills from an ancestor has the value at the end of a chain of blank rows. */
  ghost predicate HasSource(s: Snapshot, key: FieldKey, handle: string, value: Option<string>) {
    exists chain: seq<string> ::
      && SourceChain(s.items, s.parents, key, handle, chain)
      && value == Normalize(s.items[chain[|chain| - 1]][key].value)
  }

  /** The option of a field is the one its value names, if the field has options. */
  predicate HasOwnOption(schema: Schema, key: FieldKey, f: Field) {
    var value, options := Normalize(f.value), Options(schema, key);
    if value.None? || options == map[] then Normalize(f.optionId) == None
    else value.value in options && Normalize(f.optionId) == Normalize(Some(options[value.value]))
  }

  /** The title is the issue's. The status is `Done` exactly for a closed issue; for an open one it is
      `In Progress` if it was, and `Todo` otherwise. Any other field keeps its value if it has one, and
      gets the nearest ancestor's if it has none, except on the one issue that inherits nothing. */
  ghost predicate KeptField(s: Snapshot, handle: string, issue: LiveIssue, key: FieldKey, after: Field)
    requires handle in s.items
  {
    var was, now := Normalize(s.items[handle][key].value), Normalize(after.value);
    && HasOwnOption(s.schema, key, after)
    && match key
       case Title => now.Some? && now == Normalize(Some(issue.title))
       case Status =>
         && (now == Some("Done") <==> issue.closed)
         && (now == Some("In Progress") <==> !issue.closed && was == Some("In Progress"))
         && (now == Some("Todo") <==> !issue.closed && was != Some("In Progress"))
       case _ =>
         if was.Some? then now == was
         else if handle == "hyperpush#24" then now == None
         else HasSource(s, key, handle, now)
  }

  ghost predicate KeptRow(s: Snapshot, issues: LedgerPlanning.Issues, row: LedgerRow, later: Board) {
    && row.handle in issues && row.handle in s.items && row.handle in later
    && forall key: FieldKey :: KeptField(s, row.handle, issues[row.handle], key, later[row.handle][key])
  }

  // ---- When there is a plan ----

  /** The planner makes a plan exactly when the board has the rows it was written for, the transferred
      issue has none, and every row of the ledger passes its guards: its issue is known, unless it is
      the transferred one; it is on the board if it is said to be; a row to be removed is on the board,
      a row to be left untracked neither is nor is said to be, a row to be kept is and can be planned,
      and no row is of an unknown kind. */
  lemma PlansIff(s: Snapshot, issues: LedgerPlanning.Issues, ledger: seq<LedgerRow>)
    ensures PlanLedger(s, issues, ledger).Ok? <==>
      && |s.items| == 63
      && |set handle | handle in s.items && "mesh-lang#" <= handle| == 16
      && |set handle | handle in s.items && "hyperpush#" <= handle| == 47
      && "hyperpush#8" !in s.items
      && forall row | row in ledger ::
           && (row.handle in issues || row.handle == "hyperpush#8")
           && (row.projectBacked ==> row.handle in s.items)
           && (row.kind.RemoveFromProject? ==> row.handle in s.items)
           && (row.kind.LeaveUntracked? ==> row.handle !in s.items && !row.projectBacked)
           && (row.kind.KeepInProject? ==>
                 row.handle in s.items && row.handle in issues && DesiredRow(s, Retain(issues, row)).Ok?)
           && !row.kind.UnknownKind?
  {
    hide DesiredRow, UpdatePlan, PlanLedger, RowsIn;
    PlanLedgerIff(s, issues, ledger);
    CountsInPlainWords(s.items);
    PlansIffAllPlanned(s, Retained(issues, ledger));
    RetainedAreKept(issues, ledger);
    if UpdatePlan(s, Retained(issues, ledger)).Ok? {
      forall row | row in ledger && row.kind.KeepInProject? && row.handle in issues
        ensures DesiredRow(s, Retain(issues, row)).Ok?
      {
        KeptIsRetained(issues, ledger, row);
      }
    }
  }

  lemma CountsInPlainWords(items: Board)
    ensures |items.Keys| == |items|
    ensures RowsIn(items.Keys, MESH) == |set handle | handle in items && "mesh-lang#" <= handle|
    ensures RowsIn(items.Keys, HYPERPUSH) == |set handle | handle in items && "hyperpush#" <= handle|
  {
    assert MESH + "#" == "mesh-lang#" && HYPERPUSH + "#" == "hyperpush#";
    assert (set handle | handle in items.Keys && "mesh-lang#" <= handle)
        == (set handle | handle in items && "mesh-lang#" <= handle);
    assert (set handle | handle in items.Keys && "hyperpush#" <= handle)
        == (set handle | handle in items && "hyperpush#" <= handle);
  }

  lemma {:induction false} RetainedAreKept(issues: LedgerPlanning.Issues, ledger: seq<LedgerRow>)
    ensures forall r | r in Retained(issues, ledger) ::
      exists row | row in ledger :: row.kind.KeepInProject? && row.handle in issues && r == Retain(issues, row)
  {
    if ledger != [] {
      var n := |ledger| - 1;
      assert ledger == ledger[..n] + [ledger[n]];
      RetainedAreKept(issues, ledger[..n]);
    }
  }

  /** What the planner says of the first row that fails: the guards in their order. */
  lemma RowErrors(s: Snapshot, issues: LedgerPlanning.Issues, row: LedgerRow, sofar: Planned)
    ensures var r, onBoard := PlanRow(s, issues, row, sofar), row.handle in s.items;
      var unknown := row.handle !in issues && row.handle != "hyperpush#8";
      var gone := row.projectBacked && !onBoard;
      && (r == Err(MissingIssue(row.handle)) <==> unknown)
      && (r == Err(BackedRowGone(row.handle)) <==> !unknown && gone)
      && (r == Err(UntrackedIsBacked(row.handle)) <==>
            !unknown && !gone && row.kind.LeaveUntracked? && row.projectBacked)
      && (r == Err(UntrackedOnBoard(row.handle)) <==>
            !unknown && row.kind.LeaveUntracked? && !row.projectBacked && onBoard)
      && (r == Err(StaleRowGone(row.handle)) <==> !unknown && !gone && row.kind.RemoveFromProject? && !onBoard)
      && (r == Err(CannotRetain(row.handle)) <==>
            !unknown && !gone && row.kind.KeepInProject? && !(onBoard && row.handle in issues))
      && (r == Err(UnexpectedKind(row.handle)) <==> !unknown && !gone && row.kind.UnknownKind?)
      && (r.Err? && r.error.CannotPlan? ==>
            row.kind.KeepInProject? && row.handle in issues && DesiredRow(s, Retain(issues, row)) == Err(r.error.error))
  {
    hide DesiredRow, Changes;
  }

  // ---- One field ----

  lemma DesiredHasOption(schema: Schema, key: FieldKey, value: Option<string>, after: Field)
    requires DesiredField(schema, key, value).Ok?
    requires ValueMatches(after, DesiredField(schema, key, value).value)
    ensures Normalize(after.value) == Normalize(value) && HasOwnOption(schema, key, after)
  {
  }

  lemma FieldIsKept(s: Snapshot, issues: LedgerPlanning.Issues, row: LedgerRow, key: FieldKey, after: Field)
    requires row.handle in issues && row.handle in s.items
    requires DesiredFor(s, Retain(issues, row), key).Ok?
    requires ValueMatches(after, DesiredFor(s, Retain(issues, row), key).value)
    ensures KeptField(s, row.handle, issues[row.handle], key, after)
  {
    hide PlainResolve, DesiredField, ValueMatches, HasOwnOption;
    var retained := Retain(issues, row);
    var value := DesiredValue(s, retained, key).value;
    DesiredHasOption(s.schema, key, value, after);
    StatusTexts();
    if key != Title && key != Status && Normalize(s.items[row.handle][key].value).None? && row.handle != UNINHERITED {
      PlainResolveIsAnswer(s.items, s.parents, key, row.handle);
      var found := PlainResolve(s.items, s.parents, key, row.handle, {}).value;
      assert value == Some(found.value) == Normalize(s.items[found.chain[|found.chain| - 1]][key].value);
      assert HasSource(s, key, row.handle, Normalize(after.value));
    }
  }

  lemma StatusTexts()
    ensures forall s | s in {"Done", "In Progress", "Todo"} :: Normalize(Some(s)) == Some(s)
  {
    assert Stripped("Done") && Stripped("In Progress") && Stripped("Todo");
  }

  // ---- One row ----

  lemma PlannedRowIsKept(s: Snapshot, issues: LedgerPlanning.Issues, row: LedgerRow, later: Board)
    requires row.handle in issues && row.handle in s.items && row.handle in later
    requires DesiredRow(s, Retain(issues, row)).Ok? && later[row.handle] == PlannedFields(s, Retain(issues, row))
    ensures KeptRow(s, issues, row, later)
  {
    hide DesiredRow, KeptField, PlannedFields, ValueMatches, DesiredFor, Applied;
    var retained := Retain(issues, row);
    DesiredRowFields(s, retained);
    forall key: FieldKey ensures KeptField(s, row.handle, issues[row.handle], key, later[row.handle][key]) {
      PlannedIsApplied(s, retained, key);
      assert DesiredFor(s, retained, key) == Ok(DesiredRow(s, retained).value[key]);
      FieldIsKept(s, issues, row, key, later[row.handle][key]);
    }
  }

  lemma {:induction false} KeptIsRetained(issues: LedgerPlanning.Issues, ledger: seq<LedgerRow>, row: LedgerRow)
    requires row in ledger && row.kind == KeepInProject && row.handle in issues
    ensures Retain(issues, row) in Retained(issues, ledger)
  {
    var n := |ledger| - 1;
    if ledger[n] != row {
      KeptIsRetained(issues, ledger[..n], row);
    }
  }

  lemma AppliedRowIsKept(s: Snapshot, issues: LedgerPlanning.Issues, ledger: seq<LedgerRow>, row: LedgerRow,
      later: Board)
    requires PlanLedger(s, issues, ledger).Ok? && row in ledger && row.kind == KeepInProject
    requires RowsApplied(s, Retained(issues, ledger), later)
    ensures KeptRow(s, issues, row, later)
  {
    hide PlanLedger, DesiredRow, PlannedFields, KeptField, UpdatePlan, CheckTotals;
    PlanLedgerIff(s, issues, ledger);
    assert Allowed(s, issues, row);
    KeptIsRetained(issues, ledger, row);
    PlannedRowIsKept(s, issues, row, later);
  }

  // ---- The plan and the run ----

  /** If the ledger can be planned and the updates of the plan are executed, every kept row is as its
      live issue and the board it was planned on say. */
  lemma UpdatesKeepRows(s: Snapshot, issues: LedgerPlanning.Issues, ledger: seq<LedgerRow>, row: LedgerRow)
    requires DistinctRows(ledger) && PlanLedger(s, issues, ledger).Ok? && row in ledger && row.kind == KeepInProject
    ensures KeptRow(s, issues, row, ApplyUpdates(s.items, PlanLedger(s, issues, ledger).value.updates))
  {
    hide PlanLedger, DesiredRow, KeptRow, UpdatePlan, CheckTotals, RowsApplied, AllAllowed;
    PlanLedgerIff(s, issues, ledger);
    RetainedRows(issues, ledger);
    PlansIffAllPlanned(s, Retained(issues, ledger));
    UpdatesApplyFully(s, Retained(issues, ledger));
    AppliedRowIsKept(s, issues, ledger, row, ApplyUpdates(s.items, PlanLedger(s, issues, ledger).value.updates));
  }

  /** The same when the whole plan is run, deletes and adds included. */
  lemma RunKeepsRows(p: Project, s: Snapshot, issues: LedgerPlanning.Issues, ledger: seq<LedgerRow>,
      adds: seq<Operation>, row: LedgerRow)
    requires LedgerReady(p, s, issues, ledger, adds) && row in ledger && row.kind == KeepInProject
    ensures UpdatePlan(s, Retained(issues, ledger)).Ok?
    ensures var ops := Whole(s, Retained(issues, ledger), Front(ledger, adds));
      PlannedOperations(p, ops) && Run(p, ops, s.items).ok && KeptRow(s, issues, row, Run(p, ops, s.items).board)
  {
    hide PlanLedger, DesiredRow, KeptRow, UpdatePlan, CheckTotals, RowsApplied, Run, PlannedOperations, Ready, Whole,
      DistinctTargets;
    LedgerIsReady(p, s, issues, ledger, adds);
    ReadyStops(p, s, Retained(issues, ledger), Front(ledger, adds));
    RunAppliesPlan(p, s, Retained(issues, ledger), Front(ledger, adds));
    AppliedRowIsKept(s, issues, ledger, row,
      Run(p, Whole(s, Retained(issues, ledger), Front(ledger, adds)), s.items).board);
  }
}
