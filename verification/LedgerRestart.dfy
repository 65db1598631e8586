/** A fresh plan of the whole ledger after a run has stopped. */
module LedgerRestart {
  import opened Wrappers
  import opened BoardModel
  import opened Inheritance
  import opened ProjectPlan
  import opened PlanFixpoint
  import opened ReplanSuccess
  import opened ProjectApply
  import opened ApplyRestart
  import opened StoppedRuns
  import opened PlanAndApply
  import opened LedgerPlanning

  // ---- The operations of a ledger ----

  function Deletes(ledger: seq<LedgerRow>): (ops: seq<Operation>)
    ensures |ops| == |Removed(ledger)| && forall i | 0 <= i < |ops| :: ops[i] == DeleteRow(Removed(ledger)[i])
  {
    seq(|Removed(ledger)|, i requires 0 <= i < |Removed(ledger)| => DeleteRow(Removed(ledger)[i]))
  }

  function Front(ledger: seq<LedgerRow>, adds: seq<Operation>): seq<Operation> {
    Deletes(ledger) + adds
  }

  /** A plan of the whole ledger: one row an issue, and adds of issues that are neither removed nor
      retained. */
  ghost predicate LedgerReady(p: Project, s: Snapshot, known: LedgerPlanning.Issues, ledger: seq<LedgerRow>,
      adds: seq<Operation>)
  {
    && SameSchema(p, s) && DistinctRows(ledger) && PlanLedger(s, known, ledger).Ok?
    && (forall op | op in adds :: op.AddRow? && PlannableChanges(p.schema, Wanted(op)))
    && (forall i, j | 0 <= i < j < |adds| :: adds[i].issue != adds[j].issue)
    && (forall op, row | op in adds && row in ledger && row.handle == op.issue ::
          row.kind == CreateProjectItem || row.kind == LeaveUntracked)
  }

  lemma LedgerIsReady(p: Project, s: Snapshot, known: LedgerPlanning.Issues, ledger: seq<LedgerRow>,
      adds: seq<Operation>)
    requires LedgerReady(p, s, known, ledger, adds)
    ensures Ready(p, s, Retained(known, ledger), Front(ledger, adds))
  {
    hide UpdatePlan, WellFormedSchema, Plannable, PlanLedger;
    var rows, front, removed := Retained(known, ledger), Front(ledger, adds), Removed(ledger);
    PlanLedgerIff(s, known, ledger);
    RetainedRows(known, ledger);
    RemovedRows(ledger);
    forall i, j | 0 <= i < j < |front| ensures front[i].issue != front[j].issue {
      if i < |removed| <= j {
        assert removed[i] in removed && adds[j - |removed|] in adds && front[j] == adds[j - |removed|];
      }
    }
    forall op | op in front ensures !op.UpdateRow? && PlannableChanges(p.schema, Wanted(op)) {
      assert op.DeleteRow? || op in adds;
    }
    forall row | row in rows ensures row.handle !in PlanAndApply.Issues(front) {
      RetainedIsNotFront(known, ledger, adds, row);
    }
  }

  lemma RetainedIsNotFront(known: LedgerPlanning.Issues, ledger: seq<LedgerRow>, adds: seq<Operation>, row: RetainedRow)
    requires DistinctRows(ledger) && row in Retained(known, ledger)
    requires forall op, row | op in adds && row in ledger && row.handle == op.issue ::
      row.kind == CreateProjectItem || row.kind == LeaveUntracked
    ensures row.handle !in PlanAndApply.Issues(Front(ledger, adds))
  {
    RetainedRows(known, ledger);
    RemovedRows(ledger);
    var kept :| kept in ledger && kept.kind == KeepInProject && kept.handle == row.handle;
    forall op | op in Front(ledger, adds) ensures op.issue != row.handle {
      if op !in adds {
        assert op.issue in Removed(ledger);
        var gone :| gone in ledger && gone.kind == RemoveFromProject && gone.handle == op.issue;
        if gone.handle == kept.handle {
          KindsAreDisjoint(ledger, gone, kept);
        }
      }
    }
  }

  // ---- Which rows are there at a stop ----

  lemma {:induction false} StaysUnlessDeleted(p: Project, board: Board, commands: seq<Command>, issue: string)
    requires WellFormedSchema(p.schema) && issue in board && ItemDelete(issue) !in commands
    ensures issue in ExecuteAll(p, board, commands)
    decreases commands
  {
    if commands != [] {
      assert commands[0] in commands;
      StaysUnlessDeleted(p, Execute(p, board, commands[0]), commands[1..], issue);
    }
  }

  lemma {:induction false} AbsentUnlessAdded(p: Project, board: Board, commands: seq<Command>, issue: string)
    requires WellFormedSchema(p.schema) && issue !in board && ItemAdd(issue) !in commands
    ensures issue !in ExecuteAll(p, board, commands)
    decreases commands
  {
    if commands != [] {
      assert commands[0] in commands;
      AbsentUnlessAdded(p, Execute(p, board, commands[0]), commands[1..], issue);
    }
  }

  lemma {:induction false} DeletedIsGone(p: Project, board: Board, commands: seq<Command>, issue: string)
    requires WellFormedSchema(p.schema) && ItemDelete(issue) in commands && ItemAdd(issue) !in commands
    ensures issue !in ExecuteAll(p, board, commands)
    decreases commands
  {
    assert commands[0] in commands;
    assert commands == [commands[0]] + commands[1..];
    if commands[0] == ItemDelete(issue) {
      AbsentUnlessAdded(p, Execute(p, board, commands[0]), commands[1..], issue);
    } else {
      DeletedIsGone(p, Execute(p, board, commands[0]), commands[1..], issue);
    }
  }

  lemma {:induction false} AddedIsThere(p: Project, board: Board, commands: seq<Command>, issue: string)
    requires WellFormedSchema(p.schema) && ItemAdd(issue) in commands && ItemDelete(issue) !in commands
    ensures issue in ExecuteAll(p, board, commands)
    decreases commands
  {
    assert commands[0] in commands;
    assert commands == [commands[0]] + commands[1..];
    if commands[0] == ItemAdd(issue) {
      StaysUnlessDeleted(p, Execute(p, board, commands[0]), commands[1..], issue);
    } else {
      AddedIsThere(p, Execute(p, board, commands[0]), commands[1..], issue);
    }
  }

  /** No issue is both deleted and added, and only rows to be removed are deleted. */
  lemma {:induction false} RunDeletesOwn(p: Project, ops: seq<Operation>, board: Board)
    requires PlannedOperations(p, ops)
    ensures forall c | c in Run(p, ops, board).commands && c.ItemDelete? ::
      exists op | op in ops :: op == DeleteRow(c.issue)
    decreases ops
  {
    hide ExecuteAll, PlannableChanges, Edits;
    if ops != [] && OperationCommandsOf(p, ops, board).Some? {
      PlannedTail(p, ops);
      var first := OperationCommands(p, ops[0], board).value;
      EditsAreOfChanges(p, ops[0].issue, StartRow(p, ops[0], board), Wanted(ops[0]));
      RunDeletesOwn(p, ops[1..], ExecuteAll(p, board, first));
      assert ops[0] in ops && forall op | op in ops[1..] :: op in ops;
    }
  }

  lemma NeverBoth(p: Project, s: Snapshot, rows: seq<RetainedRow>, front: seq<Operation>, n: nat, issue: string)
    requires Stops(p, s, rows, front, n)
    ensures var commands := Run(p, Whole(s, rows, front), s.items).commands[..n];
      ItemDelete(issue) in commands ==> ItemAdd(issue) !in commands
  {
    hide Run, PlannedOperations, DistinctTargets, Whole, Ready, UpdatePlan;
    var run := Run(p, Whole(s, rows, front), s.items);
    RunTowardsFinal(p, Whole(s, rows, front), s.items);
    assert forall c | c in run.commands[..n] :: c in run.commands;
  }

  // ---- When a fresh plan succeeds ----

  /** No row has been deleted or added. */
  ghost predicate OnlyEdits(commands: seq<Command>) {
    forall c | c in commands :: c.ItemEdit?
  }

  /** A run adds only rows that are not on the board, unless it has deleted them itself. */
  lemma {:induction false} AddsAreMissing(p: Project, ops: seq<Operation>, board: Board)
    requires PlannedOperations(p, ops)
    ensures var commands := Run(p, ops, board).commands;
      forall c | c in commands && c.ItemAdd? && c.issue in board :: ItemDelete(c.issue) in commands
    decreases ops
  {
    hide ExecuteAll, PlannableChanges, Edits;
    if ops != [] && OperationCommandsOf(p, ops, board).Some? {
      PlannedTail(p, ops);
      var first := OperationCommands(p, ops[0], board).value;
      var after := ExecuteAll(p, board, first);
      var rest := Run(p, ops[1..], after).commands;
      EditsAreOfChanges(p, ops[0].issue, StartRow(p, ops[0], board), Wanted(ops[0]));
      AddsAreMissing(p, ops[1..], after);
      forall c: Command | c in first + rest && c.ItemAdd? && c.issue in board
        ensures ItemDelete(c.issue) in first + rest
      {
        if c in rest && c.issue !in after {
          if ItemDelete(c.issue) !in first {
            StaysUnlessDeleted(p, board, first, c.issue);
          }
        }
      }
    }
  }

  lemma AddedWasMissing(p: Project, s: Snapshot, rows: seq<RetainedRow>, front: seq<Operation>, n: nat, issue: string)
    requires Stops(p, s, rows, front, n)
    requires ItemAdd(issue) in Run(p, Whole(s, rows, front), s.items).commands[..n]
    ensures issue !in s.items
  {
    hide Run, PlannedOperations, DistinctTargets, Whole, UpdatePlan;
    var ops := Whole(s, rows, front);
    var run := Run(p, ops, s.items);
    assert ItemAdd(issue) in run.commands;
    AddsAreMissing(p, ops, s.items);
    RunTowardsFinal(p, ops, s.items);
    assert TowardsFinal(p, run.board, ItemAdd(issue));
    assert ItemDelete(issue) in run.commands ==> TowardsFinal(p, run.board, ItemDelete(issue));
  }

  lemma DeleteIsRemoval(p: Project, s: Snapshot, known: LedgerPlanning.Issues, ledger: seq<LedgerRow>,
      adds: seq<Operation>, issue: string)
    requires LedgerReady(p, s, known, ledger, adds)
    requires UpdatePlan(s, Retained(known, ledger)).Ok?
    requires DeleteRow(issue) in Whole(s, Retained(known, ledger), Front(ledger, adds))
    ensures exists row | row in ledger :: row.kind == RemoveFromProject && row.handle == issue
  {
    RemovedRows(ledger);
    assert issue in Removed(ledger);
  }

  /** After a delete the planner misses the row it wants removed. */
  lemma DeletedFails(p: Project, s: Snapshot, known: LedgerPlanning.Issues, ledger: seq<LedgerRow>,
      adds: seq<Operation>, n: nat, c: Command)
    requires LedgerReady(p, s, known, ledger, adds)
    requires Stops(p, s, Retained(known, ledger), Front(ledger, adds), n)
    requires c in Run(p, Whole(s, Retained(known, ledger), Front(ledger, adds)), s.items).commands[..n]
    requires c.ItemDelete?
    ensures PlanLedger(s.(items := Stopped(p, s, Retained(known, ledger), Front(ledger, adds), n)), known, ledger).Err?
  {
    hide Run, PlannedOperations, DistinctTargets, Ready, UpdatePlan, PlanLedger, ExecuteAll, AllPlanned, CheckTotals;
    var rows, front := Retained(known, ledger), Front(ledger, adds);
    var ops := Whole(s, rows, front);
    var commands := Run(p, ops, s.items).commands;
    var again := s.(items := Stopped(p, s, rows, front, n));
    NeverBoth(p, s, rows, front, n, c.issue);
    PlanLedgerIff(again, known, ledger);
    DeletedIsGone(p, s.items, commands[..n], c.issue);
    RunDeletesOwn(p, ops, s.items);
    assert c in commands;
    DeleteIsRemoval(p, s, known, ledger, adds, c.issue);
  }

  lemma StrictlyMore(a: set<string>, b: set<string>, extra: string)
    requires a <= b && extra in b && extra !in a
    ensures |a| < |b|
  {
    assert a <= b - {extra};
    SubsetSize(a, b - {extra});
  }

  lemma {:induction false} SubsetSize(a: set<string>, b: set<string>)
    requires a <= b
    ensures |a| <= |b|
    decreases |a|
  {
    if a != {} {
      var x :| x in a;
      SubsetSize(a - {x}, b - {x});
    }
  }

  /** After adds alone the board has too many rows for the planner. */
  lemma AddedFails(p: Project, s: Snapshot, known: LedgerPlanning.Issues, ledger: seq<LedgerRow>,
      adds: seq<Operation>, n: nat, c: Command)
    requires LedgerReady(p, s, known, ledger, adds)
    requires Stops(p, s, Retained(known, ledger), Front(ledger, adds), n)
    requires c in Run(p, Whole(s, Retained(known, ledger), Front(ledger, adds)), s.items).commands[..n]
    requires c.ItemAdd?
    requires forall d | d in Run(p, Whole(s, Retained(known, ledger), Front(ledger, adds)), s.items).commands[..n] ::
      !d.ItemDelete?
    ensures PlanLedger(s.(items := Stopped(p, s, Retained(known, ledger), Front(ledger, adds), n)), known, ledger).Err?
  {
    hide Run, PlannedOperations, DistinctTargets, Ready, UpdatePlan, PlanLedger, ExecuteAll, AllPlanned, AllAllowed;
    var rows, front := Retained(known, ledger), Front(ledger, adds);
    var commands := Run(p, Whole(s, rows, front), s.items).commands[..n];
    var midway := Stopped(p, s, rows, front, n);
    AddedWasMissing(p, s, rows, front, n, c.issue);
    AddedIsThere(p, s.items, commands, c.issue);
    forall handle | handle in s.items ensures handle in midway {
      StaysUnlessDeleted(p, s.items, commands, handle);
    }
    StrictlyMore(s.items.Keys, midway.Keys, c.issue);
    PlanLedgerIff(s, known, ledger);
    PlanLedgerIff(s.(items := midway), known, ledger);
  }

  /** Without a delete, a row to be removed is as it was. */
  lemma UndeletedRow(p: Project, s: Snapshot, rows: seq<RetainedRow>, front: seq<Operation>, n: nat, handle: string)
    requires Stops(p, s, rows, front, n) && handle in Gone(front) && handle in s.items
    requires ItemDelete(handle) !in Run(p, Whole(s, rows, front), s.items).commands[..n]
    ensures var midway := Stopped(p, s, rows, front, n);
      handle in midway && midway[handle] == s.items[handle]
  {
    hide Run, PlannedOperations, DistinctTargets, UpdatePlan, ExecuteAll, Carried;
    var ops := Whole(s, rows, front);
    var midway := Stopped(p, s, rows, front, n);
    StaysUnlessDeleted(p, s.items, Run(p, ops, s.items).commands[..n], handle);
    StoppedBetween(p, ops, s.items, n);
    var i :| 0 <= i < |front| && front[i] == DeleteRow(handle);
    DeletedInTheEnd(p, s, rows, front, i);
    forall key: FieldKey ensures midway[handle][key] == s.items[handle][key] {
    }
  }

  lemma DeletedInTheEnd(p: Project, s: Snapshot, rows: seq<RetainedRow>, front: seq<Operation>, i: nat)
    requires Stops(p, s, rows, front, 0) && i < |front| && front[i].DeleteRow?
    ensures front[i].issue !in Run(p, Whole(s, rows, front), s.items).board
  {
    hide Run, PlannedOperations, DistinctTargets, UpdatePlan;
    PlanIsExecutable(p, s, rows, front);
    assert Whole(s, rows, front)[i] == front[i];
    OperationReached(p, Whole(s, rows, front), s.items, i);
  }

  /** Without a delete the whole board stays usable. */
  lemma UndeletedKeepsUsable(p: Project, s: Snapshot, rows: seq<RetainedRow>, front: seq<Operation>, n: nat)
    requires Stops(p, s, rows, front, n)
    requires forall c | c in Run(p, Whole(s, rows, front), s.items).commands[..n] :: !c.ItemDelete?
    ensures KeepsUsable(s, rows, {}, Stopped(p, s, rows, front, n))
  {
    hide Stopped, Run, Whole, UpdatePlan, PlannedOperations, DistinctTargets, DesiredRow, KeepsStatus, DesiredField;
    var midway := Stopped(p, s, rows, front, n);
    StoppedKeepsUsable(p, s, rows, front, n);
    forall handle | handle in s.items && handle in Gone(front)
      ensures handle in midway && midway[handle] == s.items[handle]
    {
      UndeletedRow(p, s, rows, front, n, handle);
    }
    forall handle, key: FieldKey | handle in s.items && Inherited(key) ensures StillUsable(s, midway, handle, key) {
      if handle !in Gone(front) {
        assert StillUsable(s, midway, handle, key);
      }
    }
  }

  lemma NoneGone(s: Snapshot, rows: seq<RetainedRow>)
    requires AllPlanned(s, rows)
    ensures ChainsAvoid(s, rows, {})
  {
    hide PlainResolve, DesiredRow;
  }

  /** Edits alone leave the same issues on the board, which is all the guards look at. */
  lemma EditedIsAllowed(p: Project, s: Snapshot, known: LedgerPlanning.Issues, ledger: seq<LedgerRow>,
      adds: seq<Operation>, n: nat)
    requires LedgerReady(p, s, known, ledger, adds)
    requires Stops(p, s, Retained(known, ledger), Front(ledger, adds), n)
    requires OnlyEdits(Run(p, Whole(s, Retained(known, ledger), Front(ledger, adds)), s.items).commands[..n])
    ensures var midway := Stopped(p, s, Retained(known, ledger), Front(ledger, adds), n);
      && CheckTotals(midway.Keys).None? && TRANSFERRED !in midway
      && AllAllowed(s.(items := midway), known, ledger)
  {
    hide Run, PlannedOperations, DistinctTargets, Ready, UpdatePlan, PlanLedger, ExecuteAll, AllPlanned, Whole,
      CheckTotals;
    var rows, front := Retained(known, ledger), Front(ledger, adds);
    var commands := Run(p, Whole(s, rows, front), s.items).commands[..n];
    var midway := Stopped(p, s, rows, front, n);
    PlanLedgerIff(s, known, ledger);
    forall handle ensures handle in s.items <==> handle in midway {
      if handle in s.items {
        StaysUnlessDeleted(p, s.items, commands, handle);
      } else {
        AbsentUnlessAdded(p, s.items, commands, handle);
      }
    }
    assert s.items.Keys == midway.Keys;
    forall row | row in ledger ensures Allowed(s.(items := midway), known, row) {
      assert Allowed(s, known, row);
    }
  }

  /** Stopped after any number of commands, a fresh plan of the ledger succeeds exactly when all of them
      were edits. */
  lemma FreshPlanIff(p: Project, s: Snapshot, known: LedgerPlanning.Issues, ledger: seq<LedgerRow>,
      adds: seq<Operation>, n: nat)
    requires LedgerReady(p, s, known, ledger, adds)
    requires Stops(p, s, Retained(known, ledger), Front(ledger, adds), n)
    ensures PlanLedger(s.(items := Stopped(p, s, Retained(known, ledger), Front(ledger, adds), n)), known, ledger).Ok?
       <==> OnlyEdits(Run(p, Whole(s, Retained(known, ledger), Front(ledger, adds)), s.items).commands[..n])
  {
    hide Run, PlannedOperations, DistinctTargets, Ready, UpdatePlan, PlanLedger, Stopped, AllPlanned, Whole,
      LedgerReady, AllAllowed, CheckTotals;
    var rows, front := Retained(known, ledger), Front(ledger, adds);
    var commands := Run(p, Whole(s, rows, front), s.items).commands[..n];
    if OnlyEdits(commands) {
      var midway := Stopped(p, s, rows, front, n);
      EditedIsAllowed(p, s, known, ledger, adds, n);
      UndeletedKeepsUsable(p, s, rows, front, n);
      NoneGone(s, rows);
      StillPlans(s, rows, {}, midway);
      PlanLedgerIff(s.(items := midway), known, ledger);
    } else if c :| c in commands && c.ItemDelete? {
      DeletedFails(p, s, known, ledger, adds, n, c);
    } else {
      var c :| c in commands && !c.ItemEdit?;
      AddedFails(p, s, known, ledger, adds, n, c);
    }
  }

  // ---- After the whole run ----

  lemma AllCommands(p: Project, s: Snapshot, rows: seq<RetainedRow>, front: seq<Operation>) returns (n: nat)
    requires Ready(p, s, rows, front)
    ensures Stops(p, s, rows, front, n)
    ensures var run := Run(p, Whole(s, rows, front), s.items);
      run.commands[..n] == run.commands && Stopped(p, s, rows, front, n) == run.board
  {
    hide Run, ExecuteAll, UpdatePlan, Ready, PlannedOperations, DistinctTargets, AllPlanned, Whole;
    ReadyStops(p, s, rows, front);
    RunBoard(p, Whole(s, rows, front), s.items);
    var run := Run(p, Whole(s, rows, front), s.items);
    n := |run.commands|;
    assert run.commands[..n] == run.commands;
  }

  /** A row to be removed is deleted by the run. */
  lemma RemovalDeletes(p: Project, s: Snapshot, known: LedgerPlanning.Issues, ledger: seq<LedgerRow>,
      adds: seq<Operation>)
    requires LedgerReady(p, s, known, ledger, adds) && Removed(ledger) != []
    requires Ready(p, s, Retained(known, ledger), Front(ledger, adds))
    requires PlannedOperations(p, Whole(s, Retained(known, ledger), Front(ledger, adds)))
    ensures var ops := Whole(s, Retained(known, ledger), Front(ledger, adds));
      ItemDelete(Removed(ledger)[0]) in Run(p, ops, s.items).commands
  {
    hide Run, UpdatePlan, PlannedOperations, DistinctTargets, PlanLedger, Ready;
    var rows, front := Retained(known, ledger), Front(ledger, adds);
    var n := AllCommands(p, s, rows, front);
    var issue := Removed(ledger)[0];
    RemovedRows(ledger);
    assert issue in Removed(ledger);
    var row :| row in ledger && row.kind == RemoveFromProject && row.handle == issue;
    PlanLedgerIff(s, known, ledger);
    assert Allowed(s, known, row);
    assert front[0] == DeleteRow(issue) && front[0] in front;
    DeletedInTheEnd(p, s, rows, front, 0);
    RunBoard(p, Whole(s, rows, front), s.items);
    if ItemDelete(issue) !in Run(p, Whole(s, rows, front), s.items).commands {
      StaysUnlessDeleted(p, s.items, Run(p, Whole(s, rows, front), s.items).commands, issue);
    }
  }

  ghost predicate AllOnBoard(board: Board, adds: seq<Operation>) {
    forall op | op in adds :: op.issue in board
  }

  /** Only the adds of the plan add rows. */
  lemma {:induction false} RunAddsOwn(p: Project, ops: seq<Operation>, board: Board)
    requires PlannedOperations(p, ops)
    ensures forall c | c in Run(p, ops, board).commands && c.ItemAdd? ::
      exists op | op in ops :: op.AddRow? && op.issue == c.issue
    decreases ops
  {
    hide ExecuteAll, PlannableChanges, Edits;
    if ops != [] && OperationCommandsOf(p, ops, board).Some? {
      PlannedTail(p, ops);
      var first := OperationCommands(p, ops[0], board).value;
      EditsAreOfChanges(p, ops[0].issue, StartRow(p, ops[0], board), Wanted(ops[0]));
      RunAddsOwn(p, ops[1..], ExecuteAll(p, board, first));
      assert ops[0] in ops && forall op | op in ops[1..] :: op in ops;
    }
  }

  /** An issue to be added has a row in the end. */
  lemma AddedInTheEnd(p: Project, s: Snapshot, rows: seq<RetainedRow>, front: seq<Operation>, i: nat)
    requires Stops(p, s, rows, front, 0) && i < |front| && front[i].AddRow?
    ensures front[i].issue in Run(p, Whole(s, rows, front), s.items).board
  {
    hide Run, PlannedOperations, DistinctTargets, UpdatePlan;
    PlanIsExecutable(p, s, rows, front);
    var op := Whole(s, rows, front)[i];
    assert op == front[i];
    OperationReached(p, Whole(s, rows, front), s.items, i);
    OperationCarriesOut(p, op, s.items);
  }

  /** So a row to be added that is not on the board is added by the run. */
  lemma MissingIsAdded(p: Project, s: Snapshot, rows: seq<RetainedRow>, front: seq<Operation>, i: nat)
    requires Stops(p, s, rows, front, 0) && i < |front| && front[i].AddRow? && front[i].issue !in s.items
    ensures ItemAdd(front[i].issue) in Run(p, Whole(s, rows, front), s.items).commands
  {
    hide Run, UpdatePlan, PlannedOperations, DistinctTargets, Whole, ExecuteAll;
    var run := Run(p, Whole(s, rows, front), s.items);
    AddedInTheEnd(p, s, rows, front, i);
    RunBoard(p, Whole(s, rows, front), s.items);
    if ItemAdd(front[i].issue) !in run.commands {
      AbsentUnlessAdded(p, s.items, run.commands, front[i].issue);
    }
  }

  lemma AddInFront(ledger: seq<LedgerRow>, adds: seq<Operation>, op: Operation) returns (i: nat)
    requires op in adds
    ensures i < |Front(ledger, adds)| && Front(ledger, adds)[i] == op
  {
    var k :| 0 <= k < |adds| && adds[k] == op;
    i := |Deletes(ledger)| + k;
  }

  lemma AddsAreAdds(p: Project, s: Snapshot, known: LedgerPlanning.Issues, ledger: seq<LedgerRow>,
      adds: seq<Operation>)
    requires LedgerReady(p, s, known, ledger, adds)
    ensures forall op | op in adds :: op.AddRow?
  {
    hide SameSchema, PlanLedger, DistinctRows, PlannableChanges;
  }

  /** With nothing to delete and every issue to add on the board already, the run only edits. */
  lemma NothingAdded(p: Project, s: Snapshot, known: LedgerPlanning.Issues, ledger: seq<LedgerRow>,
      adds: seq<Operation>, n: nat)
    requires Stops(p, s, Retained(known, ledger), Front(ledger, adds), n)
    requires LedgerReady(p, s, known, ledger, adds) && Removed(ledger) == [] && AllOnBoard(s.items, adds)
    ensures OnlyEdits(Run(p, Whole(s, Retained(known, ledger), Front(ledger, adds)), s.items).commands[..n])
  {
    hide Run, UpdatePlan, PlannedOperations, DistinctTargets, Ready, PlanLedger;
    var rows, front := Retained(known, ledger), Front(ledger, adds);
    var ops := Whole(s, rows, front);
    var run := Run(p, ops, s.items);
    NothingDeleted(p, s, known, ledger, adds);
    RunAddsOwn(p, ops, s.items);
    forall c | c in run.commands[..n] ensures c.ItemEdit? {
      assert c in run.commands;
      if c.ItemAdd? {
        AddedWasMissing(p, s, rows, front, n, c.issue);
      }
    }
  }

  /** After the whole run, planning the ledger again succeeds exactly when there was nothing to delete
      and nothing to add; then it updates nothing exactly when every field was steady. */
  lemma PlanLedgerAgain(p: Project, s: Snapshot, known: LedgerPlanning.Issues, ledger: seq<LedgerRow>,
      adds: seq<Operation>)
    requires LedgerReady(p, s, known, ledger, adds)
    ensures UpdatePlan(s, Retained(known, ledger)).Ok? && AllPlanned(s, Retained(known, ledger))
    ensures PlannedOperations(p, Whole(s, Retained(known, ledger), Front(ledger, adds)))
    ensures var run := Run(p, Whole(s, Retained(known, ledger), Front(ledger, adds)), s.items);
      var again := PlanLedger(s.(items := run.board), known, ledger);
      && run.ok
      && (again.Ok? <==> Removed(ledger) == [] && AllOnBoard(s.items, adds))
      && (again.Ok? ==>
            && again.value.deletes == []
            && (again.value.updates == [] <==> AllSteady(s, Retained(known, ledger))))
  {
    hide Run, UpdatePlan, PlannedOperations, DistinctTargets, PlanLedger, AllSteady, Whole, Stopped, LedgerReady,
      Ready, AllPlanned, CheckTotals;
    var rows, front := Retained(known, ledger), Front(ledger, adds);
    LedgerIsReady(p, s, known, ledger, adds);
    ReadyStops(p, s, rows, front);
    PlanRunPlan(p, s, rows, front);
    var n := AllCommands(p, s, rows, front);
    var run := Run(p, Whole(s, rows, front), s.items);
    FreshPlanIff(p, s, known, ledger, adds, n);
    PlanLedgerIff(s.(items := run.board), known, ledger);
    if Removed(ledger) != [] {
      RemovalDeletes(p, s, known, ledger, adds);
    } else if op :| op in adds && op.issue !in s.items {
      var i := AddInFront(ledger, adds, op);
      AddsAreAdds(p, s, known, ledger, adds);
      MissingIsAdded(p, s, rows, front, i);
    } else {
      NothingAdded(p, s, known, ledger, adds, n);
    }
  }

  lemma NothingDeleted(p: Project, s: Snapshot, known: LedgerPlanning.Issues, ledger: seq<LedgerRow>,
      adds: seq<Operation>)
    requires LedgerReady(p, s, known, ledger, adds) && Removed(ledger) == []
    requires UpdatePlan(s, Retained(known, ledger)).Ok?
    requires PlannedOperations(p, Whole(s, Retained(known, ledger), Front(ledger, adds)))
    ensures var ops := Whole(s, Retained(known, ledger), Front(ledger, adds));
      forall c | c in Run(p, ops, s.items).commands :: !c.ItemDelete?
  {
    hide Run, UpdatePlan, PlannedOperations, PlanLedger;
    RunDeletesOwn(p, Whole(s, Retained(known, ledger), Front(ledger, adds)), s.items);
  }

  // ---- Finishing with a fresh plan ----

  /** Without a delete, only the rows to be added have been touched by anything but updates. */
  lemma UndeletedIsPartial(p: Project, s: Snapshot, rows: seq<RetainedRow>, front: seq<Operation>, n: nat,
      touched: set<string>)
    requires Stops(p, s, rows, front, n)
    requires forall c | c in Run(p, Whole(s, rows, front), s.items).commands[..n] :: !c.ItemDelete?
    requires forall issue | issue in PlanAndApply.Issues(front) :: issue in Gone(front) || issue in touched
    requires touched <= PlanAndApply.Issues(front)
    ensures PartlyApplied(s, rows, touched, Stopped(p, s, rows, front, n))
  {
    hide Stopped, Run, Whole, UpdatePlan, PlannedOperations, DistinctTargets, DesiredRow, SetBySomeRow;
    var midway := Stopped(p, s, rows, front, n);
    forall handle, key: FieldKey | handle in s.items && handle !in touched
      ensures handle in midway
      ensures (midway[handle][key] == s.items[handle][key] || SetBySomeRow(s, rows, midway, handle, key))
    {
      if handle in PlanAndApply.Issues(front) {
        UndeletedRow(p, s, rows, front, n, handle);
      } else {
        StoppedField(p, s, rows, front, n, handle, key);
      }
    }
    forall handle | handle in s.items && handle !in touched ensures handle in midway {
      var key := Title;
      assert handle in midway && (
        midway[handle][key] == s.items[handle][key] || SetBySomeRow(s, rows, midway, handle, key));
    }
  }

  /** Where a fresh plan of the ledger succeeds, and no retained row inherits through a row to be
      added, running it with the same adds ends on the very board of the uninterrupted run. */
  lemma FreshPlanFinishes(p: Project, s: Snapshot, known: LedgerPlanning.Issues, ledger: seq<LedgerRow>,
      adds: seq<Operation>, n: nat)
    requires LedgerReady(p, s, known, ledger, adds)
    requires Stops(p, s, Retained(known, ledger), Front(ledger, adds), n)
    requires PlanLedger(s.(items := Stopped(p, s, Retained(known, ledger), Front(ledger, adds), n)), known, ledger).Ok?
    requires ChainsAvoid(s, Retained(known, ledger), PlanAndApply.Issues(adds))
    ensures var rows, front := Retained(known, ledger), Front(ledger, adds);
      var again := s.(items := Stopped(p, s, rows, front, n));
      && UpdatePlan(again, rows).Ok?
      && PlannedOperations(p, Whole(again, rows, front))
      && var second := Run(p, Whole(again, rows, front), again.items);
         second.ok && second.board == Run(p, Whole(s, rows, front), s.items).board
  {
    hide Run, UpdatePlan, PlannedOperations, DistinctTargets, PlanLedger, Whole, Stopped, DesiredRow, RowAvoids, Ready;
    var rows, front, touched := Retained(known, ledger), Front(ledger, adds), PlanAndApply.Issues(adds);
    var again := s.(items := Stopped(p, s, rows, front, n));
    FreshPlanIff(p, s, known, ledger, adds, n);
    UndeletedIsPartial(p, s, rows, front, n, touched);
    RetainedRows(known, ledger);
    forall row | row in rows ensures DesiredRow(again, row) == DesiredRow(s, row) {
      SameDesiredRow(s, rows, touched, again.items, row);
    }
    PlanLedgerIff(again, known, ledger);
    FreshIsReady(p, s, again, known, ledger, adds);
    FinishesAlike(p, s, rows, front, n);
  }

  lemma FreshIsReady(p: Project, s: Snapshot, again: Snapshot, known: LedgerPlanning.Issues, ledger: seq<LedgerRow>,
      adds: seq<Operation>)
    requires LedgerReady(p, s, known, ledger, adds) && again.schema == s.schema && PlanLedger(again, known, ledger).Ok?
    ensures Ready(p, again, Retained(known, ledger), Front(ledger, adds))
  {
    hide PlanLedger, PlannableChanges, WellFormedSchema, Ready;
    LedgerIsReady(p, again, known, ledger, adds);
  }

  // ---- A row that loses its source ----

  function EveryField(f: Field): (fields: Fields)
    ensures forall key: FieldKey :: fields[key] == f
  {
    EveryKeyTracked();
    map key: FieldKey | key in TRACKED :: f
  }

  const SOURCE := "hyperpush#1"
  const HEIR := "hyperpush#2"

  /** A row with every field, and a row with its title alone that inherits from it. */
  function HeirSnapshot(): Snapshot {
    Snapshot(PlainSchema(),
             map[SOURCE := EveryField(Field(Some("x"), None)), HEIR := TitledFields(Field(Some("x"), None))],
             map[HEIR := SOURCE])
  }

  const HEIR_ROW := RetainedRow(HEIR, false, "x")

  lemma HeirFields(key: FieldKey)
    requires Inherited(key)
    ensures var s := HeirSnapshot();
      && HEIR in s.items && Blank(s.items, key, HEIR) && Inherits(s, HEIR_ROW, key)
      && HEIR in s.parents && s.parents[HEIR] == SOURCE
      && HasField(s.items, key, SOURCE) && !Blank(s.items, key, SOURCE)
  {
    HeirTexts();
    var s := HeirSnapshot();
    assert s.items[HEIR][key] == NO_FIELD && s.items[SOURCE][key] == Field(Some("x"), None);
  }

  lemma HeirInherits(key: FieldKey)
    requires Inherited(key)
    ensures var s := HeirSnapshot();
      && HEIR in s.items && Inherits(s, HEIR_ROW, key)
      && PlainResolve(s.items, s.parents, key, HEIR, {}).Ok?
      && PlainResolve(s.items, s.parents, key, HEIR, {}).value.chain == [HEIR, SOURCE]
  {
    hide PlainResolve, HeirSnapshot, Blank, HasField;
    var s := HeirSnapshot();
    HeirFields(key);
    assert SourceChain(s.items, s.parents, key, HEIR, [HEIR, SOURCE]);
    ChainDecides(s.items, s.parents, key, HEIR, [HEIR, SOURCE]);
  }

  lemma HeirTexts()
    ensures Strip("x") == "x" && SOURCE != HEIR && HEIR != UNINHERITED
  {
    assert SOURCE[10] == '1' && HEIR[10] == '2' && |UNINHERITED| == 12 && |HEIR| == 11;
  }

  lemma HeirIsPlanned()
    ensures AllPlanned(HeirSnapshot(), [HEIR_ROW]) && UpdatePlan(HeirSnapshot(), [HEIR_ROW]).Ok?
  {
    hide PlainResolve, DesiredRow, UpdatePlan;
    var s, rows := HeirSnapshot(), [HEIR_ROW];
    HeirTexts();
    forall key: FieldKey ensures DesiredFor(s, HEIR_ROW, key).Ok? {
      if Inherited(key) {
        HeirInherits(key);
      }
      assert Options(s.schema, key) == map[];
    }
    DesiredRowFields(s, HEIR_ROW);
    assert forall row | row in rows :: row == HEIR_ROW;
    PlansIffAllPlanned(s, rows);
  }

  /** Delete the source of a blank row: the plan is in order and its run would fill the row, but
      stopped after the delete the row can no longer be planned. */
  lemma HeirLosesSource()
    ensures var p, s, rows, front := Project(PlainSchema(), map[]), HeirSnapshot(), [HEIR_ROW], [DeleteRow(SOURCE)];
      && Ready(p, s, rows, front) && AllPlanned(s, rows) && !ChainsAvoid(s, rows, Gone(front))
      && exists n: nat ::
           Stops(p, s, rows, front, n) && UpdatePlan(s.(items := Stopped(p, s, rows, front, n)), rows).Err?
  {
    hide UpdatePlan, Run, PlainResolve, DesiredRow, HeirSnapshot, Stopped, Stops, PlannedOperations;
    var p, s, rows, front := Project(PlainSchema(), map[]), HeirSnapshot(), [HEIR_ROW], [DeleteRow(SOURCE)];
    HeirIsPlanned();
    HeirTexts();
    HeirSchema();
    assert Ready(p, s, rows, front) by {
      assert forall op | op in front :: op == DeleteRow(SOURCE);
      assert forall row | row in rows :: row == HEIR_ROW;
    }
    HeirInherits(Domain);
    assert front[0] in front && SOURCE in Gone(front);
    var chain := PlainResolve(s.items, s.parents, Domain, HEIR, {}).value.chain;
    assert chain[1] in chain && HEIR_ROW in rows;
    assert front + [] == front;
    ReplansIffNoSourceDeleted(p, s, rows, front, []);
  }

  lemma HeirSchema()
    ensures var s := HeirSnapshot();
      s.schema == PlainSchema() && WellFormedSchema(s.schema) && WellTyped(s.schema)
  {
  }
}
