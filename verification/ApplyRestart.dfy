/** What a run of the plan achieves, and that stopping and starting again achieves the same. */
module ApplyRestart {
  import opened Wrappers
  import opened BoardModel
  import opened ProjectApply

  // ---- Restart ----

  lemma PlannedSchema(p: Project, ops: seq<Operation>)
    requires PlannedOperations(p, ops)
    ensures WellFormedSchema(p.schema)
  {
  }

  /** Commands of the later operations leave the first one's issue alone. */
  lemma RestElsewhere(p: Project, ops: seq<Operation>, board: Board, n: nat)
    requires PlannedOperations(p, ops) && ops != [] && PlannedOperations(p, ops[1..]) && DistinctTargets(ops)
    requires n <= |Run(p, ops[1..], board).commands|
    ensures SameAt(ops[0].issue, board, ExecuteAll(p, board, Run(p, ops[1..], board).commands[..n]))
  {
    hide Run, PlannedOperations, DistinctTargets, WellFormedSchema;
    PlannedSchema(p, ops);
    DistinctTail(ops);
    RunOwnIssues(p, ops[1..], board, ops[0].issue);
    var commands := Run(p, ops[1..], board).commands;
    assert forall c | c in commands[..n] :: c in commands;
    ExecuteElsewhere(p, board, commands[..n], ops[0].issue);
  }

  ghost predicate Restarts(p: Project, ops: seq<Operation>, board: Board, n: nat)
    requires PlannedOperations(p, ops)
  {
    var whole := Run(p, ops, board);
    && n <= |whole.commands|
    && var again := Run(p, ops, ExecuteAll(p, board, whole.commands[..n]));
       again.commands == whole.commands[n..] && again.board == whole.board && again.ok == whole.ok
  }

  /** Stopped after any number of commands and started again from a fresh capture, the run issues
      exactly the commands it had not issued, and ends on the same board with the same verdict. */
  lemma {:induction false} RestartResumes(p: Project, ops: seq<Operation>, board: Board, n: nat)
    requires PlannedOperations(p, ops) && DistinctTargets(ops) && n <= |Run(p, ops, board).commands|
    ensures Restarts(p, ops, board, n)
    decreases ops
  {
    hide OperationCommands, ExecuteAll, PlannedOperations, PlannableChanges, DistinctTargets;
    if ops == [] || OperationCommandsOf(p, ops, board).None? {
      StoppedAtOnce(p, ops, board);
    } else {
      var first := OperationCommandsOf(p, ops, board).value;
      if n < |first| {
        StoppedInFirst(p, ops, board, n);
      } else {
        PlannedTail(p, ops);
        DistinctTail(ops);
        RestartResumes(p, ops[1..], ExecuteAll(p, board, first), n - |first|);
        StoppedLater(p, ops, board, n);
      }
    }
  }

  function OperationCommandsOf(p: Project, ops: seq<Operation>, board: Board): Option<seq<Command>>
    requires PlannedOperations(p, ops) && ops != []
  {
    OperationCommands(p, ops[0], board)
  }

  lemma ExecuteNone(p: Project, board: Board, commands: seq<Command>)
    requires WellFormedSchema(p.schema)
    ensures commands[..0] == [] && commands[0..] == commands && ExecuteAll(p, board, []) == board
  {
  }

  lemma StoppedAtOnce(p: Project, ops: seq<Operation>, board: Board)
    requires PlannedOperations(p, ops)
    ensures Restarts(p, ops, board, 0)
  {
    ExecuteNone(p, board, Run(p, ops, board).commands);
  }

  lemma StoppedInFirst(p: Project, ops: seq<Operation>, board: Board, n: nat)
    requires DistinctTargets(ops)
    requires PlannedOperations(p, ops) && ops != [] && OperationCommandsOf(p, ops, board).Some?
    requires n <= |OperationCommandsOf(p, ops, board).value|
    ensures Restarts(p, ops, board, n)
  {
    hide OperationCommands, ExecuteAll;
    DistinctTail(ops);
    PlannedTail(p, ops);
    var first := OperationCommands(p, ops[0], board).value;
    var after := ExecuteAll(p, board, first);
    var whole := Run(p, ops, board);
    assert whole.commands == first + Run(p, ops[1..], after).commands;
    assert whole.commands[..n] == first[..n];
    var midway := ExecuteAll(p, board, first[..n]);
    OperationResumes(p, ops[0], board, n);
    assert first == first[..n] + first[n..];
    ExecuteConcat(p, board, first[..n], first[n..]);
    assert ExecuteAll(p, midway, first[n..]) == after;
    assert whole.commands[n..] == first[n..] + Run(p, ops[1..], after).commands;
  }

  lemma StoppedLater(p: Project, ops: seq<Operation>, board: Board, n: nat)
    requires DistinctTargets(ops)
    requires PlannedOperations(p, ops) && ops != [] && OperationCommandsOf(p, ops, board).Some?
    requires PlannedOperations(p, ops[1..])
    requires |OperationCommandsOf(p, ops, board).value| <= n <= |Run(p, ops, board).commands|
    requires var first := OperationCommandsOf(p, ops, board).value;
      Restarts(p, ops[1..], ExecuteAll(p, board, first), n - |first|)
    ensures Restarts(p, ops, board, n)
  {
    hide OperationCommands, ExecuteAll;
    DistinctTail(ops);
    PlannedTail(p, ops);
    var first := OperationCommands(p, ops[0], board).value;
    var after := ExecuteAll(p, board, first);
    var rest := Run(p, ops[1..], after);
    var whole := Run(p, ops, board);
    var m := n - |first|;
    assert whole.commands == first + rest.commands;
    assert whole.commands[..n] == first + rest.commands[..m];
    var midway := ExecuteAll(p, board, whole.commands[..n]);
    ExecuteConcat(p, board, first, rest.commands[..m]);
    assert midway == ExecuteAll(p, after, rest.commands[..m]);
    RestElsewhere(p, ops, after, m);
    OperationLocal(p, ops[0], after, midway);
    OperationResumes(p, ops[0], board, |first|);
    assert first[..|first|] == first && first[|first|..] == [];
    ExecuteNone(p, midway, []);
    assert [] + rest.commands[m..] == whole.commands[n..];
  }

  // ---- What a run achieves ----

  ghost predicate Satisfied(op: Operation, board: Board) {
    match op
    case DeleteRow(issue) => issue !in board
    case _ => op.issue in board && forall c | c in Wanted(op) :: ValueMatches(board[op.issue][c.key], c.after)
  }

  lemma {:induction false} NoEditsIffShown(p: Project, issue: string, row: Fields, changes: seq<Change>)
    requires WellFormedSchema(p.schema) && PlannableChanges(p.schema, changes)
    ensures Edits(p, issue, row, changes) == [] <==> forall c | c in changes :: ValueMatches(row[c.key], c.after)
  {
    hide CommandEffect, ValueMatches, WellFormedSchema, Plannable;
    if changes != [] {
      var c := changes[0];
      assert forall d | d in changes[1..] :: d in changes;
      assert changes == [c] + changes[1..];
      assert ValueMatches(row[c.key], c.after) ==> ApplyChange(row, c) == row;
      NoEditsIffShown(p, issue, ApplyChange(row, c), changes[1..]);
    }
  }

  lemma NoCommandsIffSatisfied(p: Project, op: Operation, board: Board)
    requires WellFormedSchema(p.schema) && PlannableChanges(p.schema, Wanted(op))
    ensures OperationCommands(p, op, board) == Some([]) <==> Satisfied(op, board)
    ensures OperationCommands(p, op, board).None? <==> op.UpdateRow? && op.issue !in board
  {
    hide Edits, Wanted;
    if !op.DeleteRow? {
      NoEditsIffShown(p, op.issue, StartRow(p, op, board), Wanted(op));
      var edits := Edits(p, op.issue, StartRow(p, op, board), Wanted(op));
      assert [] + edits == edits;
    }
  }

  /** An executed operation is satisfied. */
  lemma CarriedIsSatisfied(p: Project, op: Operation, board: Board)
    requires DistinctKeys(Wanted(op))
    requires WellFormedSchema(p.schema) && PlannableChanges(p.schema, Wanted(op))
    requires OperationCommands(p, op, board).Some?
    ensures Satisfied(op, Carried(p, op, board))
  {
    hide OperationCommands;
    var commands := OperationCommands(p, op, board).value;
    OperationResumes(p, op, board, |commands|);
    assert commands[..|commands|] == commands && commands[|commands|..] == [];
    OperationCarriesOut(p, op, board);
    NoCommandsIffSatisfied(p, op, Carried(p, op, board));
  }

  ghost predicate NoRowMissing(ops: seq<Operation>, board: Board) {
    forall op | op in ops && op.UpdateRow? :: op.issue in board
  }

  /** The run succeeds exactly when no update's row is missing, and then every issue of the plan is as
      its operation leaves it; a failed run has carried out the operations before the failure. */
  ghost predicate Achieves(p: Project, ops: seq<Operation>, board: Board)
    requires PlannedOperations(p, ops)
  {
    var run := Run(p, ops, board);
    var n := |run.statuses|;
    && (run.ok <==> NoRowMissing(ops, board))
    && (if run.ok then n == |ops| else 0 < n <= |ops|)
    && (forall i | 0 <= i < n :: StatusIsRight(p, ops[i], board, run.board, run.statuses[i]))
    && (forall i | 0 <= i < n :: run.statuses[i] == Failed <==> !run.ok && i == n - 1)
  }

  ghost predicate StatusIsRight(p: Project, op: Operation, board: Board, later: Board, status: Status) {
    match status
    case Failed => op.UpdateRow? && op.issue !in board
    case AlreadySatisfied => Satisfied(op, board) && SameAt(op.issue, board, later)
    case AppliedNow => !Satisfied(op, board) && Satisfied(op, later) && SameAt(op.issue, Carried(p, op, board), later)
  }

  lemma {:induction false} RunAchieves(p: Project, ops: seq<Operation>, board: Board)
    requires DistinctTargets(ops)
    requires PlannedOperations(p, ops)
    ensures Achieves(p, ops, board)
    decreases ops
  {
    hide OperationCommands, ExecuteAll, Carried, Achieves, PlannableChanges;
    if ops == [] {
      AchievesNothing(p, board);
    } else {
      PlannedTail(p, ops);
      if OperationCommandsOf(p, ops, board).None? {
        AchievesUpToFailure(p, ops, board);
      } else {
        DistinctTail(ops);
        RunAchieves(p, ops[1..], Carried(p, ops[0], board));
        AchievesMore(p, ops, board);
      }
    }
  }

  lemma AchievesNothing(p: Project, board: Board)
    requires PlannedOperations(p, [])
    ensures Achieves(p, [], board)
  {
  }

  lemma AchievesUpToFailure(p: Project, ops: seq<Operation>, board: Board)
    requires PlannedOperations(p, ops) && ops != [] && OperationCommandsOf(p, ops, board).None?
    ensures Achieves(p, ops, board)
  {
    hide OperationCommands;
    PlannedTail(p, ops);
    NoCommandsIffSatisfied(p, ops[0], board);
    assert ops[0] in ops;
  }

  lemma AchievesMore(p: Project, ops: seq<Operation>, board: Board)
    requires DistinctTargets(ops)
    requires PlannedOperations(p, ops) && ops != [] && OperationCommandsOf(p, ops, board).Some?
    requires PlannedOperations(p, ops[1..]) && Achieves(p, ops[1..], Carried(p, ops[0], board))
    ensures Achieves(p, ops, board)
  {
    hide OperationCommands, ExecuteAll, Carried, Satisfied, PlannableChanges, Run, StatusIsRight, PlannedOperations;
    FirstAchieves(p, ops, board);
    LaterAchieve(p, ops, board);
    PlannedTail(p, ops);
    NoCommandsIffSatisfied(p, ops[0], board);
    assert ops == [ops[0]] + ops[1..];
  }

  lemma FirstAchieves(p: Project, ops: seq<Operation>, board: Board)
    requires DistinctTargets(ops)
    requires PlannedOperations(p, ops) && ops != [] && OperationCommandsOf(p, ops, board).Some?
    ensures var run := Run(p, ops, board);
      |run.statuses| > 0 && run.statuses[0] != Failed && StatusIsRight(p, ops[0], board, run.board, run.statuses[0])
  {
    hide OperationCommands, ExecuteAll;
    var op := ops[0];
    var after := Carried(p, op, board);
    DistinctTail(ops);
    PlannedTail(p, ops);
    NoCommandsIffSatisfied(p, op, board);
    OperationCarriesOut(p, op, board);
    CarriedIsSatisfied(p, op, board);
    var rest := Run(p, ops[1..], after);
    RunOwnIssues(p, ops[1..], after, op.issue);
    RunBoard(p, ops[1..], after);
    ExecuteElsewhere(p, after, rest.commands, op.issue);
    if Satisfied(op, board) {
      ExecuteNone(p, board, []);
    }
  }

  /** The later operations find the board they would have found without the first one. */
  lemma LaterAchieve(p: Project, ops: seq<Operation>, board: Board)
    requires DistinctTargets(ops)
    requires PlannedOperations(p, ops) && ops != [] && OperationCommandsOf(p, ops, board).Some?
    requires PlannedOperations(p, ops[1..]) && Achieves(p, ops[1..], Carried(p, ops[0], board))
    ensures var run := Run(p, ops, board);
      && (run.ok <==> NoRowMissing(ops[1..], board))
      && |run.statuses| == |Run(p, ops[1..], Carried(p, ops[0], board)).statuses| + 1
      && (forall i | 1 <= i < |run.statuses| ::
           && i < |ops|
           && StatusIsRight(p, ops[i], board, run.board, run.statuses[i])
           && (run.statuses[i] == Failed <==> !run.ok && i == |run.statuses| - 1))
      && (if run.ok then |run.statuses| == |ops| else 1 < |run.statuses| <= |ops|)
  {
    hide OperationCommands, ExecuteAll, PlannableChanges;
    DistinctTail(ops);
    PlannedTail(p, ops);
    OperationCarriesOut(p, ops[0], board);
    var after := Carried(p, ops[0], board);
    var rest := Run(p, ops[1..], after);
    var run := Run(p, ops, board);
    forall op | op in ops[1..] ensures SameAt(op.issue, board, after) {
    }
    forall i | 1 <= i < |run.statuses|
      ensures i < |ops| && StatusIsRight(p, ops[i], board, run.board, run.statuses[i])
    {
      assert ops[i] == ops[1..][i - 1] && ops[i] in ops[1..];
      assert run.statuses[i] == rest.statuses[i - 1];
      assert StatusIsRight(p, ops[i], after, run.board, run.statuses[i]);
      SameStatus(p, ops[i], board, after, run.board, run.statuses[i]);
    }
  }

  lemma SameStatus(p: Project, op: Operation, a: Board, b: Board, later: Board, status: Status)
    requires SameAt(op.issue, a, b) && StatusIsRight(p, op, b, later, status)
    ensures StatusIsRight(p, op, a, later, status)
  {
    hide Wanted;
  }

  /** Issues outside the plan keep their rows. */
  lemma UnplannedRowsStay(p: Project, ops: seq<Operation>, board: Board, issue: string)
    requires PlannedOperations(p, ops) && forall op | op in ops :: op.issue != issue
    ensures SameAt(issue, board, Run(p, ops, board).board)
  {
    RunBoard(p, ops, board);
    RunOwnIssues(p, ops, board, issue);
    ExecuteElsewhere(p, board, Run(p, ops, board).commands, issue);
  }

  /** After a successful run, another run issues no command and finds every operation satisfied. */
  lemma SecondRunIsIdle(p: Project, ops: seq<Operation>, board: Board)
    requires DistinctTargets(ops)
    requires PlannedOperations(p, ops) && Run(p, ops, board).ok
    ensures var again := Run(p, ops, Run(p, ops, board).board);
      && again.commands == [] && again.ok && again.board == Run(p, ops, board).board
      && again.statuses == seq(|ops|, i => AlreadySatisfied)
  {
    var whole := Run(p, ops, board);
    var n := |whole.commands|;
    RunBoard(p, ops, board);
    RestartResumes(p, ops, board, n);
    assert whole.commands[..n] == whole.commands && whole.commands[n..] == [];
    RunAchieves(p, ops, whole.board);
    NoCommandsNoChanges(p, ops, whole.board);
  }

  lemma {:induction false} NoCommandsNoChanges(p: Project, ops: seq<Operation>, board: Board)
    requires PlannedOperations(p, ops) && Run(p, ops, board).commands == []
    ensures forall status | status in Run(p, ops, board).statuses :: status != AppliedNow
  {
    hide OperationCommands, PlannableChanges;
    if ops != [] && OperationCommandsOf(p, ops, board).Some? {
      PlannedTail(p, ops);
      NoCommandsNoChanges(p, ops[1..], ExecuteAll(p, board, []));
    }
  }

  // ---- The size of the board ----

  function Adds(commands: seq<Command>): nat {
    if commands == [] then 0 else (if commands[0].ItemAdd? then 1 else 0) + Adds(commands[1..])
  }

  function Deletes(commands: seq<Command>): nat {
    if commands == [] then 0 else (if commands[0].ItemDelete? then 1 else 0) + Deletes(commands[1..])
  }

  lemma {:induction false} CountsConcat(a: seq<Command>, b: seq<Command>)
    ensures Adds(a + b) == Adds(a) + Adds(b) && Deletes(a + b) == Deletes(a) + Deletes(b)
  {
    if a == [] {
      assert a + b == b;
    } else {
      assert (a + b)[1..] == a[1..] + b;
      CountsConcat(a[1..], b);
    }
  }

  lemma {:induction false} EditsDoNotCount(commands: seq<Command>)
    requires forall c | c in commands :: c.ItemEdit?
    ensures Adds(commands) == Deletes(commands) == 0
  {
    if commands != [] {
      assert commands[0] in commands;
      EditsDoNotCount(commands[1..]);
    }
  }

  lemma CarriedSize(p: Project, op: Operation, board: Board)
    ensures |Carried(p, op, board)| ==
      |board|
      + (if !op.DeleteRow? && op.issue !in board then 1 else 0)
      - (if op.DeleteRow? && op.issue in board then 1 else 0)
  {
    hide ApplyChanges, StartRow, Wanted;
    var later := Carried(p, op, board);
    assert |later| == |later.Keys| && |board| == |board.Keys|;
    if op.DeleteRow? {
      assert later.Keys == board.Keys - {op.issue};
    } else {
      assert later.Keys == board.Keys + {op.issue};
    }
  }

  lemma OperationSize(p: Project, op: Operation, board: Board)
    requires WellFormedSchema(p.schema) && PlannableChanges(p.schema, Wanted(op))
    requires OperationCommands(p, op, board).Some?
    ensures var commands := OperationCommands(p, op, board).value;
      |Carried(p, op, board)| == |board| + Adds(commands) - Deletes(commands)
  {
    hide Edits, Wanted, Carried, WellFormedSchema, PlannableChanges;
    CarriedSize(p, op, board);
    if !op.DeleteRow? {
      var edits := Edits(p, op.issue, StartRow(p, op, board), Wanted(op));
      EditsAreOfChanges(p, op.issue, StartRow(p, op, board), Wanted(op));
      EditsDoNotCount(edits);
      CountsConcat([ItemAdd(op.issue)], edits);
      assert [] + edits == edits;
    }
  }

  /** The board grows by the rows added and shrinks by the rows deleted. */
  lemma {:induction false} RunSize(p: Project, ops: seq<Operation>, board: Board)
    requires PlannedOperations(p, ops)
    ensures var run := Run(p, ops, board);
      |run.board| == |board| + Adds(run.commands) - Deletes(run.commands)
    decreases ops
  {
    hide OperationCommands, ExecuteAll, Carried;
    if ops != [] && OperationCommandsOf(p, ops, board).Some? {
      PlannedTail(p, ops);
      var first := OperationCommands(p, ops[0], board).value;
      var after := Carried(p, ops[0], board);
      OperationCarriesOut(p, ops[0], board);
      OperationSize(p, ops[0], board);
      RunSize(p, ops[1..], after);
      CountsConcat(first, Run(p, ops[1..], after).commands);
    }
  }

  // ---- Why the issues must be distinct ----

  /** Deleting and adding the same issue is never finished: from every board, the one such a run
      leaves included, the run has commands to issue. */
  lemma SameIssueNeverSettles(p: Project, board: Board, issue: string, desired: Fields)
    requires WellFormedSchema(p.schema) && PlannableChanges(p.schema, Wanted(AddRow(issue, desired)))
    ensures var ops := [DeleteRow(issue), AddRow(issue, desired)];
      && PlannedOperations(p, ops)
      && Run(p, ops, board).ok && Run(p, ops, board).commands != []
  {
    hide Edits, Mutations, WellFormedSchema, PlannableChanges;
    var delete, add := DeleteRow(issue), AddRow(issue, desired);
    var ops := [delete, add];
    NothingWanted(p, issue);
    assert forall op | op in ops :: op == delete || op == add;
    assert ops[1..] == [add] && [add][1..] == [];
    var first := OperationCommands(p, delete, board).value;
    OperationCarriesOut(p, delete, board);
    var middle := Carried(p, delete, board);
    var second := OperationCommands(p, add, middle).value;
    assert second[0] == ItemAdd(issue);
    assert PlannedOperations(p, [add]) && PlannedOperations(p, []);
    assert Run(p, [add], middle).commands == second + Run(p, [], ExecuteAll(p, middle, second)).commands;
  }

  lemma NothingWanted(p: Project, issue: string)
    ensures PlannableChanges(p.schema, Wanted(DeleteRow(issue)))
  {
  }
}
