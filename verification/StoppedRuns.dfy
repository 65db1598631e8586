/** What the board looks like when a run stops between two commands. */
module StoppedRuns {
  import opened Wrappers
  import opened BoardModel
  import opened ProjectApply
  import opened ApplyRestart

  /** The row a run starts from: the one on the board, or a freshly added one. */
  function StartOf(p: Project, board: Board, issue: string): Fields {
    if issue in board then board[issue] else AddedRow(p, issue)
  }

  /** Each row is one the run found or leaves, no row that was found and stays is missing, and each
      field is as it started or as it ends. */
  ghost predicate Between(p: Project, board: Board, final: Board, midway: Board) {
    && (forall issue | issue in midway :: issue in board || issue in final)
    && (forall issue | issue in board && issue in final :: issue in midway)
    && (forall issue, key: FieldKey {:trigger midway[issue][key]} | issue in midway ::
          || midway[issue][key] == StartOf(p, board, issue)[key]
          || (issue in final && midway[issue][key] == final[issue][key]))
  }

  /** A command on the way to the final board. */
  ghost predicate TowardsFinal(p: Project, final: Board, command: Command)
    requires WellFormedSchema(p.schema)
  {
    match command
    case ItemDelete(issue) => issue !in final
    case ItemAdd(issue) => issue in final
    case ItemEdit(issue, key, edit) => issue in final && CommandEffect(p.schema, key, edit) == final[issue][key]
  }

  lemma BetweenAtFirst(p: Project, board: Board, final: Board)
    ensures Between(p, board, final, board)
  {
  }

  lemma BetweenStep(p: Project, board: Board, final: Board, midway: Board, command: Command)
    requires WellFormedSchema(p.schema) && Between(p, board, final, midway) && TowardsFinal(p, final, command)
    ensures Between(p, board, final, Execute(p, midway, command))
  {
    hide CommandEffect, AddedRow, WellFormedSchema;
    var next := Execute(p, midway, command);
    forall issue, key: FieldKey | issue in next
      ensures
        || next[issue][key] == StartOf(p, board, issue)[key]
        || (issue in final && next[issue][key] == final[issue][key])
    {
      if issue in midway {
        assert
          || midway[issue][key] == StartOf(p, board, issue)[key]
          || (issue in final && midway[issue][key] == final[issue][key]);
      }
    }
  }

  lemma {:induction false} BetweenAll(p: Project, board: Board, final: Board, midway: Board, commands: seq<Command>)
    requires WellFormedSchema(p.schema) && Between(p, board, final, midway)
    requires forall c | c in commands :: TowardsFinal(p, final, c)
    ensures Between(p, board, final, ExecuteAll(p, midway, commands))
    decreases commands
  {
    hide Between, TowardsFinal, Execute, WellFormedSchema;
    if commands != [] {
      assert commands[0] in commands;
      BetweenStep(p, board, final, midway, commands[0]);
      BetweenAll(p, board, final, Execute(p, midway, commands[0]), commands[1..]);
    }
  }

  // ---- The commands of a run lead to its board ----

  lemma {:induction false} EditsSetFinal(p: Project, issue: string, row: Fields, changes: seq<Change>)
    requires WellFormedSchema(p.schema) && PlannableChanges(p.schema, changes) && DistinctKeys(changes)
    ensures forall c | c in Edits(p, issue, row, changes) ::
      c.ItemEdit? && CommandEffect(p.schema, c.key, c.edit) == ApplyChanges(row, changes)[c.key]
  {
    hide CommandEffect, ValueMatches, WellFormedSchema, Plannable;
    if changes != [] {
      var c := changes[0];
      assert forall d | d in changes[1..] :: d in changes;
      FirstKeyAlone(changes);
      EditsSetFinal(p, issue, ApplyChange(row, c), changes[1..]);
      AppliedFields(row, changes);
      SkipsFirst(p, issue, row, changes);
    }
  }

  lemma OperationTowardsFinal(p: Project, op: Operation, board: Board, final: Board)
    requires WellFormedSchema(p.schema) && PlannableChanges(p.schema, Wanted(op)) && DistinctKeys(Wanted(op))
    requires OperationCommands(p, op, board).Some? && SameAt(op.issue, Carried(p, op, board), final)
    ensures forall c | c in OperationCommands(p, op, board).value :: TowardsFinal(p, final, c)
  {
    hide CommandEffect, Edits, Wanted, WellFormedSchema;
    EditsSetFinal(p, op.issue, StartRow(p, op, board), Wanted(op));
    EditsAreOfChanges(p, op.issue, StartRow(p, op, board), Wanted(op));
  }

  lemma {:induction false} RunTowardsFinal(p: Project, ops: seq<Operation>, board: Board)
    requires PlannedOperations(p, ops) && DistinctTargets(ops)
    ensures forall c | c in Run(p, ops, board).commands :: TowardsFinal(p, Run(p, ops, board).board, c)
    decreases ops
  {
    hide OperationCommands, ExecuteAll, PlannableChanges, TowardsFinal, Carried, DistinctTargets;
    if ops != [] && OperationCommandsOf(p, ops, board).Some? {
      var op := ops[0];
      PlannedTail(p, ops);
      DistinctTail(ops);
      var after := Carried(p, op, board);
      OperationCarriesOut(p, op, board);
      RunTowardsFinal(p, ops[1..], after);
      UnplannedRowsStay(p, ops[1..], after, op.issue);
      OperationTowardsFinal(p, op, board, Run(p, ops[1..], after).board);
    }
  }

  /** Stopped after any number of commands, the board is between the one the run found and the one it
      leaves. */
  lemma StoppedBetween(p: Project, ops: seq<Operation>, board: Board, n: nat)
    requires PlannedOperations(p, ops) && DistinctTargets(ops) && n <= |Run(p, ops, board).commands|
    ensures var run := Run(p, ops, board);
      Between(p, board, run.board, ExecuteAll(p, board, run.commands[..n]))
  {
    hide Between, TowardsFinal, Run, ExecuteAll;
    var run := Run(p, ops, board);
    RunTowardsFinal(p, ops, board);
    BetweenAtFirst(p, board, run.board);
    assert forall c | c in run.commands[..n] :: c in run.commands;
    BetweenAll(p, board, run.board, board, run.commands[..n]);
  }

  // ---- Runs in two parts ----

  /** A run that gets through its first operations issues their commands first. */
  lemma {:induction false} RunConcat(p: Project, a: seq<Operation>, b: seq<Operation>, board: Board)
    requires PlannedOperations(p, a + b)
    ensures PlannedOperations(p, a) && PlannedOperations(p, b)
    ensures var first := Run(p, a, board);
      first.ok ==>
        var second := Run(p, b, first.board);
        && Run(p, a + b, board).commands == first.commands + second.commands
        && Run(p, a + b, board).board == second.board
        && Run(p, a + b, board).ok == second.ok
    decreases a
  {
    hide OperationCommands, ExecuteAll, PlannableChanges;
    assert forall op | op in a || op in b :: op in a + b;
    if a == [] {
      assert a + b == b;
    } else {
      assert (a + b)[1..] == a[1..] + b && (a + b)[0] == a[0];
      PlannedTail(p, a + b);
      if OperationCommandsOf(p, a, board).Some? {
        RunConcat(p, a[1..], b, ExecuteAll(p, board, OperationCommandsOf(p, a, board).value));
      }
    }
  }

  /** What a run leaves at the issue of one of its operations. */
  lemma OperationReached(p: Project, ops: seq<Operation>, board: Board, i: nat)
    requires PlannedOperations(p, ops) && DistinctTargets(ops) && NoRowMissing(ops, board) && i < |ops|
    ensures SameAt(ops[i].issue, Carried(p, ops[i], board), Run(p, ops, board).board)
  {
    hide Run, Carried, Satisfied, WellFormedSchema;
    RunAchieves(p, ops, board);
    var run := Run(p, ops, board);
    assert ops[i] in ops && PlannableChanges(p.schema, Wanted(ops[i]));
    assert StatusIsRight(p, ops[i], board, run.board, run.statuses[i]);
    if run.statuses[i] == AlreadySatisfied {
      SatisfiedStays(p, ops[i], board);
    }
  }

  /** Carrying out a satisfied operation changes nothing. */
  lemma SatisfiedStays(p: Project, op: Operation, board: Board)
    requires WellFormedSchema(p.schema) && PlannableChanges(p.schema, Wanted(op)) && Satisfied(op, board)
    ensures Carried(p, op, board) == board
  {
    hide OperationCommands;
    NoCommandsIffSatisfied(p, op, board);
    OperationCarriesOut(p, op, board);
    ExecuteNone(p, board, []);
  }
}
