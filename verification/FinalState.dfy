/** The check after a run: a new capture must show what every operation asked for
    (scripts/lib/m057_project_mutation_apply.py). */
module FinalState {
  import opened Wrappers
  import opened BoardModel
  import opened ProjectApply
  import opened ApplyRestart
  import opened StoppedRuns
  import opened ExecutorRuns

  /** Titles and fields to be cleared are not looked at. */
  predicate Checked(c: Change) {
    c.key != Title && c.after != NO_FIELD
  }

  predicate FieldsMatch(row: Fields, changes: seq<Change>) {
    forall c | c in changes && Checked(c) :: ValueMatches(row[c.key], c.after)
  }

  predicate FinallyRight(op: Operation, board: Board) {
    match op
    case DeleteRow(issue) => issue !in board
    case _ => op.issue in board && FieldsMatch(board[op.issue], Wanted(op))
  }

  /** A field of the board has the value and the option that were wanted, up to spaces around them. */
  predicate Shows(shown: Field, wanted: Field) {
    Normalize(shown.value) == Normalize(wanted.value) && Normalize(shown.optionId) == Normalize(wanted.optionId)
  }

  /** What the check looks at: of an added row every field but the title that has a value or an option
      planned, of an updated row those among its changes. */
  lemma LooksAt(op: Operation, board: Board)
    ensures FinallyRight(op, board) <==>
      match op
      case DeleteRow(issue) => issue !in board
      case AddRow(issue, desired) =>
        issue in board && forall key: FieldKey {:trigger desired[key]} |
          key != Title && (desired[key].value.Some? || desired[key].optionId.Some?) ::
          Shows(board[issue][key], desired[key])
      case UpdateRow(issue, changes) =>
        issue in board && forall c |
          c in changes && c.key != Title && (c.after.value.Some? || c.after.optionId.Some?) ::
          Shows(board[issue][c.key], c.after)
  {
    hide Normalize, Mutations;
    if op.AddRow? && op.issue in board {
      AddedFieldsAreChecked(op.desired);
    }
  }

  lemma AddedFieldsAreChecked(desired: Fields)
    ensures forall key: FieldKey {:trigger desired[key]} |
      key != Title && (desired[key].value.Some? || desired[key].optionId.Some?) ::
      Change(key, desired[key]) in Mutations(desired, |TRACKED|)
  {
    hide Mutations;
    forall key: FieldKey {:trigger desired[key]} |
      key != Title && (desired[key].value.Some? || desired[key].optionId.Some?)
      ensures Change(key, desired[key]) in Mutations(desired, |TRACKED|)
    {
      var i := TrackedAt(key);
    }
  }

  predicate AllRight(ops: seq<Operation>, board: Board) {
    forall op | op in ops :: FinallyRight(op, board)
  }

  /** The board also has as many rows as the plan says. */
  predicate FinalCheck(total: nat, ops: seq<Operation>, board: Board) {
    |board| == total && AllRight(ops, board)
  }

  ghost predicate AllSatisfied(ops: seq<Operation>, board: Board) {
    forall op | op in ops :: Satisfied(op, board)
  }

  // ---- After a plan of the current schema ----

  /** A successful run of such a plan leaves every operation satisfied. */
  lemma SuccessSatisfies(p: Project, ops: seq<Operation>, board: Board)
    requires PlannedOperations(p, ops) && DistinctTargets(ops) && Run(p, ops, board).ok
    ensures AllSatisfied(ops, Run(p, ops, board).board)
  {
    hide Run, PlannedOperations, DistinctTargets, Satisfied, Carried;
    var later := Run(p, ops, board).board;
    RunAchieves(p, ops, board);
    forall i | 0 <= i < |ops| ensures Satisfied(ops[i], later) {
      assert StatusIsRight(p, ops[i], board, later, Run(p, ops, board).statuses[i]);
      if Run(p, ops, board).statuses[i] == AlreadySatisfied {
        SatisfiedAlike(ops[i], board, later);
      }
    }
  }

  lemma SatisfiedAlike(op: Operation, a: Board, b: Board)
    requires SameAt(op.issue, a, b)
    ensures Satisfied(op, a) <==> Satisfied(op, b)
  {
    hide Wanted;
  }

  lemma SatisfiedIsRight(ops: seq<Operation>, board: Board)
    requires AllSatisfied(ops, board)
    ensures AllRight(ops, board)
  {
    hide Wanted, ValueMatches;
    forall op | op in ops ensures FinallyRight(op, board) {
      assert Satisfied(op, board);
    }
  }

  /** So the check after such a run can fail for the total alone. */
  lemma SuccessIsRight(p: Project, ops: seq<Operation>, board: Board, total: nat)
    requires PlannedOperations(p, ops) && DistinctTargets(ops) && Run(p, ops, board).ok
    ensures FinalCheck(total, ops, Run(p, ops, board).board) <==> |Run(p, ops, board).board| == total
  {
    hide Run, PlannedOperations, DistinctTargets, AllSatisfied, AllRight;
    SuccessSatisfies(p, ops, board);
    SatisfiedIsRight(ops, Run(p, ops, board).board);
  }

  /** A row that is added has, in the end, the title of its issue, the planned value and option of every
      other field that has one planned, and nothing else. */
  lemma AddedInFull(p: Project, ops: seq<Operation>, board: Board, op: Operation)
    requires PlannedOperations(p, ops) && DistinctTargets(ops) && Run(p, ops, board).ok
    requires op in ops && op.AddRow? && op.issue !in board && op.issue in p.titles
    ensures var later := Run(p, ops, board).board;
      && op.issue in later
      && later[op.issue][Title] == Field(Some(p.titles[op.issue]), None)
      && forall key: FieldKey | key != Title :: Shows(later[op.issue][key], op.desired[key])
  {
    hide Run, PlannedOperations, DistinctTargets, Normalize;
    RunAchieves(p, ops, board);
    var i :| 0 <= i < |ops| && ops[i] == op;
    OperationReached(p, ops, board, i);
    forall key: FieldKey
      ensures ApplyChanges(AddedRow(p, op.issue), Wanted(op))[key] ==
        if key == Title || op.desired[key] == NO_FIELD then AddedRow(p, op.issue)[key]
        else Applied(AddedRow(p, op.issue)[key], op.desired[key])
    {
      AddedField(AddedRow(p, op.issue), op.desired, key);
    }
  }

  lemma AddedField(row: Fields, desired: Fields, key: FieldKey)
    ensures ApplyChanges(row, Mutations(desired, |TRACKED|))[key] ==
      if key == Title || desired[key] == NO_FIELD then row[key] else Applied(row[key], desired[key])
  {
    hide Mutations, ApplyChanges, Applied;
    var changes := Mutations(desired, |TRACKED|);
    AppliedFields(row, changes);
    if key == Title || desired[key] == NO_FIELD {
      forall i | 0 <= i < |changes| ensures changes[i].key != key {
        assert changes[i] in changes;
      }
    } else {
      var k := TrackedAt(key);
      var i :| 0 <= i < |changes| && changes[i] == Change(key, desired[key]);
    }
  }

  // ---- After any plan ----

  lemma {:induction false} NoEditsIffMatching(p: Project, issue: string, row: Sides, changes: seq<Change>)
    requires WellFormedSchema(p.schema)
    ensures var e := EditAll(p, issue, row, changes);
      e.ok && e.commands == [] <==> forall c | c in changes :: ValueMatches(row.local[c.key], c.after)
    ensures var e := EditAll(p, issue, row, changes);
      e.ok && e.commands == [] ==> e.row == row
    decreases changes
  {
    hide ValueMatches, TryEdit, WellFormedSchema;
    if changes != [] {
      assert changes == [changes[0]] + changes[1..];
      if ValueMatches(row.local[changes[0].key], changes[0].after) {
        NoEditsIffMatching(p, issue, row, changes[1..]);
      } else {
        EditIsIssued(p, issue, row, changes[0]);
      }
    }
  }

  lemma EditIsIssued(p: Project, issue: string, row: Sides, c: Change)
    requires WellFormedSchema(p.schema)
    ensures TryEdit(p, issue, row, c).ok ==> |TryEdit(p, issue, row, c).commands| == 1
  {
    hide CommandEffect, CommandFor, Accepts;
  }

  lemma IdleOperation(p: Project, op: Operation, board: Board)
    requires WellFormedSchema(p.schema)
    ensures var o := Operate(p, op, Boards(board, board));
      && (o.status != Failed && o.commands == [] <==> Satisfied(op, board))
      && (o.status != Failed && o.commands == [] ==> o.boards == Boards(board, board))
  {
    hide EditAll, Wanted, ValueMatches, AddedRow, WellFormedSchema;
    if op.issue in board {
      NoEditsIffMatching(p, op.issue, Sides(board[op.issue], board[op.issue]), Wanted(op));
      assert board[op.issue := board[op.issue]] == board;
    }
  }

  /** For every plan: a run from a fresh capture succeeds without a command exactly when the board
      already shows all it asks for. */
  lemma {:induction false} IdleIffSatisfied(p: Project, ops: seq<Operation>, board: Board)
    requires WellFormedSchema(p.schema)
    ensures var run := RunBoth(p, ops, Boards(board, board));
      run.ok && run.commands == [] <==> AllSatisfied(ops, board)
    decreases ops
  {
    hide Operate, Satisfied, WellFormedSchema;
    if ops != [] {
      assert ops == [ops[0]] + ops[1..];
      IdleOperation(p, ops[0], board);
      IdleIffSatisfied(p, ops[1..], board);
    }
  }

  /** For every plan without titles and fields to be cleared: the check of the rows passes exactly
      when another run would have nothing to do. */
  lemma RightIffIdle(p: Project, ops: seq<Operation>, board: Board)
    requires WellFormedSchema(p.schema)
    requires forall op, c | op in ops && c in Wanted(op) ::
      c.key != Title && (c.after.value.Some? || c.after.optionId.Some?)
    ensures var run := RunBoth(p, ops, Boards(board, board));
      AllRight(ops, board) <==> run.ok && run.commands == []
  {
    hide RunBoth, WellFormedSchema, Wanted, ValueMatches;
    IdleIffSatisfied(p, ops, board);
    forall op | op in ops ensures Satisfied(op, board) <==> FinallyRight(op, board) {
    }
  }

  /** A plan that deletes and adds one issue passes on no board. */
  lemma SameIssueIsRefused(issue: string, desired: Fields, board: Board, total: nat)
    ensures !FinalCheck(total, [DeleteRow(issue), AddRow(issue, desired)], board)
  {
    var ops := [DeleteRow(issue), AddRow(issue, desired)];
    assert ops[0] in ops && ops[1] in ops;
    assert FinallyRight(ops[0], board) ==> !FinallyRight(ops[1], board);
  }

  /** The edit of an option renamed since the plan was made is reported as applied, but does not pass,
      however often it is run. */
  lemma RenamedOptionIsRefused(p: Project, board: Board, issue: string, key: FieldKey, id: string, planned: string,
      name: string)
    requires WellFormedSchema(p.schema) && issue in board && Normalize(Some(id)).Some? && key != Title
    requires name in Options(p.schema, key) && Options(p.schema, key)[name] == id
    requires Normalize(Some(planned)) != Normalize(Some(name))
    requires !ValueMatches(board[issue][key], Field(Some(planned), Some(id)))
    ensures var ops := [UpdateRow(issue, [Change(key, Field(Some(planned), Some(id)))])];
      var run := RunBoth(p, ops, Boards(board, board));
      run.ok && run.statuses == [AppliedNow] && !AllRight(ops, run.boards.remote)
  {
    hide RunBoth, WellFormedSchema, ValueMatches, Normalize, Options;
    var ops := [UpdateRow(issue, [Change(key, Field(Some(planned), Some(id)))])];
    RenamedOptionNeverSettles(p, board, issue, key, id, planned, name);
    RightIffIdle(p, ops, RunBoth(p, ops, Boards(board, board)).boards.remote);
  }
}
