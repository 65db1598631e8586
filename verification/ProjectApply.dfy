/** Executing a plan against the board, command by command
    (scripts/lib/m057_project_mutation_apply.py). */
module ProjectApply {
  import opened Wrappers
  import opened BoardModel

  datatype Operation =
    | DeleteRow(issue: string)
    | AddRow(issue: string, desired: Fields)
    | UpdateRow(issue: string, changes: seq<Change>)

  datatype Command =
    | ItemDelete(issue: string)
    | ItemAdd(issue: string)
    | ItemEdit(issue: string, key: FieldKey, edit: EditCommand)

  /** The board's field schema and the titles of the issues that can be added to it. */
  datatype Project = Project(schema: Schema, titles: map<string, string>)

  // ---- The remote board ----

  function AddedRow(p: Project, issue: string): Fields {
    TitledFields(Field(if issue in p.titles then Some(p.titles[issue]) else None, None))
  }

  function Execute(p: Project, board: Board, command: Command): Board
    requires WellFormedSchema(p.schema)
  {
    match command
    case ItemDelete(issue) => board - {issue}
    case ItemAdd(issue) => if issue in board then board else board[issue := AddedRow(p, issue)]
    case ItemEdit(issue, key, edit) =>
      if issue in board then board[issue := board[issue][key := CommandEffect(p.schema, key, edit)]] else board
  }

  function ExecuteAll(p: Project, board: Board, commands: seq<Command>): Board
    requires WellFormedSchema(p.schema)
    decreases commands
  {
    if commands == [] then board else ExecuteAll(p, Execute(p, board, commands[0]), commands[1..])
  }

  // ---- Operations ----

  /** The fields an added row has to get: every field but the title that is wanted at all. */
  function Mutations(desired: Fields, n: nat): (r: seq<Change>)
    requires n <= |TRACKED|
    ensures DistinctKeys(r)
    ensures forall c | c in r :: c.key in TRACKED[..n] && c.key != Title && c.after == desired[c.key] != NO_FIELD
    ensures forall i | 0 <= i < n && TRACKED[i] != Title && desired[TRACKED[i]] != NO_FIELD ::
      Change(TRACKED[i], desired[TRACKED[i]]) in r
  {
    if n == 0 then [] else
      var key := TRACKED[n - 1];
      var earlier := Mutations(desired, n - 1);
      assert key !in TRACKED[..n - 1];
      if key == Title || desired[key] == NO_FIELD then earlier else earlier + [Change(key, desired[key])]
  }

  function Wanted(op: Operation): seq<Change> {
    match op
    case DeleteRow(_) => []
    case AddRow(_, desired) => Mutations(desired, |TRACKED|)
    case UpdateRow(_, changes) => changes
  }

  ghost predicate PlannableChanges(schema: Schema, changes: seq<Change>) {
    forall c | c in changes :: Plannable(schema, c.key, c.after)
  }

  /** What the executor can carry out: operations with plannable fields. */
  ghost predicate PlannedOperations(p: Project, ops: seq<Operation>) {
    && WellFormedSchema(p.schema)
    && forall op | op in ops :: PlannableChanges(p.schema, Wanted(op))
  }

  /** What the planner hands over: one operation an issue, with at most one change a field. */
  ghost predicate DistinctTargets(ops: seq<Operation>) {
    && (forall i, j | 0 <= i < j < |ops| :: ops[i].issue != ops[j].issue)
    && forall op | op in ops :: DistinctKeys(Wanted(op))
  }

  function EditOf(schema: Schema, change: Change): (edit: EditCommand)
    requires WellFormedSchema(schema) && Plannable(schema, change.key, change.after)
    ensures CommandEffect(schema, change.key, edit) == NormalizeField(change.after)
  {
    CommandSetsDesired(schema, change.key, change.after);
    CommandFor(schema, change.key, change.after).value
  }

  /** One edit for each change the row does not show yet. */
  function Edits(p: Project, issue: string, row: Fields, changes: seq<Change>): seq<Command>
    requires WellFormedSchema(p.schema) && PlannableChanges(p.schema, changes)
  {
    if changes == [] then []
    else
      var c := changes[0];
      assert forall d | d in changes[1..] :: d in changes;
      (if ValueMatches(row[c.key], c.after) then [] else [ItemEdit(issue, c.key, EditOf(p.schema, c))])
      + Edits(p, issue, ApplyChange(row, c), changes[1..])
  }

  /** The row an operation starts its edits from. */
  function StartRow(p: Project, op: Operation, board: Board): Fields {
    if op.issue in board then board[op.issue] else AddedRow(p, op.issue)
  }

  /** The commands of one operation; None where it fails, which only an update of a missing row does. */
  function OperationCommands(p: Project, op: Operation, board: Board): Option<seq<Command>>
    requires WellFormedSchema(p.schema) && PlannableChanges(p.schema, Wanted(op))
  {
    match op
    case DeleteRow(issue) => Some(if issue in board then [ItemDelete(issue)] else [])
    case AddRow(issue, _) =>
      Some((if issue in board then [] else [ItemAdd(issue)]) + Edits(p, issue, StartRow(p, op, board), Wanted(op)))
    case UpdateRow(issue, _) =>
      if issue in board then Some(Edits(p, issue, board[issue], Wanted(op))) else None
  }

  // ---- Runs ----

  datatype Status = AlreadySatisfied | AppliedNow | Failed

  datatype Outcome = Outcome(commands: seq<Command>, board: Board, statuses: seq<Status>, ok: bool)

  /** A run of the plan: operation after operation, up to the first failure. */
  function Run(p: Project, ops: seq<Operation>, board: Board): Outcome
    requires PlannedOperations(p, ops)
  {
    if ops == [] then Outcome([], board, [], true)
    else
      match OperationCommands(p, ops[0], board)
      case None => Outcome([], board, [Failed], false)
      case Some(commands) =>
        assert forall op | op in ops[1..] :: op in ops;
        var rest := Run(p, ops[1..], ExecuteAll(p, board, commands));
        Outcome(commands + rest.commands, rest.board,
                [if commands == [] then AlreadySatisfied else AppliedNow] + rest.statuses, rest.ok)
  }

  // ---- Commands and boards ----

  lemma {:induction false} ExecuteConcat(p: Project, board: Board, a: seq<Command>, b: seq<Command>)
    requires WellFormedSchema(p.schema)
    ensures ExecuteAll(p, board, a + b) == ExecuteAll(p, ExecuteAll(p, board, a), b)
    decreases a
  {
    if a == [] {
      assert a + b == b;
    } else {
      assert (a + b)[1..] == a[1..] + b;
      ExecuteConcat(p, Execute(p, board, a[0]), a[1..], b);
    }
  }

  ghost predicate SameAt(issue: string, a: Board, b: Board) {
    (issue in a <==> issue in b) && (issue in a && issue in b ==> a[issue] == b[issue])
  }

  /** Commands about other issues leave a row alone. */
  lemma {:induction false} ExecuteElsewhere(p: Project, board: Board, commands: seq<Command>, issue: string)
    requires WellFormedSchema(p.schema) && forall c | c in commands :: c.issue != issue
    ensures SameAt(issue, board, ExecuteAll(p, board, commands))
    decreases commands
  {
    if commands != [] {
      ExecuteElsewhere(p, Execute(p, board, commands[0]), commands[1..], issue);
    }
  }

  lemma {:induction false} EditsAreOfChanges(p: Project, issue: string, row: Fields, changes: seq<Change>)
    requires WellFormedSchema(p.schema) && PlannableChanges(p.schema, changes)
    ensures forall c | c in Edits(p, issue, row, changes) :: c.ItemEdit? && c.issue == issue
    ensures forall c | c in Edits(p, issue, row, changes) :: exists d | d in changes :: d.key == c.key
  {
    if changes != [] {
      var others := changes[1..];
      assert forall d | d in others :: d in changes;
      assert changes[0] in changes;
      EditsAreOfChanges(p, issue, ApplyChange(row, changes[0]), others);
    }
  }

  lemma CommandsOwnIssue(p: Project, op: Operation, board: Board)
    requires WellFormedSchema(p.schema) && PlannableChanges(p.schema, Wanted(op))
    ensures OperationCommands(p, op, board).Some? ==>
      forall c | c in OperationCommands(p, op, board).value :: c.issue == op.issue
  {
    EditsAreOfChanges(p, op.issue, StartRow(p, op, board), Wanted(op));
  }

  lemma PlannedTail(p: Project, ops: seq<Operation>)
    requires PlannedOperations(p, ops) && ops != []
    ensures PlannedOperations(p, ops[1..]) && PlannableChanges(p.schema, Wanted(ops[0]))
  {
    assert forall op | op in ops[1..] :: op in ops;
  }

  lemma DistinctTail(ops: seq<Operation>)
    requires DistinctTargets(ops) && ops != []
    ensures DistinctTargets(ops[1..]) && DistinctKeys(Wanted(ops[0]))
    ensures forall op | op in ops[1..] :: op.issue != ops[0].issue
  {
    assert ops[0] in ops && forall op | op in ops[1..] :: op in ops;
    forall op | op in ops[1..] ensures op.issue != ops[0].issue {
      var i :| 0 <= i < |ops[1..]| && ops[1..][i] == op;
      assert ops[i + 1] == op;
    }
  }

  lemma {:induction false} RunOwnIssues(p: Project, ops: seq<Operation>, board: Board, issue: string)
    requires PlannedOperations(p, ops) && forall op | op in ops :: op.issue != issue
    ensures forall c | c in Run(p, ops, board).commands :: c.issue != issue
  {
    hide OperationCommands;
    if ops != [] && OperationCommands(p, ops[0], board).Some? {
      var commands := OperationCommands(p, ops[0], board).value;
      PlannedTail(p, ops);
      CommandsOwnIssue(p, ops[0], board);
      RunOwnIssues(p, ops[1..], ExecuteAll(p, board, commands), issue);
    }
  }

  /** A run leaves the board its commands lead to. */
  lemma {:induction false} RunBoard(p: Project, ops: seq<Operation>, board: Board)
    requires PlannedOperations(p, ops)
    ensures Run(p, ops, board).board == ExecuteAll(p, board, Run(p, ops, board).commands)
  {
    hide OperationCommands;
    if ops != [] && OperationCommands(p, ops[0], board).Some? {
      var commands := OperationCommands(p, ops[0], board).value;
      PlannedTail(p, ops);
      var rest := Run(p, ops[1..], ExecuteAll(p, board, commands));
      RunBoard(p, ops[1..], ExecuteAll(p, board, commands));
      ExecuteConcat(p, board, commands, rest.commands);
    }
  }

  // ---- One operation ----

  /** A row after some edits of it. */
  function RowAfter(p: Project, row: Fields, edits: seq<Command>): Fields
    requires WellFormedSchema(p.schema) && forall c | c in edits :: c.ItemEdit?
    decreases edits
  {
    if edits == [] then row
    else RowAfter(p, row[edits[0].key := CommandEffect(p.schema, edits[0].key, edits[0].edit)], edits[1..])
  }

  lemma {:induction false} EditsChangeOneRow(p: Project, board: Board, issue: string, edits: seq<Command>)
    requires WellFormedSchema(p.schema) && issue in board
    requires forall c | c in edits :: c.ItemEdit? && c.issue == issue
    ensures ExecuteAll(p, board, edits) == board[issue := RowAfter(p, board[issue], edits)]
    decreases edits
  {
    if edits == [] {
      assert board[issue := board[issue]] == board;
    } else {
      EditsChangeOneRow(p, Execute(p, board, edits[0]), issue, edits[1..]);
    }
  }

  lemma {:induction false} EditsKeepOtherFields(p: Project, row: Fields, edits: seq<Command>, key: FieldKey)
    requires WellFormedSchema(p.schema) && forall c | c in edits :: c.ItemEdit? && c.key != key
    ensures RowAfter(p, row, edits)[key] == row[key]
    decreases edits
  {
    if edits != [] {
      var next := row[edits[0].key := CommandEffect(p.schema, edits[0].key, edits[0].edit)];
      EditsKeepOtherFields(p, next, edits[1..], key);
    }
  }

  /** Edits of the other changes leave the first one's field alone. */
  lemma LaterEditsElsewhere(p: Project, issue: string, row: Fields, changes: seq<Change>, n: nat)
    requires DistinctKeys(changes)
    requires WellFormedSchema(p.schema) && PlannableChanges(p.schema, changes) && changes != []
    requires PlannableChanges(p.schema, changes[1..]) && n <= |Edits(p, issue, row, changes[1..])|
    ensures var edits := Edits(p, issue, row, changes[1..])[..n];
      (forall c | c in edits :: c.ItemEdit?) && RowAfter(p, row, edits)[changes[0].key] == row[changes[0].key]
  {
    EditsAreOfChanges(p, issue, row, changes[1..]);
    FirstKeyAlone(changes);
    var all := Edits(p, issue, row, changes[1..]);
    assert forall c | c in all[..n] :: c in all;
    EditsKeepOtherFields(p, row, all[..n], changes[0].key);
  }

  /** After some of its edits, a row asks for exactly the edits still missing. */
  ghost predicate Resumes(p: Project, issue: string, row: Fields, changes: seq<Change>, n: nat)
    requires WellFormedSchema(p.schema) && PlannableChanges(p.schema, changes)
  {
    var edits := Edits(p, issue, row, changes);
    && n <= |edits|
    && (forall c | c in edits[..n] :: c.ItemEdit?)
    && Edits(p, issue, RowAfter(p, row, edits[..n]), changes) == edits[n..]
  }

  lemma ResumesAtOnce(p: Project, issue: string, row: Fields, changes: seq<Change>)
    requires WellFormedSchema(p.schema) && PlannableChanges(p.schema, changes)
    ensures Resumes(p, issue, row, changes, 0)
    ensures changes == [] ==> Edits(p, issue, row, changes) == []
  {
    var edits := Edits(p, issue, row, changes);
    assert edits[..0] == [] && edits[0..] == edits;
  }

  lemma {:induction false} EditsResume(p: Project, issue: string, row: Fields, changes: seq<Change>, n: nat)
    requires DistinctKeys(changes)
    requires WellFormedSchema(p.schema) && PlannableChanges(p.schema, changes)
    requires n <= |Edits(p, issue, row, changes)|
    ensures Resumes(p, issue, row, changes, n)
    decreases changes
  {
    hide CommandEffect, Plannable, WellFormedSchema, ValueMatches, Applied, RowAfter, Edits;
    ResumesAtOnce(p, issue, row, changes);
    if n > 0 {
      var c := changes[0];
      var edits := Edits(p, issue, row, changes);
      var next := ApplyChange(row, c);
      assert forall d | d in changes[1..] :: d in changes;
      var later := Edits(p, issue, next, changes[1..]);
      SkipsFirst(p, issue, row, changes);
      var m := n - (|edits| - |later|);
      FirstEditDone(p, issue, row, changes, n);
      EditsResume(p, issue, next, changes[1..], m);
      LaterEditsElsewhere(p, issue, next, changes, m);
      var row' := RowAfter(p, next, later[..m]);
      assert RowAfter(p, row, edits[..n]) == row';
      SkipsSettled(p, issue, row', changes);
      assert later[m..] == edits[n..];
    }
  }

  /** The first change is either shown already or takes one edit. */
  lemma SkipsFirst(p: Project, issue: string, row: Fields, changes: seq<Change>)
    requires WellFormedSchema(p.schema) && PlannableChanges(p.schema, changes) && changes != []
    requires PlannableChanges(p.schema, changes[1..])
    ensures var next := ApplyChange(row, changes[0]);
      var edits, later := Edits(p, issue, row, changes), Edits(p, issue, next, changes[1..]);
      && ValueMatches(next[changes[0].key], changes[0].after)
      && (ValueMatches(row[changes[0].key], changes[0].after) ==> next == row && edits == later)
      && (!ValueMatches(row[changes[0].key], changes[0].after) ==>
           && |edits| == |later| + 1 && edits[1..] == later && edits[0].ItemEdit?
           && row[edits[0].key := CommandEffect(p.schema, edits[0].key, edits[0].edit)] == next)
  {
  }

  lemma FirstEditDone(p: Project, issue: string, row: Fields, changes: seq<Change>, n: nat)
    requires WellFormedSchema(p.schema) && PlannableChanges(p.schema, changes) && changes != []
    requires PlannableChanges(p.schema, changes[1..]) && 0 < n <= |Edits(p, issue, row, changes)|
    ensures var next := ApplyChange(row, changes[0]);
      var edits, later := Edits(p, issue, row, changes), Edits(p, issue, next, changes[1..]);
      var m := n - (|edits| - |later|);
      && 0 <= m <= |later|
      && (forall c | c in edits[..n] :: c.ItemEdit?) && (forall c | c in later[..m] :: c.ItemEdit?)
      && RowAfter(p, row, edits[..n]) == RowAfter(p, next, later[..m])
      && edits[n..] == later[m..]
  {
    hide CommandEffect, Plannable, WellFormedSchema, ValueMatches, Applied, Edits, ApplyChange;
    SkipsFirst(p, issue, row, changes);
    var edits := Edits(p, issue, row, changes);
    EditsAreOfChanges(p, issue, row, changes);
    EditsAreOfChanges(p, issue, ApplyChange(row, changes[0]), changes[1..]);
    assert forall c | c in edits[..n] :: c in edits;
    if !ValueMatches(row[changes[0].key], changes[0].after) {
      assert edits[..n][1..] == edits[1..][..n - 1];
      assert edits[n..] == edits[1..][n - 1..];
    }
  }

  lemma SkipsSettled(p: Project, issue: string, row: Fields, changes: seq<Change>)
    requires WellFormedSchema(p.schema) && PlannableChanges(p.schema, changes) && changes != []
    requires PlannableChanges(p.schema, changes[1..])
    requires ValueMatches(row[changes[0].key], changes[0].after)
    ensures Edits(p, issue, row, changes) == Edits(p, issue, row, changes[1..])
  {
    assert ApplyChange(row, changes[0]) == row;
  }

  lemma FirstKeyAlone(changes: seq<Change>)
    requires DistinctKeys(changes) && changes != []
    ensures forall d | d in changes[1..] :: d.key != changes[0].key
  {
    forall d | d in changes[1..] ensures d.key != changes[0].key {
      var i :| 0 <= i < |changes[1..]| && changes[1..][i] == d;
      assert changes[i + 1] == d;
    }
  }

  /** All its edits together apply the changes. */
  lemma {:induction false} EditsApply(p: Project, issue: string, row: Fields, changes: seq<Change>)
    requires WellFormedSchema(p.schema) && PlannableChanges(p.schema, changes)
    ensures forall c | c in Edits(p, issue, row, changes) :: c.ItemEdit?
    ensures RowAfter(p, row, Edits(p, issue, row, changes)) == ApplyChanges(row, changes)
  {
    EditsAreOfChanges(p, issue, row, changes);
    if changes != [] {
      assert forall d | d in changes[1..] :: d in changes;
      SkipsFirst(p, issue, row, changes);
      EditsApply(p, issue, ApplyChange(row, changes[0]), changes[1..]);
    }
  }

  /** What an operation leaves behind. */
  function Carried(p: Project, op: Operation, board: Board): Board {
    if op.DeleteRow? then board - {op.issue}
    else board[op.issue := ApplyChanges(StartRow(p, op, board), Wanted(op))]
  }

  function AddFirst(op: Operation, board: Board): seq<Command> {
    if op.issue in board then [] else [ItemAdd(op.issue)]
  }

  lemma CommandsAre(p: Project, op: Operation, board: Board)
    requires WellFormedSchema(p.schema) && PlannableChanges(p.schema, Wanted(op)) && !op.DeleteRow?
    requires OperationCommands(p, op, board).Some?
    ensures OperationCommands(p, op, board).value
         == AddFirst(op, board) + Edits(p, op.issue, StartRow(p, op, board), Wanted(op))
    ensures ExecuteAll(p, board, AddFirst(op, board)) == board[op.issue := StartRow(p, op, board)]
  {
    hide Edits, Wanted, PlannableChanges;
    var edits := Edits(p, op.issue, StartRow(p, op, board), Wanted(op));
    assert [] + edits == edits;
    if op.issue in board {
      assert board[op.issue := board[op.issue]] == board;
    } else {
      OneCommand(p, board, ItemAdd(op.issue));
    }
  }

  /** The board after the first commands of an operation that has begun its edits. */
  lemma AfterSomeEdits(p: Project, op: Operation, board: Board, n: nat)
    requires WellFormedSchema(p.schema) && PlannableChanges(p.schema, Wanted(op)) && !op.DeleteRow?
    requires OperationCommands(p, op, board).Some?
    requires |AddFirst(op, board)| <= n <= |OperationCommands(p, op, board).value|
    ensures var commands := OperationCommands(p, op, board).value;
      var row := StartRow(p, op, board);
      var edits := Edits(p, op.issue, row, Wanted(op));
      var m := n - |AddFirst(op, board)|;
      && |edits| - m == |commands| - n
      && commands[n..] == edits[m..]
      && (forall c | c in edits[..m] :: c.ItemEdit?)
      && ExecuteAll(p, board, commands[..n]) == board[op.issue := RowAfter(p, row, edits[..m])]
  {
    hide Edits, RowAfter, StartRow, Wanted, AddFirst, OperationCommands, ExecuteAll, WellFormedSchema, PlannableChanges;
    var row := StartRow(p, op, board);
    var first, edits := AddFirst(op, board), Edits(p, op.issue, row, Wanted(op));
    CommandsAre(p, op, board);
    EditsAreOfChanges(p, op.issue, row, Wanted(op));
    var m := n - |first|;
    assert forall c | c in edits[..m] :: c in edits;
    var started := board[op.issue := row];
    EditsChangeOneRow(p, started, op.issue, edits[..m]);
    assert (first + edits)[..n] == first + edits[..m];
    ExecuteConcat(p, board, first, edits[..m]);
  }

  lemma OneCommand(p: Project, board: Board, command: Command)
    requires WellFormedSchema(p.schema)
    ensures ExecuteAll(p, board, [command]) == Execute(p, board, command)
  {
    assert [command][1..] == [];
  }

  lemma OperationCarriesOut(p: Project, op: Operation, board: Board)
    requires WellFormedSchema(p.schema) && PlannableChanges(p.schema, Wanted(op))
    requires OperationCommands(p, op, board).Some?
    ensures ExecuteAll(p, board, OperationCommands(p, op, board).value) == Carried(p, op, board)
  {
    hide Edits, RowAfter, AddedRow, CommandEffect, Wanted;
    var commands := OperationCommands(p, op, board).value;
    if op.DeleteRow? {
      OneCommand(p, board, ItemDelete(op.issue));
      assert op.issue !in board ==> board - {op.issue} == board;
    } else {
      var row := StartRow(p, op, board);
      var edits := Edits(p, op.issue, row, Wanted(op));
      EditsApply(p, op.issue, row, Wanted(op));
      AfterSomeEdits(p, op, board, |commands|);
      assert edits[..|edits|] == edits && commands[..|commands|] == commands;
    }
  }

  /** Stopped between two commands of an operation, the same operation asks for exactly the rest. */
  lemma OperationResumes(p: Project, op: Operation, board: Board, n: nat)
    requires DistinctKeys(Wanted(op))
    requires WellFormedSchema(p.schema) && PlannableChanges(p.schema, Wanted(op))
    requires OperationCommands(p, op, board).Some? && n <= |OperationCommands(p, op, board).value|
    ensures var commands := OperationCommands(p, op, board).value;
      OperationCommands(p, op, ExecuteAll(p, board, commands[..n])) == Some(commands[n..])
  {
    hide Edits, RowAfter, AddedRow, CommandEffect, Wanted;
    var commands := OperationCommands(p, op, board).value;
    if n == 0 {
      assert commands[..0] == [] && commands[0..] == commands;
    } else if op.DeleteRow? {
      OneCommand(p, board, ItemDelete(op.issue));
      assert commands[..1] == [ItemDelete(op.issue)];
    } else {
      AfterSomeEdits(p, op, board, n);
      var m := n - |AddFirst(op, board)|;
      EditsResume(p, op.issue, StartRow(p, op, board), Wanted(op), m);
      assert [] + commands[n..] == commands[n..];
    }
  }

  /** An operation looks at its own issue only. */
  lemma OperationLocal(p: Project, op: Operation, a: Board, b: Board)
    requires WellFormedSchema(p.schema) && PlannableChanges(p.schema, Wanted(op))
    requires SameAt(op.issue, a, b)
    ensures OperationCommands(p, op, a) == OperationCommands(p, op, b)
  {
  }
}
