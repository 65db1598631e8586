/** Runs of the executor on two boards: the remote one, and the local rows the executor decides by.
    For plans made against the current field schema the two stay equal, and the run is that of
    module `ProjectApply`. */
module ExecutorRuns {
  import opened Wrappers
  import opened BoardModel
  import opened ProjectApply
  import opened ApplyRestart

  // ---- One row ----

  /** A row as the executor has it and as the board has it. */
  datatype Sides = Sides(local: Fields, remote: Fields)

  /** A row after some edits, the commands the board carried out, and whether none failed. */
  datatype Edited = Edited(row: Sides, commands: seq<Command>, ok: bool)

  /** One edit: the board takes the option or text, the local row the planned field. */
  function TryEdit(p: Project, issue: string, row: Sides, c: Change): Edited
    requires WellFormedSchema(p.schema)
  {
    match CommandFor(p.schema, c.key, c.after)
    case None => Edited(row, [], false)
    case Some(edit) =>
      if !Accepts(p.schema, c.key, edit) then Edited(row, [], false)
      else
        Edited(Sides(row.local[c.key := NormalizeField(c.after)],
                     row.remote[c.key := CommandEffect(p.schema, c.key, edit)]),
               [ItemEdit(issue, c.key, edit)], true)
  }

  /** One edit for each change the local row does not show, up to the first that fails. */
  function EditAll(p: Project, issue: string, row: Sides, changes: seq<Change>): Edited
    requires WellFormedSchema(p.schema)
    decreases changes
  {
    if changes == [] then Edited(row, [], true)
    else if ValueMatches(row.local[changes[0].key], changes[0].after) then EditAll(p, issue, row, changes[1..])
    else
      var first := TryEdit(p, issue, row, changes[0]);
      if !first.ok then first
      else
        var rest := EditAll(p, issue, first.row, changes[1..]);
        Edited(rest.row, first.commands + rest.commands, rest.ok)
  }

  /** The changes before the first one that fails, which is not made; those behind it are not tried. */
  ghost predicate FailsAt(p: Project, issue: string, row: Sides, changes: seq<Change>, k: nat)
    requires WellFormedSchema(p.schema)
  {
    && k < |changes|
    && var before := EditAll(p, issue, row, changes[..k]);
       && before.ok
       && !ValueMatches(before.row.local[changes[k].key], changes[k].after)
       && !TryEdit(p, issue, before.row, changes[k]).ok
       && EditAll(p, issue, row, changes) == Edited(before.row, before.commands, false)
  }

  /** The edits of a row fail exactly when some change fails, and stop at the first one. */
  lemma {:induction false} EditsStopAtFailure(p: Project, issue: string, row: Sides, changes: seq<Change>)
    requires WellFormedSchema(p.schema)
    ensures !EditAll(p, issue, row, changes).ok <==> exists k: nat :: FailsAt(p, issue, row, changes, k)
    decreases changes
  {
    hide TryEdit, ValueMatches, WellFormedSchema;
    if changes != [] && !EditAll(p, issue, row, changes).ok {
      var c := changes[0];
      var first := TryEdit(p, issue, row, c);
      FailedEdit(p, issue, row, c);
      if ValueMatches(row.local[c.key], c.after) {
        EditsStopAtFailure(p, issue, row, changes[1..]);
        var k: nat :| FailsAt(p, issue, row, changes[1..], k);
        assert changes[..k + 1][1..] == changes[1..][..k] && changes[..k + 1][0] == c;
        assert FailsAt(p, issue, row, changes, k + 1);
      } else if first.ok {
        EditsStopAtFailure(p, issue, first.row, changes[1..]);
        var k: nat :| FailsAt(p, issue, first.row, changes[1..], k);
        assert changes[..k + 1][1..] == changes[1..][..k] && changes[..k + 1][0] == c;
        assert FailsAt(p, issue, row, changes, k + 1);
      } else {
        assert changes[..0] == [];
        assert FailsAt(p, issue, row, changes, 0);
      }
    }
  }

  lemma FailedEdit(p: Project, issue: string, row: Sides, c: Change)
    requires WellFormedSchema(p.schema)
    ensures !TryEdit(p, issue, row, c).ok ==> TryEdit(p, issue, row, c) == Edited(row, [], false)
  {
  }

  // ---- One operation ----

  datatype Boards = Boards(local: Board, remote: Board)

  /** The executor knows which rows the board has. */
  ghost predicate SameRows(b: Boards) {
    forall issue :: issue in b.local <==> issue in b.remote
  }

  function SidesOf(b: Boards, issue: string): Sides
    requires issue in b.local && issue in b.remote
  {
    Sides(b.local[issue], b.remote[issue])
  }

  function WithRow(b: Boards, issue: string, row: Sides): Boards {
    Boards(b.local[issue := row.local], b.remote[issue := row.remote])
  }

  datatype Operated = Operated(boards: Boards, commands: seq<Command>, status: Status)

  function StatusOf(e: Edited): Status {
    if !e.ok then Failed else if e.commands == [] then AlreadySatisfied else AppliedNow
  }

  /** An operation; adding a row is followed by a new capture of the whole board. */
  function Operate(p: Project, op: Operation, b: Boards): (r: Operated)
    requires WellFormedSchema(p.schema) && SameRows(b)
    ensures SameRows(r.boards)
  {
    var issue := op.issue;
    match op
    case DeleteRow(_) =>
      if issue in b.local
      then Operated(Boards(b.local - {issue}, b.remote - {issue}), [ItemDelete(issue)], AppliedNow)
      else Operated(b, [], AlreadySatisfied)
    case AddRow(_, _) =>
      if issue in b.local then OperateOn(p, op, b)
      else
        var added := AddedRow(p, issue);
        var captured := b.remote[issue := added];
        var e := EditAll(p, issue, Sides(added, added), Wanted(op));
        Operated(WithRow(Boards(captured, captured), issue, e.row), [ItemAdd(issue)] + e.commands,
                 if e.ok then AppliedNow else Failed)
    case UpdateRow(_, _) =>
      if issue in b.local then OperateOn(p, op, b) else Operated(b, [], Failed)
  }

  function OperateOn(p: Project, op: Operation, b: Boards): (r: Operated)
    requires WellFormedSchema(p.schema) && SameRows(b) && op.issue in b.local
    ensures SameRows(r.boards)
  {
    var e := EditAll(p, op.issue, SidesOf(b, op.issue), Wanted(op));
    Operated(WithRow(b, op.issue, e.row), e.commands, StatusOf(e))
  }

  /** What an operation reports: failure, nothing to do, or something done. */
  lemma StatusTellsCommands(p: Project, op: Operation, b: Boards)
    requires WellFormedSchema(p.schema) && SameRows(b)
    ensures var o := Operate(p, op, b);
      && (o.status == AlreadySatisfied ==> o.commands == [] && o.boards == b)
      && (o.status == AppliedNow ==> o.commands != [])
  {
    hide TryEdit, ValueMatches, WellFormedSchema;
    if op.issue in b.local {
      IdleEdits(p, op.issue, SidesOf(b, op.issue), Wanted(op));
      assert WithRow(b, op.issue, SidesOf(b, op.issue)) == b;
    }
  }

  lemma {:induction false} IdleEdits(p: Project, issue: string, row: Sides, changes: seq<Change>)
    requires WellFormedSchema(p.schema)
    ensures var e := EditAll(p, issue, row, changes);
      e.ok && e.commands == [] ==> e.row == row
    decreases changes
  {
    hide ValueMatches, WellFormedSchema, CommandEffect, CommandFor, Accepts;
    if changes != [] && ValueMatches(row.local[changes[0].key], changes[0].after) {
      IdleEdits(p, issue, row, changes[1..]);
    }
  }

  /** An operation that adds a row leaves every other local row as the board has it. */
  lemma AddRecaptures(p: Project, op: Operation, b: Boards)
    requires WellFormedSchema(p.schema) && SameRows(b) && op.AddRow? && op.issue !in b.local
    ensures var o := Operate(p, op, b);
      forall issue | issue in b.remote ::
        issue in o.boards.local && issue in o.boards.remote
        && o.boards.local[issue] == o.boards.remote[issue] == b.remote[issue]
  {
    hide EditAll, WellFormedSchema, AddedRow, Wanted;
  }

  // ---- Runs ----

  datatype BothOutcome = BothOutcome(commands: seq<Command>, boards: Boards, statuses: seq<Status>, ok: bool)

  /** Operation after operation, up to the first failure. */
  function RunBoth(p: Project, ops: seq<Operation>, b: Boards): BothOutcome
    requires WellFormedSchema(p.schema) && SameRows(b)
    decreases ops
  {
    if ops == [] then BothOutcome([], b, [], true)
    else
      var first := Operate(p, ops[0], b);
      if first.status == Failed then BothOutcome(first.commands, first.boards, [Failed], false)
      else
        var rest := RunBoth(p, ops[1..], first.boards);
        BothOutcome(first.commands + rest.commands, rest.boards, [first.status] + rest.statuses, rest.ok)
  }

  /** The operations before the first one that fails, in full; those behind it are not begun. */
  ghost predicate StopsAt(p: Project, ops: seq<Operation>, b: Boards, k: nat)
    requires WellFormedSchema(p.schema) && SameRows(b)
  {
    && k < |ops|
    && var before := RunBoth(p, ops[..k], b);
       && before.ok && SameRows(before.boards)
       && var failed := Operate(p, ops[k], before.boards);
          && failed.status == Failed
          && RunBoth(p, ops, b) == BothOutcome(before.commands + failed.commands, failed.boards,
                                               before.statuses + [Failed], false)
  }

  /** A run fails exactly when some operation fails, and stops at the first one. */
  lemma {:induction false} RunStopsAtFailure(p: Project, ops: seq<Operation>, b: Boards)
    requires WellFormedSchema(p.schema) && SameRows(b)
    ensures !RunBoth(p, ops, b).ok <==> exists k: nat :: StopsAt(p, ops, b, k)
    decreases ops
  {
    hide Operate, WellFormedSchema, SameRows;
    if ops != [] && !RunBoth(p, ops, b).ok {
      var first := Operate(p, ops[0], b);
      if first.status == Failed {
        assert ops[..0] == [];
        assert StopsAt(p, ops, b, 0);
      } else {
        RunStopsAtFailure(p, ops[1..], first.boards);
        var k: nat :| StopsAt(p, ops[1..], first.boards, k);
        assert ops[..k + 1][1..] == ops[1..][..k] && ops[..k + 1][0] == ops[0];
        assert StopsAt(p, ops, b, k + 1);
      }
    }
  }

  // ---- Plans made against the current schema ----

  lemma PlannableIsAccepted(p: Project, issue: string, row: Sides, c: Change)
    requires WellFormedSchema(p.schema) && Plannable(p.schema, c.key, c.after)
    ensures TryEdit(p, issue, row, c) ==
      Edited(Sides(row.local[c.key := NormalizeField(c.after)], row.remote[c.key := NormalizeField(c.after)]),
             [ItemEdit(issue, c.key, EditOf(p.schema, c))], true)
  {
    hide CommandEffect, WellFormedSchema;
    CommandSetsDesired(p.schema, c.key, c.after);
  }

  /** The edits of plannable changes never fail and keep both sides equal. */
  lemma {:induction false} EditAllIsEdits(p: Project, issue: string, row: Fields, changes: seq<Change>)
    requires WellFormedSchema(p.schema) && PlannableChanges(p.schema, changes)
    ensures var after := ApplyChanges(row, changes);
      EditAll(p, issue, Sides(row, row), changes) == Edited(Sides(after, after), Edits(p, issue, row, changes), true)
  {
    hide TryEdit, EditOf, ValueMatches, Plannable, WellFormedSchema;
    if changes != [] {
      var c := changes[0];
      assert c in changes && forall d | d in changes[1..] :: d in changes;
      PlannableIsAccepted(p, issue, Sides(row, row), c);
      var next := ApplyChange(row, c);
      assert next == if ValueMatches(row[c.key], c.after) then row else row[c.key := NormalizeField(c.after)];
      EditAllIsEdits(p, issue, next, changes[1..]);
      assert [] + Edits(p, issue, next, changes[1..]) == Edits(p, issue, next, changes[1..]);
    }
  }

  lemma OperateIsOperation(p: Project, op: Operation, board: Board)
    requires WellFormedSchema(p.schema) && PlannableChanges(p.schema, Wanted(op))
    ensures var r := Operate(p, op, Boards(board, board));
      match OperationCommands(p, op, board)
      case None => r == Operated(Boards(board, board), [], Failed)
      case Some(commands) =>
        r == Operated(Boards(Carried(p, op, board), Carried(p, op, board)), commands,
                      if commands == [] then AlreadySatisfied else AppliedNow)
  {
    hide EditAll, Edits, ApplyChanges, Wanted, PlannableChanges, WellFormedSchema, AddedRow;
    var row := StartRow(p, op, board);
    if op.DeleteRow? {
      assert op.issue !in board ==> board - {op.issue} == board;
    } else {
      EditAllIsEdits(p, op.issue, row, Wanted(op));
      var edits := Edits(p, op.issue, row, Wanted(op));
      assert [] + edits == edits;
      var after := ApplyChanges(row, Wanted(op));
      assert board[op.issue := row][op.issue := after] == board[op.issue := after];
    }
  }

  /** A run of such a plan from a fresh capture is the run on one board. */
  lemma {:induction false} BothIsRun(p: Project, ops: seq<Operation>, board: Board)
    requires PlannedOperations(p, ops)
    ensures var run := Run(p, ops, board);
      RunBoth(p, ops, Boards(board, board))
        == BothOutcome(run.commands, Boards(run.board, run.board), run.statuses, run.ok)
    decreases ops
  {
    hide Operate, OperationCommands, Carried, ExecuteAll, PlannableChanges;
    if ops != [] {
      PlannedTail(p, ops);
      OperateIsOperation(p, ops[0], board);
      if OperationCommands(p, ops[0], board).Some? {
        OperationCarriesOut(p, ops[0], board);
        BothIsRun(p, ops[1..], Carried(p, ops[0], board));
      }
    }
  }

  // ---- The commands of such a plan ----

  /** The edit is one the board accepts, and sends what one of the operations wants of that field. */
  ghost predicate FitsSome(p: Project, ops: seq<Operation>, c: Command) {
    c.ItemEdit? ==>
      && Accepts(p.schema, c.key, c.edit)
      && exists op, change ::
           op in ops && change in Wanted(op) && op.issue == c.issue && change.key == c.key
           && Sends(p.schema, c.key, c.edit, change.after)
  }

  lemma {:induction false} EditsFit(p: Project, op: Operation, row: Fields, changes: seq<Change>)
    requires WellFormedSchema(p.schema) && PlannableChanges(p.schema, changes)
    requires forall change | change in changes :: change in Wanted(op)
    ensures forall c | c in Edits(p, op.issue, row, changes) :: FitsSome(p, [op], c)
    decreases changes
  {
    hide Wanted, WellFormedSchema, Plannable, Accepts, Sends, ValueMatches, CommandFor, CommandEffect, ApplyChange;
    if changes != [] {
      var change := changes[0];
      assert change in changes && forall d | d in changes[1..] :: d in changes;
      EditsFit(p, op, ApplyChange(row, change), changes[1..]);
      CommandSetsDesired(p.schema, change.key, change.after);
      assert op in [op];
    }
  }

  lemma OperationFits(p: Project, op: Operation, board: Board)
    requires WellFormedSchema(p.schema) && PlannableChanges(p.schema, Wanted(op))
    requires OperationCommands(p, op, board).Some?
    ensures forall c | c in OperationCommands(p, op, board).value :: FitsSome(p, [op], c)
  {
    hide Wanted, WellFormedSchema, Plannable, Accepts, Sends, Edits;
    EditsFit(p, op, StartRow(p, op, board), Wanted(op));
  }

  /** Every edit that a run of a plan of the current schema issues is accepted by the board, as it is of
      the field's type, and sends the option, the date or the text that an operation of the plan wants
      of that field, or clears a field wanted empty. */
  lemma {:induction false} RunCommandsFit(p: Project, ops: seq<Operation>, board: Board)
    requires PlannedOperations(p, ops)
    ensures forall c | c in Run(p, ops, board).commands :: FitsSome(p, ops, c)
    decreases ops
  {
    hide OperationCommands, ExecuteAll, PlannableChanges, Accepts, Sends, Wanted;
    if ops != [] && OperationCommandsOf(p, ops, board).Some? {
      PlannedTail(p, ops);
      var first := OperationCommands(p, ops[0], board).value;
      OperationFits(p, ops[0], board);
      RunCommandsFit(p, ops[1..], ExecuteAll(p, board, first));
      assert ops[0] in ops && forall op | op in ops[1..] :: op in ops;
    }
  }

  // ---- Plans made against another schema ----

  lemma OneChange(p: Project, issue: string, row: Sides, c: Change)
    requires WellFormedSchema(p.schema) && !ValueMatches(row.local[c.key], c.after)
    ensures EditAll(p, issue, row, [c]) == TryEdit(p, issue, row, c)
  {
    hide TryEdit, ValueMatches, WellFormedSchema;
    var first := TryEdit(p, issue, row, c);
    assert [c][1..] == [];
    if first.ok {
      assert EditAll(p, issue, first.row, []) == Edited(first.row, [], true);
      assert first.commands + [] == first.commands;
    }
  }

  lemma OneOperation(p: Project, op: Operation, b: Boards)
    requires WellFormedSchema(p.schema) && SameRows(b)
    ensures var o := Operate(p, op, b);
      RunBoth(p, [op], b) == BothOutcome(o.commands, o.boards, [o.status], o.status != Failed)
  {
    hide Operate;
    assert [op][1..] == [];
    var o := Operate(p, op, b);
    assert o.commands + [] == o.commands && [o.status] + [] == [o.status];
  }

  /** The edit of an option that still exists under another name. */
  lemma RenamedOption(p: Project, issue: string, row: Sides, key: FieldKey, id: string, planned: string, name: string)
    requires WellFormedSchema(p.schema) && Normalize(Some(id)).Some?
    requires name in Options(p.schema, key) && Options(p.schema, key)[name] == id
    ensures var shown := NormalizeField(Field(Some(name), Some(id)));
      var c := Change(key, Field(Some(planned), Some(id)));
      TryEdit(p, issue, row, c) ==
        Edited(Sides(row.local[key := NormalizeField(c.after)], row.remote[key := shown]),
               [ItemEdit(issue, key, SelectOption(id))], true)
  {
    hide Normalize;
    assert Options(p.schema, key) != map[] && id in Options(p.schema, key).Values;
    assert p.schema[key].fieldType == SelectField;
    assert OptionName(p.schema, key, id) == Some(name);
  }

  /** A select field whose option has been renamed since the plan was made: the edit is carried out
      and reported as applied, the board shows the new name, and from a fresh capture the same edit
      is due again. */
  lemma RenamedOptionNeverSettles(p: Project, board: Board, issue: string, key: FieldKey, id: string, planned: string,
      name: string)
    requires WellFormedSchema(p.schema) && issue in board && Normalize(Some(id)).Some?
    requires name in Options(p.schema, key) && Options(p.schema, key)[name] == id
    requires Normalize(Some(planned)) != Normalize(Some(name))
    requires !ValueMatches(board[issue][key], Field(Some(planned), Some(id)))
    ensures var ops := [UpdateRow(issue, [Change(key, Field(Some(planned), Some(id)))])];
      var run := RunBoth(p, ops, Boards(board, board));
      var again := RunBoth(p, ops, Boards(run.boards.remote, run.boards.remote));
      && run.ok && run.statuses == [AppliedNow]
      && again.commands == run.commands == [ItemEdit(issue, key, SelectOption(id))]
      && again.boards.remote == run.boards.remote != run.boards.local
  {
    hide WellFormedSchema, TryEdit, EditAll;
    var change := Change(key, Field(Some(planned), Some(id)));
    var op := UpdateRow(issue, [change]);
    var shown := NormalizeField(Field(Some(name), Some(id)));
    var edited := board[issue][key := shown];
    var later := board[issue := edited];
    NormalIsNormal(name, id);
    assert edited[key := shown] == edited && later[issue := edited] == later;
    OneChange(p, issue, Sides(board[issue], board[issue]), change);
    RenamedOption(p, issue, Sides(board[issue], board[issue]), key, id, planned, name);
    OneChange(p, issue, Sides(edited, edited), change);
    RenamedOption(p, issue, Sides(edited, edited), key, id, planned, name);
    OneOperation(p, op, Boards(board, board));
    OneOperation(p, op, Boards(later, later));
    assert board[issue := board[issue][key := NormalizeField(change.after)]][issue][key] != later[issue][key];
  }

  lemma NormalIsNormal(name: string, id: string)
    ensures var shown := NormalizeField(Field(Some(name), Some(id)));
      NormalizeField(shown) == shown
  {
  }
}
