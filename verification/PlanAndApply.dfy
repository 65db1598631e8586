/** The planner and the executor together: what the executor does with the plan is what the planner
    meant, and planning again picks up where a run stopped. */
module PlanAndApply {
  import opened Wrappers
  import opened BoardModel
  import opened Inheritance
  import opened ProjectPlan
  import opened PlanFixpoint
  import opened ReplanSuccess
  import opened ProjectApply
  import opened ApplyRestart
  import opened StoppedRuns

  function Operations(updates: seq<Update>): (ops: seq<Operation>)
    ensures |ops| == |updates|
    ensures forall i | 0 <= i < |ops| :: ops[i] == UpdateRow(updates[i].handle, updates[i].changes)
  {
    seq(|updates|, i requires 0 <= i < |updates| => UpdateRow(updates[i].handle, updates[i].changes))
  }

  /** One update for each row with changes, and nothing else. */
  ghost predicate Contents(s: Snapshot, rows: seq<RetainedRow>, updates: seq<Update>) {
    && AllPlanned(s, rows)
    && (forall i, j | 0 <= i < j < |updates| :: updates[i].handle != updates[j].handle)
    && (forall u | u in updates :: UpdateOfSome(s, rows, u))
    && (forall row | row in rows && PlannedChanges(s, row) != [] ::
          Update(row.handle, PlannedChanges(s, row)) in updates)
  }

  ghost predicate UpdateOfSome(s: Snapshot, rows: seq<RetainedRow>, u: Update)
    requires AllPlanned(s, rows)
  {
    u.changes != [] && exists row | row in rows :: u.handle == row.handle && u.changes == PlannedChanges(s, row)
  }

  lemma {:induction false} PlanContents(s: Snapshot, rows: seq<RetainedRow>)
    requires UpdatePlan(s, rows).Ok? && DistinctHandles(rows)
    ensures Contents(s, rows, UpdatePlan(s, rows).value)
  {
    hide DesiredRow, PlannedChanges, Contents;
    if rows == [] {
      NoContents(s);
    } else {
      var n := |rows| - 1;
      assert rows == rows[..n] + [rows[n]];
      PlansIffAllPlanned(s, rows);
      PlansIffAllPlanned(s, rows[..n]);
      PlanContents(s, rows[..n]);
      LastInPlan(s, rows);
      ContentsMore(s, rows[..n], rows[n], UpdatePlan(s, rows[..n]).value);
    }
  }

  lemma NoContents(s: Snapshot)
    ensures Contents(s, [], [])
  {
  }

  lemma ContentsMore(s: Snapshot, rows: seq<RetainedRow>, row: RetainedRow, updates: seq<Update>)
    requires Contents(s, rows, updates) && DistinctHandles(rows + [row]) && AllPlanned(s, rows + [row])
    requires row.handle in s.items && DesiredRow(s, row).Ok?
    ensures var changes := PlannedChanges(s, row);
      Contents(s, rows + [row], updates + if changes == [] then [] else [Update(row.handle, changes)])
  {
    hide DesiredRow, PlannedChanges;
    var changes := PlannedChanges(s, row);
    var all := rows + [row];
    assert row in all;
    forall u | u in updates ensures UpdateOfSome(s, all, u) && u.handle != row.handle {
      assert UpdateOfSome(s, rows, u);
      var r :| r in rows && u.handle == r.handle && u.changes == PlannedChanges(s, r);
      var i :| 0 <= i < |rows| && rows[i] == r;
      assert all[i] == r && all[|rows|] == row;
    }
    if changes != [] {
      assert UpdateOfSome(s, all, Update(row.handle, changes));
    }
  }

  // ---- The whole plan ----

  /** The plan is made against the board's own schema, and its fields are of the types that the
      scripts take them for. */
  ghost predicate SameSchema(p: Project, s: Snapshot) {
    p.schema == s.schema && WellFormedSchema(s.schema) && WellTyped(s.schema)
  }

  /** `ordered_operations`: deletes and adds first, then the updates of the retained rows. */
  function Whole(s: Snapshot, rows: seq<RetainedRow>, front: seq<Operation>): seq<Operation>
    requires UpdatePlan(s, rows).Ok?
  {
    front + Operations(UpdatePlan(s, rows).value)
  }

  function Issues(ops: seq<Operation>): set<string> {
    set op | op in ops :: op.issue
  }

  /** The issues whose rows are to be deleted. */
  function Gone(ops: seq<Operation>): set<string> {
    set op | op in ops && op.DeleteRow? :: op.issue
  }

  /** A plan: deletes and adds of distinct issues, none of them retained, and retained rows that can
      be planned. */
  ghost predicate Ready(p: Project, s: Snapshot, rows: seq<RetainedRow>, front: seq<Operation>) {
    && SameSchema(p, s) && DistinctHandles(rows) && UpdatePlan(s, rows).Ok?
    && (forall op | op in front :: !op.UpdateRow? && PlannableChanges(p.schema, Wanted(op)))
    && (forall i, j | 0 <= i < j < |front| :: front[i].issue != front[j].issue)
    && (forall row | row in rows :: row.handle !in Issues(front))
  }

  /** Whatever the planner produces the executor can carry out. */
  lemma PlanIsExecutable(p: Project, s: Snapshot, rows: seq<RetainedRow>, front: seq<Operation>)
    requires Ready(p, s, rows, front)
    ensures var ops := Whole(s, rows, front);
      PlannedOperations(p, ops) && DistinctTargets(ops) && NoRowMissing(ops, s.items)
  {
    hide DesiredRow, WellFormedSchema, Plannable, Changes, UpdatePlan, PlannedChanges, DistinctKeys;
    PlanContents(s, rows);
    var updates := UpdatePlan(s, rows).value;
    var ops := Whole(s, rows, front);
    forall op | op in ops
      ensures PlannableChanges(p.schema, Wanted(op)) && DistinctKeys(Wanted(op))
      ensures (op.UpdateRow? ==> op.issue in s.items)
    {
      OperationIsExecutable(p, s, rows, front, op);
    }
    forall i, j | 0 <= i < j < |ops| ensures ops[i].issue != ops[j].issue {
      if i < |front| <= j {
        assert ops[i] in front && updates[j - |front|] in updates;
        assert UpdateOfSome(s, rows, updates[j - |front|]);
        assert ops[i].issue in Issues(front);
      }
    }
  }

  lemma OperationIsExecutable(p: Project, s: Snapshot, rows: seq<RetainedRow>, front: seq<Operation>, op: Operation)
    requires Ready(p, s, rows, front) && op in Whole(s, rows, front)
    ensures PlannableChanges(p.schema, Wanted(op)) && DistinctKeys(Wanted(op))
    ensures (op.UpdateRow? ==> op.issue in s.items)
  {
    hide DesiredRow, WellFormedSchema, Plannable, Changes, UpdatePlan, PlannedChanges, DistinctKeys;
    var ops := Whole(s, rows, front);
    var i :| 0 <= i < |ops| && ops[i] == op;
    if i < |front| {
      assert front[i] in front;
      FrontKeys(op);
    } else {
      PlanContents(s, rows);
      var u := UpdatePlan(s, rows).value[i - |front|];
      assert UpdateOfSome(s, rows, u);
      var row :| row in rows && u.handle == row.handle && u.changes == PlannedChanges(s, row);
      PlannedChangesPlannable(s, row);
    }
  }

  lemma FrontKeys(op: Operation)
    requires !op.UpdateRow?
    ensures DistinctKeys(Wanted(op))
  {
  }

  lemma PlannedChangesPlannable(s: Snapshot, row: RetainedRow)
    requires row.handle in s.items && DesiredRow(s, row).Ok? && WellTyped(s.schema)
    ensures PlannableChanges(s.schema, PlannedChanges(s, row)) && DistinctKeys(PlannedChanges(s, row))
  {
    hide DesiredRow, IsDesired, Typed;
    DesiredRowFields(s, row);
    forall c | c in PlannedChanges(s, row) ensures Plannable(s.schema, c.key, c.after) {
      assert DesiredFor(s, row, c.key) == Ok(DesiredRow(s, row).value[c.key]);
    }
  }

  // ---- A whole run ----

  lemma RowReached(p: Project, s: Snapshot, rows: seq<RetainedRow>, front: seq<Operation>, row: RetainedRow)
    requires Ready(p, s, rows, front) && row in rows && AllPlanned(s, rows)
    requires PlannedOperations(p, Whole(s, rows, front))
    ensures var later := Run(p, Whole(s, rows, front), s.items).board;
      row.handle in later && later[row.handle] == PlannedFields(s, row)
  {
    hide DesiredRow, Run, PlannedOperations, PlannedChanges, UpdatePlan, Plannable, WellFormedSchema,
      DistinctTargets, SameSchema, PlannableChanges;
    var ops := Whole(s, rows, front);
    var updates := UpdatePlan(s, rows).value;
    PlanContents(s, rows);
    PlanIsExecutable(p, s, rows, front);
    if PlannedChanges(s, row) == [] {
      forall i | 0 <= i < |ops| ensures ops[i].issue != row.handle {
        OperationOfRow(p, s, rows, front, row, i);
      }
      UnplannedRowsStay(p, ops, s.items, row.handle);
    } else {
      var i :| 0 <= i < |updates| && updates[i] == Update(row.handle, PlannedChanges(s, row));
      OperationReached(p, ops, s.items, |front| + i);
    }
  }

  /** The only operation on a retained row is the update with its changes. */
  lemma OperationOfRow(p: Project, s: Snapshot, rows: seq<RetainedRow>, front: seq<Operation>, row: RetainedRow, i: nat)
    requires Ready(p, s, rows, front) && row in rows && AllPlanned(s, rows) && i < |Whole(s, rows, front)|
    ensures Whole(s, rows, front)[i].issue == row.handle ==>
      PlannedChanges(s, row) != [] && Whole(s, rows, front)[i] == UpdateRow(row.handle, PlannedChanges(s, row))
  {
    hide DesiredRow, PlannedChanges, UpdatePlan, Plannable, WellFormedSchema;
    var ops := Whole(s, rows, front);
    if i < |front| {
      assert front[i] in front && front[i].issue in Issues(front);
    } else if ops[i].issue == row.handle {
      PlanContents(s, rows);
      var u := UpdatePlan(s, rows).value[i - |front|];
      assert UpdateOfSome(s, rows, u);
      var other :| other in rows && u.handle == other.handle && u.changes == PlannedChanges(s, other);
      SameRow(rows, row, other);
    }
  }

  /** Running the plan succeeds and brings every retained row to its planned fields. */
  lemma RunAppliesPlan(p: Project, s: Snapshot, rows: seq<RetainedRow>, front: seq<Operation>)
    requires Ready(p, s, rows, front)
    ensures var ops := Whole(s, rows, front);
      && PlannedOperations(p, ops) && DistinctTargets(ops)
      && Run(p, ops, s.items).ok && RowsApplied(s, rows, Run(p, ops, s.items).board)
  {
    hide DesiredRow, Run, PlannedOperations, PlannedFields, NoRowMissing, DistinctTargets, Whole, PlannableChanges;
    PlanIsExecutable(p, s, rows, front);
    PlansIffAllPlanned(s, rows);
    var ops := Whole(s, rows, front);
    RunAchieves(p, ops, s.items);
    forall row | row in rows
      ensures row.handle in s.items && DesiredRow(s, row).Ok?
      ensures row.handle in Run(p, ops, s.items).board
      ensures Run(p, ops, s.items).board[row.handle] == PlannedFields(s, row)
    {
      RowReached(p, s, rows, front, row);
    }
  }

  /** Rows that are neither retained nor to be deleted or added are left alone. */
  lemma OthersStay(p: Project, s: Snapshot, rows: seq<RetainedRow>, front: seq<Operation>, handle: string)
    requires Ready(p, s, rows, front) && PlannedOperations(p, Whole(s, rows, front))
    requires handle !in Issues(front) && forall row | row in rows :: row.handle != handle
    ensures SameAt(handle, s.items, Run(p, Whole(s, rows, front), s.items).board)
  {
    hide DesiredRow, Run, PlannedOperations, PlannedChanges, UpdatePlan, Plannable, WellFormedSchema;
    PlanContents(s, rows);
    var ops := Whole(s, rows, front);
    forall i | 0 <= i < |ops| ensures ops[i].issue != handle {
      if i < |front| {
        assert front[i] in front;
      } else {
        assert UpdateOfSome(s, rows, UpdatePlan(s, rows).value[i - |front|]);
      }
    }
    UnplannedRowsStay(p, ops, s.items, handle);
  }

  /** Plan, run the plan, plan again: whatever was deleted or added, planning the retained rows again
      succeeds, and it is empty exactly when every field was steady, which on a captured board with
      stripped option ids it is. */
  lemma PlanRunPlan(p: Project, s: Snapshot, rows: seq<RetainedRow>, front: seq<Operation>)
    requires Ready(p, s, rows, front)
    ensures PlannedOperations(p, Whole(s, rows, front)) && AllPlanned(s, rows)
    ensures var run := Run(p, Whole(s, rows, front), s.items);
      && run.ok
      && UpdatePlan(s.(items := run.board), rows).Ok?
      && (UpdatePlan(s.(items := run.board), rows).value == [] <==> AllSteady(s, rows))
      && (NormalIds(s.items) && NormalOptionIds(s.schema) ==> UpdatePlan(s.(items := run.board), rows).value == [])
  {
    hide Run, UpdatePlan, AllSteady, PlannedOperations, Whole, RowsApplied;
    PlansIffAllPlanned(s, rows);
    RunAppliesPlan(p, s, rows, front);
    ReplanAfterFullApply(s, rows, Run(p, Whole(s, rows, front), s.items).board);
    if NormalIds(s.items) && NormalOptionIds(s.schema) {
      NormalIdsAreSteady(s, rows);
    }
  }

  // ---- A run that stops ----

  /** The board after the first commands of the run of a plan. */
  function Stopped(p: Project, s: Snapshot, rows: seq<RetainedRow>, front: seq<Operation>, n: nat): Board
    requires UpdatePlan(s, rows).Ok? && PlannedOperations(p, Whole(s, rows, front))
    requires n <= |Run(p, Whole(s, rows, front), s.items).commands|
  {
    ExecuteAll(p, s.items, Run(p, Whole(s, rows, front), s.items).commands[..n])
  }

  ghost predicate Stops(p: Project, s: Snapshot, rows: seq<RetainedRow>, front: seq<Operation>, n: nat) {
    && Ready(p, s, rows, front) && AllPlanned(s, rows) && UpdatePlan(s, rows).Ok?
    && PlannedOperations(p, Whole(s, rows, front)) && DistinctTargets(Whole(s, rows, front))
    && n <= |Run(p, Whole(s, rows, front), s.items).commands|
  }

  /** At a stop, a row nobody deletes or adds is there, each field as it was or as planned. */
  lemma StoppedField(p: Project, s: Snapshot, rows: seq<RetainedRow>, front: seq<Operation>, n: nat, handle: string,
      key: FieldKey)
    requires Stops(p, s, rows, front, n) && handle in s.items && handle !in Issues(front)
    ensures var midway := Stopped(p, s, rows, front, n);
      handle in midway && (midway[handle][key] == s.items[handle][key] || SetBySomeRow(s, rows, midway, handle, key))
  {
    hide DesiredRow, Run, ExecuteAll, PlannedOperations, DistinctTargets, PlannedFields, UpdatePlan, Applied, Ready,
      Whole;
    var ops := Whole(s, rows, front);
    var final := Run(p, ops, s.items).board;
    StoppedBetween(p, ops, s.items, n);
    var midway := Stopped(p, s, rows, front, n);
    if row :| row in rows && row.handle == handle {
      RowReached(p, s, rows, front, row);
      PlannedIsApplied(s, row, key);
      assert midway[handle][key] == s.items[handle][key] || midway[handle][key] == final[handle][key];
    } else {
      OthersStay(p, s, rows, front, handle);
      assert midway[handle][key] == s.items[handle][key];
    }
  }

  lemma StoppedIsPartial(p: Project, s: Snapshot, rows: seq<RetainedRow>, front: seq<Operation>, n: nat)
    requires Stops(p, s, rows, front, n)
    ensures PartlyApplied(s, rows, Issues(front), Stopped(p, s, rows, front, n))
  {
    hide Stopped, SetBySomeRow, UpdatePlan, WellFormedSchema, DesiredRow, DistinctHandles, Issues, Run, Whole;
    var midway := Stopped(p, s, rows, front, n);
    forall handle | handle in s.items && handle !in Issues(front) ensures handle in midway {
      StoppedField(p, s, rows, front, n, handle, Title);
    }
    forall handle, key: FieldKey | handle in s.items && handle !in Issues(front)
      ensures midway[handle][key] == s.items[handle][key] || SetBySomeRow(s, rows, midway, handle, key)
    {
      StoppedField(p, s, rows, front, n, handle, key);
    }
  }

  /** At a stop, a row to be added that was there before holds old or wanted fields. */
  lemma StoppedAdd(p: Project, s: Snapshot, rows: seq<RetainedRow>, front: seq<Operation>, n: nat, i: nat,
      key: FieldKey)
    requires Stops(p, s, rows, front, n) && i < |front| && front[i].AddRow? && front[i].issue in s.items
    requires Inherited(key)
    ensures var midway := Stopped(p, s, rows, front, n);
      front[i].issue in midway && StillUsable(s, midway, front[i].issue, key)
  {
    hide Run, ExecuteAll, PlannedOperations, DistinctTargets, UpdatePlan, DesiredRow, Wanted, ApplyChanges,
      WellFormedSchema, DesiredField;
    var ops := Whole(s, rows, front);
    assert ops[i] == front[i] && front[i] in front;
    PlanIsExecutable(p, s, rows, front);
    OperationReached(p, ops, s.items, i);
    StoppedBetween(p, ops, s.items, n);
    var handle := front[i].issue;
    var midway := Stopped(p, s, rows, front, n);
    assert midway[handle][key] == s.items[handle][key]
      || midway[handle][key] == ApplyChanges(s.items[handle], Wanted(front[i]))[key];
    FrontKeys(front[i]);
    WantedIsUsable(s.schema, s.items[handle], Wanted(front[i]), key);
    WantedIsSomething(front[i]);
  }

  lemma WantedIsSomething(op: Operation)
    requires op.AddRow?
    ensures forall c | c in Wanted(op) :: c.after != NO_FIELD
  {
  }

  /** A wanted field that is not empty has a value, and a value that can be planned. */
  lemma WantedIsUsable(schema: Schema, fields: Fields, changes: seq<Change>, key: FieldKey)
    requires PlannableChanges(schema, changes) && DistinctKeys(changes)
    ensures (forall c | c in changes :: c.after != NO_FIELD) ==>
      var was, now := Normalize(fields[key].value), Normalize(ApplyChanges(fields, changes)[key].value);
      (was.Some? ==> now.Some?) && (now != was ==> DesiredField(schema, key, now).Ok?)
  {
    AppliedFields(fields, changes);
    if i :| 0 <= i < |changes| && changes[i].key == key {
      assert changes[i] in changes;
      assert ValueMatches(ApplyChanges(fields, changes)[key], changes[i].after);
      assert Plannable(schema, key, changes[i].after);
    }
  }

  lemma PlannedIsUsable(s: Snapshot, row: RetainedRow, key: FieldKey)
    requires row.handle in s.items && DesiredRow(s, row).Ok? && Inherited(key)
    ensures var was, now := Normalize(s.items[row.handle][key].value),
        Normalize(Applied(s.items[row.handle][key], DesiredRow(s, row).value[key]).value);
      (was.Some? ==> now.Some?) && (now != was ==> DesiredField(s.schema, key, now).Ok?)
  {
    hide DesiredRow, PlainResolve;
    PlannedValue(s, row, key);
    DesiredRowFields(s, row);
    var desired := DesiredRow(s, row).value[key];
    assert DesiredFor(s, row, key) == Ok(desired);
    assert ValueMatches(Applied(s.items[row.handle][key], desired), desired);
  }

  lemma StoppedRow(p: Project, s: Snapshot, rows: seq<RetainedRow>, front: seq<Operation>, n: nat, handle: string,
      key: FieldKey)
    requires Stops(p, s, rows, front, n) && handle in s.items && handle !in Gone(front) && Inherited(key)
    ensures var midway := Stopped(p, s, rows, front, n);
      handle in midway && StillUsable(s, midway, handle, key)
  {
    hide Stopped, DesiredRow, DesiredField, UpdatePlan, PlannedOperations, DistinctTargets, Ready, WellFormedSchema,
      Applied, Run, Whole;
    var midway := Stopped(p, s, rows, front, n);
    if op :| op in front && op.issue == handle {
      var i :| 0 <= i < |front| && front[i] == op;
      FrontIsAdd(p, s, rows, front, op);
      StoppedAdd(p, s, rows, front, n, i, key);
    } else {
      StoppedField(p, s, rows, front, n, handle, key);
      if midway[handle][key] != s.items[handle][key] {
        var row :| row in rows && row.handle == handle
          && midway[handle][key] == Applied(s.items[handle][key], DesiredRow(s, row).value[key]);
        PlannedIsUsable(s, row, key);
      }
    }
  }

  lemma FrontIsAdd(p: Project, s: Snapshot, rows: seq<RetainedRow>, front: seq<Operation>, op: Operation)
    requires Ready(p, s, rows, front) && op in front && op.issue !in Gone(front)
    ensures op.AddRow?
  {
  }

  lemma StoppedStatus(p: Project, s: Snapshot, rows: seq<RetainedRow>, front: seq<Operation>, n: nat, row: RetainedRow)
    requires Stops(p, s, rows, front, n) && row in rows
    ensures var midway := Stopped(p, s, rows, front, n);
      row.handle in midway && KeepsStatus(s, midway, row)
  {
    hide Stopped, DesiredRow, DesiredField, UpdatePlan, PlannedOperations, DistinctTargets, WellFormedSchema, Applied,
      Run, Whole, PlainResolve;
    var midway := Stopped(p, s, rows, front, n);
    StoppedIsPartial(p, s, rows, front, n);
    LaterField(s, rows, Issues(front), midway, row, Status);
    StatusStays(s, row);
  }

  /** Writing the inferred status does not change what is inferred. */
  lemma StatusStays(s: Snapshot, row: RetainedRow)
    requires row.handle in s.items && DesiredRow(s, row).Ok?
    ensures var before := s.items[row.handle][Status];
      InferStatus(row.closed, Normalize(Applied(before, DesiredRow(s, row).value[Status]).value))
        == InferStatus(row.closed, Normalize(before.value))
  {
    hide DesiredRow, Applied, PlainResolve;
    var desired := DesiredRow(s, row).value[Status];
    DesiredRowFields(s, row);
    assert DesiredFor(s, row, Status) == Ok(desired);
    assert ValueMatches(Applied(s.items[row.handle][Status], desired), desired);
  }

  lemma StoppedKeepsUsable(p: Project, s: Snapshot, rows: seq<RetainedRow>, front: seq<Operation>, n: nat)
    requires Stops(p, s, rows, front, n)
    ensures KeepsUsable(s, rows, Gone(front), Stopped(p, s, rows, front, n))
  {
    hide Stopped, StillUsable, KeepsStatus, Run, Whole, UpdatePlan, PlannedOperations, DistinctTargets, DesiredRow;
    var midway := Stopped(p, s, rows, front, n);
    forall handle | handle in s.items && handle !in Gone(front) ensures handle in midway {
      StoppedRow(p, s, rows, front, n, handle, Domain);
    }
    forall handle, key: FieldKey | handle in s.items && handle !in Gone(front) && Inherited(key)
      ensures StillUsable(s, midway, handle, key)
    {
      StoppedRow(p, s, rows, front, n, handle, key);
    }
    forall row | row in rows ensures row.handle !in Gone(front) && row.handle in midway && KeepsStatus(s, midway, row) {
      StoppedStatus(p, s, rows, front, n, row);
      assert row.handle !in Issues(front);
    }
  }

  // ---- Planning again after a stop ----

  lemma ReadyStops(p: Project, s: Snapshot, rows: seq<RetainedRow>, front: seq<Operation>)
    requires Ready(p, s, rows, front)
    ensures UpdatePlan(s, rows).Ok? && AllPlanned(s, rows)
    ensures PlannedOperations(p, Whole(s, rows, front)) && DistinctTargets(Whole(s, rows, front))
  {
    PlanIsExecutable(p, s, rows, front);
    PlansIffAllPlanned(s, rows);
  }

  /** The stop right after the deletes. */
  lemma AfterDeletes(p: Project, s: Snapshot, rows: seq<RetainedRow>, deletes: seq<Operation>, adds: seq<Operation>)
    returns (n: nat)
    requires Ready(p, s, rows, deletes + adds) && forall op | op in deletes :: op.DeleteRow?
    ensures Stops(p, s, rows, deletes + adds, n)
    ensures var later := Stopped(p, s, rows, deletes + adds, n);
      OnlyFewer(s.items, later) && forall handle :: handle in later <==> handle in s.items && handle !in Gone(deletes)
  {
    hide Run, ExecuteAll, UpdatePlan, AllPlanned, DistinctTargets, PlannedOperations, Ready;
    var front := deletes + adds;
    ReadyStops(p, s, rows, front);
    var ops := Whole(s, rows, front);
    var rest := adds + Operations(UpdatePlan(s, rows).value);
    assert ops == deletes + rest;
    RunConcat(p, deletes, rest, s.items);
    DistinctPrefix(deletes, rest);
    RunAchieves(p, deletes, s.items);
    var first := Run(p, deletes, s.items);
    n := |first.commands|;
    var all := Run(p, ops, s.items).commands;
    assert all[..n] == first.commands;
    RunBoard(p, deletes, s.items);
    forall handle ensures handle in first.board <==> handle in s.items && handle !in Gone(deletes)
      ensures handle in first.board ==> first.board[handle] == s.items[handle]
    {
      DeletedOrKept(p, deletes, s.items, handle);
    }
  }

  lemma DistinctPrefix(a: seq<Operation>, b: seq<Operation>)
    requires DistinctTargets(a + b)
    ensures DistinctTargets(a)
  {
    assert forall i | 0 <= i < |a| :: a[i] == (a + b)[i];
    assert forall op | op in a :: op in a + b;
  }

  lemma DeletedOrKept(p: Project, deletes: seq<Operation>, board: Board, handle: string)
    requires PlannedOperations(p, deletes) && DistinctTargets(deletes) && forall op | op in deletes :: op.DeleteRow?
    ensures var later := Run(p, deletes, board).board;
      && (handle in later <==> handle in board && handle !in Gone(deletes))
      && (handle in later ==> later[handle] == board[handle])
  {
    hide Run, DistinctTargets, PlannedOperations;
    if op :| op in deletes && op.issue == handle {
      var i :| 0 <= i < |deletes| && deletes[i] == op;
      OperationReached(p, deletes, board, i);
      assert handle in Gone(deletes);
    } else {
      UnplannedRowsStay(p, deletes, board, handle);
    }
  }

  ghost predicate AlwaysPlans(p: Project, s: Snapshot, rows: seq<RetainedRow>, front: seq<Operation>) {
    forall n: nat | Stops(p, s, rows, front, n) :: UpdatePlan(s.(items := Stopped(p, s, rows, front, n)), rows).Ok?
  }

  /** Stopped after any number of commands, the retained rows can be planned afresh: true for every
      stop exactly when no retained row inherits through a row to be deleted. */
  lemma ReplansIffNoSourceDeleted(p: Project, s: Snapshot, rows: seq<RetainedRow>, deletes: seq<Operation>,
      adds: seq<Operation>)
    requires Ready(p, s, rows, deletes + adds)
    requires (forall op | op in deletes :: op.DeleteRow?) && (forall op | op in adds :: op.AddRow?)
    ensures AllPlanned(s, rows)
    ensures AlwaysPlans(p, s, rows, deletes + adds) <==> ChainsAvoid(s, rows, Gone(deletes))
  {
    hide Stopped, UpdatePlan, Run, Whole, PlannedOperations, DistinctTargets, RowAvoids, Gone, Ready;
    var front := deletes + adds;
    ReadyStops(p, s, rows, front);
    GoneFromFront(deletes, adds);
    if ChainsAvoid(s, rows, Gone(deletes)) {
      forall n: nat | Stops(p, s, rows, front, n)
        ensures UpdatePlan(s.(items := Stopped(p, s, rows, front, n)), rows).Ok?
      {
        StoppedKeepsUsable(p, s, rows, front, n);
        StillPlans(s, rows, Gone(front), Stopped(p, s, rows, front, n));
      }
    } else {
      var row :| row in rows && !RowAvoids(s, row, Gone(deletes));
      var n := AfterDeletes(p, s, rows, deletes, adds);
      RetainedIsKept(p, s, rows, front, row);
      LosesSource(s, rows, Gone(deletes), Stopped(p, s, rows, front, n), row);
    }
  }

  lemma GoneFromFront(deletes: seq<Operation>, adds: seq<Operation>)
    requires forall op | op in adds :: op.AddRow?
    ensures Gone(deletes + adds) == Gone(deletes)
  {
  }

  lemma RetainedIsKept(p: Project, s: Snapshot, rows: seq<RetainedRow>, front: seq<Operation>, row: RetainedRow)
    requires Ready(p, s, rows, front) && row in rows
    ensures row.handle !in Gone(front)
  {
    assert row.handle !in Issues(front);
  }

  lemma LosesSource(s: Snapshot, rows: seq<RetainedRow>, gone: set<string>, later: Board, row: RetainedRow)
    requires AllPlanned(s, rows) && row in rows && row.handle !in gone && !RowAvoids(s, row, gone)
    requires OnlyFewer(s.items, later) && forall handle :: handle in later <==> handle in s.items && handle !in gone
    ensures UpdatePlan(s.(items := later), rows).Err?
  {
    hide PlainResolve, DesiredRow, UpdatePlan;
    var key: FieldKey :| Inherits(s, row, key) && PlainResolve(s.items, s.parents, key, row.handle, {}).Ok?
      && !Avoids(PlainResolve(s.items, s.parents, key, row.handle, {}).value.chain, gone);
    var lost :| lost in PlainResolve(s.items, s.parents, key, row.handle, {}).value.chain && lost in gone;
    LostSource(s, rows, later, row, key, lost);
  }

  // ---- Planning again and finishing ----

  /** The plan made at a stop. */
  lemma PlansAtStop(p: Project, s: Snapshot, rows: seq<RetainedRow>, front: seq<Operation>, n: nat)
    requires Stops(p, s, rows, front, n) && ChainsAvoid(s, rows, Issues(front))
    ensures forall row | row in rows ::
      DesiredRow(s.(items := Stopped(p, s, rows, front, n)), row) == DesiredRow(s, row)
    ensures Ready(p, s.(items := Stopped(p, s, rows, front, n)), rows, front)
  {
    hide Stopped, UpdatePlan, DesiredRow, PlannedOperations, RowAvoids, Run, Whole, PlannableChanges, DistinctTargets;
    var midway := Stopped(p, s, rows, front, n);
    var again := s.(items := midway);
    StoppedIsPartial(p, s, rows, front, n);
    forall row | row in rows ensures DesiredRow(again, row) == DesiredRow(s, row) {
      SameDesiredRow(s, rows, Issues(front), midway, row);
    }
    PlansIffAllPlanned(again, rows);
  }

  /** An operation of the front ends the same in the finished run as in the uninterrupted one. */
  lemma FrontFinishes(p: Project, s: Snapshot, rows: seq<RetainedRow>, front: seq<Operation>, n: nat, i: nat)
    requires Stops(p, s, rows, front, n) && i < |front|
    requires Ready(p, s.(items := Stopped(p, s, rows, front, n)), rows, front)
    requires PlannedOperations(p, Whole(s.(items := Stopped(p, s, rows, front, n)), rows, front))
    ensures var midway := Stopped(p, s, rows, front, n);
      SameAt(front[i].issue,
        Run(p, Whole(s, rows, front), s.items).board,
        Run(p, Whole(s.(items := midway), rows, front), midway).board)
  {
    hide Run, UpdatePlan, PlannedOperations, DistinctTargets, Carried, ExecuteAll, DesiredRow, PlannableChanges;
    var midway := Stopped(p, s, rows, front, n);
    var ops, opsAgain := Whole(s, rows, front), Whole(s.(items := midway), rows, front);
    PlanIsExecutable(p, s, rows, front);
    PlanIsExecutable(p, s.(items := midway), rows, front);
    assert ops[i] == front[i] == opsAgain[i];
    OperationReached(p, opsAgain, midway, i);
    RestartResumes(p, ops, s.items, n);
    RunAppliesPlan(p, s, rows, front);
    RunAchieves(p, ops, midway);
    OperationReached(p, ops, midway, i);
  }

  lemma RowFinishes(p: Project, s: Snapshot, rows: seq<RetainedRow>, front: seq<Operation>, n: nat, row: RetainedRow)
    requires Stops(p, s, rows, front, n) && row in rows
    requires Ready(p, s.(items := Stopped(p, s, rows, front, n)), rows, front)
    requires PlannedOperations(p, Whole(s.(items := Stopped(p, s, rows, front, n)), rows, front))
    requires DesiredRow(s.(items := Stopped(p, s, rows, front, n)), row) == DesiredRow(s, row)
    ensures var midway := Stopped(p, s, rows, front, n);
      SameAt(row.handle,
        Run(p, Whole(s, rows, front), s.items).board,
        Run(p, Whole(s.(items := midway), rows, front), midway).board)
  {
    hide Run, UpdatePlan, PlannedOperations, DistinctTargets, ExecuteAll, DesiredRow, Whole, WellFormedSchema,
      PlannableChanges, Stopped;
    var midway := Stopped(p, s, rows, front, n);
    var again := s.(items := midway);
    PlansIffAllPlanned(again, rows);
    RowReached(p, s, rows, front, row);
    RowReached(p, again, rows, front, row);
    StoppedIsPartial(p, s, rows, front, n);
    FinishesRow(s, rows, Issues(front), midway, row);
  }

  lemma OtherFinishes(p: Project, s: Snapshot, rows: seq<RetainedRow>, front: seq<Operation>, n: nat, handle: string)
    requires Stops(p, s, rows, front, n)
    requires handle !in Issues(front) && forall row | row in rows :: row.handle != handle
    requires Ready(p, s.(items := Stopped(p, s, rows, front, n)), rows, front)
    requires PlannedOperations(p, Whole(s.(items := Stopped(p, s, rows, front, n)), rows, front))
    ensures var midway := Stopped(p, s, rows, front, n);
      SameAt(handle,
        Run(p, Whole(s, rows, front), s.items).board,
        Run(p, Whole(s.(items := midway), rows, front), midway).board)
  {
    hide Run, UpdatePlan, PlannedOperations, DistinctTargets, ExecuteAll, DesiredRow, Whole, WellFormedSchema,
      PlannableChanges, Ready;
    var midway := Stopped(p, s, rows, front, n);
    OthersStay(p, s, rows, front, handle);
    OthersStay(p, s.(items := midway), rows, front, handle);
    StoppedBetween(p, Whole(s, rows, front), s.items, n);
    SameBetween(p, s.items, Run(p, Whole(s, rows, front), s.items).board, midway, handle);
  }

  lemma SameBetween(p: Project, board: Board, final: Board, midway: Board, handle: string)
    requires Between(p, board, final, midway) && SameAt(handle, board, final)
    ensures SameAt(handle, board, midway)
  {
    if handle in midway {
      forall key: FieldKey ensures midway[handle][key] == board[handle][key] {
      }
      assert midway[handle] == board[handle];
    }
  }

  /** A fresh plan that asks for the same fields ends on the board of the uninterrupted run. */
  lemma FinishesAlike(p: Project, s: Snapshot, rows: seq<RetainedRow>, front: seq<Operation>, n: nat)
    requires Stops(p, s, rows, front, n)
    requires var again := s.(items := Stopped(p, s, rows, front, n));
      Ready(p, again, rows, front) && forall row | row in rows :: DesiredRow(again, row) == DesiredRow(s, row)
    ensures var again := s.(items := Stopped(p, s, rows, front, n));
      && UpdatePlan(again, rows).Ok?
      && PlannedOperations(p, Whole(again, rows, front))
      && var second := Run(p, Whole(again, rows, front), again.items);
         second.ok && second.board == Run(p, Whole(s, rows, front), s.items).board
  {
    hide Run, UpdatePlan, PlannedOperations, DistinctTargets, ExecuteAll, DesiredRow, Whole, Stopped, RowsApplied;
    var midway := Stopped(p, s, rows, front, n);
    var again := s.(items := midway);
    ReadyStops(p, again, rows, front);
    RunAppliesPlan(p, again, rows, front);
    var whole, second := Run(p, Whole(s, rows, front), s.items).board, Run(p, Whole(again, rows, front), midway).board;
    forall handle ensures SameAt(handle, whole, second) {
      if op :| op in front && op.issue == handle {
        var i :| 0 <= i < |front| && front[i] == op;
        FrontFinishes(p, s, rows, front, n, i);
      } else if row :| row in rows && row.handle == handle {
        RowFinishes(p, s, rows, front, n, row);
      } else {
        OtherFinishes(p, s, rows, front, n, handle);
      }
    }
    SameBoards(whole, second);
  }

  /** Stopped after any number of commands, deletes and adds included: if no retained row inherits
      through a row to be deleted or added, a fresh plan of the retained rows, behind the same
      deletes and adds, succeeds, and its run ends on the very board of the uninterrupted run. */
  lemma StopReplanRun(p: Project, s: Snapshot, rows: seq<RetainedRow>, front: seq<Operation>, n: nat)
    requires Stops(p, s, rows, front, n) && ChainsAvoid(s, rows, Issues(front))
    ensures var again := s.(items := Stopped(p, s, rows, front, n));
      && UpdatePlan(again, rows).Ok?
      && PlannedOperations(p, Whole(again, rows, front))
      && var second := Run(p, Whole(again, rows, front), again.items);
         second.ok && second.board == Run(p, Whole(s, rows, front), s.items).board
  {
    hide Run, UpdatePlan, PlannedOperations, DistinctTargets, ExecuteAll, DesiredRow, Whole, Stopped, RowAvoids;
    PlansAtStop(p, s, rows, front, n);
    FinishesAlike(p, s, rows, front, n);
  }

  lemma SameBoards(a: Board, b: Board)
    requires forall handle :: SameAt(handle, a, b)
    ensures a == b
  {
    forall handle | handle in a ensures handle in b && a[handle] == b[handle] {
      assert SameAt(handle, a, b);
    }
    forall handle | handle in b ensures handle in a {
      assert SameAt(handle, a, b);
    }
  }

  /** Adding rows that are not on the board yet disturbs no source: only the deletes count. */
  lemma FreshAddsAreNoSources(s: Snapshot, rows: seq<RetainedRow>, front: seq<Operation>)
    requires AllPlanned(s, rows)
    requires forall op | op in front && !op.DeleteRow? :: op.issue !in s.items
    ensures ChainsAvoid(s, rows, Issues(front)) <==> ChainsAvoid(s, rows, Gone(front))
  {
    hide PlainResolve, DesiredRow;
    forall row | row in rows ensures RowAvoids(s, row, Issues(front)) <==> RowAvoids(s, row, Gone(front)) {
      forall key: FieldKey | Inherits(s, row, key) && PlainResolve(s.items, s.parents, key, row.handle, {}).Ok?
        ensures var chain := PlainResolve(s.items, s.parents, key, row.handle, {}).value.chain;
          Avoids(chain, Issues(front)) <==> Avoids(chain, Gone(front))
      {
        PlainResolveIsAnswer(s.items, s.parents, key, row.handle);
        var chain := PlainResolve(s.items, s.parents, key, row.handle, {}).value.chain;
        ChainOnBoard(s.items, s.parents, key, row.handle, chain);
        assert forall h | h in chain && h in Issues(front) :: h in Gone(front);
      }
    }
  }

  lemma ChainOnBoard(items: Items, parents: map<string, string>, key: FieldKey, handle: string, chain: seq<string>)
    requires SourceChain(items, parents, key, handle, chain)
    ensures forall h | h in chain :: h in items
  {
    forall i | 0 <= i < |chain| ensures chain[i] in items {
      assert i < |chain| - 1 ==> Blank(items, key, chain[i]);
    }
  }
}
