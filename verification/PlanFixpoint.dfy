/** Planning again after the planned updates have been executed, all of them or only some. */
module PlanFixpoint {
  import opened Wrappers
  import opened BoardModel
  import opened Inheritance
  import opened ProjectPlan

  ghost predicate DistinctHandles(rows: seq<RetainedRow>) {
    forall i, j | 0 <= i < j < |rows| :: rows[i].handle != rows[j].handle
  }

  ghost predicate AllPlanned(s: Snapshot, rows: seq<RetainedRow>) {
    forall row | row in rows :: row.handle in s.items && DesiredRow(s, row).Ok?
  }

  /** Planning succeeds exactly when every row can be planned. */
  lemma {:induction false} PlansIffAllPlanned(s: Snapshot, rows: seq<RetainedRow>)
    ensures UpdatePlan(s, rows).Ok? <==> AllPlanned(s, rows)
  {
    if rows != [] {
      var n := |rows| - 1;
      PlansIffAllPlanned(s, rows[..n]);
      assert rows == rows[..n] + [rows[n]];
    }
  }

  // ---- Executing updates on the board ----

  function PlannedChanges(s: Snapshot, row: RetainedRow): seq<Change>
    requires row.handle in s.items && DesiredRow(s, row).Ok?
  {
    Changes(s.items[row.handle], DesiredRow(s, row).value, |TRACKED|)
  }

  /** A retained row with its planned changes. */
  function PlannedFields(s: Snapshot, row: RetainedRow): Fields
    requires row.handle in s.items && DesiredRow(s, row).Ok?
  {
    ApplyChanges(s.items[row.handle], PlannedChanges(s, row))
  }

  /** Every retained row has its planned changes. */
  ghost predicate RowsApplied(s: Snapshot, rows: seq<RetainedRow>, later: Board) {
    && AllPlanned(s, rows)
    && forall row | row in rows :: row.handle in later && later[row.handle] == PlannedFields(s, row)
  }

  /** The board after every update: each retained row with its planned changes, the rest as it was. */
  ghost predicate FullyApplied(s: Snapshot, rows: seq<RetainedRow>, later: Board) {
    && RowsApplied(s, rows, later)
    && later.Keys == s.items.Keys
    && (forall handle | handle in s.items && (forall row | row in rows :: row.handle != handle) ::
         later[handle] == s.items[handle])
  }

  /** The board after some of the changes, up to rows of other issues that were touched as well:
      each field as it was, or as planned for its row. */
  ghost predicate PartlyApplied(s: Snapshot, rows: seq<RetainedRow>, touched: set<string>, later: Board) {
    && AllPlanned(s, rows)
    && (forall row | row in rows :: row.handle !in touched)
    && (forall handle | handle in s.items && handle !in touched :: handle in later)
    && forall handle, key: FieldKey {:trigger later[handle][key]} | handle in s.items && handle !in touched ::
         later[handle][key] == s.items[handle][key] || SetBySomeRow(s, rows, later, handle, key)
  }

  ghost predicate SetBySomeRow(s: Snapshot, rows: seq<RetainedRow>, later: Board, handle: string, key: FieldKey)
    requires AllPlanned(s, rows) && handle in s.items && handle in later
  {
    exists row | row in rows ::
      row.handle == handle && later[handle][key] == Applied(s.items[handle][key], DesiredRow(s, row).value[key])
  }

  function ApplyUpdates(items: Board, updates: seq<Update>): Board {
    if updates == [] then items else
      var before := ApplyUpdates(items, updates[..|updates| - 1]);
      var update := updates[|updates| - 1];
      if update.handle !in before then before
      else before[update.handle := ApplyChanges(before[update.handle], update.changes)]
  }

  /** Executing the planned operations brings every retained row to its planned fields and touches no
      other row. */
  lemma {:induction false} UpdatesApplyFully(s: Snapshot, rows: seq<RetainedRow>)
    requires DistinctHandles(rows) && AllPlanned(s, rows)
    ensures UpdatePlan(s, rows).Ok?
    ensures FullyApplied(s, rows, ApplyUpdates(s.items, UpdatePlan(s, rows).value))
  {
    hide FullyApplied, DesiredRow;
    PlansIffAllPlanned(s, rows);
    NoRowsApplied(s);
    if rows != [] {
      var n := |rows| - 1;
      var row := rows[n];
      assert rows == rows[..n] + [row];
      PlansIffAllPlanned(s, rows[..n]);
      UpdatesApplyFully(s, rows[..n]);
      var updates := UpdatePlan(s, rows[..n]).value;
      var before := ApplyUpdates(s.items, updates);
      OneMoreRow(s, rows[..n], row, before);
      LastUpdate(s, rows[..n], row);
    }
  }

  lemma LastInPlan(s: Snapshot, rows: seq<RetainedRow>)
    requires rows != [] && UpdatePlan(s, rows).Ok?
    ensures var n := |rows| - 1;
      && rows[n].handle in s.items && DesiredRow(s, rows[n]).Ok? && UpdatePlan(s, rows[..n]).Ok?
      && var changes := PlannedChanges(s, rows[n]);
         UpdatePlan(s, rows).value ==
           UpdatePlan(s, rows[..n]).value + if changes == [] then [] else [Update(rows[n].handle, changes)]
  {
    hide DesiredRow, Changes;
    PlansIffAllPlanned(s, rows);
    assert rows[|rows| - 1] in rows;
  }

  lemma LastUpdate(s: Snapshot, rows: seq<RetainedRow>, row: RetainedRow)
    requires UpdatePlan(s, rows).Ok? && UpdatePlan(s, rows + [row]).Ok?
    requires row.handle in s.items && DesiredRow(s, row).Ok?
    requires var before := ApplyUpdates(s.items, UpdatePlan(s, rows).value);
      row.handle in before && before[row.handle] == s.items[row.handle]
    ensures ApplyUpdates(s.items, UpdatePlan(s, rows + [row]).value)
         == ApplyUpdates(s.items, UpdatePlan(s, rows).value)[row.handle := PlannedFields(s, row)]
  {
    hide DesiredRow, UpdatePlan, PlannedChanges;
    assert (rows + [row])[..|rows|] == rows;
    LastInPlan(s, rows + [row]);
    var updates := UpdatePlan(s, rows).value;
    var before := ApplyUpdates(s.items, updates);
    var changes := PlannedChanges(s, row);
    var update := Update(row.handle, changes);
    if changes == [] {
      assert before[row.handle := PlannedFields(s, row)] == before && updates + [] == updates;
    } else {
      assert (updates + [update])[..|updates|] == updates;
    }
  }

  lemma NoRowsApplied(s: Snapshot)
    ensures FullyApplied(s, [], s.items)
  {
  }

  lemma OneMoreRow(s: Snapshot, rows: seq<RetainedRow>, row: RetainedRow, before: Board)
    requires DistinctHandles(rows + [row]) && AllPlanned(s, rows + [row]) && FullyApplied(s, rows, before)
    ensures FullyApplied(s, rows + [row], before[row.handle := PlannedFields(s, row)])
    ensures row.handle in before && before[row.handle] == s.items[row.handle]
  {
    hide PlannedFields, DesiredRow;
    var all := rows + [row];
    assert row in all;
    forall r | r in rows ensures r in all && r.handle != row.handle {
      var i :| 0 <= i < |rows| && rows[i] == r;
      assert all[i] == r && all[|rows|] == row;
    }
  }

  lemma ChangesApply(before: Fields, after: Fields, key: FieldKey)
    ensures ApplyChanges(before, Changes(before, after, |TRACKED|))[key] == Applied(before[key], after[key])
  {
    var changes := Changes(before, after, |TRACKED|);
    AppliedFields(before, changes);
    if FieldChanged(before[key], after[key]) {
      var i := TrackedAt(key);
      assert Change(key, after[key]) in changes;
    } else {
      forall j | 0 <= j < |changes| ensures changes[j].key != key {
        assert changes[j] in changes;
      }
    }
  }

  // ---- Inheritance survives the updates ----

  /** The planner fills this field from an ancestor. */
  predicate Inherits(s: Snapshot, row: RetainedRow, key: FieldKey)
    requires row.handle in s.items
  {
    Inherited(key) && row.handle != UNINHERITED && Normalize(s.items[row.handle][key].value).None?
  }

  ghost predicate Avoids(chain: seq<string>, issues: set<string>) {
    forall handle | handle in chain :: handle !in issues
  }

  /** No source chain of the row passes through the given issues. */
  ghost predicate RowAvoids(s: Snapshot, row: RetainedRow, issues: set<string>)
    requires row.handle in s.items
  {
    forall key: FieldKey | Inherits(s, row, key) && PlainResolve(s.items, s.parents, key, row.handle, {}).Ok? ::
      Avoids(PlainResolve(s.items, s.parents, key, row.handle, {}).value.chain, issues)
  }

  ghost predicate ChainsAvoid(s: Snapshot, rows: seq<RetainedRow>, issues: set<string>)
    requires AllPlanned(s, rows)
  {
    forall row | row in rows :: RowAvoids(s, row, issues)
  }

  lemma ChainTail(items: Items, parents: map<string, string>, key: FieldKey, handle: string, chain: seq<string>)
    requires SourceChain(items, parents, key, handle, chain) && Blank(items, key, handle)
    ensures |chain| > 1 && handle in parents && SourceChain(items, parents, key, parents[handle], chain[1..])
  {
    assert Blank(items, key, chain[0]);
    var tail := chain[1..];
    forall i | 0 <= i < |tail| - 1
      ensures Blank(items, key, tail[i]) && tail[i] in parents && parents[tail[i]] == tail[i + 1]
    {
      assert chain[i + 1] == tail[i] && chain[i + 2] == tail[i + 1];
    }
    assert tail[|tail| - 1] == chain[|chain| - 1];
  }

  lemma ChainPrepend(items: Items, parents: map<string, string>, key: FieldKey, handle: string, tail: seq<string>)
    requires Blank(items, key, handle) && handle in parents && SourceChain(items, parents, key, parents[handle], tail)
    ensures SourceChain(items, parents, key, handle, [handle] + tail)
  {
    var chain := [handle] + tail;
    assert chain[|chain| - 1] == tail[|tail| - 1];
  }

  lemma ChainStart(items: Items, parents: map<string, string>, key: FieldKey, handle: string, chain: seq<string>)
    requires SourceChain(items, parents, key, handle, chain)
    ensures chain != [] && handle in chain
    ensures HasField(items, key, handle) && handle == chain[0] && HasField(items, key, chain[|chain| - 1])
  {
    assert |chain| > 1 ==> Blank(items, key, chain[0]);
  }

  function ChainValue(items: Items, key: FieldKey, chain: seq<string>): Option<string>
    requires chain != [] && HasField(items, key, chain[|chain| - 1])
  {
    Normalize(items[chain[|chain| - 1]][key].value)
  }

  lemma ChainDecides(items: Items, parents: map<string, string>, key: FieldKey, handle: string, chain: seq<string>)
    requires SourceChain(items, parents, key, handle, chain)
    ensures var r := PlainResolve(items, parents, key, handle, {});
      r.Ok? && r.value.chain == chain && ChainValue(items, key, chain) == Some(r.value.value)
  {
    PlainResolveIsAnswer(items, parents, key, handle);
    ResolvesIffChain(items, parents, key, handle);
    SourceChainIsUnique(items, parents, key, handle, chain, PlainResolve(items, parents, key, handle, {}).value.chain);
  }

  /** What a retained row is planned to hold in an inherited field. */
  lemma PlannedValue(s: Snapshot, row: RetainedRow, key: FieldKey)
    requires row.handle in s.items && DesiredRow(s, row).Ok? && Inherited(key)
    ensures var current, desired := Normalize(s.items[row.handle][key].value), DesiredRow(s, row).value[key].value;
      var inherited := PlainResolve(s.items, s.parents, key, row.handle, {});
      && (current.Some? ==> desired == current)
      && (current.None? && row.handle == UNINHERITED ==> desired == None)
      && (current.None? && row.handle != UNINHERITED ==>
            inherited.Ok? && desired == Normalize(Some(inherited.value.value)))
  {
    hide PlainResolve, DesiredRow;
    DesiredRowFields(s, row);
    assert DesiredFor(s, row, key).Ok?;
  }

  /** The value of a field after some updates: what it was, or, for a blank one, blank or what it
      inherits. */
  lemma LaterValue(s: Snapshot, rows: seq<RetainedRow>, touched: set<string>, later: Board, handle: string,
      key: FieldKey)
    requires PartlyApplied(s, rows, touched, later) && Inherited(key) && handle in s.items && handle !in touched
    ensures var was, now := Normalize(s.items[handle][key].value), Normalize(later[handle][key].value);
      && (was.Some? ==> now == was)
      && (now != was ==>
           && handle != UNINHERITED
           && PlainResolve(s.items, s.parents, key, handle, {}).Ok?
           && now == Some(PlainResolve(s.items, s.parents, key, handle, {}).value.value))
  {
    hide PlainResolve, DesiredRow;
    PlainResolveIsAnswer(s.items, s.parents, key, handle);
    if later[handle][key] != s.items[handle][key] {
      assert SetBySomeRow(s, rows, later, handle, key);
      var row :| row in rows && row.handle == handle
        && later[handle][key] == Applied(s.items[handle][key], DesiredRow(s, row).value[key]);
      PlannedValue(s, row, key);
      assert ValueMatches(later[handle][key], DesiredRow(s, row).value[key]);
    }
  }

  /** `shorter` leads to the same value as `chain`, on the later board. */
  ghost predicate StandsFor(s: Snapshot, later: Board, key: FieldKey, handle: string, chain: seq<string>,
      shorter: seq<string>)
  {
    && SourceChain(s.items, s.parents, key, handle, chain)
    && SourceChain(later, s.parents, key, handle, shorter)
    && shorter <= chain
    && ChainValue(later, key, shorter) == ChainValue(s.items, key, chain)
  }

  lemma StandsForLonger(s: Snapshot, later: Board, key: FieldKey, handle: string, chain: seq<string>, tail: seq<string>)
    requires SourceChain(s.items, s.parents, key, handle, chain)
    requires Blank(s.items, key, handle) && Blank(later, key, handle) && handle in s.parents && |chain| > 1
    requires StandsFor(s, later, key, s.parents[handle], chain[1..], tail)
    ensures StandsFor(s, later, key, handle, chain, [handle] + tail)
  {
    ChainPrepend(later, s.parents, key, handle, tail);
    assert chain == [handle] + chain[1..];
    assert ([handle] + tail)[|tail|] == tail[|tail| - 1];
    assert chain[|chain| - 1] == chain[1..][|chain| - 2];
  }

  lemma FilledHere(s: Snapshot, rows: seq<RetainedRow>, touched: set<string>, later: Board, key: FieldKey,
      handle: string, chain: seq<string>)
    requires PartlyApplied(s, rows, touched, later) && Inherited(key) && handle !in touched
    requires SourceChain(s.items, s.parents, key, handle, chain)
    requires HasField(s.items, key, handle) && HasField(later, key, handle) && !Blank(later, key, handle)
    ensures StandsFor(s, later, key, handle, chain, [handle])
  {
    hide PlainResolve, DesiredRow, AllPlanned;
    LaterValue(s, rows, touched, later, handle, key);
    ChainDecides(s.items, s.parents, key, handle, chain);
  }

  /** Filling blank rows on the way shortens a source chain and keeps its value. */
  lemma {:induction false} FillingKeepsSource(s: Snapshot, rows: seq<RetainedRow>, touched: set<string>, later: Board,
      key: FieldKey, handle: string, chain: seq<string>)
    returns (shorter: seq<string>)
    requires PartlyApplied(s, rows, touched, later) && Inherited(key)
    requires SourceChain(s.items, s.parents, key, handle, chain) && Avoids(chain, touched)
    ensures StandsFor(s, later, key, handle, chain, shorter)
    decreases |chain|
  {
    hide PlainResolve, DesiredRow, SourceChain, AllPlanned, StandsFor;
    ChainStart(s.items, s.parents, key, handle, chain);
    LaterValue(s, rows, touched, later, handle, key);
    if Blank(later, key, handle) {
      ChainTail(s.items, s.parents, key, handle, chain);
      assert forall h | h in chain[1..] :: h in chain;
      var tail := FillingKeepsSource(s, rows, touched, later, key, s.parents[handle], chain[1..]);
      shorter := [handle] + tail;
      StandsForLonger(s, later, key, handle, chain, tail);
    } else {
      shorter := [handle];
      FilledHere(s, rows, touched, later, key, handle, chain);
    }
  }

  /** Every issue that had a value to inherit, from a chain of untouched rows, still has it, from the
      same chain or its beginning. */
  lemma InheritanceSurvives(s: Snapshot, rows: seq<RetainedRow>, touched: set<string>, later: Board, key: FieldKey,
      handle: string)
    requires PartlyApplied(s, rows, touched, later) && Inherited(key)
    requires PlainResolve(s.items, s.parents, key, handle, {}).Ok?
    requires Avoids(PlainResolve(s.items, s.parents, key, handle, {}).value.chain, touched)
    ensures var was := PlainResolve(s.items, s.parents, key, handle, {});
      var now := PlainResolve(later, s.parents, key, handle, {});
      now.Ok? && now.value.value == was.value.value && now.value.chain <= was.value.chain
  {
    PlainResolveIsAnswer(s.items, s.parents, key, handle);
    var chain := PlainResolve(s.items, s.parents, key, handle, {}).value.chain;
    var shorter := FillingKeepsSource(s, rows, touched, later, key, handle, chain);
    ChainDecides(later, s.parents, key, handle, shorter);
  }

  // ---- Planning again ----

  lemma SameRow(rows: seq<RetainedRow>, a: RetainedRow, b: RetainedRow)
    requires DistinctHandles(rows) && a in rows && b in rows && a.handle == b.handle
    ensures a == b
  {
    var i :| 0 <= i < |rows| && rows[i] == a;
    var j :| 0 <= j < |rows| && rows[j] == b;
    assert i == j;
  }

  lemma LaterField(s: Snapshot, rows: seq<RetainedRow>, touched: set<string>, later: Board, row: RetainedRow,
      key: FieldKey)
    requires DistinctHandles(rows) && PartlyApplied(s, rows, touched, later) && row in rows
    ensures var before, desired := s.items[row.handle][key], DesiredRow(s, row).value[key];
      later[row.handle][key] == before || later[row.handle][key] == Applied(before, desired)
  {
    hide DesiredRow, Applied;
    var handle := row.handle;
    if later[handle][key] != s.items[handle][key] {
      assert SetBySomeRow(s, rows, later, handle, key);
      var other :| other in rows && other.handle == handle
        && later[handle][key] == Applied(s.items[handle][key], DesiredRow(s, other).value[key]);
      SameRow(rows, row, other);
    }
  }

  lemma SameDesiredInherited(s: Snapshot, rows: seq<RetainedRow>, touched: set<string>, later: Board,
      row: RetainedRow, key: FieldKey)
    requires PartlyApplied(s, rows, touched, later) && row in rows && Inherited(key) && RowAvoids(s, row, touched)
    ensures DesiredValue(s.(items := later), row, key) == DesiredValue(s, row, key)
  {
    hide PlainResolve, DesiredRow;
    LaterValue(s, rows, touched, later, row.handle, key);
    PlannedValue(s, row, key);
    PlainResolveIsAnswer(s.items, s.parents, key, row.handle);
    if Normalize(s.items[row.handle][key].value).None? && row.handle != UNINHERITED {
      InheritanceSurvives(s, rows, touched, later, key, row.handle);
    }
  }

  lemma SameDesiredStatus(s: Snapshot, rows: seq<RetainedRow>, touched: set<string>, later: Board, row: RetainedRow)
    requires DistinctHandles(rows) && PartlyApplied(s, rows, touched, later) && row in rows
    ensures DesiredValue(s.(items := later), row, Status) == DesiredValue(s, row, Status)
  {
    hide PlainResolve, DesiredRow;
    LaterField(s, rows, touched, later, row, Status);
    DesiredRowFields(s, row);
    assert DesiredFor(s, row, Status).Ok?;
  }

  lemma SameDesiredValue(s: Snapshot, rows: seq<RetainedRow>, touched: set<string>, later: Board, row: RetainedRow,
      key: FieldKey)
    requires DistinctHandles(rows) && PartlyApplied(s, rows, touched, later) && row in rows
    requires RowAvoids(s, row, touched)
    ensures DesiredValue(s.(items := later), row, key) == DesiredValue(s, row, key)
  {
    if Inherited(key) {
      SameDesiredInherited(s, rows, touched, later, row, key);
    } else if key == Status {
      SameDesiredStatus(s, rows, touched, later, row);
    }
  }

  /** After any part of the updates, a row that inherits from untouched rows only is planned to the
      same fields: filling a row from its ancestors, or rewriting its status, never changes what
      another pass wants. */
  lemma SameDesiredRow(s: Snapshot, rows: seq<RetainedRow>, touched: set<string>, later: Board, row: RetainedRow)
    requires DistinctHandles(rows) && PartlyApplied(s, rows, touched, later) && row in rows
    requires RowAvoids(s, row, touched)
    ensures DesiredRow(s.(items := later), row) == DesiredRow(s, row)
  {
    var again := s.(items := later);
    DesiredRowFields(s, row);
    DesiredRowFields(again, row);
    forall key: FieldKey ensures DesiredFor(again, row, key) == DesiredFor(s, row, key) {
      SameDesiredValue(s, rows, touched, later, row, key);
    }
    assert DesiredRow(again, row).Ok?;
    assert DesiredRow(again, row).value == DesiredRow(s, row).value;
  }

  /** A change that leaves nothing to plan: either there is no change, or it is one that the executor
      carries out and whose option id it stores as planned. */
  predicate Steady(before: Field, desired: Field) {
    !FieldChanged(before, desired) || (!ValueMatches(before, desired) && Normal(desired.optionId))
  }

  lemma SteadyIffSettled(before: Field, desired: Field)
    ensures Steady(before, desired) <==> !FieldChanged(Applied(before, desired), desired)
  {
  }

  ghost predicate AllSteady(s: Snapshot, rows: seq<RetainedRow>)
    requires AllPlanned(s, rows)
  {
    forall row, key: FieldKey {:trigger DesiredRow(s, row).value[key]} | row in rows ::
      Steady(s.items[row.handle][key], DesiredRow(s, row).value[key])
  }

  ghost predicate NothingPlanned(s: Snapshot, rows: seq<RetainedRow>) {
    UpdatePlan(s, rows) == Ok([])
  }

  lemma {:induction false} NothingPlannedIff(s: Snapshot, rows: seq<RetainedRow>)
    requires AllPlanned(s, rows)
    ensures NothingPlanned(s, rows) <==>
      forall row, key: FieldKey {:trigger DesiredRow(s, row).value[key]} | row in rows ::
        !FieldChanged(s.items[row.handle][key], DesiredRow(s, row).value[key])
  {
    if rows != [] {
      var n := |rows| - 1;
      assert rows == rows[..n] + [rows[n]];
      PlansIffAllPlanned(s, rows[..n]);
      NothingPlannedIff(s, rows[..n]);
      NoChanges(s.items[rows[n].handle], DesiredRow(s, rows[n]).value);
    }
  }

  /** A field that holds what was planned for it is planned to hold it again, wherever the value
      came from. */
  lemma AppliedIsDesired(s: Snapshot, rows: seq<RetainedRow>, later: Board, row: RetainedRow, key: FieldKey)
    requires RowsApplied(s, rows, later) && row in rows
    ensures DesiredValue(s.(items := later), row, key) == DesiredValue(s, row, key)
  {
    hide PlainResolve, DesiredRow, DesiredValue, PlannedFields, Applied;
    assert later[row.handle][key] == Applied(s.items[row.handle][key], DesiredRow(s, row).value[key]) by {
      PlannedIsApplied(s, row, key);
    }
    if Inherited(key) {
      AppliedInherited(s, later, row, key);
    } else if key == Status {
      AppliedStatus(s, later, row);
    } else {
      TitleIsTitle(s, later, row);
    }
  }

  lemma PlannedIsApplied(s: Snapshot, row: RetainedRow, key: FieldKey)
    requires row.handle in s.items && DesiredRow(s, row).Ok?
    ensures PlannedFields(s, row)[key] == Applied(s.items[row.handle][key], DesiredRow(s, row).value[key])
  {
    hide DesiredRow;
    ChangesApply(s.items[row.handle], DesiredRow(s, row).value, key);
  }

  lemma TitleIsTitle(s: Snapshot, later: Board, row: RetainedRow)
    requires row.handle in s.items && row.handle in later
    ensures DesiredValue(s.(items := later), row, Title) == DesiredValue(s, row, Title)
  {
  }

  lemma AppliedInherited(s: Snapshot, later: Board, row: RetainedRow, key: FieldKey)
    requires row.handle in s.items && DesiredRow(s, row).Ok? && row.handle in later && Inherited(key)
    requires later[row.handle][key] == Applied(s.items[row.handle][key], DesiredRow(s, row).value[key])
    ensures DesiredValue(s.(items := later), row, key) == DesiredValue(s, row, key)
  {
    hide PlainResolve, DesiredRow, Applied;
    PlannedValue(s, row, key);
    PlainResolveIsAnswer(s.items, s.parents, key, row.handle);
    assert ValueMatches(later[row.handle][key], DesiredRow(s, row).value[key]);
  }

  lemma AppliedStatus(s: Snapshot, later: Board, row: RetainedRow)
    requires row.handle in s.items && DesiredRow(s, row).Ok? && row.handle in later
    requires later[row.handle][Status] == Applied(s.items[row.handle][Status], DesiredRow(s, row).value[Status])
    ensures DesiredValue(s.(items := later), row, Status) == DesiredValue(s, row, Status)
  {
    hide PlainResolve, DesiredRow, Applied;
    DesiredRowFields(s, row);
    assert DesiredFor(s, row, Status).Ok?;
    assert ValueMatches(later[row.handle][Status], DesiredRow(s, row).value[Status]);
  }

  lemma AppliedRowIsDesired(s: Snapshot, rows: seq<RetainedRow>, later: Board, row: RetainedRow)
    requires RowsApplied(s, rows, later) && row in rows
    ensures DesiredRow(s.(items := later), row) == DesiredRow(s, row)
  {
    hide DesiredValue, PlannedFields;
    var again := s.(items := later);
    DesiredRowFields(s, row);
    DesiredRowFields(again, row);
    forall key: FieldKey ensures DesiredFor(again, row, key) == DesiredFor(s, row, key) {
      AppliedIsDesired(s, rows, later, row, key);
    }
    assert DesiredRow(again, row).Ok?;
    assert DesiredRow(again, row).value == DesiredRow(s, row).value;
  }

  /** Whatever else happened to the board, once every retained row has its planned changes planning
      them again succeeds, and finds nothing to do exactly when every field was steady. */
  lemma ReplanAfterFullApply(s: Snapshot, rows: seq<RetainedRow>, later: Board)
    requires RowsApplied(s, rows, later)
    ensures UpdatePlan(s.(items := later), rows).Ok?
    ensures NothingPlanned(s.(items := later), rows) <==> AllSteady(s, rows)
  {
    hide DesiredRow, FieldChanged, Steady, UpdatePlan;
    var again := s.(items := later);
    forall row | row in rows ensures DesiredRow(again, row) == DesiredRow(s, row) {
      AppliedRowIsDesired(s, rows, later, row);
    }
    PlansIffAllPlanned(again, rows);
    NothingPlannedIff(again, rows);
    forall row, key: FieldKey | row in rows
      ensures FieldChanged(later[row.handle][key], DesiredRow(again, row).value[key])
         <==> !Steady(s.items[row.handle][key], DesiredRow(s, row).value[key])
    {
      ChangesApply(s.items[row.handle], DesiredRow(s, row).value, key);
      SteadyIffSettled(s.items[row.handle][key], DesiredRow(s, row).value[key]);
    }
  }

  /** Stopped after any part of the updates, planning afresh succeeds, and executing that plan ends
      on the board an uninterrupted run ends on. */
  lemma ReplanFinishes(s: Snapshot, rows: seq<RetainedRow>, partial: Board, full: Board, finished: Board)
    requires DistinctHandles(rows) && partial.Keys == s.items.Keys
    requires PartlyApplied(s, rows, {}, partial) && FullyApplied(s, rows, full)
    requires UpdatePlan(s.(items := partial), rows).Ok? ==> FullyApplied(s.(items := partial), rows, finished)
    ensures UpdatePlan(s.(items := partial), rows).Ok?
    ensures finished == full
  {
    hide DesiredRow, UpdatePlan, PartlyApplied;
    var again := s.(items := partial);
    forall row | row in rows ensures DesiredRow(again, row) == DesiredRow(s, row) {
      SameDesiredRow(s, rows, {}, partial, row);
    }
    PlansIffAllPlanned(again, rows);
    forall handle | handle in s.items ensures finished[handle] == full[handle] {
      FinishesHandle(s, rows, partial, full, finished, handle);
    }
  }

  lemma FinishesHandle(s: Snapshot, rows: seq<RetainedRow>, partial: Board, full: Board, finished: Board,
      handle: string)
    requires DistinctHandles(rows) && handle in s.items
    requires PartlyApplied(s, rows, {}, partial) && FullyApplied(s, rows, full)
    requires FullyApplied(s.(items := partial), rows, finished)
    requires forall row | row in rows :: DesiredRow(s.(items := partial), row) == DesiredRow(s, row)
    ensures finished[handle] == full[handle]
  {
    hide DesiredRow, AllPlanned;
    if row :| row in rows && row.handle == handle {
      FinishesRow(s, rows, {}, partial, row);
    } else {
      forall key: FieldKey ensures partial[handle][key] == s.items[handle][key] {
        assert !SetBySomeRow(s, rows, partial, handle, key);
      }
    }
  }

  lemma FinishesRow(s: Snapshot, rows: seq<RetainedRow>, touched: set<string>, partial: Board, row: RetainedRow)
    requires DistinctHandles(rows) && PartlyApplied(s, rows, touched, partial) && row in rows
    ensures var desired, midway := DesiredRow(s, row).value, partial[row.handle];
      ApplyChanges(midway, Changes(midway, desired, |TRACKED|)) == PlannedFields(s, row)
  {
    hide DesiredRow;
    var desired, before, midway := DesiredRow(s, row).value, s.items[row.handle], partial[row.handle];
    forall key: FieldKey
      ensures ApplyChanges(midway, Changes(midway, desired, |TRACKED|))[key]
           == ApplyChanges(before, Changes(before, desired, |TRACKED|))[key]
    {
      ChangesApply(before, desired, key);
      ChangesApply(midway, desired, key);
      LaterField(s, rows, touched, partial, row, key);
    }
  }

  /** The plan is a fixpoint: once its updates are executed, planning the same rows again succeeds,
      and it finds nothing to do exactly when every field was steady. */
  lemma ReplanAfterApply(s: Snapshot, rows: seq<RetainedRow>)
    requires DistinctHandles(rows) && UpdatePlan(s, rows).Ok?
    ensures AllPlanned(s, rows)
    ensures var again := s.(items := ApplyUpdates(s.items, UpdatePlan(s, rows).value));
      && UpdatePlan(again, rows).Ok?
      && (UpdatePlan(again, rows).value == [] <==> AllSteady(s, rows))
  {
    PlansIffAllPlanned(s, rows);
    UpdatesApplyFully(s, rows);
    ReplanAfterFullApply(s, rows, ApplyUpdates(s.items, UpdatePlan(s, rows).value));
  }

  // ---- When every field is steady ----

  /** Live option ids as the capture leaves them: stripped, and absent when blank. */
  ghost predicate NormalIds(items: Board) {
    forall handle, key: FieldKey {:trigger items[handle][key]} | handle in items :: Normal(items[handle][key].optionId)
  }

  lemma NormalIdsAreSteady(s: Snapshot, rows: seq<RetainedRow>)
    requires AllPlanned(s, rows) && NormalIds(s.items) && NormalOptionIds(s.schema)
    ensures AllSteady(s, rows)
  {
    forall row, key: FieldKey | row in rows ensures Steady(s.items[row.handle][key], DesiredRow(s, row).value[key]) {
      DesiredRowFields(s, row);
      assert DesiredFor(s, row, key) == Ok(DesiredRow(s, row).value[key]);
      PlannableIsNormal(s.schema, key, DesiredRow(s, row).value[key]);
    }
  }

  lemma PlannableIsNormal(schema: Schema, key: FieldKey, desired: Field)
    requires NormalOptionIds(schema) && IsDesired(schema, key, desired)
    ensures Normal(desired.optionId)
  {
  }

  /** On a captured board a second planning pass plans nothing. */
  lemma SecondPlanIsEmpty(s: Snapshot, rows: seq<RetainedRow>)
    requires DistinctHandles(rows) && UpdatePlan(s, rows).Ok?
    requires NormalIds(s.items) && NormalOptionIds(s.schema)
    ensures UpdatePlan(s.(items := ApplyUpdates(s.items, UpdatePlan(s, rows).value)), rows) == Ok([])
  {
    ReplanAfterApply(s, rows);
    NormalIdsAreSteady(s, rows);
  }

  // ---- An option id with a blank in the schema ----

  /** A schema as the capture delivers it: option ids are not stripped. */
  const RAW_SCHEMA: Schema := PlainSchema()[Priority := FieldDefinition(SelectField, map["High" := "p1 "])]

  /** A captured row that has the option: its id is stripped. */
  const RAW_ROW := RetainedRow(UNINHERITED, false, "Plan")

  function RawFields(): Fields {
    TitledFields(Field(Some("Plan"), None))
    [Status := Field(Some("Todo"), None)]
    [Priority := Field(Some("High"), Some("p1"))]
  }

  function RawSnapshot(): Snapshot {
    Snapshot(RAW_SCHEMA, map[UNINHERITED := RawFields()], map[])
  }

  function RawDesired(key: FieldKey): Field {
    if key == Priority then Field(Some("High"), Some("p1 ")) else RawFields()[key]
  }

  lemma RawTexts()
    ensures Strip("Plan") == "Plan" && Strip("Todo") == "Todo" && Strip("High") == "High" && Strip("p1") == "p1"
    ensures Strip("p1 ") == "p1"
  {
    assert "p1 "[..2] == "p1";
  }

  lemma RawRowIsPlanned(key: FieldKey)
    ensures DesiredFor(RawSnapshot(), RAW_ROW, key) == Ok(RawDesired(key))
  {
    hide PlainResolve, Strip;
    RawTexts();
    var s := RawSnapshot();
    assert s.items[UNINHERITED] == RawFields();
    if key == Priority {
      assert Options(RAW_SCHEMA, Priority) == map["High" := "p1 "] && "High" in Options(RAW_SCHEMA, Priority);
      assert DesiredValue(s, RAW_ROW, key) == Ok(Some("High"));
      assert DesiredField(s.schema, key, Some("High")) == Ok(Field(Some("High"), Some("p1 ")));
    } else {
      RawOtherField(key);
      assert DesiredValue(s, RAW_ROW, key) == Ok(RawFields()[key].value);
    }
  }

  lemma RawOtherField(key: FieldKey)
    requires key != Priority
    ensures Normalize(RawFields()[key].value) == RawFields()[key].value
    ensures DesiredField(RAW_SCHEMA, key, RawFields()[key].value) == Ok(RawFields()[key])
  {
    hide Strip;
    RawTexts();
    assert Options(RAW_SCHEMA, key) == map[];
    assert RawFields()[key].optionId == None;
  }

  lemma RawRowDesired()
    ensures var s := RawSnapshot();
      && DesiredRow(s, RAW_ROW).Ok?
      && forall key: FieldKey :: DesiredRow(s, RAW_ROW).value[key] == RawDesired(key)
  {
    hide RawSnapshot, RawDesired, DesiredFor, RawFields;
    var s := RawSnapshot();
    RawHasRow();
    forall key: FieldKey ensures DesiredFor(s, RAW_ROW, key) == Ok(RawDesired(key)) {
      RawRowIsPlanned(key);
    }
    DesiredRowFields(s, RAW_ROW);
  }

  lemma RawHasRow()
    ensures RAW_ROW.handle in RawSnapshot().items
  {
  }

  lemma RawPlan(s: Snapshot, rows: seq<RetainedRow>)
    requires s == RawSnapshot() && rows == [RAW_ROW]
    ensures AllPlanned(s, rows) && DistinctHandles(rows) && UpdatePlan(s, rows).Ok? && UpdatePlan(s, rows).value != []
  {
    hide UpdatePlan, DesiredRow;
    RawRowDesired();
    assert RAW_ROW in rows && forall row | row in rows :: row == RAW_ROW;
    PlansIffAllPlanned(s, rows);
    NothingPlannedIff(s, rows);
    assert DesiredRow(s, RAW_ROW).value[Priority] == Field(Some("High"), Some("p1 "));
    assert s.items[RAW_ROW.handle][Priority] == Field(Some("High"), Some("p1"));
  }

  lemma RawShown(key: FieldKey)
    ensures Applied(RawFields()[key], RawDesired(key)) == RawFields()[key]
  {
    hide Strip;
    RawTexts();
  }

  /** The planner always sees a change in the option, and the executor never does. */
  lemma UntrimmedIdIsNeverSettled()
    ensures var s, rows := RawSnapshot(), [RAW_ROW];
      && WellFormedSchema(s.schema) && NormalIds(s.items) && DistinctHandles(rows)
      && UpdatePlan(s, rows).Ok? && UpdatePlan(s, rows).value != []
      && ApplyUpdates(s.items, UpdatePlan(s, rows).value) == s.items
      && UpdatePlan(s.(items := ApplyUpdates(s.items, UpdatePlan(s, rows).value)), rows) == UpdatePlan(s, rows)
  {
    hide UpdatePlan, DesiredRow, RawFields, RawDesired, PlannedFields, ApplyUpdates, WellFormedSchema, NormalIds;
    var s, rows := RawSnapshot(), [RAW_ROW];
    RawIsWellFormed();
    RawPlan(s, rows);
    UpdatesApplyFully(s, rows);
    RawRowDesired();
    var later := ApplyUpdates(s.items, UpdatePlan(s, rows).value);
    assert RAW_ROW in rows && s.items == map[UNINHERITED := RawFields()];
    forall key: FieldKey ensures later[UNINHERITED][key] == RawFields()[key] {
      PlannedIsApplied(s, RAW_ROW, key);
      RawShown(key);
    }
    assert later[UNINHERITED] == RawFields();
    assert later == s.items;
  }

  lemma RawIsWellFormed()
    ensures WellFormedSchema(RAW_SCHEMA) && NormalIds(RawSnapshot().items)
  {
    RawTexts();
    assert forall key: FieldKey :: Options(RAW_SCHEMA, key) == if key == Priority then map["High" := "p1 "] else map[];
  }
}
