/** The planner's main loop over the ledger: guards on every row, then a delete, an update or nothing
    (scripts/lib/m057_project_mutation_plan.py). */
module LedgerPlanning {
  import opened Wrappers
  import opened BoardModel
  import opened Inheritance
  import opened ProjectPlan
  import opened PlanFixpoint

  /** The issue that has been transferred: it has no live issue and must have no row. */
  const TRANSFERRED := "hyperpush#8"

  /** The board the planner is written for: so many rows, so many of them in each repository. */
  const PROJECT_TOTAL := 63
  const MESH := "mesh-lang"
  const MESH_TOTAL := 16
  const HYPERPUSH := "hyperpush"
  const HYPERPUSH_TOTAL := 47

  /** `KeepInProject` stands for rows to keep and rows to update, which are planned alike. */
  datatype LedgerKind = LeaveUntracked | RemoveFromProject | KeepInProject | CreateProjectItem | UnknownKind

  datatype LedgerRow = LedgerRow(handle: string, projectBacked: bool, kind: LedgerKind)

  datatype LiveIssue = LiveIssue(closed: bool, title: string)

  datatype LedgerError =
    | TotalDrifted(found: nat)
    | RepoDrifted(repo: string, found: nat)
    | MissingIssue(handle: string)
    | BackedRowGone(handle: string)
    | UntrackedIsBacked(handle: string)
    | UntrackedOnBoard(handle: string)
    | StaleRowGone(handle: string)
    | CannotRetain(handle: string)
    | CannotPlan(error: PlanError)
    | UnexpectedKind(handle: string)
    | TransferredOnBoard

  datatype Planned = Planned(deletes: seq<string>, updates: seq<Update>)

  type Issues = map<string, LiveIssue>

  function Retain(issues: Issues, row: LedgerRow): RetainedRow
    requires row.handle in issues
  {
    RetainedRow(row.handle, issues[row.handle].closed, issues[row.handle].title)
  }

  /** One turn of the loop. */
  function PlanRow(s: Snapshot, issues: Issues, row: LedgerRow, sofar: Planned): Result<Planned, LedgerError> {
    var onBoard, known := row.handle in s.items, row.handle in issues;
    if !known && row.handle != TRANSFERRED then Err(MissingIssue(row.handle))
    else if row.projectBacked && !onBoard then Err(BackedRowGone(row.handle))
    else
      match row.kind
      case LeaveUntracked =>
        if row.projectBacked then Err(UntrackedIsBacked(row.handle))
        else if onBoard then Err(UntrackedOnBoard(row.handle))
        else Ok(sofar)
      case RemoveFromProject =>
        if !onBoard then Err(StaleRowGone(row.handle)) else Ok(sofar.(deletes := sofar.deletes + [row.handle]))
      case KeepInProject =>
        if !onBoard || !known then Err(CannotRetain(row.handle))
        else
          (match DesiredRow(s, Retain(issues, row))
           case Err(error) => Err(CannotPlan(error))
           case Ok(desired) =>
             var changes := Changes(s.items[row.handle], desired, |TRACKED|);
             Ok(if changes == [] then sofar
                else sofar.(updates := sofar.updates + [Update(row.handle, changes)])))
      case CreateProjectItem => Ok(sofar)
      case UnknownKind => Err(UnexpectedKind(row.handle))
  }

  function PlanRows(s: Snapshot, issues: Issues, ledger: seq<LedgerRow>): Result<Planned, LedgerError> {
    if ledger == [] then Ok(Planned([], []))
    else
      match PlanRows(s, issues, ledger[..|ledger| - 1])
      case Err(error) => Err(error)
      case Ok(sofar) => PlanRow(s, issues, ledger[|ledger| - 1], sofar)
  }

  /** The number of rows whose issue is in a repository, as its handle says. */
  function RowsIn(handles: set<string>, repo: string): nat {
    |set handle | handle in handles && repo + "#" <= handle|
  }

  function CheckTotals(handles: set<string>): Option<LedgerError> {
    if |handles| != PROJECT_TOTAL then Some(TotalDrifted(|handles|))
    else if RowsIn(handles, MESH) != MESH_TOTAL then Some(RepoDrifted(MESH, RowsIn(handles, MESH)))
    else if RowsIn(handles, HYPERPUSH) != HYPERPUSH_TOTAL then Some(RepoDrifted(HYPERPUSH, RowsIn(handles, HYPERPUSH)))
    else None
  }

  /** The deletes and updates of a plan; the adds are made from the canonical mappings. */
  function PlanLedger(s: Snapshot, issues: Issues, ledger: seq<LedgerRow>): Result<Planned, LedgerError> {
    var drift := CheckTotals(s.items.Keys);
    if drift.Some? then Err(drift.value)
    else
      var planned := PlanRows(s, issues, ledger);
      if planned.Ok? && TRANSFERRED in s.items then Err(TransferredOnBoard) else planned
  }

  // ---- The loop ----

  method BuildPlan(s: Snapshot, issues: Issues, ledger: seq<LedgerRow>) returns (r: Result<Planned, LedgerError>)
    ensures r == PlanLedger(s, issues, ledger)
  {
    hide DesiredRow, Changes, CheckTotals;
    var drift := CheckTotals(s.items.Keys);
    if drift.Some? {
      return Err(drift.value);
    }
    var resolver := new InheritanceResolver(s.items, s.parents);
    var planned := Planned([], []);
    for n := 0 to |ledger|
      invariant resolver.Valid() && resolver.liveItemsByHandle == s.items && resolver.parentIndex == s.parents
      invariant fresh(resolver)
      invariant PlanRows(s, issues, ledger[..n]) == Ok(planned)
    {
      assert ledger[..n + 1][..n] == ledger[..n];
      var next := BuildRow(s, issues, ledger[n], planned, resolver);
      if next.Err? {
        LedgerErrorStays(s, issues, ledger, n + 1);
        return Err(next.error);
      }
      planned := next.value;
    }
    assert ledger[..|ledger|] == ledger;
    if TRANSFERRED in s.items {
      return Err(TransferredOnBoard);
    }
    return Ok(planned);
  }

  method BuildRow(s: Snapshot, issues: Issues, row: LedgerRow, sofar: Planned, resolver: InheritanceResolver)
    returns (r: Result<Planned, LedgerError>)
    requires resolver.Valid() && resolver.liveItemsByHandle == s.items && resolver.parentIndex == s.parents
    modifies resolver`cache
    ensures resolver.Valid()
    ensures r == PlanRow(s, issues, row, sofar)
  {
    hide DesiredRow, Changes;
    var onBoard, known := row.handle in s.items, row.handle in issues;
    if !known && row.handle != TRANSFERRED {
      return Err(MissingIssue(row.handle));
    }
    if row.projectBacked && !onBoard {
      return Err(BackedRowGone(row.handle));
    }
    match row.kind
    case LeaveUntracked =>
      if row.projectBacked {
        return Err(UntrackedIsBacked(row.handle));
      }
      return if onBoard then Err(UntrackedOnBoard(row.handle)) else Ok(sofar);
    case RemoveFromProject =>
      if !onBoard {
        return Err(StaleRowGone(row.handle));
      }
      return Ok(sofar.(deletes := sofar.deletes + [row.handle]));
    case KeepInProject =>
      if !onBoard || !known {
        return Err(CannotRetain(row.handle));
      }
      var desired := BuildDesiredExistingRow(s, Retain(issues, row), resolver);
      if desired.Err? {
        return Err(CannotPlan(desired.error));
      }
      var changes := ComputeUpdateOperation(s.items[row.handle], desired.value);
      return Ok(if changes == [] then sofar else sofar.(updates := sofar.updates + [Update(row.handle, changes)]));
    case CreateProjectItem =>
      return Ok(sofar);
    case UnknownKind =>
      return Err(UnexpectedKind(row.handle));
  }

  lemma {:induction false} LedgerErrorStays(s: Snapshot, issues: Issues, ledger: seq<LedgerRow>, n: nat)
    requires n <= |ledger| && PlanRows(s, issues, ledger[..n]).Err?
    ensures PlanRows(s, issues, ledger) == PlanRows(s, issues, ledger[..n])
    decreases |ledger|
  {
    if n < |ledger| {
      assert ledger[..|ledger| - 1][..n] == ledger[..n];
      LedgerErrorStays(s, issues, ledger[..|ledger| - 1], n);
    } else {
      assert ledger[..n] == ledger;
    }
  }

  // ---- When the loop succeeds ----

  /** What the guards ask of a row. */
  predicate Allowed(s: Snapshot, issues: Issues, row: LedgerRow) {
    var onBoard, known := row.handle in s.items, row.handle in issues;
    && (known || row.handle == TRANSFERRED)
    && (row.projectBacked ==> onBoard)
    && match row.kind
       case LeaveUntracked => !row.projectBacked && !onBoard
       case RemoveFromProject => onBoard
       case KeepInProject => onBoard && known
       case CreateProjectItem => true
       case UnknownKind => false
  }

  ghost predicate AllAllowed(s: Snapshot, issues: Issues, ledger: seq<LedgerRow>) {
    forall row | row in ledger :: Allowed(s, issues, row)
  }

  /** The retained rows of a ledger, in order. */
  function Retained(issues: Issues, ledger: seq<LedgerRow>): seq<RetainedRow> {
    if ledger == [] then []
    else
      var row := ledger[|ledger| - 1];
      Retained(issues, ledger[..|ledger| - 1])
      + if row.kind == KeepInProject && row.handle in issues then [Retain(issues, row)] else []
  }

  /** The rows to be removed, in order. */
  function Removed(ledger: seq<LedgerRow>): seq<string> {
    if ledger == [] then []
    else
      var row := ledger[|ledger| - 1];
      Removed(ledger[..|ledger| - 1]) + if row.kind == RemoveFromProject then [row.handle] else []
  }

  /** The loop succeeds exactly when every guard holds and every retained row can be planned; then it
      deletes the rows to be removed and updates the retained ones. */
  lemma {:induction false} PlanRowsIff(s: Snapshot, issues: Issues, ledger: seq<LedgerRow>)
    ensures PlanRows(s, issues, ledger).Ok? <==>
      AllAllowed(s, issues, ledger) && UpdatePlan(s, Retained(issues, ledger)).Ok?
    ensures PlanRows(s, issues, ledger).Ok? ==>
      PlanRows(s, issues, ledger).value == Planned(Removed(ledger), UpdatePlan(s, Retained(issues, ledger)).value)
  {
    hide DesiredRow, Changes, PlanRow, Allowed, UpdatePlan, AllAllowed;
    if ledger == [] {
      NothingToPlan(s, issues);
    } else {
      var n := |ledger| - 1;
      if PlanRows(s, issues, ledger[..n]).Ok? {
        RowDecides(s, issues, ledger[n], PlanRows(s, issues, ledger[..n]).value);
      }
      PlanRowsIff(s, issues, ledger[..n]);
      RetainedStep(s, issues, ledger);
      AllowedStep(s, issues, ledger);
    }
  }

  lemma NothingToPlan(s: Snapshot, issues: Issues)
    ensures AllAllowed(s, issues, []) && UpdatePlan(s, []) == Ok([])
  {
  }

  /** What one turn of the loop does. */
  lemma RowDecides(s: Snapshot, issues: Issues, row: LedgerRow, sofar: Planned)
    ensures var r := PlanRow(s, issues, row, sofar);
      var retained := row.kind == KeepInProject && row.handle in issues;
      && (r.Ok? <==> Allowed(s, issues, row) && (retained ==> DesiredRow(s, Retain(issues, row)).Ok?))
      && (r.Ok? ==>
           && r.value.deletes == sofar.deletes + (if row.kind == RemoveFromProject then [row.handle] else [])
           && (!retained ==> r.value.updates == sofar.updates)
           && (retained ==> (
                && row.handle in s.items
                && var changes := Changes(s.items[row.handle], DesiredRow(s, Retain(issues, row)).value, |TRACKED|);
                   r.value.updates == sofar.updates + if changes == [] then [] else [Update(row.handle, changes)])))
  {
    hide DesiredRow, Changes;
  }

  lemma AllowedStep(s: Snapshot, issues: Issues, ledger: seq<LedgerRow>)
    requires ledger != []
    ensures AllAllowed(s, issues, ledger) <==>
      AllAllowed(s, issues, ledger[..|ledger| - 1]) && Allowed(s, issues, ledger[|ledger| - 1])
  {
    hide Allowed;
    assert ledger == ledger[..|ledger| - 1] + [ledger[|ledger| - 1]];
  }

  /** One more retained row, if the last row of the ledger is one. */
  lemma RetainedStep(s: Snapshot, issues: Issues, ledger: seq<LedgerRow>)
    requires ledger != []
    ensures var front, row := ledger[..|ledger| - 1], ledger[|ledger| - 1];
      var before, after := UpdatePlan(s, Retained(issues, front)), UpdatePlan(s, Retained(issues, ledger));
      if row.kind == KeepInProject && row.handle in issues && before.Ok? then
        match DesiredRow(s, Retain(issues, row))
        case Err(error) => after.Err?
        case Ok(desired) =>
          row.handle in s.items &&
          var changes := Changes(s.items[row.handle], desired, |TRACKED|);
          after == Ok(before.value + if changes == [] then [] else [Update(row.handle, changes)])
      else after == before
  {
    hide Changes, DesiredRow, UpdatePlan;
    var front, row := ledger[..|ledger| - 1], ledger[|ledger| - 1];
    var before := Retained(issues, front);
    if row.kind == KeepInProject && row.handle in issues {
      assert Retained(issues, ledger) == before + [Retain(issues, row)];
      OneMoreRetained(s, before, Retain(issues, row));
    } else {
      assert Retained(issues, ledger) == before;
    }
  }

  lemma RowMustBeOnBoard(s: Snapshot, row: RetainedRow)
    ensures DesiredRow(s, row).Ok? ==> row.handle in s.items
  {
  }

  lemma OneMoreRetained(s: Snapshot, rows: seq<RetainedRow>, row: RetainedRow)
    ensures var before, after := UpdatePlan(s, rows), UpdatePlan(s, rows + [row]);
      if before.Ok? then
        match DesiredRow(s, row)
        case Err(error) => after.Err?
        case Ok(desired) =>
          row.handle in s.items &&
          var changes := Changes(s.items[row.handle], desired, |TRACKED|);
          after == Ok(before.value + if changes == [] then [] else [Update(row.handle, changes)])
      else after == before
  {
    hide Changes, DesiredRow;
    assert (rows + [row])[..|rows|] == rows;
    assert UpdatePlan(s, rows).Ok? ==> UpdatePlan(s, rows).value + [] == UpdatePlan(s, rows).value;
    RowMustBeOnBoard(s, row);
  }

  /** The planner succeeds exactly when, besides, the totals are right and the transferred issue has no
      row. */
  lemma PlanLedgerIff(s: Snapshot, issues: Issues, ledger: seq<LedgerRow>)
    ensures PlanLedger(s, issues, ledger).Ok? <==>
      && CheckTotals(s.items.Keys).None? && TRANSFERRED !in s.items
      && AllAllowed(s, issues, ledger) && UpdatePlan(s, Retained(issues, ledger)).Ok?
    ensures PlanLedger(s, issues, ledger).Ok? ==>
      PlanLedger(s, issues, ledger).value == Planned(Removed(ledger), UpdatePlan(s, Retained(issues, ledger)).value)
  {
    hide PlanRows, AllAllowed, UpdatePlan, CheckTotals;
    PlanRowsIff(s, issues, ledger);
  }

  // ---- What is retained and removed ----

  ghost predicate DistinctRows(ledger: seq<LedgerRow>) {
    forall i, j | 0 <= i < j < |ledger| :: ledger[i].handle != ledger[j].handle
  }

  lemma {:induction false} RetainedRows(issues: Issues, ledger: seq<LedgerRow>)
    requires DistinctRows(ledger)
    ensures DistinctHandles(Retained(issues, ledger))
    ensures forall r | r in Retained(issues, ledger) ::
      exists row | row in ledger :: row.kind == KeepInProject && row.handle == r.handle
  {
    if ledger != [] {
      var front, row := ledger[..|ledger| - 1], ledger[|ledger| - 1];
      assert ledger == front + [row];
      RetainedRows(issues, front);
      forall r | r in Retained(issues, front) ensures r.handle != row.handle {
        var other :| other in front && other.kind == KeepInProject && other.handle == r.handle;
        var i :| 0 <= i < |front| && front[i] == other;
        assert ledger[i] == other;
      }
    }
  }

  lemma {:induction false} RemovedRows(ledger: seq<LedgerRow>)
    requires DistinctRows(ledger)
    ensures forall i, j | 0 <= i < j < |Removed(ledger)| :: Removed(ledger)[i] != Removed(ledger)[j]
    ensures forall handle :: handle in Removed(ledger) <==>
      exists row | row in ledger :: row.kind == RemoveFromProject && row.handle == handle
  {
    if ledger != [] {
      var front, row := ledger[..|ledger| - 1], ledger[|ledger| - 1];
      assert ledger == front + [row];
      RemovedRows(front);
      forall handle | handle in Removed(front) ensures handle != row.handle {
        var other :| other in front && other.kind == RemoveFromProject && other.handle == handle;
        var i :| 0 <= i < |front| && front[i] == other;
        assert ledger[i] == other;
      }
      var before := Removed(front);
      assert forall i | 0 <= i < |before| :: before[i] in before;
    }
  }

  /** No handle is both. */
  lemma KindsAreDisjoint(ledger: seq<LedgerRow>, a: LedgerRow, b: LedgerRow)
    requires DistinctRows(ledger) && a in ledger && b in ledger && a.handle == b.handle
    ensures a == b
  {
    var i :| 0 <= i < |ledger| && ledger[i] == a;
    var j :| 0 <= j < |ledger| && ledger[j] == b;
    assert i == j;
  }
}
