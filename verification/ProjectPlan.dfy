/** Planning the updates of the rows kept on the board (scripts/lib/m057_project_mutation_plan.py). */
module ProjectPlan {
  import opened Wrappers
  import opened BoardModel
  import opened Inheritance

  /** The one issue whose blank fields stay blank. */
  const UNINHERITED := "hyperpush#24"

  /** What planning reads: the field schema, the live rows by issue handle, the parent of each issue. */
  datatype Snapshot = Snapshot(schema: Schema, items: Board, parents: map<string, string>)

  datatype RetainedRow = RetainedRow(handle: string, closed: bool, title: string)

  datatype PlanError =
    | RowNotOnBoard(handle: string)
    | BlankTitle(handle: string)
    | NoSuchOption(option: UnknownOption)
    | Unresolved(key: FieldKey, reason: ResolveError)

  datatype Update = Update(handle: string, changes: seq<Change>)

  // ---- Desired fields ----

  /** `infer_status_for_row`. A closed issue is done; an open one may be anything else. */
  function InferStatus(closed: bool, current: Option<string>): (r: string)
    ensures r == "Done" || r == "In Progress" || r == "Todo"
    ensures closed <==> r == "Done"
    ensures r == "In Progress" <==> !closed && current == Some("In Progress")
  {
    if closed then "Done"
    else if current == Some("Todo") || current == Some("In Progress") then current.value
    else "Todo"
  }

  function DesiredValue(s: Snapshot, row: RetainedRow, key: FieldKey): Result<Option<string>, PlanError>
    requires row.handle in s.items
  {
    var current := Normalize(s.items[row.handle][key].value);
    if key == Title then
      if Normalize(Some(row.title)).None? then Err(BlankTitle(row.handle)) else Ok(Some(row.title))
    else if key == Status then Ok(Some(InferStatus(row.closed, current)))
    else if current.Some? then Ok(current)
    else if row.handle == UNINHERITED then Ok(None)
    else match PlainResolve(s.items, s.parents, key, row.handle, {})
      case Ok(found) => Ok(Some(found.value))
      case Err(reason) => Err(Unresolved(key, reason))
  }

  function DesiredFor(s: Snapshot, row: RetainedRow, key: FieldKey): (r: Result<Field, PlanError>)
    requires row.handle in s.items
    ensures r.Ok? ==> IsDesired(s.schema, key, r.value)
  {
    match DesiredValue(s, row, key)
    case Err(error) => Err(error)
    case Ok(value) =>
      match DesiredField(s.schema, key, value)
      case Err(option) => Err(NoSuchOption(option))
      case Ok(field) => Ok(field)
  }

  /** The first desired fields, in tracked order, or the first error among them. */
  function FieldsUpTo(s: Snapshot, row: RetainedRow, n: nat): Result<map<FieldKey, Field>, PlanError>
    requires row.handle in s.items && n <= |TRACKED|
  {
    if n == 0 then Ok(map[]) else
      match FieldsUpTo(s, row, n - 1)
      case Err(error) => Err(error)
      case Ok(fields) =>
        match DesiredFor(s, row, TRACKED[n - 1])
        case Err(error) => Err(error)
        case Ok(field) => Ok(fields[TRACKED[n - 1] := field])
  }

  lemma {:induction false} FieldsUpToSound(s: Snapshot, row: RetainedRow, n: nat)
    requires row.handle in s.items && n <= |TRACKED|
    ensures match FieldsUpTo(s, row, n)
      case Ok(fields) =>
        && (forall key: FieldKey :: key in fields <==> key in TRACKED[..n])
        && forall key: FieldKey | key in fields :: DesiredFor(s, row, key) == Ok(fields[key])
      case Err(error) =>
        exists i :: 0 <= i < n && DesiredFor(s, row, TRACKED[i]) == Err(error)
          && forall j | 0 <= j < i :: DesiredFor(s, row, TRACKED[j]).Ok?
  {
    hide DesiredFor;
    if n > 0 {
      FieldsUpToSound(s, row, n - 1);
      TrackedOnce(n - 1);
      assert TRACKED[..n] == TRACKED[..n - 1] + [TRACKED[n - 1]];
      if FieldsUpTo(s, row, n - 1).Ok? {
        forall j | 0 <= j < n - 1 ensures DesiredFor(s, row, TRACKED[j]).Ok? {
          assert TRACKED[j] in TRACKED[..n - 1];
        }
      }
    }
  }

  /** The desired row, or why there is none. */
  function DesiredRow(s: Snapshot, row: RetainedRow): Result<Fields, PlanError> {
    if row.handle !in s.items then Err(RowNotOnBoard(row.handle)) else
      match FieldsUpTo(s, row, |TRACKED|)
      case Err(error) => Err(error)
      case Ok(fields) =>
        EveryKeyTracked();
        FieldsUpToSound(s, row, |TRACKED|);
        assert TRACKED[..|TRACKED|] == TRACKED;
        Ok(fields)
  }

  /** A row can be planned exactly when each of its fields can. */
  lemma DesiredRowFields(s: Snapshot, row: RetainedRow)
    requires row.handle in s.items
    ensures DesiredRow(s, row).Ok? <==> forall key: FieldKey :: DesiredFor(s, row, key).Ok?
    ensures DesiredRow(s, row).Ok? ==>
      forall key: FieldKey :: DesiredFor(s, row, key) == Ok(DesiredRow(s, row).value[key])
  {
    EveryKeyTracked();
    FieldsUpToSound(s, row, |TRACKED|);
    assert TRACKED[..|TRACKED|] == TRACKED;
  }

  lemma {:induction false} FieldErrorStays(s: Snapshot, row: RetainedRow, m: nat, n: nat)
    requires row.handle in s.items && m <= n <= |TRACKED| && FieldsUpTo(s, row, m).Err?
    ensures FieldsUpTo(s, row, n) == FieldsUpTo(s, row, m)
    decreases n
  {
    if m < n {
      FieldErrorStays(s, row, m, n - 1);
    }
  }

  /** `build_desired_existing_row`. */
  method BuildDesiredExistingRow(s: Snapshot, row: RetainedRow, resolver: InheritanceResolver)
    returns (r: Result<Fields, PlanError>)
    requires row.handle in s.items
    requires resolver.Valid() && resolver.liveItemsByHandle == s.items && resolver.parentIndex == s.parents
    modifies resolver`cache
    ensures resolver.Valid()
    ensures r == DesiredRow(s, row)
  {
    hide DesiredFor, DesiredValue;
    var desired: map<FieldKey, Field> := map[];
    for n := 0 to |TRACKED|
      invariant resolver.Valid()
      invariant FieldsUpTo(s, row, n) == Ok(desired)
    {
      var key := TRACKED[n];
      var field := DesiredFieldFor(s, row, key, resolver);
      if field.Err? {
        FieldErrorStays(s, row, n + 1, |TRACKED|);
        return Err(field.error);
      }
      desired := desired[key := field.value];
    }
    FieldsUpToSound(s, row, |TRACKED|);
    EveryKeyTracked();
    assert TRACKED[..|TRACKED|] == TRACKED;
    r := Ok(desired);
  }

  method DesiredFieldFor(s: Snapshot, row: RetainedRow, key: FieldKey, resolver: InheritanceResolver)
    returns (r: Result<Field, PlanError>)
    requires row.handle in s.items
    requires resolver.Valid() && resolver.liveItemsByHandle == s.items && resolver.parentIndex == s.parents
    modifies resolver`cache
    ensures resolver.Valid()
    ensures r == DesiredFor(s, row, key)
  {
    var value := DesiredValueOf(s, row, key, resolver);
    if value.Err? {
      return Err(value.error);
    }
    match DesiredField(s.schema, key, value.value)
    case Err(option) => return Err(NoSuchOption(option));
    case Ok(field) => return Ok(field);
  }

  method DesiredValueOf(s: Snapshot, row: RetainedRow, key: FieldKey, resolver: InheritanceResolver)
    returns (r: Result<Option<string>, PlanError>)
    requires row.handle in s.items
    requires resolver.Valid() && resolver.liveItemsByHandle == s.items && resolver.parentIndex == s.parents
    modifies resolver`cache
    ensures resolver.Valid()
    ensures r == DesiredValue(s, row, key)
  {
    var current := Normalize(s.items[row.handle][key].value);
    if key == Title {
      return if Normalize(Some(row.title)).None? then Err(BlankTitle(row.handle)) else Ok(Some(row.title));
    }
    if key == Status {
      return Ok(Some(InferStatus(row.closed, current)));
    }
    if current.Some? {
      return Ok(current);
    }
    if row.handle == UNINHERITED {
      return Ok(None);
    }
    var resolved := resolver.Resolve(row.handle, key);
    match resolved
    case Ok(found) => return Ok(Some(found.value));
    case Err(reason) => return Err(Unresolved(key, reason));
  }

  // ---- Changes and updates ----

  /** `field_change` reports a change: option ids are compared as they are, values in normal form. */
  predicate FieldChanged(before: Field, after: Field) {
    !(Normalize(before.value) == Normalize(after.value) && before.optionId == after.optionId)
  }

  function Changes(before: Fields, after: Fields, n: nat): (r: seq<Change>)
    requires n <= |TRACKED|
    ensures DistinctKeys(r)
    ensures forall c | c in r :: FieldChanged(before[c.key], after[c.key]) && c.after == after[c.key]
    ensures forall i | 0 <= i < n && FieldChanged(before[TRACKED[i]], after[TRACKED[i]]) ::
      Change(TRACKED[i], after[TRACKED[i]]) in r
    ensures forall c | c in r :: c.key in TRACKED[..n]
  {
    if n == 0 then [] else
      TrackedOnce(n - 1);
      var key := TRACKED[n - 1];
      var earlier := Changes(before, after, n - 1);
      if FieldChanged(before[key], after[key]) then earlier + [Change(key, after[key])] else earlier
  }

  lemma TrackedOnce(n: nat)
    requires n < |TRACKED|
    ensures TRACKED[n] !in TRACKED[..n]
  {
  }

  /** `compute_update_operation`: the changed fields; none means no operation. */
  method ComputeUpdateOperation(before: Fields, after: Fields) returns (changes: seq<Change>)
    ensures changes == Changes(before, after, |TRACKED|)
    ensures changes == [] <==> forall key: FieldKey :: !FieldChanged(before[key], after[key])
  {
    changes := [];
    for n := 0 to |TRACKED|
      invariant changes == Changes(before, after, n)
    {
      var key := TRACKED[n];
      if FieldChanged(before[key], after[key]) {
        changes := changes + [Change(key, after[key])];
      }
    }
    NoChanges(before, after);
  }

  lemma NoChanges(before: Fields, after: Fields)
    ensures Changes(before, after, |TRACKED|) == [] <==> forall key: FieldKey :: !FieldChanged(before[key], after[key])
  {
    EveryKeyTracked();
    if Changes(before, after, |TRACKED|) == [] {
      forall key: FieldKey ensures !FieldChanged(before[key], after[key]) {
        var i := TrackedAt(key);
      }
    } else {
      assert Changes(before, after, |TRACKED|)[0] in Changes(before, after, |TRACKED|);
    }
  }

  /** The update operations of the first rows, or the first error. */
  function UpdatePlan(s: Snapshot, rows: seq<RetainedRow>): Result<seq<Update>, PlanError> {
    if rows == [] then Ok([]) else
      var row := rows[|rows| - 1];
      match UpdatePlan(s, rows[..|rows| - 1])
      case Err(error) => Err(error)
      case Ok(updates) =>
        match DesiredRow(s, row)
        case Err(error) => Err(error)
        case Ok(desired) =>
          var changes := Changes(s.items[row.handle], desired, |TRACKED|);
          Ok(if changes == [] then updates else updates + [Update(row.handle, changes)])
  }
}
