/** The executor at work: a remote board addressed by item ids, a local capture of it held in two
    indexes that share their rows, and the loop over the plan's operations
    (scripts/lib/m057_project_mutation_apply.py). */
module ProjectExecutor {
  import opened Wrappers
  import opened BoardModel
  import opened ProjectApply
  import opened ApplyRestart
  import opened ExecutorRuns
  import opened FinalState

  // ---- The remote board ----

  datatype BoardItem = BoardItem(issue: string, fields: Fields)

  ghost predicate OneItemPerIssue(items: map<nat, BoardItem>) {
    forall i, j | i in items && j in items && items[i].issue == items[j].issue :: i == j
  }

  /** `rows` holds the same rows as `items`, by issue. */
  ghost predicate Lists(rows: Board, items: map<nat, BoardItem>) {
    && (forall id | id in items :: items[id].issue in rows && rows[items[id].issue] == items[id].fields)
    && (forall issue | issue in rows :: exists id :: id in items && items[id].issue == issue)
  }

  ghost function RowsOf(items: map<nat, BoardItem>): (rows: Board)
    requires OneItemPerIssue(items)
    ensures Lists(rows, items)
  {
    map id | id in items :: items[id].issue := items[id].fields
  }

  lemma ListsOnce(a: Board, b: Board, items: map<nat, BoardItem>)
    requires Lists(a, items) && Lists(b, items)
    ensures a == b
  {
    forall issue | issue in a ensures issue in b && a[issue] == b[issue] {
      var id :| id in items && items[id].issue == issue;
    }
    forall issue | issue in b ensures issue in a {
      var id :| id in items && items[id].issue == issue;
    }
  }

  lemma RowListed(items: map<nat, BoardItem>, id: nat)
    requires OneItemPerIssue(items) && id in items
    ensures items[id].issue in RowsOf(items) && RowsOf(items)[items[id].issue] == items[id].fields
  {
  }

  lemma RowsWithout(items: map<nat, BoardItem>, id: nat)
    requires OneItemPerIssue(items) && id in items
    ensures OneItemPerIssue(items - {id})
    ensures RowsOf(items - {id}) == RowsOf(items) - {items[id].issue}
  {
    hide RowsOf;
    var rows, later := RowsOf(items) - {items[id].issue}, items - {id};
    forall issue | issue in rows ensures exists other :: other in later && later[other].issue == issue {
      var other :| other in items && items[other].issue == issue;
      assert other in later;
    }
    ListsOnce(rows, RowsOf(later), later);
  }

  lemma RowsWith(items: map<nat, BoardItem>, id: nat, item: BoardItem)
    requires OneItemPerIssue(items)
    requires if id in items then items[id].issue == item.issue else item.issue !in RowsOf(items)
    ensures OneItemPerIssue(items[id := item])
    ensures RowsOf(items[id := item]) == RowsOf(items)[item.issue := item.fields]
  {
    hide RowsOf;
    var rows, later := RowsOf(items)[item.issue := item.fields], items[id := item];
    assert Lists(RowsOf(items), items);
    forall other | other in items && other != id ensures items[other].issue != item.issue {
      assert items[other].issue in RowsOf(items);
    }
    assert OneItemPerIssue(later);
    forall issue | issue in rows ensures exists other :: other in later && later[other].issue == issue {
      if issue == item.issue {
        assert later[id].issue == issue;
      } else {
        var other :| other in items && items[other].issue == issue;
        assert later[other].issue == issue;
      }
    }
    ListsOnce(rows, RowsOf(later), later);
  }

  lemma {:induction false} OneRowPerItem(items: map<nat, BoardItem>)
    requires OneItemPerIssue(items)
    ensures |RowsOf(items)| == |items|
    decreases |items|
  {
    hide RowsOf;
    if items == map[] {
      ListsOnce(map[], RowsOf(items), items);
    } else {
      var id :| id in items;
      RowListed(items, id);
      RowsWithout(items, id);
      OneRowPerItem(items - {id});
      SizeWithout(items, id);
      SizeWithout(RowsOf(items), items[id].issue);
    }
  }

  lemma SizeWithout<K, V>(m: map<K, V>, k: K)
    requires k in m
    ensures |m - {k}| == |m| - 1
  {
    assert (m - {k}).Keys == m.Keys - {k};
    assert |m| == |m.Keys| && |m - {k}| == |(m - {k}).Keys|;
  }

  class RemoteBoard {
    const project: Project
    var items: map<nat, BoardItem>
    var nextId: nat
    /** Every command issued so far. */
    ghost var log: seq<Command>

    constructor (project: Project)
      requires WellFormedSchema(project.schema)
      ensures Valid() && this.project == project && items == map[] && log == []
    {
      this.project := project;
      items := map[];
      nextId := 0;
      log := [];
    }

    ghost predicate Valid()
      reads this
    {
      && WellFormedSchema(project.schema)
      && OneItemPerIssue(items)
      && forall id | id in items :: id < nextId
    }

    ghost function Rows(): Board
      reads this
      requires Valid()
    {
      RowsOf(items)
    }

    method ItemDelete(id: nat)
      requires Valid() && id in items
      modifies this
      ensures Valid() && items == old(items) - {id} && nextId == old(nextId)
      ensures log == old(log) + [Command.ItemDelete(old(items)[id].issue)]
      ensures Rows() == Execute(project, old(Rows()), Command.ItemDelete(old(items)[id].issue))
    {
      hide RowsOf, Lists, OneItemPerIssue, WellFormedSchema, CommandEffect;
      RowsWithout(items, id);
      log := log + [Command.ItemDelete(items[id].issue)];
      items := items - {id};
    }

    /** A new item takes an id never used before. */
    method ItemAdd(issue: string) returns (id: nat)
      requires Valid() && issue !in Rows()
      modifies this
      ensures Valid() && id == old(nextId) && nextId == old(nextId) + 1
      ensures items == old(items)[id := BoardItem(issue, AddedRow(project, issue))]
      ensures log == old(log) + [Command.ItemAdd(issue)]
      ensures Rows() == Execute(project, old(Rows()), Command.ItemAdd(issue))
    {
      hide RowsOf, Lists, OneItemPerIssue, WellFormedSchema, CommandEffect, AddedRow;
      id := nextId;
      RowsWith(items, id, BoardItem(issue, AddedRow(project, issue)));
      items := items[id := BoardItem(issue, AddedRow(project, issue))];
      nextId := nextId + 1;
      log := log + [Command.ItemAdd(issue)];
    }

    /** An edit the board does not accept changes nothing. */
    method ItemEdit(id: nat, key: FieldKey, edit: EditCommand) returns (ok: bool)
      requires Valid() && id in items
      modifies this
      ensures Valid() && nextId == old(nextId)
      ensures ok <==> Accepts(project.schema, key, edit)
      ensures !ok ==> items == old(items) && log == old(log)
      ensures ok ==>
        var item := old(items)[id];
        && items == old(items)[id := item.(fields := item.fields[key := CommandEffect(project.schema, key, edit)])]
        && log == old(log) + [Command.ItemEdit(item.issue, key, edit)]
        && Rows() == Execute(project, old(Rows()), Command.ItemEdit(item.issue, key, edit))
    {
      hide RowsOf, Lists, OneItemPerIssue, WellFormedSchema, CommandEffect;
      ok := Accepts(project.schema, key, edit);
      if ok {
        RowListed(items, id);
        var item := items[id].(fields := items[id].fields[key := CommandEffect(project.schema, key, edit)]);
        RowsWith(items, id, item);
        log := log + [Command.ItemEdit(item.issue, key, edit)];
        items := items[id := item];
      }
    }
  }

  // ---- The local capture ----

  class LiveRow {
    const itemId: nat
    const issue: string
    var fields: Fields

    constructor (itemId: nat, issue: string, fields: Fields)
      ensures this.itemId == itemId && this.issue == issue && this.fields == fields
    {
      this.itemId := itemId;
      this.issue := issue;
      this.fields := fields;
    }
  }

  /** An operation with the item id the planner saw, if any. */
  datatype PlannedOperation = PlannedOperation(op: Operation, itemId: Option<nat>)

  function OperationsOf(planned: seq<PlannedOperation>): (ops: seq<Operation>)
    ensures |ops| == |planned| && forall i | 0 <= i < |ops| :: ops[i] == planned[i].op
  {
    seq(|planned|, i requires 0 <= i < |planned| => planned[i].op)
  }

  /** A planned id was the id of its issue; ids are never used again for another. */
  ghost predicate IdFits(planned: PlannedOperation, items: map<nat, BoardItem>, nextId: nat) {
    match planned.itemId
    case None => true
    case Some(id) => id < nextId && (id in items ==> items[id].issue == planned.op.issue)
  }

  /** Between two moments old ids keep their issues. */
  ghost predicate IdsKept(before: map<nat, BoardItem>, nextBefore: nat, after: map<nat, BoardItem>, nextAfter: nat) {
    && nextBefore <= nextAfter
    && forall id | id in after && id < nextBefore :: id in before && before[id].issue == after[id].issue
  }

  /** Both indexes hold the same row objects, one for each item of the board. */
  ghost predicate Captured(byItemId: map<nat, LiveRow>, byIssueUrl: map<string, LiveRow>, items: map<nat, BoardItem>) {
    && (forall id | id in byItemId ::
         && byItemId[id].itemId == id && id in items && byItemId[id].issue == items[id].issue
         && byItemId[id].issue in byIssueUrl && byIssueUrl[byItemId[id].issue] == byItemId[id])
    && (forall issue | issue in byIssueUrl ::
         && byIssueUrl[issue].issue == issue
         && byIssueUrl[issue].itemId in byItemId && byItemId[byIssueUrl[issue].itemId] == byIssueUrl[issue])
  }

  /** The rows as the executor has them. */
  ghost function LocalItems(byItemId: map<nat, LiveRow>): map<nat, BoardItem>
    reads byItemId.Values
  {
    map id | id in byItemId :: BoardItem(byItemId[id].issue, byItemId[id].fields)
  }

  lemma LocalIsOnePerIssue(byItemId: map<nat, LiveRow>, byIssueUrl: map<string, LiveRow>, items: map<nat, BoardItem>)
    requires Captured(byItemId, byIssueUrl, items) && byItemId.Keys == items.Keys && OneItemPerIssue(items)
    ensures OneItemPerIssue(LocalItems(byItemId))
    ensures forall issue :: issue in RowsOf(LocalItems(byItemId)) <==> issue in RowsOf(items)
  {
    hide RowsOf;
    var local := LocalItems(byItemId);
    assert Lists(RowsOf(local), local) && Lists(RowsOf(items), items);
    forall issue ensures issue in RowsOf(local) <==> issue in RowsOf(items) {
      if issue in RowsOf(local) {
        var id :| id in local && local[id].issue == issue;
        assert items[id].issue == issue;
      }
      if issue in RowsOf(items) {
        var id :| id in items && items[id].issue == issue;
        assert local[id].issue == issue;
      }
    }
  }

  lemma NothingCaptured(items: map<nat, BoardItem>)
    ensures Captured(map[], map[], items)
  {
  }

  lemma OneMoreCaptured(ids: map<nat, LiveRow>, urls: map<string, LiveRow>, items: map<nat, BoardItem>, id: nat,
      row: LiveRow)
    requires Captured(ids, urls, items) && OneItemPerIssue(items) && id in items && id !in ids
    requires row.itemId == id && row.issue == items[id].issue
    ensures row.issue !in urls && Captured(ids[id := row], urls[row.issue := row], items)
  {
  }

  function EditedItems(items: map<nat, BoardItem>, id: nat, key: FieldKey, field: Field): map<nat, BoardItem>
    requires id in items
  {
    items[id := items[id].(fields := items[id].fields[key := field])]
  }

  lemma EditKeepsCapture(ids: map<nat, LiveRow>, urls: map<string, LiveRow>, items: map<nat, BoardItem>,
      later: map<nat, BoardItem>, id: nat)
    requires Captured(ids, urls, items) && id in items
    requires exists key, field :: later == EditedItems(items, id, key, field)
    ensures Captured(ids, urls, later)
  {
  }

  lemma OwnRows(ids: map<nat, LiveRow>, urls: map<string, LiveRow>, items: map<nat, BoardItem>)
    requires Captured(ids, urls, items)
    ensures forall i, j | i in ids && j in ids && ids[i] == ids[j] :: i == j
  {
  }

  lemma FreshCapture(ids: map<nat, LiveRow>, urls: map<string, LiveRow>, items: map<nat, BoardItem>)
    requires Captured(ids, urls, items) && ids.Keys == items.Keys
    requires forall id | id in ids :: ids[id].fields == items[id].fields
    ensures LocalItems(ids) == items
  {
  }

  lemma UnchangedRow(b: Boards, issue: string)
    requires issue in b.local && issue in b.remote
    ensures WithRow(b, issue, SidesOf(b, issue)) == b
  {
  }

  lemma IdsStayKept(a: map<nat, BoardItem>, i: nat, b: map<nat, BoardItem>, j: nat, c: map<nat, BoardItem>, k: nat)
    requires IdsKept(a, i, b, j) && IdsKept(b, j, c, k)
    ensures IdsKept(a, i, c, k)
  {
  }

  lemma IdsKeptAtFirst(a: map<nat, BoardItem>, i: nat)
    ensures IdsKept(a, i, a, i)
  {
  }

  /** The changes a row does not show. */
  function Missing(row: Fields, changes: seq<Change>): seq<Change> {
    if changes == [] then [] else
      (if ValueMatches(row[changes[0].key], changes[0].after) then [] else [changes[0]]) + Missing(row, changes[1..])
  }

  lemma {:induction false} MissingConcat(row: Fields, a: seq<Change>, b: seq<Change>)
    ensures Missing(row, a + b) == Missing(row, a) + Missing(row, b)
  {
    hide ValueMatches;
    if a == [] {
      assert a + b == b;
    } else {
      assert (a + b)[1..] == a[1..] + b && (a + b)[0] == a[0];
      MissingConcat(row, a[1..], b);
      var first := if ValueMatches(row[a[0].key], a[0].after) then [] else [a[0]];
      assert first + (Missing(row, a[1..]) + Missing(row, b)) == first + Missing(row, a[1..]) + Missing(row, b);
    }
  }

  lemma {:induction false} MissingSame(a: Fields, b: Fields, changes: seq<Change>)
    requires forall c | c in changes :: a[c.key] == b[c.key]
    ensures Missing(a, changes) == Missing(b, changes)
  {
    if changes != [] {
      assert changes[0] in changes;
      MissingSame(a, b, changes[1..]);
    }
  }

  ghost predicate NoneShown(row: Fields, changes: seq<Change>) {
    forall c | c in changes :: !ValueMatches(row[c.key], c.after)
  }

  lemma {:induction false} MissingAreChanges(row: Fields, changes: seq<Change>)
    requires DistinctKeys(changes)
    ensures forall c | c in Missing(row, changes) :: c in changes
    ensures NoneShown(row, Missing(row, changes)) && DistinctKeys(Missing(row, changes))
  {
    hide ValueMatches, DistinctKeys;
    if changes == [] {
      NoDistinctKeys();
    } else {
      var rest := Missing(row, changes[1..]);
      assert changes[0] in changes && forall d | d in changes[1..] :: d in changes;
      DistinctChanges(changes);
      MissingAreChanges(row, changes[1..]);
      OneMoreKey(changes[0], rest);
      assert [] + rest == rest;
    }
  }

  lemma NoDistinctKeys()
    ensures DistinctKeys([])
  {
  }

  lemma DistinctChanges(changes: seq<Change>)
    requires DistinctKeys(changes) && changes != []
    ensures DistinctKeys(changes[1..]) && forall d | d in changes[1..] :: d.key != changes[0].key
  {
    FirstKeyAlone(changes);
  }

  lemma OneMoreKey(c: Change, rest: seq<Change>)
    requires DistinctKeys(rest)
    ensures (forall d | d in rest :: d.key != c.key) ==> DistinctKeys([c] + rest)
  {
  }

  /** It is the same to choose the missing changes first and to check each when its turn comes. */
  lemma {:induction false} MissingSuffices(p: Project, issue: string, row: Sides, changes: seq<Change>)
    requires WellFormedSchema(p.schema) && DistinctKeys(changes)
    ensures EditAll(p, issue, row, Missing(row.local, changes)) == EditAll(p, issue, row, changes)
    decreases changes
  {
    hide WellFormedSchema, ValueMatches, TryEdit, DistinctKeys;
    if changes != [] {
      var c := changes[0];
      DistinctChanges(changes);
      if ValueMatches(row.local[c.key], c.after) {
        MissingSuffices(p, issue, row, changes[1..]);
        assert Missing(row.local, changes) == Missing(row.local, changes[1..]);
      } else {
        var first := TryEdit(p, issue, row, c);
        var missing := Missing(row.local, changes);
        assert missing[0] == c && missing[1..] == Missing(row.local, changes[1..]);
        if first.ok {
          TryEditElsewhere(p, issue, row, c);
          MissingSame(row.local, first.row.local, changes[1..]);
          MissingSuffices(p, issue, first.row, changes[1..]);
        }
      }
    }
  }

  lemma TryEditElsewhere(p: Project, issue: string, row: Sides, c: Change)
    requires WellFormedSchema(p.schema)
    ensures forall key: FieldKey | key != c.key :: TryEdit(p, issue, row, c).row.local[key] == row.local[key]
  {
  }

  lemma StillNoneShown(p: Project, issue: string, row: Sides, changes: seq<Change>)
    requires WellFormedSchema(p.schema) && DistinctKeys(changes) && changes != [] && NoneShown(row.local, changes)
    ensures !ValueMatches(row.local[changes[0].key], changes[0].after)
    ensures NoneShown(TryEdit(p, issue, row, changes[0]).row.local, changes[1..])
  {
    hide ValueMatches, TryEdit, WellFormedSchema;
    FirstKeyAlone(changes);
    TryEditElsewhere(p, issue, row, changes[0]);
    assert changes[0] in changes && forall c | c in changes[1..] :: c in changes;
  }

  /** Missing changes that are all carried out leave a trace. */
  lemma MissingIsEdited(p: Project, issue: string, row: Sides, changes: seq<Change>)
    requires WellFormedSchema(p.schema) && NoneShown(row.local, changes)
    requires EditAll(p, issue, row, changes).ok
    ensures EditAll(p, issue, row, changes).commands == [] <==> changes == []
  {
    hide ValueMatches, WellFormedSchema;
    if changes != [] {
      assert changes[0] in changes;
    }
  }

  /** `desired_add_mutations`. */
  method DesiredAddMutations(row: Fields, desired: Fields) returns (mutations: seq<Change>)
    ensures mutations == Missing(row, Mutations(desired, |TRACKED|))
  {
    hide ValueMatches;
    mutations := [];
    for n := 0 to |TRACKED|
      invariant mutations == Missing(row, Mutations(desired, n))
    {
      var key := TRACKED[n];
      if key != Title && desired[key] != NO_FIELD {
        MissingConcat(row, Mutations(desired, n), [Change(key, desired[key])]);
        if !ValueMatches(row[key], desired[key]) {
          mutations := mutations + [Change(key, desired[key])];
        }
      }
    }
  }

  class ApplyContext {
    const remote: RemoteBoard
    var byIssueUrl: map<string, LiveRow>
    var byItemId: map<nat, LiveRow>

    ghost predicate Valid()
      reads this, remote
    {
      remote.Valid() && byItemId.Keys == remote.items.Keys && Captured(byItemId, byIssueUrl, remote.items)
    }

    /** The local rows and the remote ones. */
    ghost function Both(): (b: Boards)
      reads this, remote, byItemId.Values
      requires Valid()
      ensures SameRows(b)
    {
      LocalIsOnePerIssue(byItemId, byIssueUrl, remote.items);
      Boards(RowsOf(LocalItems(byItemId)), remote.Rows())
    }

    constructor (remote: RemoteBoard)
      requires remote.Valid()
      ensures Valid() && this.remote == remote && fresh(byItemId.Values)
      ensures Both() == Boards(remote.Rows(), remote.Rows())
    {
      this.remote := remote;
      byIssueUrl := map[];
      byItemId := map[];
      new;
      Refresh();
    }

    /** `refresh_live_state`: a new capture, with new row objects equal to the board's. */
    method Refresh()
      requires remote.Valid()
      modifies this
      ensures Valid() && fresh(byItemId.Values)
      ensures Both() == Boards(remote.Rows(), remote.Rows())
    {
      hide RowsOf, Lists, Captured, OneItemPerIssue, WellFormedSchema;
      NothingCaptured(remote.items);
      var urls: map<string, LiveRow> := map[];
      var ids: map<nat, LiveRow> := map[];
      var todo := remote.items.Keys;
      while todo != {}
        invariant todo <= remote.items.Keys
        invariant ids.Keys == remote.items.Keys - todo
        invariant forall id | id in ids :: fresh(ids[id]) && ids[id].fields == remote.items[id].fields
        invariant Captured(ids, urls, remote.items)
        decreases todo
      {
        var id :| id in todo;
        var item := remote.items[id];
        var row := new LiveRow(id, item.issue, item.fields);
        OneMoreCaptured(ids, urls, remote.items, id, row);
        urls := urls[item.issue := row];
        ids := ids[id := row];
        todo := todo - {id};
      }
      byIssueUrl := urls;
      byItemId := ids;
      FreshCapture(byItemId, byIssueUrl, remote.items);
    }

    /** `current_row_for_operation`: by the planned id, else by issue; either way the one row of the
        issue. */
    function CurrentRow(planned: PlannedOperation): (row: Option<LiveRow>)
      reads this, remote, byItemId.Values
      requires Valid() && IdFits(planned, remote.items, remote.nextId)
      ensures row.Some? <==> planned.op.issue in Both().local
      ensures row.Some? ==> row.value in byItemId.Values && row.value.issue == planned.op.issue
    {
      var issue := planned.op.issue;
      CurrentRowExists(issue);
      if planned.itemId.Some? && planned.itemId.value in byItemId then Some(byItemId[planned.itemId.value])
      else if issue in byIssueUrl then Some(byIssueUrl[issue])
      else None
    }

    lemma CurrentRowExists(issue: string)
      requires Valid()
      ensures issue in Both().local <==> issue in byIssueUrl
      ensures forall id | id in byItemId :: byItemId[id].issue in byIssueUrl
      ensures issue in byIssueUrl ==> byIssueUrl[issue] in byItemId.Values
    {
      hide RowsOf;
      var local := LocalItems(byItemId);
      LocalIsOnePerIssue(byItemId, byIssueUrl, remote.items);
      assert Lists(RowsOf(local), local);
      if issue in byIssueUrl {
        assert byItemId[byIssueUrl[issue].itemId] == byIssueUrl[issue];
        assert local[byIssueUrl[issue].itemId].issue == issue;
      }
    }

    lemma RowIsListed(row: LiveRow)
      requires Valid() && row in byItemId.Values
      ensures row.itemId in byItemId && byItemId[row.itemId] == row && row.itemId in remote.items
      ensures row.issue in Both().local && row.issue in Both().remote
      ensures SidesOf(Both(), row.issue) == Sides(row.fields, remote.items[row.itemId].fields)
    {
      hide RowsOf;
      LocalIsOnePerIssue(byItemId, byIssueUrl, remote.items);
      RowListed(LocalItems(byItemId), row.itemId);
      RowListed(remote.items, row.itemId);
    }

    /** `item-edit` and, if the board accepts it, the same change to the shared local row. */
    method EditField(row: LiveRow, change: Change) returns (ok: bool)
      requires Valid() && row in byItemId.Values
      modifies remote, row
      ensures Valid() && IdsKept(old(remote.items), old(remote.nextId), remote.items, remote.nextId)
      ensures row.issue in old(Both()).local && row.issue in old(Both()).remote
      ensures var e := TryEdit(remote.project, row.issue, SidesOf(old(Both()), row.issue), change);
        && ok == e.ok
        && Both() == WithRow(old(Both()), row.issue, e.row)
        && remote.log == old(remote.log) + e.commands
    {
      hide RowsOf, Lists, WellFormedSchema, CommandEffect, CommandFor, Normalize, Accepts, Captured, OneItemPerIssue;
      LocalIsOnePerIssue(byItemId, byIssueUrl, remote.items);
      RowIsListed(row);
      UnchangedRow(Both(), row.issue);
      var command := CommandFor(remote.project.schema, change.key, change.after);
      if command.None? {
        return false;
      }
      ghost var shown := CommandEffect(remote.project.schema, change.key, command.value);
      ghost var edited := EditedItems(remote.items, row.itemId, change.key, shown);
      ok := remote.ItemEdit(row.itemId, change.key, command.value);
      if ok {
        EditKeepsCapture(byItemId, byIssueUrl, old(remote.items), edited, row.itemId);
        SetField(row, change.key, NormalizeField(change.after));
      }
    }

    /** The local half of an edit. */
    method SetField(row: LiveRow, key: FieldKey, field: Field)
      requires Valid() && row in byItemId.Values
      modifies row
      ensures Valid() && Both().remote == old(Both()).remote
      ensures row.issue in old(Both()).local
      ensures Both().local == old(Both()).local[row.issue := old(Both()).local[row.issue][key := field]]
    {
      hide RowsOf, Lists, WellFormedSchema, Captured;
      ghost var local := LocalItems(byItemId);
      LocalIsOnePerIssue(byItemId, byIssueUrl, remote.items);
      RowIsListed(row);
      RowListed(local, row.itemId);
      row.fields := row.fields[key := field];
      ghost var item := BoardItem(row.issue, row.fields);
      RowsWith(local, row.itemId, item);
      assert LocalItems(byItemId) == local[row.itemId := item] by {
        OwnRows(byItemId, byIssueUrl, remote.items);
      }
    }

    /** `execute_update`'s loop: each change the local row does not show is carried out. */
    method ApplyMissing(row: LiveRow, changes: seq<Change>) returns (applied: nat, ok: bool)
      requires Valid() && row in byItemId.Values
      modifies remote, row
      ensures Valid() && IdsKept(old(remote.items), old(remote.nextId), remote.items, remote.nextId)
      ensures row.issue in old(Both()).local && row.issue in old(Both()).remote
      ensures var e := EditAll(remote.project, row.issue, SidesOf(old(Both()), row.issue), changes);
        && ok == e.ok && applied == |e.commands|
        && Both() == WithRow(old(Both()), row.issue, e.row)
        && remote.log == old(remote.log) + e.commands
    {
      hide RowsOf, Lists, WellFormedSchema, Captured, OneItemPerIssue, ValueMatches, IdsKept, TryEdit, EditAll, After,
        WithRow, SidesOf;
      ghost var done: seq<Command> := [];
      ghost var p, issue, before := remote.project, row.issue, Both();
      RowIsListed(row);
      ghost var sides := SidesOf(before, issue);
      ghost var whole := EditAll(p, issue, sides, changes);
      UnchangedRow(before, issue);
      IdsKeptAtFirst(remote.items, remote.nextId);
      NothingDone(whole);
      applied := 0;
      assert changes[0..] == changes;
      for n := 0 to |changes|
        invariant Valid() && row in byItemId.Values
        invariant IdsKept(old(remote.items), old(remote.nextId), remote.items, remote.nextId)
        invariant Both() == WithRow(before, issue, sides)
        invariant remote.log == old(remote.log) + done && applied == |done|
        invariant whole == After(done, EditAll(p, issue, sides, changes[n..]))
      {
        var change := changes[n];
        ghost var left := changes[n..];
        assert left[0] == change && left[1..] == changes[n + 1..];
        RowIsListed(row);
        RowWritten(before, issue, sides);
        NextEdit(p, issue, sides, left, done);
        if !ValueMatches(row.fields[change.key], change.after) {
          ghost var items, nextId := remote.items, remote.nextId;
          ghost var e := TryEdit(p, issue, sides, change);
          var edited := EditField(row, change);
          IdsStayKept(old(remote.items), old(remote.nextId), items, nextId, remote.items, remote.nextId);
          RowRewritten(before, issue, sides, e.row);
          if !edited {
            return applied, false;
          }
          done := done + e.commands;
          applied := applied + 1;
          sides := e.row;
        }
      }
      LastEdit(p, issue, sides, changes[|changes|..], done);
      return applied, true;
    }

    /** `execute_add`'s loop: every mutation is carried out. */
    method ApplyMutations(row: LiveRow, mutations: seq<Change>) returns (ok: bool)
      requires Valid() && row in byItemId.Values
      requires DistinctKeys(mutations) && NoneShown(row.fields, mutations)
      modifies remote, row
      ensures Valid() && IdsKept(old(remote.items), old(remote.nextId), remote.items, remote.nextId)
      ensures row.issue in old(Both()).local && row.issue in old(Both()).remote
      ensures var e := EditAll(remote.project, row.issue, SidesOf(old(Both()), row.issue), mutations);
        && ok == e.ok
        && Both() == WithRow(old(Both()), row.issue, e.row)
        && remote.log == old(remote.log) + e.commands
    {
      hide RowsOf, Lists, WellFormedSchema, Captured, OneItemPerIssue, ValueMatches, IdsKept, TryEdit, EditAll, After,
        WithRow, SidesOf;
      hide NoneShown, DistinctKeys;
      ghost var done: seq<Command> := [];
      ghost var p, issue, before := remote.project, row.issue, Both();
      RowIsListed(row);
      ghost var sides := SidesOf(before, issue);
      ghost var whole := EditAll(p, issue, sides, mutations);
      UnchangedRow(before, issue);
      IdsKeptAtFirst(remote.items, remote.nextId);
      NothingDone(whole);
      assert mutations[0..] == mutations;
      for n := 0 to |mutations|
        invariant Valid() && row in byItemId.Values
        invariant IdsKept(old(remote.items), old(remote.nextId), remote.items, remote.nextId)
        invariant Both() == WithRow(before, issue, sides)
        invariant remote.log == old(remote.log) + done
        invariant DistinctKeys(mutations[n..]) && NoneShown(sides.local, mutations[n..])
        invariant whole == After(done, EditAll(p, issue, sides, mutations[n..]))
      {
        var mutation := mutations[n];
        ghost var left, items, nextId := mutations[n..], remote.items, remote.nextId;
        assert left[0] == mutation && left[1..] == mutations[n + 1..];
        DistinctChanges(left);
        StillNoneShown(p, issue, sides, left);
        RowWritten(before, issue, sides);
        NextEdit(p, issue, sides, left, done);
        ghost var e := TryEdit(p, issue, sides, mutation);
        var edited := EditField(row, mutation);
        IdsStayKept(old(remote.items), old(remote.nextId), items, nextId, remote.items, remote.nextId);
        RowRewritten(before, issue, sides, e.row);
        if !edited {
          return false;
        }
        done := done + e.commands;
        sides := e.row;
      }
      LastEdit(p, issue, sides, mutations[|mutations|..], done);
      return true;
    }

    /** `execute_add` once the row is there: the mutations are chosen first. */
    method BringToDesired(live: LiveRow, op: Operation) returns (mutated: bool, ok: bool)
      requires Valid() && live in byItemId.Values && op.AddRow?
      modifies remote, live
      ensures Valid() && IdsKept(old(remote.items), old(remote.nextId), remote.items, remote.nextId)
      ensures live.issue in old(Both()).local && live.issue in old(Both()).remote
      ensures var e := EditAll(remote.project, live.issue, SidesOf(old(Both()), live.issue), Wanted(op));
        && ok == e.ok && (ok ==> (mutated <==> e.commands != []))
        && Both() == WithRow(old(Both()), live.issue, e.row)
        && remote.log == old(remote.log) + e.commands
    {
      hide RowsOf, Lists, WellFormedSchema, Captured, OneItemPerIssue, ValueMatches, TryEdit, EditAll, WithRow,
        NoneShown;
      hide DistinctKeys;
      RowIsListed(live);
      ghost var sides := SidesOf(Both(), live.issue);
      MissingSuffices(remote.project, live.issue, sides, Wanted(op));
      MissingAreChanges(live.fields, Wanted(op));
      var mutations := DesiredAddMutations(live.fields, op.desired);
      if EditAll(remote.project, live.issue, sides, mutations).ok {
        MissingIsEdited(remote.project, live.issue, sides, mutations);
      }
      ok := ApplyMutations(live, mutations);
      mutated := mutations != [];
    }

    method ExecuteDelete(planned: PlannedOperation) returns (status: Status)
      requires Valid() && IdFits(planned, remote.items, remote.nextId) && planned.op.DeleteRow?
      modifies this, remote, byItemId.Values
      ensures Valid() && fresh(byItemId.Values - old(byItemId.Values))
      ensures IdsKept(old(remote.items), old(remote.nextId), remote.items, remote.nextId)
      ensures Operated(Both(), LogSince(remote.log, old(remote.log)), status)
           == Operate(remote.project, planned.op, old(Both()))
      ensures old(remote.log) <= remote.log
    {
      hide RowsOf, Lists, WellFormedSchema, OneItemPerIssue, Captured, EditAll, OperateOn, AddedRow, Wanted, IdFits;
      var issue := planned.op.issue;
      var row := CurrentRow(planned);
      if row.None? {
        return AlreadySatisfied;
      }
      RowIsListed(row.value);
      var id := row.value.itemId;
      ghost var local := LocalItems(byItemId);
      LocalIsOnePerIssue(byItemId, byIssueUrl, remote.items);
      RowsWithout(local, id);
      DeleteKeepsCapture(byItemId, byIssueUrl, remote.items, id);
      remote.ItemDelete(id);
      byIssueUrl := byIssueUrl - {issue};
      byItemId := byItemId - {id};
      assert LocalItems(byItemId) == local - {id};
      return AppliedNow;
    }

    method ExecuteUpdate(planned: PlannedOperation) returns (status: Status)
      requires Valid() && IdFits(planned, remote.items, remote.nextId) && planned.op.UpdateRow?
      modifies this, remote, byItemId.Values
      ensures Valid() && fresh(byItemId.Values - old(byItemId.Values))
      ensures IdsKept(old(remote.items), old(remote.nextId), remote.items, remote.nextId)
      ensures Operated(Both(), LogSince(remote.log, old(remote.log)), status)
           == Operate(remote.project, planned.op, old(Both()))
      ensures old(remote.log) <= remote.log
    {
      hide RowsOf, Lists, WellFormedSchema, OneItemPerIssue, Captured, EditAll, WithRow;
      var row := CurrentRow(planned);
      if row.None? {
        return Failed;
      }
      var applied, ok := ApplyMissing(row.value, planned.op.changes);
      return if !ok then Failed else if applied == 0 then AlreadySatisfied else AppliedNow;
    }

    method ExecuteAdd(planned: PlannedOperation) returns (status: Status)
      requires Valid() && IdFits(planned, remote.items, remote.nextId) && planned.op.AddRow?
      modifies this, remote, byItemId.Values
      ensures Valid() && fresh(byItemId.Values - old(byItemId.Values))
      ensures IdsKept(old(remote.items), old(remote.nextId), remote.items, remote.nextId)
      ensures Operated(Both(), LogSince(remote.log, old(remote.log)), status)
           == Operate(remote.project, planned.op, old(Both()))
      ensures old(remote.log) <= remote.log
    {
      hide RowsOf, Lists, WellFormedSchema, OneItemPerIssue, Captured, EditAll, WithRow, AddedRow, IdsKept, Wanted;
      var row := CurrentRow(planned);
      var live: LiveRow;
      if row.None? {
        live := AddAndLocate(planned.op.issue);
      } else {
        IdsKeptAtFirst(remote.items, remote.nextId);
        live := row.value;
      }
      ghost var items, nextId := remote.items, remote.nextId;
      var mutated, ok := BringToDesired(live, planned.op);
      IdsStayKept(old(remote.items), old(remote.nextId), items, nextId, remote.items, remote.nextId);
      return if !ok then Failed else if row.Some? && !mutated then AlreadySatisfied else AppliedNow;
    }

    /** Adds the row, captures the board again and finds the row by the id the command reports, or by
        its issue if it reports none. */
    method AddAndLocate(issue: string) returns (row: LiveRow)
      requires Valid() && issue !in remote.Rows()
      modifies this, remote
      ensures Valid() && fresh(byItemId.Values) && row in byItemId.Values && row.issue == issue
      ensures IdsKept(old(remote.items), old(remote.nextId), remote.items, remote.nextId)
      ensures var captured := old(remote.Rows())[issue := AddedRow(remote.project, issue)];
        Both() == Boards(captured, captured)
      ensures remote.log == old(remote.log) + [ItemAdd(issue)]
    {
      hide RowsOf, Lists, WellFormedSchema, OneItemPerIssue, AddedRow;
      var id := remote.ItemAdd(issue);
      Refresh();
      CurrentRowExists(issue);
      var reported: bool := *;
      row := if reported then byItemId[id] else byIssueUrl[issue];
    }

    method ExecuteOperation(planned: PlannedOperation) returns (status: Status)
      requires Valid() && IdFits(planned, remote.items, remote.nextId)
      modifies this, remote, byItemId.Values
      ensures Valid() && fresh(byItemId.Values - old(byItemId.Values))
      ensures IdsKept(old(remote.items), old(remote.nextId), remote.items, remote.nextId)
      ensures Operated(Both(), LogSince(remote.log, old(remote.log)), status)
           == Operate(remote.project, planned.op, old(Both()))
      ensures old(remote.log) <= remote.log
    {
      hide Operate, LogSince;
      match planned.op
      case DeleteRow(_) => status := ExecuteDelete(planned);
      case AddRow(_, _) => status := ExecuteAdd(planned);
      case UpdateRow(_, _) => status := ExecuteUpdate(planned);
    }

    /** The loop of `apply_plan`: operation after operation, up to the first failure. */
    method ApplyOperations(plan: seq<PlannedOperation>) returns (statuses: seq<Status>, ok: bool)
      requires Valid()
      requires forall planned | planned in plan :: IdFits(planned, remote.items, remote.nextId)
      modifies this, remote, byItemId.Values
      ensures Valid() && fresh(byItemId.Values - old(byItemId.Values))
      ensures old(remote.log) <= remote.log
      ensures BothOutcome(LogSince(remote.log, old(remote.log)), Both(), statuses, ok)
           == RunBoth(remote.project, OperationsOf(plan), old(Both()))
    {
      hide RowsOf, Lists, WellFormedSchema, OneItemPerIssue, Captured, Operate, RunBoth, LogSince;
      LogIsBoth(remote.log);
      ghost var p := remote.project;
      ghost var ops := OperationsOf(plan);
      ghost var whole := RunBoth(p, ops, Both());
      ghost var first := remote.log;
      statuses := [];
      assert ops[0..] == ops;
      NothingRun(whole, first);
      for n := 0 to |plan|
        invariant Valid() && fresh(byItemId.Values - old(byItemId.Values))
        invariant forall planned | planned in plan :: IdFits(planned, remote.items, remote.nextId)
        invariant first <= remote.log
        invariant whole == AfterRun(LogSince(remote.log, first), statuses, RunBoth(p, ops[n..], Both()))
      {
        ghost var before, log, done := Both(), remote.log, statuses;
        assert ops[n..][0] == plan[n].op && ops[n..][1..] == ops[n + 1..];
        assert plan[n] in plan;
        var status := ExecuteOperation(plan[n]);
        statuses := statuses + [status];
        NextOperation(p, ops[n..], before, first, log, remote.log, done);
        if status == Failed {
          return statuses, false;
        }
      }
      LastOperation(p, ops[|plan|..], Both(), LogSince(remote.log, first), statuses);
      ok := true;
    }

    /** `finalize_results`: a new capture, the number of its rows, and a look at the row of every
        operation. */
    method FinalizeResults(plan: seq<PlannedOperation>, total: nat) returns (ok: bool)
      requires Valid()
      modifies this
      ensures Valid() && fresh(byItemId.Values) && Both() == Boards(remote.Rows(), remote.Rows())
      ensures ok <==> FinalCheck(total, OperationsOf(plan), remote.Rows())
    {
      hide RowsOf, Lists, WellFormedSchema, OneItemPerIssue, Captured, AllRight;
      Refresh();
      OneRowPerItem(remote.items);
      SameKeysSameSize(byItemId, remote.items);
      if |byItemId| != total {
        return false;
      }
      ok := FinalRows(plan);
    }

    method FinalRows(plan: seq<PlannedOperation>) returns (ok: bool)
      requires Valid() && Both().local == remote.Rows()
      ensures ok <==> AllRight(OperationsOf(plan), remote.Rows())
    {
      hide RowsOf, Lists, WellFormedSchema, OneItemPerIssue, Captured, FinallyRight;
      ghost var ops := OperationsOf(plan);
      for n := 0 to |plan|
        invariant AllRight(ops[..n], remote.Rows())
      {
        assert ops[..n + 1] == ops[..n] + [plan[n].op];
        assert plan[n].op in ops;
        var right := FinalRow(plan[n].op);
        if !right {
          return false;
        }
      }
      assert ops[..|plan|] == ops;
      ok := true;
    }

    /** `ensure_matching_final_state`, or the row's absence. */
    method FinalRow(op: Operation) returns (ok: bool)
      requires Valid() && Both().local == remote.Rows()
      ensures ok <==> FinallyRight(op, remote.Rows())
    {
      hide RowsOf, Lists, WellFormedSchema, OneItemPerIssue, Captured, Wanted, ValueMatches;
      CurrentRowExists(op.issue);
      if op.DeleteRow? || op.issue !in byIssueUrl {
        return op.DeleteRow? && op.issue !in byIssueUrl;
      }
      var row := byIssueUrl[op.issue];
      RowOfIssue(op.issue);
      RowIsListed(row);
      var changes := Wanted(op);
      for n := 0 to |changes|
        invariant FieldsMatch(row.fields, changes[..n])
      {
        assert changes[..n + 1] == changes[..n] + [changes[n]];
        if Checked(changes[n]) && !ValueMatches(row.fields[changes[n].key], changes[n].after) {
          assert changes[n] in changes;
          return false;
        }
      }
      assert changes[..|changes|] == changes;
      ok := true;
    }

    lemma RowOfIssue(issue: string)
      requires Valid() && issue in byIssueUrl
      ensures byIssueUrl[issue] in byItemId.Values && byIssueUrl[issue].issue == issue
    {
      hide RowsOf;
      assert byItemId[byIssueUrl[issue].itemId] == byIssueUrl[issue];
    }

    /** `apply_plan`: the operations, then the check. Commands, statuses and remote board are those of
        the run defined on two boards, and the verdict is that run's together with the check's. For a
        plan of the current schema and a fresh capture, they are those of the run on one board, and
        if the plan's issues are distinct nothing but the total can fail in the check. */
    method ApplyPlan(plan: seq<PlannedOperation>, total: nat) returns (statuses: seq<Status>, ok: bool)
      requires Valid()
      requires forall planned | planned in plan :: IdFits(planned, remote.items, remote.nextId)
      modifies this, remote, byItemId.Values
      ensures Valid() && fresh(byItemId.Values - old(byItemId.Values))
      ensures var run := RunBoth(remote.project, OperationsOf(plan), old(Both()));
        && remote.log == old(remote.log) + run.commands
        && remote.Rows() == run.boards.remote && statuses == run.statuses
        && Both().local == (if run.ok then run.boards.remote else run.boards.local)
        && (ok <==> run.ok && FinalCheck(total, OperationsOf(plan), run.boards.remote))
      ensures old(Both()).local == old(Both()).remote && PlannedOperations(remote.project, OperationsOf(plan)) ==>
        var run := Run(remote.project, OperationsOf(plan), old(remote.Rows()));
        && remote.log == old(remote.log) + run.commands
        && Both() == Boards(run.board, run.board) && statuses == run.statuses
        && (DistinctTargets(OperationsOf(plan)) ==> (ok <==> run.ok && |run.board| == total))
    {
      hide RowsOf, Lists, WellFormedSchema, OneItemPerIssue, Captured, RunBoth, Run, PlannedOperations,
        DistinctTargets, FinalCheck;
      ghost var p, ops, before := remote.project, OperationsOf(plan), Both();
      if before.local == before.remote && PlannedOperations(p, ops) {
        BothIsRun(p, ops, before.remote);
        if DistinctTargets(ops) && Run(p, ops, before.remote).ok {
          SuccessIsRight(p, ops, before.remote, total);
        }
      }
      LogIsBoth(remote.log);
      statuses, ok := ApplyOperations(plan);
      if ok {
        ok := FinalizeResults(plan, total);
      }
    }
  }

  lemma SameKeysSameSize(ids: map<nat, LiveRow>, items: map<nat, BoardItem>)
    requires ids.Keys == items.Keys
    ensures |ids| == |items|
  {
    assert |ids| == |ids.Keys| && |items| == |items.Keys|;
  }

  lemma LogIsBoth(before: seq<Command>)
    ensures forall log | before <= log :: log == before + LogSince(log, before)
  {
  }

  /** The commands logged since a moment. */
  function LogSince(log: seq<Command>, before: seq<Command>): seq<Command> {
    if |before| <= |log| then log[|before|..] else []
  }

  lemma DeleteKeepsCapture(ids: map<nat, LiveRow>, urls: map<string, LiveRow>, items: map<nat, BoardItem>, id: nat)
    requires Captured(ids, urls, items) && id in ids
    ensures Captured(ids - {id}, urls - {ids[id].issue}, items - {id})
  {
  }

  /** The outcome of a run whose first operations are done. */
  function AfterRun(done: seq<Command>, statuses: seq<Status>, rest: BothOutcome): BothOutcome {
    BothOutcome(done + rest.commands, rest.boards, statuses + rest.statuses, rest.ok)
  }

  lemma NothingRun(whole: BothOutcome, log: seq<Command>)
    ensures whole == AfterRun(LogSince(log, log), [], whole)
  {
  }

  lemma NextOperation(p: Project, ops: seq<Operation>, b: Boards, first: seq<Command>, log: seq<Command>,
      logAfter: seq<Command>, statuses: seq<Status>)
    requires WellFormedSchema(p.schema) && SameRows(b) && ops != []
    requires first <= log <= logAfter && LogSince(logAfter, log) == Operate(p, ops[0], b).commands
    ensures first <= logAfter
    ensures var o := Operate(p, ops[0], b);
      AfterRun(LogSince(log, first), statuses, RunBoth(p, ops, b)) ==
        if o.status == Failed then BothOutcome(LogSince(logAfter, first), o.boards, statuses + [Failed], false)
        else AfterRun(LogSince(logAfter, first), statuses + [o.status], RunBoth(p, ops[1..], o.boards))
  {
    hide Operate, WellFormedSchema, SameRows, LogSince, RunBoth, AfterRun;
    var o := Operate(p, ops[0], b);
    LogGrows(first, log, logAfter);
    RunNext(p, ops, b);
    if o.status == Failed {
      AfterFailure(LogSince(log, first), statuses, o);
    } else {
      AfterSuccess(LogSince(log, first), statuses, o, RunBoth(p, ops[1..], o.boards));
    }
  }

  function Prefixed(o: Operated, rest: BothOutcome): BothOutcome {
    BothOutcome(o.commands + rest.commands, rest.boards, [o.status] + rest.statuses, rest.ok)
  }

  lemma RunNext(p: Project, ops: seq<Operation>, b: Boards)
    requires WellFormedSchema(p.schema) && SameRows(b) && ops != []
    ensures var o := Operate(p, ops[0], b);
      RunBoth(p, ops, b) ==
        if o.status == Failed then BothOutcome(o.commands, o.boards, [Failed], false)
        else Prefixed(o, RunBoth(p, ops[1..], o.boards))
  {
    hide Operate, WellFormedSchema, SameRows;
  }

  lemma AfterFailure(done: seq<Command>, statuses: seq<Status>, o: Operated)
    ensures AfterRun(done, statuses, BothOutcome(o.commands, o.boards, [Failed], false))
         == BothOutcome(done + o.commands, o.boards, statuses + [Failed], false)
  {
  }

  lemma AfterSuccess(done: seq<Command>, statuses: seq<Status>, o: Operated, rest: BothOutcome)
    ensures AfterRun(done, statuses, Prefixed(o, rest)) == AfterRun(done + o.commands, statuses + [o.status], rest)
  {
    assert done + (o.commands + rest.commands) == done + o.commands + rest.commands;
    assert statuses + ([o.status] + rest.statuses) == statuses + [o.status] + rest.statuses;
  }

  lemma LogGrows(first: seq<Command>, log: seq<Command>, logAfter: seq<Command>)
    requires first <= log <= logAfter
    ensures first <= logAfter
    ensures LogSince(logAfter, first) == LogSince(log, first) + LogSince(logAfter, log)
  {
    assert logAfter[..|first|] == log[..|first|];
  }

  lemma LastOperation(p: Project, ops: seq<Operation>, b: Boards, done: seq<Command>, statuses: seq<Status>)
    requires WellFormedSchema(p.schema) && SameRows(b) && ops == []
    ensures AfterRun(done, statuses, RunBoth(p, ops, b)) == BothOutcome(done, b, statuses, true)
  {
    assert done + [] == done && statuses + [] == statuses;
  }

  lemma RowWritten(b: Boards, issue: string, row: Sides)
    ensures var w := WithRow(b, issue, row);
      issue in w.local && issue in w.remote && SidesOf(w, issue) == row
  {
  }

  lemma RowRewritten(b: Boards, issue: string, row: Sides, next: Sides)
    ensures WithRow(WithRow(b, issue, row), issue, next) == WithRow(b, issue, next)
  {
  }

  lemma NothingDone(e: Edited)
    ensures After([], e) == e
  {
  }

  /** The outcome of edits that come after the given commands. */
  function After(done: seq<Command>, e: Edited): Edited {
    Edited(e.row, done + e.commands, e.ok)
  }

  /** A change that shows is passed over; another is tried, and the rest follows if it is carried
      out. */
  lemma NextEdit(p: Project, issue: string, row: Sides, changes: seq<Change>, done: seq<Command>)
    requires WellFormedSchema(p.schema) && changes != []
    ensures var e := TryEdit(p, issue, row, changes[0]);
      After(done, EditAll(p, issue, row, changes)) ==
        if ValueMatches(row.local[changes[0].key], changes[0].after)
        then After(done, EditAll(p, issue, row, changes[1..]))
        else if !e.ok then Edited(row, done, false)
        else After(done + e.commands, EditAll(p, issue, e.row, changes[1..]))
    ensures var e := TryEdit(p, issue, row, changes[0]);
      if e.ok then |e.commands| == 1 else e == Edited(row, [], false)
  {
    hide ValueMatches, WellFormedSchema;
    var e := TryEdit(p, issue, row, changes[0]);
    assert done + [] == done;
    if e.ok {
      var rest := EditAll(p, issue, e.row, changes[1..]);
      assert done + (e.commands + rest.commands) == done + e.commands + rest.commands;
    }
  }

  lemma LastEdit(p: Project, issue: string, row: Sides, changes: seq<Change>, done: seq<Command>)
    requires WellFormedSchema(p.schema) && changes == []
    ensures After(done, EditAll(p, issue, row, changes)) == Edited(row, done, true)
  {
    assert done + [] == done;
  }
}
