/** When the retained rows can still be planned after rows have been deleted, added or changed. */
module ReplanSuccess {
  import opened Wrappers
  import opened BoardModel
  import opened Inheritance
  import opened ProjectPlan
  import opened PlanFixpoint

  // ---- What keeps planning possible ----

  /** An inherited field that had a value still has one, and a new value can be planned. */
  ghost predicate StillUsable(s: Snapshot, later: Board, handle: string, key: FieldKey)
    requires handle in s.items && handle in later
  {
    var was, now := Normalize(s.items[handle][key].value), Normalize(later[handle][key].value);
    (was.Some? ==> now.Some?) && (now != was ==> DesiredField(s.schema, key, now).Ok?)
  }

  ghost predicate KeepsStatus(s: Snapshot, later: Board, row: RetainedRow)
    requires row.handle in s.items && row.handle in later
  {
    InferStatus(row.closed, Normalize(later[row.handle][Status].value))
      == InferStatus(row.closed, Normalize(s.items[row.handle][Status].value))
  }

  /** Rows may go, but the others stay usable and retained rows keep their status. */
  ghost predicate KeepsUsable(s: Snapshot, rows: seq<RetainedRow>, gone: set<string>, later: Board) {
    && AllPlanned(s, rows)
    && (forall handle | handle in s.items && handle !in gone :: handle in later)
    && (forall handle, key: FieldKey {:trigger StillUsable(s, later, handle, key)} |
          handle in s.items && handle !in gone && Inherited(key) :: StillUsable(s, later, handle, key))
    && (forall row | row in rows :: row.handle !in gone && KeepsStatus(s, later, row))
  }

  ghost predicate UsableChain(s: Snapshot, later: Board, key: FieldKey, handle: string, chain: seq<string>) {
    && SourceChain(later, s.parents, key, handle, chain)
    && ChainValue(later, key, chain).Some?
    && DesiredField(s.schema, key, ChainValue(later, key, chain)).Ok?
  }

  lemma UsableLonger(s: Snapshot, later: Board, key: FieldKey, handle: string, tail: seq<string>)
    requires Blank(later, key, handle) && handle in s.parents && UsableChain(s, later, key, s.parents[handle], tail)
    ensures UsableChain(s, later, key, handle, [handle] + tail)
  {
    hide DesiredField;
    ChainPrepend(later, s.parents, key, handle, tail);
    assert ([handle] + tail)[|tail|] == tail[|tail| - 1];
  }

  lemma UsableHere(s: Snapshot, later: Board, key: FieldKey, handle: string)
    requires handle in later && !Blank(later, key, handle)
    requires DesiredField(s.schema, key, Normalize(later[handle][key].value)).Ok?
    ensures UsableChain(s, later, key, handle, [handle])
  {
  }

  /** A source chain of rows that stay leads to some value that can be planned. */
  lemma {:induction false} ChainStays(s: Snapshot, rows: seq<RetainedRow>, gone: set<string>, later: Board,
      key: FieldKey, handle: string, chain: seq<string>)
    returns (other: seq<string>)
    requires KeepsUsable(s, rows, gone, later) && Inherited(key)
    requires SourceChain(s.items, s.parents, key, handle, chain) && Avoids(chain, gone)
    requires chain != [] && HasField(s.items, key, chain[|chain| - 1])
    requires DesiredField(s.schema, key, ChainValue(s.items, key, chain)).Ok?
    ensures UsableChain(s, later, key, handle, other)
    decreases |chain|
  {
    hide SourceChain, UsableChain, DesiredField, AllPlanned;
    ChainStart(s.items, s.parents, key, handle, chain);
    assert StillUsable(s, later, handle, key);
    if Blank(later, key, handle) {
      ChainTail(s.items, s.parents, key, handle, chain);
      assert forall h | h in chain[1..] :: h in chain;
      assert chain[1..][|chain| - 2] == chain[|chain| - 1];
      var tail := ChainStays(s, rows, gone, later, key, s.parents[handle], chain[1..]);
      other := [handle] + tail;
      UsableLonger(s, later, key, handle, tail);
    } else {
      if Normalize(later[handle][key].value) == Normalize(s.items[handle][key].value) {
        OwnSource(s.items, s.parents, key, handle, chain);
      }
      UsableHere(s, later, key, handle);
      other := [handle];
    }
  }

  /** A row with a value is its own source. */
  lemma OwnSource(items: Items, parents: map<string, string>, key: FieldKey, handle: string, chain: seq<string>)
    requires SourceChain(items, parents, key, handle, chain) && HasField(items, key, handle)
    requires !Blank(items, key, handle)
    ensures chain == [handle]
  {
    assert SourceChain(items, parents, key, handle, [handle]);
    SourceChainIsUnique(items, parents, key, handle, chain, [handle]);
  }

  // ---- Planning still succeeds ----

  lemma StillInherits(s: Snapshot, rows: seq<RetainedRow>, gone: set<string>, later: Board, row: RetainedRow,
      key: FieldKey)
    requires KeepsUsable(s, rows, gone, later) && row in rows && RowAvoids(s, row, gone) && Inherits(s, row, key)
    ensures PlainResolve(later, s.parents, key, row.handle, {}).Ok?
    ensures DesiredField(s.schema, key, Some(PlainResolve(later, s.parents, key, row.handle, {}).value.value)).Ok?
  {
    hide PlainResolve, DesiredRow, DesiredField;
    DesiredRowFields(s, row);
    assert DesiredFor(s, row, key).Ok?;
    var was := PlainResolve(s.items, s.parents, key, row.handle, {});
    PlainResolveIsAnswer(s.items, s.parents, key, row.handle);
    ChainDecides(s.items, s.parents, key, row.handle, was.value.chain);
    var other := ChainStays(s, rows, gone, later, key, row.handle, was.value.chain);
    ChainDecides(later, s.parents, key, row.handle, other);
  }

  lemma StillDesired(s: Snapshot, rows: seq<RetainedRow>, gone: set<string>, later: Board, row: RetainedRow,
      key: FieldKey)
    requires KeepsUsable(s, rows, gone, later) && row in rows && RowAvoids(s, row, gone)
    ensures DesiredFor(s.(items := later), row, key).Ok?
  {
    hide PlainResolve, DesiredRow, DesiredField, RowAvoids;
    DesiredRowFields(s, row);
    assert DesiredFor(s, row, key).Ok?;
    if Inherited(key) {
      StillDesiredInherited(s, rows, gone, later, row, key);
    } else if key == Status {
      assert KeepsStatus(s, later, row);
    }
  }

  lemma StillDesiredInherited(s: Snapshot, rows: seq<RetainedRow>, gone: set<string>, later: Board, row: RetainedRow,
      key: FieldKey)
    requires KeepsUsable(s, rows, gone, later) && row in rows && RowAvoids(s, row, gone) && Inherited(key)
    requires row.handle in s.items && DesiredFor(s, row, key).Ok?
    ensures DesiredFor(s.(items := later), row, key).Ok?
  {
    hide PlainResolve, DesiredRow, RowAvoids, DesiredField;
    assert StillUsable(s, later, row.handle, key);
    NothingDesired(s.schema, key);
    if Inherits(s, row, key) {
      StillInherits(s, rows, gone, later, row, key);
    }
  }

  lemma NothingDesired(schema: Schema, key: FieldKey)
    ensures DesiredField(schema, key, None).Ok?
  {
  }

  /** If the source chains of the retained rows pass through rows that stay, planning still
      succeeds. */
  lemma StillPlans(s: Snapshot, rows: seq<RetainedRow>, gone: set<string>, later: Board)
    requires KeepsUsable(s, rows, gone, later) && ChainsAvoid(s, rows, gone)
    ensures UpdatePlan(s.(items := later), rows).Ok?
  {
    hide DesiredRow, DesiredFor, RowAvoids, UpdatePlan;
    var again := s.(items := later);
    forall row | row in rows ensures row.handle in again.items && DesiredRow(again, row).Ok? {
      forall key: FieldKey ensures DesiredFor(again, row, key).Ok? {
        StillDesired(s, rows, gone, later, row, key);
      }
      DesiredRowFields(again, row);
    }
    PlansIffAllPlanned(again, rows);
  }

  // ---- Planning fails when a source is gone ----

  /** Rows may have gone, and nothing else has happened. */
  ghost predicate OnlyFewer(items: Board, later: Board) {
    forall handle | handle in later :: handle in items && later[handle] == items[handle]
  }

  lemma ChainOfFewer(s: Snapshot, later: Board, key: FieldKey, handle: string, chain: seq<string>)
    requires OnlyFewer(s.items, later) && SourceChain(later, s.parents, key, handle, chain)
    ensures SourceChain(s.items, s.parents, key, handle, chain)
    ensures forall h | h in chain :: h in later
  {
    forall i | 0 <= i < |chain| ensures chain[i] in later {
      assert i < |chain| - 1 ==> Blank(later, key, chain[i]);
    }
  }

  /** A row whose source chain has lost a row cannot be planned. */
  lemma LostSource(s: Snapshot, rows: seq<RetainedRow>, later: Board, row: RetainedRow, key: FieldKey, lost: string)
    requires AllPlanned(s, rows) && OnlyFewer(s.items, later) && row in rows && row.handle in later
    requires Inherits(s, row, key) && PlainResolve(s.items, s.parents, key, row.handle, {}).Ok?
    requires lost in PlainResolve(s.items, s.parents, key, row.handle, {}).value.chain && lost !in later
    ensures UpdatePlan(s.(items := later), rows).Err?
  {
    hide PlainResolve, DesiredRow, UpdatePlan, SourceChain;
    var again := s.(items := later);
    PlainResolveIsAnswer(s.items, s.parents, key, row.handle);
    var chain := PlainResolve(s.items, s.parents, key, row.handle, {}).value.chain;
    forall other: seq<string> ensures !SourceChain(later, s.parents, key, row.handle, other) {
      if SourceChain(later, s.parents, key, row.handle, other) {
        ChainOfFewer(s, later, key, row.handle, other);
        SourceChainIsUnique(s.items, s.parents, key, row.handle, chain, other);
      }
    }
    ResolvesIffChain(later, s.parents, key, row.handle);
    DesiredRowFields(again, row);
    assert DesiredFor(again, row, key).Err?;
    PlansIffAllPlanned(again, rows);
  }
}
