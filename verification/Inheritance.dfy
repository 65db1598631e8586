/** Filling a blank field from the nearest ancestor issue that has it, with a cache of answers
    (scripts/lib/m057_project_mutation_plan.py). */
module Inheritance {
  import opened Wrappers
  import opened BoardModel

  /** The rows of the live board by issue handle. */
  type Items = map<string, map<FieldKey, Field>>

  datatype Resolved = Resolved(value: string, source: string, chain: seq<string>)

  datatype ResolveError =
    | Cyclic(handle: string)
    | MissingItem(handle: string)
    | MissingField(handle: string)
    | NoParent(handle: string)
    | ParentNotOnBoard(handle: string, parent: string)

  type Answer = Result<Resolved, ResolveError>

  // ---- What the answer should be ----

  predicate HasField(items: Items, key: FieldKey, handle: string) {
    handle in items && key in items[handle]
  }

  predicate Blank(items: Items, key: FieldKey, handle: string) {
    HasField(items, key, handle) && Normalize(items[handle][key].value).None?
  }

  /** A walk up the parent links through rows whose field is blank. */
  ghost predicate Trail(items: Items, parents: map<string, string>, key: FieldKey, trail: seq<string>) {
    && trail != []
    && forall i | 0 <= i < |trail| - 1 ::
         Blank(items, key, trail[i]) && trail[i] in parents && parents[trail[i]] == trail[i + 1]
  }

  ghost predicate NoRepeats(s: seq<string>) {
    forall i, j | 0 <= i < j < |s| :: s[i] != s[j]
  }

  /** The walk ends at a row that has a value. */
  ghost predicate SourceChain(items: Items, parents: map<string, string>, key: FieldKey, handle: string,
      chain: seq<string>)
  {
    && Trail(items, parents, key, chain)
    && chain[0] == handle
    && HasField(items, key, chain[|chain| - 1]) && !Blank(items, key, chain[|chain| - 1])
  }

  /** The walk cannot go on, for the given reason. */
  ghost predicate DeadEnd(items: Items, parents: map<string, string>, key: FieldKey, trail: seq<string>,
      error: ResolveError)
  {
    && Trail(items, parents, key, trail)
    && NoRepeats(trail[..|trail| - 1])
    && var last := trail[|trail| - 1];
       && error.handle == last
       && match error
          case Cyclic(_) => last in trail[..|trail| - 1]
          case MissingItem(_) => |trail| == 1 && last !in items
          case MissingField(_) => last !in trail[..|trail| - 1] && last in items && key !in items[last]
          case NoParent(_) => last !in trail[..|trail| - 1] && Blank(items, key, last) && last !in parents
          case ParentNotOnBoard(_, parent) =>
            && last !in trail[..|trail| - 1] && Blank(items, key, last)
            && last in parents && parents[last] == parent && parent !in items
  }

  ghost predicate IsAnswer(items: Items, parents: map<string, string>, key: FieldKey, handle: string, r: Answer) {
    match r
    case Ok(found) =>
      && SourceChain(items, parents, key, handle, found.chain)
      && NoRepeats(found.chain)
      && found.source == found.chain[|found.chain| - 1]
      && Normalize(items[found.source][key].value) == Some(found.value)
    case Err(error) =>
      exists trail: seq<string> :: |trail| > 0 && trail[0] == handle && DeadEnd(items, parents, key, trail, error)
  }

  // ---- There is one answer ----

  lemma {:induction false} TrailsAgree(items: Items, parents: map<string, string>, key: FieldKey, s: seq<string>,
      t: seq<string>, i: nat)
    requires Trail(items, parents, key, s) && Trail(items, parents, key, t) && s[0] == t[0]
    requires i < |s| && i < |t|
    ensures s[i] == t[i]
  {
    if i > 0 {
      TrailsAgree(items, parents, key, s, t, i - 1);
    }
  }

  /** Coming back to the same row, the walk would go round for ever. */
  lemma {:induction false} RepeatsShift(items: Items, parents: map<string, string>, key: FieldKey, t: seq<string>,
      i: nat, j: nat, k: nat)
    requires Trail(items, parents, key, t) && i < j && j + k < |t| && t[i] == t[j]
    ensures t[i + k] == t[j + k]
  {
    if k > 0 {
      RepeatsShift(items, parents, key, t, i, j, k - 1);
    }
  }

  lemma SourceChainHasNoRepeats(items: Items, parents: map<string, string>, key: FieldKey, handle: string,
      chain: seq<string>)
    requires SourceChain(items, parents, key, handle, chain)
    ensures NoRepeats(chain)
  {
    forall i, j | 0 <= i < j < |chain| ensures chain[i] != chain[j] {
      if chain[i] == chain[j] {
        var k := |chain| - 1 - j;
        RepeatsShift(items, parents, key, chain, i, j, k);
      }
    }
  }

  lemma SourceChainIsUnique(items: Items, parents: map<string, string>, key: FieldKey, handle: string, c: seq<string>,
      d: seq<string>)
    requires SourceChain(items, parents, key, handle, c) && SourceChain(items, parents, key, handle, d)
    ensures c == d
  {
    forall i | 0 <= i < |c| && i < |d| ensures c[i] == d[i] {
      TrailsAgree(items, parents, key, c, d, i);
    }
  }

  lemma NoWayPastDeadEnd(items: Items, parents: map<string, string>, key: FieldKey, trail: seq<string>,
      error: ResolveError, other: seq<string>)
    requires DeadEnd(items, parents, key, trail, error) && Trail(items, parents, key, other) && other[0] == trail[0]
    requires |trail| < |other|
    ensures !NoRepeats(other[..|other| - 1]) || error.ParentNotOnBoard?
    ensures error.ParentNotOnBoard? ==> |other| == |trail| + 1 && other[|trail|] !in items
  {
    var n := |trail|;
    forall i | 0 <= i < n ensures trail[i] == other[i] {
      TrailsAgree(items, parents, key, trail, other, i);
    }
    assert Blank(items, key, other[n - 1]);
    if error.Cyclic? {
      var j :| 0 <= j < n - 1 && trail[j] == trail[n - 1];
      var inner := other[..|other| - 1];
      assert inner[j] == inner[n - 1];
    }
    forall i | 0 <= i < |other| - 1 ensures other[i] in items {
      assert Blank(items, key, other[i]);
    }
    assert other[n - 1] in parents && parents[other[n - 1]] == other[n];
  }

  lemma DeadEndExcludesSource(items: Items, parents: map<string, string>, key: FieldKey, handle: string,
      trail: seq<string>, error: ResolveError, chain: seq<string>)
    requires DeadEnd(items, parents, key, trail, error) && trail[0] == handle
    ensures !SourceChain(items, parents, key, handle, chain)
  {
    if SourceChain(items, parents, key, handle, chain) {
      SourceChainHasNoRepeats(items, parents, key, handle, chain);
      if |trail| < |chain| {
        NoWayPastDeadEnd(items, parents, key, trail, error, chain);
      } else {
        forall i | 0 <= i < |chain| ensures trail[i] == chain[i] {
          TrailsAgree(items, parents, key, trail, chain, i);
        }
      }
    }
  }

  lemma DeadEndIsUnique(items: Items, parents: map<string, string>, key: FieldKey, s: seq<string>, d: ResolveError,
      t: seq<string>, e: ResolveError)
    requires DeadEnd(items, parents, key, s, d) && DeadEnd(items, parents, key, t, e) && s[0] == t[0]
    ensures s == t && d == e
  {
    forall i | 0 <= i < |s| && i < |t| ensures s[i] == t[i] {
      TrailsAgree(items, parents, key, s, t, i);
    }
    if |s| < |t| {
      NoWayPastDeadEnd(items, parents, key, s, d, t);
    } else if |t| < |s| {
      NoWayPastDeadEnd(items, parents, key, t, e, s);
    }
  }

  /** Whatever satisfies the definition is the same answer. */
  lemma AnswerIsUnique(items: Items, parents: map<string, string>, key: FieldKey, handle: string, r: Answer, q: Answer)
    requires IsAnswer(items, parents, key, handle, r) && IsAnswer(items, parents, key, handle, q)
    ensures r == q
  {
    match (r, q) {
      case (Ok(a), Ok(b)) =>
        SourceChainIsUnique(items, parents, key, handle, a.chain, b.chain);
      case (Err(d), Err(e)) =>
        var s: seq<string> :| |s| > 0 && s[0] == handle && DeadEnd(items, parents, key, s, d);
        var t: seq<string> :| |t| > 0 && t[0] == handle && DeadEnd(items, parents, key, t, e);
        DeadEndIsUnique(items, parents, key, s, d, t, e);
      case (Ok(a), Err(e)) =>
        var t: seq<string> :| |t| > 0 && t[0] == handle && DeadEnd(items, parents, key, t, e);
        DeadEndExcludesSource(items, parents, key, handle, t, e, a.chain);
      case (Err(d), Ok(b)) =>
        var s: seq<string> :| |s| > 0 && s[0] == handle && DeadEnd(items, parents, key, s, d);
        DeadEndExcludesSource(items, parents, key, handle, s, d, b.chain);
    }
  }

  // ---- The plain definition, without a cache ----

  function PlainResolve(items: Items, parents: map<string, string>, key: FieldKey, handle: string,
      seen: set<string>): Answer
    decreases items.Keys - seen
  {
    if handle in seen then Err(Cyclic(handle))
    else if handle !in items then Err(MissingItem(handle))
    else if key !in items[handle] then Err(MissingField(handle))
    else match Normalize(items[handle][key].value)
      case Some(value) => Ok(Resolved(value, handle, [handle]))
      case None =>
        if handle !in parents then Err(NoParent(handle))
        else if parents[handle] !in items then Err(ParentNotOnBoard(handle, parents[handle]))
        else
          assert items.Keys - (seen + {handle}) < items.Keys - seen by {
            assert handle in items.Keys - seen;
          }
          match PlainResolve(items, parents, key, parents[handle], seen + {handle})
          case Ok(found) => Ok(found.(chain := [handle] + found.chain))
          case Err(error) => Err(error)
  }

  /** `path` is the walk that led to a query, `seen` its set. */
  ghost predicate Reached(items: Items, parents: map<string, string>, key: FieldKey, handle: string,
      path: seq<string>, seen: set<string>)
  {
    && Trail(items, parents, key, path + [handle])
    && NoRepeats(path)
    && (forall x: string :: x in seen <==> x in path)
    && (path != [] ==> handle in items)
  }

  /** A query part way up a walk: a source chain from here, or a dead end of the whole walk. */
  ghost predicate AnswersFrom(items: Items, parents: map<string, string>, key: FieldKey, handle: string,
      path: seq<string>, r: Answer)
  {
    match r
    case Ok(found) => IsAnswer(items, parents, key, handle, r)
    case Err(error) =>
      exists rest: seq<string> :: |rest| > 0 && rest[0] == handle && DeadEnd(items, parents, key, path + rest, error)
  }

  lemma StepUp(items: Items, parents: map<string, string>, key: FieldKey, handle: string, path: seq<string>,
      seen: set<string>)
    requires Reached(items, parents, key, handle, path, seen) && handle !in seen
    requires Blank(items, key, handle) && handle in parents && parents[handle] in items
    ensures Reached(items, parents, key, parents[handle], path + [handle], seen + {handle})
    ensures items.Keys - (seen + {handle}) < items.Keys - seen
  {
    assert handle in items.Keys - seen;
    var longer := path + [handle] + [parents[handle]];
    forall i | 0 <= i < |longer| - 1
      ensures Blank(items, key, longer[i]) && longer[i] in parents && parents[longer[i]] == longer[i + 1]
    {
      assert i < |path| ==> longer[i] == (path + [handle])[i] && longer[i + 1] == (path + [handle])[i + 1];
    }
  }

  lemma FoundHere(items: Items, parents: map<string, string>, key: FieldKey, handle: string, path: seq<string>,
      value: string)
    requires HasField(items, key, handle) && Normalize(items[handle][key].value) == Some(value)
    ensures AnswersFrom(items, parents, key, handle, path, Ok(Resolved(value, handle, [handle])))
  {
  }

  /** A found value does not depend on how the query was reached. */
  lemma FoundAnywhere(items: Items, parents: map<string, string>, key: FieldKey, handle: string, path: seq<string>,
      found: Resolved)
    ensures AnswersFrom(items, parents, key, handle, path, Ok(found))
       <==> IsAnswer(items, parents, key, handle, Ok(found))
  {
  }

  lemma StopsHere(items: Items, parents: map<string, string>, key: FieldKey, handle: string, path: seq<string>,
      seen: set<string>, error: ResolveError)
    requires Reached(items, parents, key, handle, path, seen) && error.handle == handle
    requires match error
      case Cyclic(_) => handle in seen
      case MissingItem(_) => handle !in seen && handle !in items
      case MissingField(_) => handle !in seen && handle in items && key !in items[handle]
      case NoParent(_) => handle !in seen && Blank(items, key, handle) && handle !in parents
      case ParentNotOnBoard(_, parent) =>
        && handle !in seen && Blank(items, key, handle)
        && handle in parents && parents[handle] == parent && parent !in items
    ensures AnswersFrom(items, parents, key, handle, path, Err(error))
  {
    var trail := path + [handle];
    assert trail[..|trail| - 1] == path;
    assert DeadEnd(items, parents, key, path + [handle], error);
  }

  /** The parent's answer, turned into the answer for a blank row. */
  lemma PassesDown(items: Items, parents: map<string, string>, key: FieldKey, handle: string, path: seq<string>,
      r: Answer)
    requires Blank(items, key, handle) && handle in parents
    requires AnswersFrom(items, parents, key, parents[handle], path + [handle], r)
    ensures AnswersFrom(items, parents, key, handle, path,
      match r case Ok(found) => Ok(found.(chain := [handle] + found.chain)) case Err(error) => Err(error))
  {
    match r {
      case Ok(found) =>
        SourceChainHasNoRepeats(items, parents, key, handle, [handle] + found.chain);
      case Err(error) =>
        var rest: seq<string> :| |rest| > 0 && rest[0] == parents[handle]
          && DeadEnd(items, parents, key, path + [handle] + rest, error);
        assert path + [handle] + rest == path + ([handle] + rest);
    }
  }

  lemma {:induction false} PlainResolveAnswers(items: Items, parents: map<string, string>, key: FieldKey,
      handle: string, path: seq<string>, seen: set<string>)
    requires Reached(items, parents, key, handle, path, seen)
    ensures AnswersFrom(items, parents, key, handle, path, PlainResolve(items, parents, key, handle, seen))
    decreases items.Keys - seen
  {
    var r := PlainResolve(items, parents, key, handle, seen);
    if handle in seen || handle !in items || key !in items[handle] {
      StopsHere(items, parents, key, handle, path, seen, r.error);
    } else if Blank(items, key, handle) {
      if handle !in parents || parents[handle] !in items {
        StopsHere(items, parents, key, handle, path, seen, r.error);
      } else {
        StepUp(items, parents, key, handle, path, seen);
        PlainResolveAnswers(items, parents, key, parents[handle], path + [handle], seen + {handle});
        var above := PlainResolve(items, parents, key, parents[handle], seen + {handle});
        PassesDown(items, parents, key, handle, path, above);
      }
    }
  }

  lemma AnswersFromStart(items: Items, parents: map<string, string>, key: FieldKey, handle: string, r: Answer)
    requires AnswersFrom(items, parents, key, handle, [], r)
    ensures IsAnswer(items, parents, key, handle, r)
  {
    if r.Err? {
      var rest: seq<string> :| |rest| > 0 && rest[0] == handle && DeadEnd(items, parents, key, [] + rest, r.error);
      assert [] + rest == rest;
    }
  }

  /** The plain definition terminates with the one answer, for every board and every parent index. */
  lemma PlainResolveIsAnswer(items: Items, parents: map<string, string>, key: FieldKey, handle: string)
    ensures IsAnswer(items, parents, key, handle, PlainResolve(items, parents, key, handle, {}))
  {
    PlainResolveAnswers(items, parents, key, handle, [], {});
    AnswersFromStart(items, parents, key, handle, PlainResolve(items, parents, key, handle, {}));
  }

  /** A value is found exactly when some chain of blank rows leads to it. */
  lemma ResolvesIffChain(items: Items, parents: map<string, string>, key: FieldKey, handle: string)
    ensures PlainResolve(items, parents, key, handle, {}).Ok?
       <==> exists chain: seq<string> :: SourceChain(items, parents, key, handle, chain)
  {
    PlainResolveIsAnswer(items, parents, key, handle);
    var r := PlainResolve(items, parents, key, handle, {});
    if r.Err? {
      var trail: seq<string> :| |trail| > 0 && trail[0] == handle && DeadEnd(items, parents, key, trail, r.error);
      forall chain: seq<string> ensures !SourceChain(items, parents, key, handle, chain) {
        DeadEndExcludesSource(items, parents, key, handle, trail, r.error, chain);
      }
    }
  }

  // ---- The resolver ----

  class InheritanceResolver {
    const liveItemsByHandle: Items
    const parentIndex: map<string, string>
    var cache: map<(string, FieldKey), Resolved>

    constructor (liveItemsByHandle: Items, parentIndex: map<string, string>)
      ensures Valid() && this.liveItemsByHandle == liveItemsByHandle && this.parentIndex == parentIndex
      ensures cache == map[]
    {
      this.liveItemsByHandle := liveItemsByHandle;
      this.parentIndex := parentIndex;
      cache := map[];
    }

    /** Every cached entry is the answer to its query. */
    ghost predicate Valid()
      reads this
    {
      forall query | query in cache :: IsAnswer(liveItemsByHandle, parentIndex, query.1, query.0, Ok(cache[query]))
    }

    /** Whatever was asked before, the answer is the one of the plain definition; only found values
        are remembered, and nothing is forgotten. */
    method Resolve(handle: string, key: FieldKey) returns (r: Answer)
      requires Valid()
      modifies this`cache
      ensures Valid()
      ensures r == PlainResolve(liveItemsByHandle, parentIndex, key, handle, {})
      ensures r.Ok? ==> (handle, key) in cache && cache[(handle, key)] == r.value
      ensures r.Err? ==> cache == old(cache)
      ensures forall query | query in old(cache) :: query in cache && cache[query] == old(cache)[query]
    {
      r := ResolveFrom(handle, key, {}, []);
      AnswersFromStart(liveItemsByHandle, parentIndex, key, handle, r);
      PlainResolveIsAnswer(liveItemsByHandle, parentIndex, key, handle);
      AnswerIsUnique(liveItemsByHandle, parentIndex, key, handle, r,
                     PlainResolve(liveItemsByHandle, parentIndex, key, handle, {}));
    }

    method ResolveFrom(handle: string, key: FieldKey, seen: set<string>, ghost path: seq<string>) returns (r: Answer)
      requires Valid() && Reached(liveItemsByHandle, parentIndex, key, handle, path, seen)
      modifies this`cache
      ensures Valid()
      ensures AnswersFrom(liveItemsByHandle, parentIndex, key, handle, path, r)
      ensures r.Ok? ==> (handle, key) in cache && cache[(handle, key)] == r.value
      ensures r.Err? ==> cache == old(cache)
      ensures forall query | query in old(cache) :: query in cache && cache[query] == old(cache)[query]
      decreases liveItemsByHandle.Keys - seen
    {
      hide IsAnswer, AnswersFrom, Reached;
      var items, parents := liveItemsByHandle, parentIndex;
      if (handle, key) in cache {
        FoundAnywhere(items, parents, key, handle, path, cache[(handle, key)]);
        return Ok(cache[(handle, key)]);
      }
      if handle in seen {
        StopsHere(items, parents, key, handle, path, seen, Cyclic(handle));
        return Err(Cyclic(handle));
      }
      if handle !in items {
        StopsHere(items, parents, key, handle, path, seen, MissingItem(handle));
        return Err(MissingItem(handle));
      }
      if key !in items[handle] {
        StopsHere(items, parents, key, handle, path, seen, MissingField(handle));
        return Err(MissingField(handle));
      }
      var liveValue := Normalize(items[handle][key].value);
      if liveValue.Some? {
        var found := Resolved(liveValue.value, handle, [handle]);
        FoundHere(items, parents, key, handle, path, liveValue.value);
        FoundAnywhere(items, parents, key, handle, path, found);
        cache := cache[(handle, key) := found];
        return Ok(found);
      }
      if handle !in parents {
        StopsHere(items, parents, key, handle, path, seen, NoParent(handle));
        return Err(NoParent(handle));
      }
      var parent := parents[handle];
      if parent !in items {
        StopsHere(items, parents, key, handle, path, seen, ParentNotOnBoard(handle, parent));
        return Err(ParentNotOnBoard(handle, parent));
      }
      StepUp(items, parents, key, handle, path, seen);
      var above := ResolveFrom(parent, key, seen + {handle}, path + [handle]);
      PassesDown(items, parents, key, handle, path, above);
      if above.Err? {
        return above;
      }
      FoundAnywhere(items, parents, key, parent, path + [handle], above.value);
      var resolved := above.value.(chain := [handle] + above.value.chain);
      FoundAnywhere(items, parents, key, handle, path, resolved);
      cache := cache[(handle, key) := resolved];
      return Ok(resolved);
    }
  }
}
