/** Kahn's algorithm over in-degrees, with alphabetical tie-breaking in every batch, and the
    extraction of a cycle from the modules it leaves over. */
module TopologicalSorting {
  import opened Wrappers
  import opened ModuleGraphs
  import opened NameOrder
  import opened ImportGraph
  import opened ReadyOrder

  datatype CycleError = CycleError(cyclePath: seq<string>)

  // ---- The graph as names, and the order as a function of names only ----

  datatype NameGraph = NameGraph(nodes: set<string>, edges: set<(string, string)>)

  ghost function NameGraphOf(ms: seq<ModuleInfo>): NameGraph
    requires WellFormed(ms)
  {
    NameGraph(
      set i | 0 <= i < |ms| :: ms[i].name,
      set i, d | 0 <= i < |ms| && d in ms[i].dependencies && d < |ms| :: (ms[i].name, ms[d].name))
  }

  /** Names not met before whose dependencies are all done. */
  ghost function NewlyReady(g: NameGraph, done: set<string>, met: set<string>): set<string> {
    set x | x in g.nodes && x !in met && forall y | (x, y) in g.edges :: y in done
  }

  /** Processing the queue front to back, a batch of newly ready names going to the back. */
  ghost function KahnFrom(g: NameGraph, order: seq<string>, queue: seq<string>): seq<string>
    requires NoDuplicates(order + queue) && Elements(order + queue) <= g.nodes
    decreases |g.nodes - Elements(order)|
  {
    if queue == [] then order
    else
      var next := order + [queue[0]];
      var batch := SortedNames(NewlyReady(g, Elements(next), Elements(order + queue)));
      KahnStep(g, order, queue, batch);
      KahnFrom(g, next, queue[1..] + batch)
  }

  lemma KahnStep(g: NameGraph, order: seq<string>, queue: seq<string>, batch: seq<string>)
    requires queue != [] && NoDuplicates(order + queue) && Elements(order + queue) <= g.nodes
    requires NoDuplicates(batch) && Elements(batch) <= g.nodes && Elements(batch) !! Elements(order + queue)
    ensures var next, rest := order + [queue[0]], queue[1..] + batch;
      && NoDuplicates(next + rest) && Elements(next + rest) <= g.nodes
      && |g.nodes - Elements(next)| < |g.nodes - Elements(order)|
  {
    var next, rest := order + [queue[0]], queue[1..] + batch;
    assert next + rest == (order + queue) + batch;
    assert forall x | x in order + queue :: x in Elements(order + queue);
    assert forall x | x in batch :: x in Elements(batch);
    JoinDistinct(order + queue, batch);
    var head := queue[0];
    assert (order + queue)[|order|] == head;
    assert head in Elements(order + queue);
    forall k | 0 <= k < |order|
      ensures order[k] != head
    {
      assert (order + queue)[k] == order[k];
    }
    assert Elements(next) == Elements(order) + {head};
    assert g.nodes - Elements(order) == (g.nodes - Elements(next)) + {head};
  }

  ghost function KahnOrder(g: NameGraph): seq<string> {
    var first := SortedNames(NewlyReady(g, {}, {}));
    assert [] + first == first;
    KahnFrom(g, [], first)
  }

  // ---- The algorithm's state ----

  /** Dependencies of a module that are not done yet. */
  ghost function Pending(ms: seq<ModuleInfo>, i: ModuleId, done: set<ModuleId>): set<ModuleId>
    requires i < |ms|
  {
    Elements(ms[i].dependencies) - done
  }

  /** In-degrees count pending dependencies. */
  ghost predicate Counts(ms: seq<ModuleInfo>, degrees: seq<nat>, done: set<ModuleId>) {
    |degrees| == |ms| && forall i | 0 <= i < |ms| :: degrees[i] == |Pending(ms, i, done)|
  }

  /** `order` is a dependency order as far as it goes; a module has left the in-degree table, for
      the order or the queue, exactly when nothing it depends on is pending. */
  ghost predicate KahnInvariant(ms: seq<ModuleInfo>, degrees: seq<nat>, order: seq<ModuleId>, queue: seq<ModuleId>) {
    && InRange(ms, order) && InRange(ms, queue)
    && NoDuplicates(order + queue)
    && Respects(ms, order)
    && Counts(ms, degrees, Elements(order))
    && (forall i | 0 <= i < |ms| :: degrees[i] == 0 <==> i in order || i in queue)
  }

  lemma PendingSize(ms: seq<ModuleInfo>, i: ModuleId)
    requires WellFormed(ms) && i < |ms|
    ensures |Pending(ms, i, {})| == |ms[i].dependencies|
  {
    NoDuplicatesSize(ms[i].dependencies);
    assert Pending(ms, i, {}) == Elements(ms[i].dependencies);
  }

  /** One more module done: its dependents have one dependency less to wait for. */
  lemma PendingStep(ms: seq<ModuleInfo>, i: ModuleId, done: set<ModuleId>, id: ModuleId)
    requires i < |ms| && id !in done
    ensures |Pending(ms, i, done + {id})| == |Pending(ms, i, done)| - if id in ms[i].dependencies then 1 else 0
  {
    if id in ms[i].dependencies {
      assert Pending(ms, i, done) == Pending(ms, i, done + {id}) + {id};
    } else {
      assert Pending(ms, i, done) == Pending(ms, i, done + {id});
    }
  }

  /** The ids below `n` that were counted down to zero, in increasing order. */
  ghost predicate IsBatch(batch: seq<ModuleId>, before: seq<nat>, after: seq<nat>, n: nat)
    requires n <= |before| && n <= |after|
  {
    && (forall a, b | 0 <= a < b < |batch| :: batch[a] < batch[b])
    && (forall i: nat :: i in batch <==> i < n && before[i] > 0 && after[i] == 0)
  }

  lemma BatchGrows(batch: seq<ModuleId>, before: seq<nat>, was: seq<nat>, now: seq<nat>, i: nat)
    requires i < |before| && i < |was| && i < |now| && IsBatch(batch, before, was, i)
    requires forall j | 0 <= j < i :: now[j] == was[j]
    ensures IsBatch(if before[i] > 0 && now[i] == 0 then batch + [i] else batch, before, now, i + 1)
  {
    forall a | 0 <= a < |batch|
      ensures batch[a] < i
    {
      assert batch[a] in batch;
    }
  }

  /** The inner loop: `id` is done; every module that depends on it counts down, and those that
      reach zero are newly ready. */
  method Settle(ms: seq<ModuleInfo>, inDegree: array<nat>, id: ModuleId, ghost done: set<ModuleId>)
      returns (newlyReady: seq<ModuleId>)
    requires inDegree.Length == |ms| && id !in done
    requires Counts(ms, inDegree[..], done)
    modifies inDegree
    ensures Counts(ms, inDegree[..], done + {id})
    ensures IsBatch(newlyReady, old(inDegree[..]), inDegree[..], |ms|)
  {
    hide IsBatch, Pending;
    ghost var before := inDegree[..];
    newlyReady := [];
    assert IsBatch([], before, before, 0) by { EmptyBatch(before); }
    for i := 0 to |ms|
      invariant forall j | 0 <= j < i :: inDegree[j] == |Pending(ms, j, done + {id})|
      invariant forall j | i <= j < |ms| :: inDegree[j] == before[j]
      invariant IsBatch(newlyReady, before, inDegree[..], i)
    {
      PendingStep(ms, i, done, id);
      if id in ms[i].dependencies {
        PendingHas(ms, i, done, id);
      }
      ghost var batch, was := newlyReady, inDegree[..];
      if inDegree[i] > 0 && id in ms[i].dependencies {
        inDegree[i] := inDegree[i] - 1;
        if inDegree[i] == 0 {
          newlyReady := newlyReady + [i];
        }
      }
      BatchGrows(batch, before, was, inDegree[..], i);
    }
  }

  lemma EmptyBatch(before: seq<nat>)
    ensures IsBatch([], before, before, 0)
  {
  }

  lemma PendingHas(ms: seq<ModuleInfo>, i: ModuleId, done: set<ModuleId>, id: ModuleId)
    requires i < |ms| && id !in done && id in ms[i].dependencies
    ensures |Pending(ms, i, done)| > 0
  {
    assert id in Pending(ms, i, done);
  }

  // ---- One round of the main loop ----

  lemma HeadIsNew(order: seq<ModuleId>, queue: seq<ModuleId>)
    requires NoDuplicates(order + queue) && queue != []
    ensures queue[0] !in order && Elements(order + [queue[0]]) == Elements(order) + {queue[0]}
  {
    forall k | 0 <= k < |order|
      ensures order[k] != queue[0]
    {
      assert (order + queue)[k] == order[k] && (order + queue)[|order|] == queue[0];
    }
  }

  lemma AppendRespects(ms: seq<ModuleInfo>, order: seq<ModuleId>, id: ModuleId)
    requires InRange(ms, order) && Respects(ms, order) && id < |ms| && Pending(ms, id, Elements(order)) == {}
    ensures InRange(ms, order + [id]) && Respects(ms, order + [id])
  {
    var next := order + [id];
    forall p, d | 0 <= p < |next| && d in ms[next[p]].dependencies
      ensures d in next[..p]
    {
      if p < |order| {
        assert next[..p] == order[..p];
      } else {
        assert next[..p] == order;
        assert d in Elements(ms[id].dependencies);
        assert d !in Pending(ms, id, Elements(order));
      }
    }
  }

  lemma RoundRespects(ms: seq<ModuleInfo>, degrees: seq<nat>, order: seq<ModuleId>, queue: seq<ModuleId>)
    requires KahnInvariant(ms, degrees, order, queue) && queue != []
    ensures queue[0] !in order && InRange(ms, order + [queue[0]]) && Respects(ms, order + [queue[0]])
  {
    hide Respects;
    var id := queue[0];
    HeadIsNew(order, queue);
    assert id in queue && degrees[id] == |Pending(ms, id, Elements(order))|;
    AppendRespects(ms, order, id);
  }

  lemma BatchInRange(ms: seq<ModuleInfo>, before: seq<nat>, after: seq<nat>, batch: seq<ModuleId>)
    requires |ms| == |before| == |after| && IsBatch(batch, before, after, |ms|)
    ensures InRange(ms, batch) && NoDuplicates(batch)
  {
    forall k | 0 <= k < |batch| ensures batch[k] < |ms| { assert batch[k] in batch; }
  }

  lemma CountsShrink(ms: seq<ModuleInfo>, before: seq<nat>, after: seq<nat>, done: set<ModuleId>, id: ModuleId)
    requires Counts(ms, before, done) && Counts(ms, after, done + {id})
    ensures |before| == |after| == |ms| && forall i | 0 <= i < |ms| :: after[i] <= before[i]
  {
    forall i | 0 <= i < |ms|
      ensures after[i] <= before[i]
    {
      assert Pending(ms, i, done + {id}) <= Pending(ms, i, done);
      SubsetSize(Pending(ms, i, done + {id}), Pending(ms, i, done));
    }
  }

  lemma RoundKeeps(ms: seq<ModuleInfo>, before: seq<nat>, order: seq<ModuleId>, queue: seq<ModuleId>,
                   after: seq<nat>, batch: seq<ModuleId>)
    requires KahnInvariant(ms, before, order, queue) && queue != []
    requires Counts(ms, after, Elements(order) + {queue[0]}) && IsBatch(batch, before, after, |ms|)
    ensures InRange(ms, batch) && NoDuplicates(batch)
    ensures KahnInvariant(ms, after, order + [queue[0]], queue[1..] + SortByName(ms, batch))
  {
    hide Respects, SortByName, Counts, IsBatch;
    var id, next := queue[0], order + [queue[0]];
    RoundRespects(ms, before, order, queue);
    HeadIsNew(order, queue);
    CountsShrink(ms, before, after, Elements(order), id);
    BatchInRange(ms, before, after, batch);
    var sorted := SortByName(ms, batch);
    SameMembers(batch, sorted);
    SortedBatch(ms, before, after, batch, sorted);
    JoinDistinct(order + queue, sorted);
    assert next + (queue[1..] + sorted) == (order + queue) + sorted;
    assert queue == [id] + queue[1..];
  }

  lemma SortedBatch(ms: seq<ModuleInfo>, before: seq<nat>, after: seq<nat>, batch: seq<ModuleId>, sorted: seq<ModuleId>)
    requires |before| == |after| == |ms| && IsBatch(batch, before, after, |ms|) && Elements(batch) == Elements(sorted)
    ensures forall i | 0 <= i < |ms| :: i in sorted <==> before[i] > 0 && after[i] == 0
    ensures forall i | i in sorted :: i < |ms|
  {
    assert forall i :: i in sorted <==> i in Elements(batch);
  }

  // ---- The same round on names ----

  lemma NameIn(ms: seq<ModuleInfo>, ids: seq<ModuleId>, i: ModuleId)
    requires UniqueNames(ms) && InRange(ms, ids) && i < |ms|
    ensures ms[i].name in Elements(Names(ms, ids)) <==> i in ids
  {
    if ms[i].name in Names(ms, ids) {
      var k :| 0 <= k < |ids| && Names(ms, ids)[k] == ms[i].name;
      assert ids[k] == i;
    }
    if i in ids {
      var k :| 0 <= k < |ids| && ids[k] == i;
      assert Names(ms, ids)[k] == ms[i].name;
    }
  }

  /** A name waits for nothing outside `done` exactly when its module has nothing pending. */
  lemma ReadyName(ms: seq<ModuleInfo>, done: seq<ModuleId>, i: ModuleId)
    requires WellFormed(ms) && UniqueNames(ms) && InRange(ms, done) && i < |ms|
    ensures (forall y | (ms[i].name, y) in NameGraphOf(ms).edges :: y in Elements(Names(ms, done)))
      <==> Pending(ms, i, Elements(done)) == {}
  {
    var g := NameGraphOf(ms);
    if Pending(ms, i, Elements(done)) == {} {
      forall y | (ms[i].name, y) in g.edges
        ensures y in Elements(Names(ms, done))
      {
        var j, d :| 0 <= j < |ms| && d in ms[j].dependencies && d < |ms| && (ms[j].name, ms[d].name) == (ms[i].name, y);
        assert j == i;
        assert d in Elements(ms[i].dependencies) && d !in Pending(ms, i, Elements(done));
        NameIn(ms, done, d);
      }
    }
    if forall y | (ms[i].name, y) in g.edges :: y in Elements(Names(ms, done)) {
      forall d | d in ms[i].dependencies
        ensures d in done
      {
        assert (ms[i].name, ms[d].name) in g.edges;
        NameIn(ms, done, d);
      }
    }
  }

  lemma BatchNames(ms: seq<ModuleInfo>, before: seq<nat>, order: seq<ModuleId>, queue: seq<ModuleId>,
                   after: seq<nat>, next: seq<ModuleId>, batch: seq<ModuleId>)
    requires WellFormed(ms) && UniqueNames(ms) && KahnInvariant(ms, before, order, queue)
    requires InRange(ms, next) && Counts(ms, after, Elements(next)) && IsBatch(batch, before, after, |ms|)
    requires InRange(ms, batch)
    ensures var done, met := Elements(Names(ms, next)), Elements(Names(ms, order + queue));
      Elements(Names(ms, batch)) == NewlyReady(NameGraphOf(ms), done, met)
  {
    var g := NameGraphOf(ms);
    var ready := NewlyReady(g, Elements(Names(ms, next)), Elements(Names(ms, order + queue)));
    forall i | 0 <= i < |ms|
      ensures ms[i].name in ready <==> i in batch
    {
      NameIn(ms, order + queue, i);
      ReadyName(ms, next, i);
      assert ms[i].name in g.nodes;
    }
    NamesOf(ms, batch, ready);
  }

  lemma NamesOf(ms: seq<ModuleInfo>, ids: seq<ModuleId>, names: set<string>)
    requires WellFormed(ms) && UniqueNames(ms) && InRange(ms, ids) && names <= NameGraphOf(ms).nodes
    requires forall i | 0 <= i < |ms| :: ms[i].name in names <==> i in ids
    ensures Elements(Names(ms, ids)) == names
  {
    forall x
      ensures x in names <==> x in Elements(Names(ms, ids))
    {
      if x in names {
        var i :| 0 <= i < |ms| && ms[i].name == x;
        NameIn(ms, ids, i);
      }
      if x in Names(ms, ids) {
        var k :| 0 <= k < |ids| && Names(ms, ids)[k] == x;
        assert ids[k] in ids;
      }
    }
  }

  lemma NamesDistinct(ms: seq<ModuleInfo>, ids: seq<ModuleId>)
    requires UniqueNames(ms) && InRange(ms, ids) && NoDuplicates(ids) && WellFormed(ms)
    ensures NoDuplicates(Names(ms, ids)) && Elements(Names(ms, ids)) <= NameGraphOf(ms).nodes
  {
    forall i, j | 0 <= i < j < |ids|
      ensures Names(ms, ids)[i] != Names(ms, ids)[j]
    {
      assert ids[i] != ids[j];
    }
    forall x | x in Names(ms, ids)
      ensures x in NameGraphOf(ms).nodes
    {
      var k :| 0 <= k < |ids| && Names(ms, ids)[k] == x;
      assert ms[ids[k]].name == x;
    }
  }

  /** With distinct names, what is left to do on ids is what is left to do on names. */
  ghost predicate Tracks(ms: seq<ModuleInfo>, order: seq<ModuleId>, queue: seq<ModuleId>)
    requires WellFormed(ms) && InRange(ms, order) && InRange(ms, queue)
  {
    UniqueNames(ms) ==>
      var g, o, q := NameGraphOf(ms), Names(ms, order), Names(ms, queue);
      NoDuplicates(o + q) && Elements(o + q) <= g.nodes && KahnFrom(g, o, q) == KahnOrder(g)
  }

  lemma NamesConcat(ms: seq<ModuleInfo>, a: seq<ModuleId>, b: seq<ModuleId>)
    requires InRange(ms, a) && InRange(ms, b)
    ensures InRange(ms, a + b) && Names(ms, a + b) == Names(ms, a) + Names(ms, b)
  {
  }

  lemma RoundTracks(ms: seq<ModuleInfo>, before: seq<nat>, order: seq<ModuleId>, queue: seq<ModuleId>,
                    after: seq<nat>, batch: seq<ModuleId>)
    requires WellFormed(ms) && KahnInvariant(ms, before, order, queue) && queue != []
    requires Counts(ms, after, Elements(order) + {queue[0]}) && IsBatch(batch, before, after, |ms|)
    requires Tracks(ms, order, queue)
    ensures InRange(ms, batch) && InRange(ms, order + [queue[0]])
    ensures Tracks(ms, order + [queue[0]], queue[1..] + SortByName(ms, batch))
  {
    hide KahnFrom, KahnOrder, KahnInvariant, SortByName, NewlyReady, NameGraphOf, IsBatch, UniqueNames, WellFormed,
      Counts;
    RoundKeeps(ms, before, order, queue, after, batch);
    InvariantInRange(ms, before, order, queue);
    InvariantInRange(ms, after, order + [queue[0]], queue[1..] + SortByName(ms, batch));
    if UniqueNames(ms) {
      RoundNames(ms, before, order, queue, after, batch);
      KahnUnfold(NameGraphOf(ms), Names(ms, order), Names(ms, queue));
    }
  }

  lemma InvariantInRange(ms: seq<ModuleInfo>, degrees: seq<nat>, order: seq<ModuleId>, queue: seq<ModuleId>)
    requires KahnInvariant(ms, degrees, order, queue)
    ensures InRange(ms, order) && InRange(ms, queue) && |degrees| == |ms| && |order| <= |ms|
    ensures NoDuplicates(order + queue)
    ensures Counts(ms, degrees, Elements(order))
  {
    assert forall k | 0 <= k < |order| :: (order + queue)[k] == order[k];
    CompleteIffLong(ms, order);
  }

  /** The names of the next order and queue are what one round on names makes of the current ones. */
  lemma RoundNames(ms: seq<ModuleInfo>, before: seq<nat>, order: seq<ModuleId>, queue: seq<ModuleId>,
                   after: seq<nat>, batch: seq<ModuleId>)
    requires WellFormed(ms) && UniqueNames(ms) && KahnInvariant(ms, before, order, queue) && queue != []
    requires Counts(ms, after, Elements(order) + {queue[0]}) && IsBatch(batch, before, after, |ms|)
    ensures InRange(ms, batch) && InRange(ms, order + [queue[0]])
    ensures var o, q := Names(ms, order), Names(ms, queue);
      && q != []
      && Names(ms, order + [queue[0]]) == o + [q[0]]
      && Names(ms, queue[1..] + SortByName(ms, batch))
        == q[1..] + SortedNames(NewlyReady(NameGraphOf(ms), Elements(o + [q[0]]), Elements(o + q)))
  {
    hide KahnInvariant, Counts, SortByName, NewlyReady, NameGraphOf, UniqueNames, WellFormed, SortedNames, IsBatch,
      Names;
    InvariantInRange(ms, before, order, queue);
    HeadIsNew(order, queue);
    CountsLength(ms, after, Elements(order) + {queue[0]});
    BatchInRange(ms, before, after, batch);
    var next := order + [queue[0]];
    SplitNames(ms, order, queue);
    BatchNames(ms, before, order, queue, after, next, batch);
    SortByNameSpells(ms, batch);
    NamesConcat(ms, queue[1..], SortByName(ms, batch));
  }

  lemma CountsLength(ms: seq<ModuleInfo>, degrees: seq<nat>, done: set<ModuleId>)
    requires Counts(ms, degrees, done)
    ensures |degrees| == |ms|
  {
  }

  lemma SplitNames(ms: seq<ModuleInfo>, order: seq<ModuleId>, queue: seq<ModuleId>)
    requires InRange(ms, order) && InRange(ms, queue) && queue != []
    ensures InRange(ms, order + queue) && InRange(ms, order + [queue[0]]) && InRange(ms, queue[1..])
    ensures var o, q := Names(ms, order), Names(ms, queue);
      && q != []
      && Names(ms, order + queue) == o + q
      && Names(ms, order + [queue[0]]) == o + [q[0]]
      && Names(ms, queue[1..]) == q[1..]
  {
    assert Names(ms, [queue[0]]) == [Names(ms, queue)[0]];
  }

  lemma KahnUnfold(g: NameGraph, order: seq<string>, queue: seq<string>)
    requires NoDuplicates(order + queue) && Elements(order + queue) <= g.nodes && queue != []
    ensures var next := order + [queue[0]];
      var rest := queue[1..] + SortedNames(NewlyReady(g, Elements(next), Elements(order + queue)));
      && NoDuplicates(next + rest) && Elements(next + rest) <= g.nodes
      && KahnFrom(g, order, queue) == KahnFrom(g, next, rest)
  {
    var next := order + [queue[0]];
    KahnStep(g, order, queue, SortedNames(NewlyReady(g, Elements(next), Elements(order + queue))));
  }

  // ---- Modules come as they get ready ----

  /** With distinct names, sorting by name is strict. */
  lemma SortedStrictly(ms: seq<ModuleInfo>, ids: seq<ModuleId>)
    requires UniqueNames(ms) && NoDuplicates(ids) && InRange(ms, ids)
    ensures var sorted := SortByName(ms, ids);
      forall p, q | 0 <= p < q < |sorted| :: NameLess(ms[sorted[p]].name, ms[sorted[q]].name)
  {
    hide SortByName, NameLess;
    var sorted := SortByName(ms, ids);
    SortByNameSorts(ms, ids);
    SortByNameSpells(ms, ids);
    forall p, q | 0 <= p < q < |sorted| ensures NameLess(ms[sorted[p]].name, ms[sorted[q]].name) {
      assert sorted[p] != sorted[q];
      NameLessTotal(ms[sorted[p]].name, ms[sorted[q]].name);
    }
  }

  lemma StartSequenced(ms: seq<ModuleInfo>, ready: seq<ModuleId>)
    requires UniqueNames(ms) && NoDuplicates(ready) && InRange(ms, ready)
    ensures InRange(ms, [] + SortByName(ms, ready))
    ensures Sequenced(ms, [], [] + SortByName(ms, ready))
  {
    hide SortByName, NameLess;
    SortedStrictly(ms, ready);
  }

  /** Nothing already in the order or the queue waits for the module just done. */
  lemma OldLatest(ms: seq<ModuleInfo>, degrees: seq<nat>, order: seq<ModuleId>, queue: seq<ModuleId>, i: ModuleId)
    requires KahnInvariant(ms, degrees, order, queue) && queue != [] && i in order + queue
    ensures i < |ms| && Latest(ms, order + [queue[0]], i) == Latest(ms, order, i)
  {
    HeadIsNew(order, queue);
    assert i < |ms| && degrees[i] == |Pending(ms, i, Elements(order))|;
    var next := order + [queue[0]];
    assert queue[0] !in ms[i].dependencies by {
      assert Elements(ms[i].dependencies) - Elements(order) == {};
      assert forall d | d in ms[i].dependencies :: d in Elements(ms[i].dependencies) - Elements(order) || d in order;
    }
    assert next[..|next| - 1] == order;
  }

  /** The new batch waited for the module just done. */
  lemma NewLatest(ms: seq<ModuleInfo>, before: seq<nat>, after: seq<nat>, order: seq<ModuleId>, id: ModuleId,
      i: ModuleId)
    requires Counts(ms, before, Elements(order)) && Counts(ms, after, Elements(order) + {id})
    requires i < |ms| && before[i] > 0 && after[i] == 0
    ensures Latest(ms, order + [id], i) == |order| + 1
  {
    assert Pending(ms, i, Elements(order)) != {} && Pending(ms, i, Elements(order) + {id}) == {};
    var d :| d in Pending(ms, i, Elements(order));
    assert d !in Pending(ms, i, Elements(order) + {id});
  }

  lemma RoundSequenced(ms: seq<ModuleInfo>, before: seq<nat>, order: seq<ModuleId>, queue: seq<ModuleId>,
                       after: seq<nat>, batch: seq<ModuleId>)
    requires UniqueNames(ms) && KahnInvariant(ms, before, order, queue) && queue != []
    requires Counts(ms, after, Elements(order) + {queue[0]}) && IsBatch(batch, before, after, |ms|)
    requires InRange(ms, order + queue) && Sequenced(ms, order, order + queue)
    ensures InRange(ms, batch)
    ensures var next, rest := order + [queue[0]], queue[1..] + SortByName(ms, batch);
      InRange(ms, next + rest) && Sequenced(ms, next, next + rest)
  {
    hide KahnInvariant, Counts, IsBatch, SortByName, Latest, NameLess, UniqueNames;
    RoundKeeps(ms, before, order, queue, after, batch);
    var next, sorted := order + [queue[0]], SortByName(ms, batch);
    var met := order + queue;
    assert next + (queue[1..] + sorted) == met + sorted;
    SortedStrictly(ms, batch);
    forall i | i in met ensures i < |ms| && Latest(ms, next, i) == Latest(ms, order, i) {
      OldLatest(ms, before, order, queue, i);
    }
    InvariantInRange(ms, before, order, queue);
    BatchLatest(ms, before, after, order, queue[0], batch);
    var all := met + sorted;
    forall p, q | 0 <= p < q < |all| ensures Sooner(ms, next, all[p], all[q]) {
      if q < |met| {
        assert all[p] == met[p] && all[q] == met[q] && Sooner(ms, order, met[p], met[q]);
      } else if p < |met| {
        assert all[p] == met[p] && all[q] == sorted[q - |met|];
      } else {
        assert all[p] == sorted[p - |met|] && all[q] == sorted[q - |met|];
      }
    }
  }

  lemma BatchLatest(ms: seq<ModuleInfo>, before: seq<nat>, after: seq<nat>, order: seq<ModuleId>, id: ModuleId,
      batch: seq<ModuleId>)
    requires Counts(ms, before, Elements(order)) && Counts(ms, after, Elements(order) + {id})
    requires IsBatch(batch, before, after, |ms|) && InRange(ms, batch)
    ensures forall i | i in SortByName(ms, batch) :: i < |ms| && Latest(ms, order + [id], i) == |order| + 1
  {
    hide SortByName, Latest;
    forall i | i in SortByName(ms, batch) ensures i < |ms| && Latest(ms, order + [id], i) == |order| + 1 {
      assert i in batch;
      NewLatest(ms, before, after, order, id, i);
    }
  }

  // ---- What is left over holds a cycle ----

  /** Some module of name `a` depends on some module of name `b`. */
  ghost predicate NamedEdge(ms: seq<ModuleInfo>, a: string, b: string) {
    exists i: ModuleId, d: ModuleId :: DependsOn(ms, i, d) && d < |ms| && ms[i].name == a && ms[d].name == b
  }

  /** The names of a cycle: back at its first name after at least one other module, each name
      depending on the next. */
  ghost predicate NamedCycle(ms: seq<ModuleInfo>, names: seq<string>) {
    && |names| >= 3
    && names[0] == names[|names| - 1]
    && forall k | 0 < k < |names| :: NamedEdge(ms, names[k - 1], names[k])
  }

  predicate LeftOver(degrees: seq<nat>, i: ModuleId) {
    i < |degrees| && degrees[i] > 0
  }

  ghost predicate Waits(ms: seq<ModuleInfo>, degrees: seq<nat>, i: ModuleId) {
    exists d: ModuleId :: DependsOn(ms, i, d) && LeftOver(degrees, d)
  }

  /** Every module left over depends on another one left over. */
  ghost predicate Stuck(ms: seq<ModuleInfo>, degrees: seq<nat>) {
    |degrees| == |ms| && forall i: ModuleId | LeftOver(degrees, i) :: Waits(ms, degrees, i)
  }

  /** The first index that satisfies `p`, if any. */
  method FindFirst<T>(s: seq<T>, p: T -> bool) returns (index: Option<nat>)
    ensures index.None? ==> forall k | 0 <= k < |s| :: !p(s[k])
    ensures index.Some? ==> index.value < |s| && p(s[index.value]) && forall k | 0 <= k < index.value :: !p(s[k])
  {
    for k := 0 to |s|
      invariant forall j | 0 <= j < k :: !p(s[j])
    {
      if p(s[k]) {
        return Some(k);
      }
    }
    return None;
  }

  /** The walk so far: a path of distinct modules left over, whose visited marks are exact. */
  ghost predicate Walk(ms: seq<ModuleInfo>, degrees: seq<nat>, visited: seq<bool>, ids: seq<ModuleId>,
      current: ModuleId)
  {
    && |degrees| == |visited| == |ms|
    && IsPath(ms, ids + [current])
    && NoDuplicates(ids)
    && LeftOver(degrees, current)
    && (forall i: nat | i < |ms| :: visited[i] <==> i in ids)
  }

  /** Follows dependency edges among the modules left over until one is met again. */
  method ExtractCyclePath(ms: seq<ModuleInfo>, inDegree: seq<nat>) returns (cycle: seq<string>)
    requires WellFormed(ms) && |inDegree| == |ms| && Stuck(ms, inDegree) && exists i: ModuleId :: LeftOver(inDegree, i)
    ensures NamedCycle(ms, cycle)
    ensures UniqueNames(ms) ==> NoDuplicates(cycle[..|cycle| - 1])
    ensures exists ids :: IsCycle(ms, ids)
  {
    hide WellFormed, Walk, NamedCycle, IsCycle, NoDuplicates, UniqueNames, Names, Stuck;
    var found := FindFirst(inDegree, (d: nat) => d > 0);
    var current: ModuleId := found.value;
    var path: seq<string> := [];
    var visited := new bool[|ms|](_ => false);
    ghost var ids: seq<ModuleId> := [];
    StartWalk(ms, inDegree, visited[..], current);
    while true
      invariant |inDegree| == |ms| && visited.Length == |ms| && current < |ms| && InRange(ms, ids)
      invariant Walk(ms, inDegree, visited[..], ids, current)
      invariant path == Names(ms, ids)
      decreases |ms| - |ids|
    {
      if visited[current] {
        var name := ms[current].name;
        var begin := FindFirst(path, (n: string) => n == name);
        ClosesCycle(ms, inDegree, visited[..], ids, current);
        assert path[Position(ids, current)] == name;
        cycle := path[begin.value..] + [name];
        CycleOfNames(ms, ids, current, begin.value);
        return;
      }
      ghost var before := visited[..];
      WalkHasNext(ms, inDegree, before, ids, current);
      visited[current] := true;
      path := path + [ms[current].name];
      var next := FindFirst(ms[current].dependencies, (d: nat) => d < |inDegree| && inDegree[d] > 0);
      var dep := ms[current].dependencies[next.value];
      WalkOn(ms, inDegree, before, ids, current, dep);
      ids := ids + [current];
      current := dep;
    }
  }

  lemma StartWalk(ms: seq<ModuleInfo>, degrees: seq<nat>, visited: seq<bool>, start: ModuleId)
    requires |degrees| == |visited| == |ms| && LeftOver(degrees, start) && forall i | 0 <= i < |ms| :: !visited[i]
    ensures Walk(ms, degrees, visited, [], start) && InRange(ms, []) && Names(ms, []) == []
  {
    assert [] + [start] == [start];
  }

  /** A module left over always has a dependency left over to go on with. */
  lemma WalkHasNext(ms: seq<ModuleInfo>, degrees: seq<nat>, visited: seq<bool>, ids: seq<ModuleId>, current: ModuleId)
    requires Stuck(ms, degrees) && Walk(ms, degrees, visited, ids, current)
    ensures current < |ms| && exists d: ModuleId :: d in ms[current].dependencies && LeftOver(degrees, d)
  {
    assert Waits(ms, degrees, current);
    var d: ModuleId :| DependsOn(ms, current, d) && LeftOver(degrees, d);
  }

  lemma WalkOn(ms: seq<ModuleInfo>, degrees: seq<nat>, visited: seq<bool>, ids: seq<ModuleId>, current: ModuleId,
      next: ModuleId)
    requires current < |ms| && Walk(ms, degrees, visited, ids, current) && current < |visited| && !visited[current]
    requires InRange(ms, ids) && next in ms[current].dependencies && LeftOver(degrees, next)
    ensures Walk(ms, degrees, visited[current := true], ids + [current], next)
    ensures InRange(ms, ids + [current]) && |ids| < |ms|
    ensures Names(ms, ids + [current]) == Names(ms, ids) + [ms[current].name]
  {
    var longer := ids + [current] + [next];
    forall k | 0 < k < |longer|
      ensures DependsOn(ms, longer[k - 1], longer[k])
    {
      if k < |ids + [current]| {
        assert longer[k - 1] == (ids + [current])[k - 1] && longer[k] == (ids + [current])[k];
      }
    }
    CompleteIffLong(ms, ids + [current]);
  }

  lemma ClosesCycle(ms: seq<ModuleInfo>, degrees: seq<nat>, visited: seq<bool>, ids: seq<ModuleId>, current: ModuleId)
    requires WellFormed(ms) && current < |ms| && Walk(ms, degrees, visited, ids, current) && visited[current]
    ensures current in ids && Position(ids, current) < |ids| - 1 && InRange(ms, ids)
    ensures NoDuplicates(ids) && IsPath(ms, ids + [current])
    ensures |Names(ms, ids)| == |ids| && Names(ms, ids)[Position(ids, current)] == ms[current].name
    ensures exists cycle :: IsCycle(ms, cycle)
  {
    assert forall k | 0 <= k < |ids| :: (ids + [current])[k] == ids[k];
    var q := Position(ids, current);
    var walk := ids + [current];
    assert DependsOn(ms, walk[|ids| - 1], walk[|ids|]);
    var cycle := walk[q..];
    forall k | 0 < k < |cycle|
      ensures DependsOn(ms, cycle[k - 1], cycle[k])
    {
      assert cycle[k - 1] == walk[q + k - 1] && cycle[k] == walk[q + k];
    }
    assert IsCycle(ms, cycle);
  }

  /** Cutting the names where the repeated one first occurs. */
  lemma CycleOfNames(ms: seq<ModuleInfo>, ids: seq<ModuleId>, current: ModuleId, begin: nat)
    requires WellFormed(ms) && current < |ms| && InRange(ms, ids) && NoDuplicates(ids) && IsPath(ms, ids + [current])
    requires current in ids && begin <= Position(ids, current) < |ids| - 1 && Names(ms, ids)[begin] == ms[current].name
    ensures var cycle := Names(ms, ids)[begin..] + [ms[current].name];
      NamedCycle(ms, cycle) && (UniqueNames(ms) ==> NoDuplicates(cycle[..|cycle| - 1]))
  {
    hide NoDuplicates, UniqueNames;
    var cycle := Names(ms, ids)[begin..] + [ms[current].name];
    forall k | 0 < k < |cycle|
      ensures NamedEdge(ms, cycle[k - 1], cycle[k])
    {
      NamesOfPath(ms, ids, current, begin + k);
    }
    if UniqueNames(ms) {
      NamesDistinct(ms, ids);
      assert cycle[..|cycle| - 1] == Names(ms, ids)[begin..];
      SuffixDistinct(Names(ms, ids), begin);
    }
  }

  lemma NamesOfPath(ms: seq<ModuleInfo>, ids: seq<ModuleId>, current: ModuleId, k: nat)
    requires current < |ms| && InRange(ms, ids) && IsPath(ms, ids + [current]) && 0 < k <= |ids|
    ensures var walked := Names(ms, ids) + [ms[current].name];
      NamedEdge(ms, walked[k - 1], walked[k])
  {
    var walk := ids + [current];
    assert DependsOn(ms, walk[k - 1], walk[k]);
  }

  lemma SuffixDistinct(s: seq<string>, from: nat)
    requires NoDuplicates(s) && from <= |s|
    ensures NoDuplicates(s[from..])
  {
  }

  // ---- The sort ----

  lemma StartInvariant(ms: seq<ModuleInfo>, degrees: seq<nat>, ready: seq<ModuleId>)
    requires WellFormed(ms) && |degrees| == |ms|
    requires forall i | 0 <= i < |ms| :: degrees[i] == |ms[i].dependencies|
    requires InRange(ms, ready) && NoDuplicates(ready) && forall i: nat :: i in ready <==> i < |ms| && degrees[i] == 0
    ensures KahnInvariant(ms, degrees, [], SortByName(ms, ready)) && Tracks(ms, [], SortByName(ms, ready))
  {
    var queue := SortByName(ms, ready);
    SameMembers(ready, queue);
    assert forall i :: i in queue <==> i in Elements(ready);
    assert [] + queue == queue;
    forall i | 0 <= i < |ms|
      ensures degrees[i] == |Pending(ms, i, Elements<ModuleId>([]))|
    {
      PendingSize(ms, i);
      assert Elements<ModuleId>([]) == {};
    }
    if UniqueNames(ms) {
      StartNames(ms, degrees, ready);
    }
  }

  lemma StartNames(ms: seq<ModuleInfo>, degrees: seq<nat>, ready: seq<ModuleId>)
    requires WellFormed(ms) && UniqueNames(ms) && Counts(ms, degrees, {})
    requires InRange(ms, ready) && NoDuplicates(ready) && forall i: nat :: i in ready <==> i < |ms| && degrees[i] == 0
    ensures Tracks(ms, [], SortByName(ms, ready))
  {
    hide KahnFrom, SortByName;
    StartBatch(ms, degrees, ready);
    SortByNameSpells(ms, ready);
    var starting := NewlyReady(NameGraphOf(ms), {}, {});
    assert Names(ms, []) == [];
    assert [] + SortedNames(starting) == SortedNames(starting);
  }

  lemma StartBatch(ms: seq<ModuleInfo>, degrees: seq<nat>, ready: seq<ModuleId>)
    requires WellFormed(ms) && UniqueNames(ms) && Counts(ms, degrees, {})
    requires InRange(ms, ready) && forall i: nat :: i in ready <==> i < |ms| && degrees[i] == 0
    ensures Elements(Names(ms, ready)) == NewlyReady(NameGraphOf(ms), {}, {})
  {
    var g := NameGraphOf(ms);
    var starting := NewlyReady(g, {}, {});
    assert Elements<ModuleId>([]) == {} && Elements<string>([]) == {} && Names(ms, []) == [];
    forall i | 0 <= i < |ms|
      ensures ms[i].name in starting <==> i in ready
    {
      ReadyName(ms, [], i);
      assert ms[i].name in g.nodes;
    }
    NamesOf(ms, ready, starting);
  }

  /** When the queue runs dry, every module left over waits for another one left over. */
  lemma DryQueueIsStuck(ms: seq<ModuleInfo>, degrees: seq<nat>, order: seq<ModuleId>)
    requires WellFormed(ms) && KahnInvariant(ms, degrees, order, [])
    ensures Stuck(ms, degrees)
    ensures |order| <= |ms| && (|order| < |ms| ==> exists i: ModuleId :: LeftOver(degrees, i))
  {
    hide KahnInvariant, Waits;
    InvariantInRange(ms, degrees, order, []);
    forall i: ModuleId | LeftOver(degrees, i)
      ensures Waits(ms, degrees, i)
    {
      LeftOverWaits(ms, degrees, order, i);
    }
    if |order| < |ms| {
      ShortOrderLeavesOver(ms, degrees, order);
    }
  }

  lemma ShortOrderLeavesOver(ms: seq<ModuleInfo>, degrees: seq<nat>, order: seq<ModuleId>)
    requires KahnInvariant(ms, degrees, order, []) && |order| < |ms|
    ensures exists i: ModuleId :: LeftOver(degrees, i)
  {
    hide Respects;
    assert order + [] == order;
    CompleteIffLong(ms, order);
    var i: ModuleId :| i < |ms| && i !in order;
    assert LeftOver(degrees, i);
  }

  lemma LeftOverWaits(ms: seq<ModuleInfo>, degrees: seq<nat>, order: seq<ModuleId>, i: ModuleId)
    requires WellFormed(ms) && KahnInvariant(ms, degrees, order, []) && LeftOver(degrees, i)
    ensures Waits(ms, degrees, i)
  {
    hide Respects, NoDuplicates;
    assert Pending(ms, i, Elements(order)) != {};
    var d :| d in Pending(ms, i, Elements(order));
    assert DependsOn(ms, i, d) && d !in order;
    assert LeftOver(degrees, d);
  }

  /** A dependency order if there is one, and a cycle if there is none. With distinct names, the
      order is a function of the names and the dependencies between them. */
  method TopologicalSort(graph: ModuleGraph) returns (result: Result<seq<ModuleId>, CycleError>)
    requires graph.Valid()
    ensures result.Ok? <==> Acyclic(graph.modules)
    ensures result.Ok? ==> IsTopological(graph.modules, result.value)
    ensures result.Err? ==> NamedCycle(graph.modules, result.error.cyclePath)
    ensures result.Err? && UniqueNames(graph.modules) ==>
      NoDuplicates(result.error.cyclePath[..|result.error.cyclePath| - 1])
    ensures UniqueNames(graph.modules) ==>
      var order := KahnOrder(NameGraphOf(graph.modules));
      if result.Ok? then order == Names(graph.modules, result.value) else |order| < |graph.modules|
    ensures result.Ok? && UniqueNames(graph.modules) ==> IsReadyOrder(graph.modules, result.value)
  {
    hide KahnInvariant, Tracks, Counts, IsBatch, WellFormed, KahnFrom, Stuck, Acyclic, IsTopological, SortByName,
      UniqueNames, NamedCycle, NameGraphOf, Names, KahnOrder, Sequenced;
    var ms := graph.modules;
    var n := |ms|;
    var inDegree := new nat[n](i requires 0 <= i < n => |ms[i].dependencies|);
    var ready: seq<ModuleId> := [];
    for i := 0 to n
      invariant InRange(ms, ready) && NoDuplicates(ready)
      invariant forall j: nat :: j in ready <==> j < i && inDegree[j] == 0
    {
      if inDegree[i] == 0 {
        ready := ready + [i];
      }
    }
    StartInvariant(ms, inDegree[..], ready);
    var queue := SortByName(ms, ready);
    var order: seq<ModuleId> := [];
    if UniqueNames(ms) {
      StartSequenced(ms, ready);
    }
    while queue != []
      invariant InRange(ms, order + queue) && (UniqueNames(ms) ==> Sequenced(ms, order, order + queue))
      invariant KahnInvariant(ms, inDegree[..], order, queue)
      invariant InRange(ms, order) && InRange(ms, queue) && Tracks(ms, order, queue)
      decreases n - |order|
    {
      var id := queue[0];
      ghost var before := inDegree[..];
      InvariantInRange(ms, before, order, queue);
      RoundRespects(ms, before, order, queue);
      var newlyReady := Settle(ms, inDegree, id, Elements(order));
      RoundKeeps(ms, before, order, queue, inDegree[..], newlyReady);
      RoundTracks(ms, before, order, queue, inDegree[..], newlyReady);
      if UniqueNames(ms) {
        RoundSequenced(ms, before, order, queue, inDegree[..], newlyReady);
      }
      order := order + [id];
      queue := queue[1..] + SortByName(ms, newlyReady);
      InvariantInRange(ms, inDegree[..], order, queue);
    }
    DryQueueIsStuck(ms, inDegree[..], order);
    Finished(ms, inDegree[..], order);
    assert order + [] == order;
    if |order| == n {
      TopologicalIsAcyclic(ms, order);
      result := Ok(order);
    } else {
      var cyclePath := ExtractCyclePath(ms, inDegree[..]);
      result := Err(CycleError(cyclePath));
      assert !Acyclic(ms) by { HasCycle(ms); }
    }
  }

  lemma HasCycle(ms: seq<ModuleInfo>)
    requires exists path :: IsCycle(ms, path)
    ensures !Acyclic(ms)
  {
  }

  lemma Finished(ms: seq<ModuleInfo>, degrees: seq<nat>, order: seq<ModuleId>)
    requires WellFormed(ms) && KahnInvariant(ms, degrees, order, []) && Tracks(ms, order, [])
    ensures |order| == |ms| ==> IsTopological(ms, order)
    ensures |Names(ms, order)| == |order| && (UniqueNames(ms) ==> KahnOrder(NameGraphOf(ms)) == Names(ms, order))
  {
    assert order + [] == order;
    assert Names(ms, []) == [];
    assert Names(ms, order) + [] == Names(ms, order);
  }
}
