/** Dependency orders and dependency cycles, independently of any algorithm. */
module ImportGraph {
  import opened Wrappers
  import opened ModuleGraphs
  import opened NameOrder

  predicate DependsOn(ms: seq<ModuleInfo>, i: ModuleId, d: ModuleId) {
    i < |ms| && d in ms[i].dependencies
  }

  // ---- Paths and cycles ----

  /** Each module of the path depends on the next. */
  ghost predicate IsPath(ms: seq<ModuleInfo>, path: seq<ModuleId>) {
    && InRange(ms, path)
    && forall k | 0 < k < |path| :: DependsOn(ms, path[k - 1], path[k])
  }

  ghost predicate IsCycle(ms: seq<ModuleInfo>, path: seq<ModuleId>) {
    |path| >= 2 && IsPath(ms, path) && path[0] == path[|path| - 1]
  }

  ghost predicate Acyclic(ms: seq<ModuleInfo>) {
    !exists path :: IsCycle(ms, path)
  }

  ghost predicate PathBetween(ms: seq<ModuleInfo>, path: seq<ModuleId>, from: ModuleId, to: ModuleId) {
    path != [] && IsPath(ms, path) && path[0] == from && path[|path| - 1] == to
  }

  /** `from` imports `to`, directly or through others, or is `to`. */
  ghost predicate Reaches(ms: seq<ModuleInfo>, from: ModuleId, to: ModuleId) {
    exists path :: PathBetween(ms, path, from, to)
  }

  // ---- Dependency orders ----

  /** Every module exactly once, each after everything it depends on. */
  ghost predicate IsTopological(ms: seq<ModuleInfo>, order: seq<ModuleId>) {
    && |order| == |ms|
    && InRange(ms, order)
    && NoDuplicates(order)
    && Respects(ms, order)
  }

  ghost predicate Respects(ms: seq<ModuleInfo>, order: seq<ModuleId>)
    requires InRange(ms, order)
  {
    forall p, d | 0 <= p < |order| && d in ms[order[p]].dependencies :: d in order[..p]
  }

  // ---- Counting ----

  lemma {:induction false} NoDuplicatesSize<T(!new)>(s: seq<T>)
    requires NoDuplicates(s)
    ensures |Elements(s)| == |s|
    decreases |s|
  {
    if s != [] {
      TailElements(s);
      NoDuplicatesSize(s[1..]);
    }
  }

  function Below(n: nat): (s: set<nat>)
    ensures |s| == n && forall k: nat :: k in s <==> k < n
  {
    if n == 0 then {}
    else
      assert n - 1 !in Below(n - 1);
      Below(n - 1) + {n - 1}
  }

  lemma SameSizeSubset<T(!new)>(a: set<T>, b: set<T>)
    requires a <= b && |a| == |b|
    ensures a == b
  {
    assert b == a + (b - a);
    assert |b - a| == 0;
  }

  lemma SubsetSize<T(!new)>(a: set<T>, b: set<T>)
    requires a <= b
    ensures |a| <= |b|
  {
    assert b == a + (b - a);
    assert |b| == |a| + |b - a|;
  }

  /** A list of distinct ids is complete exactly when it is as long as the list of modules. */
  lemma CompleteIffLong(ms: seq<ModuleInfo>, ids: seq<ModuleId>)
    requires InRange(ms, ids) && NoDuplicates(ids)
    ensures |ids| <= |ms|
    ensures |ids| == |ms| <==> forall i | 0 <= i < |ms| :: i in ids
  {
    NoDuplicatesSize(ids);
    var all := Below(|ms|);
    assert Elements(ids) <= all;
    SubsetSize(Elements(ids), all);
    if |ids| == |ms| {
      SameSizeSubset(Elements(ids), all);
      forall i | 0 <= i < |ms|
        ensures i in ids
      {
        assert i in all;
        assert i in Elements(ids);
      }
    }
    if forall i | 0 <= i < |ms| :: i in ids {
      SubsetSize(all, Elements(ids));
    }
  }

  // ---- Orders and cycles exclude each other ----

  function Position(order: seq<ModuleId>, id: ModuleId): (p: nat)
    requires id in order
    ensures p < |order| && order[p] == id
  {
    if order[0] == id then 0 else 1 + Position(order[1..], id)
  }

  /** Along a path the positions go down. */
  lemma {:induction false} PathGoesDown(ms: seq<ModuleInfo>, order: seq<ModuleId>, path: seq<ModuleId>)
    requires IsTopological(ms, order) && IsPath(ms, path) && path != []
    ensures path[0] in order && path[|path| - 1] in order
    ensures Position(order, path[|path| - 1]) + (|path| - 1) <= Position(order, path[0])
    decreases |path|
  {
    CompleteIffLong(ms, order);
    if |path| > 1 {
      var front := path[..|path| - 1];
      var i, d := path[|path| - 2], path[|path| - 1];
      PathGoesDown(ms, order, front);
      assert DependsOn(ms, i, d);
      var p := Position(order, i);
      assert d in order[..p];
      var q :| 0 <= q < p && order[..p][q] == d;
      assert order[q] == order[Position(order, d)];
      assert q == Position(order, d);
    }
  }

  lemma TopologicalIsAcyclic(ms: seq<ModuleInfo>, order: seq<ModuleId>)
    requires IsTopological(ms, order)
    ensures Acyclic(ms)
  {
    if path :| IsCycle(ms, path) {
      PathGoesDown(ms, order, path);
    }
  }

  // ---- The entry module ----

  /** An entry that imports every module, directly or through others, comes last. */
  lemma ReachingAllIsLast(ms: seq<ModuleInfo>, order: seq<ModuleId>, entry: ModuleId)
    requires IsTopological(ms, order) && entry < |ms|
    requires forall m | 0 <= m < |ms| :: Reaches(ms, entry, m)
    ensures order[|ms| - 1] == entry
  {
    var last := order[|ms| - 1];
    assert last < |ms| && Reaches(ms, entry, last);
    var path :| PathBetween(ms, path, entry, last);
    PathGoesDown(ms, order, path);
    assert order[Position(order, last)] == order[|ms| - 1];
    assert Position(order, last) == |ms| - 1;
  }

  lemma JoinDistinct<T(!new)>(a: seq<T>, b: seq<T>)
    requires NoDuplicates(a) && NoDuplicates(b) && forall x | x in a :: x !in b
    ensures NoDuplicates(a + b)
  {
    var s := a + b;
    forall i, j | 0 <= i < j < |s|
      ensures s[i] != s[j]
    {
      if i < |a| <= j {
        assert s[i] in a && s[j] == b[j - |a|];
      }
    }
  }
}
