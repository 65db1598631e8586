/** The one dependency order in which each module comes as soon as the last of its dependencies
    has, ties broken by name: where it puts a module, in terms of the graph alone. */
module ReadyOrder {
  import opened ModuleGraphs
  import opened NameOrder
  import opened ImportGraph

  /** One more than the last position in `order` of a dependency of `i`; 0 if there is none. */
  function Latest(ms: seq<ModuleInfo>, order: seq<ModuleId>, i: ModuleId): (n: nat)
    requires i < |ms|
    ensures n <= |order|
    ensures n > 0 ==> order[n - 1] in ms[i].dependencies
    ensures forall p | n <= p < |order| :: order[p] !in ms[i].dependencies
  {
    if order == [] then 0
    else if order[|order| - 1] in ms[i].dependencies then |order|
    else Latest(ms, order[..|order| - 1], i)
  }

  /** Ready sooner, or at the same time with the smaller name. */
  predicate Sooner(ms: seq<ModuleInfo>, order: seq<ModuleId>, a: ModuleId, b: ModuleId)
    requires a < |ms| && b < |ms|
  {
    || Latest(ms, order, a) < Latest(ms, order, b)
    || (Latest(ms, order, a) == Latest(ms, order, b) && NameLess(ms[a].name, ms[b].name))
  }

  ghost predicate Sequenced(ms: seq<ModuleInfo>, order: seq<ModuleId>, ids: seq<ModuleId>)
    requires InRange(ms, ids)
  {
    forall p, q | 0 <= p < q < |ids| :: Sooner(ms, order, ids[p], ids[q])
  }

  /** A dependency order in which modules come as they get ready. */
  ghost predicate IsReadyOrder(ms: seq<ModuleInfo>, order: seq<ModuleId>) {
    IsTopological(ms, order) && Sequenced(ms, order, order)
  }

  // ---- Depth ----

  /** Some chain of dependencies from `i` has `n` links. */
  ghost predicate HasChain(ms: seq<ModuleInfo>, i: ModuleId, n: nat) {
    exists path :: |path| == n + 1 && IsPath(ms, path) && path[0] == i
  }

  ghost function LongestUpTo(ms: seq<ModuleInfo>, i: ModuleId, n: nat): (m: nat)
    ensures m <= n
    ensures m > 0 ==> HasChain(ms, i, m)
    ensures forall k | m < k <= n :: !HasChain(ms, i, k)
  {
    if n == 0 || HasChain(ms, i, n) then n else LongestUpTo(ms, i, n - 1)
  }

  /** The number of links in the longest chain of dependencies from a module. */
  ghost function Depth(ms: seq<ModuleInfo>, i: ModuleId): nat {
    LongestUpTo(ms, i, |ms|)
  }

  /** Without cycles no chain is longer than there are modules. */
  lemma ChainsAreShort(ms: seq<ModuleInfo>, order: seq<ModuleId>, i: ModuleId, n: nat)
    requires IsTopological(ms, order) && HasChain(ms, i, n)
    ensures n < |ms|
  {
    var path :| |path| == n + 1 && IsPath(ms, path) && path[0] == i;
    PathGoesDown(ms, order, path);
  }

  /** The depth is the length of a longest chain. */
  lemma DepthIsLongest(ms: seq<ModuleInfo>, order: seq<ModuleId>, i: ModuleId)
    requires IsTopological(ms, order) && i < |ms|
    ensures HasChain(ms, i, Depth(ms, i))
    ensures forall n: nat | HasChain(ms, i, n) :: n <= Depth(ms, i)
  {
    var here := [i];
    assert IsPath(ms, here) && |here| == 1 && here[0] == i;
    assert HasChain(ms, i, 0);
    forall n: nat | HasChain(ms, i, n) ensures n <= Depth(ms, i) {
      ChainsAreShort(ms, order, i, n);
    }
  }

  lemma ChainGrows(ms: seq<ModuleInfo>, i: ModuleId, d: ModuleId, n: nat)
    requires DependsOn(ms, i, d) && HasChain(ms, d, n)
    ensures HasChain(ms, i, n + 1)
  {
    var path :| |path| == n + 1 && IsPath(ms, path) && path[0] == d;
    var longer := [i] + path;
    assert IsPath(ms, longer) && |longer| == n + 2 && longer[0] == i;
  }

  lemma ChainTail(ms: seq<ModuleInfo>, i: ModuleId, n: nat) returns (d: ModuleId)
    requires HasChain(ms, i, n) && n > 0
    ensures DependsOn(ms, i, d) && d < |ms| && HasChain(ms, d, n - 1)
  {
    var path :| |path| == n + 1 && IsPath(ms, path) && path[0] == i;
    d := path[1];
    assert DependsOn(ms, path[0], path[1]);
    var tail := path[1..];
    assert IsPath(ms, tail) && |tail| == n && tail[0] == d;
  }

  /** A module is deeper than each of its dependencies, by one than its deepest. */
  lemma DepthSteps(ms: seq<ModuleInfo>, order: seq<ModuleId>, i: ModuleId)
    requires WellFormed(ms) && IsTopological(ms, order) && i < |ms|
    ensures forall d: ModuleId | DependsOn(ms, i, d) :: d < |ms| && Depth(ms, d) < Depth(ms, i)
    ensures Depth(ms, i) > 0 ==> exists d: ModuleId :: DependsOn(ms, i, d) && Depth(ms, d) + 1 == Depth(ms, i)
  {
    hide Depth, HasChain;
    DepthIsLongest(ms, order, i);
    forall d: ModuleId | DependsOn(ms, i, d) ensures d < |ms| && Depth(ms, d) < Depth(ms, i) {
      assert d in ms[i].dependencies;
      DepthIsLongest(ms, order, d);
      ChainGrows(ms, i, d, Depth(ms, d));
    }
    if Depth(ms, i) > 0 {
      var d := ChainTail(ms, i, Depth(ms, i));
      DepthIsLongest(ms, order, d);
      assert Depth(ms, i) - 1 <= Depth(ms, d);
    }
  }

  // ---- Depth does not go down along the order ----

  lemma DependenciesAreEarlier(ms: seq<ModuleInfo>, order: seq<ModuleId>, p: nat, d: ModuleId)
    requires WellFormed(ms) && IsTopological(ms, order) && p < |order| && d in ms[order[p]].dependencies
    ensures exists k :: 0 <= k < Latest(ms, order, order[p]) && order[k] == d
    ensures 0 < Latest(ms, order, order[p]) <= p
  {
    assert d in order[..p];
    var k :| 0 <= k < p && order[..p][k] == d;
    assert order[k] == d;
    var n := Latest(ms, order, order[p]);
    assert k < n;
    var last := order[n - 1];
    assert last in order[..p];
    var j :| 0 <= j < p && order[..p][j] == last;
    assert order[j] == order[n - 1];
    assert j == n - 1;
  }

  lemma NothingLatest(ms: seq<ModuleInfo>, order: seq<ModuleId>, p: nat)
    requires WellFormed(ms) && IsTopological(ms, order) && p < |order|
    ensures Latest(ms, order, order[p]) <= p
    ensures Latest(ms, order, order[p]) == 0 ==> ms[order[p]].dependencies == []
  {
    if ms[order[p]].dependencies != [] {
      DependenciesAreEarlier(ms, order, p, ms[order[p]].dependencies[0]);
    }
  }

  lemma InSequence(ms: seq<ModuleInfo>, order: seq<ModuleId>, p: nat, q: nat)
    requires IsReadyOrder(ms, order) && p < q < |order|
    ensures order[p] < |ms| && order[q] < |ms| && Sooner(ms, order, order[p], order[q])
  {
  }

  /** The deepest dependency of one module, and the latest of a later one. */
  lemma CompareLatest(ms: seq<ModuleInfo>, order: seq<ModuleId>, p: nat, q: nat) returns (k: nat, l: nat)
    requires WellFormed(ms) && IsReadyOrder(ms, order) && p < q < |order| && Depth(ms, order[p]) > 0
    ensures k <= l < q
    ensures Depth(ms, order[p]) == Depth(ms, order[k]) + 1 && Depth(ms, order[l]) < Depth(ms, order[q])
  {
    hide Depth, WellFormed, Respects, NoDuplicates, Sequenced;
    InSequence(ms, order, p, q);
    var a, b := order[p], order[q];
    DepthSteps(ms, order, a);
    DepthSteps(ms, order, b);
    var d: ModuleId :| DependsOn(ms, a, d) && Depth(ms, d) + 1 == Depth(ms, a);
    DependenciesAreEarlier(ms, order, p, d);
    NothingLatest(ms, order, q);
    k :| 0 <= k < Latest(ms, order, a) && order[k] == d;
    l := Latest(ms, order, b) - 1;
    assert DependsOn(ms, b, order[l]);
  }

  lemma {:induction false} DepthNotDown(ms: seq<ModuleInfo>, order: seq<ModuleId>, p: nat, q: nat)
    requires WellFormed(ms) && IsReadyOrder(ms, order) && p <= q < |order|
    ensures Depth(ms, order[p]) <= Depth(ms, order[q])
    decreases q
  {
    hide Depth, WellFormed, IsReadyOrder;
    if p < q && Depth(ms, order[p]) > 0 {
      var k, l := CompareLatest(ms, order, p, q);
      DepthNotDown(ms, order, k, l);
    }
  }

  /** Strictly increasing by depth, then by the place of the latest dependency, then by name. */
  lemma OrderByDepth(ms: seq<ModuleInfo>, order: seq<ModuleId>, p: nat, q: nat)
    requires WellFormed(ms) && IsReadyOrder(ms, order) && p < q < |order|
    ensures var a, b := order[p], order[q];
      || Depth(ms, a) < Depth(ms, b)
      || (Depth(ms, a) == Depth(ms, b) && Sooner(ms, order, a, b))
  {
    hide Depth, WellFormed, Respects, NoDuplicates, Latest;
    DepthNotDown(ms, order, p, q);
  }

  // ---- The order, without the order ----

  /** Some dependency of `b` comes later than all those of `a`. */
  ghost predicate WaitsLonger(ms: seq<ModuleInfo>, a: ModuleId, b: ModuleId)
    decreases Depth(ms, a) + Depth(ms, b), 0
  {
    exists d: ModuleId :: DependsOn(ms, b, d) && Depth(ms, d) < Depth(ms, b) &&
      forall c: ModuleId | DependsOn(ms, a, c) && Depth(ms, c) < Depth(ms, a) :: Before(ms, c, d)
  }

  /** The order of the sort on modules, from the graph alone: less deep; equally deep, but waiting
      less long for the last dependency; or waiting equally long, with the smaller name. */
  ghost predicate Before(ms: seq<ModuleInfo>, a: ModuleId, b: ModuleId)
    decreases Depth(ms, a) + Depth(ms, b), 1
  {
    || Depth(ms, a) < Depth(ms, b)
    || (Depth(ms, a) == Depth(ms, b) &&
         (WaitsLonger(ms, a, b)
          || (!WaitsLonger(ms, b, a) && a < |ms| && b < |ms| && NameLess(ms[a].name, ms[b].name))))
  }

  /** `Before` is the order of positions, for modules before the given ones. */
  ghost predicate Agrees(ms: seq<ModuleInfo>, order: seq<ModuleId>, p: nat, q: nat) {
    && p < |order| && q < |order|
    && (Before(ms, order[p], order[q]) <==> p < q)
    && (Before(ms, order[q], order[p]) <==> q < p)
  }

  lemma PlaceOf(ms: seq<ModuleInfo>, order: seq<ModuleId>, m: ModuleId) returns (p: nat)
    requires IsTopological(ms, order) && m < |ms|
    ensures p < |order| && order[p] == m
  {
    CompleteIffLong(ms, order);
    assert m in order;
    p :| 0 <= p < |order| && order[p] == m;
  }

  lemma WaitsByLatest(ms: seq<ModuleInfo>, order: seq<ModuleId>, p: nat, q: nat)
    requires WellFormed(ms) && IsReadyOrder(ms, order) && p < |order| && q < |order|
    requires forall i: nat, j: nat | i < p && j < q :: Agrees(ms, order, i, j)
    ensures WaitsLonger(ms, order[p], order[q]) <==> Latest(ms, order, order[p]) < Latest(ms, order, order[q])
  {
    hide Depth, WellFormed, Respects, NoDuplicates, Latest, Before, Sequenced;
    var a, b := order[p], order[q];
    var m, n := Latest(ms, order, a), Latest(ms, order, b);
    DepthSteps(ms, order, a);
    DepthSteps(ms, order, b);
    NothingLatest(ms, order, p);
    NothingLatest(ms, order, q);
    if m < n {
      var d := order[n - 1];
      forall c: ModuleId | DependsOn(ms, a, c) ensures Before(ms, c, d) {
        DependenciesAreEarlier(ms, order, p, c);
        var k: nat :| k < m && order[k] == c;
        assert Agrees(ms, order, k, n - 1);
      }
      assert DependsOn(ms, b, d);
    } else {
      forall d: ModuleId | DependsOn(ms, b, d)
        ensures m > 0 && DependsOn(ms, a, order[m - 1]) && !Before(ms, order[m - 1], d)
      {
        DependenciesAreEarlier(ms, order, q, d);
        var k: nat :| k < n && order[k] == d;
        assert Agrees(ms, order, m - 1, k);
      }
    }
  }

  lemma {:induction false} BeforeIsPosition(ms: seq<ModuleInfo>, order: seq<ModuleId>, p: nat, q: nat)
    requires WellFormed(ms) && IsReadyOrder(ms, order) && p < |order| && q < |order|
    ensures Agrees(ms, order, p, q)
    decreases p + q
  {
    hide Depth, WellFormed, Respects, NoDuplicates, Latest, WaitsLonger;
    forall i: nat, j: nat | i < p && j < q ensures Agrees(ms, order, i, j) {
      BeforeIsPosition(ms, order, i, j);
    }
    forall i: nat, j: nat | i < q && j < p ensures Agrees(ms, order, i, j) {
      BeforeIsPosition(ms, order, i, j);
    }
    WaitsByLatest(ms, order, p, q);
    WaitsByLatest(ms, order, q, p);
    if p < q {
      Ordered(ms, order, p, q);
    } else if q < p {
      Ordered(ms, order, q, p);
    } else {
      NameLessTotal(ms[order[p]].name, ms[order[p]].name);
    }
  }

  lemma Ordered(ms: seq<ModuleInfo>, order: seq<ModuleId>, p: nat, q: nat)
    requires WellFormed(ms) && IsReadyOrder(ms, order) && p < q < |order|
    requires WaitsLonger(ms, order[p], order[q]) <==> Latest(ms, order, order[p]) < Latest(ms, order, order[q])
    requires WaitsLonger(ms, order[q], order[p]) <==> Latest(ms, order, order[q]) < Latest(ms, order, order[p])
    ensures Before(ms, order[p], order[q]) && !Before(ms, order[q], order[p])
  {
    hide Depth, WellFormed, Respects, NoDuplicates, Latest, WaitsLonger;
    OrderByDepth(ms, order, p, q);
    NameLessTotal(ms[order[p]].name, ms[order[q]].name);
  }

  // ---- Consequences ----

  /** The graph decides where two modules stand: there is one order of this kind. */
  lemma ReadyOrderIsUnique(ms: seq<ModuleInfo>, a: seq<ModuleId>, b: seq<ModuleId>)
    requires WellFormed(ms) && IsReadyOrder(ms, a) && IsReadyOrder(ms, b)
    ensures a == b
  {
    hide WellFormed, Sequenced, Before, Respects, NoDuplicates;
    SameOrder(ms, a, b, |a|);
  }

  lemma {:induction false} SameOrder(ms: seq<ModuleInfo>, a: seq<ModuleId>, b: seq<ModuleId>, n: nat)
    requires WellFormed(ms) && IsReadyOrder(ms, a) && IsReadyOrder(ms, b) && n <= |a| == |b|
    ensures a[..n] == b[..n]
  {
    hide WellFormed, Sequenced, Before, Respects, NoDuplicates;
    if n > 0 {
      SameOrder(ms, a, b, n - 1);
      var k := n - 1;
      if a[k] != b[k] {
        ElsewhereLater(ms, a, b, k);
        ElsewhereLater(ms, b, a, k);
      }
    }
  }

  lemma ElsewhereLater(ms: seq<ModuleInfo>, a: seq<ModuleId>, b: seq<ModuleId>, k: nat)
    requires WellFormed(ms) && IsReadyOrder(ms, a) && IsReadyOrder(ms, b) && k < |a| == |b|
    requires a[..k] == b[..k] && a[k] != b[k]
    ensures Before(ms, a[k], b[k]) && !Before(ms, b[k], a[k])
  {
    hide Before, Sequenced, WellFormed, Respects;
    var q := PlaceOf(ms, a, b[k]);
    assert forall i | 0 <= i < k :: a[i] == a[..k][i] == b[..k][i] == b[i];
    BeforeIsPosition(ms, a, k, q);
  }

  ghost predicate AllBefore(ms: seq<ModuleInfo>, entry: ModuleId) {
    forall m: ModuleId | m < |ms| && m != entry :: Before(ms, m, entry)
  }

  /** The exact condition for a module to come last, from the graph alone. */
  lemma LastIffAllBefore(ms: seq<ModuleInfo>, order: seq<ModuleId>, entry: ModuleId)
    requires WellFormed(ms) && IsReadyOrder(ms, order) && entry < |ms|
    ensures order[|ms| - 1] == entry <==> AllBefore(ms, entry)
  {
    hide Sequenced, WaitsLonger, Depth, WellFormed, Respects, NoDuplicates;
    var n := |ms| - 1;
    if order[n] == entry {
      forall m: ModuleId | m < |ms| && m != entry ensures Before(ms, m, entry) {
        var p := PlaceOf(ms, order, m);
        BeforeIsPosition(ms, order, p, n);
      }
    } else {
      var p := PlaceOf(ms, order, entry);
      BeforeIsPosition(ms, order, n, p);
      var last := order[n];
      assert last < |ms| && last != entry && !Before(ms, last, entry);
    }
  }

  /** A module strictly deeper than all others comes last. */
  lemma DeepestIsLast(ms: seq<ModuleInfo>, order: seq<ModuleId>, entry: ModuleId)
    requires WellFormed(ms) && IsReadyOrder(ms, order) && entry < |ms|
    requires forall m: ModuleId | m < |ms| && m != entry :: Depth(ms, m) < Depth(ms, entry)
    ensures order[|ms| - 1] == entry
  {
    hide Depth, Sequenced, Respects, NoDuplicates, WellFormed, WaitsLonger;
    LastIffAllBefore(ms, order, entry);
  }

  /** A module that some other is deeper than never comes last. */
  lemma LastIsDeepest(ms: seq<ModuleInfo>, order: seq<ModuleId>, entry: ModuleId, m: ModuleId)
    requires WellFormed(ms) && IsReadyOrder(ms, order) && entry < |ms| && m < |ms|
    requires Depth(ms, entry) < Depth(ms, m)
    ensures order[|ms| - 1] != entry
  {
    hide Depth, Sequenced, Respects, NoDuplicates, WellFormed, WaitsLonger;
    LastIffAllBefore(ms, order, entry);
    assert m != entry;
    assert !Before(ms, m, entry);
  }
}
