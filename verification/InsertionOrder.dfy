/** The order in which modules and dependencies are added does not matter to the sort. */
module InsertionOrder {
  import opened Wrappers
  import opened ModuleGraphs
  import opened NameOrder
  import opened ImportGraph
  import opened TopologicalSorting

  /** A call on the graph under construction; modules are named, as the caller knows them. */
  datatype Call =
    | Module(name: string, path: string, isEntry: bool)
    | Dependency(from: string, to: string)

  /** Each name is added once, and before any dependency that mentions it. */
  ghost predicate ValidScript(calls: seq<Call>) {
    forall k | 0 <= k < |calls| ::
      match calls[k]
      case Module(name, _, _) => name !in ModuleNames(calls[..k])
      case Dependency(from, to) => from in ModuleNames(calls[..k]) && to in ModuleNames(calls[..k])
  }

  ghost function ModuleNames(calls: seq<Call>): set<string> {
    set c | c in calls && c.Module? :: c.name
  }

  ghost function Edges(calls: seq<Call>): set<(string, string)> {
    set c | c in calls && c.Dependency? && c.from != c.to :: (c.from, c.to)
  }

  ghost function IdOf(ms: seq<ModuleInfo>, name: string): (id: ModuleId)
    requires exists i :: 0 <= i < |ms| && ms[i].name == name
    ensures id < |ms| && ms[id].name == name
  {
    var i: ModuleId :| i < |ms| && ms[i].name == name;
    i
  }

  /** The modules after a script. */
  ghost function Built(calls: seq<Call>): (ms: seq<ModuleInfo>)
    requires ValidScript(calls)
    ensures WellFormed(ms) && UniqueNames(ms)
    ensures NameGraphOf(ms) == NameGraph(ModuleNames(calls), Edges(calls))
    decreases |calls|
  {
    if calls == [] then []
    else
      var front, last := calls[..|calls| - 1], calls[|calls| - 1];
      FrontIsValid(calls);
      var ms := Built(front);
      assert calls == front + [last];
      match last
      case Module(name, path, isEntry) =>
        AddedModuleGraph(ms, name, path, isEntry, front);
        AddedModule(ms, name, path, isEntry)
      case Dependency(from, to) =>
        assert from in NameGraphOf(ms).nodes && to in NameGraphOf(ms).nodes;
        AddedDependencyGraph(ms, IdOf(ms, from), IdOf(ms, to), front);
        AddedDependency(ms, IdOf(ms, from), IdOf(ms, to))
  }

  lemma FrontIsValid(calls: seq<Call>)
    requires ValidScript(calls) && calls != []
    ensures ValidScript(calls[..|calls| - 1])
  {
    var front := calls[..|calls| - 1];
    assert forall k | 0 <= k < |front| :: front[k] == calls[k] && front[..k] == calls[..k];
  }

  lemma AddedModuleGraph(ms: seq<ModuleInfo>, name: string, path: string, isEntry: bool, calls: seq<Call>)
    requires WellFormed(ms) && UniqueNames(ms) && name !in ModuleNames(calls)
    requires NameGraphOf(ms) == NameGraph(ModuleNames(calls), Edges(calls))
    ensures var ms' := AddedModule(ms, name, path, isEntry);
      var calls' := calls + [Module(name, path, isEntry)];
      WellFormed(ms') && UniqueNames(ms') && NameGraphOf(ms') == NameGraph(ModuleNames(calls'), Edges(calls'))
  {
    var ms' := AddedModule(ms, name, path, isEntry);
    var last := Module(name, path, isEntry);
    var calls' := calls + [last];
    var g, g' := NameGraphOf(ms), NameGraphOf(ms');
    assert forall i | 0 <= i < |ms| :: ms[i].name in g.nodes;
    assert last in calls';
    assert g'.nodes == ModuleNames(calls') by {
      assert ms'[|ms|].name == name;
      assert forall i | 0 <= i < |ms| :: ms'[i].name == ms[i].name;
      forall x ensures x in g'.nodes <==> x == name || x in g.nodes {
        if x in g.nodes {
          var i :| 0 <= i < |ms| && ms[i].name == x;
          assert ms'[i].name == x;
        }
      }
      assert ModuleNames(calls') == ModuleNames(calls) + {name};
    }
    forall e
      ensures e in g'.edges <==> e in g.edges
    {
      EdgeKept(ms, name, path, isEntry, e);
    }
    assert Edges(calls') == Edges(calls);
  }

  lemma EdgeKept(ms: seq<ModuleInfo>, name: string, path: string, isEntry: bool, e: (string, string))
    requires WellFormed(ms) && WellFormed(AddedModule(ms, name, path, isEntry))
    ensures e in NameGraphOf(AddedModule(ms, name, path, isEntry)).edges <==> e in NameGraphOf(ms).edges
  {
    var ms' := AddedModule(ms, name, path, isEntry);
    assert forall i | 0 <= i < |ms| :: ms'[i] == ms[i];
    if e in NameGraphOf(ms).edges {
      var i, d :| 0 <= i < |ms| && d in ms[i].dependencies && d < |ms| && e == (ms[i].name, ms[d].name);
      assert d in ms'[i].dependencies && e == (ms'[i].name, ms'[d].name);
    }
    if e in NameGraphOf(ms').edges {
      var i, d :| 0 <= i < |ms'| && d in ms'[i].dependencies && d < |ms'| && e == (ms'[i].name, ms'[d].name);
      assert i < |ms| && d in ms[i].dependencies;
    }
  }

  lemma AddedDependencyGraph(ms: seq<ModuleInfo>, from: ModuleId, to: ModuleId, calls: seq<Call>)
    requires WellFormed(ms) && UniqueNames(ms) && from < |ms| && to < |ms|
    requires NameGraphOf(ms) == NameGraph(ModuleNames(calls), Edges(calls))
    ensures var ms' := AddedDependency(ms, from, to);
      var calls' := calls + [Dependency(ms[from].name, ms[to].name)];
      WellFormed(ms') && UniqueNames(ms') && NameGraphOf(ms') == NameGraph(ModuleNames(calls'), Edges(calls'))
  {
    var ms' := AddedDependency(ms, from, to);
    var last := Dependency(ms[from].name, ms[to].name);
    var calls' := calls + [last];
    var g, g' := NameGraphOf(ms), NameGraphOf(ms');
    assert last in calls';
    assert ModuleNames(calls') == ModuleNames(calls);
    assert g'.nodes == g.nodes by {
      assert forall i | 0 <= i < |ms| :: ms'[i].name == ms[i].name;
    }
    var added := (ms[from].name, ms[to].name);
    assert Edges(calls') == Edges(calls) + if from == to then {} else {added};
    forall e
      ensures e in g'.edges <==> e in g.edges || (e == added && from != to)
    {
      EdgeAdded(ms, from, to, e);
    }
  }

  lemma EdgeAdded(ms: seq<ModuleInfo>, from: ModuleId, to: ModuleId, e: (string, string))
    requires WellFormed(ms) && from < |ms| && to < |ms| && WellFormed(AddedDependency(ms, from, to))
    ensures e in NameGraphOf(AddedDependency(ms, from, to)).edges
      <==> e in NameGraphOf(ms).edges || (e == (ms[from].name, ms[to].name) && from != to)
  {
    var ms' := AddedDependency(ms, from, to);
    assert forall i, d: ModuleId | 0 <= i < |ms| ::
      d in ms'[i].dependencies <==> d in ms[i].dependencies || (i == from && d == to && from != to);
    if e in NameGraphOf(ms).edges {
      var i, d :| 0 <= i < |ms| && d in ms[i].dependencies && d < |ms| && e == (ms[i].name, ms[d].name);
      assert d in ms'[i].dependencies && e == (ms'[i].name, ms'[d].name);
    }
    if e == (ms[from].name, ms[to].name) && from != to {
      assert to in ms'[from].dependencies && e == (ms'[from].name, ms'[to].name);
    }
  }

  // ---- Cycles in terms of names ----

  /** A cycle in one graph, spelled in names, is a cycle in any other graph of the same names. */
  lemma CycleTransfers(a: seq<ModuleInfo>, b: seq<ModuleInfo>, path: seq<ModuleId>)
    requires WellFormed(a) && UniqueNames(a) && WellFormed(b) && UniqueNames(b)
    requires NameGraphOf(a) == NameGraphOf(b) && IsCycle(a, path)
    ensures !Acyclic(b)
  {
    forall i | 0 <= i < |a|
      ensures exists j :: 0 <= j < |b| && b[j].name == a[i].name
    {
      assert a[i].name in NameGraphOf(a).nodes;
    }
    hide NameGraphOf;
    var moved := seq(|path|, k requires 0 <= k < |path| => IdOf(b, a[path[k]].name));
    forall k | 0 < k < |moved|
      ensures DependsOn(b, moved[k - 1], moved[k])
    {
      assert DependsOn(a, path[k - 1], path[k]);
      EdgeTransfers(a, b, path[k - 1], path[k]);
    }
    assert IsCycle(b, moved);
  }

  lemma EdgeTransfers(a: seq<ModuleInfo>, b: seq<ModuleInfo>, i: ModuleId, d: ModuleId)
    requires WellFormed(a) && WellFormed(b) && UniqueNames(b) && NameGraphOf(a) == NameGraphOf(b)
    requires DependsOn(a, i, d) && d < |a|
    ensures exists j :: 0 <= j < |b| && b[j].name == a[i].name
    ensures exists j :: 0 <= j < |b| && b[j].name == a[d].name
    ensures DependsOn(b, IdOf(b, a[i].name), IdOf(b, a[d].name))
  {
    var x, y := a[i].name, a[d].name;
    assert (x, y) in NameGraphOf(a).edges;
    assert (x, y) in NameGraphOf(b).edges;
    var j, e :| 0 <= j < |b| && e in b[j].dependencies && e < |b| && (b[j].name, b[e].name) == (x, y);
    assert j == IdOf(b, x) && e == IdOf(b, y);
  }

  /** Two scripts that add the same modules and the same dependencies, in whatever order, get the
      same verdict from the sort and, when there is one, the same order of names. */
  lemma ScriptOrderIrrelevant(a: seq<Call>, b: seq<Call>)
    requires ValidScript(a) && ValidScript(b)
    requires ModuleNames(a) == ModuleNames(b) && Edges(a) == Edges(b)
    ensures Acyclic(Built(a)) <==> Acyclic(Built(b))
    ensures KahnOrder(NameGraphOf(Built(a))) == KahnOrder(NameGraphOf(Built(b)))
  {
    if path :| IsCycle(Built(a), path) {
      CycleTransfers(Built(a), Built(b), path);
    }
    if path :| IsCycle(Built(b), path) {
      CycleTransfers(Built(b), Built(a), path);
    }
  }

  // ---- Scripts on graph objects ----

  lemma PrefixIsValid(calls: seq<Call>, k: nat)
    requires ValidScript(calls) && k <= |calls|
    ensures ValidScript(calls[..k])
  {
    assert forall j | 0 <= j < k :: calls[..k][j] == calls[j] && calls[..k][..j] == calls[..j];
  }

  /** Makes the calls of a script on a new graph. */
  method RunScript(calls: seq<Call>) returns (graph: ModuleGraph)
    requires ValidScript(calls)
    ensures fresh(graph) && graph.Valid() && graph.modules == Built(calls)
  {
    hide WellFormed, UniqueNames, NameGraphOf, ValidScript, ModuleNames, Edges, AddedModule, AddedDependency;
    graph := new ModuleGraph();
    PrefixIsValid(calls, 0);
    assert calls[..0] == [];
    for k := 0 to |calls|
      invariant ValidScript(calls[..k])
      invariant fresh(graph) && graph.Valid() && graph.modules == Built(calls[..k])
    {
      PrefixIsValid(calls, k + 1);
      assert calls[..k + 1][..k] == calls[..k];
      match calls[k]
      case Module(name, path, isEntry) =>
        var _ := graph.AddModule(name, path, isEntry);
      case Dependency(from, to) =>
        KnownNames(calls, k);
        OneIdPerName(graph.modules);
        var i, j := graph.Resolve(from), graph.Resolve(to);
        graph.AddDependency(i.value, j.value);
    }
    assert calls[..|calls|] == calls;
  }

  lemma KnownNames(calls: seq<Call>, k: nat)
    requires k < |calls| && ValidScript(calls) && ValidScript(calls[..k]) && calls[k].Dependency?
    ensures exists i :: 0 <= i < |Built(calls[..k])| && Built(calls[..k])[i].name == calls[k].from
    ensures exists i :: 0 <= i < |Built(calls[..k])| && Built(calls[..k])[i].name == calls[k].to
  {
    assert calls[k].from in NameGraphOf(Built(calls[..k])).nodes && calls[k].to in NameGraphOf(Built(calls[..k])).nodes;
  }

  lemma OneIdPerName(ms: seq<ModuleInfo>)
    requires UniqueNames(ms)
    ensures forall i, j | 0 <= i < |ms| && 0 <= j < |ms| && ms[i].name == ms[j].name :: i == j
  {
  }

  /** Two graphs with the same modules and dependencies, built in whatever order: `topological_sort`
      accepts both or neither, and gives the same names in the same order. */
  method SortScripts(a: seq<Call>, b: seq<Call>)
    returns (first: Result<seq<ModuleId>, CycleError>, second: Result<seq<ModuleId>, CycleError>)
    requires ValidScript(a) && ValidScript(b)
    requires ModuleNames(a) == ModuleNames(b) && Edges(a) == Edges(b)
    ensures first.Ok? <==> second.Ok?
    ensures first.Ok? ==>
      && IsTopological(Built(a), first.value) && IsTopological(Built(b), second.value)
      && Names(Built(a), first.value) == Names(Built(b), second.value)
  {
    hide ValidScript, Acyclic, KahnOrder, IsTopological, NameGraphOf, Built, ModuleNames, Edges, Names, UniqueNames;
    ScriptOrderIrrelevant(a, b);
    var g := RunScript(a);
    first := TopologicalSort(g);
    var h := RunScript(b);
    second := TopologicalSort(h);
  }

  // ---- The entry module need not come last ----

  lemma PairStarts(x: string, y: string)
    requires NameLess(x, y)
    ensures SortedNames(NewlyReady(NameGraph({x, y}, {}), {}, {})) == [x, y]
    ensures SortedNames({}) == [] && x != y
  {
    hide NameLess;
    NameLessTotal(x, y);
    var both := [x, y];
    var nothing: seq<string> := [];
    assert Increasing(both) && Elements(both) == {x, y};
    assert NewlyReady(NameGraph({x, y}, {}), {}, {}) == {x, y};
    SortedIsUnique(SortedNames({x, y}), both);
    assert Increasing(nothing) && Elements(nothing) == {};
    SortedIsUnique(SortedNames({}), nothing);
  }

  /** With both names met, processing the head adds no batch. */
  lemma PairStep(x: string, y: string, order: seq<string>, queue: seq<string>)
    requires x != y && SortedNames({}) == [] && order + queue == [x, y] && queue != []
    ensures Elements(order + queue) == {x, y} && NoDuplicates(order + queue)
    ensures var next := order + [queue[0]];
      && next + queue[1..] == [x, y]
      && KahnFrom(NameGraph({x, y}, {}), order, queue) == KahnFrom(NameGraph({x, y}, {}), next, queue[1..])
  {
    var g := NameGraph({x, y}, {});
    var both := [x, y];
    assert both[0] == x && both[1] == y;
    assert Elements(both) == {x, y};
    assert NewlyReady(g, Elements(order + [queue[0]]), Elements(order + queue)) == {};
    KahnUnfold(g, order, queue);
    assert queue[1..] + [] == queue[1..];
    assert order + [queue[0]] + queue[1..] == order + queue;
  }

  /** Two modules without dependencies come in alphabetical order. */
  lemma UnrelatedPair(x: string, y: string)
    requires NameLess(x, y)
    ensures KahnOrder(NameGraph({x, y}, {})) == [x, y]
  {
    hide NameLess, NewlyReady, SortedNames, KahnFrom;
    PairStarts(x, y);
    assert [] + [x, y] == [x, y];
    PairStep(x, y, [], [x, y]);
    assert [] + [x] == [x] && [x, y][1..] == [y];
    PairStep(x, y, [x], [y]);
    assert [x] + [y] == [x, y] && [y][1..] == [];
    PairEnds(x, y);
  }

  lemma PairEnds(x: string, y: string)
    requires x != y
    ensures Elements([x, y] + []) <= {x, y} && NoDuplicates([x, y] + [])
    ensures KahnFrom(NameGraph({x, y}, {}), [x, y], []) == [x, y]
  {
  }

  function Pair(entry: string, other: string): seq<ModuleInfo> {
    [ModuleInfo(0, entry, "main.mpl", [], true), ModuleInfo(1, other, "other.mpl", [], false)]
  }

  lemma FirstStep(ms: seq<ModuleInfo>, path: seq<ModuleId>)
    requires |path| > 1 && IsPath(ms, path)
    ensures DependsOn(ms, path[0], path[1])
  {
  }

  lemma PairGraph(entry: string, other: string)
    requires entry != other
    ensures var ms := Pair(entry, other);
      && WellFormed(ms) && UniqueNames(ms) && !Reaches(ms, 0, 1)
      && NameGraphOf(ms) == NameGraph({entry, other}, {})
  {
    var ms := Pair(entry, other);
    assert ms[0].name == entry && ms[1].name == other;
    assert NameGraphOf(ms).nodes == {entry, other};
    assert forall i: ModuleId, d: ModuleId :: !DependsOn(ms, i, d);
    forall path ensures !PathBetween(ms, path, 0, 1) {
      if |path| > 1 && IsPath(ms, path) {
        FirstStep(ms, path);
      }
    }
  }

  /** The order of names for an entry that imports nothing and a module nothing imports. */
  ghost predicate Comes(entry: string, other: string, names: seq<string>) {
    var ms := Pair(entry, other);
    WellFormed(ms) && UniqueNames(ms) && !Reaches(ms, 0, 1) && KahnOrder(NameGraphOf(ms)) == names
  }

  /** The smaller name comes first: the entry need not be last, nor need it reach every module to
      be last. */
  lemma EntryNeedNotBeLast()
    ensures Comes("Main", "Util", ["Main", "Util"])
    ensures Comes("Main", "App", ["App", "Main"])
  {
    hide KahnOrder, NameGraphOf, WellFormed, UniqueNames, Reaches;
    assert "Main"[0] == 'M' && "Util"[0] == 'U' && "App"[0] == 'A';
    assert NameLess("Main", "Util") && NameLess("App", "Main");
    PairGraph("Main", "Util");
    PairGraph("Main", "App");
    UnrelatedPair("Main", "Util");
    UnrelatedPair("App", "Main");
    assert {"Main", "App"} == {"App", "Main"};
  }
}
