/** Modules and their dependencies. */
module ModuleGraphs {
  import opened Wrappers

  type ModuleId = nat

  datatype ModuleInfo = ModuleInfo(
    id: ModuleId,
    name: string,
    path: string,
    dependencies: seq<ModuleId>,
    isEntry: bool)

  ghost predicate NoDuplicates<T(!new)>(s: seq<T>) {
    forall i, j | 0 <= i < j < |s| :: s[i] != s[j]
  }

  /** Ids are positions; a module's dependencies are modules, not itself, none listed twice. */
  ghost predicate WellFormed(ms: seq<ModuleInfo>) {
    forall i | 0 <= i < |ms| ::
      && ms[i].id == i
      && NoDuplicates(ms[i].dependencies)
      && (forall d | d in ms[i].dependencies :: d < |ms| && d != i)
  }

  ghost predicate UniqueNames(ms: seq<ModuleInfo>) {
    forall i, j | 0 <= i < j < |ms| :: ms[i].name != ms[j].name
  }

  function AddedModule(ms: seq<ModuleInfo>, name: string, path: string, isEntry: bool): seq<ModuleInfo> {
    ms + [ModuleInfo(|ms|, name, path, [], isEntry)]
  }

  /** Self-dependencies and repetitions are ignored. */
  function AddedDependency(ms: seq<ModuleInfo>, from: ModuleId, to: ModuleId): seq<ModuleInfo>
    requires from < |ms|
  {
    var deps := ms[from].dependencies;
    if from == to || to in deps then ms else ms[from := ms[from].(dependencies := deps + [to])]
  }

  lemma AddedModuleIsWellFormed(ms: seq<ModuleInfo>, name: string, path: string, isEntry: bool)
    requires WellFormed(ms)
    ensures WellFormed(AddedModule(ms, name, path, isEntry))
  {
  }

  lemma AddedDependencyIsWellFormed(ms: seq<ModuleInfo>, from: ModuleId, to: ModuleId)
    requires WellFormed(ms) && from < |ms| && to < |ms|
    ensures WellFormed(AddedDependency(ms, from, to))
  {
  }

  class ModuleGraph {
    var modules: seq<ModuleInfo>
    var nameToId: map<string, ModuleId>

    /** The lookup table knows exactly the names in use, each under its latest module. */
    ghost predicate Valid()
      reads this
    {
      && WellFormed(modules)
      && (forall i | 0 <= i < |modules| :: modules[i].name in nameToId)
      && (forall name | name in nameToId ::
            && nameToId[name] < |modules|
            && modules[nameToId[name]].name == name
            && (forall i | nameToId[name] < i < |modules| :: modules[i].name != name))
    }

    constructor ()
      ensures Valid() && modules == []
    {
      modules, nameToId := [], map[];
    }

    method AddModule(name: string, path: string, isEntry: bool) returns (id: ModuleId)
      requires Valid()
      modifies this
      ensures Valid() && id == |old(modules)|
      ensures modules == AddedModule(old(modules), name, path, isEntry)
    {
      AddedModuleIsWellFormed(modules, name, path, isEntry);
      hide WellFormed;
      id := |modules|;
      nameToId := nameToId[name := id];
      modules := modules + [ModuleInfo(id, name, path, [], isEntry)];
    }

    /** The latest module of that name, if there is one. */
    function Resolve(name: string): (id: Option<ModuleId>)
      requires Valid()
      reads this
      ensures id.None? <==> forall i | 0 <= i < |modules| :: modules[i].name != name
      ensures id.Some? ==> id.value < |modules| && modules[id.value].name == name
      ensures id.Some? ==> forall i | id.value < i < |modules| :: modules[i].name != name
    {
      if name in nameToId then Some(nameToId[name]) else None
    }

    method AddDependency(from: ModuleId, to: ModuleId)
      requires Valid() && from < |modules| && to < |modules|
      modifies this
      ensures Valid() && nameToId == old(nameToId)
      ensures modules == AddedDependency(old(modules), from, to)
      ensures forall i, d | 0 <= i < |modules| ::
        d in modules[i].dependencies <==> d in old(modules)[i].dependencies || (i == from && d == to && from != to)
    {
      AddedDependencyIsWellFormed(modules, from, to);
      hide WellFormed;
      if from == to {
        return;
      }
      var deps := modules[from].dependencies;
      if to !in deps {
        modules := modules[from := modules[from].(dependencies := deps + [to])];
      }
    }
  }
}
