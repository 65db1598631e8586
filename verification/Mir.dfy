/** The part of the mid-level representation that handler preparation reads and writes. */
module Mir {
  import opened Wrappers

  datatype MirType =
    | StringType
    | UnitType
    | PtrType
    | FnPtr(params: seq<MirType>, result: MirType)
    | OtherType(name: string)

  datatype MirExpr =
    | Var(name: string, ty: MirType)
    | Call(func: MirExpr, args: seq<MirExpr>, ty: MirType)
    | Let(name: string, ty: MirType, value: MirExpr, body: MirExpr)
    | UnitExpr
    | OtherExpr(text: string)

  datatype Param = Param(name: string, ty: MirType)

  datatype MirFunction = MirFunction(
    name: string,
    params: seq<Param>,
    returnType: MirType,
    body: MirExpr,
    isClosureFn: bool,
    captures: seq<Param>,
    hasTailCalls: bool)

  /** The first function of that name. */
  function FindFunction(fns: seq<MirFunction>, name: string): (f: Option<MirFunction>)
    ensures f.Some? ==> f.value in fns && f.value.name == name
    ensures f.None? <==> forall k | 0 <= k < |fns| :: fns[k].name != name
  {
    if fns == [] then None
    else if fns[0].name == name then Some(fns[0])
    else FindFunction(fns[1..], name)
  }

  /** `k` is the first position of that name. */
  predicate FirstNamed(fns: seq<MirFunction>, name: string, k: nat) {
    k < |fns| && fns[k].name == name && forall j | 0 <= j < k :: fns[j].name != name
  }

  lemma {:induction false} FindIsFirst(fns: seq<MirFunction>, name: string)
    ensures forall k: nat | FirstNamed(fns, name, k) :: FindFunction(fns, name) == Some(fns[k])
    ensures FindFunction(fns, name).Some? ==> exists k: nat :: FirstNamed(fns, name, k)
    decreases |fns|
  {
    if fns != [] {
      if fns[0].name == name {
        assert FirstNamed(fns, name, 0);
      } else {
        FindIsFirst(fns[1..], name);
        forall k: nat | FirstNamed(fns, name, k) ensures FindFunction(fns, name) == Some(fns[k]) {
          assert FirstNamed(fns[1..], name, k - 1);
        }
        if k: nat :| FirstNamed(fns[1..], name, k) {
          assert FirstNamed(fns, name, k + 1);
        }
      }
    }
  }

  predicate HasFunction(fns: seq<MirFunction>, name: string) {
    FindFunction(fns, name).Some?
  }

  /** Appending does not change what an earlier search found. */
  lemma {:induction false} FindInLonger(fns: seq<MirFunction>, more: seq<MirFunction>, name: string)
    ensures FindFunction(fns + more, name)
         == if HasFunction(fns, name) then FindFunction(fns, name) else FindFunction(more, name)
    decreases |fns|
  {
    if fns == [] {
      assert fns + more == more;
    } else {
      assert (fns + more)[1..] == fns[1..] + more;
      FindInLonger(fns[1..], more, name);
    }
  }
}
