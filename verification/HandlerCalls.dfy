/** What running a generated function passes on: the calls its body makes, with the values they get,
    and the value it returns. */
module HandlerCalls {
  import opened Wrappers
  import opened Mir
  import opened DeclaredHandlers

  // ---- Running a body ----

  /** Values as terms: what a caller gives, and the result of calling a function with values. */
  datatype Value = UnitValue | Given(id: nat) | ResultOf(callee: string, args: seq<Value>)

  type Env = map<string, Value>

  /** The value of an expression and the calls made on the way, in order. */
  datatype Ran = Ran(value: Value, calls: seq<Value>)

  datatype RanAll = RanAll(values: seq<Value>, calls: seq<Value>)

  /** None where a name is unknown or the expression is not part of the model. */
  function Eval(e: MirExpr, env: Env): Option<Ran>
    decreases e, 0
  {
    match e
    case Var(name, _) => if name in env then Some(Ran(env[name], [])) else None
    case Call(Var(name, _), args, ty) =>
      (match EvalAll(args, env)
       case None => None
       case Some(all) =>
         var result := ResultOf(name, all.values);
         Some(Ran(if ty == UnitType then UnitValue else result, all.calls + [result])))
    case Let(name, _, value, body) =>
      (match Eval(value, env)
       case None => None
       case Some(first) =>
         match Eval(body, env[name := first.value])
         case None => None
         case Some(rest) => Some(Ran(rest.value, first.calls + rest.calls)))
    case UnitExpr => Some(Ran(UnitValue, []))
    case _ => None
  }

  function EvalAll(es: seq<MirExpr>, env: Env): Option<RanAll>
    decreases es, 1
  {
    if es == [] then Some(RanAll([], []))
    else
      match EvalAll(es[..|es| - 1], env)
      case None => None
      case Some(front) =>
        match Eval(es[|es| - 1], env)
        case None => None
        case Some(last) => Some(RanAll(front.values + [last.value], front.calls + last.calls))
  }

  /** The parameters with the values given for them; of two parameters of one name the later counts. */
  function Bind(params: seq<Param>, args: seq<Value>): Env
    requires |params| == |args|
  {
    if params == [] then map[]
    else
      var n := |params| - 1;
      Bind(params[..n], args[..n])[params[n].name := args[n]]
  }

  /** Running a function on values for its parameters. */
  function RunFunction(f: MirFunction, args: seq<Value>): Option<Ran>
    requires |f.params| == |args|
  {
    Eval(f.body, Bind(f.params, args))
  }

  // ---- Passing parameters on ----

  predicate DistinctNames(params: seq<Param>) {
    forall i, j | 0 <= i < j < |params| :: params[i].name != params[j].name
  }

  /** The parameters as arguments. */
  ghost predicate PassesOn(args: seq<MirExpr>, params: seq<Param>) {
    |args| == |params| && forall k | 0 <= k < |params| :: args[k].Var? && args[k].name == params[k].name
  }

  lemma {:induction false} BindNames(params: seq<Param>, args: seq<Value>)
    requires |params| == |args|
    ensures forall k | 0 <= k < |params| :: params[k].name in Bind(params, args)
    ensures DistinctNames(params) ==> forall k | 0 <= k < |params| :: Bind(params, args)[params[k].name] == args[k]
  {
    if params != [] {
      var n := |params| - 1;
      BindNames(params[..n], args[..n]);
      assert forall k | 0 <= k < n :: params[..n][k] == params[k] && args[..n][k] == args[k];
    }
  }

  /** The values of the parameters. */
  function Looked(params: seq<Param>, env: Env): (values: seq<Value>)
    requires forall k | 0 <= k < |params| :: params[k].name in env
    ensures |values| == |params| && forall k | 0 <= k < |params| :: values[k] == env[params[k].name]
  {
    seq(|params|, k requires 0 <= k < |params| => env[params[k].name])
  }

  lemma AloneInOrder()
    ensures forall calls: seq<Value> :: [] + calls == calls == calls + []
  {
  }

  lemma {:induction false} PassedValues(args: seq<MirExpr>, params: seq<Param>, env: Env)
    requires PassesOn(args, params) && forall k | 0 <= k < |params| :: params[k].name in env
    ensures EvalAll(args, env) == Some(RanAll(Looked(params, env), []))
  {
    if params == [] {
      assert args == [] && Looked(params, env) == [];
    } else {
      var n := |params| - 1;
      PassedValues(args[..n], params[..n], env);
      assert Looked(params, env) == Looked(params[..n], env) + [env[params[n].name]];
      AloneInOrder();
      assert Eval(args[n], env) == Some(Ran(env[params[n].name], []));
    }
  }

  function Numbered(n: nat): (args: seq<Value>)
    ensures |args| == n && forall i | 0 <= i < n :: args[i] == Given(i)
  {
    seq(n, i requires 0 <= i < n => Given(i))
  }

  /** Bound and looked up by name, the values come out as they went in, whatever they are, exactly
      when no two parameters have the same name. */
  lemma PassedInOrder(params: seq<Param>)
    ensures DistinctNames(params) <==> forall args: seq<Value> | |args| == |params| ::
      forall k | 0 <= k < |params| ::
        params[k].name in Bind(params, args) && Bind(params, args)[params[k].name] == args[k]
  {
    forall args: seq<Value> | |args| == |params|
      ensures forall k | 0 <= k < |params| :: params[k].name in Bind(params, args)
      ensures DistinctNames(params) ==> forall k | 0 <= k < |params| :: Bind(params, args)[params[k].name] == args[k]
    {
      BindNames(params, args);
    }
    var numbered := Numbered(|params|);
    if i, j :| 0 <= i < j < |params| && params[i].name == params[j].name {
      assert numbered[i] != numbered[j];
    }
  }

  // ---- What is handed over ----

  /** What the caller of a target gets back from it. */
  function Returned(target: MirFunction, args: seq<Value>): Value {
    if target.returnType == UnitType then UnitValue else ResultOf(target.name, args)
  }

  /** A work entry runs its target with the request key and the attempt id, in that order, or with
      nothing if it takes nothing, and returns nothing. A service entry runs its target with its own
      arguments, in order, and returns what the target returns. Either makes no other call. */
  ghost predicate HandsOver(kind: HandlerKind, caller: MirFunction, target: MirFunction) {
    && |caller.params| == (if kind == Work then 2 else |target.params|)
    && forall args: seq<Value> | |args| == |caller.params| ::
         var passed := if kind == Work && target.params == [] then [] else args;
         RunFunction(caller, args) ==
           Some(Ran(if kind == Work then UnitValue else Returned(target, passed), [ResultOf(target.name, passed)]))
  }

  /** A body that calls the target with the parameters as arguments. */
  lemma CallPassesOn(target: MirFunction, args: seq<MirExpr>, params: seq<Param>, env: Env)
    requires PassesOn(args, params) && forall k | 0 <= k < |params| :: params[k].name in env
    ensures var passed := Looked(params, env);
      Eval(CallOf(target, args), env) == Some(Ran(Returned(target, passed), [ResultOf(target.name, passed)]))
  {
    hide EvalAll;
    PassedValues(args, params, env);
    AloneInOrder();
  }

  lemma SamePassed(params: seq<Param>, values: seq<Value>)
    requires |params| == |values| && forall k | 0 <= k < |params| :: params[k].name in Bind(params, values)
    ensures var env := Bind(params, values);
      values == Looked(params, env) <==> forall k | 0 <= k < |params| :: env[params[k].name] == values[k]
  {
  }

  /** What running a body that passes the parameters on comes to, names and all. */
  ghost predicate PassesByName(kind: HandlerKind, caller: MirFunction, target: MirFunction) {
    && caller.params == target.params
    && forall values: seq<Value> | |values| == |target.params| ::
         && (forall k | 0 <= k < |target.params| :: target.params[k].name in Bind(target.params, values))
         && var passed := Looked(target.params, Bind(target.params, values));
            RunFunction(caller, values) ==
              Some(Ran(if kind == Work then UnitValue else Returned(target, passed), [ResultOf(target.name, passed)]))
  }

  lemma HandsOverByName(kind: HandlerKind, caller: MirFunction, target: MirFunction)
    requires PassesByName(kind, caller, target) && (kind == Work ==> |target.params| == 2)
    ensures HandsOver(kind, caller, target) <==> DistinctNames(target.params)
  {
    hide RunFunction, DistinctNames, Bind;
    PassedInOrder(target.params);
    forall values: seq<Value> | |values| == |target.params|
      ensures (forall k | 0 <= k < |target.params| :: target.params[k].name in Bind(target.params, values))
      ensures RunFunction(caller, values) ==
          Some(Ran(if kind == Work then UnitValue else Returned(target, values), [ResultOf(target.name, values)]))
         <==> forall k | 0 <= k < |target.params| :: Bind(target.params, values)[target.params[k].name] == values[k]
    {
      SamePassed(target.params, values);
      SameCall(kind, target, values, Looked(target.params, Bind(target.params, values)));
    }
  }

  lemma SameCall(kind: HandlerKind, target: MirFunction, a: seq<Value>, b: seq<Value>)
    ensures [ResultOf(target.name, a)] == [ResultOf(target.name, b)] <==> a == b
  {
    assert [ResultOf(target.name, a)][0] == ResultOf(target.name, a);
    assert [ResultOf(target.name, b)][0] == ResultOf(target.name, b);
  }

  /** The wrapper of a service hands over exactly when no two parameters of the helper have the same
      name. */
  lemma ServiceHandsOver(helper: MirFunction, kind: HandlerKind, wrapper: string)
    requires kind == ServiceCall || kind == ServiceCast
    ensures HandsOver(kind, ServiceFunction(helper, wrapper), helper) <==> DistinctNames(helper.params)
  {
    hide Eval, DistinctNames, HandsOver;
    var caller := ServiceFunction(helper, wrapper);
    forall values: seq<Value> | |values| == |helper.params|
      ensures (forall k | 0 <= k < |helper.params| :: helper.params[k].name in Bind(helper.params, values))
      ensures var passed := Looked(helper.params, Bind(helper.params, values));
        RunFunction(caller, values) == Some(Ran(Returned(helper, passed), [ResultOf(helper.name, passed)]))
    {
      BindNames(helper.params, values);
      CallPassesOn(helper, caller.body.args, helper.params, Bind(helper.params, values));
    }
    HandsOverByName(kind, caller, helper);
  }

  /** The actor body of a work target hands over exactly when the target's parameters have different
      names. */
  lemma WorkHandsOver(target: MirFunction, wrapper: string)
    requires WorkSignatureOk(target.params)
    ensures HandsOver(Work, WorkFunctions(target, wrapper)[0], target) <==> DistinctNames(target.params)
  {
    hide Eval, DistinctNames, HandsOver;
    var caller := WorkFunctions(target, wrapper)[0];
    if target.params == [] {
      NothingHandedOver(caller, target);
    } else {
      forall values: seq<Value> | |values| == 2
        ensures (forall k | 0 <= k < 2 :: target.params[k].name in Bind(target.params, values))
        ensures var passed := Looked(target.params, Bind(target.params, values));
          RunFunction(caller, values) == Some(Ran(UnitValue, [ResultOf(target.name, passed)]))
      {
        BindNames(target.params, values);
        var args := [Var(target.params[0].name, StringType), Var(target.params[1].name, StringType)];
        ResultIsDropped(target, args, target.params, Bind(target.params, values));
      }
      HandsOverByName(Work, caller, target);
    }
  }

  function Dropping(target: MirFunction, args: seq<MirExpr>): MirExpr {
    if target.returnType == UnitType then CallOf(target, args)
    else Let("__declared_work_result", target.returnType, CallOf(target, args), UnitExpr)
  }

  lemma ResultIsDropped(target: MirFunction, args: seq<MirExpr>, params: seq<Param>, env: Env)
    requires PassesOn(args, params) && forall k | 0 <= k < |params| :: params[k].name in env
    ensures Eval(Dropping(target, args), env) == Some(Ran(UnitValue, [ResultOf(target.name, Looked(params, env))]))
  {
    CallPassesOn(target, args, params, env);
    AloneInOrder();
  }

  lemma NothingHandedOver(caller: MirFunction, target: MirFunction)
    requires target.params == [] && |caller.params| == 2 && caller.body == Dropping(target, [])
    ensures HandsOver(Work, caller, target) && DistinctNames(target.params)
  {
    hide Eval;
    forall values: seq<Value> | |values| == 2
      ensures RunFunction(caller, values) == Some(Ran(UnitValue, [ResultOf(target.name, [])]))
    {
      ResultIsDropped(target, [], [], Bind(caller.params, values));
      assert Looked([], Bind(caller.params, values)) == [];
    }
  }

  // ---- Types ----

  /** The type of an expression that may call `callee` only; None if it has none. */
  function TypeIn(e: MirExpr, types: map<string, MirType>, callee: MirFunction): Option<MirType>
    decreases e, 0
  {
    match e
    case Var(name, ty) => if name in types && types[name] == ty then Some(ty) else None
    case Call(Var(name, FnPtr(params, result)), args, ty) =>
      var signature := params == TypesOf(callee.params) && result == callee.returnType;
      if name == callee.name && signature && TypesIn(args, types, callee) == Some(params) && ty == result
      then Some(ty) else None
    case Let(name, ty, value, body) =>
      if TypeIn(value, types, callee) == Some(ty) then TypeIn(body, types[name := ty], callee) else None
    case UnitExpr => Some(UnitType)
    case _ => None
  }

  function TypesIn(es: seq<MirExpr>, types: map<string, MirType>, callee: MirFunction): Option<seq<MirType>>
    decreases es, 1
  {
    if es == [] then Some([])
    else
      var front := TypesIn(es[..|es| - 1], types, callee);
      var last := TypeIn(es[|es| - 1], types, callee);
      if front.None? || last.None? then None else Some(front.value + [last.value])
  }

  function TypesOf(params: seq<Param>): (types: seq<MirType>)
    ensures |types| == |params| && forall k | 0 <= k < |params| :: types[k] == params[k].ty
  {
    seq(|params|, k requires 0 <= k < |params| => params[k].ty)
  }

  function Declared(params: seq<Param>): map<string, MirType> {
    if params == [] then map[]
    else Declared(params[..|params| - 1])[params[|params| - 1].name := params[|params| - 1].ty]
  }

  /** The body of a generated function has the type the function returns, and calls the target as what
      it is. A work body takes two strings and returns nothing, a service wrapper takes and returns
      what its helper does. */
  ghost predicate FitsTarget(kind: HandlerKind, caller: MirFunction, target: MirFunction) {
    && TypeIn(caller.body, Declared(caller.params), target) == Some(caller.returnType)
    && !caller.isClosureFn && caller.captures == []
    && if kind == Work then
         && TypesOf(caller.params) == [StringType, StringType] && caller.returnType == UnitType
         && (target.params == [] ==> caller.params[0].name == "request_key" && caller.params[1].name == "attempt_id")
       else TypesOf(caller.params) == TypesOf(target.params) && caller.returnType == target.returnType
  }

  lemma {:induction false} DeclaredTypes(params: seq<Param>)
    requires DistinctNames(params)
    ensures forall k | 0 <= k < |params| :: params[k].name in Declared(params)
    ensures forall k | 0 <= k < |params| :: Declared(params)[params[k].name] == params[k].ty
  {
    if params != [] {
      DeclaredTypes(params[..|params| - 1]);
    }
  }

  /** The parameters as arguments, each with its type. */
  ghost predicate TypedArgs(args: seq<MirExpr>, params: seq<Param>) {
    |args| == |params| && forall k | 0 <= k < |params| :: args[k] == Var(params[k].name, params[k].ty)
  }

  lemma {:induction false} ArgsAreTyped(args: seq<MirExpr>, params: seq<Param>, types: map<string, MirType>,
      callee: MirFunction)
    requires TypedArgs(args, params)
    requires forall k | 0 <= k < |params| :: params[k].name in types && types[params[k].name] == params[k].ty
    ensures TypesIn(args, types, callee) == Some(TypesOf(params))
  {
    if params == [] {
      assert TypesOf(params) == [];
    } else {
      var n := |params| - 1;
      ArgsAreTyped(args[..n], params[..n], types, callee);
      assert TypesOf(params) == TypesOf(params[..n]) + [params[n].ty];
    }
  }

  lemma CallIsTyped(target: MirFunction, args: seq<MirExpr>, types: map<string, MirType>)
    requires TypesIn(args, types, target) == Some(TypesOf(target.params))
    ensures TypeIn(CallOf(target, args), types, target) == Some(target.returnType)
  {
    hide TypesIn;
    assert TargetType(target).params == TypesOf(target.params);
  }

  lemma ServiceFits(helper: MirFunction, kind: HandlerKind, wrapper: string)
    requires kind != Work && DistinctNames(helper.params)
    ensures FitsTarget(kind, ServiceFunction(helper, wrapper), helper)
  {
    hide TypeIn;
    var caller := ServiceFunction(helper, wrapper);
    DeclaredTypes(helper.params);
    ArgsAreTyped(caller.body.args, helper.params, Declared(helper.params), helper);
    CallIsTyped(helper, caller.body.args, Declared(helper.params));
  }

  lemma WorkFits(target: MirFunction, wrapper: string)
    requires WorkSignatureOk(target.params) && DistinctNames(target.params)
    ensures FitsTarget(Work, WorkFunctions(target, wrapper)[0], target)
  {
    hide TypesIn;
    var caller := WorkFunctions(target, wrapper)[0];
    var types := Declared(caller.params);
    var args := if target.params == [] then []
                else [Var(target.params[0].name, StringType), Var(target.params[1].name, StringType)];
    if target.params != [] {
      DeclaredTypes(target.params);
    }
    ArgsAreTyped(args, target.params, types, target);
    CallIsTyped(target, args, types);
    assert TypeIn(UnitExpr, types["__declared_work_result" := target.returnType], target) == Some(UnitType);
    assert caller.body == Dropping(target, args);
    assert TypeIn(caller.body, types, target) == Some(UnitType);
    assert TypesOf(caller.params) == [StringType, StringType];
  }
}
