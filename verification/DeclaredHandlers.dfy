/** Preparing declared handlers: wrappers are appended to the module, or found there, and a
    registration is made for every entry of the plan. */
module DeclaredHandlers {
  import opened Wrappers
  import opened Mir
  import opened HandlerNames

  datatype HandlerKind = Work | ServiceCall | ServiceCast | Route

  datatype PlanEntry = PlanEntry(
    kind: HandlerKind,
    runtimeRegistrationName: string,
    executableSymbol: string,
    replicationCount: nat)

  datatype Registration = Registration(
    runtimeRegistrationName: string,
    executableSymbol: string,
    replicationCount: nat)

  datatype PrepareError =
    | MissingTarget
    | WorkSignature
    | RouteShim
    | NoPidParameter
    | UnexpectedHelper
    | HelperKindMismatch(helperKind: string)

  // ---- One entry ----

  function WrapperName(kind: HandlerKind, runtimeName: string): string
    requires kind != Route
  {
    (match kind
     case Work => WORK_PREFIX
     case ServiceCall => SERVICE_CALL_PREFIX
     case _ => SERVICE_CAST_PREFIX) + SanitizeRuntimeName(runtimeName)
  }

  /** Functions to append and the symbol to register, or the reason to refuse. */
  datatype Prepared = Prepared(added: seq<MirFunction>, symbol: Result<string, PrepareError>)

  function TargetType(f: MirFunction): MirType {
    FnPtr(seq(|f.params|, k requires 0 <= k < |f.params| => f.params[k].ty), f.returnType)
  }

  function CallOf(f: MirFunction, args: seq<MirExpr>): MirExpr {
    Call(Var(f.name, TargetType(f)), args, f.returnType)
  }

  const HIDDEN_PARAMS := [Param("request_key", StringType), Param("attempt_id", StringType)]

  predicate WorkSignatureOk(params: seq<Param>) {
    params == [] || (|params| == 2 && params[0].ty == StringType && params[1].ty == StringType)
  }

  /** The actor body that runs the target, and the wrapper the code generator expands. */
  function WorkFunctions(target: MirFunction, wrapper: string): seq<MirFunction>
    requires WorkSignatureOk(target.params)
  {
    var params := if target.params == [] then HIDDEN_PARAMS else target.params;
    var args := if target.params == [] then []
                else [Var(target.params[0].name, StringType), Var(target.params[1].name, StringType)];
    var call := CallOf(target, args);
    var body := if target.returnType == UnitType then call
                else Let("__declared_work_result", target.returnType, call, UnitExpr);
    [MirFunction(ActorBodyName(wrapper), params, UnitType, body, false, [], false),
     MirFunction(wrapper, [Param("__args_ptr", PtrType)], UnitType, UnitExpr, false, [], false)]
  }

  function PrepareWork(fns: seq<MirFunction>, runtimeName: string, symbol: string): Prepared {
    var wrapper := WrapperName(Work, runtimeName);
    match FindFunction(fns, symbol)
    case None => Prepared([], Err(MissingTarget))
    case Some(target) =>
      if HasFunction(fns, wrapper) then Prepared([], Ok(wrapper))
      else if !WorkSignatureOk(target.params) then Prepared([], Err(WorkSignature))
      else Prepared(WorkFunctions(target, wrapper), Ok(wrapper))
  }

  function ServiceFunction(helper: MirFunction, wrapper: string): MirFunction {
    var args := seq(|helper.params|,
                    k requires 0 <= k < |helper.params| => Var(helper.params[k].name, helper.params[k].ty));
    MirFunction(wrapper, helper.params, helper.returnType, CallOf(helper, args), false, [], false)
  }

  function ExpectedHelperKind(kind: HandlerKind): string {
    if kind == ServiceCall then "call" else "cast"
  }

  function PrepareService(fns: seq<MirFunction>, kind: HandlerKind, runtimeName: string, symbol: string): Prepared
    requires kind == ServiceCall || kind == ServiceCast
  {
    var wrapper := WrapperName(kind, runtimeName);
    match FindFunction(fns, symbol)
    case None => Prepared([], Err(MissingTarget))
    case Some(helper) =>
      if helper.params == [] then Prepared([], Err(NoPidParameter))
      else
        var parsed := ParseServiceHelperName(symbol);
        if parsed.None? then Prepared([], Err(UnexpectedHelper))
        else if parsed.value.1 != ExpectedHelperKind(kind) then Prepared([], Err(HelperKindMismatch(parsed.value.1)))
        else if HasFunction(fns, wrapper) then Prepared([], Ok(wrapper))
        else Prepared([ServiceFunction(helper, wrapper)], Ok(wrapper))
  }

  /** A bare `fn(Request) -> Response` shim: one pointer in, one pointer out, no closure. */
  predicate IsRouteShim(f: MirFunction) {
    |f.params| == 1 && f.params[0].ty == PtrType && f.returnType == PtrType && !f.isClosureFn
  }

  function PrepareRoute(fns: seq<MirFunction>, symbol: string): Prepared {
    match FindFunction(fns, symbol)
    case None => Prepared([], Err(MissingTarget))
    case Some(route) =>
      if IsRouteShim(route) then Prepared([], Ok(symbol))
      else Prepared([], Err(RouteShim))
  }

  function PrepareEntry(fns: seq<MirFunction>, entry: PlanEntry): Prepared {
    match entry.kind
    case Work => PrepareWork(fns, entry.runtimeRegistrationName, entry.executableSymbol)
    case Route => PrepareRoute(fns, entry.executableSymbol)
    case kind => PrepareService(fns, kind, entry.runtimeRegistrationName, entry.executableSymbol)
  }

  // ---- The whole plan ----

  /** The functions after the plan, or up to its first refusal, and the registrations. */
  datatype Outcome = Outcome(functions: seq<MirFunction>, result: Result<seq<Registration>, PrepareError>)

  function Prepare(fns: seq<MirFunction>, plan: seq<PlanEntry>): Outcome
    decreases |plan|
  {
    if plan == [] then Outcome(fns, Ok([]))
    else
      var last := plan[|plan| - 1];
      var before := Prepare(fns, plan[..|plan| - 1]);
      if before.result.Err? then before
      else
        var prepared := PrepareEntry(before.functions, last);
        Outcome(before.functions + prepared.added,
                match prepared.symbol
                case Err(e) => Err(e)
                case Ok(symbol) =>
                  Ok(before.result.value + [Registration(last.runtimeRegistrationName, symbol, last.replicationCount)]))
  }

  class MirModule {
    var functions: seq<MirFunction>

    constructor (functions: seq<MirFunction>)
      ensures this.functions == functions
    {
      this.functions := functions;
    }

    method GenerateDeclaredWorkWrapper(runtimeName: string, symbol: string) returns (r: Result<string, PrepareError>)
      modifies this
      ensures old(functions) <= functions
      ensures Prepared(functions[|old(functions)|..], r) == PrepareWork(old(functions), runtimeName, symbol)
    {
      var original := FindFunction(functions, symbol);
      if original.None? {
        return Err(MissingTarget);
      }
      var wrapper := WrapperName(Work, runtimeName);
      if HasFunction(functions, wrapper) {
        return Ok(wrapper);
      }
      var target := original.value;
      var bodyParams, bodyArgs;
      if target.params == [] {
        bodyParams, bodyArgs := HIDDEN_PARAMS, [];
      } else if |target.params| == 2 && target.params[0].ty == StringType && target.params[1].ty == StringType {
        bodyParams := target.params;
        bodyArgs := [Var(target.params[0].name, target.params[0].ty), Var(target.params[1].name, target.params[1].ty)];
      } else {
        return Err(WorkSignature);
      }
      var call := CallOf(target, bodyArgs);
      var body := if target.returnType == UnitType then call
                  else Let("__declared_work_result", target.returnType, call, UnitExpr);
      functions := functions + [MirFunction(ActorBodyName(wrapper), bodyParams, UnitType, body, false, [], false)];
      functions := functions
        + [MirFunction(wrapper, [Param("__args_ptr", PtrType)], UnitType, UnitExpr, false, [], false)];
      return Ok(wrapper);
    }

    method GenerateDeclaredServiceWrapper(kind: HandlerKind, runtimeName: string, symbol: string)
        returns (r: Result<string, PrepareError>)
      requires kind == ServiceCall || kind == ServiceCast
      modifies this
      ensures old(functions) <= functions
      ensures Prepared(functions[|old(functions)|..], r) == PrepareService(old(functions), kind, runtimeName, symbol)
    {
      var found := FindFunction(functions, symbol);
      if found.None? {
        return Err(MissingTarget);
      }
      var helper := found.value;
      if helper.params == [] {
        return Err(NoPidParameter);
      }
      var parsed := ParseServiceHelperName(symbol);
      if parsed.None? {
        return Err(UnexpectedHelper);
      }
      if parsed.value.1 != ExpectedHelperKind(kind) {
        return Err(HelperKindMismatch(parsed.value.1));
      }
      var wrapper := WrapperName(kind, runtimeName);
      if HasFunction(functions, wrapper) {
        return Ok(wrapper);
      }
      functions := functions + [ServiceFunction(helper, wrapper)];
      return Ok(wrapper);
    }

    method ValidateDeclaredRouteWrapper(symbol: string) returns (r: Result<string, PrepareError>)
      ensures Prepared([], r) == PrepareRoute(functions, symbol)
      ensures r.Ok? <==> exists k: nat :: FirstNamed(functions, symbol, k) && IsRouteShim(functions[k])
      ensures r.Ok? ==> r.value == symbol
      ensures r == Err(MissingTarget) <==> forall k | 0 <= k < |functions| :: functions[k].name != symbol
    {
      FindIsFirst(functions, symbol);
      var found := FindFunction(functions, symbol);
      if found.None? {
        return Err(MissingTarget);
      }
      var route := found.value;
      if |route.params| == 1 && route.params[0].ty == PtrType && route.returnType == PtrType && !route.isClosureFn {
        return Ok(symbol);
      }
      return Err(RouteShim);
    }

    /** One entry of the plan. */
    method PrepareDeclaredEntry(entry: PlanEntry) returns (symbol: Result<string, PrepareError>)
      modifies this
      ensures functions == old(functions) + PrepareEntry(old(functions), entry).added
      ensures symbol == PrepareEntry(old(functions), entry).symbol
    {
      hide FirstNamed, IsRouteShim, PrepareWork, PrepareService, PrepareRoute;
      assert functions + [] == functions;
      match entry.kind
      case Work =>
        symbol := GenerateDeclaredWorkWrapper(entry.runtimeRegistrationName, entry.executableSymbol);
      case Route =>
        symbol := ValidateDeclaredRouteWrapper(entry.executableSymbol);
      case _ =>
        symbol := GenerateDeclaredServiceWrapper(entry.kind, entry.runtimeRegistrationName, entry.executableSymbol);
    }

    method PrepareDeclaredRuntimeHandlers(plan: seq<PlanEntry>) returns (r: Result<seq<Registration>, PrepareError>)
      modifies this
      ensures Outcome(functions, r) == Prepare(old(functions), plan)
    {
      hide PrepareEntry;
      var registrations: seq<Registration> := [];
      for k := 0 to |plan|
        invariant Outcome(functions, Ok(registrations)) == Prepare(old(functions), plan[..k])
      {
        var entry := plan[k];
        assert plan[..k + 1][..k] == plan[..k];
        var symbol := PrepareDeclaredEntry(entry);
        if symbol.Err? {
          RefusalIsFinal(old(functions), plan, k + 1);
          return Err(symbol.error);
        }
        registrations := registrations +
          [Registration(entry.runtimeRegistrationName, symbol.value, entry.replicationCount)];
      }
      assert plan[..|plan|] == plan;
      return Ok(registrations);
    }
  }

  lemma {:induction false} RefusalIsFinal(fns: seq<MirFunction>, plan: seq<PlanEntry>, k: nat)
    requires k <= |plan| && Prepare(fns, plan[..k]).result.Err?
    ensures Prepare(fns, plan) == Prepare(fns, plan[..k])
    decreases |plan|
  {
    if k == |plan| {
      assert plan[..k] == plan;
    } else {
      assert plan[..|plan| - 1][..k] == plan[..k];
      RefusalIsFinal(fns, plan[..|plan| - 1], k);
    }
  }

  // ---- Which entries are accepted ----

  /** A work entry is accepted exactly when its target is there and takes nothing or two strings, or
      its wrapper is there already; a missing target is reported first. */
  lemma WorkAcceptedIff(fns: seq<MirFunction>, entry: PlanEntry)
    requires entry.kind == Work
    ensures var symbol := PrepareEntry(fns, entry).symbol;
      match FindFunction(fns, entry.executableSymbol)
      case None => symbol == Err(MissingTarget)
      case Some(target) =>
        var fits := target.params == []
          || (|target.params| == 2 && forall p | p in target.params :: p.ty == StringType);
        if fits || HasFunction(fns, "__declared_work_" + SanitizeRuntimeName(entry.runtimeRegistrationName))
        then symbol.Ok? else symbol == Err(WorkSignature)
  {
    hide SanitizeRuntimeName, FindFunction;
    var found := FindFunction(fns, entry.executableSymbol);
    if found.Some? {
      TwoStrings(found.value.params);
    }
  }

  lemma TwoStrings(params: seq<Param>)
    ensures WorkSignatureOk(params) <==>
      params == [] || (|params| == 2 && forall p | p in params :: p.ty == StringType)
  {
    if |params| == 2 {
      assert params[0] in params && params[1] in params;
    }
  }

  /** A route entry is accepted exactly when its target is a bare function from a pointer to a
      pointer, and is registered itself. */
  lemma RouteAcceptedIff(fns: seq<MirFunction>, entry: PlanEntry)
    requires entry.kind == Route
    ensures var p := PrepareEntry(fns, entry);
      && p.added == []
      && match FindFunction(fns, entry.executableSymbol)
         case None => p.symbol == Err(MissingTarget)
         case Some(route) =>
           if && (exists name :: route.params == [Param(name, PtrType)])
              && route.returnType == PtrType && !route.isClosureFn
           then p.symbol == Ok(entry.executableSymbol) else p.symbol == Err(RouteShim)
  {
    hide FindFunction;
    var found := FindFunction(fns, entry.executableSymbol);
    if found.Some? && |found.value.params| == 1 && found.value.params[0].ty == PtrType {
      assert found.value.params == [Param(found.value.params[0].name, PtrType)];
    }
  }

  /** Before the kind of its helper is looked at, a service entry is refused exactly when the helper is
      missing, takes nothing, or has a name that is not that of a helper. */
  lemma ServiceRefusedIff(fns: seq<MirFunction>, entry: PlanEntry)
    requires entry.kind == ServiceCall || entry.kind == ServiceCast
    ensures var symbol := PrepareEntry(fns, entry).symbol;
      var name := entry.executableSymbol;
      var found := FindFunction(fns, name);
      var isHelper := "__service_" <= name &&
        (Contains(name[10..], "_call_") || Contains(name[10..], "_cast_") || LastSegment(name[10..]) == Some("start"));
      && (symbol == Err(MissingTarget) <==> found.None?)
      && (symbol == Err(NoPidParameter) <==> found.Some? && found.value.params == [])
      && (symbol == Err(UnexpectedHelper) <==> found.Some? && found.value.params != [] && !isHelper)
  {
    hide FindFunction, LastSegment;
    var name := entry.executableSymbol;
    assert |HELPER_PREFIX| == 10;
    if "__service_" <= name {
      assert name == HELPER_PREFIX + name[10..];
      HelperKind(name[10..]);
      HelperKinds(name);
    }
  }

  /** A helper name is parsed as one of three kinds, or not at all. */
  lemma HelperKinds(name: string)
    ensures ParseServiceHelperName(name).Some? ==> ParseServiceHelperName(name).value.1 in {"start", "call", "cast"}
  {
  }

  // ---- Helpers of the wrong kind ----

  /** An existing service helper with a pid parameter is refused as of the wrong kind exactly when its
      name reads as another kind: a start, or a cast where a call is declared, or a call where a cast
      is. */
  lemma RefusedAsOtherKind(fns: seq<MirFunction>, kind: HandlerKind, runtimeName: string, rest: string)
    requires kind == ServiceCall || kind == ServiceCast
    requires HasFunction(fns, HELPER_PREFIX + rest) && FindFunction(fns, HELPER_PREFIX + rest).value.params != []
    ensures var symbol := PrepareService(fns, kind, runtimeName, HELPER_PREFIX + rest).symbol;
      var start, call, cast := LastSegment(rest) == Some("start"), Contains(rest, "_call_"), Contains(rest, "_cast_");
      && (symbol == Err(HelperKindMismatch("start")) <==> start)
      && (symbol == Err(HelperKindMismatch("call")) <==> kind == ServiceCast && !start && call)
      && (symbol == Err(HelperKindMismatch("cast")) <==> kind == ServiceCall && !start && !call && cast)
      && (symbol.Ok? <==> !start && if kind == ServiceCall then call else !call && cast)
  {
    HelperKind(rest);
  }

  /** A declared cast is refused when the name of its method contains `_call_`. */
  lemma CastIsRefused(fns: seq<MirFunction>, runtimeName: string, service: string, a: string, b: string)
    requires var symbol := HELPER_PREFIX + (service + "_cast_" + a + "_call_" + b);
      HasFunction(fns, symbol) && FindFunction(fns, symbol).value.params != []
    requires LastSegment(service + "_cast_" + a + "_call_" + b) != Some("start")
    ensures var symbol := HELPER_PREFIX + (service + "_cast_" + a + "_call_" + b);
      PrepareService(fns, ServiceCast, runtimeName, symbol) == Prepared([], Err(HelperKindMismatch("call")))
  {
    CastTakenForCall(service, a, b);
  }

  /** A declared call is refused when its method is named `start`. */
  lemma CallIsRefused(fns: seq<MirFunction>, runtimeName: string, service: string)
    requires var symbol := HELPER_PREFIX + (service + "_call_start");
      HasFunction(fns, symbol) && FindFunction(fns, symbol).value.params != []
    ensures var symbol := HELPER_PREFIX + (service + "_call_start");
      PrepareService(fns, ServiceCall, runtimeName, symbol) == Prepared([], Err(HelperKindMismatch("start")))
  {
    CallTakenForStart(service);
  }

  // ---- What preparation guarantees ----

  /** The original functions stay an unchanged prefix, also when the plan is refused. */
  lemma {:induction false} OriginalsAreKept(fns: seq<MirFunction>, plan: seq<PlanEntry>)
    ensures fns <= Prepare(fns, plan).functions
    decreases |plan|
  {
    if plan != [] {
      OriginalsAreKept(fns, plan[..|plan| - 1]);
    }
  }

  /** A prepared entry names a function that is there. */
  lemma EntryHasSymbol(fns: seq<MirFunction>, entry: PlanEntry)
    ensures var p := PrepareEntry(fns, entry);
      p.symbol.Ok? ==> HasFunction(fns + p.added, p.symbol.value)
  {
    hide SanitizeRuntimeName, ParseServiceHelperName, CallOf, TargetType, ActorBodyName;
    var p := PrepareEntry(fns, entry);
    if p.symbol.Ok? {
      FindInLonger(fns, p.added, p.symbol.value);
      if |p.added| == 2 {
        assert p.added[1].name == p.symbol.value;
      } else if |p.added| == 1 {
        assert p.added[0].name == p.symbol.value;
      }
    }
  }

  function RegisteredSymbol(entry: PlanEntry): string {
    if entry.kind == Route then entry.executableSymbol else WrapperName(entry.kind, entry.runtimeRegistrationName)
  }

  lemma EntrySymbol(fns: seq<MirFunction>, entry: PlanEntry)
    ensures var p := PrepareEntry(fns, entry);
      p.symbol.Ok? ==> p.symbol.value == RegisteredSymbol(entry)
  {
    hide HasFunction, FindFunction, WrapperName, ActorBodyName;
  }

  /** Registration `r` is the one of `entry`, and names a function of the module. */
  predicate Registers(fns: seq<MirFunction>, r: Registration, entry: PlanEntry) {
    && r == Registration(entry.runtimeRegistrationName, RegisteredSymbol(entry), entry.replicationCount)
    && HasFunction(fns, r.executableSymbol)
  }

  lemma RegistersInLonger(fns: seq<MirFunction>, more: seq<MirFunction>, r: Registration, entry: PlanEntry)
    requires Registers(fns, r, entry)
    ensures Registers(fns + more, r, entry)
  {
    FindInLonger(fns, more, r.executableSymbol);
  }

  /** Registrations match the plan entry by entry, and each names a function of the module. */
  lemma {:induction false} RegistrationsMatchPlan(fns: seq<MirFunction>, plan: seq<PlanEntry>)
    requires Prepare(fns, plan).result.Ok?
    ensures var after := Prepare(fns, plan);
      && |after.result.value| == |plan|
      && forall k | 0 <= k < |plan| :: Registers(after.functions, after.result.value[k], plan[k])
    decreases |plan|
  {
    hide PrepareEntry, RegisteredSymbol, Registers;
    if plan != [] {
      var front, last := plan[..|plan| - 1], plan[|plan| - 1];
      RegistrationsMatchPlan(fns, front);
      var before := Prepare(fns, front);
      var added := PrepareEntry(before.functions, last).added;
      NewRegistration(before.functions, last);
      forall k | 0 <= k < |front|
        ensures Registers(before.functions + added, before.result.value[k], plan[k])
      {
        RegistersInLonger(before.functions, added, before.result.value[k], plan[k]);
      }
    }
  }

  lemma NewRegistration(fns: seq<MirFunction>, entry: PlanEntry)
    ensures var p := PrepareEntry(fns, entry);
      p.symbol.Ok? ==>
        Registers(fns + p.added,
                  Registration(entry.runtimeRegistrationName, p.symbol.value, entry.replicationCount), entry)
  {
    EntryHasSymbol(fns, entry);
    EntrySymbol(fns, entry);
  }

  /** Once an entry has been prepared, preparing it again in any extension of the module appends
      nothing and gives the same symbol. */
  lemma PreparedAgain(fns: seq<MirFunction>, entry: PlanEntry, more: seq<MirFunction>)
    requires PrepareEntry(fns, entry).symbol.Ok?
    ensures var p := PrepareEntry(fns, entry);
      PrepareEntry(fns + p.added + more, entry) == Prepared([], p.symbol)
  {
    hide SanitizeRuntimeName, ParseServiceHelperName, CallOf, TargetType, ActorBodyName, FindFunction;
    var p := PrepareEntry(fns, entry);
    assert fns + p.added + more == fns + (p.added + more);
    FindInLonger(fns, p.added + more, entry.executableSymbol);
    EntryHasSymbol(fns, entry);
    FindInLonger(fns + p.added, more, p.symbol.value);
  }

  /** A second run over the result appends nothing and returns the same registrations. */
  lemma SecondRunChangesNothing(fns: seq<MirFunction>, plan: seq<PlanEntry>)
    requires Prepare(fns, plan).result.Ok?
    ensures var after := Prepare(fns, plan);
      Prepare(after.functions, plan) == after
  {
    var after := Prepare(fns, plan).functions;
    assert plan[..|plan|] == plan;
    RerunPrefix(fns, plan, after, |plan|);
  }

  /** The functions only grow along the plan. */
  lemma {:induction false} PrefixGrows(fns: seq<MirFunction>, plan: seq<PlanEntry>, k: nat)
    requires k <= |plan| && Prepare(fns, plan).result.Ok?
    ensures Prepare(fns, plan[..k]).result.Ok?
    ensures Prepare(fns, plan[..k]).functions <= Prepare(fns, plan).functions
    decreases |plan|
  {
    if k == |plan| {
      assert plan[..k] == plan;
    } else {
      assert plan[..|plan| - 1][..k] == plan[..k];
      PrefixGrows(fns, plan[..|plan| - 1], k);
    }
  }

  lemma {:induction false} RerunPrefix(fns: seq<MirFunction>, plan: seq<PlanEntry>, after: seq<MirFunction>, k: nat)
    requires k <= |plan| && Prepare(fns, plan).result.Ok? && after == Prepare(fns, plan).functions
    ensures Prepare(fns, plan[..k]).result.Ok?
    ensures Prepare(after, plan[..k]) == Outcome(after, Prepare(fns, plan[..k]).result)
    decreases k
  {
    hide PrepareEntry;
    PrefixGrows(fns, plan, k);
    if k > 0 {
      assert plan[..k][..k - 1] == plan[..k - 1];
      RerunPrefix(fns, plan, after, k - 1);
      PrefixGrows(fns, plan, k - 1);
      var before, entry := Prepare(fns, plan[..k - 1]).functions, plan[k - 1];
      var now := Prepare(fns, plan[..k]).functions;
      assert now == before + PrepareEntry(before, entry).added;
      PreparedAgain(before, entry, after[|now|..]);
      assert now + after[|now|..] == after;
      assert after + [] == after;
    }
  }
}
