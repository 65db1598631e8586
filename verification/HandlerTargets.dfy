/** Which function a registered handler ends up running, and with what. */
module HandlerTargets {
  import opened Wrappers
  import opened Mir
  import opened HandlerNames
  import opened DeclaredHandlers
  import opened HandlerCalls

  /** The function a body calls. */
  function Callee(body: MirExpr): Option<string> {
    match body
    case Call(Var(name, _), _, _) => Some(name)
    case Let(_, _, value, _) => Callee(value)
    case _ => None
  }

  /** The generated function that makes the call: the actor body of a work wrapper, or the service
      wrapper itself. */
  function CallingName(kind: HandlerKind, wrapper: string): string {
    if kind == Work then ActorBodyName(wrapper) else wrapper
  }

  /** What running a registered symbol calls. */
  function Runs(fns: seq<MirFunction>, kind: HandlerKind, symbol: string): Option<string> {
    if kind == Route then Some(symbol)
    else match FindFunction(fns, CallingName(kind, symbol))
      case None => None
      case Some(f) => Callee(f.body)
  }

  /** Two entries that share a wrapper. */
  predicate Shares(a: PlanEntry, b: PlanEntry) {
    a.kind == b.kind && RegisteredSymbol(a) == RegisteredSymbol(b)
  }

  /** Work and service entries share a wrapper exactly when they are of one kind and their names are
      alike, character by character. */
  lemma SharesIff(a: PlanEntry, b: PlanEntry)
    requires a.kind != Route
    ensures var m, n := a.runtimeRegistrationName, b.runtimeRegistrationName;
      Shares(a, b) <==> a.kind == b.kind && |m| == |n| && forall k | 0 <= k < |m| :: Alike(m[k], n[k])
  {
    hide SanitizeRuntimeName;
    if a.kind == b.kind {
      SanitizedAlike(a.runtimeRegistrationName, b.runtimeRegistrationName);
      var prefix := if a.kind == Work then WORK_PREFIX
                    else if a.kind == ServiceCall then SERVICE_CALL_PREFIX else SERVICE_CAST_PREFIX;
      PrefixCancels(prefix, SanitizeRuntimeName(a.runtimeRegistrationName),
        SanitizeRuntimeName(b.runtimeRegistrationName));
    }
  }

  lemma PrefixCancels(prefix: string, a: string, b: string)
    ensures prefix + a == prefix + b <==> a == b
  {
    if prefix + a == prefix + b {
      assert a == (prefix + a)[|prefix|..] == (prefix + b)[|prefix|..] == b;
    }
  }

  /** The first entry of the plan that shares the wrapper of `entry`. */
  function FirstSharing(plan: seq<PlanEntry>, entry: PlanEntry): (j: nat)
    requires entry in plan
    ensures j < |plan| && Shares(plan[j], entry) && forall i | 0 <= i < j :: !Shares(plan[i], entry)
  {
    if Shares(plan[0], entry) then 0 else 1 + FirstSharing(plan[1..], entry)
  }

  lemma FirstSharingIn(plan: seq<PlanEntry>, more: seq<PlanEntry>, entry: PlanEntry, same: PlanEntry)
    requires entry in plan && same in plan + more && Shares(entry, same)
    ensures FirstSharing(plan + more, same) == FirstSharing(plan, entry)
  {
    var j, k := FirstSharing(plan + more, same), FirstSharing(plan, entry);
    assert (plan + more)[k] == plan[k];
    assert forall i | 0 <= i < |plan| :: (plan + more)[i] == plan[i];
  }

  function FirstTarget(plan: seq<PlanEntry>, entry: PlanEntry): string
    requires entry in plan
  {
    plan[FirstSharing(plan, entry)].executableSymbol
  }

  lemma FirstTargetIn(plan: seq<PlanEntry>, more: seq<PlanEntry>, entry: PlanEntry, same: PlanEntry)
    requires entry in plan && same in plan + more && Shares(entry, same)
    ensures FirstTarget(plan + more, same) == FirstTarget(plan, entry)
  {
    FirstSharingIn(plan, more, entry, same);
  }

  /** The generated function of a work or service entry hands over to the target, provided that the
      target's parameters have different names, and not otherwise. */
  ghost predicate EntryHandsOver(fns: seq<MirFunction>, entry: PlanEntry, target: string) {
    entry.kind == Route || CallerHandsOver(fns, fns, entry, target)
  }

  ghost predicate CallerHandsOver(fns: seq<MirFunction>, generated: seq<MirFunction>, entry: PlanEntry,
      target: string)
  {
    var name := CallingName(entry.kind, RegisteredSymbol(entry));
    && HasFunction(fns, target) && HasFunction(generated, name)
    && var callee := FindFunction(fns, target).value;
       && (HandsOver(entry.kind, FindFunction(generated, name).value, callee) <==> DistinctNames(callee.params))
       && (DistinctNames(callee.params) ==> FitsTarget(entry.kind, FindFunction(generated, name).value, callee))
  }

  /** Running the registration of `entry` calls `target`, and with the right values. */
  ghost predicate EntryRuns(fns: seq<MirFunction>, entry: PlanEntry, target: string) {
    Runs(fns, entry.kind, RegisteredSymbol(entry)) == Some(target) && EntryHandsOver(fns, entry, target)
  }

  // ---- Generated names do not collide ----

  /** The symbols that are registered. */
  lemma RegisteredNames(entry: PlanEntry)
    ensures var name := SanitizeRuntimeName(entry.runtimeRegistrationName);
      RegisteredSymbol(entry) ==
        match entry.kind
        case Work => "__declared_work_" + name
        case ServiceCall => "__declared_service_call_" + name
        case ServiceCast => "__declared_service_cast_" + name
        case Route => entry.executableSymbol
  {
  }

  lemma WrapperShape(kind: HandlerKind, name: string)
    requires kind != Route
    ensures var w := WrapperName(kind, name);
      && |w| > 11 && w[2] == 'd'
      && (kind == Work ==> w[11] == 'w')
      && (kind == ServiceCall ==> |w| > 21 && w[11] == 's' && w[21] == 'l')
      && (kind == ServiceCast ==> |w| > 21 && w[11] == 's' && w[21] == 's')
  {
    assert WORK_PREFIX[2] == 'd' && WORK_PREFIX[11] == 'w' && |WORK_PREFIX| == 16;
    assert SERVICE_CALL_PREFIX[2] == 'd' && SERVICE_CALL_PREFIX[11] == 's' && SERVICE_CALL_PREFIX[21] == 'l';
    assert SERVICE_CAST_PREFIX[2] == 'd' && SERVICE_CAST_PREFIX[11] == 's' && SERVICE_CAST_PREFIX[21] == 's';
  }

  lemma ActorBodyShape(wrapper: string)
    ensures var body := ActorBodyName(wrapper);
      |body| == |wrapper| + 13 && body[2] == 'a' && body[8..|wrapper| + 8] == wrapper
  {
    assert |"__actor_"| == 8 && "__actor_"[2] == 'a';
  }

  /** Different kinds never share a wrapper; actor bodies are not wrappers, and differ where their
      wrappers do. */
  lemma NamesDisjoint(kind: HandlerKind, name: string, other: HandlerKind, otherName: string)
    requires kind != Route && other != Route
    ensures var a, b := WrapperName(kind, name), WrapperName(other, otherName);
      && (a == b ==> kind == other)
      && ActorBodyName(a) != b
      && (ActorBodyName(a) == ActorBodyName(b) ==> a == b)
  {
    WrapperShape(kind, name);
    WrapperShape(other, otherName);
    ActorBodyShape(WrapperName(kind, name));
    ActorBodyShape(WrapperName(other, otherName));
  }

  // ---- Generated functions belong to entries ----

  ghost predicate Owned(plan: seq<PlanEntry>, kind: HandlerKind, wrapper: string) {
    exists k :: 0 <= k < |plan| && plan[k].kind == kind && RegisteredSymbol(plan[k]) == wrapper
  }

  /** A wrapper, or the actor body of one, is only there if an entry of the plan asked for it. */
  ghost predicate Ownership(fns: seq<MirFunction>, plan: seq<PlanEntry>) {
    forall kind, name | kind != Route ::
      HasFunction(fns, WrapperName(kind, name)) || HasFunction(fns, ActorBodyName(WrapperName(kind, name)))
      ==> Owned(plan, kind, WrapperName(kind, name))
  }

  /** No function of the module has a generated name before preparation. */
  ghost predicate Clean(fns: seq<MirFunction>) {
    Ownership(fns, [])
  }

  /** What an entry appends, if anything: its wrapper and, for work, the actor body; the calling
      function calls the entry's target. */
  ghost predicate AppendsCaller(fns: seq<MirFunction>, entry: PlanEntry) {
    var p := PrepareEntry(fns, entry);
    var w := RegisteredSymbol(entry);
    && (p.added == [] ==> entry.kind == Route || HasFunction(fns, w))
    && (p.added != [] ==> entry.kind != Route && !HasFunction(fns, w))
    && (p.added != [] ==> Runs(p.added, entry.kind, w) == Some(entry.executableSymbol))
    && (p.added != [] ==> CallerHandsOver(fns, p.added, entry, entry.executableSymbol))
    && (forall k | 0 <= k < |p.added| ::
          p.added[k].name == w || (entry.kind == Work && p.added[k].name == ActorBodyName(w)))
  }

  lemma WorkAppendsCaller(target: MirFunction, wrapper: string)
    requires WorkSignatureOk(target.params)
    ensures var added := WorkFunctions(target, wrapper);
      && |added| == 2 && added[0].name == ActorBodyName(wrapper) && added[1].name == wrapper
      && Runs(added, Work, wrapper) == Some(target.name)
      && FindFunction(added, ActorBodyName(wrapper)) == Some(added[0])
      && (HandsOver(Work, added[0], target) <==> DistinctNames(target.params))
      && (DistinctNames(target.params) ==> FitsTarget(Work, added[0], target))
  {
    hide ActorBodyName, HandsOver, DistinctNames, FitsTarget;
    WorkHandsOver(target, wrapper);
    if DistinctNames(target.params) {
      WorkFits(target, wrapper);
    }
    var added := WorkFunctions(target, wrapper);
    assert FindFunction(added, ActorBodyName(wrapper)) == Some(added[0]);
    assert forall args :: Callee(CallOf(target, args)) == Some(target.name);
  }

  lemma ServiceAppendsCaller(helper: MirFunction, kind: HandlerKind, wrapper: string)
    requires kind == ServiceCall || kind == ServiceCast
    ensures var added := [ServiceFunction(helper, wrapper)];
      && added[0].name == wrapper && Runs(added, kind, wrapper) == Some(helper.name)
      && FindFunction(added, wrapper) == Some(added[0])
      && (HandsOver(kind, added[0], helper) <==> DistinctNames(helper.params))
      && (DistinctNames(helper.params) ==> FitsTarget(kind, added[0], helper))
  {
    hide HandsOver, DistinctNames, FitsTarget;
    ServiceHandsOver(helper, kind, wrapper);
    if DistinctNames(helper.params) {
      ServiceFits(helper, kind, wrapper);
    }
    var added := [ServiceFunction(helper, wrapper)];
    assert FindFunction(added, wrapper) == Some(added[0]);
  }

  lemma AddedFunctions(fns: seq<MirFunction>, entry: PlanEntry)
    requires PrepareEntry(fns, entry).symbol.Ok?
    ensures AppendsCaller(fns, entry)
  {
    hide WrapperName, ParseServiceHelperName, WorkFunctions, ServiceFunction, Runs, ActorBodyName, HandsOver,
      DistinctNames, FitsTarget;
    var w := RegisteredSymbol(entry);
    var found := FindFunction(fns, entry.executableSymbol);
    if entry.kind == Work {
      if !HasFunction(fns, w) {
        WorkAppendsCaller(found.value, w);
      }
    } else if entry.kind != Route {
      if !HasFunction(fns, w) {
        ServiceAppendsCaller(found.value, entry.kind, w);
      }
    }
  }

  lemma OwnershipGrows(fns: seq<MirFunction>, plan: seq<PlanEntry>, entry: PlanEntry)
    requires Ownership(fns, plan) && PrepareEntry(fns, entry).symbol.Ok?
    ensures Ownership(fns + PrepareEntry(fns, entry).added, plan + [entry])
  {
    hide PrepareEntry, WrapperName, FindFunction, ActorBodyName;
    var added := PrepareEntry(fns, entry).added;
    AddedFunctions(fns, entry);
    assert (plan + [entry])[|plan|] == entry;
    forall kind, name | kind != Route &&
      (HasFunction(fns + added, WrapperName(kind, name))
       || HasFunction(fns + added, ActorBodyName(WrapperName(kind, name))))
      ensures Owned(plan + [entry], kind, WrapperName(kind, name))
    {
      var w := WrapperName(kind, name);
      FindInLonger(fns, added, w);
      FindInLonger(fns, added, ActorBodyName(w));
      if HasFunction(fns, w) || HasFunction(fns, ActorBodyName(w)) {
        var k :| 0 <= k < |plan| && plan[k].kind == kind && RegisteredSymbol(plan[k]) == w;
        assert (plan + [entry])[k] == plan[k];
      } else {
        AddedIsOwned(fns, entry, kind, name);
      }
    }
  }

  lemma AddedIsOwned(fns: seq<MirFunction>, entry: PlanEntry, kind: HandlerKind, name: string)
    requires kind != Route && PrepareEntry(fns, entry).symbol.Ok?
    requires var added, w := PrepareEntry(fns, entry).added, WrapperName(kind, name);
      HasFunction(added, w) || HasFunction(added, ActorBodyName(w))
    ensures entry.kind == kind && RegisteredSymbol(entry) == WrapperName(kind, name)
  {
    hide PrepareEntry, WrapperName;
    AddedFunctions(fns, entry);
    assert entry.kind != Route;
    NamesDisjoint(kind, name, entry.kind, entry.runtimeRegistrationName);
    NamesDisjoint(entry.kind, entry.runtimeRegistrationName, kind, name);
  }

  // ---- The theorem ----

  /** Every registration runs the target of the first entry with its wrapper, with the right values. */
  ghost predicate RunsFirst(fns: seq<MirFunction>, plan: seq<PlanEntry>) {
    forall k | 0 <= k < |plan| :: EntryRuns(fns, plan[k], FirstTarget(plan, plan[k]))
  }

  lemma EntryRunsInLonger(fns: seq<MirFunction>, more: seq<MirFunction>, entry: PlanEntry, target: string)
    requires EntryRuns(fns, entry, target)
    ensures EntryRuns(fns + more, entry, target)
  {
    hide HandsOver, DistinctNames, FitsTarget;
    FindInLonger(fns, more, CallingName(entry.kind, RegisteredSymbol(entry)));
    FindInLonger(fns, more, target);
  }

  lemma SharersRunAlike(fns: seq<MirFunction>, a: PlanEntry, b: PlanEntry, target: string)
    requires Shares(a, b)
    ensures a.kind != Route ==> EntryRuns(fns, a, target) == EntryRuns(fns, b, target)
  {
    hide HandsOver, DistinctNames, FitsTarget;
  }

  /** An entry that finds its wrapper shares it with an earlier entry. */
  lemma FoundWrapperRuns(fns: seq<MirFunction>, plan: seq<PlanEntry>, entry: PlanEntry)
    requires Ownership(fns, plan) && RunsFirst(fns, plan) && entry.kind != Route
    requires HasFunction(fns, RegisteredSymbol(entry))
    ensures entry in plan + [entry] && EntryRuns(fns, entry, FirstTarget(plan + [entry], entry))
  {
    hide WrapperName, HasFunction, EntryRuns, FirstTarget;
    assert (plan + [entry])[|plan|] == entry;
    assert Owned(plan, entry.kind, RegisteredSymbol(entry));
    var k :| 0 <= k < |plan| && plan[k].kind == entry.kind && RegisteredSymbol(plan[k]) == RegisteredSymbol(entry);
    FirstTargetIn(plan, [entry], plan[k], entry);
    SharersRunAlike(fns, plan[k], entry, FirstTarget(plan, plan[k]));
  }

  /** An entry whose wrapper is new is the first with that wrapper. */
  lemma NewWrapperIsFirst(fns: seq<MirFunction>, plan: seq<PlanEntry>, entry: PlanEntry)
    requires entry.kind != Route && !HasFunction(fns, RegisteredSymbol(entry)) && Ownership(fns, plan)
    requires forall k | 0 <= k < |plan| :: HasFunction(fns, RegisteredSymbol(plan[k]))
    ensures entry in plan + [entry] && FirstTarget(plan + [entry], entry) == entry.executableSymbol
    ensures !HasFunction(fns, CallingName(entry.kind, RegisteredSymbol(entry)))
  {
    hide WrapperName, HasFunction;
    var longer := plan + [entry];
    assert longer[|plan|] == entry;
    assert forall k | 0 <= k < |plan| :: longer[k] == plan[k] && !Shares(plan[k], entry);
    assert !Owned(plan, entry.kind, RegisteredSymbol(entry));
  }

  lemma NewEntryRuns(fns: seq<MirFunction>, plan: seq<PlanEntry>, entry: PlanEntry)
    requires Ownership(fns, plan) && RunsFirst(fns, plan) && PrepareEntry(fns, entry).symbol.Ok?
    requires forall k | 0 <= k < |plan| :: HasFunction(fns, RegisteredSymbol(plan[k]))
    ensures entry in plan + [entry]
    ensures EntryRuns(fns + PrepareEntry(fns, entry).added, entry, FirstTarget(plan + [entry], entry))
  {
    hide PrepareEntry, WrapperName, Ownership, RunsFirst, FirstSharing, HandsOver, DistinctNames,
      FitsTarget, FindFunction;
    var added, w, longer := PrepareEntry(fns, entry).added, RegisteredSymbol(entry), plan + [entry];
    AddedFunctions(fns, entry);
    assert longer[|plan|] == entry;
    if entry.kind == Route {
    } else if added == [] {
      FoundWrapperRuns(fns, plan, entry);
      assert fns + added == fns;
    } else {
      NewWrapperIsFirst(fns, plan, entry);
      FindInLonger(fns, added, CallingName(entry.kind, w));
      FindInLonger(fns, added, entry.executableSymbol);
    }
  }

  lemma RunsFirstGrows(fns: seq<MirFunction>, added: seq<MirFunction>, front: seq<PlanEntry>, last: PlanEntry)
    requires RunsFirst(fns, front)
    requires last in front + [last] && EntryRuns(fns + added, last, FirstTarget(front + [last], last))
    ensures RunsFirst(fns + added, front + [last])
  {
    hide EntryRuns, FirstTarget;
    var plan := front + [last];
    forall k | 0 <= k < |plan|
      ensures EntryRuns(fns + added, plan[k], FirstTarget(plan, plan[k]))
    {
      if k < |front| {
        assert plan[k] == front[k];
        EntryRunsInLonger(fns, added, front[k], FirstTarget(front, front[k]));
        FirstTargetIn(front, [last], front[k], plan[k]);
      }
    }
  }

  lemma PrepareLast(fns: seq<MirFunction>, plan: seq<PlanEntry>)
    requires plan != [] && Prepare(fns, plan).result.Ok?
    ensures var front, last := plan[..|plan| - 1], plan[|plan| - 1];
      var before := Prepare(fns, front);
      && before.result.Ok? && PrepareEntry(before.functions, last).symbol.Ok?
      && Prepare(fns, plan).functions == before.functions + PrepareEntry(before.functions, last).added
  {
  }

  lemma AllRegistered(fns: seq<MirFunction>, plan: seq<PlanEntry>)
    requires Prepare(fns, plan).result.Ok?
    ensures forall k | 0 <= k < |plan| :: HasFunction(Prepare(fns, plan).functions, RegisteredSymbol(plan[k]))
  {
    hide Prepare, HasFunction, RegisteredSymbol;
    RegistrationsMatchPlan(fns, plan);
    var after := Prepare(fns, plan);
    forall k | 0 <= k < |plan|
      ensures HasFunction(after.functions, RegisteredSymbol(plan[k]))
    {
      assert Registers(after.functions, after.result.value[k], plan[k]);
    }
  }

  lemma NothingPrepared(fns: seq<MirFunction>)
    requires Clean(fns)
    ensures Prepare(fns, []).functions == fns && Ownership(fns, []) && RunsFirst(fns, [])
  {
    hide WrapperName, HasFunction;
  }

  /** One more entry keeps both properties. */
  lemma OneMoreRunsFirst(before: seq<MirFunction>, front: seq<PlanEntry>, last: PlanEntry)
    requires Ownership(before, front) && RunsFirst(before, front) && PrepareEntry(before, last).symbol.Ok?
    requires forall k | 0 <= k < |front| :: HasFunction(before, RegisteredSymbol(front[k]))
    ensures var after := before + PrepareEntry(before, last).added;
      Ownership(after, front + [last]) && RunsFirst(after, front + [last])
  {
    hide PrepareEntry, Ownership, RegisteredSymbol, HasFunction, RunsFirst, FirstTarget, EntryRuns;
    OwnershipGrows(before, front, last);
    NewEntryRuns(before, front, last);
    RunsFirstGrows(before, PrepareEntry(before, last).added, front, last);
  }

  lemma {:induction false} HandlersRunFirst(fns: seq<MirFunction>, plan: seq<PlanEntry>)
    requires Clean(fns) && Prepare(fns, plan).result.Ok?
    ensures Ownership(Prepare(fns, plan).functions, plan) && RunsFirst(Prepare(fns, plan).functions, plan)
    decreases |plan|
  {
    hide Prepare, PrepareEntry, Ownership, RegisteredSymbol, HasFunction, RunsFirst, Clean;
    if plan == [] {
      NothingPrepared(fns);
    } else {
      var front, last := plan[..|plan| - 1], plan[|plan| - 1];
      assert plan == front + [last];
      PrepareLast(fns, plan);
      HandlersRunFirst(fns, front);
      AllRegistered(fns, front);
      OneMoreRunsFirst(Prepare(fns, front).functions, front, last);
    }
  }

  ghost predicate AllRunOwnTarget(fns: seq<MirFunction>, plan: seq<PlanEntry>) {
    forall k | 0 <= k < |plan| :: EntryRuns(fns, plan[k], plan[k].executableSymbol)
  }

  ghost predicate SharersAgree(plan: seq<PlanEntry>) {
    forall j, k | 0 <= j < |plan| && 0 <= k < |plan| && Shares(plan[j], plan[k]) ::
      plan[j].executableSymbol == plan[k].executableSymbol
  }

  /** In a module without generated names, every registration runs its own target exactly when
      entries that share a wrapper have the same target. */
  lemma OwnTargetIff(fns: seq<MirFunction>, plan: seq<PlanEntry>)
    requires Clean(fns) && Prepare(fns, plan).result.Ok?
    ensures AllRunOwnTarget(Prepare(fns, plan).functions, plan) <==> SharersAgree(plan)
  {
    hide Prepare, Clean, Ownership, Shares, FirstTarget, RegisteredSymbol, Runs;
    HandlersRunFirst(fns, plan);
    var after := Prepare(fns, plan).functions;
    if AllRunOwnTarget(after, plan) {
      forall j, k | 0 <= j < |plan| && 0 <= k < |plan| && Shares(plan[j], plan[k])
        ensures plan[j].executableSymbol == plan[k].executableSymbol
      {
        assert plan + [] == plan;
        FirstTargetIn(plan, [], plan[j], plan[k]);
      }
    }
    if SharersAgree(plan) {
      forall k | 0 <= k < |plan|
        ensures EntryRuns(after, plan[k], plan[k].executableSymbol)
      {
        FirstTargetShares(plan, k);
      }
    }
  }

  lemma FirstTargetShares(plan: seq<PlanEntry>, k: nat)
    requires k < |plan| && SharersAgree(plan)
    ensures FirstTarget(plan, plan[k]) == plan[k].executableSymbol
  {
    hide RegisteredSymbol;
  }

  // ---- Two names, one wrapper ----

  const FIRST := MirFunction("first", [], UnitType, UnitExpr, false, [], false)
  const SECOND := MirFunction("second", [], UnitType, UnitExpr, false, [], false)

  lemma PlainNamesAreClean(fns: seq<MirFunction>)
    requires forall f | f in fns :: f.name != "" && f.name[0] != '_'
    ensures Clean(fns)
  {
    forall kind, name | kind != Route
      ensures !HasFunction(fns, WrapperName(kind, name)) && !HasFunction(fns, ActorBodyName(WrapperName(kind, name)))
    {
      assert WrapperName(kind, name)[0] == '_' && ActorBodyName(WrapperName(kind, name))[0] == '_';
    }
  }

  lemma WorkIsPrepared(fns: seq<MirFunction>, more: seq<MirFunction>, entry: PlanEntry)
    requires entry.kind == Work && HasFunction(fns, entry.executableSymbol)
    requires WorkSignatureOk(FindFunction(fns, entry.executableSymbol).value.params)
    ensures PrepareEntry(fns + more, entry).symbol.Ok?
  {
    FindInLonger(fns, more, entry.executableSymbol);
  }

  /** Handlers declared as `A.b` and `A_b` are both accepted, and both run the first one's target. */
  lemma SecondTargetNeverRuns()
    ensures var fns := [FIRST, SECOND];
      var plan := [PlanEntry(Work, "A.b", "first", 1), PlanEntry(Work, "A_b", "second", 1)];
      var after := Prepare(fns, plan);
      && Clean(fns) && after.result.Ok?
      && EntryRuns(after.functions, plan[0], "first")
      && EntryRuns(after.functions, plan[1], "first")
      && !EntryRuns(after.functions, plan[1], "second")
  {
    hide Prepare, Clean, EntryHandsOver, Runs;
    var fns := [FIRST, SECOND];
    var a, b := PlanEntry(Work, "A.b", "first", 1), PlanEntry(Work, "A_b", "second", 1);
    var plan := [a, b];
    assert fns[0] == FIRST && fns[1] == SECOND && "first"[0] == 'f' && "second"[0] == 's';
    PlainNamesAreClean(fns);
    assert fns[1..] == [SECOND];
    assert FindFunction(fns, "first") == Some(FIRST) && FindFunction(fns, "second") == Some(SECOND);
    SameSanitized();
    TwoWorkEntries(fns, a, b);
    SecondOfTwo(fns, a, b);
  }

  /** Of two entries that share a wrapper, both run the first one's target. */
  lemma SecondOfTwo(fns: seq<MirFunction>, a: PlanEntry, b: PlanEntry)
    requires Clean(fns) && Prepare(fns, [a, b]).result.Ok? && Shares(a, b)
    ensures var after := Prepare(fns, [a, b]).functions;
      EntryRuns(after, a, a.executableSymbol) && EntryRuns(after, b, a.executableSymbol)
    ensures a.executableSymbol != b.executableSymbol ==>
      !EntryRuns(Prepare(fns, [a, b]).functions, b, b.executableSymbol)
  {
    hide Prepare, Clean, Ownership, RegisteredSymbol, Runs, EntryHandsOver;
    var plan := [a, b];
    HandlersRunFirst(fns, plan);
    assert plan[0] == a && plan[1] == b;
    assert FirstSharing(plan, a) == 0 && FirstSharing(plan, b) == 0;
  }

  lemma SameSanitized()
    ensures SanitizeRuntimeName("A.b") == SanitizeRuntimeName("A_b")
  {
    assert SanitizeRuntimeName("A.b") == ['a', '_', 'b'] == SanitizeRuntimeName("A_b");
  }

  lemma TwoWorkEntries(fns: seq<MirFunction>, a: PlanEntry, b: PlanEntry)
    requires a.kind == Work && HasFunction(fns, a.executableSymbol)
    requires WorkSignatureOk(FindFunction(fns, a.executableSymbol).value.params)
    requires b.kind == Work && HasFunction(fns, b.executableSymbol)
    requires WorkSignatureOk(FindFunction(fns, b.executableSymbol).value.params)
    ensures Prepare(fns, [a, b]).result.Ok?
  {
    hide PrepareEntry, HasFunction, FindFunction;
    assert [a, b][..1] == [a] && [a][..0] == [];
    assert fns + [] == fns;
    WorkIsPrepared(fns, [], a);
    assert Prepare(fns, []).result == Ok([]);
    assert Prepare(fns, [a]).result.Ok?;
    WorkIsPrepared(fns, PrepareEntry(fns, a).added, b);
  }
}
