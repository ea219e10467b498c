/** Preparation: how rpc-src/create-reconciler.ts plans child CREATEs and reserves their nonces. */
module Planner {
  import opened Wrappers
  import opened Addresses
  import opened ChainState
  import opened Journal
  import AddressMap

  // ---- A simulation ----

  datatype Opcode = PlainCreate | OtherOpcode | Unlabelled

  datatype Traced = Traced(opcode: Opcode, index: Option<nat>, caller: Address, created: Address, success: bool)

  datatype Simulation =
    Simulation(complete: bool, mode: Mode, nativeId: Hash, root: Address, attempts: seq<Traced>)

  predicate CanonicalTransparentProxy(env: Env, x: Context) {
    && x.kind == Deployment && x.contractKind == Some(TransparentProxy)
    && x.identity.Some? && env.isTransparentProxy(x.identity.value)
  }

  /** What a simulation must look like before any attempt of it is read; `None` when it is acceptable. */
  function ProfileError(env: Env, sim: Simulation, x: Context, nativeId: Hash): Option<Code> {
    if !sim.complete then Some(SimulationIncomplete)
    else if sim.nativeId != nativeId then Some(SimulationTransactionMismatch)
    else if !NonZero(sim.root) then Some(InvalidTrace)
    else if sim.mode == ExactSigned then
      if sim.root != x.actualTarget then Some(SimulationRootMismatch) else None
    else if sim.mode != (if x.kind == Deployment then ConstantCreate else ConstantCall) then Some(UnsafeConstantProfile)
    else if sim.mode == ConstantCall && sim.root != x.actualTarget then Some(UnsafeConstantProfile)
    else if CanonicalTransparentProxy(env, x) then
      if |sim.attempts| != 1 || !sim.attempts[0].success then Some(UnsafeConstantProfile)
      else if !NonZero(sim.attempts[0].caller) then Some(InvalidTrace)
      else if sim.attempts[0].caller != sim.root then Some(UnsafeConstantProfile)
      else None
    else if sim.attempts != [] then Some(UnsafeConstantProfile)
    else None
  }

  // ---- Callers ----

  predicate CountersValid(c: Chain) {
    forall a :: a in c.counters ==> NonZero(a) && c.counters[a] >= 1
  }

  /** The nonce a contract's next child CREATE uses; contracts start at nonce 1. */
  function NextNonce(c: Chain, caller: Address): nat {
    if caller in c.counters then c.counters[caller] else 1
  }

  type Callers = map<Address, Address>

  function AddCaller(callers: Callers, actual: Address, predicted: Address): Result<Callers, Code> {
    if !NonZero(actual) || !NonZero(predicted) then Err(InvalidTrace)
    else if actual in callers && callers[actual] != predicted then Err(CallerConflict)
    else Ok(callers[actual := predicted])
  }

  function PredictedRoot(x: Context): Address
    requires ValidContext(x)
  {
    if x.kind == Deployment then x.predictedContract.value else x.to.value
  }

  /** The sender and the target, and the simulation's own root when it stands for a new contract. */
  function FirstCallers(x: Context, sim: Simulation): Result<Callers, Code>
    requires ValidContext(x)
  {
    var sender :- AddCaller(map[], x.from, x.from);
    var target :- AddCaller(sender, x.actualTarget, PredictedRoot(x));
    if sim.mode == ConstantCreate then AddCaller(target, sim.root, PredictedRoot(x)) else Ok(target)
  }

  /** A caller known to this trace comes before one found in the address table. */
  function Resolve(c: Chain, callers: Callers, actual: Address): Option<Address> {
    if actual in callers then Some(callers[actual])
    else if actual in c.byActual then Some(c.byActual[actual])
    else if actual in c.byPredicted then Some(actual)
    else None
  }

  // ---- Planning attempt by attempt ----

  datatype Planning = Planning(callers: Callers, plan: Plan)

  function NonceFor(c: Chain, plan: Plan, caller: Address): nat {
    if caller in plan.finals then plan.finals[caller] else NextNonce(c, caller)
  }

  function Append(plan: Plan, a: Attempt): Plan {
    var bases: map<Address, nat> :=
      if a.predictedCaller in plan.finals then plan.bases else plan.bases[a.predictedCaller := a.nonce];
    plan.(attempts := plan.attempts + [a], bases := bases, finals := plan.finals[a.predictedCaller := a.nonce + 1])
  }

  /** The one child whose metadata is known in advance: the ProxyAdmin of a canonical transparent proxy. */
  function ProxyAdminMetadata(env: Env, x: Context, caller: Address, nonce: nat): Result<Option<ChildMetadata>, Code> {
    if CanonicalTransparentProxy(env, x) && Some(caller) == x.predictedContract && nonce == 1 then
      match env.proxyAdminOf(x.identity.value)
      case Some(identity) => Ok(Some(ChildMetadata(ProxyAdmin, identity)))
      case None => Err(InvalidProxyMetadata)
    else Ok(None)
  }

  function TraceError(sim: Simulation, t: Traced, index: nat): Option<Code> {
    if t.opcode == OtherOpcode then Some(Create2Rejected)
    else if t.opcode == Unlabelled && sim.mode == ExactSigned then Some(CreateKindUnknown)
    else if t.index.Some? && t.index.value != index then Some(InvalidTrace)
    else if !NonZero(t.caller) || (t.success && !NonZero(t.created)) then Some(InvalidTrace)
    else None
  }

  predicate Available(c: Chain, mode: Mode, predicted: Address, actual: Address) {
    predicted !in c.byPredicted && (mode == ExactSigned ==> actual !in c.byActual)
  }

  function PlanAttempt(env: Env, c: Chain, x: Context, sim: Simulation, p: Planning, t: Traced): Result<Planning, Code> {
    var index := |p.plan.attempts|;
    var error := TraceError(sim, t, index);
    if error.Some? then Err(error.value)
    else
      var caller := Resolve(c, p.callers, t.caller);
      if caller.None? then Err(CallerUnmapped)
      else
        var nonce := NonceFor(c, p.plan, caller.value);
        var predicted := CreateAddress(env, caller.value, nonce);
        var metadata :- if t.success then ProxyAdminMetadata(env, x, caller.value, nonce) else Ok(None);
        var attempt := Attempt(index, t.caller, caller.value, nonce, predicted, t.created, t.success, metadata);
        if !t.success then Ok(Planning(p.callers, Append(p.plan, attempt)))
        else if !Available(c, sim.mode, predicted, t.created) then Err(SimulationConflict)
        else
          var callers :- AddCaller(p.callers, t.created, predicted);
          Ok(Planning(callers, Append(p.plan, attempt)))
  }

  function PlanAttempts(env: Env, c: Chain, x: Context, sim: Simulation, k: nat): Result<Planning, Code>
    requires ValidContext(x) && k <= |sim.attempts|
  {
    if k == 0 then
      var callers :- FirstCallers(x, sim);
      Ok(Planning(callers, Plan(sim.mode, x.from, sim.root, [], map[], map[])))
    else
      var p :- PlanAttempts(env, c, x, sim, k - 1);
      PlanAttempt(env, c, x, sim, p, sim.attempts[k - 1])
  }

  function DerivePlan(env: Env, c: Chain, sim: Simulation, x: Context, nativeId: Hash): Result<Preparation, Code> {
    if !ValidContext(x) then Err(InvalidPreparation)
    else
      var error := ProfileError(env, sim, x, nativeId);
      if error.Some? then Err(error.value)
      else if !AddressMap.IndexesValid(c) then Err(CorruptIndexes)
      else if !CountersValid(c) then Err(CorruptCounters)
      else
        var p :- PlanAttempts(env, c, x, sim, |sim.attempts|);
        Ok(Preparation(x, p.plan))
  }

  lemma {:induction false} PlanAttemptsFails(env: Env, c: Chain, x: Context, sim: Simulation, k: nat, n: nat)
    requires ValidContext(x) && k <= n <= |sim.attempts| && PlanAttempts(env, c, x, sim, k).Err?
    ensures PlanAttempts(env, c, x, sim, n).Err?
    ensures PlanAttempts(env, c, x, sim, n) == PlanAttempts(env, c, x, sim, k)
  {
    if k < n {
      PlanAttemptsFails(env, c, x, sim, k, n - 1);
    }
  }

  lemma PlanAttemptsStart(env: Env, c: Chain, x: Context, sim: Simulation)
    requires ValidContext(x)
    ensures match FirstCallers(x, sim)
            case Ok(callers) =>
              PlanAttempts(env, c, x, sim, 0) == Ok(Planning(callers, Plan(sim.mode, x.from, sim.root, [], map[], map[])))
            case Err(e) => PlanAttempts(env, c, x, sim, |sim.attempts|) == Err(e)
  {
    if FirstCallers(x, sim).Err? {
      PlanAttemptsFails(env, c, x, sim, 0, |sim.attempts|);
    }
  }

  method DerivePlanInOrder(env: Env, c: Chain, sim: Simulation, x: Context, nativeId: Hash)
    returns (r: Result<Preparation, Code>)
    ensures r == DerivePlan(env, c, sim, x, nativeId)
  {
    if !ValidContext(x) {
      return Err(InvalidPreparation);
    }
    var error := ProfileError(env, sim, x, nativeId);
    if error.Some? {
      return Err(error.value);
    }
    if !AddressMap.IndexesValid(c) {
      return Err(CorruptIndexes);
    }
    if !CountersValid(c) {
      return Err(CorruptCounters);
    }
    var p :- PlanInOrder(env, c, sim, x);
    return Ok(Preparation(x, p.plan));
  }

  /** The attempts one after another, filling the caller and counter tables as it goes. */
  method PlanInOrder(env: Env, c: Chain, sim: Simulation, x: Context) returns (r: Result<Planning, Code>)
    requires ValidContext(x)
    ensures r == PlanAttempts(env, c, x, sim, |sim.attempts|)
  {
    hide PlanAttempt, FirstCallers, ValidContext;
    PlanAttemptsStart(env, c, x, sim);
    var callers :- FirstCallers(x, sim);
    var p := Planning(callers, Plan(sim.mode, x.from, sim.root, [], map[], map[]));
    for k := 0 to |sim.attempts|
      invariant PlanAttempts(env, c, x, sim, k) == Ok(p)
    {
      var next := PlanAttempt(env, c, x, sim, p, sim.attempts[k]);
      if next.Err? {
        PlanAttemptsFails(env, c, x, sim, k + 1, |sim.attempts|);
        return Err(next.error);
      }
      p := next.value;
    }
    return Ok(p);
  }

  // ---- The planner agrees with the validator ----

  /** Every base is the counter the chain holds. */
  predicate BasesStored(c: Chain, plan: Plan) {
    forall a :: a in plan.bases ==> plan.bases[a] == NextNonce(c, a)
  }

  lemma {:induction false} UnknownCallerHasNoAttempts(env: Env, plan: Plan, i: nat, caller: Address)
    requires ValidPlan(env, plan) && caller !in plan.bases && i <= |plan.attempts|
    ensures CountBy(plan.attempts[..i], caller) == 0
  {
    if i > 0 {
      UnknownCallerHasNoAttempts(env, plan, i - 1, caller);
      CountBySnoc(plan.attempts, i - 1, caller);
      assert PlannedAt(env, plan, i - 1);
    }
  }

  /** One more attempt by the next nonce of its caller keeps the plan valid. */
  lemma AppendKeepsValid(env: Env, c: Chain, plan: Plan, a: Attempt)
    requires ValidPlan(env, plan) && CountersValid(c)
    requires a.index == |plan.attempts| && a.nonce == NonceFor(c, plan, a.predictedCaller)
    requires a.predictedAddress == CreateAddress(env, a.predictedCaller, a.nonce)
    ensures ValidPlan(env, Append(plan, a))
  {
    assert plan.attempts[..|plan.attempts|] == plan.attempts;
    if a.predictedCaller !in plan.bases {
      UnknownCallerHasNoAttempts(env, plan, |plan.attempts|, a.predictedCaller);
    }
    AppendKeepsBalance(c, plan, a);
    AppendKeepsPlanned(env, c, plan, a);
  }

  lemma AppendKeepsBalance(c: Chain, plan: Plan, a: Attempt)
    requires plan.bases.Keys == plan.finals.Keys && Balanced(plan) && CountersValid(c)
    requires a.predictedCaller !in plan.bases ==> CountBy(plan.attempts, a.predictedCaller) == 0
    requires a.nonce == NonceFor(c, plan, a.predictedCaller)
    ensures Balanced(Append(plan, a)) && Append(plan, a).bases.Keys == Append(plan, a).finals.Keys
  {
    var longer := Append(plan, a);
    assert longer.attempts[..|plan.attempts|] == plan.attempts;
    assert forall b :: CountBy(longer.attempts, b) == CountBy(plan.attempts, b) + if a.predictedCaller == b then 1 else 0;
  }

  lemma AppendKeepsPlanned(env: Env, c: Chain, plan: Plan, a: Attempt)
    requires ValidPlan(env, plan)
    requires a.index == |plan.attempts| && a.nonce == NonceFor(c, plan, a.predictedCaller)
    requires a.predictedAddress == CreateAddress(env, a.predictedCaller, a.nonce)
    ensures forall i :: 0 <= i < |Append(plan, a).attempts| ==> PlannedAt(env, Append(plan, a), i)
  {
    var longer := Append(plan, a);
    forall i | 0 <= i < |longer.attempts| ensures PlannedAt(env, longer, i) {
      if i < |plan.attempts| {
        assert PlannedAt(env, plan, i);
        assert longer.attempts[..i] == plan.attempts[..i];
      } else {
        assert longer.attempts[..i] == plan.attempts;
        if a.predictedCaller !in plan.bases {
          UnknownCallerHasNoAttempts(env, plan, i, a.predictedCaller);
          assert plan.attempts[..i] == plan.attempts;
        }
      }
    }
  }

  /** One planned attempt: it follows the trace, resolves its caller, takes the next nonce, and is new. */
  predicate Planned(env: Env, c: Chain, sim: Simulation, p: Planning, t: Traced, q: Planning, a: Attempt) {
    && TraceError(sim, t, |p.plan.attempts|).None?
    && q.plan == Append(p.plan, a)
    && a.index == |p.plan.attempts| && a.actualCaller == t.caller && a.simulatedActual == t.created
    && a.success == t.success
    && Resolve(c, p.callers, t.caller) == Some(a.predictedCaller)
    && a.nonce == NonceFor(c, p.plan, a.predictedCaller)
    && a.predictedAddress == CreateAddress(env, a.predictedCaller, a.nonce)
    && (if a.success
        then && Available(c, sim.mode, a.predictedAddress, a.simulatedActual)
             && AddCaller(p.callers, a.simulatedActual, a.predictedAddress) == Ok(q.callers)
        else q.callers == p.callers)
  }

  lemma AttemptPlanned(env: Env, c: Chain, x: Context, sim: Simulation, p: Planning, t: Traced)
    requires PlanAttempt(env, c, x, sim, p, t).Ok?
    ensures var q := PlanAttempt(env, c, x, sim, p, t).value;
            && |q.plan.attempts| == |p.plan.attempts| + 1
            && Planned(env, c, sim, p, t, q, q.plan.attempts[|p.plan.attempts|])
  {
    hide TraceError, Available, AddCaller, Resolve, NonceFor, ProxyAdminMetadata;
  }

  lemma {:induction false} PlanAttemptsValid(env: Env, c: Chain, x: Context, sim: Simulation, k: nat)
    requires ValidContext(x) && CountersValid(c) && k <= |sim.attempts| && PlanAttempts(env, c, x, sim, k).Ok?
    ensures var plan := PlanAttempts(env, c, x, sim, k).value.plan;
            && ValidPlan(env, plan) && BasesStored(c, plan)
            && plan.sender == x.from && plan.mode == sim.mode && |plan.attempts| == k
  {
    if k > 0 {
      hide PlanAttempt, TraceError, Available, AddCaller, Resolve, FirstCallers, ValidPlan, CountersValid, ValidContext;
      PlanAttemptsValid(env, c, x, sim, k - 1);
      var p := PlanAttempts(env, c, x, sim, k - 1).value;
      AttemptPlanned(env, c, x, sim, p, sim.attempts[k - 1]);
      var q := PlanAttempts(env, c, x, sim, k).value;
      AppendKeepsValid(env, c, p.plan, q.plan.attempts[k - 1]);
      KeysAgree(env, p.plan);
    }
  }

  lemma KeysAgree(env: Env, plan: Plan)
    requires ValidPlan(env, plan)
    ensures plan.bases.Keys == plan.finals.Keys
  {
  }

  /** The validator's own replay accepts every plan the planner returns, and its bases are the stored counters. */
  lemma PlannerAgreesWithValidator(env: Env, c: Chain, sim: Simulation, x: Context, nativeId: Hash)
    requires DerivePlan(env, c, sim, x, nativeId).Ok?
    ensures var p := DerivePlan(env, c, sim, x, nativeId).value;
            ValidPreparation(env, p.context, p.plan) && p.context == x && BasesStored(c, p.plan)
    ensures CountersValid(c)
  {
    hide ProfileError, ValidPlan, BasesStored, PlanAttempts;
    PlanAttemptsValid(env, c, x, sim, |sim.attempts|);
  }

  /** Zero never becomes a caller, so what a plan adds to the counters passes their own check. */
  predicate CallersNonZero(p: Planning) {
    (forall a :: a in p.callers ==> NonZero(p.callers[a])) && (forall a :: a in p.plan.bases ==> NonZero(a))
  }

  lemma ResolvedNonZero(c: Chain, p: Planning, actual: Address)
    requires AddressMap.IndexesValid(c) && CallersNonZero(p) && NonZero(actual)
    ensures Resolve(c, p.callers, actual).Some? ==> NonZero(Resolve(c, p.callers, actual).value)
  {
  }

  lemma FirstCallersNonZero(x: Context, sim: Simulation)
    requires ValidContext(x) && FirstCallers(x, sim).Ok?
    ensures forall a :: a in FirstCallers(x, sim).value ==> NonZero(FirstCallers(x, sim).value[a])
  {
    hide ValidContext;
  }

  lemma {:induction false} PlannedCallersNonZero(env: Env, c: Chain, x: Context, sim: Simulation, k: nat)
    requires ValidContext(x) && AddressMap.IndexesValid(c) && k <= |sim.attempts| && PlanAttempts(env, c, x, sim, k).Ok?
    ensures CallersNonZero(PlanAttempts(env, c, x, sim, k).value)
  {
    hide PlanAttempt, FirstCallers, Resolve, Available, NonceFor, ValidContext, AddressMap.IndexesValid;
    if k == 0 {
      FirstCallersNonZero(x, sim);
    } else {
      PlannedCallersNonZero(env, c, x, sim, k - 1);
      var p := PlanAttempts(env, c, x, sim, k - 1).value;
      AttemptPlanned(env, c, x, sim, p, sim.attempts[k - 1]);
      ResolvedNonZero(c, p, sim.attempts[k - 1].caller);
    }
  }

  lemma SenderNonZero(env: Env, c: Chain, sim: Simulation, x: Context, nativeId: Hash)
    requires DerivePlan(env, c, sim, x, nativeId).Ok?
    ensures NonZero(x.from)
  {
    DerivedPlan(env, c, sim, x, nativeId);
    hide DerivePlan, PlanAttempt, ValidContext;
    PrefixOfPlan(env, c, x, sim, 0, |sim.attempts|);
  }

  lemma ReservedCountersValid(env: Env, c: Chain, sim: Simulation, x: Context, nativeId: Hash)
    requires DerivePlan(env, c, sim, x, nativeId).Ok?
    ensures var plan := DerivePlan(env, c, sim, x, nativeId).value.plan;
            CountersValid(c) && CountersValid(c.(counters := c.counters + plan.finals))
  {
    PlannerAgreesWithValidator(env, c, sim, x, nativeId);
    DerivedPlan(env, c, sim, x, nativeId);
    hide PlanAttempts, ValidContext;
    PlannedCallersNonZero(env, c, x, sim, |sim.attempts|);
  }

  // ---- What a plan says about its callers and children ----

  /** The sender, the target, or an earlier successful child stands under this predicted address. */
  predicate Names(x: Context, sim: Simulation, attempts: seq<Attempt>, actual: Address, predicted: Address)
    requires ValidContext(x)
  {
    || (actual == x.from && predicted == x.from)
    || (actual == x.actualTarget && predicted == PredictedRoot(x))
    || (sim.mode == ConstantCreate && actual == sim.root && predicted == PredictedRoot(x))
    || exists j :: 0 <= j < |attempts| && ChildAt(attempts, j, actual, predicted)
  }

  predicate ChildAt(attempts: seq<Attempt>, j: nat, actual: Address, predicted: Address)
    requires j < |attempts|
  {
    attempts[j].success && attempts[j].simulatedActual == actual && attempts[j].predictedAddress == predicted
  }

  ghost predicate GraphOfNames(x: Context, sim: Simulation, p: Planning)
    requires ValidContext(x)
  {
    forall a, b :: Names(x, sim, p.plan.attempts, a, b) <==> a in p.callers && p.callers[a] == b
  }

  lemma NamesSnoc(x: Context, sim: Simulation, attempts: seq<Attempt>, last: Attempt, a: Address, b: Address)
    requires ValidContext(x)
    ensures Names(x, sim, attempts + [last], a, b) <==>
            Names(x, sim, attempts, a, b) || (last.success && last.simulatedActual == a && last.predictedAddress == b)
  {
    var longer := attempts + [last];
    if j :| 0 <= j < |attempts| && ChildAt(attempts, j, a, b) {
      assert ChildAt(longer, j, a, b);
    }
    if last.success && last.simulatedActual == a && last.predictedAddress == b {
      assert ChildAt(longer, |attempts|, a, b);
    }
    if j :| 0 <= j < |longer| && ChildAt(longer, j, a, b) {
      assert j < |attempts| ==> ChildAt(attempts, j, a, b);
    }
  }

  /** The caller table is always exactly the sender, the target and the children planned so far. */
  lemma {:induction false} CallersAreNamed(env: Env, c: Chain, x: Context, sim: Simulation, k: nat)
    requires ValidContext(x) && k <= |sim.attempts| && PlanAttempts(env, c, x, sim, k).Ok?
    ensures GraphOfNames(x, sim, PlanAttempts(env, c, x, sim, k).value)
  {
    if k > 0 {
      hide PlanAttempt, FirstCallers, TraceError, Resolve, Available, Names;
      CallersAreNamed(env, c, x, sim, k - 1);
      var p := PlanAttempts(env, c, x, sim, k - 1).value;
      AttemptPlanned(env, c, x, sim, p, sim.attempts[k - 1]);
      var q := PlanAttempts(env, c, x, sim, k).value;
      NameStep(env, c, x, sim, p, sim.attempts[k - 1], q, q.plan.attempts[|p.plan.attempts|]);
    }
  }

  lemma NameStep(env: Env, c: Chain, x: Context, sim: Simulation, p: Planning, t: Traced, q: Planning, a: Attempt)
    requires ValidContext(x) && GraphOfNames(x, sim, p) && Planned(env, c, sim, p, t, q, a)
    ensures GraphOfNames(x, sim, q)
  {
    hide ValidContext, Names, TraceError, Resolve, Available, NonceFor;
    forall b, d ensures Names(x, sim, q.plan.attempts, b, d) <==> b in q.callers && q.callers[b] == d {
      NamesSnoc(x, sim, p.plan.attempts, a, b, d);
      assert Names(x, sim, p.plan.attempts, b, d) <==> b in p.callers && p.callers[b] == d;
    }
  }

  lemma {:induction false} PrefixOfPlan(env: Env, c: Chain, x: Context, sim: Simulation, k: nat, n: nat)
    requires ValidContext(x) && k <= n <= |sim.attempts| && PlanAttempts(env, c, x, sim, n).Ok?
    ensures PlanAttempts(env, c, x, sim, k).Ok?
    ensures var p, q := PlanAttempts(env, c, x, sim, k).value.plan, PlanAttempts(env, c, x, sim, n).value.plan;
            |p.attempts| == k && |q.attempts| == n && p.attempts == q.attempts[..k]
    decreases n
  {
    hide PlanAttempt, FirstCallers, ValidContext;
    if n == 0 {
    } else if k < n {
      PrefixOfPlan(env, c, x, sim, k, n - 1);
      AttemptPlanned(env, c, x, sim, PlanAttempts(env, c, x, sim, n - 1).value, sim.attempts[n - 1]);
    } else {
      PrefixOfPlan(env, c, x, sim, n - 1, n - 1);
      AttemptPlanned(env, c, x, sim, PlanAttempts(env, c, x, sim, n - 1).value, sim.attempts[n - 1]);
    }
  }

  /**
   * Every attempt of a derived plan follows its trace entry, and its predicted caller is whoever
   * the simulated caller stands for: the sender, the target or an earlier child if it names one of
   * these, and otherwise the entry of the address table. A planned child is new to the table.
   */
  lemma CallersResolve(env: Env, c: Chain, sim: Simulation, x: Context, nativeId: Hash, i: nat)
    requires DerivePlan(env, c, sim, x, nativeId).Ok? && i < |sim.attempts|
    ensures ValidContext(x)
    ensures var attempts := DerivePlan(env, c, sim, x, nativeId).value.plan.attempts;
            && |attempts| == |sim.attempts|
            && var a, t := attempts[i], sim.attempts[i];
               && TraceError(sim, t, i).None?
               && a.actualCaller == t.caller && a.simulatedActual == t.created && a.success == t.success
               && (|| Names(x, sim, attempts[..i], t.caller, a.predictedCaller)
                   || (&& (forall b :: !Names(x, sim, attempts[..i], t.caller, b))
                       && (if t.caller in c.byActual then a.predictedCaller == c.byActual[t.caller]
                           else t.caller in c.byPredicted && a.predictedCaller == t.caller)))
               && (a.success ==> Available(c, sim.mode, a.predictedAddress, a.simulatedActual))
  {
    var n := |sim.attempts|;
    DerivedPlan(env, c, sim, x, nativeId);
    PrefixOfPlan(env, c, x, sim, i, n);
    PrefixOfPlan(env, c, x, sim, i + 1, n);
    CallersAreNamed(env, c, x, sim, i);
    hide DerivePlan, PlanAttempt, PlanAttempts, ValidContext, TraceError, Available, Names, Planned;
    var p := PlanAttempts(env, c, x, sim, i).value;
    AttemptAt(env, c, x, sim, i);
    PlannedCaller(env, c, x, sim, p, sim.attempts[i], PlanAttempts(env, c, x, sim, i + 1).value);
  }

  lemma DerivedPlan(env: Env, c: Chain, sim: Simulation, x: Context, nativeId: Hash)
    requires DerivePlan(env, c, sim, x, nativeId).Ok?
    ensures ValidContext(x) && PlanAttempts(env, c, x, sim, |sim.attempts|).Ok?
    ensures DerivePlan(env, c, sim, x, nativeId).value
            == Preparation(x, PlanAttempts(env, c, x, sim, |sim.attempts|).value.plan)
  {
    hide ValidContext, PlanAttempts;
  }

  lemma AttemptAt(env: Env, c: Chain, x: Context, sim: Simulation, i: nat)
    requires ValidContext(x) && i < |sim.attempts| && PlanAttempts(env, c, x, sim, i + 1).Ok?
    ensures PlanAttempts(env, c, x, sim, i).Ok?
    ensures var p, q := PlanAttempts(env, c, x, sim, i).value, PlanAttempts(env, c, x, sim, i + 1).value;
            && |q.plan.attempts| == |p.plan.attempts| + 1
            && Planned(env, c, sim, p, sim.attempts[i], q, q.plan.attempts[|p.plan.attempts|])
  {
    hide PlanAttempt, FirstCallers, Planned;
    AttemptPlanned(env, c, x, sim, PlanAttempts(env, c, x, sim, i).value, sim.attempts[i]);
  }

  lemma PlannedCaller(env: Env, c: Chain, x: Context, sim: Simulation, p: Planning, t: Traced, q: Planning)
    requires ValidContext(x) && GraphOfNames(x, sim, p) && |q.plan.attempts| == |p.plan.attempts| + 1
    requires Planned(env, c, sim, p, t, q, q.plan.attempts[|p.plan.attempts|])
    ensures var a := q.plan.attempts[|p.plan.attempts|];
            && TraceError(sim, t, |p.plan.attempts|).None?
            && a.actualCaller == t.caller && a.simulatedActual == t.created && a.success == t.success
            && (|| Names(x, sim, p.plan.attempts, t.caller, a.predictedCaller)
                || (&& (forall b :: !Names(x, sim, p.plan.attempts, t.caller, b))
                    && (if t.caller in c.byActual then a.predictedCaller == c.byActual[t.caller]
                        else t.caller in c.byPredicted && a.predictedCaller == t.caller)))
            && (a.success ==> Available(c, sim.mode, a.predictedAddress, a.simulatedActual))
  {
    hide ValidContext, Names, TraceError, Available, NonceFor;
  }

  /**
   * CREATE2 never enters a plan: every attempt is labelled as a plain CREATE, or it is the one
   * unlabelled attempt of a constant simulation, made by the simulated contract itself while it is
   * deployed as a canonical transparent proxy.
   */
  lemma OnlyPlainCreates(env: Env, c: Chain, sim: Simulation, x: Context, nativeId: Hash, i: nat)
    requires DerivePlan(env, c, sim, x, nativeId).Ok? && i < |sim.attempts|
    ensures || sim.attempts[i].opcode == PlainCreate
            || (&& sim.attempts[i].opcode == Unlabelled && sim.mode != ExactSigned && |sim.attempts| == 1
                && CanonicalTransparentProxy(env, x) && sim.attempts[i].success && sim.attempts[i].caller == sim.root)
  {
    CallersResolve(env, c, sim, x, nativeId, i);
    DerivedProfile(env, c, sim, x, nativeId);
    hide DerivePlan, Names, Available;
  }

  lemma AttemptMetadata(env: Env, c: Chain, x: Context, sim: Simulation, p: Planning, t: Traced)
    requires PlanAttempt(env, c, x, sim, p, t).Ok?
    ensures var q := PlanAttempt(env, c, x, sim, p, t).value;
            |q.plan.attempts| == |p.plan.attempts| + 1 && MetadataFits(env, x, q.plan.attempts[|p.plan.attempts|])
  {
    hide TraceError, Available, AddCaller, Resolve, NonceFor, ProxyAdminMetadata;
  }

  /**
   * The one child named in advance: exactly the first successful creation of a contract that is being
   * deployed as a canonical transparent proxy, and it is named as that artifact's ProxyAdmin.
   */
  lemma ProxyAdminOnly(env: Env, c: Chain, sim: Simulation, x: Context, nativeId: Hash, i: nat)
    requires DerivePlan(env, c, sim, x, nativeId).Ok?
    requires i < |DerivePlan(env, c, sim, x, nativeId).value.plan.attempts|
    ensures var a := DerivePlan(env, c, sim, x, nativeId).value.plan.attempts[i];
            && (a.metadata.Some? <==>
                  a.success && CanonicalTransparentProxy(env, x) && x.predictedContract == Some(a.predictedCaller) && a.nonce == 1)
            && (a.metadata.Some? ==>
                  a.metadata.value.kind == ProxyAdmin && env.proxyAdminOf(x.identity.value) == Some(a.metadata.value.identity))
  {
    DerivedPlan(env, c, sim, x, nativeId);
    hide DerivePlan, PlanAttempts, ValidContext, CanonicalTransparentProxy;
    PrefixOfPlan(env, c, x, sim, |sim.attempts|, |sim.attempts|);
    MetadataAt(env, c, x, sim, i);
    MetadataMeans(env, x, PlanAttempts(env, c, x, sim, |sim.attempts|).value.plan.attempts[i]);
  }

  predicate MetadataFits(env: Env, x: Context, a: Attempt) {
    if a.success then ProxyAdminMetadata(env, x, a.predictedCaller, a.nonce) == Ok(a.metadata) else a.metadata.None?
  }

  lemma MetadataMeans(env: Env, x: Context, a: Attempt)
    requires MetadataFits(env, x, a)
    ensures a.metadata.Some? <==>
              a.success && CanonicalTransparentProxy(env, x) && x.predictedContract == Some(a.predictedCaller) && a.nonce == 1
    ensures a.metadata.Some? ==>
              a.metadata.value.kind == ProxyAdmin && env.proxyAdminOf(x.identity.value) == Some(a.metadata.value.identity)
  {
  }

  lemma MetadataAt(env: Env, c: Chain, x: Context, sim: Simulation, i: nat)
    requires ValidContext(x) && PlanAttempts(env, c, x, sim, |sim.attempts|).Ok?
    requires i < |sim.attempts| == |PlanAttempts(env, c, x, sim, |sim.attempts|).value.plan.attempts|
    ensures MetadataFits(env, x, PlanAttempts(env, c, x, sim, |sim.attempts|).value.plan.attempts[i])
  {
    hide PlanAttempt, FirstCallers, ValidContext, MetadataFits;
    PrefixOfPlan(env, c, x, sim, i, |sim.attempts|);
    PrefixOfPlan(env, c, x, sim, i + 1, |sim.attempts|);
    AttemptMetadata(env, c, x, sim, PlanAttempts(env, c, x, sim, i).value, sim.attempts[i]);
  }

  lemma DerivedProfile(env: Env, c: Chain, sim: Simulation, x: Context, nativeId: Hash)
    requires DerivePlan(env, c, sim, x, nativeId).Ok?
    ensures ProfileError(env, sim, x, nativeId).None?
  {
    hide PlanAttempts, ProfileError;
  }

  /** No two attempts get the same address by accident of hashing. */
  predicate CollisionFree(attempts: seq<Attempt>) {
    forall i, j :: 0 <= i < |attempts| && 0 <= j < |attempts| && attempts[i].predictedAddress == attempts[j].predictedAddress
                   ==> attempts[i].predictedCaller == attempts[j].predictedCaller && attempts[i].nonce == attempts[j].nonce
  }

  /** Two children of one plan are two addresses on both sides, so publishing both cannot conflict. */
  lemma ChildrenDistinct(env: Env, c: Chain, sim: Simulation, x: Context, nativeId: Hash, i: nat, j: nat)
    requires DerivePlan(env, c, sim, x, nativeId).Ok?
    requires CollisionFree(DerivePlan(env, c, sim, x, nativeId).value.plan.attempts)
    requires i < j < |DerivePlan(env, c, sim, x, nativeId).value.plan.attempts|
    ensures var attempts := DerivePlan(env, c, sim, x, nativeId).value.plan.attempts;
            && attempts[i].predictedAddress != attempts[j].predictedAddress
            && (attempts[i].success && attempts[j].success ==> attempts[i].simulatedActual != attempts[j].simulatedActual)
  {
    DerivedPlan(env, c, sim, x, nativeId);
    PlannerAgreesWithValidator(env, c, sim, x, nativeId);
    hide DerivePlan, ProfileError, PlanAttempts, BasesStored;
    var n := |sim.attempts|;
    var p := PlanAttempts(env, c, x, sim, n).value;
    PlanFillsIntervals(env, p.plan);
    CallersAreNamed(env, c, x, sim, n);
    hide ValidPlan;
    if p.plan.attempts[i].success && p.plan.attempts[j].success
       && p.plan.attempts[i].simulatedActual == p.plan.attempts[j].simulatedActual {
      SameName(x, sim, p, i, j);
    }
  }

  lemma SameName(x: Context, sim: Simulation, p: Planning, i: nat, j: nat)
    requires ValidContext(x) && GraphOfNames(x, sim, p) && i < |p.plan.attempts| && j < |p.plan.attempts|
    requires p.plan.attempts[i].success && p.plan.attempts[j].success
    requires p.plan.attempts[i].simulatedActual == p.plan.attempts[j].simulatedActual
    ensures p.plan.attempts[i].predictedAddress == p.plan.attempts[j].predictedAddress
  {
    var attempts, a := p.plan.attempts, p.plan.attempts[i].simulatedActual;
    assert ChildAt(attempts, i, a, attempts[i].predictedAddress);
    assert ChildAt(attempts, j, a, attempts[j].predictedAddress);
    assert Names(x, sim, attempts, a, attempts[i].predictedAddress);
    assert Names(x, sim, attempts, a, attempts[j].predictedAddress);
  }
}
