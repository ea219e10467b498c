/**
 * Which plan a simulation of rpc-src/create-reconciler.ts gives, told attempt by attempt without the
 * planner, and that the planner derives exactly that plan, or none when there is none.
 */
module Derivation {
  import opened Wrappers
  import opened Addresses
  import opened ChainState
  import opened Journal
  import opened Planner
  import opened Reconciler
  import AddressMap

  // ---- Which simulations are acceptable ----

  /**
   * The simulation is complete, of this native transaction and of this target; a constant one is of the
   * operation's own kind and makes no creation, or exactly the one of a canonical transparent proxy.
   */
  predicate ProfileFits(env: Env, sim: Simulation, x: Context, nativeId: Hash) {
    && sim.complete && sim.nativeId == nativeId && NonZero(sim.root)
    && (sim.mode != ConstantCreate ==> sim.root == x.actualTarget)
    && (sim.mode == ConstantCreate ==> x.kind == Deployment)
    && (sim.mode == ConstantCall ==> x.kind == Call)
    && (sim.mode != ExactSigned ==>
          if CanonicalTransparentProxy(env, x) then |sim.attempts| == 1 && sim.attempts[0].success && sim.attempts[0].caller == sim.root
          else sim.attempts == [])
  }

  lemma ProfileExact(env: Env, sim: Simulation, x: Context, nativeId: Hash)
    ensures ProfileError(env, sim, x, nativeId).None? <==> ProfileFits(env, sim, x, nativeId)
    ensures ProfileError(env, sim, x, nativeId) == Some(SimulationIncomplete) <==> !sim.complete
    ensures ProfileError(env, sim, x, nativeId) == Some(SimulationTransactionMismatch) <==> sim.complete && sim.nativeId != nativeId
    ensures ProfileError(env, sim, x, nativeId) == Some(SimulationRootMismatch) ==> sim.mode == ExactSigned && sim.root != x.actualTarget
    ensures ProfileError(env, sim, x, nativeId) == Some(UnsafeConstantProfile) ==> sim.mode != ExactSigned
  {
  }

  // ---- The plan, attempt by attempt ----

  predicate TraceFits(sim: Simulation, t: Traced, i: nat) {
    && (t.opcode == PlainCreate || (t.opcode == Unlabelled && sim.mode != ExactSigned))
    && (t.index == None || t.index == Some(i))
    && NonZero(t.caller) && (t.success ==> NonZero(t.created))
  }

  /** Sender, target and simulated root stand for themselves without contradiction. */
  predicate StartFits(x: Context, sim: Simulation)
    requires ValidContext(x)
  {
    && NonZero(x.from) && NonZero(x.actualTarget) && NonZero(PredictedRoot(x))
    && (x.actualTarget == x.from ==> PredictedRoot(x) == x.from)
    && (sim.mode == ConstantCreate ==> NonZero(sim.root) && (sim.root == x.from ==> PredictedRoot(x) == x.from))
  }

  /** Who makes the attempt: whoever the earlier part of the trace names so, and otherwise the table's entry. */
  ghost predicate IsCaller(c: Chain, x: Context, sim: Simulation, earlier: seq<Attempt>, actual: Address, predicted: Address)
    requires ValidContext(x)
  {
    || Names(x, sim, earlier, actual, predicted)
    || (&& (forall b :: !Names(x, sim, earlier, actual, b))
        && if actual in c.byActual then predicted == c.byActual[actual] else actual in c.byPredicted && predicted == actual)
  }

  /** The stored counter of a caller; a contract nobody has counted for starts at nonce 1. */
  predicate CountsFrom(c: Chain, caller: Address, nonce: nat) {
    if caller in c.counters then nonce == c.counters[caller] else nonce == 1
  }

  /** The child is an address of its own: new to the table, and not already standing for another in this trace. */
  ghost predicate NewChild(c: Chain, x: Context, sim: Simulation, earlier: seq<Attempt>, actual: Address, predicted: Address)
    requires ValidContext(x)
  {
    && NonZero(predicted) && predicted !in c.byPredicted && (sim.mode == ExactSigned ==> actual !in c.byActual)
    && forall b :: Names(x, sim, earlier, actual, b) ==> b == predicted
  }

  /** The canonical transparent proxy's first child is its ProxyAdmin; nothing else is named in advance. */
  predicate NamedInAdvance(env: Env, x: Context, a: Attempt) {
    if a.success && CanonicalTransparentProxy(env, x) && x.predictedContract == Some(a.predictedCaller) && a.nonce == 1
    then && env.proxyAdminOf(x.identity.value).Some?
         && a.metadata == Some(ChildMetadata(ProxyAdmin, env.proxyAdminOf(x.identity.value).value))
    else a.metadata == None
  }

  ghost predicate AttemptFits(env: Env, c: Chain, x: Context, sim: Simulation, attempts: seq<Attempt>, i: nat)
    requires ValidContext(x) && i < |attempts| <= |sim.attempts|
  {
    var a, t, earlier := attempts[i], sim.attempts[i], attempts[..i];
    && TraceFits(sim, t, i)
    && a.index == i && a.actualCaller == t.caller && a.simulatedActual == t.created && a.success == t.success
    && IsCaller(c, x, sim, earlier, t.caller, a.predictedCaller)
    && a.nonce >= CountBy(earlier, a.predictedCaller)
    && CountsFrom(c, a.predictedCaller, a.nonce - CountBy(earlier, a.predictedCaller))
    && a.predictedAddress == CreateAddress(env, a.predictedCaller, a.nonce)
    && (a.success ==> NewChild(c, x, sim, earlier, t.created, a.predictedAddress))
    && NamedInAdvance(env, x, a)
  }

  predicate Calls(plan: Plan, caller: Address) {
    CountBy(plan.attempts, caller) > 0
  }

  /** Exactly the callers have a base and a final nonce: from the stored counter to as many further as they made attempts. */
  ghost predicate Tallied(c: Chain, plan: Plan) {
    && (forall a :: a in plan.bases <==> Calls(plan, a)) && (forall a :: a in plan.finals <==> Calls(plan, a))
    && forall a :: Calls(plan, a) ==> CountsFrom(c, a, plan.bases[a]) && plan.finals[a] == plan.bases[a] + CountBy(plan.attempts, a)
  }

  ghost predicate PlanFits(env: Env, c: Chain, x: Context, sim: Simulation, plan: Plan)
    requires ValidContext(x)
  {
    && plan.mode == sim.mode && plan.sender == x.from && plan.root == sim.root && |plan.attempts| == |sim.attempts|
    && StartFits(x, sim)
    && (forall i :: 0 <= i < |plan.attempts| ==> AttemptFits(env, c, x, sim, plan.attempts, i))
    && Tallied(c, plan)
  }

  // ---- The planner derives it ----

  lemma StartExact(x: Context, sim: Simulation)
    requires ValidContext(x)
    ensures FirstCallers(x, sim).Ok? <==> StartFits(x, sim)
  {
    hide ValidContext;
  }

  lemma TraceExact(sim: Simulation, t: Traced, i: nat)
    ensures TraceError(sim, t, i).None? <==> TraceFits(sim, t, i)
    ensures TraceError(sim, t, i) == Some(Create2Rejected) <==> t.opcode == OtherOpcode
    ensures TraceError(sim, t, i) == Some(CreateKindUnknown) <==> t.opcode == Unlabelled && sim.mode == ExactSigned
    ensures TraceError(sim, t, i).Some? ==> TraceError(sim, t, i).value in {Create2Rejected, CreateKindUnknown, InvalidTrace}
  {
  }

  lemma MetadataExact(env: Env, x: Context, a: Attempt)
    ensures MetadataFits(env, x, a) <==> NamedInAdvance(env, x, a)
  {
  }

  lemma CountsMeans(c: Chain, caller: Address, nonce: nat)
    ensures CountsFrom(c, caller, nonce) <==> nonce == NextNonce(c, caller)
  {
  }

  lemma TallyStep(c: Chain, plan: Plan, a: Attempt)
    requires Tallied(c, plan) && a.nonce == NonceFor(c, plan, a.predictedCaller)
    ensures Tallied(c, Append(plan, a))
  {
    var longer := Append(plan, a);
    assert longer.attempts[..|plan.attempts|] == plan.attempts;
    forall b ensures CountBy(longer.attempts, b) == CountBy(plan.attempts, b) + if a.predictedCaller == b then 1 else 0 {}
    if !Calls(plan, a.predictedCaller) {
      CountsMeans(c, a.predictedCaller, a.nonce);
    }
  }

  /** The nonce the planner takes is the stored one and as many further as the caller has made attempts. */
  lemma TalliedNonce(c: Chain, plan: Plan, caller: Address)
    requires Tallied(c, plan)
    ensures NonceFor(c, plan, caller) == NextNonce(c, caller) + CountBy(plan.attempts, caller)
  {
    if Calls(plan, caller) {
      CountsMeans(c, caller, plan.bases[caller]);
    }
  }

  /** The planner resolves a caller to exactly the one it is. */
  lemma ResolveExact(c: Chain, x: Context, sim: Simulation, p: Planning, actual: Address, predicted: Address)
    requires ValidContext(x) && GraphOfNames(x, sim, p)
    ensures Resolve(c, p.callers, actual) == Some(predicted) <==> IsCaller(c, x, sim, p.plan.attempts, actual, predicted)
  {
    hide ValidContext, Names;
    assert Names(x, sim, p.plan.attempts, actual, predicted) <==> actual in p.callers && p.callers[actual] == predicted;
    if actual in p.callers {
      assert Names(x, sim, p.plan.attempts, actual, p.callers[actual]);
    }
  }

  /** A child is taken exactly when it is new. */
  lemma ChildExact(c: Chain, x: Context, sim: Simulation, p: Planning, actual: Address, predicted: Address)
    requires ValidContext(x) && GraphOfNames(x, sim, p) && NonZero(actual)
    ensures Available(c, sim.mode, predicted, actual) && AddCaller(p.callers, actual, predicted).Ok?
            <==> NewChild(c, x, sim, p.plan.attempts, actual, predicted)
  {
    hide ValidContext, Names;
    if actual in p.callers {
      assert Names(x, sim, p.plan.attempts, actual, p.callers[actual]);
    }
    forall b | Names(x, sim, p.plan.attempts, actual, b) ensures actual in p.callers && p.callers[actual] == b {}
  }

  /** The next attempt of a plan that fits so far. */
  ghost predicate NextFits(env: Env, c: Chain, x: Context, sim: Simulation, earlier: seq<Attempt>, a: Attempt)
    requires ValidContext(x) && |earlier| < |sim.attempts|
  {
    AttemptFits(env, c, x, sim, earlier + [a], |earlier|)
  }

  lemma NextMeans(env: Env, c: Chain, x: Context, sim: Simulation, earlier: seq<Attempt>, a: Attempt)
    requires ValidContext(x) && |earlier| < |sim.attempts|
    ensures var t, i := sim.attempts[|earlier|], |earlier|;
            NextFits(env, c, x, sim, earlier, a) <==>
              && TraceFits(sim, t, i)
              && a.index == i && a.actualCaller == t.caller && a.simulatedActual == t.created && a.success == t.success
              && IsCaller(c, x, sim, earlier, t.caller, a.predictedCaller)
              && a.nonce == NextNonce(c, a.predictedCaller) + CountBy(earlier, a.predictedCaller)
              && a.predictedAddress == CreateAddress(env, a.predictedCaller, a.nonce)
              && (a.success ==> NewChild(c, x, sim, earlier, t.created, a.predictedAddress))
              && NamedInAdvance(env, x, a)
  {
    assert (earlier + [a])[..|earlier|] == earlier;
    hide ValidContext, TraceFits, IsCaller, NewChild, NamedInAdvance;
  }

  lemma PlannedFits(env: Env, c: Chain, x: Context, sim: Simulation, p: Planning, a: Attempt, q: Planning)
    requires ValidContext(x) && GraphOfNames(x, sim, p) && Tallied(c, p.plan) && |p.plan.attempts| < |sim.attempts|
    requires PlanAttempt(env, c, x, sim, p, sim.attempts[|p.plan.attempts|]) == Ok(q) && q.plan == Append(p.plan, a)
    ensures NextFits(env, c, x, sim, p.plan.attempts, a)
  {
    var t, n := sim.attempts[|p.plan.attempts|], |p.plan.attempts|;
    AttemptPlanned(env, c, x, sim, p, t);
    AttemptMetadata(env, c, x, sim, p, t);
    assert q.plan.attempts[n] == a;
    NextMeans(env, c, x, sim, p.plan.attempts, a);
    TraceExact(sim, t, n);
    ResolveExact(c, x, sim, p, t.caller, a.predictedCaller);
    TalliedNonce(c, p.plan, a.predictedCaller);
    MetadataExact(env, x, a);
    if a.success {
      assert NonZero(t.created) by { TraceCreated(sim, t, n); }
      ChildExact(c, x, sim, p, t.created, a.predictedAddress);
    }
    hide ValidContext, IsCaller, NewChild, NamedInAdvance, GraphOfNames, Tallied, TraceError, TraceFits, Resolve, Available, AddCaller,
         PlanAttempt, MetadataFits, NextFits, NonceFor, NextNonce;
  }

  lemma TraceCreated(sim: Simulation, t: Traced, n: nat)
    requires TraceFits(sim, t, n) && t.success
    ensures NonZero(t.created)
  {
  }

  lemma FitsPlanned(env: Env, c: Chain, x: Context, sim: Simulation, p: Planning, a: Attempt)
    requires ValidContext(x) && GraphOfNames(x, sim, p) && Tallied(c, p.plan) && |p.plan.attempts| < |sim.attempts|
    requires NextFits(env, c, x, sim, p.plan.attempts, a)
    ensures var r := PlanAttempt(env, c, x, sim, p, sim.attempts[|p.plan.attempts|]); r.Ok? && r.value.plan == Append(p.plan, a)
  {
    var t, n := sim.attempts[|p.plan.attempts|], |p.plan.attempts|;
    NextMeans(env, c, x, sim, p.plan.attempts, a);
    TraceExact(sim, t, n);
    ResolveExact(c, x, sim, p, t.caller, a.predictedCaller);
    TalliedNonce(c, p.plan, a.predictedCaller);
    MetadataExact(env, x, a);
    if a.success {
      TraceCreated(sim, t, n);
      ChildExact(c, x, sim, p, t.created, a.predictedAddress);
    }
    hide ValidContext, IsCaller, NewChild, NamedInAdvance, GraphOfNames, Tallied, TraceError, TraceFits, Resolve, Available, AddCaller,
         NextFits, NonceFor, NextNonce, ProxyAdminMetadata, Append;
    assert a == Attempt(n, t.caller, a.predictedCaller, a.nonce, a.predictedAddress, t.created, t.success, a.metadata);
  }

  /** Whatever the planner has planned fits. */
  lemma {:induction false} PlanningFits(env: Env, c: Chain, x: Context, sim: Simulation, k: nat)
    requires ValidContext(x) && k <= |sim.attempts| && PlanAttempts(env, c, x, sim, k).Ok?
    ensures var plan := PlanAttempts(env, c, x, sim, k).value.plan;
            && plan.mode == sim.mode && plan.sender == x.from && plan.root == sim.root && |plan.attempts| == k
            && StartFits(x, sim) && Tallied(c, plan)
            && forall i :: 0 <= i < k ==> AttemptFits(env, c, x, sim, plan.attempts, i)
  {
    hide ValidContext, PlanAttempt, FirstCallers, AttemptFits;
    if k == 0 {
      StartExact(x, sim);
    } else {
      PlanningFits(env, c, x, sim, k - 1);
      CallersAreNamed(env, c, x, sim, k - 1);
      var p, q := PlanAttempts(env, c, x, sim, k - 1).value, PlanAttempts(env, c, x, sim, k).value;
      hide GraphOfNames, StartFits, Tallied;
      AttemptPlanned(env, c, x, sim, p, sim.attempts[k - 1]);
      var a := q.plan.attempts[k - 1];
      assert q.plan == Append(p.plan, a) && a.nonce == NonceFor(c, p.plan, a.predictedCaller);
      hide Planned, NonceFor;
      PlannedFits(env, c, x, sim, p, a, q);
      TallyStep(c, p.plan, a);
      forall i | 0 <= i < k - 1 ensures AttemptFits(env, c, x, sim, q.plan.attempts, i) {
        PrefixFits(env, c, x, sim, p.plan.attempts, a, i);
      }
    }
  }

  lemma PrefixFits(env: Env, c: Chain, x: Context, sim: Simulation, earlier: seq<Attempt>, a: Attempt, i: nat)
    requires ValidContext(x) && i < |earlier| < |sim.attempts|
    ensures AttemptFits(env, c, x, sim, earlier + [a], i) <==> AttemptFits(env, c, x, sim, earlier, i)
  {
    assert (earlier + [a])[..i] == earlier[..i];
    hide ValidContext, TraceFits, IsCaller, NewChild, NamedInAdvance;
  }

  /** And whatever fits is planned. */
  lemma {:induction false} FitsPlanning(env: Env, c: Chain, x: Context, sim: Simulation, plan: Plan, k: nat)
    requires ValidContext(x) && PlanFits(env, c, x, sim, plan) && k <= |sim.attempts|
    ensures PlanAttempts(env, c, x, sim, k).Ok?
    ensures PlanAttempts(env, c, x, sim, k).value.plan.attempts == plan.attempts[..k]
  {
    hide ValidContext, PlanAttempt, FirstCallers, AttemptFits;
    if k == 0 {
      StartExact(x, sim);
    } else {
      FitsPlanning(env, c, x, sim, plan, k - 1);
      PlanningFits(env, c, x, sim, k - 1);
      CallersAreNamed(env, c, x, sim, k - 1);
      var p, a := PlanAttempts(env, c, x, sim, k - 1).value, plan.attempts[k - 1];
      hide GraphOfNames, StartFits, Tallied;
      assert NextFits(env, c, x, sim, p.plan.attempts, a) by {
        assert AttemptFits(env, c, x, sim, plan.attempts, k - 1);
        TakenFits(env, c, x, sim, plan.attempts, k);
        assert plan.attempts[..k] == p.plan.attempts + [a];
      }
      FitsPlanned(env, c, x, sim, p, a);
      assert plan.attempts[..k] == plan.attempts[..k - 1] + [a];
    }
  }

  lemma TakenFits(env: Env, c: Chain, x: Context, sim: Simulation, attempts: seq<Attempt>, k: nat)
    requires ValidContext(x) && 0 < k <= |attempts| <= |sim.attempts|
    ensures AttemptFits(env, c, x, sim, attempts[..k], k - 1) <==> AttemptFits(env, c, x, sim, attempts, k - 1)
  {
    assert attempts[..k][..k - 1] == attempts[..k - 1];
    hide ValidContext, TraceFits, IsCaller, NewChild, NamedInAdvance;
  }

  lemma TalliedUnique(c: Chain, p: Plan, q: Plan)
    requires Tallied(c, p) && Tallied(c, q) && p.attempts == q.attempts && p.mode == q.mode && p.sender == q.sender && p.root == q.root
    ensures p == q
  {
    assert p.bases.Keys == q.bases.Keys && p.finals.Keys == q.finals.Keys;
    forall a | a in p.bases ensures p.bases[a] == q.bases[a] && p.finals[a] == q.finals[a] {
      assert Calls(p, a) && Calls(q, a);
    }
    assert p.bases == q.bases && p.finals == q.finals;
  }

  /**
   * The planner returns a plan exactly when that plan fits the simulation, the table and the counters: at
   * most one does, and it is found whenever there is one.
   */
  lemma DerivationExact(env: Env, c: Chain, sim: Simulation, x: Context, nativeId: Hash, plan: Plan)
    ensures DerivePlan(env, c, sim, x, nativeId) == Ok(Preparation(x, plan))
            <==> && ValidContext(x) && ProfileFits(env, sim, x, nativeId) && AddressMap.IndexesValid(c) && CountersValid(c)
                 && PlanFits(env, c, x, sim, plan)
  {
    ProfileExact(env, sim, x, nativeId);
    hide ProfileError, ProfileFits, AddressMap.IndexesValid, CountersValid, ValidContext, PlanAttempts, AttemptFits, Tallied;
    if ValidContext(x) {
      var n := |sim.attempts|;
      if PlanAttempts(env, c, x, sim, n).Ok? {
        PlanningFits(env, c, x, sim, n);
        assert PlanFits(env, c, x, sim, PlanAttempts(env, c, x, sim, n).value.plan);
      }
      if PlanFits(env, c, x, sim, plan) {
        FitsPlanning(env, c, x, sim, plan, n);
        assert plan.attempts[..n] == plan.attempts;
        TalliedUnique(c, plan, PlanAttempts(env, c, x, sim, n).value.plan);
      }
    }
  }

  /** So a derivation is refused exactly when no plan fits. */
  lemma DerivationRefused(env: Env, c: Chain, sim: Simulation, x: Context, nativeId: Hash)
    ensures DerivePlan(env, c, sim, x, nativeId).Err?
            <==> !(&& ValidContext(x) && ProfileFits(env, sim, x, nativeId) && AddressMap.IndexesValid(c) && CountersValid(c)
                   && exists plan :: PlanFits(env, c, x, sim, plan))
  {
    var r := DerivePlan(env, c, sim, x, nativeId);
    if r.Ok? {
      DerivedPlan(env, c, sim, x, nativeId);
      DerivationExact(env, c, sim, x, nativeId, r.value.plan);
    }
    hide DerivePlan, ProfileFits, AddressMap.IndexesValid, CountersValid, ValidContext, PlanFits;
    if && r.Err? && ValidContext(x) && ProfileFits(env, sim, x, nativeId) && AddressMap.IndexesValid(c) && CountersValid(c) {
      if plan :| PlanFits(env, c, x, sim, plan) {
        DerivationExact(env, c, sim, x, nativeId, plan);
      }
    }
  }

  // ---- Preparing it ----

  /**
   * A preparation is recorded exactly when some plan fits and the journal accepts that plan with its native
   * transaction; a source still received is then prepared, a prepared one only repeated.
   */
  lemma PreparationExact(
    env: Env, c: Chain, owner: Owner, hash: Hash, native: Native, sim: Simulation, x: Context, plan: Plan)
    requires ValidContext(x) && ProfileFits(env, sim, x, native.id) && AddressMap.IndexesValid(c) && CountersValid(c)
    requires PlanFits(env, c, x, sim, plan)
    ensures PrepareInChain(env, c, owner, hash, native, sim, x).Ok?
            <==> Accepts(env, c.records, owner, BuiltCall(hash, native, Preparation(x, plan)))
  {
    DerivationExact(env, c, sim, x, native.id, plan);
    CallExact(env, c, owner, BuiltCall(hash, native, Preparation(x, plan)));
    hide DerivePlan, ValidContext, ProfileFits, AddressMap.IndexesValid, CountersValid, PlanFits, JournalValid, RecordNativeBuilt;
    assert Accepts(env, c.records, owner, BuiltCall(hash, native, Preparation(x, plan))) ==> JournalValid(env, c.records);
    hide Accepts, Leaves;
  }

  /** And refused, whatever the journal holds, when no plan fits. */
  lemma PreparationRefused(env: Env, c: Chain, owner: Owner, hash: Hash, native: Native, sim: Simulation, x: Context)
    requires DerivePlan(env, c, sim, x, native.id).Err?
    ensures PrepareInChain(env, c, owner, hash, native, sim, x).Err?
    ensures JournalValid(env, c.records) ==>
              PrepareInChain(env, c, owner, hash, native, sim, x) == Err(DerivePlan(env, c, sim, x, native.id).error)
  {
    hide DerivePlan, JournalValid;
  }

  /** The caller's next child, or its simulated address, is in the table already. */
  ghost predicate ChildTaken(env: Env, c: Chain, x: Context, sim: Simulation, p: Planning, t: Traced, caller: Address, nonce: nat)
    requires ValidContext(x)
  {
    && IsCaller(c, x, sim, p.plan.attempts, t.caller, caller)
    && (CreateAddress(env, caller, nonce) in c.byPredicted || (sim.mode == ExactSigned && t.created in c.byActual))
  }

  /** Why the planner gives up at an attempt. */
  ghost predicate AttemptRefuses(env: Env, c: Chain, x: Context, sim: Simulation, p: Planning, t: Traced, e: Code)
    requires ValidContext(x)
  {
    var n := |p.plan.attempts|;
    match e
    case Create2Rejected => t.opcode == OtherOpcode
    case CreateKindUnknown => t.opcode == Unlabelled && sim.mode == ExactSigned
    case CallerUnmapped => forall b :: !IsCaller(c, x, sim, p.plan.attempts, t.caller, b)
    case InvalidProxyMetadata => CanonicalTransparentProxy(env, x) && env.proxyAdminOf(x.identity.value).None?
    case SimulationConflict => t.success && exists b, k: nat :: ChildTaken(env, c, x, sim, p, t, b, k)
    case CallerConflict => t.success && exists b :: Names(x, sim, p.plan.attempts, t.created, b)
    case InvalidTrace => !TraceFits(sim, t, n) || exists b, k: nat :: !NonZero(CreateAddress(env, b, k))
    case _ => false
  }

  lemma AttemptRefused(env: Env, c: Chain, x: Context, sim: Simulation, p: Planning, t: Traced)
    requires ValidContext(x) && GraphOfNames(x, sim, p) && PlanAttempt(env, c, x, sim, p, t).Err?
    ensures AttemptRefuses(env, c, x, sim, p, t, PlanAttempt(env, c, x, sim, p, t).error)
  {
    TraceExact(sim, t, |p.plan.attempts|);
    forall b ensures Resolve(c, p.callers, t.caller) == Some(b) <==> IsCaller(c, x, sim, p.plan.attempts, t.caller, b) {
      ResolveExact(c, x, sim, p, t.caller, b);
    }
    if t.created in p.callers {
      assert Names(x, sim, p.plan.attempts, t.created, p.callers[t.created]);
    }
    var caller := Resolve(c, p.callers, t.caller);
    if caller.Some? {
      var nonce := NonceFor(c, p.plan, caller.value);
      assert IsCaller(c, x, sim, p.plan.attempts, t.caller, caller.value);
      assert !Available(c, sim.mode, CreateAddress(env, caller.value, nonce), t.created) ==>
          ChildTaken(env, c, x, sim, p, t, caller.value, nonce);
      if !NonZero(CreateAddress(env, caller.value, nonce)) {
        assert exists b, k: nat :: !NonZero(CreateAddress(env, b, k));
      }
    }
    hide ValidContext, Names, IsCaller, GraphOfNames, TraceFits, TraceError, Resolve, NonceFor;
  }
}
