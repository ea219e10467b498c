/** Preparing and reconciling child CREATEs: the two store transactions of rpc-src/create-reconciler.ts. */
module Reconciler {
  import opened Wrappers
  import opened Addresses
  import opened ChainState
  import opened Journal
  import opened Planner
  import opened AddressMap

  /** The committed chain, and the error the caller sees if there is one. */
  datatype Outcome = Outcome(chain: Chain, error: Option<Code>)

  // ---- Preparation ----

  function ReserveCounters(c: Chain, plan: Plan): Chain {
    c.(counters := c.counters + plan.finals)
  }

  /** The transaction: plan, record the native transaction, and reserve on the first recording only. */
  function PrepareInChain(env: Env, c: Chain, owner: Owner, hash: Hash, native: Native, sim: Simulation, x: Context)
    : Result<Chain, Code>
  {
    if !JournalValid(env, c.records) then Err(CorruptJournal)
    else
      var first := hash in c.records && c.records[hash].state == Received;
      var p :- DerivePlan(env, c, sim, x, native.id);
      var built :- RecordNativeBuilt(env, c, owner, hash, native, p);
      Ok(if first then ReserveCounters(built, p.plan) else built)
  }

  /** A received record whose preparation is rejected becomes a terminal failure in a second transaction. */
  function FailIfReceived(env: Env, c: Chain, owner: Owner, hash: Hash, code: Code): Outcome {
    if JournalValid(env, c.records) && hash in c.records && c.records[hash].state == Received then
      match RecordFailed(env, c, owner, hash, code)
      case Ok(d) => Outcome(d, Some(code))
      case Err(e) => Outcome(c, Some(e))
    else Outcome(c, Some(code))
  }

  function RecordPreparedNative(env: Env, c: Chain, owner: Owner, hash: Hash, native: Native, sim: Simulation, x: Context)
    : Outcome
  {
    match PrepareInChain(env, c, owner, hash, native, sim, x)
    case Ok(d) => Outcome(d, None)
    case Err(e) => FailIfReceived(env, c, owner, hash, e)
  }

  /** The record a first preparation writes. */
  function BuiltRecord(r: Record, native: Native, p: Preparation): Record {
    Record(r.hash, r.source, NativeBuilt, None, Some(native), Some(p.context), Some(p.plan), None, None)
  }

  /**
   * A first preparation takes every planned caller's counter from the plan's base to its final
   * nonce, records the plan, and touches nothing else.
   */
  lemma PreparationReserves(env: Env, c: Chain, owner: Owner, hash: Hash, native: Native, sim: Simulation, x: Context)
    requires PrepareInChain(env, c, owner, hash, native, sim, x).Ok?
    requires hash in c.records && c.records[hash].state == Received
    ensures DerivePlan(env, c, sim, x, native.id).Ok?
    ensures var p := DerivePlan(env, c, sim, x, native.id).value;
            var d := PrepareInChain(env, c, owner, hash, native, sim, x).value;
            && d == Put(c, BuiltRecord(c.records[hash], native, p)).(counters := d.counters)
            && JournalValid(env, c.records) && JournalValid(env, d.records)
            && CountersValid(c)
            && !NonceTaken(c.records, hash, x.from, x.nonce)
            && (forall a :: a in p.plan.bases ==>
                  NextNonce(c, a) == p.plan.bases[a] && NextNonce(d, a) == p.plan.finals[a] && p.plan.bases[a] <= p.plan.finals[a])
            && (forall a :: a !in p.plan.bases ==> NextNonce(d, a) == NextNonce(c, a))
  {
    PlannerAgreesWithValidator(env, c, sim, x, native.id);
    var p := DerivePlan(env, c, sim, x, native.id).value;
    PlanBounds(env, p.plan);
    CallKeepsJournal(env, c, owner, BuiltCall(hash, native, p));
    hide DerivePlan, ValidPlan, JournalValid, NonceTaken, CountersValid;
    assert p.context == x;
    BuiltMeans(env, c, owner, hash, native, p);
  }

  lemma PlanBounds(env: Env, plan: Plan)
    requires ValidPlan(env, plan)
    ensures plan.bases.Keys == plan.finals.Keys
    ensures forall a :: a in plan.bases ==> 1 <= plan.bases[a] <= plan.finals[a]
  {
  }

  lemma BuiltMeans(env: Env, c: Chain, owner: Owner, hash: Hash, native: Native, p: Preparation)
    requires RecordNativeBuilt(env, c, owner, hash, native, p).Ok?
    ensures hash in c.records && JournalValid(env, c.records)
    ensures c.records[hash].state == Received ==>
              && !NonceTaken(c.records, hash, p.context.from, p.context.nonce)
              && RecordNativeBuilt(env, c, owner, hash, native, p).value == Put(c, BuiltRecord(c.records[hash], native, p))
    ensures c.records[hash].state != Received ==>
              && c.records[hash].state == NativeBuilt && c.records[hash].plan == Some(p.plan)
              && RecordNativeBuilt(env, c, owner, hash, native, p).value == c
  {
    hide JournalValid, NonceTaken, ValidPreparation;
  }

  /** A rejected preparation reserves nothing: at most the received record itself becomes a failure. */
  lemma RejectionReservesNothing(env: Env, c: Chain, owner: Owner, hash: Hash, native: Native, sim: Simulation, x: Context)
    requires RecordPreparedNative(env, c, owner, hash, native, sim, x).error.Some?
    ensures var d := RecordPreparedNative(env, c, owner, hash, native, sim, x).chain;
            d == c || (&& hash in c.records && c.records[hash].state == Received
                       && hash in d.records && d == Put(c, d.records[hash])
                       && d.records[hash].state == Failed && Unprepared(d.records[hash]))
  {
    hide DerivePlan, NonceTaken, RecordNativeBuilt;
    var e := PrepareInChain(env, c, owner, hash, native, sim, x).error;
    if JournalValid(env, c.records) && hash in c.records && c.records[hash].state == Received {
      assert ValidRecord(env, c.records[hash], hash);
    }
    hide JournalValid;
  }

  /**
   * And it does become one: a received record that this process holds the claim of fails with the very
   * error that rejected it; any other rejection leaves the journal alone.
   */
  lemma RejectionOutcome(env: Env, c: Chain, owner: Owner, hash: Hash, native: Native, sim: Simulation, x: Context)
    requires PrepareInChain(env, c, owner, hash, native, sim, x).Err?
    ensures var e, o := PrepareInChain(env, c, owner, hash, native, sim, x).error, RecordPreparedNative(env, c, owner, hash, native, sim, x);
            if JournalValid(env, c.records) && hash in c.records && c.records[hash].state == Received then
              var r := c.records[hash];
              if r.owner == Some(owner)
              then o == Outcome(Put(c, Record(hash, r.source, Failed, None, None, None, None, None, Some(e))), Some(e))
              else o == Outcome(c, Some(ClaimOwned))
            else o == Outcome(c, Some(e))
  {
    if JournalValid(env, c.records) && hash in c.records && c.records[hash].state == Received {
      assert ValidRecord(env, c.records[hash], hash);
    }
    hide JournalValid, PrepareInChain;
  }

  lemma EmptyPlan(env: Env, c: Chain, sim: Simulation, x: Context, nativeId: Hash)
    requires sim.attempts == [] && DerivePlan(env, c, sim, x, nativeId).Ok?
    ensures DerivePlan(env, c, sim, x, nativeId).value == Preparation(x, Plan(sim.mode, x.from, sim.root, [], map[], map[]))
  {
    hide ProfileError, FirstCallers;
  }

  /** What a derivation reads: the address table and the counters. */
  lemma SameDerivation(env: Env, c: Chain, d: Chain, sim: Simulation, x: Context, nativeId: Hash)
    requires sim.attempts == [] && d.byPredicted == c.byPredicted && d.byActual == c.byActual && d.counters == c.counters
    ensures DerivePlan(env, d, sim, x, nativeId) == DerivePlan(env, c, sim, x, nativeId)
  {
    hide ProfileError, FirstCallers;
  }

  lemma AgainAccepted(env: Env, d: Chain, owner: Owner, hash: Hash, native: Native, sim: Simulation, x: Context, p: Preparation)
    requires JournalValid(env, d.records) && hash in d.records && d.records[hash].state == NativeBuilt
    requires d.records[hash].native == Some(native) && d.records[hash].context == Some(p.context)
    requires d.records[hash].plan == Some(p.plan)
    requires DerivePlan(env, d, sim, x, native.id) == Ok(p)
    ensures PrepareInChain(env, d, owner, hash, native, sim, x) == Ok(d)
  {
    hide DerivePlan, ValidPreparation;
    assert ValidRecord(env, d.records[hash], hash);
    hide JournalValid;
  }

  /**
   * Preparing the same thing again after a success: the counters have moved on, so the plan derived
   * now equals the recorded one exactly when the simulation has no child CREATE at all.
   */
  lemma RetryAcceptedOnlyWithoutChildren(
    env: Env, c: Chain, owner: Owner, hash: Hash, native: Native, sim: Simulation, x: Context)
    requires hash in c.records && c.records[hash].state == Received
    requires PrepareInChain(env, c, owner, hash, native, sim, x).Ok?
    ensures var d := PrepareInChain(env, c, owner, hash, native, sim, x).value;
            && (PrepareInChain(env, d, owner, hash, native, sim, x).Ok? <==> sim.attempts == [])
            && (sim.attempts == [] ==> PrepareInChain(env, d, owner, hash, native, sim, x) == Ok(d))
  {
    PreparationReserves(env, c, owner, hash, native, sim, x);
    PlanHasAllAttempts(env, c, sim, x, native.id);
    var p := DerivePlan(env, c, sim, x, native.id).value;
    var d := PrepareInChain(env, c, owner, hash, native, sim, x).value;
    hide JournalValid, CountersValid, DerivePlan, NonceTaken;
    if sim.attempts == [] {
      EmptyPlan(env, c, sim, x, native.id);
      PreparedCounters(env, c, owner, hash, native, sim, x);
      assert d.counters == c.counters;
      SameDerivation(env, c, d, sim, x, native.id);
      AgainAccepted(env, d, owner, hash, native, sim, x, p);
    } else {
      RetryConflicts(env, d, owner, hash, native, sim, x, p);
    }
  }

  lemma PlanHasAllAttempts(env: Env, c: Chain, sim: Simulation, x: Context, nativeId: Hash)
    requires DerivePlan(env, c, sim, x, nativeId).Ok?
    ensures var p := DerivePlan(env, c, sim, x, nativeId).value;
            p.context == x && |p.plan.attempts| == |sim.attempts| && ValidPlan(env, p.plan)
  {
    PlannerAgreesWithValidator(env, c, sim, x, nativeId);
    DerivedPlan(env, c, sim, x, nativeId);
    hide DerivePlan, PlanAttempts, ValidPlan;
    PrefixOfPlan(env, c, x, sim, |sim.attempts|, |sim.attempts|);
  }

  lemma PreparedCounters(env: Env, c: Chain, owner: Owner, hash: Hash, native: Native, sim: Simulation, x: Context)
    requires hash in c.records && c.records[hash].state == Received
    requires PrepareInChain(env, c, owner, hash, native, sim, x).Ok?
    ensures PrepareInChain(env, c, owner, hash, native, sim, x).value.counters
            == c.counters + DerivePlan(env, c, sim, x, native.id).value.plan.finals
  {
    hide DerivePlan, JournalValid, NonceTaken, ValidPreparation;
  }

  lemma RetryConflicts(env: Env, d: Chain, owner: Owner, hash: Hash, native: Native, sim: Simulation, x: Context, p: Preparation)
    requires hash in d.records && d.records[hash].state == NativeBuilt && d.records[hash].plan == Some(p.plan)
    requires ValidPlan(env, p.plan) && p.plan.attempts != []
    requires forall a :: a in p.plan.bases ==> NextNonce(d, a) == p.plan.finals[a]
    ensures PrepareInChain(env, d, owner, hash, native, sim, x).Err?
  {
    InInterval(env, p.plan, 0);
    hide JournalValid, DerivePlan, ValidPlan;
    if PrepareInChain(env, d, owner, hash, native, sim, x).Ok? {
      var q := DerivePlan(env, d, sim, x, native.id).value;
      BuiltMeans(env, d, owner, hash, native, q);
      PlannerAgreesWithValidator(env, d, sim, x, native.id);
    }
  }

  // ---- The receipt against the plan ----

  datatype Creation = Creation(caller: Address, actual: Address, success: bool)

  /** Whether the receipt is this transaction's own, successful, and about the target it was built for. */
  predicate TopLevelMatches(r: Record, receipt: Receipt)
    requires r.context.Some?
  {
    var x := r.context.value;
    && receipt.successful && receipt.source == r.hash && receipt.from == x.from
    && (if x.kind == Deployment
        then && receipt.to.None? && receipt.contractAddress == x.predictedContract && x.predictedContract.Some?
             && receipt.actualContract == Some(x.actualTarget)
        else && receipt.to == x.to && x.to.Some? && receipt.contractAddress.None?
             && (receipt.actualContract.None? || receipt.actualContract.value == x.actualTarget))
  }

  /** The first `k` internal transactions' creations, in receipt order; a malformed note rejects them all. */
  function Creations(internals: seq<Internal>, k: nat): Result<seq<Creation>, Code>
    requires k <= |internals|
  {
    if k == 0 then Ok([])
    else
      var earlier :- Creations(internals, k - 1);
      var t := internals[k - 1];
      match t.note
      case MalformedNote => Err(CreateMismatch)
      case OtherNote => Ok(earlier)
      case CreateNote =>
        if !NonZero(t.caller) || (!t.rejected && !NonZero(t.created)) then Err(InvalidTrace)
        else Ok(earlier + [Creation(t.caller, t.created, !t.rejected)])
  }

  function ReceiptCreations(receipt: Receipt, nativeId: Hash): Result<seq<Creation>, Code> {
    if receipt.nativeId != nativeId then Err(CreateMismatch) else Creations(receipt.internals, |receipt.internals|)
  }

  /** Which actual address each predicted one must show in the receipt. */
  type Shown = map<Address, Address>

  /** The sender, the target, and the callers the address table already knows, in that order of precedence. */
  function Seeds(c: Chain, x: Context, plan: Plan, k: nat): Shown
    requires ValidContext(x) && k <= |plan.attempts|
  {
    if k == 0 then map[plan.sender := plan.sender][PredictedRoot(x) := x.actualTarget]
    else
      var shown := Seeds(c, x, plan, k - 1);
      var caller := plan.attempts[k - 1].predictedCaller;
      if caller !in shown && caller in c.byPredicted then shown[caller := c.byPredicted[caller].actual] else shown
  }

  predicate AttemptMatches(mode: Mode, a: Attempt, b: Creation, shown: Shown) {
    && a.success == b.success
    && a.predictedCaller in shown && shown[a.predictedCaller] == b.caller
    && (mode == ExactSigned ==> a.actualCaller == b.caller && a.simulatedActual == b.actual)
  }

  /** The table after the first `k` attempts matched their creations, or `None` at the first that does not. */
  function Matched(seeds: Shown, plan: Plan, creations: seq<Creation>, k: nat): Option<Shown>
    requires k <= |plan.attempts| == |creations|
  {
    if k == 0 then Some(seeds)
    else
      var before := Matched(seeds, plan, creations, k - 1);
      if before.None? || !AttemptMatches(plan.mode, plan.attempts[k - 1], creations[k - 1], before.value) then None
      else if plan.attempts[k - 1].success
      then Some(before.value[plan.attempts[k - 1].predictedAddress := creations[k - 1].actual])
      else before
  }

  predicate CountersReserved(c: Chain, plan: Plan) {
    forall a :: a in plan.finals ==> NextNonce(c, a) >= plan.finals[a]
  }

  // ---- Publication ----

  function Publish(c: Chain, m: Mapping, metadata: Option<ChildMetadata>): Result<Chain, Code> {
    var mapped :- SetMapping(c, m);
    if metadata.None? then Ok(mapped)
    else SetMetadata(mapped, Metadata(m.predicted, metadata.value.kind, metadata.value.identity, m.source, None))
  }

  function PublishDeployment(c: Chain, r: Record): Result<Chain, Code>
    requires r.context.Some? && ValidContext(r.context.value)
  {
    var x := r.context.value;
    if x.kind == Call then Ok(c)
    else
      Publish(c, Mapping(x.predictedContract.value, x.actualTarget, x.from, x.from, r.hash),
              if x.contractKind.None? then None else Some(ChildMetadata(x.contractKind.value, x.identity.value)))
  }

  function Succeeded(attempts: seq<Attempt>): seq<Attempt> {
    if attempts == [] then []
    else
      var last := attempts[|attempts| - 1];
      Succeeded(attempts[..|attempts| - 1]) + if last.success then [last] else []
  }

  function Created(creations: seq<Creation>): seq<Creation> {
    if creations == [] then []
    else
      var last := creations[|creations| - 1];
      Created(creations[..|creations| - 1]) + if last.success then [last] else []
  }

  function ChildMapping(r: Record, a: Attempt, b: Creation): Mapping
    requires r.plan.Some?
  {
    Mapping(a.predictedAddress, b.actual, a.predictedCaller, r.plan.value.sender, r.hash)
  }

  /** The first `k` of the two separately filtered lists, published pair by pair; a missing partner throws. */
  function PublishChildren(c: Chain, r: Record, planned: seq<Attempt>, created: seq<Creation>, k: nat): Result<Chain, Code>
    requires r.plan.Some? && k <= |planned|
  {
    if k == 0 then Ok(c)
    else
      var before :- PublishChildren(c, r, planned, created, k - 1);
      if k > |created| then Err(MissingCreation)
      else Publish(before, ChildMapping(r, planned[k - 1], created[k - 1]), planned[k - 1].metadata)
  }

  function Rewritten(byActual: map<Address, Address>, a: Address): Address {
    if a in byActual then byActual[a] else a
  }

  /** The receipt as it is kept: internal transactions under their predicted addresses. */
  function RewriteInternals(receipt: Receipt, byActual: map<Address, Address>): Receipt {
    receipt.(internals := seq(|receipt.internals|, i requires 0 <= i < |receipt.internals| =>
      var t := receipt.internals[i];
      t.(caller := Rewritten(byActual, t.caller), created := Rewritten(byActual, t.created))))
  }

  function PublishedAndConfirmed(env: Env, c: Chain, r: Record, receipt: Receipt, creations: seq<Creation>)
    : Result<Chain, Code>
    requires Prepared(env, r)
  {
    var deployed :- PublishDeployment(c, r);
    var planned := Succeeded(r.plan.value.attempts);
    var published :- PublishChildren(deployed, r, planned, Created(creations), |planned|);
    RecordConfirmed(env, published, r.hash, RewriteInternals(receipt, published.byActual))
  }

  /** Everything reconcile does in its transaction once the record is known to be broadcast. */
  function ReconcileRecord(env: Env, c: Chain, r: Record, receipt: Receipt): Result<Chain, Code>
    requires Prepared(env, r)
  {
    var x, plan := r.context.value, r.plan.value;
    if !TopLevelMatches(r, receipt) then Err(TopLevelMismatch)
    else
      var creations :- ReceiptCreations(receipt, r.native.value.id);
      if |plan.attempts| != |creations| then Err(CreateMismatch)
      else if !IndexesValid(c) then Err(CorruptIndexes)
      else if Matched(Seeds(c, x, plan, |plan.attempts|), plan, creations, |plan.attempts|).None? then Err(CreateMismatch)
      else if !CountersValid(c) then Err(CorruptCounters)
      else if !CountersReserved(c, plan) then Err(CounterConflict)
      else PublishedAndConfirmed(env, c, r, receipt, creations)
  }

  // ---- The two filtered lists are index-aligned ----

  predicate SameSuccesses(attempts: seq<Attempt>, creations: seq<Creation>) {
    |attempts| == |creations| && forall i :: 0 <= i < |attempts| ==> attempts[i].success == creations[i].success
  }

  /** The position a successful attempt has among the successful ones. */
  function Rank(attempts: seq<Attempt>, i: nat): nat
    requires i <= |attempts|
  {
    |Succeeded(attempts[..i])|
  }

  lemma {:induction false} SuccessesCount(attempts: seq<Attempt>, creations: seq<Creation>)
    requires SameSuccesses(attempts, creations)
    ensures |Succeeded(attempts)| == |Created(creations)|
  {
    if attempts != [] {
      SuccessesCount(attempts[..|attempts| - 1], creations[..|creations| - 1]);
    }
  }

  /** An attempt and its creation stand at the same place in the two lists. */
  lemma {:induction false} SuccessesAlign(attempts: seq<Attempt>, creations: seq<Creation>, i: nat)
    requires SameSuccesses(attempts, creations) && i < |attempts| && attempts[i].success
    ensures Rank(attempts, i) < |Succeeded(attempts)| == |Created(creations)|
    ensures Succeeded(attempts)[Rank(attempts, i)] == attempts[i]
    ensures Created(creations)[Rank(attempts, i)] == creations[i]
  {
    SuccessesCount(attempts, creations);
    var most, less := attempts[..|attempts| - 1], creations[..|creations| - 1];
    SuccessesCount(most, less);
    if i < |attempts| - 1 {
      SuccessesAlign(most, less, i);
      assert most[..i] == attempts[..i];
    }
  }

  /** Every place in the two lists is some successful attempt's. */
  lemma {:induction false} SuccessAt(attempts: seq<Attempt>, j: nat) returns (i: nat)
    requires j < |Succeeded(attempts)|
    ensures i < |attempts| && attempts[i].success && Rank(attempts, i) == j
  {
    var most := attempts[..|attempts| - 1];
    if j < |Succeeded(most)| {
      i := SuccessAt(most, j);
      assert most[..i] == attempts[..i];
    } else {
      i := |attempts| - 1;
    }
  }

  // ---- What matching establishes ----

  lemma {:induction false} MatchedEarlier(seeds: Shown, plan: Plan, creations: seq<Creation>, k: nat, n: nat)
    requires k <= n <= |plan.attempts| == |creations| && Matched(seeds, plan, creations, n).Some?
    ensures Matched(seeds, plan, creations, k).Some?
    ensures k < n ==> AttemptMatches(plan.mode, plan.attempts[k], creations[k], Matched(seeds, plan, creations, k).value)
  {
    hide AttemptMatches;
    if k + 1 < n {
      MatchedEarlier(seeds, plan, creations, k, n - 1);
    }
  }

  lemma MatchedSuccesses(seeds: Shown, plan: Plan, creations: seq<Creation>)
    requires |plan.attempts| == |creations| && Matched(seeds, plan, creations, |creations|).Some?
    ensures SameSuccesses(plan.attempts, creations)
  {
    forall i | 0 <= i < |plan.attempts| ensures plan.attempts[i].success == creations[i].success {
      MatchedEarlier(seeds, plan, creations, i, |creations|);
    }
  }

  /** A matched child of this receipt. */
  predicate ChildShown(plan: Plan, creations: seq<Creation>, j: nat, predicted: Address, actual: Address)
    requires j < |plan.attempts| == |creations|
  {
    plan.attempts[j].success && plan.attempts[j].predictedAddress == predicted && creations[j].actual == actual
  }

  /** Where an entry of the table of expected addresses comes from. */
  predicate ShownBy(c: Chain, x: Context, plan: Plan, creations: seq<Creation>, k: nat, predicted: Address, actual: Address)
    requires ValidContext(x) && k <= |plan.attempts| == |creations|
  {
    || (predicted == plan.sender && actual == plan.sender)
    || (predicted == PredictedRoot(x) && actual == x.actualTarget)
    || (predicted in c.byPredicted && c.byPredicted[predicted].actual == actual)
    || exists j :: 0 <= j < k && ChildShown(plan, creations, j, predicted, actual)
  }

  lemma {:induction false} SeedsShown(c: Chain, x: Context, plan: Plan, k: nat, p: Address)
    requires ValidContext(x) && k <= |plan.attempts| && p in Seeds(c, x, plan, k)
    ensures var a := Seeds(c, x, plan, k)[p];
            || (p == plan.sender && a == plan.sender) || (p == PredictedRoot(x) && a == x.actualTarget)
            || (p in c.byPredicted && c.byPredicted[p].actual == a)
  {
    hide ValidContext;
    if k > 0 && p in Seeds(c, x, plan, k - 1) {
      SeedsShown(c, x, plan, k - 1, p);
    }
  }

  lemma {:induction false} MatchedShown(
    c: Chain, x: Context, plan: Plan, creations: seq<Creation>, k: nat, p: Address)
    requires ValidContext(x) && k <= |plan.attempts| == |creations|
    requires Matched(Seeds(c, x, plan, |plan.attempts|), plan, creations, k).Some?
    requires p in Matched(Seeds(c, x, plan, |plan.attempts|), plan, creations, k).value
    ensures ShownBy(c, x, plan, creations, k, p, Matched(Seeds(c, x, plan, |plan.attempts|), plan, creations, k).value[p])
  {
    var seeds := Seeds(c, x, plan, |plan.attempts|);
    hide ValidContext, AttemptMatches, Seeds;
    if k == 0 {
      SeedsShown(c, x, plan, |plan.attempts|, p);
    } else {
      var before := Matched(seeds, plan, creations, k - 1).value;
      if plan.attempts[k - 1].success && p == plan.attempts[k - 1].predictedAddress {
        assert ChildShown(plan, creations, k - 1, p, creations[k - 1].actual);
      } else {
        MatchedShown(c, x, plan, creations, k - 1, p);
      }
    }
  }

  // ---- What publication establishes ----

  /** `d` is `c` with more address mappings and metadata, and nothing else changed. */
  predicate OnlyPublishes(c: Chain, d: Chain) {
    && d == c.(byPredicted := d.byPredicted, byActual := d.byActual, metadata := d.metadata)
    && Extends(c.byPredicted, d.byPredicted) && Extends(c.byActual, d.byActual) && Extends(c.metadata, d.metadata)
  }

  lemma OnlyPublishesTransitive(c: Chain, d: Chain, e: Chain)
    requires OnlyPublishes(c, d) && OnlyPublishes(d, e)
    ensures OnlyPublishes(c, e)
  {
  }

  lemma SetMetadataAdds(c: Chain, m: Metadata)
    requires SetMetadata(c, m).Ok?
    ensures SetMetadata(c, m).value == c.(metadata := c.metadata[m.predicted := m])
    ensures Extends(c.metadata, c.metadata[m.predicted := m])
  {
    hide IndexesValid, MetadataValid;
    if m.predicted in c.metadata {
      assert c.metadata[m.predicted := m] == c.metadata;
    }
  }

  function ToMetadata(m: Mapping, md: ChildMetadata): Metadata {
    Metadata(m.predicted, md.kind, md.identity, m.source, None)
  }

  lemma PublishAdds(c: Chain, m: Mapping, metadata: Option<ChildMetadata>)
    requires Publish(c, m, metadata).Ok?
    ensures var d := Publish(c, m, metadata).value;
            && OnlyPublishes(c, d) && IndexesValid(d)
            && d.byPredicted == c.byPredicted[m.predicted := m]
            && d.byActual == c.byActual[m.actual := m.predicted]
            && d.metadata == if metadata.None? then c.metadata else c.metadata[m.predicted := ToMetadata(m, metadata.value)]
  {
    SetMappingAdds(c, m);
    var b := SetMapping(c, m).value;
    if metadata.Some? {
      SetMetadataAdds(b, ToMetadata(m, metadata.value));
    }
    hide SetMapping, SetMetadata, IndexesValid;
  }

  lemma PublishKeepsTables(c: Chain, m: Mapping, metadata: Option<ChildMetadata>)
    requires Publish(c, m, metadata).Ok? && TablesValid(c)
    ensures TablesValid(Publish(c, m, metadata).value)
  {
    MappingClimbs(c, m);
    var b := SetMapping(c, m).value;
    if metadata.Some? {
      MetadataClimbs(b, ToMetadata(m, metadata.value));
    }
    hide SetMapping, SetMetadata, TablesValid;
  }

  /** A pair of the two lists is in the tables. */
  predicate PairPublished(d: Chain, r: Record, a: Attempt, b: Creation)
    requires r.plan.Some?
  {
    && a.predictedAddress in d.byPredicted && d.byPredicted[a.predictedAddress] == ChildMapping(r, a, b)
    && b.actual in d.byActual && d.byActual[b.actual] == a.predictedAddress
    && (a.metadata.Some? ==>
          && a.predictedAddress in d.metadata
          && d.metadata[a.predictedAddress] == ToMetadata(ChildMapping(r, a, b), a.metadata.value))
  }

  lemma PairStays(d: Chain, e: Chain, r: Record, a: Attempt, b: Creation)
    requires r.plan.Some? && PairPublished(d, r, a, b) && OnlyPublishes(d, e)
    ensures PairPublished(e, r, a, b)
  {
  }

  lemma {:induction false} ChildrenPublished(
    c: Chain, r: Record, planned: seq<Attempt>, created: seq<Creation>, k: nat)
    requires r.plan.Some? && k <= |planned| && PublishChildren(c, r, planned, created, k).Ok?
    ensures k <= |created| || k == 0
    ensures var d := PublishChildren(c, r, planned, created, k).value;
            && OnlyPublishes(c, d) && (IndexesValid(c) ==> IndexesValid(d)) && (TablesValid(c) ==> TablesValid(d))
            && (forall j :: 0 <= j < k ==> PairPublished(d, r, planned[j], created[j]))
  {
    hide IndexesValid, TablesValid, OnlyPublishes, PairPublished, Publish;
    if k == 0 {
      PublishesNothing(c);
    } else {
      ChildrenPublished(c, r, planned, created, k - 1);
      var b := PublishChildren(c, r, planned, created, k - 1).value;
      var d := PublishChildren(c, r, planned, created, k).value;
      PairAdded(b, r, planned[k - 1], created[k - 1]);
      OnlyPublishesTransitive(c, b, d);
      if TablesValid(c) {
        PublishKeepsTables(b, ChildMapping(r, planned[k - 1], created[k - 1]), planned[k - 1].metadata);
      }
      forall j | 0 <= j < k - 1 ensures PairPublished(d, r, planned[j], created[j]) {
        PairStays(b, d, r, planned[j], created[j]);
      }
    }
  }

  lemma PublishesNothing(c: Chain)
    ensures OnlyPublishes(c, c)
  {
  }

  lemma PairAdded(c: Chain, r: Record, a: Attempt, b: Creation)
    requires r.plan.Some? && Publish(c, ChildMapping(r, a, b), a.metadata).Ok?
    ensures var d := Publish(c, ChildMapping(r, a, b), a.metadata).value;
            OnlyPublishes(c, d) && IndexesValid(d) && PairPublished(d, r, a, b)
  {
    PublishAdds(c, ChildMapping(r, a, b), a.metadata);
    hide Publish, IndexesValid, OnlyPublishes;
  }

  lemma {:induction false} NothingElsePublished(
    c: Chain, r: Record, planned: seq<Attempt>, created: seq<Creation>, k: nat, p: Address)
    requires r.plan.Some? && k <= |planned| && PublishChildren(c, r, planned, created, k).Ok?
    requires p in PublishChildren(c, r, planned, created, k).value.byPredicted && p !in c.byPredicted
    ensures exists j :: 0 <= j < k && planned[j].predictedAddress == p
  {
    hide Publish;
    var b := PublishChildren(c, r, planned, created, k - 1).value;
    PublishAdds(b, ChildMapping(r, planned[k - 1], created[k - 1]), planned[k - 1].metadata);
    if p in b.byPredicted {
      NothingElsePublished(c, r, planned, created, k - 1, p);
    }
  }

  lemma {:induction false} NothingElseDescribed(
    c: Chain, r: Record, planned: seq<Attempt>, created: seq<Creation>, k: nat, p: Address)
    requires r.plan.Some? && k <= |planned| && PublishChildren(c, r, planned, created, k).Ok?
    requires p in PublishChildren(c, r, planned, created, k).value.metadata && p !in c.metadata
    ensures exists j :: 0 <= j < k && planned[j].predictedAddress == p && planned[j].metadata.Some?
  {
    hide Publish;
    var b := PublishChildren(c, r, planned, created, k - 1).value;
    PublishAdds(b, ChildMapping(r, planned[k - 1], created[k - 1]), planned[k - 1].metadata);
    if p in b.metadata {
      NothingElseDescribed(c, r, planned, created, k - 1, p);
    }
  }

  // ---- Reconciling ----

  function ReconcileInChain(env: Env, c: Chain, hash: Hash, receipt: Receipt): Result<Chain, Code> {
    if !JournalValid(env, c.records) then Err(CorruptJournal)
    else if hash !in c.records then Err(UnknownTransaction)
    else if c.records[hash].state != Broadcast then Err(StateMismatch)
    else
      assert ValidRecord(env, c.records[hash], hash);
      ReconcileRecord(env, c, c.records[hash], receipt)
  }

  /** A refused receipt is kept with the failure in a second transaction. */
  function Reconcile(env: Env, c: Chain, hash: Hash, receipt: Receipt): Outcome {
    if !JournalValid(env, c.records) then Outcome(c, Some(CorruptJournal))
    else if hash in c.records && c.records[hash].state == Confirmed then Outcome(c, None)
    else if hash in c.records && c.records[hash].state == Failed then Outcome(c, c.records[hash].failure)
    else
      match ReconcileInChain(env, c, hash, receipt)
      case Ok(d) => Outcome(d, None)
      case Err(e) =>
        match RecordRetainedFailure(env, c, hash, e, receipt)
        case Ok(d) => Outcome(d, Some(e))
        case Err(f) => Outcome(c, Some(f))
  }

  predicate AwaitsReceipt(env: Env, c: Chain, r: Record) {
    r.hash in c.records && c.records[r.hash] == r && r.state == Broadcast && Prepared(env, r)
    && ValidRecord(env, r, r.hash)
  }

  /** The intermediate states of a reconciliation that confirms. */
  lemma ReconcileSteps(env: Env, c: Chain, r: Record, receipt: Receipt)
    returns (creations: seq<Creation>, deployed: Chain, published: Chain)
    requires AwaitsReceipt(env, c, r) && ReconcileRecord(env, c, r, receipt).Ok?
    ensures var x, plan := r.context.value, r.plan.value;
            && ReceiptCreations(receipt, r.native.value.id) == Ok(creations) && |plan.attempts| == |creations|
            && IndexesValid(c) && CountersValid(c) && CountersReserved(c, plan) && TopLevelMatches(r, receipt)
            && Matched(Seeds(c, x, plan, |plan.attempts|), plan, creations, |creations|).Some?
            && PublishDeployment(c, r) == Ok(deployed)
            && PublishChildren(deployed, r, Succeeded(plan.attempts), Created(creations), |Succeeded(plan.attempts)|) == Ok(published)
            && ReconcileRecord(env, c, r, receipt)
               == RecordConfirmed(env, published, r.hash, RewriteInternals(receipt, published.byActual))
  {
    hide TopLevelMatches, ReceiptCreations, IndexesValid, CountersValid, CountersReserved, Matched, Seeds, PublishDeployment,
         PublishChildren, RecordConfirmed, ValidPlan, ValidContext;
    var x, plan := r.context.value, r.plan.value;
    creations := ReceiptCreations(receipt, r.native.value.id).value;
    deployed := PublishDeployment(c, r).value;
    published := PublishChildren(deployed, r, Succeeded(plan.attempts), Created(creations), |Succeeded(plan.attempts)|).value;
  }

  /** The mapping a deployment publishes for its own contract. */
  function DeploymentMapping(r: Record): Mapping
    requires r.context.Some? && ValidContext(r.context.value) && r.context.value.kind == Deployment
  {
    var x := r.context.value;
    Mapping(x.predictedContract.value, x.actualTarget, x.from, x.from, r.hash)
  }

  /** A deployed contract of a known kind has its metadata, under its predicted address and its own source. */
  predicate DeploymentDescribed(d: Chain, r: Record)
    requires r.context.Some? && ValidContext(r.context.value)
  {
    var x := r.context.value;
    x.kind == Deployment && x.contractKind.Some? ==>
      && x.predictedContract.value in d.metadata
      && d.metadata[x.predictedContract.value]
         == Metadata(x.predictedContract.value, x.contractKind.value, x.identity.value, r.hash, None)
  }

  lemma DeploymentPublished(c: Chain, r: Record)
    requires r.context.Some? && ValidContext(r.context.value) && PublishDeployment(c, r).Ok? && IndexesValid(c)
    ensures var d := PublishDeployment(c, r).value;
            && OnlyPublishes(c, d) && IndexesValid(d) && (TablesValid(c) ==> TablesValid(d))
            && (r.context.value.kind == Call ==> d == c)
            && (r.context.value.kind == Deployment ==>
                  var m := DeploymentMapping(r);
                  && d.byPredicted == c.byPredicted[m.predicted := m]
                  && m.actual in d.byActual && d.byActual[m.actual] == m.predicted)
  {
    PublishesNothing(c);
    if r.context.value.kind == Deployment {
      var x := r.context.value;
      var metadata := if x.contractKind.None? then None else Some(ChildMetadata(x.contractKind.value, x.identity.value));
      PublishAdds(c, DeploymentMapping(r), metadata);
      if TablesValid(c) {
        PublishKeepsTables(c, DeploymentMapping(r), metadata);
      }
    }
    hide OnlyPublishes, IndexesValid, TablesValid, Publish;
  }

  lemma DeploymentDescribes(c: Chain, r: Record)
    requires r.context.Some? && ValidContext(r.context.value) && PublishDeployment(c, r).Ok?
    ensures var x, d := r.context.value, PublishDeployment(c, r).value;
            d.metadata == if x.kind == Deployment && x.contractKind.Some?
                          then c.metadata[x.predictedContract.value :=
                                 Metadata(x.predictedContract.value, x.contractKind.value, x.identity.value, r.hash, None)]
                          else c.metadata
  {
    hide OnlyPublishes, IndexesValid, Publish;
    if r.context.value.kind == Deployment {
      var x := r.context.value;
      PublishAdds(c, DeploymentMapping(r),
                  if x.contractKind.None? then None else Some(ChildMetadata(x.contractKind.value, x.identity.value)));
    }
  }

  /** What the deployment is described as stays, whatever is published after it. */
  lemma DeploymentStaysDescribed(c: Chain, deployed: Chain, published: Chain, r: Record)
    requires r.context.Some? && ValidContext(r.context.value) && PublishDeployment(c, r) == Ok(deployed)
    requires OnlyPublishes(deployed, published)
    ensures DeploymentDescribed(published, r)
  {
    DeploymentDescribes(c, r);
    hide PublishDeployment;
  }

  /** The record and receipt a confirmation leaves. */
  lemma Confirming(env: Env, c: Chain, published: Chain, r: Record, receipt: Receipt)
    requires AwaitsReceipt(env, c, r) && OnlyPublishes(c, published)
    requires RecordConfirmed(env, published, r.hash, receipt).Ok?
    ensures RecordConfirmed(env, published, r.hash, receipt).value
            == Put(published, r.(state := Confirmed, receipt := Some(receipt)))
  {
    hide JournalValid, Extends, ValidPreparation;
  }

  /**
   * A confirmed reconciliation changes the address mappings, the metadata and the one record and
   * nothing else; what it publishes it publishes in whole, and no existing entry is altered.
   */
  lemma ReconcileConfirms(env: Env, c: Chain, r: Record, receipt: Receipt)
    requires AwaitsReceipt(env, c, r) && ReconcileRecord(env, c, r, receipt).Ok?
    ensures var d := ReconcileRecord(env, c, r, receipt).value;
            && OnlyPublishes(c, d.(records := c.records)) && IndexesValid(d) && (TablesValid(c) ==> TablesValid(d))
            && d.records == c.records[r.hash := r.(state := Confirmed, receipt := Some(RewriteInternals(receipt, d.byActual)))]
            && TopLevelMatches(r, receipt)
            && (r.context.value.kind == Deployment ==>
                  var m := DeploymentMapping(r); m.predicted in d.byPredicted && d.byPredicted[m.predicted] == m)
            && DeploymentDescribed(d, r)
  {
    hide ReconcileRecord, TopLevelMatches, ReceiptCreations, CountersValid, CountersReserved, Matched, Seeds;
    hide PublishDeployment, PublishChildren, ValidPlan, RecordConfirmed;
    var creations, deployed, published := ReconcileSteps(env, c, r, receipt);
    var planned := Succeeded(r.plan.value.attempts);
    DeploymentPublished(c, r);
    ChildrenPublished(deployed, r, planned, Created(creations), |planned|);
    OnlyPublishesTransitive(c, deployed, published);
    Confirming(env, c, published, r, RewriteInternals(receipt, published.byActual));
    DeploymentStaysDescribed(c, deployed, published, r);
    hide PairPublished, RewriteInternals, ValidContext, IndexesValid, TablesValid, DeploymentDescribed;
    SameMetadataDescribes(published, ReconcileRecord(env, c, r, receipt).value, r);
    PutKeepsTables(published, r.(state := Confirmed, receipt := Some(RewriteInternals(receipt, published.byActual))));
  }

  lemma SameMetadataDescribes(d: Chain, e: Chain, r: Record)
    requires r.context.Some? && ValidContext(r.context.value) && DeploymentDescribed(d, r) && e.metadata == d.metadata
    ensures DeploymentDescribed(e, r)
  {
  }

  lemma PutKeepsTables(c: Chain, r: Record)
    ensures IndexesValid(Put(c, r)) == IndexesValid(c) && TablesValid(Put(c, r)) == TablesValid(c)
  {
    hide CanonicalRecords, Inverse, KeyedMetadata, KeyedSnapshots, KeyedDescriptors, NonZeroKeys;
  }

  /** A predicted caller and the caller a receipt shows are the same contract, under the table `d`. */
  predicate CallerAgrees(d: Chain, x: Context, plan: Plan, predicted: Address, actual: Address)
    requires ValidContext(x)
  {
    || (predicted in d.byPredicted && d.byPredicted[predicted].actual == actual)
    || (predicted == plan.sender && actual == plan.sender)
    || (x.kind == Call && predicted == PredictedRoot(x) && actual == x.actualTarget)
  }

  /**
   * Creation-tree agreement. At every position of the plan, however deeply its creations nest, the
   * receipt reports the same success, its caller is the image of the planned caller under the table
   * the reconciliation leaves (the sender and a call's own target stand for themselves), and a
   * successful child is published with exactly its planned address, creator, sender and source.
   */
  lemma CreationTreeAgrees(env: Env, c: Chain, r: Record, receipt: Receipt, i: nat)
    requires AwaitsReceipt(env, c, r) && ReconcileRecord(env, c, r, receipt).Ok?
    requires i < |r.plan.value.attempts|
    ensures ReceiptCreations(receipt, r.native.value.id).Ok?
    ensures var creations := ReceiptCreations(receipt, r.native.value.id).value;
            var d := ReconcileRecord(env, c, r, receipt).value;
            && |creations| == |r.plan.value.attempts|
            && var a, b := r.plan.value.attempts[i], creations[i];
               && a.success == b.success
               && CallerAgrees(d, r.context.value, r.plan.value, a.predictedCaller, b.caller)
               && (a.success ==> PairPublished(d, r, a, b))
               && (r.plan.value.mode == ExactSigned ==> a.actualCaller == b.caller && a.simulatedActual == b.actual)
  {
    hide ReconcileRecord, TopLevelMatches, ReceiptCreations, CountersValid, CountersReserved, Seeds;
    hide PublishDeployment, PublishChildren, ValidPlan, ValidContext, RecordConfirmed, IndexesValid, TablesValid;
    var x, plan := r.context.value, r.plan.value;
    var creations, deployed, published := ReconcileSteps(env, c, r, receipt);
    var d := ReconcileRecord(env, c, r, receipt).value;
    var planned := Succeeded(plan.attempts);
    DeploymentPublished(c, r);
    ChildrenPublished(deployed, r, planned, Created(creations), |planned|);
    OnlyPublishesTransitive(c, deployed, published);
    Confirming(env, c, published, r, RewriteInternals(receipt, published.byActual));
    var seeds := Seeds(c, x, plan, |plan.attempts|);
    MatchedSuccesses(seeds, plan, creations);
    MatchedEarlier(seeds, plan, creations, i, |creations|);
    var caller := plan.attempts[i].predictedCaller;
    MatchedShown(c, x, plan, creations, i, caller);
    hide Matched, OnlyPublishes, Succeeded, Created;
    ImagesAgree(c, deployed, published, r, creations, caller, creations[i].caller);
    if plan.attempts[i].success {
      ChildPublished(published, r, creations, i);
    }
  }

  lemma ChildPublished(d: Chain, r: Record, creations: seq<Creation>, i: nat)
    requires r.plan.Some? && SameSuccesses(r.plan.value.attempts, creations)
    requires i < |creations| && creations[i].success
    requires var planned := Succeeded(r.plan.value.attempts);
             forall j :: 0 <= j < |planned| && j < |Created(creations)| ==> PairPublished(d, r, planned[j], Created(creations)[j])
    ensures PairPublished(d, r, r.plan.value.attempts[i], creations[i])
  {
    hide PairPublished;
    SuccessesAlign(r.plan.value.attempts, creations, i);
  }

  lemma ImagesAgree(
    c: Chain, deployed: Chain, d: Chain, r: Record, creations: seq<Creation>, predicted: Address, actual: Address)
    requires r.context.Some? && r.plan.Some? && ValidContext(r.context.value)
    requires SameSuccesses(r.plan.value.attempts, creations)
    requires OnlyPublishes(c, d) && OnlyPublishes(deployed, d)
    requires r.context.value.kind == Deployment ==>
               var m := DeploymentMapping(r); m.predicted in deployed.byPredicted && deployed.byPredicted[m.predicted] == m
    requires var planned := Succeeded(r.plan.value.attempts);
             forall j :: 0 <= j < |planned| && j < |Created(creations)| ==> PairPublished(d, r, planned[j], Created(creations)[j])
    requires ShownBy(c, r.context.value, r.plan.value, creations, |creations|, predicted, actual)
    ensures CallerAgrees(d, r.context.value, r.plan.value, predicted, actual)
  {
    var x, plan := r.context.value, r.plan.value;
    if j :| 0 <= j < |creations| && ChildShown(plan, creations, j, predicted, actual) {
      ChildPublished(d, r, creations, j);
    }
  }

  /** An address is new in the table only as the deployment's own or as a successful planned child. */
  lemma OnlyPlannedPublished(env: Env, c: Chain, r: Record, receipt: Receipt, p: Address)
    requires AwaitsReceipt(env, c, r) && ReconcileRecord(env, c, r, receipt).Ok?
    requires p in ReconcileRecord(env, c, r, receipt).value.byPredicted && p !in c.byPredicted
    ensures || (r.context.value.kind == Deployment && p == r.context.value.predictedContract.value)
            || exists i :: 0 <= i < |r.plan.value.attempts| && r.plan.value.attempts[i].success
                           && r.plan.value.attempts[i].predictedAddress == p
  {
    hide ReconcileRecord, TopLevelMatches, ReceiptCreations, CountersValid, CountersReserved, Seeds, Matched;
    hide PublishDeployment, PublishChildren, ValidPlan, ValidContext, RecordConfirmed, IndexesValid, TablesValid;
    var creations, deployed, published := ReconcileSteps(env, c, r, receipt);
    var planned := Succeeded(r.plan.value.attempts);
    DeploymentPublished(c, r);
    ChildrenPublished(deployed, r, planned, Created(creations), |planned|);
    OnlyPublishesTransitive(c, deployed, published);
    Confirming(env, c, published, r, RewriteInternals(receipt, published.byActual));
    hide OnlyPublishes, PairPublished, Succeeded, Created, AwaitsReceipt;
    if p !in deployed.byPredicted {
      NothingElsePublished(deployed, r, planned, Created(creations), |planned|, p);
      var j :| 0 <= j < |planned| && planned[j].predictedAddress == p;
      var i := PlannedAmongAttempts(r.plan.value.attempts, j);
    }
  }

  /** Metadata is new only for a deployment of a known kind and for children that were named in advance. */
  lemma OnlyPlannedDescribed(env: Env, c: Chain, r: Record, receipt: Receipt, p: Address)
    requires AwaitsReceipt(env, c, r) && ReconcileRecord(env, c, r, receipt).Ok?
    requires p in ReconcileRecord(env, c, r, receipt).value.metadata && p !in c.metadata
    ensures || (&& r.context.value.kind == Deployment && r.context.value.contractKind.Some?
                && p == r.context.value.predictedContract.value)
            || exists i :: 0 <= i < |r.plan.value.attempts| && r.plan.value.attempts[i].success
                           && r.plan.value.attempts[i].predictedAddress == p && r.plan.value.attempts[i].metadata.Some?
  {
    hide ReconcileRecord, TopLevelMatches, ReceiptCreations, CountersValid, CountersReserved, Seeds, Matched;
    hide PublishDeployment, PublishChildren, ValidPlan, ValidContext, RecordConfirmed, IndexesValid, TablesValid;
    var creations, deployed, published := ReconcileSteps(env, c, r, receipt);
    var planned := Succeeded(r.plan.value.attempts);
    DeploymentPublished(c, r);
    DeploymentDescribes(c, r);
    ChildrenPublished(deployed, r, planned, Created(creations), |planned|);
    OnlyPublishesTransitive(c, deployed, published);
    Confirming(env, c, published, r, RewriteInternals(receipt, published.byActual));
    hide OnlyPublishes, PairPublished, Succeeded, Created, AwaitsReceipt, DeploymentDescribed;
    if p !in deployed.metadata {
      NothingElseDescribed(deployed, r, planned, Created(creations), |planned|, p);
      var j :| 0 <= j < |planned| && planned[j].predictedAddress == p && planned[j].metadata.Some?;
      var i := PlannedAmongAttempts(r.plan.value.attempts, j);
    }
  }

  lemma PlannedAmongAttempts(attempts: seq<Attempt>, j: nat) returns (i: nat)
    requires j < |Succeeded(attempts)|
    ensures i < |attempts| && attempts[i].success && attempts[i] == Succeeded(attempts)[j]
  {
    i := SuccessAt(attempts, j);
    var twins := seq(|attempts|, k requires 0 <= k < |attempts| =>
      Creation(attempts[k].actualCaller, attempts[k].simulatedActual, attempts[k].success));
    SuccessesAlign(attempts, twins, i);
  }

  /**
   * Reconciling either confirms, with everything published, or it leaves the tables and counters as
   * they were and the record broadcast, or failed with its receipt retained.
   */
  lemma ReconcileAllOrNothing(env: Env, c: Chain, hash: Hash, receipt: Receipt)
    ensures var o := Reconcile(env, c, hash, receipt);
            match o.error
            case None =>
              && JournalValid(env, c.records) && hash in c.records
              && (if c.records[hash].state == Confirmed then o.chain == c
                  else AwaitsReceipt(env, c, c.records[hash]) && c.records[hash].hash == hash
                       && ReconcileRecord(env, c, c.records[hash], receipt) == Ok(o.chain))
            case Some(e) =>
              || o.chain == c
              || (&& hash in c.records && AwaitsReceipt(env, c, c.records[hash]) && c.records[hash].hash == hash
                  && o.chain == Put(c, c.records[hash].(state := Failed, failure := Some(e), receipt := Some(receipt))))
  {
    hide ReconcileRecord, ValidPreparation;
    if JournalValid(env, c.records) && hash in c.records {
      assert ValidRecord(env, c.records[hash], hash);
    }
    hide JournalValid;
  }

  // ---- The receipt as it is kept ----

  /** Every creation is one internal transaction of the receipt. */
  lemma {:induction false} CreationAt(internals: seq<Internal>, k: nat, i: nat) returns (t: nat)
    requires k <= |internals| && Creations(internals, k).Ok? && i < |Creations(internals, k).value|
    ensures t < k && internals[t].note == CreateNote
    ensures Creations(internals, k).value[i] == Creation(internals[t].caller, internals[t].created, !internals[t].rejected)
  {
    var earlier := Creations(internals, k - 1).value;
    if i < |earlier| {
      t := CreationAt(internals, k - 1, i);
    } else {
      t := k - 1;
    }
  }

  /**
   * The receipt a confirmation keeps speaks of the predicted world: a successful planned child appears
   * in it under its planned address, and its creator under the predicted address the table gives it.
   */
  lemma KeptReceiptShowsPlan(env: Env, c: Chain, r: Record, receipt: Receipt, i: nat) returns (t: nat)
    requires AwaitsReceipt(env, c, r) && ReconcileRecord(env, c, r, receipt).Ok?
    requires i < |r.plan.value.attempts| && r.plan.value.attempts[i].success
    ensures var d := ReconcileRecord(env, c, r, receipt).value;
            && r.hash in d.records && d.records[r.hash].state == Confirmed && d.records[r.hash].receipt.Some?
            && var kept := d.records[r.hash].receipt.value;
               && |kept.internals| == |receipt.internals| && t < |receipt.internals|
               && receipt.internals[t].note == CreateNote && !receipt.internals[t].rejected
               && kept.internals[t].created == r.plan.value.attempts[i].predictedAddress
               && (receipt.internals[t].caller in d.byActual ==>
                     kept.internals[t].caller == d.byActual[receipt.internals[t].caller])
  {
    CreationTreeAgrees(env, c, r, receipt, i);
    ReconcileConfirms(env, c, r, receipt);
    t := CreationAt(receipt.internals, |receipt.internals|, i);
    hide ReconcileRecord, AwaitsReceipt, TopLevelMatches, OnlyPublishes, IndexesValid, TablesValid, CallerAgrees, ValidContext;
  }

  // ---- Which checks can fail ----

  predicate CounterError(r: Result<Chain, Code>) {
    r == Err(CounterConflict) || r == Err(CorruptCounters)
  }

  lemma {:induction false} CreationErrors(internals: seq<Internal>, k: nat)
    requires k <= |internals| && Creations(internals, k).Err?
    ensures Creations(internals, k).error in {CreateMismatch, InvalidTrace}
  {
    if Creations(internals, k - 1).Err? {
      CreationErrors(internals, k - 1);
    }
  }

  lemma PublishErrors(c: Chain, m: Mapping, metadata: Option<ChildMetadata>)
    ensures !CounterError(Publish(c, m, metadata)) && Publish(c, m, metadata) != Err(MissingCreation)
  {
    hide IndexesValid, MetadataValid, Canonical;
  }

  lemma {:induction false} PublishChildrenErrors(c: Chain, r: Record, planned: seq<Attempt>, created: seq<Creation>, k: nat)
    requires r.plan.Some? && k <= |planned|
    ensures !CounterError(PublishChildren(c, r, planned, created, k))
    ensures k <= |created| ==> PublishChildren(c, r, planned, created, k) != Err(MissingCreation)
  {
    hide Publish;
    if k > 0 {
      PublishChildrenErrors(c, r, planned, created, k - 1);
      var before := PublishChildren(c, r, planned, created, k - 1);
      if before.Ok? && k <= |created| {
        PublishErrors(before.value, ChildMapping(r, planned[k - 1], created[k - 1]), planned[k - 1].metadata);
      }
    }
  }

  lemma DeploymentErrors(c: Chain, r: Record)
    requires r.context.Some? && ValidContext(r.context.value)
    ensures !CounterError(PublishDeployment(c, r)) && PublishDeployment(c, r) != Err(MissingCreation)
  {
    if r.context.value.kind == Deployment {
      var x := r.context.value;
      PublishErrors(c, DeploymentMapping(r),
                    if x.contractKind.None? then None else Some(ChildMetadata(x.contractKind.value, x.identity.value)));
    }
    hide Publish;
  }

  lemma ConfirmErrors(env: Env, c: Chain, hash: Hash, receipt: Receipt)
    ensures !CounterError(RecordConfirmed(env, c, hash, receipt)) && RecordConfirmed(env, c, hash, receipt) != Err(MissingCreation)
  {
    hide JournalValid;
  }

  /** The counters only fail their own check, and the two filtered lists never run out of step. */
  lemma OtherErrors(env: Env, c: Chain, r: Record, receipt: Receipt)
    requires Prepared(env, r)
    ensures CountersValid(c) && CountersReserved(c, r.plan.value) ==> !CounterError(ReconcileRecord(env, c, r, receipt))
    ensures ReconcileRecord(env, c, r, receipt) != Err(MissingCreation)
  {
    hide TopLevelMatches, Creations, Matched, Seeds, CountersValid, CountersReserved, ValidPlan, IndexesValid, PublishedAndConfirmed;
    if Creations(receipt.internals, |receipt.internals|).Err? {
      CreationErrors(receipt.internals, |receipt.internals|);
    } else {
      var x, plan := r.context.value, r.plan.value;
      var creations := Creations(receipt.internals, |receipt.internals|).value;
      if |plan.attempts| == |creations| && Matched(Seeds(c, x, plan, |plan.attempts|), plan, creations, |creations|).Some? {
        MatchedSuccesses(Seeds(c, x, plan, |plan.attempts|), plan, creations);
        LateErrors(env, c, r, receipt, creations);
      }
    }
  }

  lemma LateErrors(env: Env, c: Chain, r: Record, receipt: Receipt, creations: seq<Creation>)
    requires Prepared(env, r) && SameSuccesses(r.plan.value.attempts, creations)
    ensures !CounterError(PublishedAndConfirmed(env, c, r, receipt, creations))
    ensures PublishedAndConfirmed(env, c, r, receipt, creations) != Err(MissingCreation)
  {
    hide ValidPlan, PublishDeployment, PublishChildren, RecordConfirmed, Succeeded, Created, ValidContext;
    var planned := Succeeded(r.plan.value.attempts);
    DeploymentErrors(c, r);
    SuccessesCount(r.plan.value.attempts, creations);
    if PublishDeployment(c, r).Ok? {
      var deployed := PublishDeployment(c, r).value;
      PublishChildrenErrors(deployed, r, planned, Created(creations), |planned|);
      var published := PublishChildren(deployed, r, planned, Created(creations), |planned|);
      if published.Ok? {
        ConfirmErrors(env, published.value, r.hash, RewriteInternals(receipt, published.value.byActual));
      }
    }
  }
}
