/**
 * The durable transaction protocol as the handlers of rpc-src/handlers.ts drive it: receiving,
 * building, preparing, sending, noting the broadcast, reconciling, failing, crashing and recovering,
 * in any interleaving over any number of source transactions.
 */
module Protocol {
  import opened Wrappers
  import opened Addresses
  import opened ChainState
  import opened AddressMap
  import opened Journal
  import opened Planner
  import opened Reconciler

  /** How far the one piece of work in flight for a source transaction has come; lost in a crash. */
  datatype Task =
    | Building
    | Sending(native: Native)
    | Resuming(record: Record)
    | Sent
    | Waiting

  /** A native transaction handed to the network for a source transaction. */
  datatype Transmission = Transmission(hash: Hash, native: Native)

  datatype System = System(chain: Chain, owner: Owner, tasks: map<Hash, Task>, sent: set<Transmission>)

  datatype Step =
    | ReceiveSource(raw: Raw)
    | StartBuild(hash: Hash)
    | Prepare(hash: Hash, native: Native, simulation: Simulation, context: Context)
    | FailBuild(hash: Hash, code: Code, retryable: bool)
    | RejectInQueue(hash: Hash)
    | Transmit(hash: Hash)
    | NoteBroadcast(hash: Hash)
    | ReceiptArrives(hash: Hash, receipt: Receipt)
    | RetainAfterWriteError(hash: Hash, code: Code, receipt: Receipt)
    | StartResume(hash: Hash)
    | Resend(hash: Hash, found: bool)
    | DropTask(hash: Hash)
    | Crash(successor: Owner)
    | Recover(hash: Hash, expected: Owner)
    | TableUpdate(write: TableWrite)

  /** The chain a refused transaction leaves is the chain as it was. */
  function Committed(c: Chain, r: Result<Chain, Code>): Chain {
    match r
    case Ok(d) => d
    case Err(e) => c
  }

  function FailReceived(env: Env, s: System, hash: Hash, code: Code): Chain {
    if InState(s.chain, hash, Received) then Committed(s.chain, RecordFailed(env, s.chain, s.owner, hash, code)) else s.chain
  }

  /** The sender and nonce a build puts in its context are the decoded transaction's. */
  predicate FollowsSource(env: Env, c: Chain, hash: Hash, x: Context) {
    hash in c.records && Decode(env, c.records[hash].source) == Some(Source(x.from, x.nonce))
  }

  function PrepareStep(env: Env, s: System, e: Step): System
    requires e.Prepare?
  {
    if e.hash in s.tasks && s.tasks[e.hash].Building? && FollowsSource(env, s.chain, e.hash, e.context) then
      var o := RecordPreparedNative(env, s.chain, s.owner, e.hash, e.native, e.simulation, e.context);
      if o.error.None? && e.hash in o.chain.records && o.chain.records[e.hash].native.Some?
      then s.(chain := o.chain, tasks := s.tasks[e.hash := Sending(o.chain.records[e.hash].native.value)])
      else s.(chain := o.chain, tasks := s.tasks - {e.hash})
    else s
  }

  /** What a step hands to the network: the prepared bytes, or a resumed record's if the network does not know them. */
  function Emission(s: System, e: Step): Option<Transmission> {
    if e.Transmit? && e.hash in s.tasks && s.tasks[e.hash].Sending?
    then Some(Transmission(e.hash, s.tasks[e.hash].native))
    else if e.Resend? && !e.found && e.hash in s.tasks && s.tasks[e.hash].Resuming? && s.tasks[e.hash].record.native.Some?
    then Some(Transmission(e.hash, s.tasks[e.hash].record.native.value))
    else None
  }

  function TransmitStep(s: System, e: Step): System
    requires e.Transmit? || e.Resend?
  {
    var emission := Emission(s, e);
    if emission.Some? then s.(tasks := s.tasks[e.hash := Sent], sent := s.sent + {emission.value})
    else if e.Resend? && e.found && e.hash in s.tasks && s.tasks[e.hash].Resuming? then s.(tasks := s.tasks[e.hash := Sent])
    else s
  }

  function NoteStep(env: Env, s: System, hash: Hash): System {
    if hash in s.tasks && s.tasks[hash].Sent?
    then s.(chain := Committed(s.chain, RecordBroadcast(env, s.chain, hash)), tasks := s.tasks[hash := Waiting])
    else s
  }

  /** One step; a step that is not enabled changes nothing. */
  function Next(env: Env, s: System, e: Step): System {
    match e
    case ReceiveSource(raw) => s.(chain := Committed(s.chain, Perform(env, s.chain, s.owner, ReceiveCall(raw))))
    case StartBuild(h) =>
      if h !in s.tasks && h in s.chain.records then s.(tasks := s.tasks[h := Building]) else s
    case Prepare(_, _, _, _) => PrepareStep(env, s, e)
    case FailBuild(h, code, retryable) =>
      if h in s.tasks && s.tasks[h].Building?
      then s.(chain := if retryable then s.chain else FailReceived(env, s, h, code), tasks := s.tasks - {h})
      else s
    case RejectInQueue(h) => s.(chain := FailReceived(env, s, h, NonceTooLow))
    case Transmit(_) => TransmitStep(s, e)
    case Resend(_, _) => TransmitStep(s, e)
    case NoteBroadcast(h) => NoteStep(env, s, h)
    case ReceiptArrives(h, receipt) =>
      if h in s.tasks && s.tasks[h].Waiting?
      then s.(chain := Reconcile(env, s.chain, h, receipt).chain, tasks := s.tasks - {h})
      else s
    case RetainAfterWriteError(h, code, receipt) =>
      if h in s.tasks && s.tasks[h].Waiting?
      then s.(chain := Committed(s.chain, Perform(env, s.chain, s.owner, RetainedCall(h, code, receipt))), tasks := s.tasks - {h})
      else s
    case StartResume(h) =>
      if h !in s.tasks && (InState(s.chain, h, NativeBuilt) || InState(s.chain, h, Broadcast))
      then s.(tasks := s.tasks[h := Resuming(s.chain.records[h])])
      else s
    case DropTask(h) => s.(tasks := s.tasks - {h})
    case Crash(successor) => s.(owner := successor, tasks := map[])
    case Recover(h, expected) => s.(chain := Committed(s.chain, RecoverReceived(env, s.chain, s.owner, h, expected)))
    case TableUpdate(w) => s.(chain := AfterWrite(s.chain, w))
  }

  function Start(owner: Owner): System {
    System(EmptyChain(), owner, map[], {})
  }

  // ---- What a step may do to the durable state ----

  /** A record becomes prepared: its nonce was free and its plan takes the counters from base to final. */
  predicate NewlyPrepared(env: Env, c: Chain, d: Chain, h: Hash)
    requires h in d.records
  {
    && Prepared(env, d.records[h]) && d.records[h].state == NativeBuilt
    && FollowsSource(env, d, h, d.records[h].context.value) && NonZero(d.records[h].context.value.from)
    && !NonceTaken(c.records, h, d.records[h].context.value.from, d.records[h].context.value.nonce)
    && CountersValid(d)
    && TakesCounters(c, d, d.records[h].plan.value)
  }

  predicate TakesCounters(c: Chain, d: Chain, plan: Plan) {
    && c.counters.Keys + plan.bases.Keys == d.counters.Keys && plan.bases.Keys == plan.finals.Keys
    && (forall a :: a in plan.bases ==>
          a in plan.finals && NextNonce(c, a) == plan.bases[a] <= plan.finals[a] == NextNonce(d, a))
    && (forall a :: a in c.counters && a !in plan.bases ==> a in d.counters && d.counters[a] == c.counters[a])
  }

  /** The receipt is this very transaction's and reports its success. */
  predicate OwnReceipt(r: Record) {
    && r.receipt.Some? && r.context.Some? && r.native.Some?
    && r.receipt.value.successful && r.receipt.value.source == r.hash
    && r.receipt.value.from == r.context.value.from && r.receipt.value.nativeId == r.native.value.id
  }

  /** The table holds the address under exactly this creator, sender and source. */
  predicate PublishedAs(c: Chain, predicted: Address, creator: Address, sender: Address, source: Hash) {
    && predicted in c.byPredicted
    && c.byPredicted[predicted].creator == creator && c.byPredicted[predicted].sender == sender
    && c.byPredicted[predicted].source == source
  }

  /** The table describes the address as exactly this contract of this source. */
  predicate DescribedAs(c: Chain, predicted: Address, kind: Kind, identity: Identity, source: Hash) {
    predicted in c.metadata && c.metadata[predicted] == Metadata(predicted, kind, identity, source, None)
  }

  /** A successful planned child of a record is in the tables. */
  predicate ChildStands(c: Chain, r: Record, i: nat)
    requires r.plan.Some? && i < |r.plan.value.attempts|
  {
    var a := r.plan.value.attempts[i];
    a.success ==>
      && PublishedAs(c, a.predictedAddress, a.predictedCaller, r.plan.value.sender, r.hash)
      && (a.metadata.Some? ==> DescribedAs(c, a.predictedAddress, a.metadata.value.kind, a.metadata.value.identity, r.hash))
  }

  /** The deployed contract and every successful planned child of a record are in the tables, described as planned. */
  predicate TreePublished(c: Chain, r: Record) {
    && r.context.Some? && r.plan.Some? && ValidContext(r.context.value)
    && (r.context.value.kind == Deployment ==>
          var x := r.context.value;
          && PublishedAs(c, x.predictedContract.value, x.from, x.from, r.hash)
          && (x.contractKind.Some? ==>
                DescribedAs(c, x.predictedContract.value, x.contractKind.value, x.identity.value, r.hash)))
    && (forall i :: 0 <= i < |r.plan.value.attempts| ==> ChildStands(c, r, i))
  }

  /** One record is written, forwards; a prepared one keeps its nonce; only a new preparation moves counters. */
  predicate WritesRecord(env: Env, c: Chain, d: Chain, h: Hash) {
    && h in d.records && d.records == c.records[h := d.records[h]] && ValidRecord(env, d.records[h], h)
    && (if h in c.records
        then && Forward(c.records[h], d.records[h])
             && (Occupies(c.records[h]) ==> Occupies(d.records[h]))
        else d.records[h].state == Received)
    && (if d.records[h].context.None? || (h in c.records && c.records[h].context.Some?)
        then d.counters == c.counters
        else NewlyPrepared(env, c, d, h))
    && (d.records[h].state == Confirmed && (h in c.records ==> c.records[h].state != Confirmed) ==>
          OwnReceipt(d.records[h]) && TreePublished(d, d.records[h]))
  }

  predicate Quiet(c: Chain, d: Chain) {
    d.records == c.records && d.counters == c.counters
  }

  predicate Durable(env: Env, c: Chain, d: Chain, h: Hash) {
    && (Quiet(c, d) || WritesRecord(env, c, d, h))
    && (TablesValid(c) ==> TablesValid(d) && Climbs(c, d))
  }

  /** Handlers fail records only while they are received, and prepare and confirm through the reconciler alone. */
  predicate HandlerCall(c: Chain, call: JournalCall) {
    match call
    case BuiltCall(_, _, _) => false
    case ConfirmedCall(_, _) => false
    case FailedCall(h, _) => h in c.records ==> c.records[h].state == Received
    case _ => true
  }

  lemma CallDurable(env: Env, c: Chain, owner: Owner, call: JournalCall)
    requires Perform(env, c, owner, call).Ok? && HandlerCall(c, call)
    ensures Durable(env, c, Perform(env, c, owner, call).value, Target(env, call))
  {
    var d, h := Perform(env, c, owner, call).value, Target(env, call);
    CallWritesOne(env, c, owner, call);
    CallKeepsOccupation(env, c, owner, call);
    assert SameTables(c, d);
    hide Perform, Target, JournalValid, ValidRecord, Forward, Occupies, TablesValid, Climbs, HandlerCall, TreePublished, OwnReceipt;
    if TablesValid(c) {
      SameTablesClimb(c, d);
    }
  }

  lemma CallKeepsOccupation(env: Env, c: Chain, owner: Owner, call: JournalCall)
    requires Perform(env, c, owner, call).Ok? && HandlerCall(c, call)
    ensures var d, h := Perform(env, c, owner, call).value, Target(env, call);
            && h in d.records && SameOccupation(c, d, h)
            && (d.records[h].state == Confirmed ==> h in c.records && c.records[h].state == Confirmed)
  {
    CallConfirmsNothing(env, c, owner, call);
    hide Receive, RecoverReceived, RecordBroadcast, RecordConfirmed, RecordRetainedFailure, RecordFailed;
    hide JournalValid, SameOccupation, ValidRecord, Forward, Occupies;
    match call
    case ReceiveCall(s) => ReceiveWrites(env, c, owner, s);
    case RecoverCall(h, x) => RecoverWrites(env, c, owner, h, x);
    case BroadcastCall(h) => BroadcastWrites(env, c, h);
    case RetainedCall(h, f, r) => RetainedWrites(env, c, h, f, r);
    case FailedCall(h, f) => FailedWrites(env, c, owner, h, f);
  }

  lemma CallConfirmsNothing(env: Env, c: Chain, owner: Owner, call: JournalCall)
    requires Perform(env, c, owner, call).Ok? && HandlerCall(c, call)
    ensures var d, h := Perform(env, c, owner, call).value, Target(env, call);
            h in d.records && d.records[h].state == Confirmed ==> h in c.records && c.records[h].state == Confirmed
  {
    hide JournalValid;
  }

  lemma StayDurable(env: Env, c: Chain, h: Hash)
    ensures Durable(env, c, c, h)
  {
    ClimbsReflexive(c);
  }

  lemma FailReceivedDurable(env: Env, s: System, h: Hash, code: Code)
    ensures Durable(env, s.chain, FailReceived(env, s, h, code), h)
  {
    var call := FailedCall(h, code);
    StayDurable(env, s.chain, h);
    if InState(s.chain, h, Received) && Perform(env, s.chain, s.owner, call).Ok? {
      CallDurable(env, s.chain, s.owner, call);
    }
    hide Durable, RecordFailed;
  }

  lemma PreparedDurable(env: Env, c: Chain, owner: Owner, hash: Hash, native: Native, sim: Simulation, x: Context)
    requires FollowsSource(env, c, hash, x) && PrepareInChain(env, c, owner, hash, native, sim, x).Ok?
    ensures Durable(env, c, PrepareInChain(env, c, owner, hash, native, sim, x).value, hash)
  {
    hide FollowsSource, Durable, ValidPreparation, BasesStored, DerivePlan;
    if c.records[hash].state == Received {
      var p := PreparedPlan(env, c, owner, hash, native, sim, x);
      FirstPreparation(env, c, hash, native, p);
    } else {
      hide PrepareInChain;
      PreparedAgain(env, c, owner, hash, native, sim, x);
      StayDurable(env, c, hash);
    }
  }

  lemma PreparedPlan(env: Env, c: Chain, owner: Owner, hash: Hash, native: Native, sim: Simulation, x: Context)
    returns (p: Preparation)
    requires PrepareInChain(env, c, owner, hash, native, sim, x).Ok?
    requires hash in c.records && c.records[hash].state == Received
    ensures p.context == x && ValidPreparation(env, x, p.plan) && BasesStored(c, p.plan) && NonZero(x.from)
    ensures ValidRecord(env, c.records[hash], hash) && !NonceTaken(c.records, hash, x.from, x.nonce)
    ensures CountersValid(c.(counters := c.counters + p.plan.finals))
    ensures PrepareInChain(env, c, owner, hash, native, sim, x).value
            == Put(c, BuiltRecord(c.records[hash], native, p)).(counters := c.counters + p.plan.finals)
  {
    p := DerivePlan(env, c, sim, x, native.id).value;
    PreparationReserves(env, c, owner, hash, native, sim, x);
    PreparedCounters(env, c, owner, hash, native, sim, x);
    PlannerAgreesWithValidator(env, c, sim, x, native.id);
    ReservedCountersValid(env, c, sim, x, native.id);
    SenderNonZero(env, c, sim, x, native.id);
    assert ValidRecord(env, c.records[hash], hash);
    hide DerivePlan, PrepareInChain, JournalValid, NonceTaken, CountersValid, BasesStored, ValidPreparation, ValidRecord;
  }

  lemma PreparedAgain(env: Env, c: Chain, owner: Owner, hash: Hash, native: Native, sim: Simulation, x: Context)
    requires PrepareInChain(env, c, owner, hash, native, sim, x).Ok?
    requires hash in c.records && c.records[hash].state != Received
    ensures PrepareInChain(env, c, owner, hash, native, sim, x).value == c
  {
    hide DerivePlan, RecordNativeBuilt;
    BuiltMeans(env, c, owner, hash, native, DerivePlan(env, c, sim, x, native.id).value);
  }

  lemma FirstPreparation(env: Env, c: Chain, hash: Hash, native: Native, p: Preparation)
    requires hash in c.records && c.records[hash].state == Received && ValidRecord(env, c.records[hash], hash)
    requires ValidPreparation(env, p.context, p.plan) && BasesStored(c, p.plan)
    requires FollowsSource(env, c, hash, p.context) && NonZero(p.context.from)
    requires !NonceTaken(c.records, hash, p.context.from, p.context.nonce)
    requires CountersValid(c.(counters := c.counters + p.plan.finals))
    ensures Durable(env, c, Put(c, BuiltRecord(c.records[hash], native, p)).(counters := c.counters + p.plan.finals), hash)
  {
    var d := Put(c, BuiltRecord(c.records[hash], native, p)).(counters := c.counters + p.plan.finals);
    PlanBounds(env, p.plan);
    BuiltIsForward(env, c.records[hash], hash, native, p);
    PlanTakesCounters(c, p.plan);
    hide NonceTaken, ValidPreparation, TablesValid, Climbs, TakesCounters, BasesStored, ValidRecord, Forward, Occupies;
    if TablesValid(c) {
      SameTablesClimb(c, d);
    }
    assert TakesCounters(c, d, p.plan) by {
      SameCounters(c, c.(counters := c.counters + p.plan.finals), d, p.plan);
    }
    SameValidity(c.(counters := c.counters + p.plan.finals), d);
    hide CountersValid;
    assert NewlyPrepared(env, c, d, hash);
    hide NewlyPrepared, TreePublished, OwnReceipt;
  }

  lemma BuiltIsForward(env: Env, r: Record, hash: Hash, native: Native, p: Preparation)
    requires ValidRecord(env, r, hash) && r.state == Received && ValidPreparation(env, p.context, p.plan)
    ensures var b := BuiltRecord(r, native, p);
            ValidRecord(env, b, hash) && Forward(r, b) && Prepared(env, b) && r.hash == hash && !Occupies(r) && r.context.None?
  {
    hide ValidPreparation;
  }

  lemma SameValidity(c: Chain, d: Chain)
    requires d.counters == c.counters
    ensures CountersValid(d) <==> CountersValid(c)
  {
  }

  lemma SameCounters(c: Chain, d: Chain, e: Chain, plan: Plan)
    requires TakesCounters(c, d, plan) && e.counters == d.counters
    ensures TakesCounters(c, e, plan)
  {
  }

  lemma PlanTakesCounters(c: Chain, plan: Plan)
    requires BasesStored(c, plan) && plan.bases.Keys == plan.finals.Keys
    requires forall a :: a in plan.bases ==> 1 <= plan.bases[a] <= plan.finals[a]
    ensures TakesCounters(c, c.(counters := c.counters + plan.finals), plan)
  {
  }

  lemma RejectedDurable(env: Env, c: Chain, owner: Owner, hash: Hash, code: Code)
    ensures Durable(env, c, FailIfReceived(env, c, owner, hash, code).chain, hash)
  {
    var call := FailedCall(hash, code);
    StayDurable(env, c, hash);
    if FailIfReceived(env, c, owner, hash, code).chain != c {
      CallDurable(env, c, owner, call);
    }
    hide Durable, RecordFailed, JournalValid;
  }

  lemma ReconciledDurable(env: Env, c: Chain, hash: Hash, receipt: Receipt)
    ensures Durable(env, c, Reconcile(env, c, hash, receipt).chain, hash)
  {
    ReconcileAllOrNothing(env, c, hash, receipt);
    StayDurable(env, c, hash);
    var o := Reconcile(env, c, hash, receipt);
    hide Reconcile, Durable, ReconcileRecord;
    if o.chain != c {
      if o.error.None? {
        ConfirmedDurable(env, c, c.records[hash], receipt);
      } else {
        RetainedDurable(env, c, c.records[hash], o.error.value, receipt);
      }
    }
  }

  lemma RetainedDurable(env: Env, c: Chain, r: Record, e: Code, receipt: Receipt)
    requires AwaitsReceipt(env, c, r)
    ensures Durable(env, c, Put(c, r.(state := Failed, failure := Some(e), receipt := Some(receipt))), r.hash)
  {
  }

  lemma ConfirmedDurable(env: Env, c: Chain, r: Record, receipt: Receipt)
    requires AwaitsReceipt(env, c, r) && ReconcileRecord(env, c, r, receipt).Ok?
    ensures Durable(env, c, ReconcileRecord(env, c, r, receipt).value, r.hash)
  {
    ReconcileConfirms(env, c, r, receipt);
    ConfirmedPublishes(env, c, r, receipt);
    var d := ReconcileRecord(env, c, r, receipt).value;
    PublishedClimbs(c, d.(records := c.records));
    hide ReconcileRecord, TopLevelMatches, OnlyPublishes, TablesValid, IndexesValid, ValidPreparation, RewriteInternals;
    hide OwnReceipt, TreePublished;
    SameClimb(c, d.(records := c.records), d);
  }

  /** What is confirmed is the transaction's own, with its whole creation tree in the table. */
  lemma ConfirmedPublishes(env: Env, c: Chain, r: Record, receipt: Receipt)
    requires AwaitsReceipt(env, c, r) && ReconcileRecord(env, c, r, receipt).Ok?
    ensures var d := ReconcileRecord(env, c, r, receipt).value;
            r.hash in d.records && OwnReceipt(d.records[r.hash]) && TreePublished(d, d.records[r.hash])
  {
    ReconcileConfirms(env, c, r, receipt);
    ReceiptIsOwn(env, c, r, receipt);
    var d := ReconcileRecord(env, c, r, receipt).value;
    var s := d.records[r.hash];
    assert s.plan == r.plan && s.context == r.context && s.hash == r.hash && s.native == r.native;
    forall i | 0 <= i < |s.plan.value.attempts| ensures ChildStands(d, s, i) {
      CreationTreeAgrees(env, c, r, receipt, i);
    }
    hide ReconcileRecord, OnlyPublishes, IndexesValid, TablesValid, ValidPlan, ChildStands;
  }

  lemma ReceiptIsOwn(env: Env, c: Chain, r: Record, receipt: Receipt)
    requires AwaitsReceipt(env, c, r) && ReconcileRecord(env, c, r, receipt).Ok?
    ensures receipt.nativeId == r.native.value.id
  {
    hide TopLevelMatches, Creations, Matched, Seeds, CountersReserved, CountersValid, IndexesValid, PublishedAndConfirmed;
  }

  lemma PublishedClimbs(c: Chain, d: Chain)
    requires OnlyPublishes(c, d)
    ensures Climbs(c, d) && d.counters == c.counters
  {
  }

  lemma SameClimb(c: Chain, d: Chain, e: Chain)
    requires Climbs(c, d) && SameTables(d, e)
    ensures Climbs(c, e)
  {
    hide SnapshotsClimb, DescriptorsClimb, Extends;
  }

  /** The record a step is about. */
  function Subject(env: Env, e: Step): Hash {
    match e
    case ReceiveSource(raw) => Keccak(env, raw)
    case StartBuild(h) => h
    case Prepare(h, _, _, _) => h
    case FailBuild(h, _, _) => h
    case RejectInQueue(h) => h
    case Transmit(h) => h
    case NoteBroadcast(h) => h
    case ReceiptArrives(h, _) => h
    case RetainAfterWriteError(h, _, _) => h
    case StartResume(h) => h
    case Resend(h, _) => h
    case DropTask(h) => h
    case Crash(_) => 0
    case Recover(h, _) => h
    case TableUpdate(_) => 0
  }

  /** Every step of the handlers, in any state, changes the durable state only in the permitted way. */
  lemma StepDurable(env: Env, s: System, e: Step)
    ensures Durable(env, s.chain, Next(env, s, e).chain, Subject(env, e))
  {
    hide Durable, RecordPreparedNative, Reconcile, Perform, FollowsSource, FailReceived, AfterWrite, RecordBroadcast, RecoverReceived;
    StayDurable(env, s.chain, Subject(env, e));
    match e
    case ReceiveSource(raw) => CommittedDurable(env, s, ReceiveCall(raw));
    case Prepare(h, native, sim, x) => PrepareDurable(env, s, e);
    case FailBuild(h, code, _) => FailReceivedDurable(env, s, h, code);
    case RejectInQueue(h) => FailReceivedDurable(env, s, h, NonceTooLow);
    case NoteBroadcast(h) =>
      CommittedDurable(env, s, BroadcastCall(h));
      PerformMeans(env, s.chain, s.owner, h, 0);
    case ReceiptArrives(h, receipt) => ReconciledDurable(env, s.chain, h, receipt);
    case RetainAfterWriteError(h, code, receipt) => CommittedDurable(env, s, RetainedCall(h, code, receipt));
    case Recover(h, expected) =>
      CommittedDurable(env, s, RecoverCall(h, expected));
      PerformMeans(env, s.chain, s.owner, h, expected);
    case TableUpdate(w) => WriteDurable(env, s.chain, w);
    case _ =>
  }

  lemma PerformMeans(env: Env, c: Chain, owner: Owner, h: Hash, expected: Owner)
    ensures Perform(env, c, owner, BroadcastCall(h)) == RecordBroadcast(env, c, h)
    ensures Perform(env, c, owner, RecoverCall(h, expected)) == RecoverReceived(env, c, owner, h, expected)
  {
    hide RecordBroadcast, RecoverReceived;
  }

  lemma CommittedDurable(env: Env, s: System, call: JournalCall)
    requires HandlerCall(s.chain, call)
    ensures Durable(env, s.chain, Committed(s.chain, Perform(env, s.chain, s.owner, call)), Target(env, call))
  {
    hide Durable, Perform;
    StayDurable(env, s.chain, Target(env, call));
    if Perform(env, s.chain, s.owner, call).Ok? {
      CallDurable(env, s.chain, s.owner, call);
    }
  }

  lemma PrepareDurable(env: Env, s: System, e: Step)
    requires e.Prepare?
    ensures Durable(env, s.chain, PrepareStep(env, s, e).chain, e.hash)
  {
    hide Durable, PrepareInChain, FailIfReceived, FollowsSource;
    StayDurable(env, s.chain, e.hash);
    if e.hash in s.tasks && s.tasks[e.hash].Building? && FollowsSource(env, s.chain, e.hash, e.context) {
      var r := PrepareInChain(env, s.chain, s.owner, e.hash, e.native, e.simulation, e.context);
      if r.Ok? {
        PreparedDurable(env, s.chain, s.owner, e.hash, e.native, e.simulation, e.context);
      } else {
        RejectedDurable(env, s.chain, s.owner, e.hash, r.error);
      }
    }
  }

  lemma WriteDurable(env: Env, c: Chain, w: TableWrite)
    ensures Durable(env, c, AfterWrite(c, w), 0)
  {
    WriteKeepsJournal(c, w);
    if TablesValid(c) {
      WriteClimbs(c, w);
    }
    hide AfterWrite, TablesValid, Climbs;
  }

  // ---- What every reachable durable state satisfies ----

  /** Every prepared record holds its nonce for good. */
  predicate PreparedOccupy(records: map<Hash, Record>) {
    forall h :: h in records && records[h].context.Some? ==> Occupies(records[h])
  }

  /** The sender and nonce a record holds are those of its own source, and the sender is an address. */
  predicate SourcesFollowed(env: Env, c: Chain) {
    forall h :: h in c.records && c.records[h].context.Some? ==>
      FollowsSource(env, c, h, c.records[h].context.value) && NonZero(c.records[h].context.value.from)
  }

  predicate FinalsBelow(c: Chain, plan: Plan) {
    forall a :: a in plan.finals ==> plan.finals[a] <= NextNonce(c, a)
  }

  /** No recorded plan reaches past the stored counters. */
  predicate FinalsStored(c: Chain) {
    forall h :: h in c.records && c.records[h].plan.Some? ==> FinalsBelow(c, c.records[h].plan.value)
  }

  /** No caller's nonces are reserved by both plans. */
  predicate Apart(p: Plan, q: Plan) {
    forall a :: a in p.bases && a in q.bases && a in p.finals && a in q.finals ==>
      p.finals[a] <= q.bases[a] || q.finals[a] <= p.bases[a]
  }

  predicate PlansApart(records: map<Hash, Record>) {
    forall h, k :: h in records && k in records && h != k && records[h].plan.Some? && records[k].plan.Some?
                   ==> Apart(records[h].plan.value, records[k].plan.value)
  }

  /** Every confirmed record has its own successful receipt and its whole creation tree in the table. */
  predicate TreesPublished(c: Chain) {
    forall h :: h in c.records && c.records[h].state == Confirmed ==> OwnReceipt(c.records[h]) && TreePublished(c, c.records[h])
  }

  predicate Sound(env: Env, c: Chain) {
    && JournalValid(env, c.records) && OneOccupant(c.records) && PreparedOccupy(c.records) && SourcesFollowed(env, c)
    && CountersValid(c) && FinalsStored(c) && PlansApart(c.records) && TablesValid(c) && TreesPublished(c)
  }

  /** The record's preparation is what it was, and so are the counters. */
  predicate SamePreparation(c: Chain, d: Chain, h: Hash)
    requires h in d.records
  {
    && d.counters == c.counters
    && (if h in c.records then d.records[h].context == c.records[h].context && d.records[h].plan == c.records[h].plan
        else d.records[h].context.None? && d.records[h].plan.None?)
  }

  predicate WasUnprepared(c: Chain, h: Hash) {
    h in c.records ==> c.records[h].context.None? && c.records[h].plan.None?
  }

  lemma PreparationChange(env: Env, c: Chain, d: Chain, h: Hash)
    requires WritesRecord(env, c, d, h) && (h in c.records ==> ValidRecord(env, c.records[h], h))
    ensures SamePreparation(c, d, h) || (WasUnprepared(c, h) && NewlyPrepared(env, c, d, h))
    ensures d.records[h].plan.Some? <==> d.records[h].context.Some?
    ensures h in c.records ==> d.records[h].source == c.records[h].source
  {
    hide NewlyPrepared, ValidPreparation;
  }

  lemma KeepsJournal(env: Env, c: Chain, d: Chain, h: Hash)
    requires JournalValid(env, c.records) && (Quiet(c, d) || WritesRecord(env, c, d, h))
    ensures JournalValid(env, d.records)
  {
    hide ValidRecord, Forward, NewlyPrepared;
  }

  lemma KeepsOccupation(env: Env, c: Chain, d: Chain, h: Hash)
    requires JournalValid(env, c.records) && WritesRecord(env, c, d, h)
    requires OneOccupant(c.records) && PreparedOccupy(c.records)
    ensures OneOccupant(d.records) && PreparedOccupy(d.records)
  {
    if h in c.records { assert ValidRecord(env, c.records[h], h); }
    PreparationChange(env, c, d, h);
    WrittenOccupies(env, c, d, h);
    hide JournalValid, ValidRecord, Forward, Occupies, NewlyPrepared, WritesRecord;
    assert d.records == c.records[h := d.records[h]];
  }

  lemma WrittenOccupies(env: Env, c: Chain, d: Chain, h: Hash)
    requires WritesRecord(env, c, d, h) && (h in c.records ==> ValidRecord(env, c.records[h], h))
    requires PreparedOccupy(c.records)
    ensures d.records == c.records[h := d.records[h]]
    ensures d.records[h].context.Some? ==>
              var x := d.records[h].context.value;
              && Occupies(d.records[h])
              && (|| (h in c.records && Occupies(c.records[h]) && c.records[h].context == d.records[h].context)
                  || !NonceTaken(c.records, h, x.from, x.nonce))
    ensures d.records[h].context.None? ==> !Occupies(d.records[h])
  {
    PreparationChange(env, c, d, h);
    hide ValidRecord, Forward, NonceTaken, CountersValid, TakesCounters, FollowsSource;
  }

  lemma KeepsSources(env: Env, c: Chain, d: Chain, h: Hash)
    requires WritesRecord(env, c, d, h) && JournalValid(env, c.records) && SourcesFollowed(env, c)
    ensures SourcesFollowed(env, d)
  {
    if h in c.records { assert ValidRecord(env, c.records[h], h); }
    PreparationChange(env, c, d, h);
    hide JournalValid, ValidRecord, Forward, Occupies, NonceTaken, CountersValid, TakesCounters;
  }

  lemma KeepsCounters(env: Env, c: Chain, d: Chain, h: Hash)
    requires WritesRecord(env, c, d, h) && CountersValid(c)
    ensures CountersValid(d)
    ensures forall a :: NextNonce(d, a) >= NextNonce(c, a)
  {
    hide ValidRecord, Forward, Occupies, NonceTaken, FollowsSource, Prepared;
  }

  lemma KeepsReservations(env: Env, c: Chain, d: Chain, h: Hash)
    requires WritesRecord(env, c, d, h) && JournalValid(env, c.records) && CountersValid(c)
    requires FinalsStored(c) && PlansApart(c.records)
    ensures FinalsStored(d) && PlansApart(d.records)
  {
    if h in c.records { assert ValidRecord(env, c.records[h], h); }
    PreparationChange(env, c, d, h);
    KeepsCounters(env, c, d, h);
    hide JournalValid, ValidRecord, Forward, Occupies, NonceTaken, FollowsSource, Prepared, CountersValid, Apart, FinalsBelow;
    assert d.records == c.records[h := d.records[h]];
    forall k | k in c.records && k != h && c.records[k].plan.Some?
      ensures FinalsBelow(d, c.records[k].plan.value)
      ensures d.records[h].plan.Some? ==> Apart(c.records[k].plan.value, d.records[h].plan.value)
                                          && Apart(d.records[h].plan.value, c.records[k].plan.value)
    {
      StaysBelow(c, d, c.records[k].plan.value);
      if d.records[h].plan.Some? && NewlyPrepared(env, c, d, h) {
        NewPlanApart(c, d, c.records[k].plan.value, d.records[h].plan.value);
      }
    }
    if d.records[h].plan.Some? {
      if SamePreparation(c, d, h) {
        StaysBelow(c, d, d.records[h].plan.value);
      } else {
        NewPlanBelow(c, d, d.records[h].plan.value);
      }
    }
  }

  lemma StaysBelow(c: Chain, d: Chain, plan: Plan)
    requires FinalsBelow(c, plan) && forall a :: NextNonce(d, a) >= NextNonce(c, a)
    ensures FinalsBelow(d, plan)
  {
  }

  lemma NewPlanBelow(c: Chain, d: Chain, plan: Plan)
    requires TakesCounters(c, d, plan)
    ensures FinalsBelow(d, plan)
  {
  }

  lemma NewPlanApart(c: Chain, d: Chain, older: Plan, newer: Plan)
    requires FinalsBelow(c, older) && TakesCounters(c, d, newer)
    ensures Apart(older, newer) && Apart(newer, older)
  {
  }

  lemma TreeStays(c: Chain, d: Chain, r: Record)
    requires TreePublished(c, r) && Climbs(c, d)
    ensures TreePublished(d, r)
  {
    hide SnapshotsClimb, DescriptorsClimb;
    forall i | 0 <= i < |r.plan.value.attempts| ensures ChildStands(d, r, i) {
      assert ChildStands(c, r, i);
    }
  }

  lemma KeepsTrees(env: Env, c: Chain, d: Chain, h: Hash)
    requires Quiet(c, d) || WritesRecord(env, c, d, h)
    requires TreesPublished(c) && Climbs(c, d)
    ensures TreesPublished(d)
  {
    hide ValidRecord, Occupies, NewlyPrepared, TreePublished, OwnReceipt, Climbs;
    forall k | k in d.records && d.records[k].state == Confirmed
      ensures OwnReceipt(d.records[k]) && TreePublished(d, d.records[k])
    {
      if k in c.records && c.records[k].state == Confirmed {
        assert d.records[k] == c.records[k];
        TreeStays(c, d, c.records[k]);
      }
    }
  }

  lemma DurableKeepsSound(env: Env, c: Chain, d: Chain, h: Hash)
    requires Durable(env, c, d, h) && Sound(env, c)
    ensures Sound(env, d) && Climbs(c, d)
    ensures forall a :: NextNonce(d, a) >= NextNonce(c, a)
  {
    KeepsJournal(env, c, d, h);
    if WritesRecord(env, c, d, h) {
      KeepsOccupation(env, c, d, h);
      KeepsSources(env, c, d, h);
      KeepsCounters(env, c, d, h);
      KeepsReservations(env, c, d, h);
    } else {
      QuietKeeps(env, c, d);
    }
    KeepsTrees(env, c, d, h);
    hide TreesPublished, WritesRecord, JournalValid, OneOccupant, PreparedOccupy, SourcesFollowed, CountersValid, FinalsStored, PlansApart,
         TablesValid, Climbs;
  }

  lemma QuietKeeps(env: Env, c: Chain, d: Chain)
    requires Quiet(c, d)
    ensures SourcesFollowed(env, c) ==> SourcesFollowed(env, d)
    ensures CountersValid(c) ==> CountersValid(d)
    ensures FinalsStored(c) ==> FinalsStored(d)
    ensures forall a :: NextNonce(d, a) == NextNonce(c, a)
  {
  }

  /** No record gains a context. */
  predicate NoNewContext(c: Chain, d: Chain) {
    forall h :: h in d.records && d.records[h].context.Some? ==> h in c.records && c.records[h].context.Some?
  }

  lemma CallAddsNoContext(env: Env, s: System, call: JournalCall)
    requires HandlerCall(s.chain, call)
    ensures NoNewContext(s.chain, Committed(s.chain, Perform(env, s.chain, s.owner, call)))
  {
    if Perform(env, s.chain, s.owner, call).Ok? {
      CallWritesOne(env, s.chain, s.owner, call);
      CallKeepsOccupation(env, s.chain, s.owner, call);
    }
    hide Perform, Target, ValidRecord, Forward, JournalValid, Occupies;
  }

  lemma FailureAddsNoContext(env: Env, s: System, h: Hash, code: Code)
    ensures NoNewContext(s.chain, FailReceived(env, s, h, code))
  {
    if InState(s.chain, h, Received) {
      CallAddsNoContext(env, s, FailedCall(h, code));
    }
    hide RecordFailed;
  }

  lemma ReconcileAddsNoContext(env: Env, c: Chain, h: Hash, receipt: Receipt)
    ensures NoNewContext(c, Reconcile(env, c, h, receipt).chain)
  {
    ReconcileAllOrNothing(env, c, h, receipt);
    var o := Reconcile(env, c, h, receipt);
    if o.error.None? && o.chain != c {
      ReconcileConfirms(env, c, c.records[h], receipt);
    }
    hide Reconcile, ReconcileRecord, OnlyPublishes, ValidRecord, JournalValid, RewriteInternals, TopLevelMatches;
  }

  lemma StepAddsNoContext(env: Env, s: System, e: Step)
    requires !e.Prepare?
    ensures NoNewContext(s.chain, Next(env, s, e).chain)
  {
    hide NoNewContext, Reconcile, Perform, FailReceived, AfterWrite, RecordBroadcast, RecoverReceived;
    assert NoNewContext(s.chain, s.chain) by { SameContexts(s.chain); }
    match e
    case ReceiveSource(raw) => CallAddsNoContext(env, s, ReceiveCall(raw));
    case FailBuild(h, code, _) => FailureAddsNoContext(env, s, h, code);
    case RejectInQueue(h) => FailureAddsNoContext(env, s, h, NonceTooLow);
    case NoteBroadcast(h) =>
      CallAddsNoContext(env, s, BroadcastCall(h));
      PerformMeans(env, s.chain, s.owner, h, 0);
    case ReceiptArrives(h, receipt) => ReconcileAddsNoContext(env, s.chain, h, receipt);
    case RetainAfterWriteError(h, code, receipt) => CallAddsNoContext(env, s, RetainedCall(h, code, receipt));
    case Recover(h, expected) =>
      CallAddsNoContext(env, s, RecoverCall(h, expected));
      PerformMeans(env, s.chain, s.owner, h, expected);
    case TableUpdate(w) => WriteAddsNoContext(s.chain, w);
    case _ =>
  }

  lemma SameContexts(c: Chain)
    ensures NoNewContext(c, c)
  {
  }

  lemma WriteAddsNoContext(c: Chain, w: TableWrite)
    ensures NoNewContext(c, AfterWrite(c, w))
  {
    WriteKeepsJournal(c, w);
    hide AfterWrite;
  }

  // ---- What every reachable system satisfies ----

  predicate HasNative(c: Chain, h: Hash, native: Native) {
    h in c.records && c.records[h].native == Some(native)
  }

  /** What a piece of work carries in memory is what the journal holds. */
  predicate TaskSound(c: Chain, h: Hash, t: Task) {
    && h in c.records
    && match t
       case Building => true
       case Sending(native) => HasNative(c, h, native)
       case Resuming(r) => r.native.Some? && HasNative(c, h, r.native.value)
       case _ => c.records[h].native.Some?
  }

  predicate TasksSound(s: System) {
    forall h :: h in s.tasks ==> TaskSound(s.chain, h, s.tasks[h])
  }

  predicate SystemSound(env: Env, s: System) {
    Sound(env, s.chain) && TasksSound(s)
  }

  /**
   * A record stays, with its source; a native transaction once recorded stays recorded, with its
   * context and plan; a finished record never changes again.
   */
  predicate RecordStays(r: Record, s: Record) {
    && s.hash == r.hash && s.source == r.source
    && (r.native.Some? ==> s.native == r.native && s.context == r.context && s.plan == r.plan)
    && (r.state in {Confirmed, Failed} ==> s == r)
  }

  predicate RecordsStay(c: Chain, d: Chain) {
    forall h :: h in c.records ==> h in d.records && RecordStays(c.records[h], d.records[h])
  }

  lemma ForwardStays(env: Env, r: Record, s: Record, h: Hash)
    requires ValidRecord(env, r, h) && Forward(r, s)
    ensures RecordStays(r, s)
  {
    hide ValidPreparation;
  }

  lemma DurableStays(env: Env, c: Chain, d: Chain, h: Hash)
    requires JournalValid(env, c.records) && Durable(env, c, d, h)
    ensures RecordsStay(c, d)
  {
    if WritesRecord(env, c, d, h) && h in c.records {
      assert ValidRecord(env, c.records[h], h);
      ForwardStays(env, c.records[h], d.records[h], h);
    }
    hide JournalValid, ValidRecord, Forward, Occupies, NewlyPrepared, TablesValid, Climbs;
  }

  lemma TaskStays(c: Chain, d: Chain, h: Hash, t: Task)
    requires RecordsStay(c, d) && TaskSound(c, h, t)
    ensures TaskSound(d, h, t)
  {
  }

  /** What a step does to the work in flight, beyond the durable state. */
  predicate WorkStep(s: System, t: System) {
    forall h :: h in t.tasks ==> (h in s.tasks && t.tasks[h] == s.tasks[h]) || TaskSound(t.chain, h, t.tasks[h])
  }

  /** A step sends its emission and nothing else, and its emission is what the journal holds. */
  lemma StepSends(env: Env, s: System, e: Step)
    requires TasksSound(s)
    ensures Next(env, s, e).sent == s.sent + if Emission(s, e).Some? then {Emission(s, e).value} else {}
    ensures Emission(s, e).Some? ==> HasNative(s.chain, Emission(s, e).value.hash, Emission(s, e).value.native)
    ensures Emission(s, e).Some? ==> Next(env, s, e).chain == s.chain
  {
    hide RecordPreparedNative, Reconcile, Perform, FollowsSource, FailReceived, AfterWrite, RecordBroadcast, RecoverReceived;
  }

  lemma StepWork(env: Env, s: System, e: Step)
    requires SystemSound(env, s) && RecordsStay(s.chain, Next(env, s, e).chain)
    ensures WorkStep(s, Next(env, s, e))
  {
    hide Sound, RecordsStay, PrepareStep, TransmitStep, NoteStep;
    hide Reconcile, Perform, FailReceived, AfterWrite, RecoverReceived;
    match e
    case Prepare(h, _, _, _) => PrepareWork(env, s, e);
    case Transmit(h) => TransmitWork(s, e);
    case Resend(h, _) => TransmitWork(s, e);
    case NoteBroadcast(h) => NoteWork(env, s, h);
    case StartResume(h) => StartResumeWork(env, s, h);
    case _ =>
  }

  lemma PrepareWork(env: Env, s: System, e: Step)
    requires e.Prepare?
    ensures WorkStep(s, PrepareStep(env, s, e))
  {
    hide RecordPreparedNative, FollowsSource;
  }

  lemma TransmitWork(s: System, e: Step)
    requires (e.Transmit? || e.Resend?) && TasksSound(s)
    ensures WorkStep(s, TransmitStep(s, e))
  {
  }

  lemma NoteWork(env: Env, s: System, h: Hash)
    requires TasksSound(s) && RecordsStay(s.chain, NoteStep(env, s, h).chain)
    ensures WorkStep(s, NoteStep(env, s, h))
  {
    hide RecordBroadcast;
  }

  lemma StartResumeWork(env: Env, s: System, h: Hash)
    requires Sound(env, s.chain)
    ensures InState(s.chain, h, NativeBuilt) || InState(s.chain, h, Broadcast) ==> s.chain.records[h].native.Some?
  {
    if h in s.chain.records { assert ValidRecord(env, s.chain.records[h], h); }
  }

  lemma StepKeepsSound(env: Env, s: System, e: Step)
    requires SystemSound(env, s)
    ensures var t := Next(env, s, e);
            && SystemSound(env, t) && RecordsStay(s.chain, t.chain) && Climbs(s.chain, t.chain) && WorkStep(s, t)
            && forall a :: NextNonce(t.chain, a) >= NextNonce(s.chain, a)
  {
    var t := Next(env, s, e);
    hide Next;
    StepDurable(env, s, e);
    DurableKeepsSound(env, s.chain, t.chain, Subject(env, e));
    assert RecordsStay(s.chain, t.chain) by {
      SoundJournal(env, s.chain);
      DurableStays(env, s.chain, t.chain, Subject(env, e));
    }
    StepWork(env, s, e);
    hide Sound, Durable, Climbs, RecordsStay, TaskSound, HasNative;
    forall h | h in t.tasks ensures TaskSound(t.chain, h, t.tasks[h]) {
      if h in s.tasks && t.tasks[h] == s.tasks[h] {
        TaskStays(s.chain, t.chain, h, s.tasks[h]);
      }
    }
  }

  lemma NativeStays(c: Chain, d: Chain, m: Transmission)
    requires RecordsStay(c, d) && HasNative(c, m.hash, m.native)
    ensures HasNative(d, m.hash, m.native)
  {
  }

  lemma SoundJournal(env: Env, c: Chain)
    requires Sound(env, c)
    ensures JournalValid(env, c.records)
  {
  }

  lemma StartSound(env: Env, owner: Owner)
    ensures SystemSound(env, Start(owner))
  {
  }

  // ---- Why the handlers never fail a prepared record ----

  /**
   * The journal itself would let a prepared or broadcast record be failed without a receipt. The
   * record then no longer holds its nonce, so another source could be prepared with it and sent.
   */
  lemma DirectFailureFreesNonce(env: Env, c: Chain, owner: Owner, hash: Hash, code: Code)
    requires JournalValid(env, c.records) && OneOccupant(c.records) && hash in c.records
    requires c.records[hash].state in {NativeBuilt, Broadcast}
    ensures RecordFailed(env, c, owner, hash, code).Ok?
    ensures var x := c.records[hash].context;
            var d := RecordFailed(env, c, owner, hash, code).value;
            && x.Some? && OccupiesNonce(c.records[hash], x.value.from, x.value.nonce)
            && forall other :: !NonceTaken(d.records, other, x.value.from, x.value.nonce)
  {
    assert ValidRecord(env, c.records[hash], hash);
    hide JournalValid, ValidPreparation;
    var x := c.records[hash].context.value;
    forall h | h in c.records && h != hash ensures !OccupiesNonce(c.records[h], x.from, x.nonce) {}
  }
}
