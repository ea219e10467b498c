/**
 * The draft of one chain that a store transaction hands to its callback. The `InChain` operations of
 * rpc-src/address-map.ts, rpc-src/journal.ts and rpc-src/create-reconciler.ts write it in place, entry
 * by entry; each is proved against the function that says what it amounts to. An operation that fails
 * may leave a half-written draft, which the store then drops.
 */
module ChainDraft {
  import opened Wrappers
  import opened Addresses
  import opened ChainState
  import opened AddressMap
  import opened Journal
  import opened Planner
  import opened Reconciler

  class ChainDraft {
    var byPredicted: map<Address, Mapping>
    var byActual: map<Address, Address>
    var metadata: map<Address, Metadata>
    var snapshots: map<Hash, Snapshot>
    var descriptors: map<Address, DescriptorRecord>
    var baselines: map<Address, nat>
    var counters: map<Address, nat>
    var records: map<Hash, Record>

    function Model(): Chain
      reads this
    {
      Chain(byPredicted, byActual, metadata, snapshots, descriptors, baselines, counters, records)
    }

    /** A deep copy of the committed chain. */
    constructor (c: Chain)
      ensures Model() == c
    {
      byPredicted, byActual, metadata, snapshots := c.byPredicted, c.byActual, c.metadata, c.snapshots;
      descriptors, baselines, counters, records := c.descriptors, c.baselines, c.counters, c.records;
    }

    // ---- Address tables ----

    method SetMappingInChain(m: Mapping) returns (e: Option<Code>)
      modifies this`byPredicted, this`byActual
      ensures Followed(SetMapping(old(Model()), m), e, Model())
      ensures e.Some? ==> Model() == old(Model())
    {
      if !Canonical(m) {
        return Some(InvalidMapping);
      }
      var verdict := RequireIndexes(byPredicted, byActual);
      if verdict != Accepted {
        return Some(CorruptIndexes);
      }
      if m.predicted in byPredicted {
        var existing := byPredicted[m.predicted];
        return if existing.actual != m.actual then Some(PredictedConflict)
               else if existing != m then Some(ProvenanceConflict)
               else None;
      }
      if m.actual in byActual {
        return Some(ActualConflict);
      }
      byPredicted := byPredicted[m.predicted := m];
      byActual := byActual[m.actual := m.predicted];
      return None;
    }

    method SetContractMetadataInChain(m: Metadata) returns (e: Option<Code>)
      modifies this`metadata
      ensures Followed(SetMetadata(old(Model()), m), e, Model())
      ensures e.Some? ==> Model() == old(Model())
    {
      if !NonZero(m.predicted) {
        return Some(InvalidMetadata);
      }
      var verdict := RequireIndexes(byPredicted, byActual);
      if verdict != Accepted {
        return Some(CorruptIndexes);
      }
      if m.predicted !in byPredicted {
        return Some(MetadataWithoutMapping);
      }
      if !KeyedMetadata(metadata) || !(metadata.Keys <= byPredicted.Keys) {
        return Some(CorruptMetadata);
      }
      if m.predicted in metadata {
        return if metadata[m.predicted] != m then Some(MetadataConflict) else None;
      }
      metadata := metadata[m.predicted := m];
      return None;
    }

    method SetArtifactSnapshotInChain(s: Snapshot) returns (e: Option<Code>)
      modifies this`snapshots
      ensures Followed(SetSnapshot(old(Model()), s), e, Model())
      ensures e.Some? ==> Model() == old(Model())
    {
      if !KeyedSnapshots(snapshots) {
        return Some(CorruptSnapshots);
      }
      if s.provenance in snapshots {
        var existing := snapshots[s.provenance];
        if existing == s {
          return None;
        }
        if existing.references.None? == s.references.None? || existing.envelope != s.envelope {
          return Some(SnapshotConflict);
        }
        if existing.references.None? {
          snapshots := snapshots[s.provenance := s];
        }
        return None;
      }
      snapshots := snapshots[s.provenance := s];
      return None;
    }

    method SetDeploymentDescriptorInChain(r: DescriptorRecord) returns (e: Option<Code>)
      modifies this`descriptors
      ensures Followed(SetDescriptors(old(Model()), r), e, Model())
      ensures e.Some? ==> Model() == old(Model())
    {
      if !WellFormedDescriptors(r) {
        return Some(InvalidDescriptors);
      }
      var verdict := RequireIndexes(byPredicted, byActual);
      if verdict != Accepted {
        return Some(CorruptIndexes);
      }
      if r.predicted !in byPredicted {
        return Some(DescriptorsWithoutMapping);
      }
      if !KeyedDescriptors(descriptors) || !(descriptors.Keys <= byPredicted.Keys) {
        return Some(CorruptDescriptors);
      }
      if r.predicted in descriptors {
        var existing := descriptors[r.predicted];
        if existing.complete {
          return if !r.complete then Some(DescriptorRegress)
                 else if existing != r then Some(DescriptorConflict)
                 else None;
        }
        if !r.complete {
          return None;
        }
      }
      descriptors := descriptors[r.predicted := r];
      return None;
    }

    method SetNonceBaselineInChain(sender: Address, nonce: nat) returns (e: Option<Code>)
      modifies this`baselines
      ensures Followed(SetBaseline(old(Model()), sender, nonce), e, Model())
      ensures e.Some? ==> Model() == old(Model())
    {
      if !NonZero(sender) {
        return Some(InvalidBaseline);
      }
      if !NonZeroKeys(baselines) {
        return Some(CorruptBaselines);
      }
      if sender in baselines {
        return if baselines[sender] != nonce then Some(BaselineConflict) else None;
      }
      baselines := baselines[sender := nonce];
      return None;
    }

    /** A callback that makes several table writes, stopping at the first one refused. */
    method WriteInChain(ws: seq<TableWrite>) returns (e: Option<Code>)
      modifies this`byPredicted, this`byActual, this`metadata, this`snapshots, this`descriptors, this`baselines
      ensures Followed(WriteAll(old(Model()), ws, |ws|), e, Model())
    {
      hide SetMapping, SetMetadata, SetSnapshot, SetDescriptors, SetBaseline;
      for k := 0 to |ws|
        invariant WriteAll(old(Model()), ws, k) == Ok(Model())
      {
        match ws[k] {
          case WriteMapping(m) => e := SetMappingInChain(m);
          case WriteMetadata(m) => e := SetContractMetadataInChain(m);
          case WriteSnapshot(s) => e := SetArtifactSnapshotInChain(s);
          case WriteDescriptors(r) => e := SetDeploymentDescriptorInChain(r);
          case WriteBaseline(s, n) => e := SetNonceBaselineInChain(s, n);
        }
        if e.Some? {
          WriteAllFails(old(Model()), ws, k + 1, |ws|);
          return;
        }
      }
      e := None;
    }

    // ---- Journal ----

    /** The scan for another record that holds the sender's nonce. */
    method FindOccupant(hash: Hash, from: Address, nonce: nat) returns (taken: bool)
      ensures taken <==> NonceTaken(records, hash, from, nonce)
    {
      var done: set<Hash> := {};
      while done != records.Keys
        invariant done <= records.Keys
        invariant forall h :: h in done && h != hash ==> !OccupiesNonce(records[h], from, nonce)
        decreases records.Keys - done
      {
        assert records.Keys - done != {};
        var h :| h in records.Keys - done;
        if h != hash && OccupiesNonce(records[h], from, nonce) {
          return true;
        }
        done := done + {h};
      }
      return false;
    }

    method RecordNativeBuiltInChain(env: Env, owner: Owner, hash: Hash, native: Native, p: Preparation)
      returns (e: Option<Code>)
      modifies this`records
      ensures Followed(RecordNativeBuilt(env, old(Model()), owner, hash, native, p), e, Model())
      ensures e.Some? ==> Model() == old(Model())
    {
      hide ValidPlan, ValidContext, JournalValid, NonceTaken;
      var planned := ValidatePlan(env, p.plan);
      if !ValidContext(p.context) || !planned || p.context.from != p.plan.sender {
        return Some(InvalidPreparation);
      }
      if !JournalValid(env, records) {
        return Some(CorruptJournal);
      }
      if hash !in records {
        return Some(UnknownTransaction);
      }
      var r := records[hash];
      if r.state == NativeBuilt {
        return if r.native != Some(native) || r.context != Some(p.context) || r.plan != Some(p.plan)
               then Some(RetryConflict) else None;
      }
      if r.state != Received {
        return Some(IllegalTransition);
      }
      if r.owner != Some(owner) {
        return Some(ClaimOwned);
      }
      var taken := FindOccupant(hash, p.context.from, p.context.nonce);
      if taken {
        return Some(NonceInFlight);
      }
      var next := BuiltRecord(r, native, p);
      records := records[next.hash := next];
      return None;
    }

    method RecordConfirmedInChain(env: Env, hash: Hash, receipt: Receipt) returns (e: Option<Code>)
      modifies this`records
      ensures Followed(RecordConfirmed(env, old(Model()), hash, receipt), e, Model())
      ensures e.Some? ==> Model() == old(Model())
    {
      hide JournalValid;
      if !JournalValid(env, records) {
        return Some(CorruptJournal);
      }
      if hash !in records {
        return Some(UnknownTransaction);
      }
      var r := records[hash];
      if r.state == Confirmed {
        return if r.receipt != Some(receipt) then Some(RetryConflict) else None;
      }
      if r.state != Broadcast {
        return Some(IllegalTransition);
      }
      var next := r.(state := Confirmed, receipt := Some(receipt));
      records := records[next.hash := next];
      return None;
    }

    method RecordRetainedFailureInChain(env: Env, hash: Hash, failure: Code, receipt: Receipt) returns (e: Option<Code>)
      modifies this`records
      ensures Followed(RecordRetainedFailure(env, old(Model()), hash, failure, receipt), e, Model())
      ensures e.Some? ==> Model() == old(Model())
    {
      hide JournalValid;
      if !JournalValid(env, records) {
        return Some(CorruptJournal);
      }
      if hash !in records {
        return Some(UnknownTransaction);
      }
      var r := records[hash];
      if r.state != Broadcast {
        return Some(IllegalTransition);
      }
      var next := r.(state := Failed, failure := Some(failure), receipt := Some(receipt));
      records := records[next.hash := next];
      return None;
    }

    method ReceiveInChain(env: Env, owner: Owner, source: Raw) returns (e: Option<Code>, shouldBuild: bool)
      modifies this`records
      ensures match Receive(env, old(Model()), owner, source)
              case Ok(p) => e.None? && Model() == p.0 && shouldBuild == p.1
              case Err(code) => e == Some(code) && Model() == old(Model())
    {
      hide JournalValid;
      var hash := Keccak(env, source);
      if !JournalValid(env, records) {
        return Some(CorruptJournal), false;
      }
      if hash in records {
        return if records[hash].source != source then Some(SourceConflict) else None, false;
      }
      records := records[hash := NewRecord(hash, source, owner)];
      return None, true;
    }

    method RecoverReceivedInChain(env: Env, owner: Owner, hash: Hash, expected: Owner) returns (e: Option<Code>)
      modifies this`records
      ensures Followed(RecoverReceived(env, old(Model()), owner, hash, expected), e, Model())
      ensures e.Some? ==> Model() == old(Model())
    {
      hide JournalValid;
      if !JournalValid(env, records) {
        return Some(CorruptJournal);
      }
      if hash !in records {
        return Some(UnknownTransaction);
      }
      var r := records[hash];
      if r.state != Received {
        return Some(IllegalTransition);
      }
      if expected == owner || r.owner != Some(expected) {
        return Some(RecoveryConflict);
      }
      var claimed := r.(owner := Some(owner));
      records := records[claimed.hash := claimed];
      return None;
    }

    method RecordBroadcastInChain(env: Env, hash: Hash) returns (e: Option<Code>)
      modifies this`records
      ensures Followed(RecordBroadcast(env, old(Model()), hash), e, Model())
      ensures e.Some? ==> Model() == old(Model())
    {
      hide JournalValid;
      if !JournalValid(env, records) {
        return Some(CorruptJournal);
      }
      if hash !in records {
        return Some(UnknownTransaction);
      }
      var r := records[hash];
      if r.state == Broadcast {
        return None;
      }
      if r.state != NativeBuilt {
        return Some(IllegalTransition);
      }
      var next := r.(state := Broadcast);
      records := records[next.hash := next];
      return None;
    }

    method RecordFailedInChain(env: Env, owner: Owner, hash: Hash, failure: Code) returns (e: Option<Code>)
      modifies this`records
      ensures Followed(RecordFailed(env, old(Model()), owner, hash, failure), e, Model())
      ensures e.Some? ==> Model() == old(Model())
    {
      hide JournalValid;
      if !JournalValid(env, records) {
        return Some(CorruptJournal);
      }
      if hash !in records {
        return Some(UnknownTransaction);
      }
      var r := records[hash];
      if r.state == Failed {
        return if r.failure != Some(failure) then Some(FailureConflict) else None;
      }
      if r.state == Confirmed {
        return Some(IllegalTransition);
      }
      if r.state == Received && r.owner != Some(owner) {
        return Some(ClaimOwned);
      }
      var next := Record(r.hash, r.source, Failed, None, r.native, r.context, r.plan, None, Some(failure));
      records := records[next.hash := next];
      return None;
    }

    // ---- Reservation ----

    method ReserveChildCreateCounters(plan: Plan)
      modifies this`counters
      ensures Model() == ReserveCounters(old(Model()), plan)
    {
      var done: set<Address> := {};
      while done != plan.finals.Keys
        invariant done <= plan.finals.Keys
        invariant counters.Keys == old(counters).Keys + done
        invariant forall a :: a in counters ==> counters[a] == if a in done then plan.finals[a] else old(counters)[a]
        decreases plan.finals.Keys - done
      {
        assert plan.finals.Keys - done != {};
        var a :| a in plan.finals.Keys - done;
        counters := counters[a := plan.finals[a]];
        done := done + {a};
      }
      assert counters == old(counters) + plan.finals;
    }

    /** The whole transaction of a preparation. */
    method RecordPreparedNativeInChain(env: Env, owner: Owner, hash: Hash, native: Native, sim: Simulation, x: Context)
      returns (e: Option<Code>)
      modifies this`records, this`counters
      ensures Followed(PrepareInChain(env, old(Model()), owner, hash, native, sim, x), e, Model())
    {
      hide JournalValid, RecordNativeBuilt, DerivePlan;
      if !JournalValid(env, records) {
        return Some(CorruptJournal);
      }
      var first := hash in records && records[hash].state == Received;
      var p := DerivePlanInOrder(env, Model(), sim, x, native.id);
      if p.Err? {
        return Some(p.error);
      }
      e := RecordNativeBuiltInChain(env, owner, hash, native, p.value);
      if e.None? && first {
        ReserveChildCreateCounters(p.value.plan);
      }
    }

    // ---- Reconciliation ----

    method Publish(m: Mapping, child: Option<ChildMetadata>) returns (e: Option<Code>)
      modifies this`byPredicted, this`byActual, this`metadata
      ensures Followed(Reconciler.Publish(old(Model()), m, child), e, Model())
    {
      hide SetMapping, SetMetadata;
      e := SetMappingInChain(m);
      if e.None? && child.Some? {
        e := SetContractMetadataInChain(ToMetadata(m, child.value));
      }
    }

    /** The expected actual address of every caller the plan can start from. */
    method SeedShown(x: Context, plan: Plan) returns (shown: Shown)
      requires ValidContext(x)
      ensures shown == Seeds(Model(), x, plan, |plan.attempts|)
    {
      shown := map[plan.sender := plan.sender];
      shown := shown[PredictedRoot(x) := x.actualTarget];
      for k := 0 to |plan.attempts|
        invariant shown == Seeds(Model(), x, plan, k)
      {
        var caller := plan.attempts[k].predictedCaller;
        if caller !in shown && caller in byPredicted {
          shown := shown[caller := byPredicted[caller].actual];
        }
      }
    }

    /** Walks plan and receipt together, learning each created address as it goes. */
    method MatchAttempts(seeds: Shown, plan: Plan, creations: seq<Creation>) returns (matched: bool)
      requires |plan.attempts| == |creations|
      ensures matched <==> Matched(seeds, plan, creations, |creations|).Some?
    {
      hide AttemptMatches;
      var shown := seeds;
      for k := 0 to |plan.attempts|
        invariant Matched(seeds, plan, creations, k) == Some(shown)
      {
        if !AttemptMatches(plan.mode, plan.attempts[k], creations[k], shown) {
          if Matched(seeds, plan, creations, |creations|).Some? {
            MatchedEarlier(seeds, plan, creations, k, |creations|);
          }
          return false;
        }
        if plan.attempts[k].success {
          shown := shown[plan.attempts[k].predictedAddress := creations[k].actual];
        }
      }
      return true;
    }

    /** Publishes the successful children pair by pair and keeps the reverse table for the receipt. */
    method PublishSuccesses(r: Record, planned: seq<Attempt>, created: seq<Creation>, reverse: map<Address, Address>)
      returns (e: Option<Code>, actualToPredicted: map<Address, Address>)
      requires r.plan.Some? && reverse == byActual
      modifies this`byPredicted, this`byActual, this`metadata
      ensures Followed(PublishChildren(old(Model()), r, planned, created, |planned|), e, Model())
      ensures e.None? ==> actualToPredicted == byActual
    {
      hide Reconciler.Publish;
      actualToPredicted := reverse;
      for k := 0 to |planned|
        invariant PublishChildren(old(Model()), r, planned, created, k) == Ok(Model())
        invariant actualToPredicted == byActual
      {
        if k + 1 > |created| {
          PublishFails(old(Model()), r, planned, created, k + 1, |planned|);
          return Some(MissingCreation), actualToPredicted;
        }
        ghost var before := Model();
        e := Publish(ChildMapping(r, planned[k], created[k]), planned[k].metadata);
        if e.Some? {
          PublishFails(old(Model()), r, planned, created, k + 1, |planned|);
          return e, actualToPredicted;
        }
        PublishAdds(before, ChildMapping(r, planned[k], created[k]), planned[k].metadata);
        actualToPredicted := actualToPredicted[created[k].actual := planned[k].predictedAddress];
      }
      return None, actualToPredicted;
    }

    method PublishDeployed(r: Record) returns (e: Option<Code>, actualToPredicted: map<Address, Address>)
      requires r.context.Some? && ValidContext(r.context.value)
      modifies this`byPredicted, this`byActual, this`metadata
      ensures Followed(PublishDeployment(old(Model()), r), e, Model())
      ensures e.None? ==> actualToPredicted == byActual
    {
      hide Reconciler.Publish;
      e, actualToPredicted := None, byActual;
      var x := r.context.value;
      if x.kind == Deployment {
        var child := if x.contractKind.None? then None else Some(ChildMetadata(x.contractKind.value, x.identity.value));
        ghost var before := Model();
        e := Publish(DeploymentMapping(r), child);
        if e.None? {
          PublishAdds(before, DeploymentMapping(r), child);
          actualToPredicted := actualToPredicted[x.actualTarget := x.predictedContract.value];
        }
      }
    }

    /** The whole transaction of a reconciliation. */
    method ReconcileInChain(env: Env, hash: Hash, receipt: Receipt) returns (e: Option<Code>)
      modifies this
      ensures Followed(Reconciler.ReconcileInChain(env, old(Model()), hash, receipt), e, Model())
    {
      if !JournalValid(env, records) {
        return Some(CorruptJournal);
      }
      if hash !in records {
        return Some(UnknownTransaction);
      }
      if records[hash].state != Broadcast {
        return Some(StateMismatch);
      }
      assert ValidRecord(env, records[hash], hash);
      hide JournalValid, ReconcileRecord;
      e := ReconcileBroadcast(env, records[hash], receipt);
    }

    method ReconcileBroadcast(env: Env, r: Record, receipt: Receipt) returns (e: Option<Code>)
      requires Prepared(env, r)
      modifies this
      ensures Followed(ReconcileRecord(env, old(Model()), r, receipt), e, Model())
    {
      hide TopLevelMatches, Creations, Seeds, Matched, IndexesValid, CountersValid, CountersReserved;
      hide PublishDeployment, PublishChildren, RecordConfirmed, ValidPlan;
      var plan := r.plan.value;
      if !TopLevelMatches(r, receipt) {
        return Some(TopLevelMismatch);
      }
      var creations := ReceiptCreations(receipt, r.native.value.id);
      if creations.Err? {
        return Some(creations.error);
      }
      if |plan.attempts| != |creations.value| {
        return Some(CreateMismatch);
      }
      var verdict := RequireIndexes(byPredicted, byActual);
      IndexesMeans(Model());
      if verdict != Accepted {
        return Some(CorruptIndexes);
      }
      var seeds := SeedShown(r.context.value, plan);
      var matched := MatchAttempts(seeds, plan, creations.value);
      if !matched {
        return Some(CreateMismatch);
      }
      if !CountersValid(Model()) {
        return Some(CorruptCounters);
      }
      if !CountersReserved(Model(), plan) {
        return Some(CounterConflict);
      }
      e := PublishAndConfirm(env, r, receipt, creations.value);
    }

    lemma IndexesMeans(c: Chain)
      ensures IndexesValid(c) <==> CanonicalRecords(c.byPredicted) && Inverse(c.byPredicted, c.byActual)
    {
    }

    method PublishAndConfirm(env: Env, r: Record, receipt: Receipt, creations: seq<Creation>) returns (e: Option<Code>)
      requires Prepared(env, r)
      modifies this
      ensures Followed(PublishedAndConfirmed(env, old(Model()), r, receipt, creations), e, Model())
    {
      hide PublishDeployment, PublishChildren, RecordConfirmed, ValidPlan;
      var reverse: map<Address, Address>;
      e, reverse := PublishDeployed(r);
      if e.None? {
        e, reverse := PublishSuccesses(r, Succeeded(r.plan.value.attempts), Created(creations), reverse);
        if e.None? {
          e := RecordConfirmedInChain(env, r.hash, RewriteInternals(receipt, reverse));
        }
      }
    }
  }

  /** An operation did what its function says: the same state on success, the same error otherwise. */
  predicate Followed(spec: Result<Chain, Code>, e: Option<Code>, after: Chain) {
    match spec
    case Ok(d) => e.None? && after == d
    case Err(code) => e == Some(code)
  }

  lemma {:induction false} PublishFails(
    c: Chain, r: Record, planned: seq<Attempt>, created: seq<Creation>, k: nat, n: nat)
    requires r.plan.Some? && k <= n <= |planned| && PublishChildren(c, r, planned, created, k).Err?
    ensures PublishChildren(c, r, planned, created, n) == PublishChildren(c, r, planned, created, k)
  {
    if k < n {
      PublishFails(c, r, planned, created, k, n - 1);
    }
  }
}
