/** The durable transaction journal of rpc-src/journal.ts. */
module Journal {
  import opened Wrappers
  import opened Addresses
  import opened ChainState

  // ---- What a well-formed preparation is ----

  predicate ValidContext(x: Context) {
    && (x.contractKind.None? <==> x.identity.None?)
    && (x.kind == Deployment ==> x.to.None? && x.predictedContract.Some?)
    && (x.kind == Call ==> x.to.Some? && x.predictedContract.None?)
  }

  /** How many of the attempts a caller makes. */
  function CountBy(attempts: seq<Attempt>, caller: Address): nat {
    if attempts == [] then 0
    else
      var last := attempts[|attempts| - 1];
      CountBy(attempts[..|attempts| - 1], caller) + if last.predictedCaller == caller then 1 else 0
  }

  /** An attempt uses the nonce that its caller's earlier attempts leave, and the address that goes with it. */
  predicate PlannedAt(env: Env, plan: Plan, i: nat)
    requires i < |plan.attempts|
  {
    var a := plan.attempts[i];
    && a.index == i
    && a.predictedCaller in plan.bases
    && a.nonce == plan.bases[a.predictedCaller] + CountBy(plan.attempts[..i], a.predictedCaller)
    && a.predictedAddress == CreateAddress(env, a.predictedCaller, a.nonce)
  }

  predicate Balanced(plan: Plan) {
    forall c :: c in plan.bases ==>
      && plan.bases[c] >= 1 && c in plan.finals
      && plan.finals[c] == plan.bases[c] + CountBy(plan.attempts, c)
  }

  predicate ValidPlan(env: Env, plan: Plan) {
    && plan.bases.Keys == plan.finals.Keys
    && Balanced(plan)
    && forall i :: 0 <= i < |plan.attempts| ==> PlannedAt(env, plan, i)
  }

  predicate ValidPreparation(env: Env, x: Context, plan: Plan) {
    ValidContext(x) && ValidPlan(env, plan) && x.from == plan.sender
  }

  lemma CountBySnoc(attempts: seq<Attempt>, i: nat, c: Address)
    requires i < |attempts|
    ensures CountBy(attempts[..i + 1], c) == CountBy(attempts[..i], c) + if attempts[i].predictedCaller == c then 1 else 0
  {
    assert attempts[..i + 1][..i] == attempts[..i];
  }

  lemma {:induction false} CountByGrows(attempts: seq<Attempt>, i: nat, j: nat, c: Address)
    requires i <= j <= |attempts|
    ensures CountBy(attempts[..i], c) <= CountBy(attempts[..j], c)
    decreases j - i
  {
    if i < j {
      CountBySnoc(attempts, i, c);
      CountByGrows(attempts, i + 1, j, c);
    }
  }

  /** The replay of the counters attempt by attempt accepts exactly the valid plans. */
  method ValidatePlan(env: Env, plan: Plan) returns (ok: bool)
    ensures ok <==> ValidPlan(env, plan)
  {
    BalancedBounds(plan);
    if plan.bases.Keys != plan.finals.Keys || (exists c :: c in plan.bases && (plan.bases[c] < 1 || plan.finals[c] < 1)) {
      return false;
    }
    hide PlannedAt, Balanced;
    if exists c :: c in plan.bases && plan.finals[c] < plan.bases[c] {
      return false;
    }
    var expectedNext: map<Address, nat> := plan.bases;
    hide Balanced, NextAt;
    NextStarts(plan);
    for i := 0 to |plan.attempts|
      invariant NextAt(plan, i, expectedNext)
      invariant forall k :: 0 <= k < i ==> PlannedAt(env, plan, k)
    {
      var a := plan.attempts[i];
      PlannedMeans(env, plan, i, expectedNext);
      if a.index != i || a.predictedCaller !in expectedNext || a.nonce != expectedNext[a.predictedCaller]
         || a.predictedAddress != CreateAddress(env, a.predictedCaller, expectedNext[a.predictedCaller])
      {
        return false;
      }
      NextAdvances(plan, i, expectedNext);
      expectedNext := expectedNext[a.predictedCaller := expectedNext[a.predictedCaller] + 1];
    }
    NextEnds(plan, expectedNext);
    return forall c :: c in expectedNext ==> expectedNext[c] == plan.finals[c];
  }

  /** What the replay holds before attempt `i`. */
  predicate NextAt(plan: Plan, i: nat, next: map<Address, nat>)
    requires i <= |plan.attempts|
  {
    next.Keys == plan.bases.Keys
    && forall c :: c in plan.bases ==> next[c] == plan.bases[c] + CountBy(plan.attempts[..i], c)
  }

  lemma BalancedBounds(plan: Plan)
    ensures Balanced(plan) ==> forall c :: c in plan.bases ==> c in plan.finals && 1 <= plan.bases[c] <= plan.finals[c]
  {
  }

  lemma NextStarts(plan: Plan)
    ensures NextAt(plan, 0, plan.bases)
  {
  }

  lemma NextAdvances(plan: Plan, i: nat, next: map<Address, nat>)
    requires i < |plan.attempts| && NextAt(plan, i, next) && plan.attempts[i].predictedCaller in next
    ensures var c := plan.attempts[i].predictedCaller; NextAt(plan, i + 1, next[c := next[c] + 1])
  {
    forall c ensures CountBy(plan.attempts[..i + 1], c)
                     == CountBy(plan.attempts[..i], c) + if plan.attempts[i].predictedCaller == c then 1 else 0 {
      CountBySnoc(plan.attempts, i, c);
    }
  }

  lemma NextEnds(plan: Plan, next: map<Address, nat>)
    requires NextAt(plan, |plan.attempts|, next) && plan.bases.Keys == plan.finals.Keys
    requires forall c :: c in plan.bases ==> plan.bases[c] >= 1
    ensures next.Keys == plan.finals.Keys
    ensures (forall c :: c in next ==> next[c] == plan.finals[c]) <==> Balanced(plan)
  {
    assert plan.attempts[..|plan.attempts|] == plan.attempts;
  }

  lemma PlannedMeans(env: Env, plan: Plan, i: nat, next: map<Address, nat>)
    requires i < |plan.attempts| && NextAt(plan, i, next)
    ensures var a := plan.attempts[i];
            PlannedAt(env, plan, i) <==>
              && a.index == i && a.predictedCaller in next && a.nonce == next[a.predictedCaller]
              && a.predictedAddress == CreateAddress(env, a.predictedCaller, a.nonce)
  {
  }

  predicate Spent(plan: Plan, caller: Address, nonce: nat) {
    exists i :: 0 <= i < |plan.attempts| && plan.attempts[i].predictedCaller == caller && plan.attempts[i].nonce == nonce
  }

  /**
   * A valid plan spends each caller's interval exactly: no two attempts share a caller and a nonce,
   * every attempt lies in its caller's interval, and every nonce of an interval is some attempt's.
   */
  lemma PlanFillsIntervals(env: Env, plan: Plan)
    requires ValidPlan(env, plan)
    ensures forall i, j :: 0 <= i < j < |plan.attempts| && plan.attempts[i].predictedCaller == plan.attempts[j].predictedCaller
                           ==> plan.attempts[i].nonce < plan.attempts[j].nonce
    ensures forall i :: 0 <= i < |plan.attempts| ==>
                          var a := plan.attempts[i];
                          && a.predictedCaller in plan.bases
                          && plan.bases[a.predictedCaller] <= a.nonce < plan.finals[a.predictedCaller]
    ensures forall c, n :: c in plan.bases && plan.bases[c] <= n < plan.finals[c] ==> Spent(plan, c, n)
  {
    forall i, j | 0 <= i < j < |plan.attempts| && plan.attempts[i].predictedCaller == plan.attempts[j].predictedCaller
      ensures plan.attempts[i].nonce < plan.attempts[j].nonce
    {
      LaterNonce(env, plan, i, j);
    }
    forall i | 0 <= i < |plan.attempts|
      ensures var a := plan.attempts[i];
              && a.predictedCaller in plan.bases
              && plan.bases[a.predictedCaller] <= a.nonce < plan.finals[a.predictedCaller]
    {
      InInterval(env, plan, i);
    }
    forall c, n | c in plan.bases && plan.bases[c] <= n < plan.finals[c]
      ensures Spent(plan, c, n)
    {
      var i := NthBy(plan.attempts, c, n - plan.bases[c]);
      assert PlannedAt(env, plan, i);
    }
  }

  lemma LaterNonce(env: Env, plan: Plan, i: nat, j: nat)
    requires i < j < |plan.attempts| && PlannedAt(env, plan, i) && PlannedAt(env, plan, j)
    requires plan.attempts[i].predictedCaller == plan.attempts[j].predictedCaller
    ensures plan.attempts[i].nonce < plan.attempts[j].nonce
  {
    var c := plan.attempts[i].predictedCaller;
    CountBySnoc(plan.attempts, i, c);
    CountByGrows(plan.attempts, i + 1, j, c);
  }

  lemma InInterval(env: Env, plan: Plan, i: nat)
    requires ValidPlan(env, plan) && i < |plan.attempts|
    ensures var a := plan.attempts[i];
            && a.predictedCaller in plan.bases
            && plan.bases[a.predictedCaller] <= a.nonce < plan.finals[a.predictedCaller]
  {
    assert PlannedAt(env, plan, i);
    var c := plan.attempts[i].predictedCaller;
    CountBySnoc(plan.attempts, i, c);
    CountByGrows(plan.attempts, i + 1, |plan.attempts|, c);
    assert plan.attempts[..|plan.attempts|] == plan.attempts;
  }

  lemma {:induction false} NthBy(attempts: seq<Attempt>, c: Address, n: nat) returns (i: nat)
    requires n < CountBy(attempts, c)
    ensures i < |attempts| && attempts[i].predictedCaller == c && CountBy(attempts[..i], c) == n
  {
    var most := attempts[..|attempts| - 1];
    if n < CountBy(most, c) {
      i := NthBy(most, c, n);
      assert attempts[..i] == most[..i];
    } else {
      i := |attempts| - 1;
    }
  }

  // ---- What a well-formed record is ----

  predicate Prepared(env: Env, r: Record) {
    && r.native.Some? && r.context.Some? && r.plan.Some?
    && ValidPreparation(env, r.context.value, r.plan.value)
  }

  predicate Unprepared(r: Record) {
    r.native.None? && r.context.None? && r.plan.None?
  }

  /** The fields a record must have and must not have in its state. */
  predicate ValidRecord(env: Env, r: Record, key: Hash) {
    && r.hash == key && Keccak(env, r.source) == key
    && match r.state
       case Received => r.owner.Some? && Unprepared(r) && r.receipt.None? && r.failure.None?
       case NativeBuilt => r.owner.None? && Prepared(env, r) && r.receipt.None? && r.failure.None?
       case Broadcast => r.owner.None? && Prepared(env, r) && r.receipt.None? && r.failure.None?
       case Confirmed => r.owner.None? && Prepared(env, r) && r.receipt.Some? && r.failure.None?
       case Failed => r.owner.None? && r.failure.Some? && ((Unprepared(r) && r.receipt.None?) || Prepared(env, r))
  }

  predicate JournalValid(env: Env, records: map<Hash, Record>) {
    forall h :: h in records ==> ValidRecord(env, records[h], h)
  }

  // ---- The transitions ----

  /** A record in this condition keeps every other one from preparing with its sender and nonce. */
  predicate Occupies(r: Record) {
    r.context.Some? && (r.state in {NativeBuilt, Broadcast, Confirmed} || (r.state == Failed && r.receipt.Some?))
  }

  predicate OccupiesNonce(r: Record, from: Address, nonce: nat) {
    Occupies(r) && r.context.value.from == from && r.context.value.nonce == nonce
  }

  predicate NonceTaken(records: map<Hash, Record>, except: Hash, from: Address, nonce: nat) {
    exists h :: h in records && h != except && OccupiesNonce(records[h], from, nonce)
  }

  function Put(c: Chain, r: Record): Chain {
    c.(records := c.records[r.hash := r])
  }

  function NewRecord(hash: Hash, source: Raw, owner: Owner): Record {
    Record(hash, source, Received, Some(owner), None, None, None, None, None)
  }

  /** The chain after receiving a source transaction, and whether the caller must build it. */
  function Receive(env: Env, c: Chain, owner: Owner, source: Raw): Result<(Chain, bool), Code> {
    var hash := Keccak(env, source);
    if !JournalValid(env, c.records) then Err(CorruptJournal)
    else if hash in c.records then
      if c.records[hash].source != source then Err(SourceConflict) else Ok((c, false))
    else Ok((Put(c, NewRecord(hash, source, owner)), true))
  }

  /** The compare-and-swap that hands an interrupted build to the next process. */
  function RecoverReceived(env: Env, c: Chain, owner: Owner, hash: Hash, expected: Owner): Result<Chain, Code> {
    if !JournalValid(env, c.records) then Err(CorruptJournal)
    else if hash !in c.records then Err(UnknownTransaction)
    else
      var r := c.records[hash];
      if r.state != Received then Err(IllegalTransition)
      else if expected == owner then Err(RecoveryConflict)
      else if r.owner != Some(expected) then Err(RecoveryConflict)
      else Ok(Put(c, r.(owner := Some(owner))))
  }

  function RecordNativeBuilt(env: Env, c: Chain, owner: Owner, hash: Hash, native: Native, p: Preparation)
    : Result<Chain, Code>
  {
    if !ValidPreparation(env, p.context, p.plan) then Err(InvalidPreparation)
    else if !JournalValid(env, c.records) then Err(CorruptJournal)
    else if hash !in c.records then Err(UnknownTransaction)
    else
      var r := c.records[hash];
      if r.state == NativeBuilt then
        if r.native != Some(native) || r.context != Some(p.context) || r.plan != Some(p.plan) then Err(RetryConflict)
        else Ok(c)
      else if r.state != Received then Err(IllegalTransition)
      else if r.owner != Some(owner) then Err(ClaimOwned)
      else if NonceTaken(c.records, hash, p.context.from, p.context.nonce) then Err(NonceInFlight)
      else Ok(Put(c, Record(r.hash, r.source, NativeBuilt, None, Some(native), Some(p.context), Some(p.plan), None, None)))
  }

  function RecordBroadcast(env: Env, c: Chain, hash: Hash): Result<Chain, Code> {
    if !JournalValid(env, c.records) then Err(CorruptJournal)
    else if hash !in c.records then Err(UnknownTransaction)
    else
      var r := c.records[hash];
      if r.state == Broadcast then Ok(c)
      else if r.state != NativeBuilt then Err(IllegalTransition)
      else Ok(Put(c, r.(state := Broadcast)))
  }

  function RecordConfirmed(env: Env, c: Chain, hash: Hash, receipt: Receipt): Result<Chain, Code> {
    if !JournalValid(env, c.records) then Err(CorruptJournal)
    else if hash !in c.records then Err(UnknownTransaction)
    else
      var r := c.records[hash];
      if r.state == Confirmed then
        if r.receipt != Some(receipt) then Err(RetryConflict) else Ok(c)
      else if r.state != Broadcast then Err(IllegalTransition)
      else Ok(Put(c, r.(state := Confirmed, receipt := Some(receipt))))
  }

  /** Failure after the receipt: the receipt stays, and with it the nonce. */
  function RecordRetainedFailure(env: Env, c: Chain, hash: Hash, failure: Code, receipt: Receipt): Result<Chain, Code> {
    if !JournalValid(env, c.records) then Err(CorruptJournal)
    else if hash !in c.records then Err(UnknownTransaction)
    else
      var r := c.records[hash];
      if r.state != Broadcast then Err(IllegalTransition)
      else Ok(Put(c, r.(state := Failed, failure := Some(failure), receipt := Some(receipt))))
  }

  function RecordFailed(env: Env, c: Chain, owner: Owner, hash: Hash, failure: Code): Result<Chain, Code> {
    if !JournalValid(env, c.records) then Err(CorruptJournal)
    else if hash !in c.records then Err(UnknownTransaction)
    else
      var r := c.records[hash];
      if r.state == Failed then
        if r.failure != Some(failure) then Err(FailureConflict) else Ok(c)
      else if r.state == Confirmed then Err(IllegalTransition)
      else if r.state == Received && r.owner != Some(owner) then Err(ClaimOwned)
      else Ok(Put(c, Record(r.hash, r.source, Failed, None, r.native, r.context, r.plan, None, Some(failure))))
  }

  // ---- What every transition keeps ----

  /** No two records occupy the same sender and nonce. */
  predicate OneOccupant(records: map<Hash, Record>) {
    forall h, k | h in records && k in records && Occupies(records[h]) && Occupies(records[k]) ::
      OccupiesNonce(records[h], records[k].context.value.from, records[k].context.value.nonce) ==> h == k
  }

  datatype JournalCall =
    | ReceiveCall(source: Raw)
    | RecoverCall(hash: Hash, expected: Owner)
    | BuiltCall(hash: Hash, native: Native, preparation: Preparation)
    | BroadcastCall(hash: Hash)
    | ConfirmedCall(hash: Hash, receipt: Receipt)
    | RetainedCall(hash: Hash, failure: Code, receipt: Receipt)
    | FailedCall(hash: Hash, failure: Code)

  function Perform(env: Env, c: Chain, owner: Owner, call: JournalCall): Result<Chain, Code> {
    match call
    case ReceiveCall(s) => (match Receive(env, c, owner, s) case Ok(p) => Ok(p.0) case Err(e) => Err(e))
    case RecoverCall(h, x) => RecoverReceived(env, c, owner, h, x)
    case BuiltCall(h, n, p) => RecordNativeBuilt(env, c, owner, h, n, p)
    case BroadcastCall(h) => RecordBroadcast(env, c, h)
    case ConfirmedCall(h, r) => RecordConfirmed(env, c, h, r)
    case RetainedCall(h, f, r) => RecordRetainedFailure(env, c, h, f, r)
    case FailedCall(h, f) => RecordFailed(env, c, owner, h, f)
  }

  function Target(env: Env, call: JournalCall): Hash {
    match call
    case ReceiveCall(s) => Keccak(env, s)
    case RecoverCall(h, _) => h
    case BuiltCall(h, _, _) => h
    case BroadcastCall(h) => h
    case ConfirmedCall(h, _) => h
    case RetainedCall(h, _, _) => h
    case FailedCall(h, _) => h
  }

  /** How a record may change: the order of the states, and what never changes once it is there. */
  predicate Forward(r: Record, s: Record) {
    && s.hash == r.hash && s.source == r.source
    && (r.state == Received ==> s.state in {Received, NativeBuilt, Failed})
    && (r.state == NativeBuilt ==> s.state in {NativeBuilt, Broadcast, Failed})
    && (r.state == Broadcast ==> s.state in {Broadcast, Confirmed, Failed})
    && (r.state in {Confirmed, Failed} ==> s == r)
    && (r.state != Received ==> s.native == r.native && s.context == r.context && s.plan == r.plan)
    && (r.state == Received && s.state == Failed ==> Unprepared(s) && s.receipt.None?)
  }

  /** The one record a call writes, when it writes. */
  predicate WritesOne(env: Env, c: Chain, d: Chain, h: Hash) {
    && h in d.records
    && d == Put(c, d.records[h])
    && ValidRecord(env, d.records[h], h)
    && (h in c.records ==> Forward(c.records[h], d.records[h]))
  }

  /** The record's nonce is held afterwards exactly if it was held before. */
  predicate SameOccupation(c: Chain, d: Chain, h: Hash)
    requires h in d.records
  {
    if h in c.records then d.records[h].context == c.records[h].context && (Occupies(d.records[h]) <==> Occupies(c.records[h]))
    else d.records[h].state == Received && d.records[h].context.None?
  }

  lemma NothingWritten(env: Env, c: Chain, h: Hash)
    requires JournalValid(env, c.records) && h in c.records
    ensures WritesOne(env, c, c, h) && SameOccupation(c, c, h)
  {
    assert ValidRecord(env, c.records[h], h);
    assert c.records[h := c.records[h]] == c.records;
    hide JournalValid, ValidRecord, Occupies;
  }

  lemma RecordAt(env: Env, c: Chain, h: Hash)
    requires JournalValid(env, c.records) && h in c.records
    ensures ValidRecord(env, c.records[h], h)
  {
  }

  lemma ReceiveWrites(env: Env, c: Chain, owner: Owner, source: Raw)
    requires Receive(env, c, owner, source).Ok?
    ensures var d, h := Receive(env, c, owner, source).value.0, Keccak(env, source);
            JournalValid(env, c.records) && WritesOne(env, c, d, h) && SameOccupation(c, d, h)
  {
    var h := Keccak(env, source);
    hide JournalValid, ValidPreparation;
    if h in c.records {
      NothingWritten(env, c, h);
    }
  }

  lemma RecoverWrites(env: Env, c: Chain, owner: Owner, h: Hash, expected: Owner)
    requires RecoverReceived(env, c, owner, h, expected).Ok?
    ensures var d := RecoverReceived(env, c, owner, h, expected).value;
            JournalValid(env, c.records) && WritesOne(env, c, d, h) && SameOccupation(c, d, h)
  {
    hide JournalValid, ValidPreparation;
    RecordAt(env, c, h);
  }

  /** A first preparation takes a nonce no other record holds; a repeated one writes nothing new. */
  lemma BuiltWrites(env: Env, c: Chain, owner: Owner, h: Hash, native: Native, p: Preparation)
    requires RecordNativeBuilt(env, c, owner, h, native, p).Ok?
    ensures var d := RecordNativeBuilt(env, c, owner, h, native, p).value;
            && JournalValid(env, c.records) && WritesOne(env, c, d, h) && h in c.records
            && (SameOccupation(c, d, h)
                || (d.records[h].context == Some(p.context) && !NonceTaken(c.records, h, p.context.from, p.context.nonce)))
  {
    hide JournalValid, ValidPreparation, NonceTaken;
    if c.records[h].state == NativeBuilt {
      NothingWritten(env, c, h);
      hide WritesOne, SameOccupation;
    } else {
      RecordAt(env, c, h);
    }
  }

  lemma BroadcastWrites(env: Env, c: Chain, h: Hash)
    requires RecordBroadcast(env, c, h).Ok?
    ensures var d := RecordBroadcast(env, c, h).value;
            JournalValid(env, c.records) && WritesOne(env, c, d, h) && SameOccupation(c, d, h)
  {
    hide JournalValid, ValidPreparation;
    if c.records[h].state == Broadcast {
      NothingWritten(env, c, h);
      hide WritesOne, SameOccupation;
    } else {
      RecordAt(env, c, h);
    }
  }

  lemma ConfirmedWrites(env: Env, c: Chain, h: Hash, receipt: Receipt)
    requires RecordConfirmed(env, c, h, receipt).Ok?
    ensures var d := RecordConfirmed(env, c, h, receipt).value;
            JournalValid(env, c.records) && WritesOne(env, c, d, h) && SameOccupation(c, d, h)
  {
    hide JournalValid, ValidPreparation;
    if c.records[h].state == Confirmed {
      NothingWritten(env, c, h);
      hide WritesOne, SameOccupation;
    } else {
      RecordAt(env, c, h);
    }
  }

  lemma RetainedWrites(env: Env, c: Chain, h: Hash, failure: Code, receipt: Receipt)
    requires RecordRetainedFailure(env, c, h, failure, receipt).Ok?
    ensures var d := RecordRetainedFailure(env, c, h, failure, receipt).value;
            JournalValid(env, c.records) && WritesOne(env, c, d, h) && SameOccupation(c, d, h)
  {
    hide JournalValid, ValidPreparation;
    RecordAt(env, c, h);
  }

  /** The one transition that can free a nonce, and only when the record was already past received. */
  lemma FailedWrites(env: Env, c: Chain, owner: Owner, h: Hash, failure: Code)
    requires RecordFailed(env, c, owner, h, failure).Ok?
    ensures var d := RecordFailed(env, c, owner, h, failure).value;
            && JournalValid(env, c.records) && WritesOne(env, c, d, h) && h in c.records
            && d.records[h].context == c.records[h].context
            && (Occupies(d.records[h]) ==> Occupies(c.records[h]))
            && (c.records[h].state == Received ==> SameOccupation(c, d, h))
  {
    hide JournalValid, ValidPreparation;
    if c.records[h].state == Failed {
      NothingWritten(env, c, h);
    } else {
      RecordAt(env, c, h);
    }
  }

  lemma CallWritesOne(env: Env, c: Chain, owner: Owner, call: JournalCall)
    requires Perform(env, c, owner, call).Ok?
    ensures JournalValid(env, c.records)
    ensures WritesOne(env, c, Perform(env, c, owner, call).value, Target(env, call))
  {
    hide Receive, RecoverReceived, RecordNativeBuilt, RecordBroadcast, RecordConfirmed, RecordRetainedFailure, RecordFailed;
    hide JournalValid, WritesOne, NonceTaken, SameOccupation, Occupies;
    match call
    case ReceiveCall(s) => ReceiveWrites(env, c, owner, s);
    case RecoverCall(h, x) => RecoverWrites(env, c, owner, h, x);
    case BuiltCall(h, n, p) => BuiltWrites(env, c, owner, h, n, p);
    case BroadcastCall(h) => BroadcastWrites(env, c, h);
    case ConfirmedCall(h, r) => ConfirmedWrites(env, c, h, r);
    case RetainedCall(h, f, r) => RetainedWrites(env, c, h, f, r);
    case FailedCall(h, f) => FailedWrites(env, c, owner, h, f);
  }

  /** Every journal a call writes is accepted by the checks of the next read. */
  lemma CallKeepsJournal(env: Env, c: Chain, owner: Owner, call: JournalCall)
    requires Perform(env, c, owner, call).Ok?
    ensures JournalValid(env, c.records) && JournalValid(env, Perform(env, c, owner, call).value.records)
  {
    CallWritesOne(env, c, owner, call);
    hide Perform, ValidRecord, Forward;
  }

  lemma CallKeepsOneOccupant(env: Env, c: Chain, owner: Owner, call: JournalCall)
    requires Perform(env, c, owner, call).Ok? && OneOccupant(c.records)
    ensures OneOccupant(Perform(env, c, owner, call).value.records)
  {
    CallWritesOne(env, c, owner, call);
    CallOccupies(env, c, owner, call);
    hide Perform, JournalValid, ValidRecord, Forward, Occupies;
  }

  /** A call makes a record occupy a nonce only when no other record does. */
  lemma CallOccupies(env: Env, c: Chain, owner: Owner, call: JournalCall)
    requires Perform(env, c, owner, call).Ok?
    ensures var h := Target(env, call);
            var d := Perform(env, c, owner, call).value;
            h in d.records && Occupies(d.records[h]) ==>
              var x := d.records[h].context.value;
              || (h in c.records && Occupies(c.records[h]) && d.records[h].context == c.records[h].context)
              || !NonceTaken(c.records, h, x.from, x.nonce)
  {
    hide Receive, RecoverReceived, RecordNativeBuilt, RecordBroadcast, RecordConfirmed, RecordRetainedFailure, RecordFailed;
    hide JournalValid, NonceTaken, ValidRecord, Forward;
    match call
    case ReceiveCall(s) => ReceiveWrites(env, c, owner, s);
    case RecoverCall(h, x) => RecoverWrites(env, c, owner, h, x);
    case BuiltCall(h, n, p) => BuiltWrites(env, c, owner, h, n, p);
    case BroadcastCall(h) => BroadcastWrites(env, c, h);
    case ConfirmedCall(h, r) => ConfirmedWrites(env, c, h, r);
    case RetainedCall(h, f, r) => RetainedWrites(env, c, h, f, r);
    case FailedCall(h, f) => FailedWrites(env, c, owner, h, f);
  }

  // ---- When a call is accepted, and exactly what it leaves ----

  /** The record holds this preparation, word for word. */
  predicate HoldsPreparation(r: Record, native: Native, p: Preparation) {
    r.native == Some(native) && r.context == Some(p.context) && r.plan == Some(p.plan)
  }

  predicate KeepsPreparation(r: Record, s: Record) {
    s.native == r.native && s.context == r.context && s.plan == r.plan
  }

  /** What a call demands of the journal it finds; only a receipt may find no record. */
  predicate Accepts(env: Env, records: map<Hash, Record>, owner: Owner, call: JournalCall) {
    var h := Target(env, call);
    && JournalValid(env, records)
    && (h !in records ==> call.ReceiveCall?)
    && (h in records ==>
          var r := records[h];
          match call
          case ReceiveCall(source) => r.source == source
          case RecoverCall(_, expected) => r.state == Received && r.owner == Some(expected) && expected != owner
          case BuiltCall(_, native, p) =>
            if r.state == NativeBuilt then HoldsPreparation(r, native, p)
            else && r.state == Received && r.owner == Some(owner) && ValidPreparation(env, p.context, p.plan)
                 && !NonceTaken(records, h, p.context.from, p.context.nonce)
          case BroadcastCall(_) => r.state in {NativeBuilt, Broadcast}
          case ConfirmedCall(_, receipt) => r.state == Broadcast || (r.state == Confirmed && r.receipt == Some(receipt))
          case RetainedCall(_, _, _) => r.state == Broadcast
          case FailedCall(_, failure) =>
            || r.state in {NativeBuilt, Broadcast} || (r.state == Received && r.owner == Some(owner))
            || (r.state == Failed && r.failure == Some(failure)))
  }

  /** The record an accepted call leaves for the one it found: the state it is in and what is stored with it. */
  predicate Leaves(owner: Owner, call: JournalCall, found: Option<Record>, s: Record) {
    if found.None? then call.ReceiveCall? && s.state == Received && s.source == call.source && s.owner == Some(owner)
    else
      var r := found.value;
      match call
      case ReceiveCall(_) => s == r
      case RecoverCall(_, _) => s.state == Received && s.owner == Some(owner)
      case BuiltCall(_, native, p) => s.state == NativeBuilt && HoldsPreparation(s, native, p)
      case BroadcastCall(_) => s.state == Broadcast && KeepsPreparation(r, s)
      case ConfirmedCall(_, receipt) => s.state == Confirmed && s.receipt == Some(receipt) && KeepsPreparation(r, s)
      case RetainedCall(_, failure, receipt) =>
        s.state == Failed && s.failure == Some(failure) && s.receipt == Some(receipt) && KeepsPreparation(r, s)
      case FailedCall(_, failure) =>
        && s.state == Failed && s.failure == Some(failure) && KeepsPreparation(r, s)
        && (r.state != Failed ==> s.receipt.None?)
  }

  function RecordOf(records: map<Hash, Record>, h: Hash): Option<Record> {
    if h in records then Some(records[h]) else None
  }

  /**
   * A call is accepted exactly when the journal is well-formed and the record is in a state the call
   * starts from, or already is what the call would make of it; it then leaves that record and no other
   * change.
   */
  lemma CallExact(env: Env, c: Chain, owner: Owner, call: JournalCall)
    ensures Perform(env, c, owner, call).Ok? <==> Accepts(env, c.records, owner, call)
    ensures Perform(env, c, owner, call).Ok? ==>
              var h, d := Target(env, call), Perform(env, c, owner, call).value;
              h in d.records && d == Put(c, d.records[h]) && Leaves(owner, call, RecordOf(c.records, h), d.records[h])
  {
    CallAccepted(env, c, owner, call);
    if Perform(env, c, owner, call).Ok? {
      CallLeaves(env, c, owner, call);
    }
    hide Perform, Accepts, Leaves;
  }

  lemma CallAccepted(env: Env, c: Chain, owner: Owner, call: JournalCall)
    ensures Perform(env, c, owner, call).Ok? <==> Accepts(env, c.records, owner, call)
  {
    if JournalValid(env, c.records) && Target(env, call) in c.records {
      RecordAt(env, c, Target(env, call));
    }
    hide JournalValid, ValidPreparation, NonceTaken;
  }

  lemma CallLeaves(env: Env, c: Chain, owner: Owner, call: JournalCall)
    requires Perform(env, c, owner, call).Ok?
    ensures var h, d := Target(env, call), Perform(env, c, owner, call).value;
            h in d.records && d == Put(c, d.records[h]) && Leaves(owner, call, RecordOf(c.records, h), d.records[h])
  {
    hide JournalValid, ValidPreparation, NonceTaken, ValidRecord;
    CallPuts(env, c, owner, call);
    if Target(env, call) in c.records {
      KeyedRecord(env, c, Target(env, call));
    }
  }

  lemma KeyedRecord(env: Env, c: Chain, h: Hash)
    requires JournalValid(env, c.records) && h in c.records
    ensures c.records[h].hash == h && (c.records[h].state != Failed ==> c.records[h].failure.None?)
  {
    assert ValidRecord(env, c.records[h], h);
    hide JournalValid, ValidPreparation;
  }

  lemma CallPuts(env: Env, c: Chain, owner: Owner, call: JournalCall)
    requires Perform(env, c, owner, call).Ok?
    ensures JournalValid(env, c.records)
    ensures var h, d := Target(env, call), Perform(env, c, owner, call).value; h in d.records && d == Put(c, d.records[h])
  {
    CallWritesOne(env, c, owner, call);
    hide Perform, ValidRecord, Forward, JournalValid;
  }

  /** And there is only one such record: the state, the stored fields and the record checks leave no choice. */
  lemma LeftRecordUnique(env: Env, owner: Owner, call: JournalCall, found: Option<Record>, h: Hash, s: Record, t: Record)
    requires found.Some? ==> Forward(found.value, s) && Forward(found.value, t)
    requires Leaves(owner, call, found, s) && Leaves(owner, call, found, t)
    requires ValidRecord(env, s, h) && ValidRecord(env, t, h)
    ensures s == t
  {
    hide ValidPreparation;
  }

  /** Why a call is refused: each error has its own reason. */
  predicate Refuses(env: Env, records: map<Hash, Record>, owner: Owner, call: JournalCall, e: Code) {
    var h := Target(env, call);
    match e
    case CorruptJournal => !JournalValid(env, records)
    case UnknownTransaction => h !in records
    case InvalidPreparation => call.BuiltCall? && !ValidPreparation(env, call.preparation.context, call.preparation.plan)
    case SourceConflict => h in records && call.ReceiveCall? && records[h].source != call.source
    case ClaimOwned => InClaim(records, h) && (call.BuiltCall? || call.FailedCall?) && records[h].owner != Some(owner)
    case RecoveryConflict =>
      InClaim(records, h) && call.RecoverCall? && (records[h].owner != Some(call.expected) || call.expected == owner)
    case NonceInFlight =>
      && call.BuiltCall? && InClaim(records, h)
      && NonceTaken(records, h, call.preparation.context.from, call.preparation.context.nonce)
    case RetryConflict =>
      && h in records
      && ((call.BuiltCall? && records[h].state == NativeBuilt && !HoldsPreparation(records[h], call.native, call.preparation))
          || (call.ConfirmedCall? && records[h].state == Confirmed && records[h].receipt != Some(call.receipt)))
    case FailureConflict => h in records && call.FailedCall? && records[h].state == Failed && records[h].failure != Some(call.failure)
    case IllegalTransition => h in records && records[h].state !in StartsFrom(call)
    case _ => false
  }

  predicate InClaim(records: map<Hash, Record>, h: Hash) {
    h in records && records[h].state == Received
  }

  /** The states a call can do anything with. */
  function StartsFrom(call: JournalCall): set<State> {
    match call
    case ReceiveCall(_) => {Received, NativeBuilt, Broadcast, Confirmed, Failed}
    case RecoverCall(_, _) => {Received}
    case BuiltCall(_, _, _) => {Received, NativeBuilt}
    case BroadcastCall(_) => {NativeBuilt, Broadcast}
    case ConfirmedCall(_, _) => {Broadcast, Confirmed}
    case RetainedCall(_, _, _) => {Broadcast}
    case FailedCall(_, _) => {Received, NativeBuilt, Broadcast, Failed}
  }

  lemma CallRefused(env: Env, c: Chain, owner: Owner, call: JournalCall)
    requires Perform(env, c, owner, call).Err?
    ensures Refuses(env, c.records, owner, call, Perform(env, c, owner, call).error)
  {
    hide JournalValid, ValidPreparation, NonceTaken;
  }

  // ---- What one operation undoes or excludes for the next ----

  /** A source is built once: receiving it again changes nothing and hands out no build. */
  lemma ReceivedOnce(env: Env, c: Chain, owner: Owner, other: Owner, source: Raw)
    requires Receive(env, c, owner, source).Ok?
    ensures var d := Receive(env, c, owner, source).value;
            && Receive(env, d.0, other, source) == Ok((d.0, false))
            && (d.1 <==> Keccak(env, source) !in c.records)
            && (d.1 ==> d.0.records[Keccak(env, source)] == NewRecord(Keccak(env, source), source, owner))
  {
    ReceiveWrites(env, c, owner, source);
    var d := Receive(env, c, owner, source).value.0;
    hide ValidRecord, Forward, SameOccupation;
    assert JournalValid(env, d.records);
    hide JournalValid;
  }

  /**
   * Recovery moves the build claim: from then on the process it was taken from can neither prepare the
   * transaction nor fail it, and the claim cannot be taken from it a second time.
   */
  lemma RecoveryTransfersClaim(
    env: Env, c: Chain, owner: Owner, hash: Hash, expected: Owner, native: Native, p: Preparation, failure: Code, third: Owner)
    requires RecoverReceived(env, c, owner, hash, expected).Ok? && ValidPreparation(env, p.context, p.plan)
    ensures var d := RecoverReceived(env, c, owner, hash, expected).value;
            && RecordNativeBuilt(env, d, expected, hash, native, p) == Err(ClaimOwned)
            && RecordFailed(env, d, expected, hash, failure) == Err(ClaimOwned)
            && RecoverReceived(env, d, third, hash, expected) == Err(RecoveryConflict)
            && RecordFailed(env, d, owner, hash, failure).Ok?
  {
    RecoverWrites(env, c, owner, hash, expected);
    var d := RecoverReceived(env, c, owner, hash, expected).value;
    RecordAt(env, c, hash);
    assert JournalValid(env, d.records) by {
      hide ValidRecord, Forward, SameOccupation;
    }
    hide JournalValid, ValidPreparation, NonceTaken;
  }

  /** A finished record is final: whatever is still accepted for it changes nothing. */
  lemma FinishedIsFinal(env: Env, c: Chain, owner: Owner, hash: Hash, call: JournalCall)
    requires JournalValid(env, c.records) && hash in c.records && c.records[hash].state in {Confirmed, Failed}
    requires Target(env, call) == hash && Perform(env, c, owner, call).Ok?
    ensures Perform(env, c, owner, call).value == c
  {
    CallWritesOne(env, c, owner, call);
    hide Perform, JournalValid, ValidRecord;
    assert c.records[hash := c.records[hash]] == c.records;
  }
}
