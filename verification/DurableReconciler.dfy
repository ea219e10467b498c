/**
 * `recordPreparedNative` and `reconcile` of rpc-src/create-reconciler.ts on the durable store, with
 * every lock loss, file-system error and crash the environment may bring to either of their writes.
 */
module DurableReconciler {
  import opened Wrappers
  import opened Addresses
  import opened ChainState
  import opened Journal
  import opened Planner
  import opened Reconciler
  import opened Store
  import opened ChainDraft
  import Protocol
  import Runs

  /** What the environment does to one commit. */
  datatype Fate = Fate(lockHeld: bool, script: Script)

  /** The chain one transaction leaves, and the error its caller catches. */
  function Transacted(c: Chain, spec: Result<Chain, Code>, commit: Commit): Outcome {
    match spec
    case Err(e) => Outcome(c, Some(e))
    case Ok(d) => Outcome(if commit.NotCommitted? then c else d, ErrorOf(commit))
  }

  /** A transaction made to record a failure: its caller sees that failure, or the transaction's own error. */
  function Failing(o: Outcome, code: Code): Outcome {
    if o.error.None? then Outcome(o.chain, Some(code)) else o
  }

  function Retained(env: Env, c: Chain, hash: Hash, code: Code, receipt: Receipt, commit: Commit): Outcome {
    Failing(Transacted(c, RecordRetainedFailure(env, c, hash, code, receipt), commit), code)
  }

  /** Reconcile with the outcome of both commits spelled out; `Reconcile` is the case where both succeed. */
  function ReconcileDurably(env: Env, c: Chain, hash: Hash, receipt: Receipt, first: Commit, second: Commit): Outcome {
    if !JournalValid(env, c.records) then Outcome(c, Some(CorruptJournal))
    else if hash in c.records && c.records[hash].state == Confirmed then Outcome(c, None)
    else if hash in c.records && c.records[hash].state == Failed then Outcome(c, c.records[hash].failure)
    else Concluded(env, c, hash, receipt, first, second)
  }

  function Concluded(env: Env, c: Chain, hash: Hash, receipt: Receipt, first: Commit, second: Commit): Outcome {
      match ReconcileInChain(env, c, hash, receipt)
      case Err(e) => Retained(env, c, hash, e, receipt, second)
      case Ok(d) =>
        match first
        case Committed => Outcome(d, None)
        case CommittedWithError(e) => Retained(env, d, hash, e, receipt, second)
        case NotCommitted(e) => Retained(env, c, hash, e, receipt, second)
  }

  /** The chains either transaction of a reconciliation ever tries to write. */
  function Attempted(env: Env, c: Chain, hash: Hash, receipt: Receipt, first: Commit): set<Chain> {
    ConfirmAttempt(env, c, hash, receipt)
    + match ReconcileInChain(env, c, hash, receipt)
      case Err(e) => RetainAttempt(env, c, hash, e, receipt)
      case Ok(d) =>
        match first
        case Committed => {}
        case CommittedWithError(e) => RetainAttempt(env, d, hash, e, receipt)
        case NotCommitted(e) => RetainAttempt(env, c, hash, e, receipt)
  }

  function ConfirmAttempt(env: Env, c: Chain, hash: Hash, receipt: Receipt): set<Chain> {
    match ReconcileInChain(env, c, hash, receipt)
    case Ok(d) => {d}
    case Err(e) => {}
  }

  function RetainAttempt(env: Env, c: Chain, hash: Hash, code: Code, receipt: Receipt): set<Chain> {
    match RecordRetainedFailure(env, c, hash, code, receipt)
    case Ok(d) => {d}
    case Err(e) => {}
  }

  // ---- Preparation ----

  /** A record still received after a caught error becomes a failure, if that write lands. */
  function Rejected(env: Env, c: Chain, owner: Owner, hash: Hash, code: Code, commit: Commit): Outcome {
    if !JournalValid(env, c.records) then Outcome(c, Some(CorruptJournal))
    else if hash in c.records && c.records[hash].state == Received then
      Failing(Transacted(c, RecordFailed(env, c, owner, hash, code), commit), code)
    else Outcome(c, Some(code))
  }

  function PrepareDurably(
    env: Env, c: Chain, owner: Owner, hash: Hash, native: Native, sim: Simulation, x: Context, first: Commit, second: Commit)
    : Outcome
  {
    var o := Transacted(c, PrepareInChain(env, c, owner, hash, native, sim, x), first);
    if o.error.None? then o else Rejected(env, o.chain, owner, hash, o.error.value, second)
  }

  function PrepareAttempt(env: Env, c: Chain, owner: Owner, hash: Hash, native: Native, sim: Simulation, x: Context): set<Chain> {
    match PrepareInChain(env, c, owner, hash, native, sim, x)
    case Ok(d) => {d}
    case Err(e) => {}
  }

  function FailAttempt(env: Env, c: Chain, owner: Owner, hash: Hash, code: Code): set<Chain> {
    match RecordFailed(env, c, owner, hash, code)
    case Ok(d) => {d}
    case Err(e) => {}
  }

  function RejectAttempt(env: Env, c: Chain, owner: Owner, hash: Hash, code: Code): set<Chain> {
    if JournalValid(env, c.records) && InState(c, hash, Received) then FailAttempt(env, c, owner, hash, code) else {}
  }

  /** The chains either transaction of a preparation ever tries to write. */
  function PrepareAttempted(
    env: Env, c: Chain, owner: Owner, hash: Hash, native: Native, sim: Simulation, x: Context, first: Commit): set<Chain>
  {
    var o := Transacted(c, PrepareInChain(env, c, owner, hash, native, sim, x), first);
    PrepareAttempt(env, c, owner, hash, native, sim, x)
    + if o.error.None? then {} else RejectAttempt(env, o.chain, owner, hash, o.error.value)
  }

  class CreateReconciler {
    const store: JsonStore
    const chainIdentity: ChainId
    const owner: Owner

    constructor (store: JsonStore, chainIdentity: ChainId, owner: Owner)
      ensures this.store == store && this.chainIdentity == chainIdentity && this.owner == owner
    {
      this.store, this.chainIdentity, this.owner := store, chainIdentity, owner;
    }

    function Chain(): Chain
      reads store
      requires store.Valid()
    {
      ChainOf(store.Current(), chainIdentity)
    }

    /** The states of the file in which this chain is one of these and every other chain is untouched. */
    function With(state: FileState, chains: set<Chain>): set<FileState> {
      set c | c in chains :: state[chainIdentity := c]
    }

    /** All the disks between two moments can only come back as what there was before or with one of these chains. */
    ghost predicate Passage(
      before: seq<Disk>, first: Disk, state: FileState, after: seq<Disk>, last: Disk, chains: set<Chain>)
      requires CrashSafe(first) && CrashSafe(last)
    {
      var states := AfterCrash(first) + With(state, chains);
      && |before| <= |after| && after[..|before|] == before
      && Passes(after[|before|..], states) && AfterCrash(last) <= states
    }

    twostate predicate Advances(chains: set<Chain>)
      reads store
      requires old(store.Valid()) && store.Valid()
    {
      Passage(old(store.trace), old(store.CurrentDisk()), old(store.Current()), store.trace, store.CurrentDisk(), chains)
    }

    lemma PassageInTurn(
      before: seq<Disk>, first: Disk, state: FileState, few: set<Chain>,
      between: seq<Disk>, middle: Disk, next: FileState, many: set<Chain>, after: seq<Disk>, last: Disk)
      requires CrashSafe(first) && CrashSafe(middle) && CrashSafe(last) && Rewrites(state, next)
      requires Passage(before, first, state, between, middle, few) && Passage(between, middle, next, after, last, many)
      ensures Passage(before, first, state, after, last, few + many)
    {
      var states := AfterCrash(first) + With(state, few + many);
      assert With(next, many) == With(state, many) by {
        WithRewritten(state, next, many);
      }
      assert With(state, few + many) == With(state, few) + With(state, many);
      hide With, Rewrites, AfterCrash, CrashSafe;
      PassesMore(after[|between|..], AfterCrash(middle) + With(next, many), states);
      PassesInTurn(before, between, after, AfterCrash(first) + With(state, few), states);
    }

    lemma PassesMore(disks: seq<Disk>, few: set<FileState>, many: set<FileState>)
      requires Passes(disks, few) && few <= many
      ensures Passes(disks, many)
    {
    }

    lemma WithRewritten(state: FileState, next: FileState, chains: set<Chain>)
      requires Rewrites(state, next)
      ensures With(next, chains) == With(state, chains)
    {
      assert forall c :: c in chains ==> next[chainIdentity := c] == state[chainIdentity := c];
    }

    predicate Readable()
      reads store
    {
      store.target.Some? || store.createIfMissing
    }

    lemma WithOne(state: FileState, c: Chain)
      ensures With(state, {c}) == {state[chainIdentity := c]} && With(state, {}) == {}
    {
    }

    method CommitDraft(state: FileState, draft: ChainDraft, fate: Fate) returns (e: Option<Code>)
      requires store.Valid() && Readable() && state == store.Current()
      modifies store
      ensures store.Valid() && Readable()
      ensures e == ErrorOf(CommitOf(fate.lockHeld, fate.script))
      ensures Chain() == if CommitOf(fate.lockHeld, fate.script).NotCommitted? then old(Chain()) else old(draft.Model())
      ensures Rewrites(old(store.Current()), store.Current())
      ensures Advances({old(draft.Model())})
    {
      hide Passes, CrashSafe, AfterCrash, With, CommitOf;
      WithOne(state, draft.Model());
      e := store.End(chainIdentity, state, draft.Model(), fate.lockHeld, fate.script);
    }

    /** The transaction that publishes and confirms. */
    method Confirm(env: Env, hash: Hash, receipt: Receipt, fate: Fate) returns (e: Option<Code>)
      requires store.Valid() && Readable()
      modifies store
      ensures store.Valid() && Readable()
      ensures var commit := CommitOf(fate.lockHeld, fate.script);
              match ReconcileInChain(env, old(Chain()), hash, receipt)
              case Ok(d) => e == ErrorOf(commit) && Chain() == if commit.NotCommitted? then old(Chain()) else d
              case Err(x) => e == Some(x) && Chain() == old(Chain())
      ensures Rewrites(old(store.Current()), store.Current())
      ensures Advances(ConfirmAttempt(env, old(Chain()), hash, receipt))
    {
      hide Reconciler.ReconcileInChain, Passage, CrashSafe, With, CommitOf;
      AdvancesByNothing();
      var state, draft;
      e, state, draft := store.Begin(chainIdentity);
      e := draft.ReconcileInChain(env, hash, receipt);
      if e.Some? {
        return;
      }
      e := CommitDraft(state, draft, fate);
    }

    /** The transaction that records the failure and keeps the receipt. */
    method Retain(env: Env, hash: Hash, code: Code, receipt: Receipt, fate: Fate) returns (e: Option<Code>)
      requires store.Valid() && Readable()
      modifies store
      ensures store.Valid() && Readable()
      ensures Outcome(Chain(), e) == Transacted(old(Chain()), RecordRetainedFailure(env, old(Chain()), hash, code, receipt),
                                                CommitOf(fate.lockHeld, fate.script))
      ensures Rewrites(old(store.Current()), store.Current())
      ensures Advances(RetainAttempt(env, old(Chain()), hash, code, receipt))
    {
      hide RecordRetainedFailure, Passage, CrashSafe, With, CommitOf;
      AdvancesByNothing();
      var state, draft;
      e, state, draft := store.Begin(chainIdentity);
      e := draft.RecordRetainedFailureInChain(env, hash, code, receipt);
      if e.Some? {
        return;
      }
      e := CommitDraft(state, draft, fate);
    }

    /** Confirms, or failing that retains the failure; a finished record is answered from the journal. */
    method Reconcile(env: Env, hash: Hash, receipt: Receipt, first: Fate, second: Fate) returns (e: Option<Code>)
      requires store.Valid()
      modifies store
      ensures store.Valid()
      ensures !old(Readable()) ==> e == Some(StateUnreadable) && Chain() == old(Chain())
      ensures old(Readable()) ==>
                Outcome(Chain(), e) == ReconcileDurably(env, old(Chain()), hash, receipt, CommitOf(first.lockHeld, first.script),
                                                        CommitOf(second.lockHeld, second.script))
      ensures Rewrites(old(store.Current()), store.Current())
      ensures Advances(Attempted(env, old(Chain()), hash, receipt, CommitOf(first.lockHeld, first.script)))
    {
      hide Reconciler.ReconcileInChain, RecordRetainedFailure, Passage, CrashSafe, With, CommitOf, JournalValid;
      AdvancesAtMost(Attempted(env, Chain(), hash, receipt, CommitOf(first.lockHeld, first.script)));
      var state := store.Read();
      if state.Err? {
        return Some(state.error);
      }
      var records := ChainOf(state.value, chainIdentity).records;
      if !JournalValid(env, records) {
        return Some(CorruptJournal);
      }
      if hash in records && records[hash].state == Confirmed {
        return None;
      }
      if hash in records && records[hash].state == Failed {
        return records[hash].failure;
      }
      e := ConfirmOrRetain(env, hash, receipt, first, second);
    }

    method ConfirmOrRetain(env: Env, hash: Hash, receipt: Receipt, first: Fate, second: Fate) returns (e: Option<Code>)
      requires store.Valid() && Readable()
      modifies store
      ensures store.Valid()
      ensures Outcome(Chain(), e) == Concluded(env, old(Chain()), hash, receipt, CommitOf(first.lockHeld, first.script),
                                               CommitOf(second.lockHeld, second.script))
      ensures Rewrites(old(store.Current()), store.Current())
      ensures Advances(Attempted(env, old(Chain()), hash, receipt, CommitOf(first.lockHeld, first.script)))
    {
      hide Reconciler.ReconcileInChain, Passage, CrashSafe, With, CommitOf, Transacted, RetainAttempt;
      ghost var tried := ConfirmAttempt(env, Chain(), hash, receipt);
      assert tried + {} == tried;
      e := Confirm(env, hash, receipt, first);
      if e.Some? {
        ghost var chain, trace, disk, state := Chain(), store.trace, store.CurrentDisk(), store.Current();
        var code := e.value;
        e := Retain(env, hash, code, receipt, second);
        PassageInTurn(old(store.trace), old(store.CurrentDisk()), old(store.Current()), ConfirmAttempt(env, old(Chain()), hash, receipt),
                      trace, disk, state, RetainAttempt(env, chain, hash, code, receipt), store.trace, store.CurrentDisk());
        if e.None? {
          e := Some(code);
        }
      }
    }

    lemma AdvancesAtMost(chains: set<Chain>)
      requires store.Valid()
      ensures Advances(chains)
    {
      PassesNothing(store.trace, AfterCrash(store.CurrentDisk()) + With(store.Current(), chains));
    }

    /** The transaction that plans, records and reserves. */
    method Prepare(env: Env, hash: Hash, native: Native, sim: Simulation, x: Context, fate: Fate) returns (e: Option<Code>)
      requires store.Valid() && Readable()
      modifies store
      ensures store.Valid() && Readable()
      ensures Outcome(Chain(), e) == Transacted(old(Chain()), PrepareInChain(env, old(Chain()), owner, hash, native, sim, x),
                                               CommitOf(fate.lockHeld, fate.script))
      ensures Rewrites(old(store.Current()), store.Current())
      ensures Advances(PrepareAttempt(env, old(Chain()), owner, hash, native, sim, x))
    {
      hide PrepareInChain, Passage, CrashSafe, With, CommitOf;
      AdvancesByNothing();
      var state, draft;
      e, state, draft := store.Begin(chainIdentity);
      e := draft.RecordPreparedNativeInChain(env, owner, hash, native, sim, x);
      if e.Some? {
        return;
      }
      e := CommitDraft(state, draft, fate);
    }

    /** Fails a record that the journal still shows as received. */
    method Reject(env: Env, hash: Hash, code: Code, fate: Fate) returns (e: Option<Code>)
      requires store.Valid() && Readable()
      modifies store
      ensures store.Valid() && Readable()
      ensures Outcome(Chain(), e) == Rejected(env, old(Chain()), owner, hash, code, CommitOf(fate.lockHeld, fate.script))
      ensures Rewrites(old(store.Current()), store.Current())
      ensures Advances(RejectAttempt(env, old(Chain()), owner, hash, code))
    {
      hide RecordFailed, JournalValid, CrashSafe, CommitOf, Passage, With, FailAttempt;
      AdvancesByNothing();
      var state := store.Read();
      var records := ChainOf(state.value, chainIdentity).records;
      if !JournalValid(env, records) {
        return Some(CorruptJournal);
      }
      if hash !in records || records[hash].state != Received {
        return Some(code);
      }
      e := RecordFailure(env, hash, code, fate);
      if e.None? {
        e := Some(code);
      }
    }

    /** The transaction that records a failure. */
    method RecordFailure(env: Env, hash: Hash, code: Code, fate: Fate) returns (e: Option<Code>)
      requires store.Valid() && Readable()
      modifies store
      ensures store.Valid() && Readable()
      ensures Outcome(Chain(), e) == Transacted(old(Chain()), RecordFailed(env, old(Chain()), owner, hash, code),
                                                 CommitOf(fate.lockHeld, fate.script))
      ensures Rewrites(old(store.Current()), store.Current())
      ensures Advances(FailAttempt(env, old(Chain()), owner, hash, code))
    {
      hide RecordFailed, Passage, CrashSafe, With, CommitOf;
      AdvancesByNothing();
      var state, draft;
      e, state, draft := store.Begin(chainIdentity);
      e := draft.RecordFailedInChain(env, owner, hash, code);
      if e.Some? {
        return;
      }
      e := CommitDraft(state, draft, fate);
    }

    /** Prepares, or failing that fails the record if it is still received. */
    method RecordPreparedNative(
      env: Env, hash: Hash, native: Native, sim: Simulation, x: Context, first: Fate, second: Fate) returns (e: Option<Code>)
      requires store.Valid()
      modifies store
      ensures store.Valid()
      ensures !old(Readable()) ==> e == Some(StateUnreadable) && Chain() == old(Chain())
      ensures old(Readable()) ==>
                Outcome(Chain(), e) == PrepareDurably(env, old(Chain()), owner, hash, native, sim, x,
                                                      CommitOf(first.lockHeld, first.script),
                                                      CommitOf(second.lockHeld, second.script))
      ensures Rewrites(old(store.Current()), store.Current())
      ensures Advances(PrepareAttempted(env, old(Chain()), owner, hash, native, sim, x, CommitOf(first.lockHeld, first.script)))
    {
      hide PrepareInChain, CommitOf, Passage, CrashSafe, With, PrepareAttempted;
      AdvancesAtMost(PrepareAttempted(env, Chain(), owner, hash, native, sim, x, CommitOf(first.lockHeld, first.script)));
      var state := store.Read();
      if state.Err? {
        return Some(state.error);
      }
      e := PrepareOrReject(env, hash, native, sim, x, first, second);
    }

    method PrepareOrReject(
      env: Env, hash: Hash, native: Native, sim: Simulation, x: Context, first: Fate, second: Fate) returns (e: Option<Code>)
      requires store.Valid() && Readable()
      modifies store
      ensures store.Valid()
      ensures Outcome(Chain(), e) == PrepareDurably(env, old(Chain()), owner, hash, native, sim, x,
                                                    CommitOf(first.lockHeld, first.script), CommitOf(second.lockHeld, second.script))
      ensures Rewrites(old(store.Current()), store.Current())
      ensures Advances(PrepareAttempted(env, old(Chain()), owner, hash, native, sim, x, CommitOf(first.lockHeld, first.script)))
    {
      hide PrepareInChain, Rejected, CommitOf, Passage, CrashSafe, With, RejectAttempt, PrepareAttempt;
      ghost var tried := PrepareAttempt(env, Chain(), owner, hash, native, sim, x);
      assert tried + {} == tried;
      e := Prepare(env, hash, native, sim, x, first);
      if e.Some? {
        ghost var chain, trace, disk, state := Chain(), store.trace, store.CurrentDisk(), store.Current();
        var code := e.value;
        e := Reject(env, hash, code, second);
        PassageInTurn(old(store.trace), old(store.CurrentDisk()), old(store.Current()), tried,
                      trace, disk, state, RejectAttempt(env, chain, owner, hash, code), store.trace, store.CurrentDisk());
      }
    }

    lemma AdvancesByNothing()
      requires store.Valid()
      ensures Advances({})
    {
      PassesNothing(store.trace, AfterCrash(store.CurrentDisk()) + With(store.Current(), {}));
    }

    /** Only this chain of the file changes. */
    predicate Rewrites(before: FileState, after: FileState) {
      after == before || after == before[chainIdentity := ChainOf(after, chainIdentity)]
    }
  }

  // ---- All or nothing, on disk ----

  /** A reconciliation leaves the chain as it was, confirmed in whole, or failed with its receipt retained. */
  ghost predicate AllOrNothing(env: Env, c: Chain, hash: Hash, receipt: Receipt, d: Chain) {
    || d == c
    || ReconcileInChain(env, c, hash, receipt) == Ok(d)
    || (exists e :: FailedWithReceipt(env, c, hash, receipt, e, d))
  }

  predicate FailedWithReceipt(env: Env, c: Chain, hash: Hash, receipt: Receipt, e: Code, d: Chain) {
    && hash in c.records && c.records[hash].state == Broadcast
    && d == Put(c, c.records[hash].(state := Failed, failure := Some(e), receipt := Some(receipt)))
  }

  lemma RetainedWhole(env: Env, c: Chain, hash: Hash, code: Code, receipt: Receipt, d: Chain)
    requires RecordRetainedFailure(env, c, hash, code, receipt) == Ok(d)
    ensures AllOrNothing(env, c, hash, receipt, d)
  {
    hide JournalValid, ReconcileInChain;
    assert FailedWithReceipt(env, c, hash, receipt, code, d);
  }

  lemma ConfirmedIsFinal(env: Env, c: Chain, hash: Hash, code: Code, receipt: Receipt, d: Chain)
    requires ReconcileInChain(env, c, hash, receipt) == Ok(d)
    ensures RecordRetainedFailure(env, d, hash, code, receipt).Err?
  {
    assert ValidRecord(env, c.records[hash], hash);
    ReconcileConfirms(env, c, c.records[hash], receipt);
    hide ReconcileRecord, JournalValid, OnlyPublishes, ValidPreparation;
  }

  /** Whatever either transaction ever tries to write is one of the three whole states. */
  lemma AttemptedWhole(env: Env, c: Chain, hash: Hash, receipt: Receipt, first: Commit, d: Chain)
    requires d in Attempted(env, c, hash, receipt, first)
    ensures AllOrNothing(env, c, hash, receipt, d)
  {
    hide ReconcileInChain, RecordRetainedFailure, AllOrNothing;
    var r := ReconcileInChain(env, c, hash, receipt);
    if r == Ok(d) {
      assert AllOrNothing(env, c, hash, receipt, d) by { ConfirmedWhole(env, c, hash, receipt, d); }
    } else {
      var code := if r.Err? then r.error else first.code;
      if r.Ok? && first.CommittedWithError? {
        ConfirmedIsFinal(env, c, hash, code, receipt, r.value);
      } else {
        RetainedWhole(env, c, hash, code, receipt, d);
      }
    }
  }

  lemma ConfirmedWhole(env: Env, c: Chain, hash: Hash, receipt: Receipt, d: Chain)
    requires ReconcileInChain(env, c, hash, receipt) == Ok(d)
    ensures AllOrNothing(env, c, hash, receipt, d)
  {
  }

  /** A crash on the way brings back an earlier state file or the file with one of the attempted chains in it. */
  lemma CrashImage(
    r: CreateReconciler, chains: set<Chain>, before: seq<Disk>, first: Disk, after: seq<Disk>, last: Disk, k: nat, image: FileState)
    returns (d: Chain)
    requires CrashSafe(first) && CrashSafe(last) && r.Passage(before, first, Held(first.target), after, last, chains)
    requires |before| <= k < |after|
    ensures CrashSafe(after[k])
    ensures image in AfterCrash(after[k]) && image !in AfterCrash(first) ==>
              && d in chains && ChainOf(image, r.chainIdentity) == d
              && (forall key :: key in Held(first.target) && key != r.chainIdentity ==>
                    key in image && image[key] == Held(first.target)[key])
  {
    assert after[|before|..][k - |before|] == after[k];
    d := EmptyChain();
    if image in AfterCrash(after[k]) && image !in AfterCrash(first) {
      d :| d in chains && image == Held(first.target)[r.chainIdentity := d];
    }
  }

  /**
   * All or nothing, including a crash at any file-system step of either transaction: what comes back
   * is a state file that could have come back before, or one with this chain in one of the three
   * whole states and every other chain untouched. If the directory was synced before, the former is
   * the file itself.
   */
  lemma CrashLeavesWhole(
    r: CreateReconciler, env: Env, hash: Hash, receipt: Receipt, commit: Commit,
    before: seq<Disk>, first: Disk, after: seq<Disk>, last: Disk, k: nat, image: FileState)
    requires CrashSafe(first) && CrashSafe(last)
    requires var c := ChainOf(Held(first.target), r.chainIdentity);
             r.Passage(before, first, Held(first.target), after, last, Attempted(env, c, hash, receipt, commit))
    requires |before| <= k < |after|
    ensures CrashSafe(after[k])
    ensures image in AfterCrash(after[k]) ==>
              || image in AfterCrash(first)
              || (&& AllOrNothing(env, ChainOf(Held(first.target), r.chainIdentity), hash, receipt, ChainOf(image, r.chainIdentity))
                  && (forall key :: key in Held(first.target) && key != r.chainIdentity ==>
                        key in image && image[key] == Held(first.target)[key]))
  {
    var c := ChainOf(Held(first.target), r.chainIdentity);
    hide AllOrNothing, Attempted, CrashSafe, AfterCrash;
    var d := CrashImage(r, Attempted(env, c, hash, receipt, commit), before, first, after, last, k, image);
    if image in AfterCrash(after[k]) && image !in AfterCrash(first) {
      AttemptedWhole(env, c, hash, receipt, commit, d);
    }
  }

  /** The plan is recorded and its nonces are reserved together, or the record only failed, or nothing happened. */
  ghost predicate TogetherOrNot(
    env: Env, c: Chain, owner: Owner, hash: Hash, native: Native, sim: Simulation, x: Context, d: Chain)
  {
    || d == c
    || PrepareInChain(env, c, owner, hash, native, sim, x) == Ok(d)
    || (d.counters == c.counters && InState(c, hash, Received) && exists code :: RecordFailed(env, c, owner, hash, code) == Ok(d))
  }

  lemma FailedTogether(
    env: Env, c: Chain, owner: Owner, hash: Hash, native: Native, sim: Simulation, x: Context, code: Code, d: Chain)
    requires d in RejectAttempt(env, c, owner, hash, code)
    ensures TogetherOrNot(env, c, owner, hash, native, sim, x, d)
  {
    hide PrepareInChain, JournalValid;
  }

  /** Whatever either transaction of a preparation tries to write is one of those. */
  lemma PrepareAttemptedTogether(
    env: Env, c: Chain, owner: Owner, hash: Hash, native: Native, sim: Simulation, x: Context, first: Commit, d: Chain)
    requires d in PrepareAttempted(env, c, owner, hash, native, sim, x, first)
    ensures TogetherOrNot(env, c, owner, hash, native, sim, x, d)
  {
    var r := PrepareInChain(env, c, owner, hash, native, sim, x);
    if r != Ok(d) {
      if r.Ok? && first.CommittedWithError? {
        PreparedNotReceived(env, c, owner, hash, native, sim, x);
      }
      hide PrepareInChain, JournalValid, RecordFailed, FailAttempt, TogetherOrNot;
      var o := Transacted(c, r, first);
      FailedTogether(env, c, owner, hash, native, sim, x, o.error.value, d);
    }
  }

  /**
   * A crash at any file-system step of a preparation: what comes back is a state file that could have
   * come back before, or one in which the record and its counters are there together or not at all.
   */
  lemma CrashLeavesTogether(
    r: CreateReconciler, env: Env, hash: Hash, native: Native, sim: Simulation, x: Context, commit: Commit,
    before: seq<Disk>, first: Disk, after: seq<Disk>, last: Disk, k: nat, image: FileState)
    requires CrashSafe(first) && CrashSafe(last)
    requires var c := ChainOf(Held(first.target), r.chainIdentity);
             r.Passage(before, first, Held(first.target), after, last, PrepareAttempted(env, c, r.owner, hash, native, sim, x, commit))
    requires |before| <= k < |after|
    ensures CrashSafe(after[k])
    ensures image in AfterCrash(after[k]) ==>
              || image in AfterCrash(first)
              || (&& TogetherOrNot(env, ChainOf(Held(first.target), r.chainIdentity), r.owner, hash, native, sim, x,
                                   ChainOf(image, r.chainIdentity))
                  && (forall key :: key in Held(first.target) && key != r.chainIdentity ==>
                        key in image && image[key] == Held(first.target)[key]))
  {
    var c := ChainOf(Held(first.target), r.chainIdentity);
    hide TogetherOrNot, PrepareAttempted, CrashSafe, AfterCrash;
    var d := CrashImage(r, PrepareAttempted(env, c, r.owner, hash, native, sim, x, commit), before, first, after, last, k, image);
    if image in AfterCrash(after[k]) && image !in AfterCrash(first) {
      PrepareAttemptedTogether(env, c, r.owner, hash, native, sim, x, commit, d);
    }
  }

  lemma AllOrNothingSelf(env: Env, c: Chain, hash: Hash, receipt: Receipt)
    ensures AllOrNothing(env, c, hash, receipt, c)
  {
  }

  /** When both commits go through, the durable reconciliation is the plain one. */
  lemma DurableIsReconcile(env: Env, c: Chain, hash: Hash, receipt: Receipt)
    ensures ReconcileDurably(env, c, hash, receipt, Committed, Committed) == Reconcile(env, c, hash, receipt)
  {
    hide ReconcileInChain, RecordRetainedFailure, JournalValid;
  }

  /** And so is the durable preparation, with the failure it records when it is rejected. */
  lemma DurableIsPreparation(env: Env, c: Chain, owner: Owner, hash: Hash, native: Native, sim: Simulation, x: Context)
    ensures PrepareDurably(env, c, owner, hash, native, sim, x, Committed, Committed)
            == RecordPreparedNative(env, c, owner, hash, native, sim, x)
  {
    if !JournalValid(env, c.records) {
      assert PrepareInChain(env, c, owner, hash, native, sim, x) == Err(CorruptJournal);
    }
    hide PrepareInChain, RecordFailed, JournalValid;
  }

  /** What the journal holds after a reconciliation whose writes may fail is whole as well. */
  lemma DurableWhole(env: Env, c: Chain, hash: Hash, receipt: Receipt, first: Commit, second: Commit)
    ensures AllOrNothing(env, c, hash, receipt, ReconcileDurably(env, c, hash, receipt, first, second).chain)
  {
    hide ReconcileInChain, RecordRetainedFailure, JournalValid, AllOrNothing;
    var d := ReconcileDurably(env, c, hash, receipt, first, second).chain;
    AllOrNothingSelf(env, c, hash, receipt);
    if d != c {
      AttemptedWhole(env, c, hash, receipt, first, d);
    }
  }

  /** A preparation whose writes may fail: recorded and reserved together, rejected, or nothing. */
  lemma PrepareDurablyWhole(
    env: Env, c: Chain, owner: Owner, hash: Hash, native: Native, sim: Simulation, x: Context, first: Commit, second: Commit)
    ensures TogetherOrNot(env, c, owner, hash, native, sim, x,
                          PrepareDurably(env, c, owner, hash, native, sim, x, first, second).chain)
  {
    hide PrepareInChain, JournalValid, RecordFailed;
    var d := PrepareDurably(env, c, owner, hash, native, sim, x, first, second).chain;
    if d != c {
      PrepareAttemptedTogether(env, c, owner, hash, native, sim, x, first, d);
    }
  }

  lemma PreparedNotReceived(env: Env, c: Chain, owner: Owner, hash: Hash, native: Native, sim: Simulation, x: Context)
    requires PrepareInChain(env, c, owner, hash, native, sim, x).Ok?
    ensures !InState(PrepareInChain(env, c, owner, hash, native, sim, x).value, hash, Received)
  {
    var p := DerivePlan(env, c, sim, x, native.id).value;
    hide DerivePlan, RecordNativeBuilt;
    BuiltMeans(env, c, owner, hash, native, p);
    assert ValidRecord(env, c.records[hash], hash);
  }

  /**
   * To the protocol, a reconciliation whose writes may fail is nothing new: its chain is the one a
   * receipt step, or a step that only retains the failure, or no step at all would leave.
   */
  lemma DurableIsProtocolStep(env: Env, s: Protocol.System, hash: Hash, receipt: Receipt, first: Commit, second: Commit)
    requires hash in s.tasks && s.tasks[hash].Waiting?
    ensures var d := ReconcileDurably(env, s.chain, hash, receipt, first, second).chain;
            || d == s.chain
            || d == Protocol.Next(env, s, Protocol.ReceiptArrives(hash, receipt)).chain
            || exists code :: d == Protocol.Next(env, s, Protocol.RetainAfterWriteError(hash, code, receipt)).chain
  {
    var r := ReconcileInChain(env, s.chain, hash, receipt);
    var code := if r.Err? then r.error else if first.Committed? then WriteFailed else first.code;
    ReceiptStep(env, s, hash, receipt);
    RetainStep(env, s, hash, code, receipt);
    hide Protocol.Next, ReconcileInChain, RecordRetainedFailure, JournalValid;
    if r.Ok? && first.CommittedWithError? {
      ConfirmedIsFinal(env, s.chain, hash, code, receipt, r.value);
    }
  }

  lemma ReceiptStep(env: Env, s: Protocol.System, hash: Hash, receipt: Receipt)
    requires hash in s.tasks && s.tasks[hash].Waiting?
    ensures Protocol.Next(env, s, Protocol.ReceiptArrives(hash, receipt)).chain == Reconcile(env, s.chain, hash, receipt).chain
  {
    hide Reconcile;
  }

  lemma RetainStep(env: Env, s: Protocol.System, hash: Hash, code: Code, receipt: Receipt)
    requires hash in s.tasks && s.tasks[hash].Waiting?
    ensures Protocol.Next(env, s, Protocol.RetainAfterWriteError(hash, code, receipt)).chain
            == Protocol.Committed(s.chain, RecordRetainedFailure(env, s.chain, hash, code, receipt))
  {
    hide RecordRetainedFailure;
  }

  /**
   * Nor is a preparation whose writes may fail: its chain is the one its own step would leave, whatever
   * becomes of the task afterwards, or the one a failed build leaves, or the one there was.
   */
  lemma DurablePrepareIsProtocolStep(
    env: Env, s: Protocol.System, hash: Hash, native: Native, sim: Simulation, x: Context, first: Commit, second: Commit)
    requires hash in s.tasks && s.tasks[hash].Building? && Protocol.FollowsSource(env, s.chain, hash, x)
    ensures var d := PrepareDurably(env, s.chain, s.owner, hash, native, sim, x, first, second).chain;
            || d == s.chain
            || d == Protocol.Next(env, s, Protocol.Prepare(hash, native, sim, x)).chain
            || exists code :: d == Protocol.Next(env, s, Protocol.FailBuild(hash, code, false)).chain
  {
    var d := PrepareDurably(env, s.chain, s.owner, hash, native, sim, x, first, second).chain;
    PrepareDurablyWhole(env, s.chain, s.owner, hash, native, sim, x, first, second);
    PrepareStep(env, s, hash, native, sim, x);
    hide PrepareInChain, PrepareDurably, Protocol.Next, Protocol.FollowsSource;
    if code :| RecordFailed(env, s.chain, s.owner, hash, code) == Ok(d) && InState(s.chain, hash, Received) {
      FailStep(env, s, hash, code);
    }
  }

  lemma PrepareStep(env: Env, s: Protocol.System, hash: Hash, native: Native, sim: Simulation, x: Context)
    requires hash in s.tasks && s.tasks[hash].Building? && Protocol.FollowsSource(env, s.chain, hash, x)
    ensures PrepareInChain(env, s.chain, s.owner, hash, native, sim, x).Ok? ==>
              Protocol.Next(env, s, Protocol.Prepare(hash, native, sim, x)).chain
              == PrepareInChain(env, s.chain, s.owner, hash, native, sim, x).value
  {
    hide PrepareInChain, FailIfReceived, Protocol.FollowsSource;
  }

  lemma FailStep(env: Env, s: Protocol.System, hash: Hash, code: Code)
    requires hash in s.tasks && s.tasks[hash].Building? && InState(s.chain, hash, Received)
    requires RecordFailed(env, s.chain, s.owner, hash, code).Ok?
    ensures Protocol.Next(env, s, Protocol.FailBuild(hash, code, false)).chain == RecordFailed(env, s.chain, s.owner, hash, code).value
  {
    hide RecordFailed;
  }

  // ---- The disk behind a run ----

  /** The disk holds the machine's chain, and a crash brings back one of the machine's images. */
  predicate Mirrors(disk: Disk, key: ChainId, w: Runs.Machine) {
    && CrashSafe(disk) && ChainOf(Held(disk.target), key) == w.system.chain
    && forall state :: state in AfterCrash(disk) ==> ChainOf(state, key) in Runs.Images(w)
  }

  /**
   * The machine's images are what the disk says they are: if the disk mirrors the machine before a step
   * that commits, and the file is replaced as the store replaces it, it mirrors the machine afterwards,
   * where the step may count as synced only if nothing but the new file can come back.
   */
  lemma CommitMirrors(env: Env, w: Runs.Machine, e: Protocol.Step, key: ChainId, before: Disk, after: Disk, synced: bool)
    requires Mirrors(before, key, w) && Runs.Lands(env, w.system, e) && CrashSafe(after)
    requires var next := Held(before.target)[key := Protocol.Next(env, w.system, e).chain];
             && Held(after.target) == next
             && AfterCrash(after) <= AfterCrash(before) + {next}
             && (synced ==> AfterCrash(after) == {next})
    ensures Mirrors(after, key, Runs.Next(env, w, Runs.Act(e, synced)))
  {
    hide Protocol.Next, Runs.Lands, CrashSafe, AfterCrash;
  }
}
