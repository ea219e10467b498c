// The per-signer admission queue of rpc-src/transaction-queue.ts. `Queue` is the state of the
// queue together with the event loop around it: scheduled microtasks, armed timers and runs in
// flight. The fields of the per-signer records are kept as one map per field. `Exec` gives the
// four events of the queue; NonceOrderedQueue.dfy performs them in place.
module TransactionQueue {
  import opened Wrappers
  import opened Addresses

  type Ticket = nat
  type TimerId = nat

  datatype Outcome = Resolved | RunFailed | NonceTooLow | NonceGapTimeout

  /** Where the entry behind a promise is: waiting in its signer's map, running, or settled. */
  datatype Place = Queued(signer: Address, nonce: nat) | Running(signer: Address) | Settled(outcome: Outcome)

  /** One promise per enqueued entry, with the hash it was enqueued for. */
  datatype Waiter = Waiter(hash: Hash, place: Place)

  datatype Entry = Entry(hash: Hash, nonce: nat, ticket: Ticket)

  datatype Flight = Flight(signer: Address, entry: Entry)

  /** A started run, with the durable next nonce at the moment it was released. */
  datatype Release = Release(signer: Address, nonce: nat, expected: nat)

  /**
   * A signer is live when it has a pending map; its cursor, active flag and deadline handle are
   * absent until set. The active flag is kept together with the ticket of the run it stands for.
   */
  datatype Queue = Queue(
    pending: map<Address, map<nat, Entry>>,
    cursor: map<Address, nat>,
    active: map<Address, Ticket>,
    deadline: map<Address, TimerId>,
    byHash: map<Hash, Ticket>,
    waiters: seq<Waiter>,
    pumps: multiset<Address>,
    timers: map<TimerId, Address>,
    nextTimer: TimerId,
    runs: map<Ticket, Flight>,
    released: seq<Release>)

  datatype Event =
    | Enqueue(signer: Address, nonce: nat, hash: Hash)
    | Pump(signer: Address)
    | Finish(ticket: Ticket, ok: bool)
    | Fire(timer: TimerId)

  function Empty(): Queue {
    Queue(map[], map[], map[], map[], map[], [], multiset{}, map[], 0, map[], [])
  }

  function Max(a: nat, b: nat): nat {
    if a < b then b else a
  }

  function PendingOf(q: Queue, s: Address): map<nat, Entry> {
    if s in q.pending then q.pending[s] else map[]
  }

  /** A fresh entry in its signer's pending map, with a pump scheduled to look at it. */
  function AddEntry(q: Queue, s: Address, nonce: nat, hash: Hash): Queue {
    var t := |q.waiters|;
    q.(pending := q.pending[s := PendingOf(q, s)[nonce := Entry(hash, nonce, t)]],
       byHash := q.byHash[hash := t],
       waiters := q.waiters + [Waiter(hash, Queued(s, nonce))],
       pumps := q.pumps + multiset{s})
  }

  /** Remove the given nonces of one signer from its pending map and settle them all. */
  function Drop(q: Queue, s: Address, nonces: set<nat>, outcome: Outcome): (r: Queue)
    requires s in q.pending && nonces <= q.pending[s].Keys
    ensures |r.waiters| == |q.waiters|
  {
    q.(pending := q.pending[s := q.pending[s] - nonces],
       byHash := q.byHash - (set n | n in nonces :: q.pending[s][n].hash),
       waiters := seq(|q.waiters|, t requires 0 <= t < |q.waiters| =>
         var w := q.waiters[t];
         if w.place.Queued? && w.place.signer == s && w.place.nonce in nonces then w.(place := Settled(outcome)) else w))
  }

  function ClearDeadline(q: Queue, s: Address): Queue {
    if s in q.deadline then q.(timers := q.timers - {q.deadline[s]}, deadline := q.deadline - {s}) else q
  }

  function ArmDeadline(q: Queue, s: Address): Queue {
    if s in q.deadline then q else
      q.(timers := q.timers[q.nextTimer := s], nextTimer := q.nextTimer + 1, deadline := q.deadline[s := q.nextTimer])
  }

  /** Delete an idle signer's record. */
  function Forget(q: Queue, s: Address): Queue {
    var cleared := ClearDeadline(q, s);
    cleared.(pending := q.pending - {s}, cursor := q.cursor - {s})
  }

  /** Start the work of the entry at nonce `n`. */
  function Launch(q: Queue, s: Address, n: nat, expected: nat): Queue
    requires s in q.pending && n in q.pending[s] && q.pending[s][n].ticket < |q.waiters|
  {
    var e := q.pending[s][n];
    q.(pending := q.pending[s := q.pending[s] - {n}],
       active := q.active[s := e.ticket],
       waiters := q.waiters[e.ticket := Waiter(e.hash, Running(s))],
       runs := q.runs[e.ticket := Flight(s, e)],
       released := q.released + [Release(s, n, expected)])
  }

  /** A run ends: its signer is idle again and its promise is settled. */
  function EndRun(q: Queue, t: Ticket, outcome: Outcome): Queue
    requires t in q.runs && q.runs[t].entry.ticket < |q.waiters|
  {
    var s, e := q.runs[t].signer, q.runs[t].entry;
    q.(runs := q.runs - {t},
       active := q.active - {s},
       byHash := q.byHash - {e.hash},
       waiters := q.waiters[e.ticket := q.waiters[e.ticket].(place := Settled(outcome))])
  }

  function TooLow(pending: map<nat, Entry>, cursor: nat): (r: set<nat>)
    ensures r <= pending.Keys
  {
    set n | n in pending.Keys && n < cursor
  }

  /** The release decision for one idle signer whose stale entries are gone. */
  function Decide(q: Queue, s: Address, expected: nat): Queue
    requires PendingAgree(q) && s in q.pending && s in q.cursor
  {
    if q.cursor[s] in q.pending[s] then Launch(ClearDeadline(q, s), s, q.cursor[s], expected)
    else if q.pending[s] == map[] then Forget(q, s)
    else ArmDeadline(q, s)
  }

  /** The cursor a pump works with: never below the durable expected nonce. */
  function Pin(q: Queue, s: Address, expected: nat): Queue {
    q.(cursor := q.cursor[s := if s in q.cursor then Max(q.cursor[s], expected) else expected])
  }

  function PumpSigner(q: Queue, s: Address, expected: nat): Queue
    requires PendingAgree(q)
  {
    if s !in q.pending || s in q.active then q
    else if s !in q.cursor && q.pending[s] == map[] then Forget(q, s)
    else
      var pinned := Pin(q, s, expected);
      var stale := TooLow(q.pending[s], pinned.cursor[s]);
      Decide(Drop(pinned, s, stale, NonceTooLow), s, expected)
  }

  function FinishRun(q: Queue, t: Ticket, ok: bool, expected: nat): Queue
    requires Consistent(q) && t in q.runs
  {
    var outcome := if ok then Resolved else RunFailed;
    PumpSigner(EndRun(q, t, outcome), q.runs[t].signer, expected)
  }

  /** A firing timer moves an already pinned cursor forward; an unpinned one stays unpinned. */
  function Advance(q: Queue, s: Address, expected: nat): Queue {
    if s in q.cursor then q.(cursor := q.cursor[s := Max(q.cursor[s], expected)]) else q
  }

  function FireTimer(q: Queue, id: TimerId, expected: nat): Queue
    requires Consistent(q) && id in q.timers
  {
    var s := q.timers[id];
    var unarmed := ClearDeadline(q, s);
    if s in unarmed.active then unarmed else
      var moved := Advance(unarmed, s, expected);
      if s in moved.cursor && moved.cursor[s] in moved.pending[s] then PumpSigner(moved, s, expected)
      else Forget(Drop(moved, s, moved.pending[s].Keys, NonceGapTimeout), s)
  }

  /** A resend joins the promise it finds; a taken nonce is refused without an entry. */
  function EnqueueEntry(q: Queue, s: Address, nonce: nat, hash: Hash): Queue {
    if hash in q.byHash || nonce in PendingOf(q, s) then q else AddEntry(q, s, nonce, hash)
  }

  /** The state after one event; `expected` is the signer's durable next nonce at that moment. */
  function Exec(q: Queue, e: Event, expected: nat): Queue
    requires Consistent(q)
  {
    match e
    case Enqueue(s, nonce, hash) => EnqueueEntry(q, s, nonce, hash)
    case Pump(s) => if s in q.pumps then PumpSigner(q.(pumps := q.pumps - multiset{s}), s, expected) else q
    case Finish(t, ok) => if t in q.runs then FinishRun(q, t, ok, expected) else q
    case Fire(id) => if id in q.timers then FireTimer(q, id, expected) else q
  }

  // ---- What every event keeps ----

  /** Every pending entry sits under its own nonce, and its promise knows where it is. */
  predicate PendingAgree(q: Queue) {
    forall s, n :: s in q.pending && n in q.pending[s] ==>
      var e := q.pending[s][n];
      e.nonce == n && e.ticket < |q.waiters| && q.waiters[e.ticket] == Waiter(e.hash, Queued(s, n))
  }

  /** Every promise that waits in a pending map is there. */
  predicate QueuedAgree(q: Queue) {
    forall t :: 0 <= t < |q.waiters| && q.waiters[t].place.Queued? ==>
      var p := q.waiters[t].place;
      p.signer in q.pending && p.nonce in q.pending[p.signer] && q.pending[p.signer][p.nonce].ticket == t
  }

  /** Runs in flight are exactly the promises marked as running. */
  predicate FlightsAgree(q: Queue) {
    && (forall t :: t in q.runs ==>
          && q.runs[t].entry.ticket == t && t < |q.waiters|
          && q.waiters[t] == Waiter(q.runs[t].entry.hash, Running(q.runs[t].signer)))
    && (forall t :: 0 <= t < |q.waiters| && q.waiters[t].place.Running? ==> t in q.runs)
  }

  /** The hash index holds exactly the entries that are pending or running. */
  predicate HashesAgree(q: Queue) {
    && (forall h :: h in q.byHash ==>
          q.byHash[h] < |q.waiters| && q.waiters[q.byHash[h]].hash == h && !q.waiters[q.byHash[h]].place.Settled?)
    && (forall t :: 0 <= t < |q.waiters| && !q.waiters[t].place.Settled? ==>
          q.waiters[t].hash in q.byHash && q.byHash[q.waiters[t].hash] == t)
  }

  /** At most one run per signer, and a signer with a run is never forgotten. */
  predicate RunsAgree(q: Queue) {
    && (forall t :: t in q.runs ==>
          q.runs[t].signer in q.pending && q.runs[t].signer in q.active && q.active[q.runs[t].signer] == t)
    && (forall s :: s in q.active ==> q.active[s] in q.runs && q.runs[q.active[s]].signer == s)
  }

  /** Armed timers are exactly the deadlines of live signers, none of them active. */
  predicate TimersAgree(q: Queue) {
    && (forall id :: id in q.timers ==>
          id < q.nextTimer && q.timers[id] in q.deadline && q.deadline[q.timers[id]] == id)
    && (forall s :: s in q.deadline ==>
          s in q.pending && s !in q.active && q.deadline[s] in q.timers && q.timers[q.deadline[s]] == s)
  }

  predicate Consistent(q: Queue) {
    PendingAgree(q) && QueuedAgree(q) && FlightsAgree(q) && HashesAgree(q) && RunsAgree(q) && TimersAgree(q)
  }

  /** Something is going to happen for this signer: a run, a deadline or a scheduled pump. */
  predicate Progresses(q: Queue, s: Address) {
    s in q.active || s in q.deadline || s in q.pumps
  }

  predicate OthersProgress(q: Queue, s: Address) {
    forall o :: o in q.pending && o != s ==> Progresses(q, o)
  }

  predicate NobodyStranded(q: Queue) {
    forall s :: s in q.pending ==> Progresses(q, s)
  }

  predicate Valid(q: Queue) {
    Consistent(q) && NobodyStranded(q)
  }

  // Each predicate is kept by each change for reasons of its own; the lemmas say which.

  lemma AddKeepsEntries(q: Queue, s: Address, nonce: nat, hash: Hash)
    requires PendingAgree(q) && QueuedAgree(q) && nonce !in PendingOf(q, s)
    ensures PendingAgree(AddEntry(q, s, nonce, hash)) && QueuedAgree(AddEntry(q, s, nonce, hash))
  {
  }

  lemma AddKeepsHashes(q: Queue, s: Address, nonce: nat, hash: Hash)
    requires FlightsAgree(q) && HashesAgree(q) && hash !in q.byHash
    ensures FlightsAgree(AddEntry(q, s, nonce, hash)) && HashesAgree(AddEntry(q, s, nonce, hash))
  {
  }

  lemma AddKeepsTasks(q: Queue, s: Address, nonce: nat, hash: Hash)
    requires RunsAgree(q) && TimersAgree(q)
    ensures RunsAgree(AddEntry(q, s, nonce, hash)) && TimersAgree(AddEntry(q, s, nonce, hash))
  {
  }

  lemma DropKeepsEntries(q: Queue, s: Address, nonces: set<nat>, outcome: Outcome)
    requires PendingAgree(q) && QueuedAgree(q) && FlightsAgree(q) && s in q.pending && nonces <= q.pending[s].Keys
    ensures PendingAgree(Drop(q, s, nonces, outcome)) && QueuedAgree(Drop(q, s, nonces, outcome))
    ensures FlightsAgree(Drop(q, s, nonces, outcome))
  {
  }

  lemma DropKeepsHashes(q: Queue, s: Address, nonces: set<nat>, outcome: Outcome)
    requires PendingAgree(q) && QueuedAgree(q) && HashesAgree(q) && s in q.pending && nonces <= q.pending[s].Keys
    ensures HashesAgree(Drop(q, s, nonces, outcome))
  {
  }

  lemma DropKeepsTasks(q: Queue, s: Address, nonces: set<nat>, outcome: Outcome)
    requires RunsAgree(q) && TimersAgree(q) && s in q.pending && nonces <= q.pending[s].Keys
    ensures RunsAgree(Drop(q, s, nonces, outcome)) && TimersAgree(Drop(q, s, nonces, outcome))
  {
  }

  lemma LaunchKeepsEntries(q: Queue, s: Address, n: nat, expected: nat)
    requires PendingAgree(q) && QueuedAgree(q) && s in q.pending && n in q.pending[s]
    ensures PendingAgree(Launch(q, s, n, expected)) && QueuedAgree(Launch(q, s, n, expected))
  {
  }

  lemma LaunchKeepsFlights(q: Queue, s: Address, n: nat, expected: nat)
    requires PendingAgree(q) && FlightsAgree(q) && s in q.pending && n in q.pending[s]
    ensures FlightsAgree(Launch(q, s, n, expected))
  {
  }

  lemma LaunchKeepsHashes(q: Queue, s: Address, n: nat, expected: nat)
    requires PendingAgree(q) && HashesAgree(q) && s in q.pending && n in q.pending[s]
    ensures HashesAgree(Launch(q, s, n, expected))
  {
  }

  lemma LaunchKeepsTasks(q: Queue, s: Address, n: nat, expected: nat)
    requires PendingAgree(q) && FlightsAgree(q) && RunsAgree(q) && TimersAgree(q)
    requires s in q.pending && n in q.pending[s] && s !in q.active && s !in q.deadline
    ensures RunsAgree(Launch(q, s, n, expected)) && TimersAgree(Launch(q, s, n, expected))
  {
  }

  lemma EndKeepsEntries(q: Queue, t: Ticket, outcome: Outcome)
    requires PendingAgree(q) && QueuedAgree(q) && FlightsAgree(q) && t in q.runs
    ensures PendingAgree(EndRun(q, t, outcome)) && QueuedAgree(EndRun(q, t, outcome))
  {
  }

  lemma EndKeepsHashes(q: Queue, t: Ticket, outcome: Outcome)
    requires FlightsAgree(q) && HashesAgree(q) && t in q.runs
    ensures FlightsAgree(EndRun(q, t, outcome)) && HashesAgree(EndRun(q, t, outcome))
  {
  }

  lemma EndKeepsTasks(q: Queue, t: Ticket, outcome: Outcome)
    requires FlightsAgree(q) && RunsAgree(q) && TimersAgree(q) && t in q.runs
    ensures RunsAgree(EndRun(q, t, outcome)) && TimersAgree(EndRun(q, t, outcome))
  {
  }

  lemma DropKeepsConsistent(q: Queue, s: Address, nonces: set<nat>, outcome: Outcome)
    requires Consistent(q) && s in q.pending && nonces <= q.pending[s].Keys
    ensures Consistent(Drop(q, s, nonces, outcome))
  {
    hide PendingAgree, QueuedAgree, FlightsAgree, HashesAgree, RunsAgree, TimersAgree;
    DropKeepsEntries(q, s, nonces, outcome);
    DropKeepsHashes(q, s, nonces, outcome);
    DropKeepsTasks(q, s, nonces, outcome);
  }

  lemma EndKeepsConsistent(q: Queue, t: Ticket, outcome: Outcome)
    requires Consistent(q) && t in q.runs
    ensures Consistent(EndRun(q, t, outcome))
  {
    hide PendingAgree, QueuedAgree, HashesAgree, RunsAgree, TimersAgree;
    EndKeepsEntries(q, t, outcome);
    EndKeepsHashes(q, t, outcome);
    EndKeepsTasks(q, t, outcome);
  }

  lemma LaunchKeepsConsistent(q: Queue, s: Address, n: nat, expected: nat)
    requires Consistent(q) && s in q.pending && n in q.pending[s] && s !in q.active && s !in q.deadline
    ensures Consistent(Launch(q, s, n, expected))
  {
    hide QueuedAgree, FlightsAgree, HashesAgree, RunsAgree, TimersAgree;
    LaunchKeepsEntries(q, s, n, expected);
    LaunchKeepsFlights(q, s, n, expected);
    LaunchKeepsHashes(q, s, n, expected);
    LaunchKeepsTasks(q, s, n, expected);
    hide PendingAgree;
  }

  // Nothing that must stay consistent speaks about the cursors or the scheduled pumps.

  lemma PinKeepsConsistent(q: Queue, s: Address, expected: nat)
    requires Consistent(q)
    ensures Consistent(Pin(q, s, expected))
  {
  }

  lemma AdvanceKeepsConsistent(q: Queue, s: Address, expected: nat)
    requires Consistent(q)
    ensures Consistent(Advance(q, s, expected))
  {
  }

  lemma PoppedKeepsConsistent(q: Queue, s: Address)
    requires Consistent(q)
    ensures Consistent(q.(pumps := q.pumps - multiset{s}))
  {
  }

  lemma ClearKeepsConsistent(q: Queue, s: Address)
    requires Consistent(q)
    ensures Consistent(ClearDeadline(q, s))
  {
  }

  lemma ArmKeepsTasks(q: Queue, s: Address)
    requires RunsAgree(q) && TimersAgree(q) && s in q.pending && s !in q.active
    ensures RunsAgree(ArmDeadline(q, s)) && TimersAgree(ArmDeadline(q, s))
  {
  }

  lemma ArmKeepsConsistent(q: Queue, s: Address)
    requires Consistent(q) && s in q.pending && s !in q.active
    ensures Consistent(ArmDeadline(q, s))
  {
    hide RunsAgree, TimersAgree;
    ArmKeepsTasks(q, s);
  }

  lemma ForgetKeepsEntries(q: Queue, s: Address)
    requires PendingAgree(q) && QueuedAgree(q) && s in q.pending && q.pending[s] == map[]
    ensures PendingAgree(Forget(q, s)) && QueuedAgree(Forget(q, s))
  {
  }

  lemma ForgetKeepsHashes(q: Queue, s: Address)
    requires FlightsAgree(q) && HashesAgree(q)
    ensures FlightsAgree(Forget(q, s)) && HashesAgree(Forget(q, s))
  {
  }

  lemma ForgetKeepsTasks(q: Queue, s: Address)
    requires RunsAgree(q) && TimersAgree(q) && s in q.pending && s !in q.active
    ensures RunsAgree(Forget(q, s)) && TimersAgree(Forget(q, s))
  {
  }

  lemma ForgetKeepsConsistent(q: Queue, s: Address)
    requires Consistent(q) && s in q.pending && q.pending[s] == map[] && s !in q.active
    ensures Consistent(Forget(q, s))
    ensures OthersProgress(q, s) ==> NobodyStranded(Forget(q, s))
  {
    hide PendingAgree, QueuedAgree, RunsAgree, TimersAgree;
    ForgetKeepsHashes(q, s);
    hide FlightsAgree, HashesAgree;
    ForgetKeepsEntries(q, s);
    ForgetKeepsTasks(q, s);
  }

  lemma DecideKeepsValid(q: Queue, s: Address, expected: nat)
    requires Consistent(q) && s in q.pending && s in q.cursor && s !in q.active && OthersProgress(q, s)
    ensures Valid(Decide(q, s, expected))
  {
    hide PendingAgree, QueuedAgree, FlightsAgree, HashesAgree, RunsAgree, TimersAgree;
    if q.cursor[s] in q.pending[s] {
      ClearKeepsConsistent(q, s);
      LaunchKeepsConsistent(ClearDeadline(q, s), s, q.cursor[s], expected);
    } else if q.pending[s] == map[] {
      ForgetKeepsConsistent(q, s);
    } else {
      ArmKeepsConsistent(q, s);
    }
  }

  lemma PumpKeepsValid(q: Queue, s: Address, expected: nat)
    requires Consistent(q) && OthersProgress(q, s)
    ensures Valid(PumpSigner(q, s, expected))
  {
    hide PendingAgree, QueuedAgree, FlightsAgree, HashesAgree, RunsAgree, TimersAgree;
    if s in q.pending && s !in q.active {
      if s !in q.cursor && q.pending[s] == map[] {
        ForgetKeepsConsistent(q, s);
      } else {
        var pinned := Pin(q, s, expected);
        PinKeepsConsistent(q, s, expected);
        var stale := TooLow(q.pending[s], pinned.cursor[s]);
        DropKeepsConsistent(pinned, s, stale, NonceTooLow);
        DecideKeepsValid(Drop(pinned, s, stale, NonceTooLow), s, expected);
      }
    }
  }

  lemma FinishKeepsValid(q: Queue, t: Ticket, ok: bool, expected: nat)
    requires Valid(q) && t in q.runs
    ensures Valid(FinishRun(q, t, ok, expected))
  {
    hide PendingAgree, QueuedAgree, HashesAgree, RunsAgree, TimersAgree;
    var outcome := if ok then Resolved else RunFailed;
    EndKeepsConsistent(q, t, outcome);
    PumpKeepsValid(EndRun(q, t, outcome), q.runs[t].signer, expected);
  }

  lemma FireKeepsValid(q: Queue, id: TimerId, expected: nat)
    requires Valid(q) && id in q.timers
    ensures Valid(FireTimer(q, id, expected))
  {
    hide PendingAgree, QueuedAgree, FlightsAgree, HashesAgree, RunsAgree;
    var s := q.timers[id];
    var unarmed := ClearDeadline(q, s);
    ClearKeepsConsistent(q, s);
    if s !in unarmed.active {
      var moved := Advance(unarmed, s, expected);
      AdvanceKeepsConsistent(unarmed, s, expected);
      if s in moved.cursor && moved.cursor[s] in moved.pending[s] {
        PumpKeepsValid(moved, s, expected);
      } else {
        DropKeepsConsistent(moved, s, moved.pending[s].Keys, NonceGapTimeout);
        ForgetKeepsConsistent(Drop(moved, s, moved.pending[s].Keys, NonceGapTimeout), s);
      }
    }
  }

  lemma EnqueueKeepsValid(q: Queue, s: Address, nonce: nat, hash: Hash)
    requires Valid(q)
    ensures Valid(EnqueueEntry(q, s, nonce, hash))
  {
    hide PendingAgree, QueuedAgree, FlightsAgree, HashesAgree, RunsAgree, TimersAgree;
    if hash !in q.byHash && nonce !in PendingOf(q, s) {
      AddKeepsEntries(q, s, nonce, hash);
      AddKeepsHashes(q, s, nonce, hash);
      AddKeepsTasks(q, s, nonce, hash);
    }
  }

  /**
   * After every event, entries, hashes, runs and timers agree and every live signer is active,
   * has its gap timer armed or has a pump scheduled.
   */
  lemma EventKeepsValid(q: Queue, e: Event, expected: nat)
    requires Valid(q)
    ensures Valid(Exec(q, e, expected))
  {
    hide PendingAgree, QueuedAgree, FlightsAgree, HashesAgree, RunsAgree, TimersAgree;
    match e
    case Enqueue(s, nonce, hash) => EnqueueKeepsValid(q, s, nonce, hash);
    case Pump(s) =>
      if s in q.pumps {
        PoppedKeepsConsistent(q, s);
        PumpKeepsValid(q.(pumps := q.pumps - multiset{s}), s, expected);
      }
    case Finish(t, ok) => if t in q.runs { FinishKeepsValid(q, t, ok, expected); }
    case Fire(id) => if id in q.timers { FireKeepsValid(q, id, expected); }
  }

  // ---- Promises and releases across events ----

  /** Promises are never dropped, keep their hash, and once settled keep their outcome. */
  predicate PromisesKept(q: Queue, r: Queue) {
    && |q.waiters| <= |r.waiters|
    && forall t :: 0 <= t < |q.waiters| ==>
         && r.waiters[t].hash == q.waiters[t].hash
         && (q.waiters[t].place.Settled? ==> r.waiters[t] == q.waiters[t])
         && (q.waiters[t].place.Running? ==> !r.waiters[t].place.Queued?)
         && (q.waiters[t].place.Queued? && r.waiters[t].place.Queued? ==> r.waiters[t] == q.waiters[t])
  }

  lemma PromisesTransitive(q: Queue, r: Queue, s: Queue)
    requires PromisesKept(q, r) && PromisesKept(r, s)
    ensures PromisesKept(q, s)
  {
  }

  lemma LaunchKeepsPromises(q: Queue, s: Address, n: nat, expected: nat)
    requires PendingAgree(q) && s in q.pending && n in q.pending[s]
    ensures PromisesKept(q, Launch(q, s, n, expected))
  {
    assert q.waiters[q.pending[s][n].ticket] == Waiter(q.pending[s][n].hash, Queued(s, n));
  }

  lemma EndKeepsPromises(q: Queue, t: Ticket, outcome: Outcome)
    requires FlightsAgree(q) && t in q.runs
    ensures PromisesKept(q, EndRun(q, t, outcome))
  {
  }

  lemma DecideKeepsPromises(q: Queue, s: Address, expected: nat)
    requires Consistent(q) && s in q.pending && s in q.cursor
    ensures PromisesKept(q, Decide(q, s, expected))
  {
    hide QueuedAgree, FlightsAgree, HashesAgree, RunsAgree, TimersAgree, PromisesKept;
    if q.cursor[s] in q.pending[s] {
      LaunchKeepsPromises(ClearDeadline(q, s), s, q.cursor[s], expected);
    }
    SameWaitersKept(q, ClearDeadline(q, s));
    SameWaitersKept(q, Forget(q, s));
    SameWaitersKept(q, ArmDeadline(q, s));
    if q.cursor[s] in q.pending[s] {
      PromisesTransitive(q, ClearDeadline(q, s), Decide(q, s, expected));
    }
  }

  lemma SameWaitersKept(q: Queue, r: Queue)
    requires q.waiters == r.waiters
    ensures PromisesKept(q, r)
  {
  }

  lemma DropKeepsPromises(q: Queue, s: Address, nonces: set<nat>, outcome: Outcome)
    requires s in q.pending && nonces <= q.pending[s].Keys
    ensures PromisesKept(q, Drop(q, s, nonces, outcome))
  {
  }

  lemma PumpKeepsPromises(q: Queue, s: Address, expected: nat)
    requires Consistent(q)
    ensures PromisesKept(q, PumpSigner(q, s, expected))
  {
    hide PendingAgree, QueuedAgree, FlightsAgree, HashesAgree, RunsAgree, TimersAgree, PromisesKept;
    SameWaitersKept(q, q);
    SameWaitersKept(q, Forget(q, s));
    if s in q.pending && s !in q.active && (s in q.cursor || q.pending[s] != map[]) {
      var pinned := Pin(q, s, expected);
      PinKeepsConsistent(q, s, expected);
      SameWaitersKept(q, pinned);
      var stale := TooLow(q.pending[s], pinned.cursor[s]);
      var dropped := Drop(pinned, s, stale, NonceTooLow);
      DropKeepsConsistent(pinned, s, stale, NonceTooLow);
      DropKeepsPromises(pinned, s, stale, NonceTooLow);
      DecideKeepsPromises(dropped, s, expected);
      PromisesTransitive(q, pinned, dropped);
      PromisesTransitive(q, dropped, PumpSigner(q, s, expected));
    }
  }

  lemma FinishKeepsPromises(q: Queue, t: Ticket, ok: bool, expected: nat)
    requires Consistent(q) && t in q.runs
    ensures PromisesKept(q, FinishRun(q, t, ok, expected))
  {
    hide PendingAgree, QueuedAgree, HashesAgree, RunsAgree, TimersAgree, PromisesKept;
    var outcome := if ok then Resolved else RunFailed;
    EndKeepsConsistent(q, t, outcome);
    EndKeepsPromises(q, t, outcome);
    PumpKeepsPromises(EndRun(q, t, outcome), q.runs[t].signer, expected);
    PromisesTransitive(q, EndRun(q, t, outcome), FinishRun(q, t, ok, expected));
  }

  lemma FireKeepsPromises(q: Queue, id: TimerId, expected: nat)
    requires Consistent(q) && id in q.timers
    ensures PromisesKept(q, FireTimer(q, id, expected))
  {
    hide PendingAgree, QueuedAgree, FlightsAgree, HashesAgree, RunsAgree, PromisesKept;
    var s := q.timers[id];
    var unarmed := ClearDeadline(q, s);
    ClearKeepsConsistent(q, s);
    SameWaitersKept(q, unarmed);
    if s !in unarmed.active {
      var moved := Advance(unarmed, s, expected);
      AdvanceKeepsConsistent(unarmed, s, expected);
      SameWaitersKept(q, moved);
      if s in moved.cursor && moved.cursor[s] in moved.pending[s] {
        PumpKeepsPromises(moved, s, expected);
        PromisesTransitive(q, moved, FireTimer(q, id, expected));
      } else {
        var dropped := Drop(moved, s, moved.pending[s].Keys, NonceGapTimeout);
        DropKeepsPromises(moved, s, moved.pending[s].Keys, NonceGapTimeout);
        SameWaitersKept(dropped, Forget(dropped, s));
        PromisesTransitive(q, moved, dropped);
        PromisesTransitive(q, dropped, FireTimer(q, id, expected));
      }
    }
  }

  /** The signer whose expected nonce an event asks for. */
  function Subject(q: Queue, e: Event): Address {
    if e.Enqueue? || e.Pump? then e.signer
    else if e.Finish? && e.ticket in q.runs then q.runs[e.ticket].signer
    else if e.Fire? && e.timer in q.timers then q.timers[e.timer]
    else ZeroAddress()
  }

  /**
   * No event settles a promise twice, overwrites a pending entry or moves it to another nonce.
   */
  lemma EventKeepsPromises(q: Queue, e: Event, expected: nat)
    requires Consistent(q)
    ensures PromisesKept(q, Exec(q, e, expected))
  {
    hide PendingAgree, QueuedAgree, HashesAgree, FlightsAgree, RunsAgree, TimersAgree, PumpSigner, FinishRun, FireTimer;
    match e
    case Enqueue(s, nonce, hash) =>
    case Pump(s) =>
      if s in q.pumps {
        PoppedKeepsConsistent(q, s);
        PumpKeepsPromises(q.(pumps := q.pumps - multiset{s}), s, expected);
      }
    case Finish(t, ok) => if t in q.runs { FinishKeepsPromises(q, t, ok, expected); }
    case Fire(id) => if id in q.timers { FireKeepsPromises(q, id, expected); }
  }

  // ---- The cursors never run ahead of the durable count ----

  /** At most one release, for this signer and at this nonce, where its cursor may have moved too. */
  predicate MovesOnlyTo(q: Queue, r: Queue, s: Address, n: nat, expected: nat) {
    && (r.released == q.released || r.released == q.released + [Release(s, n, expected)])
    && forall o :: o in r.cursor ==> (o == s && r.cursor[o] == n) || (o in q.cursor && r.cursor[o] == q.cursor[o])
  }

  lemma DecideMovesOnlyToCursor(q: Queue, s: Address, expected: nat)
    requires PendingAgree(q) && s in q.pending && s in q.cursor
    ensures MovesOnlyTo(q, Decide(q, s, expected), s, q.cursor[s], expected)
  {
    hide PendingAgree;
  }

  lemma PumpMovesOnlyToCursor(q: Queue, s: Address, expected: nat)
    requires Consistent(q)
    ensures MovesOnlyTo(q, PumpSigner(q, s, expected), s, Pin(q, s, expected).cursor[s], expected)
  {
    hide PendingAgree, QueuedAgree, FlightsAgree, HashesAgree, RunsAgree, TimersAgree, Decide;
    if s in q.pending && s !in q.active && (s in q.cursor || q.pending[s] != map[]) {
      var pinned := Pin(q, s, expected);
      PinKeepsConsistent(q, s, expected);
      var stale := TooLow(q.pending[s], pinned.cursor[s]);
      DropKeepsConsistent(pinned, s, stale, NonceTooLow);
      var dropped := Drop(pinned, s, stale, NonceTooLow);
      assert dropped.released == q.released && dropped.cursor == q.cursor[s := pinned.cursor[s]];
      hide Drop, TooLow, MovesOnlyTo;
      DecideMovesOnlyToCursor(dropped, s, expected);
      MovesFromPinned(q, dropped, Decide(dropped, s, expected), s, pinned.cursor[s], expected);
    } else {
      UnmovedOrForgotten(q, s, expected);
    }
  }

  lemma MovesFromPinned(q: Queue, pinned: Queue, r: Queue, s: Address, n: nat, expected: nat)
    requires pinned.released == q.released && pinned.cursor == q.cursor[s := n]
    requires MovesOnlyTo(pinned, r, s, n, expected)
    ensures MovesOnlyTo(q, r, s, n, expected)
  {
  }

  lemma UnmovedOrForgotten(q: Queue, s: Address, expected: nat)
    ensures MovesOnlyTo(q, q, s, Pin(q, s, expected).cursor[s], expected)
    ensures MovesOnlyTo(q, Forget(q, s), s, Pin(q, s, expected).cursor[s], expected)
  {
  }

  lemma FireMovesOnlyToCursor(q: Queue, id: TimerId, expected: nat)
    requires Consistent(q) && id in q.timers
    ensures var s := q.timers[id];
            MovesOnlyTo(q, FireTimer(q, id, expected), s, Pin(q, s, expected).cursor[s], expected)
  {
    hide PendingAgree, QueuedAgree, FlightsAgree, HashesAgree, RunsAgree, PumpSigner;
    var s := q.timers[id];
    ClearKeepsConsistent(q, s);
    AdvanceKeepsConsistent(ClearDeadline(q, s), s, expected);
    PumpMovesOnlyToCursor(Advance(ClearDeadline(q, s), s, expected), s, expected);
  }

  lemma FinishMovesOnlyToCursor(q: Queue, t: Ticket, ok: bool, expected: nat)
    requires Consistent(q) && t in q.runs
    ensures var s := q.runs[t].signer;
            MovesOnlyTo(q, FinishRun(q, t, ok, expected), s, Pin(q, s, expected).cursor[s], expected)
  {
    hide PendingAgree, QueuedAgree, HashesAgree, RunsAgree, TimersAgree, PumpSigner;
    var outcome := if ok then Resolved else RunFailed;
    EndKeepsConsistent(q, t, outcome);
    PumpMovesOnlyToCursor(EndRun(q, t, outcome), q.runs[t].signer, expected);
  }

  /** An event releases at most one entry: its subject's, at the cursor it pins. */
  lemma EventMovesOnlyToCursor(q: Queue, e: Event, expected: nat)
    requires Consistent(q)
    ensures var s := Subject(q, e);
            MovesOnlyTo(q, Exec(q, e, expected), s, Pin(q, s, expected).cursor[s], expected)
  {
    hide PendingAgree, QueuedAgree, HashesAgree, FlightsAgree, RunsAgree, TimersAgree, PumpSigner, FinishRun, FireTimer;
    match e
    case Enqueue(s, nonce, hash) =>
    case Pump(s) =>
      if s in q.pumps {
        PoppedKeepsConsistent(q, s);
        PumpMovesOnlyToCursor(q.(pumps := q.pumps - multiset{s}), s, expected);
      }
    case Finish(t, ok) => if t in q.runs { FinishMovesOnlyToCursor(q, t, ok, expected); }
    case Fire(id) => if id in q.timers { FireMovesOnlyToCursor(q, id, expected); }
  }

  /** Every cursor is at most the signer's durable expected nonce. */
  predicate CursorsBelow(q: Queue, expected: Address -> nat) {
    forall s :: s in q.cursor ==> q.cursor[s] <= expected(s)
  }

  /**
   * While every cursor is at most the durable count, an event releases an entry only at a nonce
   * equal to that count, and leaves every cursor at most the count.
   */
  lemma ReleaseAtExpected(q: Queue, e: Event, expected: Address -> nat)
    requires Consistent(q) && CursorsBelow(q, expected)
    ensures var s := Subject(q, e);
            MovesOnlyTo(q, Exec(q, e, expected(s)), s, expected(s), expected(s))
    ensures CursorsBelow(Exec(q, e, expected(Subject(q, e))), expected)
  {
    hide Exec, PendingAgree, QueuedAgree, HashesAgree, FlightsAgree, RunsAgree, TimersAgree;
    EventMovesOnlyToCursor(q, e, expected(Subject(q, e)));
  }
}
