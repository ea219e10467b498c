/**
 * What becomes of every promise of the admission queue of rpc-src/transaction-queue.ts, event by event,
 * told by the promises alone: which event settles which of them, and with what outcome.
 */
module QueuePromises {
  import opened Addresses
  import opened TransactionQueue

  predicate Live(w: Waiter) {
    !w.place.Settled?
  }

  /** The nonce a decision for this signer is about: its cursor, moved up to the durable next nonce. */
  function Turn(q: Queue, s: Address, expected: nat): nat {
    if s in q.cursor then Max(q.cursor[s], expected) else expected
  }

  predicate Awaited(q: Queue, s: Address, n: nat) {
    exists t :: 0 <= t < |q.waiters| && q.waiters[t].place == Queued(s, n)
  }

  predicate Waits(q: Queue, s: Address) {
    exists t :: 0 <= t < |q.waiters| && q.waiters[t].place.Queued? && q.waiters[t].place.signer == s
  }

  predicate Busy(q: Queue, s: Address) {
    exists t :: 0 <= t < |q.waiters| && q.waiters[t].place == Running(s)
  }

  /** The timer that fires is this signer's, and its turn is known and waiting. */
  predicate FiresInTurn(q: Queue, id: TimerId, s: Address, expected: nat) {
    id in q.timers && q.timers[id] == s && s in q.cursor && Awaited(q, s, Turn(q, s, expected))
  }

  /** The event has the queue decide what this signer does next. */
  predicate Decides(q: Queue, e: Event, s: Address, expected: nat) {
    match e
    case Enqueue(_, _, _) => false
    case Pump(p) => p == s && s in q.pumps && !Busy(q, s)
    case Finish(t, _) => t < |q.waiters| && q.waiters[t].place == Running(s)
    case Fire(id) => FiresInTurn(q, id, s, expected)
  }

  /** The signer's gap timer fires, and nothing waits for its turn. */
  predicate TimesOut(q: Queue, e: Event, s: Address, expected: nat) {
    e.Fire? && e.timer in q.timers && q.timers[e.timer] == s && !FiresInTurn(q, e.timer, s, expected)
  }

  /** Where a waiting promise stands after its signer's decision. */
  function Decided(s: Address, n: nat, turn: nat): Place {
    if n < turn then Settled(NonceTooLow) else if n == turn then Running(s) else Queued(s, n)
  }

  /**
   * Where a promise stands after an event. A run's own end resolves or fails it; a decision for its
   * signer settles it as too low, starts it or leaves it, by its nonce alone; a gap timeout takes all
   * that wait for its signer; nothing else moves it.
   */
  function Destiny(q: Queue, e: Event, expected: nat, t: Ticket): Place
    requires t < |q.waiters|
  {
    match q.waiters[t].place
    case Settled(outcome) => Settled(outcome)
    case Running(s) => if e.Finish? && e.ticket == t then Settled(if e.ok then Resolved else RunFailed) else Running(s)
    case Queued(s, n) =>
      if Decides(q, e, s, expected) then Decided(s, n, Turn(q, s, expected))
      else if TimesOut(q, e, s, expected) then Settled(NonceGapTimeout)
      else Queued(s, n)
  }

  /** A new promise is made only for a hash and a nonce that no live promise stands for. */
  predicate Admits(q: Queue, e: Event) {
    && e.Enqueue?
    && forall t :: 0 <= t < |q.waiters| && Live(q.waiters[t]) ==>
         q.waiters[t].hash != e.hash && q.waiters[t].place != Queued(e.signer, e.nonce)
  }

  // ---- The promises are the indexes ----

  lemma AwaitedMeans(q: Queue, s: Address, n: nat)
    requires PendingAgree(q) && QueuedAgree(q)
    ensures Awaited(q, s, n) <==> s in q.pending && n in q.pending[s]
  {
    if s in q.pending && n in q.pending[s] {
      assert q.waiters[q.pending[s][n].ticket].place == Queued(s, n);
    }
  }

  lemma WaitsMeans(q: Queue, s: Address)
    requires PendingAgree(q) && QueuedAgree(q)
    ensures Waits(q, s) <==> s in q.pending && q.pending[s] != map[]
  {
    if s in q.pending && q.pending[s] != map[] {
      var n :| n in q.pending[s];
      assert q.waiters[q.pending[s][n].ticket].place == Queued(s, n);
    }
  }

  lemma BusyMeans(q: Queue, s: Address)
    requires FlightsAgree(q) && RunsAgree(q)
    ensures Busy(q, s) <==> s in q.active
  {
    if s in q.active {
      assert q.waiters[q.active[s]].place == Running(s);
    }
  }

  lemma AdmitsMeans(q: Queue, e: Event)
    requires Consistent(q) && e.Enqueue?
    ensures Admits(q, e) <==> e.hash !in q.byHash && e.nonce !in PendingOf(q, e.signer)
  {
    AwaitedMeans(q, e.signer, e.nonce);
    hide PendingAgree, QueuedAgree, FlightsAgree, RunsAgree, TimersAgree;
    if e.hash in q.byHash {
      assert Live(q.waiters[q.byHash[e.hash]]);
    }
  }

  // ---- One decision ----

  /** After a decision: a release exactly if the turn was waited for; otherwise forgotten if nothing waits, timed if something does. */
  predicate Concludes(q: Queue, r: Queue, s: Address, turn: nat, expected: nat) {
    && r.released == (if Awaited(q, s, turn) then q.released + [Release(s, turn, expected)] else q.released)
    && r.pumps == q.pumps
    && (!Busy(r, s) && Waits(r, s) ==> s in r.deadline)
    && (!Busy(r, s) && !Waits(r, s) ==> s !in r.pending && s !in r.cursor && s !in r.deadline)
    && (s in r.cursor ==> r.cursor[s] == turn)
  }

  /** The promise after a decision for this signer at this turn. */
  function AfterDecision(w: Waiter, s: Address, turn: nat): Waiter {
    if w.place.Queued? && w.place.signer == s then w.(place := Decided(s, w.place.nonce, turn)) else w
  }

  /** The queue a decision is taken on: the cursor pinned, the stale entries gone. */
  function Purged(q: Queue, s: Address, expected: nat): Queue
    requires s in q.pending
  {
    Drop(Pin(q, s, expected), s, TooLow(q.pending[s], Turn(q, s, expected)), NonceTooLow)
  }

  lemma PumpStages(q: Queue, s: Address, expected: nat)
    requires Consistent(q) && s !in q.active && s in q.pending && (s in q.cursor || q.pending[s] != map[])
    ensures var p, turn := Purged(q, s, expected), Turn(q, s, expected);
            && Consistent(p) && s in p.pending && s in p.cursor && s !in p.active && p.cursor[s] == turn
            && (turn in p.pending[s] <==> turn in q.pending[s])
            && p.released == q.released && p.pumps == q.pumps && |p.waiters| == |q.waiters|
            && PumpSigner(q, s, expected) == Decide(p, s, expected)
  {
    hide PendingAgree, QueuedAgree, FlightsAgree, HashesAgree, RunsAgree, TimersAgree, Decide;
    PinKeepsConsistent(q, s, expected);
    DropKeepsConsistent(Pin(q, s, expected), s, TooLow(q.pending[s], Turn(q, s, expected)), NonceTooLow);
  }

  lemma PurgedWaiter(q: Queue, s: Address, expected: nat, t: Ticket)
    requires s in q.pending && QueuedAgree(q) && t < |q.waiters|
    ensures var p, w := Purged(q, s, expected), q.waiters[t];
            && |p.waiters| == |q.waiters|
            && p.waiters[t] == if w.place.Queued? && w.place.signer == s && w.place.nonce < Turn(q, s, expected)
                               then w.(place := Settled(NonceTooLow)) else w
  {
  }

  lemma LaunchedWaiter(q: Queue, s: Address, turn: nat, expected: nat, t: Ticket)
    requires PendingAgree(q) && QueuedAgree(q) && s in q.pending && turn in q.pending[s] && t < |q.waiters|
    ensures var r, w := Launch(q, s, turn, expected), q.waiters[t];
            |r.waiters| == |q.waiters| && r.waiters[t] == if w.place == Queued(s, turn) then w.(place := Running(s)) else w
  {
    assert q.waiters[q.pending[s][turn].ticket] == Waiter(q.pending[s][turn].hash, Queued(s, turn));
  }

  lemma ClearedKeeps(q: Queue, s: Address)
    ensures var r := ClearDeadline(q, s); r.pending == q.pending && r.waiters == q.waiters && r.cursor == q.cursor
                                          && r.released == q.released && r.pumps == q.pumps && r.active == q.active
    ensures s !in ClearDeadline(q, s).deadline
    ensures PendingAgree(q) && QueuedAgree(q) ==> PendingAgree(ClearDeadline(q, s)) && QueuedAgree(ClearDeadline(q, s))
  {
  }

  /** What the release decision does to a promise, once the stale ones are gone. */
  lemma DecideWaiter(q: Queue, s: Address, expected: nat, t: Ticket)
    requires PendingAgree(q) && QueuedAgree(q) && s in q.pending && s in q.cursor && t < |q.waiters|
    ensures var r, turn, w := Decide(q, s, expected), q.cursor[s], q.waiters[t];
            |r.waiters| == |q.waiters| && r.waiters[t] == if w.place == Queued(s, turn) then w.(place := Running(s)) else w
  {
    ClearedKeeps(q, s);
    if q.waiters[t].place == Queued(s, q.cursor[s]) {
      QueuedPending(q, s, t);
    }
    hide PendingAgree, QueuedAgree, Launch, ClearDeadline;
    if q.cursor[s] in q.pending[s] {
      LaunchedWaiter(ClearDeadline(q, s), s, q.cursor[s], expected, t);
    }
  }

  lemma QueuedPending(q: Queue, s: Address, t: Ticket)
    requires QueuedAgree(q) && t < |q.waiters| && q.waiters[t].place.Queued? && q.waiters[t].place.signer == s
    ensures s in q.pending && q.waiters[t].place.nonce in q.pending[s]
  {
  }

  lemma PumpWaiter(q: Queue, s: Address, expected: nat, t: Ticket)
    requires Consistent(q) && s !in q.active && t < |q.waiters|
    ensures var r := PumpSigner(q, s, expected);
            |r.waiters| == |q.waiters| && r.waiters[t] == AfterDecision(q.waiters[t], s, Turn(q, s, expected))
  {
    hide PendingAgree, QueuedAgree, FlightsAgree, HashesAgree, RunsAgree, TimersAgree;
    if q.waiters[t].place.Queued? && q.waiters[t].place.signer == s {
      QueuedPending(q, s, t);
    }
    if s in q.pending && (s in q.cursor || q.pending[s] != map[]) {
      PumpStages(q, s, expected);
      PurgedWaiter(q, s, expected, t);
      hide PumpSigner, Purged, Decide, Turn;
      DecideWaiter(Purged(q, s, expected), s, expected, t);
    }
  }

  lemma DecideConcludes(q: Queue, s: Address, expected: nat)
    requires Consistent(q) && s in q.pending && s in q.cursor && s !in q.active
    ensures Concludes(q, Decide(q, s, expected), s, q.cursor[s], expected)
  {
    AwaitedMeans(q, s, q.cursor[s]);
    if q.cursor[s] in q.pending[s] {
      LaunchConcludes(q, s, expected);
    } else if q.pending[s] == map[] {
      ForgetConcludes(q, s, expected);
    } else {
      ArmConcludes(q, s, expected);
    }
    hide Consistent, Awaited, Concludes, Launch, Forget, ArmDeadline;
  }

  lemma LaunchConcludes(q: Queue, s: Address, expected: nat)
    requires Consistent(q) && s in q.pending && s in q.cursor && s !in q.active && q.cursor[s] in q.pending[s]
    ensures Concludes(q, Launch(ClearDeadline(q, s), s, q.cursor[s], expected), s, q.cursor[s], expected)
  {
    AwaitedMeans(q, s, q.cursor[s]);
    ClearedKeeps(q, s);
    ClearKeepsConsistent(q, s);
    LaunchKeepsConsistent(ClearDeadline(q, s), s, q.cursor[s], expected);
    BusyMeans(Launch(ClearDeadline(q, s), s, q.cursor[s], expected), s);
    hide Consistent, Awaited, Waits, Busy, ClearDeadline;
  }

  lemma ForgetConcludes(q: Queue, s: Address, expected: nat)
    requires Consistent(q) && s in q.pending && s in q.cursor && s !in q.active && q.pending[s] == map[]
    ensures Concludes(q, Forget(q, s), s, q.cursor[s], expected)
  {
    AwaitedMeans(q, s, q.cursor[s]);
    ClearedKeeps(q, s);
    ForgetKeepsConsistent(q, s);
    WaitsMeans(Forget(q, s), s);
    hide Consistent, Awaited, Waits, Busy, ClearDeadline;
  }

  lemma ArmConcludes(q: Queue, s: Address, expected: nat)
    requires Consistent(q) && s in q.pending && s in q.cursor && s !in q.active
    requires q.pending[s] != map[] && q.cursor[s] !in q.pending[s]
    ensures Concludes(q, ArmDeadline(q, s), s, q.cursor[s], expected)
  {
    AwaitedMeans(q, s, q.cursor[s]);
    ArmKeepsConsistent(q, s);
    WaitsMeans(ArmDeadline(q, s), s);
    hide Consistent, Awaited, Waits, Busy;
  }

  lemma PumpConcludes(q: Queue, s: Address, expected: nat)
    requires Consistent(q) && s !in q.active && s in q.pending
    ensures Concludes(q, PumpSigner(q, s, expected), s, Turn(q, s, expected), expected)
  {
    AwaitedMeans(q, s, Turn(q, s, expected));
    if s in q.cursor || q.pending[s] != map[] {
      PumpStages(q, s, expected);
      var p := Purged(q, s, expected);
      AwaitedMeans(p, s, p.cursor[s]);
      hide PumpSigner, Purged, Decide, Turn, Consistent, Awaited, Waits, Busy;
      DecideConcludes(p, s, expected);
    } else {
      ClearedKeeps(q, s);
      ForgetKeepsConsistent(q, s);
      WaitsMeans(Forget(q, s), s);
      hide Consistent, Awaited, Waits, Busy, ClearDeadline;
    }
  }

  // ---- Every event ----

  /** One promise stands where its destiny puts it. */
  predicate FatedAt(q: Queue, e: Event, expected: nat, r: Queue, t: Ticket)
    requires t < |q.waiters|
  {
    |r.waiters| >= |q.waiters| && r.waiters[t] == Waiter(q.waiters[t].hash, Destiny(q, e, expected, t))
  }

  /** Every promise stands where its destiny puts it; at most one new one is made, for what was admitted. */
  predicate Fated(q: Queue, e: Event, expected: nat, r: Queue) {
    && |r.waiters| == |q.waiters| + (if Admits(q, e) then 1 else 0)
    && (forall t :: 0 <= t < |q.waiters| ==> FatedAt(q, e, expected, r, t))
    && (Admits(q, e) ==> r.waiters[|q.waiters|] == Waiter(e.hash, Queued(e.signer, e.nonce)))
  }

  lemma EnqueueFated(q: Queue, e: Event, expected: nat)
    requires Consistent(q) && e.Enqueue?
    ensures Fated(q, e, expected, Exec(q, e, expected))
  {
    hide PendingAgree, QueuedAgree, FlightsAgree, HashesAgree, RunsAgree, TimersAgree, Admits;
    AdmitsMeans(q, e);
    forall t | 0 <= t < |q.waiters| ensures FatedAt(q, e, expected, Exec(q, e, expected), t) {}
  }

  lemma PumpFated(q: Queue, e: Event, expected: nat, t: Ticket)
    requires Consistent(q) && e.Pump? && t < |q.waiters|
    ensures FatedAt(q, e, expected, Exec(q, e, expected), t)
  {
    hide PendingAgree, QueuedAgree, FlightsAgree, HashesAgree, RunsAgree, TimersAgree, Busy;
    BusyMeans(q, e.signer);
    PoppedKeepsConsistent(q, e.signer);
    if e.signer in q.pumps && e.signer !in q.active {
      hide PumpSigner;
      PumpWaiter(q.(pumps := q.pumps - multiset{e.signer}), e.signer, expected, t);
    }
  }

  /** A run that has ended: its own promise has its outcome, every other is where it was, its signer is idle. */
  lemma EndedMeans(q: Queue, t: Ticket, outcome: Outcome, u: Ticket)
    requires FlightsAgree(q) && t in q.runs && u < |q.waiters|
    ensures var ended, s := EndRun(q, t, outcome), q.runs[t].signer;
            && |ended.waiters| == |q.waiters| && s !in ended.active
            && ended.cursor == q.cursor && ended.pending == q.pending && ended.pumps == q.pumps && ended.released == q.released
            && ended.waiters[u] == if u == t then q.waiters[u].(place := Settled(outcome)) else q.waiters[u]
  {
  }

  lemma FinishFated(q: Queue, e: Event, expected: nat, t: Ticket)
    requires Consistent(q) && e.Finish? && t < |q.waiters|
    ensures FatedAt(q, e, expected, Exec(q, e, expected), t)
  {
    hide PendingAgree, QueuedAgree, FlightsAgree, HashesAgree, RunsAgree, TimersAgree, PumpSigner, EndRun;
    RunningMeans(q, e.ticket);
    if e.ticket in q.runs {
      var outcome := if e.ok then Resolved else RunFailed;
      EndKeepsConsistent(q, e.ticket, outcome);
      EndedMeans(q, e.ticket, outcome, t);
      PumpWaiter(EndRun(q, e.ticket, outcome), q.runs[e.ticket].signer, expected, t);
    }
  }

  lemma RunningMeans(q: Queue, t: Ticket)
    requires FlightsAgree(q)
    ensures t in q.runs <==> t < |q.waiters| && q.waiters[t].place.Running?
    ensures t in q.runs ==> q.runs[t].entry.ticket == t && q.waiters[t].place == Running(q.runs[t].signer)
  {
  }

  /** What a firing timer finds: its signer idle, with something that may wait for its turn. */
  lemma FiringMeans(q: Queue, id: TimerId, expected: nat)
    requires Consistent(q) && id in q.timers
    ensures var s := q.timers[id];
            var moved := Advance(ClearDeadline(q, s), s, expected);
            && s in q.pending && s !in q.active && Consistent(moved)
            && moved.pending == q.pending && moved.waiters == q.waiters && moved.active == q.active
            && (s in moved.cursor && moved.cursor[s] in moved.pending[s] <==> FiresInTurn(q, id, s, expected))
            && (s in moved.cursor ==> Turn(moved, s, expected) == Turn(q, s, expected))
  {
    hide PendingAgree, QueuedAgree, FlightsAgree, HashesAgree, RunsAgree, TimersAgree, Awaited;
    var s := q.timers[id];
    TimerIdle(q, id);
    AwaitedMeans(q, s, Turn(q, s, expected));
    AdvancedTurn(q, s, expected);
    ClearKeepsConsistent(q, s);
    AdvanceKeepsConsistent(ClearDeadline(q, s), s, expected);
    hide ClearDeadline, Advance, Turn;
  }

  lemma AdvancedTurn(q: Queue, s: Address, expected: nat)
    ensures var moved := Advance(ClearDeadline(q, s), s, expected);
            && moved.pending == q.pending && moved.waiters == q.waiters && moved.active == q.active
            && moved.released == q.released && moved.pumps == q.pumps
            && (s in moved.cursor <==> s in q.cursor)
            && (s in moved.cursor ==> moved.cursor[s] == Turn(q, s, expected) == Turn(moved, s, expected))
  {
    ClearedKeeps(q, s);
    hide ClearDeadline, PendingAgree, QueuedAgree;
  }

  lemma TimerIdle(q: Queue, id: TimerId)
    requires TimersAgree(q) && id in q.timers
    ensures q.timers[id] in q.pending && q.timers[id] !in q.active
  {
  }

  /** The gap timeout settles all that wait for one signer. */
  lemma TimedOutWaiter(q: Queue, s: Address, t: Ticket)
    requires QueuedAgree(q) && s in q.pending && t < |q.waiters|
    ensures var r, w := Forget(Drop(q, s, q.pending[s].Keys, NonceGapTimeout), s), q.waiters[t];
            && |r.waiters| == |q.waiters|
            && r.waiters[t] == if w.place.Queued? && w.place.signer == s then w.(place := Settled(NonceGapTimeout)) else w
  {
    if q.waiters[t].place.Queued? && q.waiters[t].place.signer == s {
      QueuedPending(q, s, t);
    }
    hide QueuedAgree;
  }

  /** What a firing timer has in store for a promise. */
  lemma FireDestiny(q: Queue, e: Event, expected: nat, t: Ticket)
    requires e.Fire? && e.timer in q.timers && t < |q.waiters|
    ensures var s, w := q.timers[e.timer], q.waiters[t];
            Destiny(q, e, expected, t)
            == if w.place.Queued? && w.place.signer == s then
                 if FiresInTurn(q, e.timer, s, expected) then Decided(s, w.place.nonce, Turn(q, s, expected)) else Settled(NonceGapTimeout)
               else w.place
  {
    hide Awaited, Turn;
  }

  lemma FireFated(q: Queue, e: Event, expected: nat, t: Ticket)
    requires Consistent(q) && e.Fire? && t < |q.waiters|
    ensures FatedAt(q, e, expected, Exec(q, e, expected), t)
  {
    hide PendingAgree, QueuedAgree, FlightsAgree, HashesAgree, RunsAgree, TimersAgree;
    if e.timer in q.timers {
      var s := q.timers[e.timer];
      var moved := Advance(ClearDeadline(q, s), s, expected);
      FiringMeans(q, e.timer, expected);
      FireDestiny(q, e, expected, t);
      hide ClearDeadline, Advance, PumpSigner, Drop, Forget, Turn, Destiny;
      if FiresInTurn(q, e.timer, s, expected) {
        hide FiresInTurn;
        PumpWaiter(moved, s, expected, t);
      } else {
        hide FiresInTurn;
        TimedOutWaiter(moved, s, t);
      }
    }
  }

  /** Only an admission makes a promise. */
  lemma SameCount(q: Queue, e: Event, expected: nat)
    requires Consistent(q) && !e.Enqueue?
    ensures |Exec(q, e, expected).waiters| == |q.waiters|
  {
    hide PendingAgree, QueuedAgree, FlightsAgree, HashesAgree, RunsAgree, TimersAgree;
    match e
    case Enqueue(_, _, _) =>
    case Pump(s) =>
      PoppedKeepsConsistent(q, s);
      PumpCount(q.(pumps := q.pumps - multiset{s}), s, expected);
    case Finish(t, ok) =>
      if t in q.runs {
        RunningMeans(q, t);
        EndKeepsConsistent(q, t, if ok then Resolved else RunFailed);
        PumpCount(EndRun(q, t, if ok then Resolved else RunFailed), q.runs[t].signer, expected);
        hide PumpSigner;
      }
    case Fire(id) =>
      if id in q.timers {
        FiringMeans(q, id, expected);
        PumpCount(Advance(ClearDeadline(q, q.timers[id]), q.timers[id], expected), q.timers[id], expected);
        hide PumpSigner, FiresInTurn;
      }
  }

  lemma DecideCount(q: Queue, s: Address, expected: nat)
    requires Consistent(q) && s in q.pending && s in q.cursor
    ensures |Decide(q, s, expected).waiters| == |q.waiters|
  {
    hide PendingAgree, QueuedAgree, FlightsAgree, HashesAgree, RunsAgree, TimersAgree, ClearDeadline;
    ClearedKeeps(q, s);
  }

  lemma PumpCount(q: Queue, s: Address, expected: nat)
    requires Consistent(q)
    ensures |PumpSigner(q, s, expected).waiters| == |q.waiters|
  {
    hide PendingAgree, QueuedAgree, FlightsAgree, HashesAgree, RunsAgree, TimersAgree;
    if s in q.pending && s !in q.active && (s in q.cursor || q.pending[s] != map[]) {
      PumpStages(q, s, expected);
      hide PumpSigner, Purged, Decide;
      DecideCount(Purged(q, s, expected), s, expected);
    }
  }

  /**
   * For every event and every promise: exactly what becomes of it. A promise resolves only when its own
   * run ends well and fails only when it ends badly; it is too low only when its signer's turn has passed
   * it; it times out only with its signer's timer while nothing stands at the turn; it starts to run only
   * at the turn; and it is made only for what no live promise stands for.
   */
  lemma EventFated(q: Queue, e: Event, expected: nat)
    requires Consistent(q)
    ensures Fated(q, e, expected, Exec(q, e, expected))
  {
    hide Consistent, Exec, Destiny;
    if e.Enqueue? {
      EnqueueFated(q, e, expected);
    } else {
      SameCount(q, e, expected);
      forall t | 0 <= t < |q.waiters| ensures FatedAt(q, e, expected, Exec(q, e, expected), t) {
        match e
        case Enqueue(_, _, _) =>
        case Pump(_) => PumpFated(q, e, expected, t);
        case Finish(_, _) => FinishFated(q, e, expected, t);
        case Fire(_) => FireFated(q, e, expected, t);
      }
    }
  }

  // ---- What an event does beside the promises ----

  /** The pumps that are scheduled after an event. */
  function Scheduled(q: Queue, e: Event): multiset<Address> {
    match e
    case Enqueue(s, _, _) => if Admits(q, e) then q.pumps + multiset{s} else q.pumps
    case Pump(s) => q.pumps - multiset{s}
    case _ => q.pumps
  }

  /**
   * An event releases an entry exactly when it decides for a signer whose turn is waited for. After a
   * decision an idle signer has its gap timer if something still waits and is forgotten otherwise, and so
   * it is after its gap timeout. An admission schedules a pump, and a pump is scheduled once.
   */
  predicate Follows(q: Queue, e: Event, expected: nat, r: Queue) {
    var s := Subject(q, e);
    var turn := Turn(q, s, expected);
    && r.released == (if Decides(q, e, s, expected) && Awaited(q, s, turn) then q.released + [Release(s, turn, expected)] else q.released)
    && r.pumps == Scheduled(q, e)
    && (Decides(q, e, s, expected) && s in q.pending ==> RestsOrWaits(r, s))
    && (TimesOut(q, e, s, expected) ==> s !in r.pending && s !in r.cursor && s !in r.deadline)
  }

  predicate RestsOrWaits(r: Queue, s: Address) {
    && (!Busy(r, s) && Waits(r, s) ==> s in r.deadline)
    && (!Busy(r, s) && !Waits(r, s) ==> s !in r.pending && s !in r.cursor && s !in r.deadline)
  }

  lemma PumpFollows(q: Queue, e: Event, expected: nat)
    requires Consistent(q) && e.Pump?
    ensures Follows(q, e, expected, Exec(q, e, expected))
  {
    hide PendingAgree, QueuedAgree, FlightsAgree, HashesAgree, RunsAgree, TimersAgree, Busy, Waits, PumpSigner;
    var s := e.signer;
    var popped := q.(pumps := q.pumps - multiset{s});
    BusyMeans(q, s);
    PoppedKeepsConsistent(q, s);
    AwaitedMeans(q, s, Turn(q, s, expected));
    AwaitedMeans(popped, s, Turn(q, s, expected));
    hide Awaited;
    if s in q.pumps && s !in q.active {
      if s in q.pending {
        PumpConcludes(popped, s, expected);
      } else {
        PumpUnknown(popped, s, expected);
      }
    } else if s in q.pumps {
      PumpUnknown(popped, s, expected);
    }
  }

  lemma PumpUnknown(q: Queue, s: Address, expected: nat)
    requires PendingAgree(q) && (s !in q.pending || s in q.active)
    ensures PumpSigner(q, s, expected) == q
  {
    hide PendingAgree;
  }

  lemma FinishFollows(q: Queue, e: Event, expected: nat)
    requires Consistent(q) && e.Finish?
    ensures Follows(q, e, expected, Exec(q, e, expected))
  {
    hide PendingAgree, QueuedAgree, FlightsAgree, HashesAgree, RunsAgree, TimersAgree, Busy, Waits, PumpSigner, EndRun;
    RunningMeans(q, e.ticket);
    if e.ticket in q.runs {
      var outcome := if e.ok then Resolved else RunFailed;
      var s, ended := q.runs[e.ticket].signer, EndRun(q, e.ticket, outcome);
      EndKeepsConsistent(q, e.ticket, outcome);
      EndedMeans(q, e.ticket, outcome, e.ticket);
      AwaitedMeans(q, s, Turn(q, s, expected));
      AwaitedMeans(ended, s, Turn(q, s, expected));
      hide Awaited;
      RunnerPending(q, e.ticket);
      PumpConcludes(ended, s, expected);
    }
  }

  lemma RunnerPending(q: Queue, t: Ticket)
    requires RunsAgree(q) && t in q.runs
    ensures q.runs[t].signer in q.pending
  {
  }

  lemma FireFollows(q: Queue, e: Event, expected: nat)
    requires Consistent(q) && e.Fire?
    ensures Follows(q, e, expected, Exec(q, e, expected))
  {
    hide PendingAgree, QueuedAgree, FlightsAgree, HashesAgree, RunsAgree, TimersAgree, Busy, Waits, PumpSigner, Drop;
    if e.timer in q.timers {
      var s := q.timers[e.timer];
      var moved := Advance(ClearDeadline(q, s), s, expected);
      FiringMeans(q, e.timer, expected);
      AdvancedTurn(q, s, expected);
      AwaitedMeans(q, s, Turn(q, s, expected));
      AwaitedMeans(moved, s, Turn(q, s, expected));
      hide Awaited, Advance, ClearDeadline, Forget, Turn;
      if s in moved.cursor && moved.cursor[s] in moved.pending[s] {
        PumpConcludes(moved, s, expected);
      } else {
        TimedOutFollows(moved, s);
      }
    }
  }

  lemma TimedOutFollows(q: Queue, s: Address)
    requires s in q.pending
    ensures var r := Forget(Drop(q, s, q.pending[s].Keys, NonceGapTimeout), s);
            r.released == q.released && r.pumps == q.pumps && s !in r.pending && s !in r.cursor && s !in r.deadline
  {
  }

  lemma EnqueueFollows(q: Queue, e: Event, expected: nat)
    requires Consistent(q) && e.Enqueue?
    ensures Follows(q, e, expected, Exec(q, e, expected))
  {
    hide PendingAgree, QueuedAgree, FlightsAgree, HashesAgree, RunsAgree, TimersAgree, Admits;
    AdmitsMeans(q, e);
  }

  lemma EventFollows(q: Queue, e: Event, expected: nat)
    requires Consistent(q)
    ensures Follows(q, e, expected, Exec(q, e, expected))
  {
    hide Consistent, Exec, Follows;
    match e
    case Enqueue(_, _, _) => EnqueueFollows(q, e, expected);
    case Pump(_) => PumpFollows(q, e, expected);
    case Finish(_, _) => FinishFollows(q, e, expected);
    case Fire(_) => FireFollows(q, e, expected);
  }
}
