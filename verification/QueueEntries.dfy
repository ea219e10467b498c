/**
 * Where the entries and runs of the admission queue come from: an event moves entries from pending to
 * running and ends runs, and only an admission brings a new one in.
 */
module QueueEntries {
  import opened Addresses
  import opened TransactionQueue

  predicate PendingAt(q: Queue, s: Address, e: Entry) {
    s in q.pending && e.nonce in q.pending[s] && q.pending[s][e.nonce] == e
  }

  /** A release of this signer and nonce happened between the two queues. */
  predicate ReleasedSince(q: Queue, r: Queue, s: Address, n: nat) {
    exists i :: |q.released| <= i < |r.released| && r.released[i].signer == s && r.released[i].nonce == n
  }

  /** Nothing is pending that was not; a new run was a pending entry, now released; no run and no release goes away. */
  ghost predicate Shifts(q: Queue, r: Queue) {
    && q.released <= r.released
    && (forall s, e :: PendingAt(r, s, e) ==> PendingAt(q, s, e))
    && (forall t :: t in r.runs && t !in q.runs ==>
          PendingAt(q, r.runs[t].signer, r.runs[t].entry) && ReleasedSince(q, r, r.runs[t].signer, r.runs[t].entry.nonce))
    && (forall t :: t in q.runs ==> t in r.runs && r.runs[t] == q.runs[t])
  }

  lemma ShiftsTransitive(q: Queue, r: Queue, s: Queue)
    requires Shifts(q, r) && Shifts(r, s)
    ensures Shifts(q, s)
  {
    hide PendingAt;
    forall t | t in s.runs && t !in q.runs
      ensures ReleasedSince(q, s, s.runs[t].signer, s.runs[t].entry.nonce)
    {
      if t in r.runs {
        var i :| |q.released| <= i < |r.released| && r.released[i].signer == r.runs[t].signer && r.released[i].nonce == r.runs[t].entry.nonce;
        assert s.released[i] == r.released[i];
      }
    }
  }

  lemma LaunchShifts(q: Queue, s: Address, n: nat, expected: nat)
    requires PendingAgree(q) && FlightsAgree(q) && s in q.pending && n in q.pending[s]
    ensures q.pending[s][n].ticket < |q.waiters| && Shifts(q, Launch(q, s, n, expected))
  {
    var e := q.pending[s][n];
    assert q.waiters[e.ticket] == Waiter(e.hash, Queued(s, n));
    assert e.ticket !in q.runs;
    assert Launch(q, s, n, expected).released[|q.released|] == Release(s, n, expected);
  }

  lemma DropShifts(q: Queue, s: Address, nonces: set<nat>, outcome: Outcome)
    requires s in q.pending && nonces <= q.pending[s].Keys
    ensures Shifts(q, Drop(q, s, nonces, outcome))
    ensures Drop(q, s, nonces, outcome).cursor == q.cursor && s in Drop(q, s, nonces, outcome).pending
  {
  }

  lemma SmallShifts(q: Queue, s: Address, expected: nat)
    ensures Shifts(q, Pin(q, s, expected)) && Shifts(q, Forget(q, s)) && Shifts(q, ClearDeadline(q, s))
    ensures Shifts(q, Advance(q, s, expected)) && Shifts(q, ArmDeadline(q, s)) && Shifts(q, q)
  {
  }

  lemma DecideShifts(q: Queue, s: Address, expected: nat)
    requires Consistent(q) && s in q.pending && s in q.cursor
    ensures Shifts(q, Decide(q, s, expected))
  {
    hide PendingAgree, QueuedAgree, FlightsAgree, HashesAgree, RunsAgree, TimersAgree, Shifts, Launch, Forget, ArmDeadline;
    SmallShifts(q, s, expected);
    if q.cursor[s] in q.pending[s] {
      var cleared := ClearDeadline(q, s);
      ClearKeepsConsistent(q, s);
      LaunchShifts(cleared, s, q.cursor[s], expected);
      ShiftsTransitive(q, cleared, Launch(cleared, s, q.cursor[s], expected));
    }
  }

  lemma PumpShifts(q: Queue, s: Address, expected: nat)
    requires Consistent(q)
    ensures Shifts(q, PumpSigner(q, s, expected))
  {
    hide PendingAgree, QueuedAgree, FlightsAgree, HashesAgree, RunsAgree, TimersAgree, Decide, Drop, Shifts, Forget;
    SmallShifts(q, s, expected);
    if s in q.pending && s !in q.active && (s in q.cursor || q.pending[s] != map[]) {
      var pinned := Pin(q, s, expected);
      PinKeepsConsistent(q, s, expected);
      var stale := TooLow(q.pending[s], pinned.cursor[s]);
      DropKeepsConsistent(pinned, s, stale, NonceTooLow);
      DropShifts(pinned, s, stale, NonceTooLow);
      var dropped := Drop(pinned, s, stale, NonceTooLow);
      DecideShifts(dropped, s, expected);
      ShiftsTransitive(q, pinned, dropped);
      ShiftsTransitive(q, dropped, Decide(dropped, s, expected));
    }
  }

  lemma FireShifts(q: Queue, id: TimerId, expected: nat)
    requires Consistent(q) && id in q.timers
    ensures Shifts(q, FireTimer(q, id, expected))
  {
    var s := q.timers[id];
    assert s in q.pending;
    hide PendingAgree, QueuedAgree, FlightsAgree, HashesAgree, RunsAgree, TimersAgree, PumpSigner, Drop, Shifts, Forget;
    var unarmed := ClearDeadline(q, s);
    SmallShifts(q, s, expected);
    if s !in unarmed.active {
      var moved := Advance(unarmed, s, expected);
      ClearKeepsConsistent(q, s);
      AdvanceKeepsConsistent(unarmed, s, expected);
      SmallShifts(unarmed, s, expected);
      ShiftsTransitive(q, unarmed, moved);
      if s in moved.cursor && moved.cursor[s] in moved.pending[s] {
        PumpShifts(moved, s, expected);
        ShiftsTransitive(q, moved, PumpSigner(moved, s, expected));
      } else {
        var dropped := Drop(moved, s, moved.pending[s].Keys, NonceGapTimeout);
        DropShifts(moved, s, moved.pending[s].Keys, NonceGapTimeout);
        SmallShifts(dropped, s, expected);
        ShiftsTransitive(q, moved, dropped);
        ShiftsTransitive(q, dropped, Forget(dropped, s));
      }
    }
  }

  lemma FinishShifts(q: Queue, t: Ticket, ok: bool, expected: nat)
    requires Consistent(q) && t in q.runs
    ensures Shifts(q.(runs := q.runs - {t}), FinishRun(q, t, ok, expected))
  {
    var outcome := if ok then Resolved else RunFailed;
    EndKeepsConsistent(q, t, outcome);
    var ended := EndRun(q, t, outcome);
    assert Shifts(q.(runs := q.runs - {t}), ended);
    hide PendingAgree, QueuedAgree, FlightsAgree, HashesAgree, RunsAgree, TimersAgree, PumpSigner, Shifts, EndRun;
    PumpShifts(ended, q.runs[t].signer, expected);
    ShiftsTransitive(q.(runs := q.runs - {t}), ended, PumpSigner(ended, q.runs[t].signer, expected));
  }

  /** The queue an event starts from, once an admission has been added or a run has been ended. */
  function Touched(q: Queue, e: Event): Queue {
    match e
    case Enqueue(s, nonce, hash) => EnqueueEntry(q, s, nonce, hash)
    case Finish(t, _) => q.(runs := q.runs - {t})
    case _ => q
  }

  lemma PoppedShifts(q: Queue, s: Address, r: Queue)
    requires Shifts(q.(pumps := q.pumps - multiset{s}), r)
    ensures Shifts(q, r)
  {
  }

  /** Every event but an admission and a run's end only shifts entries. */
  lemma EventShifts(q: Queue, e: Event, expected: nat)
    requires Consistent(q)
    ensures Shifts(Touched(q, e), Exec(q, e, expected))
  {
    hide PendingAgree, QueuedAgree, HashesAgree, FlightsAgree, RunsAgree, TimersAgree, PumpSigner, FinishRun, FireTimer, EnqueueEntry, Shifts;
    match e
    case Enqueue(s, nonce, hash) => SmallShifts(EnqueueEntry(q, s, nonce, hash), s, expected);
    case Pump(s) =>
      SmallShifts(q, s, expected);
      if s in q.pumps {
        var popped := q.(pumps := q.pumps - multiset{s});
        PoppedKeepsConsistent(q, s);
        PumpShifts(popped, s, expected);
        PoppedShifts(q, s, PumpSigner(popped, s, expected));
      }
    case Finish(t, ok) =>
      SmallShifts(Touched(q, e), ZeroAddress(), expected);
      if t in q.runs {
        FinishShifts(q, t, ok, expected);
      } else {
        assert q.runs - {t} == q.runs;
      }
    case Fire(id) =>
      SmallShifts(q, ZeroAddress(), expected);
      if id in q.timers { FireShifts(q, id, expected); }
  }

  lemma TouchedRuns(q: Queue, e: Event)
    ensures Touched(q, e).runs == (if e.Finish? then q.runs - {e.ticket} else q.runs) && Touched(q, e).released == q.released
  {
  }

  lemma ShiftsKeepRun(q: Queue, r: Queue, t: Ticket)
    requires Shifts(q, r) && t in q.runs
    ensures t in r.runs && r.runs[t] == q.runs[t]
  {
  }

  lemma ShiftsReleaseRun(q: Queue, r: Queue, t: Ticket)
    requires Shifts(q, r) && t in r.runs
    ensures (t in q.runs && r.runs[t] == q.runs[t]) || ReleasedSince(q, r, r.runs[t].signer, r.runs[t].entry.nonce)
  {
  }

  /** Only its own end takes a run away. */
  lemma EventKeepsRuns(q: Queue, e: Event, expected: nat)
    requires Consistent(q)
    ensures forall t :: t in q.runs && !(e.Finish? && e.ticket == t) ==>
              t in Exec(q, e, expected).runs && Exec(q, e, expected).runs[t] == q.runs[t]
  {
    EventShifts(q, e, expected);
    TouchedRuns(q, e);
    hide Exec, Consistent, Shifts, Touched;
    forall t | t in q.runs && !(e.Finish? && e.ticket == t)
      ensures t in Exec(q, e, expected).runs && Exec(q, e, expected).runs[t] == q.runs[t]
    {
      ShiftsKeepRun(Touched(q, e), Exec(q, e, expected), t);
    }
  }

  /** A run in flight was in flight before, or it was released just now. */
  lemma EventReleasesRuns(q: Queue, e: Event, expected: nat)
    requires Consistent(q)
    ensures forall t :: t in Exec(q, e, expected).runs ==>
              var r := Exec(q, e, expected);
              (t in q.runs && r.runs[t] == q.runs[t]) || ReleasedSince(q, r, r.runs[t].signer, r.runs[t].entry.nonce)
  {
    EventShifts(q, e, expected);
    TouchedRuns(q, e);
    var r := Exec(q, e, expected);
    hide Exec, Consistent, Shifts, Touched;
    forall t | t in r.runs
      ensures (t in q.runs && r.runs[t] == q.runs[t]) || ReleasedSince(q, r, r.runs[t].signer, r.runs[t].entry.nonce)
    {
      ShiftsReleaseRun(Touched(q, e), r, t);
    }
  }

  /** Every entry, pending or running, satisfies the given predicate on signer and entry. */
  ghost predicate AllEntries(q: Queue, fits: (Address, Entry) -> bool) {
    && (forall s, e :: PendingAt(q, s, e) ==> fits(s, e))
    && (forall t :: t in q.runs ==> fits(q.runs[t].signer, q.runs[t].entry))
  }

  lemma ShiftsKeepEntries(q: Queue, r: Queue, fits: (Address, Entry) -> bool)
    requires Shifts(q, r) && AllEntries(q, fits)
    ensures AllEntries(r, fits)
  {
    hide PendingAt, ReleasedSince;
  }

  lemma TouchedEntries(q: Queue, e: Event, fits: (Address, Entry) -> bool)
    requires AllEntries(q, fits) && (e.Enqueue? ==> forall t :: fits(e.signer, Entry(e.hash, e.nonce, t)))
    ensures AllEntries(Touched(q, e), fits)
  {
  }

  /** What holds of every entry holds of every entry afterwards, if it holds of the one admitted. */
  lemma EventKeepsEntries(q: Queue, e: Event, expected: nat, fits: (Address, Entry) -> bool)
    requires Consistent(q) && AllEntries(q, fits)
    requires e.Enqueue? ==> forall t :: fits(e.signer, Entry(e.hash, e.nonce, t))
    ensures AllEntries(Exec(q, e, expected), fits)
  {
    EventShifts(q, e, expected);
    TouchedEntries(q, e, fits);
    hide Exec, Consistent, Shifts, Touched, AllEntries;
    ShiftsKeepEntries(Touched(q, e), Exec(q, e, expected), fits);
  }
}
