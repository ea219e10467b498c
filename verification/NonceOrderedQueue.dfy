// The queue of rpc-src/transaction-queue.ts as the object its callers share: fields updated in
// place by every event, each method proved against the event function of TransactionQueue.dfy.
module NonceOrderedQueue {
  import opened Addresses
  import opened TransactionQueue

  datatype Admission = Joined(ticket: Ticket) | Refused | Admitted(ticket: Ticket)

  /** Dropping one more entry settles exactly its own promise, which nobody settled before. */
  lemma DropOneMore(q: Queue, s: Address, done: set<nat>, n: nat, outcome: Outcome)
    requires PendingAgree(q) && QueuedAgree(q)
    requires s in q.pending && done <= q.pending[s].Keys && n in q.pending[s].Keys - done
    ensures var r, e := Drop(q, s, done, outcome), q.pending[s][n];
            && s in r.pending && n in r.pending[s] && r.pending[s][n] == e
            && e.ticket < |r.waiters| && !r.waiters[e.ticket].place.Settled?
            && Drop(q, s, done + {n}, outcome)
            == r.(pending := r.pending[s := r.pending[s] - {n}], byHash := r.byHash - {e.hash},
                  waiters := r.waiters[e.ticket := r.waiters[e.ticket].(place := Settled(outcome))])
  {
    var r, e := Drop(q, s, done, outcome), q.pending[s][n];
    var t := Drop(q, s, done + {n}, outcome);
    assert q.waiters[e.ticket] == Waiter(e.hash, Queued(s, n));
    assert t.pending[s] == r.pending[s] - {n};
    assert t.byHash == r.byHash - {e.hash};
    assert t.waiters == r.waiters[e.ticket := r.waiters[e.ticket].(place := Settled(outcome))];
  }

  lemma DropNone(q: Queue, s: Address, outcome: Outcome)
    requires s in q.pending
    ensures Drop(q, s, {}, outcome) == q
  {
    var r := Drop(q, s, {}, outcome);
    assert q.pending[s] - {} == q.pending[s];
    assert r.pending == q.pending;
    assert r.byHash == q.byHash;
    assert r.waiters == q.waiters;
  }

  class NonceOrderedQueue {
    var pending: map<Address, map<nat, Entry>>
    var cursor: map<Address, nat>
    var active: map<Address, Ticket>
    var deadline: map<Address, TimerId>
    var byHash: map<Hash, Ticket>
    var waiters: seq<Waiter>
    var pumps: multiset<Address>
    var timers: map<TimerId, Address>
    var nextTimer: TimerId
    var runs: map<Ticket, Flight>
    var released: seq<Release>

    function Model(): Queue
      reads this
    {
      Queue(pending, cursor, active, deadline, byHash, waiters, pumps, timers, nextTimer, runs, released)
    }

    constructor ()
      ensures Model() == Empty() && Valid(Model())
    {
      pending, cursor, active, deadline := map[], map[], map[], map[];
      byHash, waiters, pumps := map[], [], multiset{};
      timers, nextTimer, runs, released := map[], 0, map[], [];
    }

    /** Settle one promise; every caller owes that nobody settled it before. */
    method Settle(e: Entry, outcome: Outcome)
      requires e.ticket < |waiters| && !waiters[e.ticket].place.Settled?
      modifies this`byHash, this`waiters
      ensures byHash == old(byHash) - {e.hash}
      ensures waiters == old(waiters)[e.ticket := old(waiters)[e.ticket].(place := Settled(outcome))]
    {
      byHash := byHash - {e.hash};
      waiters := waiters[e.ticket := waiters[e.ticket].(place := Settled(outcome))];
    }

    /** Take one entry out of its signer's pending map and settle it; `done` went before it. */
    method SettleOne(s: Address, n: nat, outcome: Outcome, ghost q: Queue, ghost done: set<nat>)
      requires PendingAgree(q) && QueuedAgree(q) && s in q.pending && done <= q.pending[s].Keys
      requires n in q.pending[s] && n !in done
      requires Model() == Drop(q, s, done, outcome)
      modifies this`pending, this`byHash, this`waiters
      ensures Model() == Drop(q, s, done + {n}, outcome)
    {
      hide PendingAgree, QueuedAgree, Drop;
      DropOneMore(q, s, done, n, outcome);
      var e := pending[s][n];
      pending := pending[s := pending[s] - {n}];
      Settle(e, outcome);
    }

    /** Take the given entries of one signer out of its pending map, settling them one by one. */
    method SettleAll(s: Address, nonces: set<nat>, outcome: Outcome)
      requires PendingAgree(Model()) && QueuedAgree(Model())
      requires s in pending && nonces <= pending[s].Keys
      modifies this`pending, this`byHash, this`waiters
      ensures Model() == Drop(old(Model()), s, nonces, outcome)
    {
      ghost var q := Model();
      var todo := nonces;
      DropNone(q, s, outcome);
      assert nonces - todo == {};
      hide PendingAgree, QueuedAgree, Drop;
      while todo != {}
        invariant todo <= nonces
        invariant Model() == Drop(q, s, nonces - todo, outcome)
      {
        var n :| n in todo;
        assert nonces - todo + {n} == nonces - (todo - {n});
        SettleOne(s, n, outcome, q, nonces - todo);
        todo := todo - {n};
      }
      assert nonces - {} == nonces;
    }

    method CancelDeadline(s: Address)
      modifies this`timers, this`deadline
      ensures Model() == ClearDeadline(old(Model()), s)
    {
      if s in deadline {
        timers := timers - {deadline[s]};
        deadline := deadline - {s};
      }
    }

    method Delete(s: Address)
      modifies this`timers, this`deadline, this`pending, this`cursor
      ensures Model() == Forget(old(Model()), s)
    {
      CancelDeadline(s);
      pending := pending - {s};
      cursor := cursor - {s};
    }

    /** Put a fresh entry into its signer's pending map and schedule a pump. */
    method Push(s: Address, nonce: nat, hash: Hash) returns (ticket: Ticket)
      modifies this`pending, this`byHash, this`waiters, this`pumps
      ensures Model() == AddEntry(old(Model()), s, nonce, hash) && ticket == old(|waiters|)
    {
      ticket := |waiters|;
      var entries: map<nat, Entry> := if s in pending then pending[s] else map[];
      pending := pending[s := entries[nonce := Entry(hash, nonce, ticket)]];
      byHash := byHash[hash := ticket];
      waiters := waiters + [Waiter(hash, Queued(s, nonce))];
      pumps := pumps + multiset{s};
    }

    /** Admit an entry, or hand back the promise of a hash that is still pending or running. */
    method Submit(s: Address, nonce: nat, hash: Hash) returns (r: Admission)
      requires Valid(Model())
      modifies this
      ensures Valid(Model()) && Model() == EnqueueEntry(old(Model()), s, nonce, hash)
      ensures r == if hash in old(byHash) then Joined(old(byHash)[hash])
                   else if nonce in PendingOf(old(Model()), s) then Refused
                   else Admitted(old(|waiters|))
    {
      hide Valid, AddEntry;
      EnqueueKeepsValid(Model(), s, nonce, hash);
      if hash in byHash {
        return Joined(byHash[hash]);
      }
      if s in pending && nonce in pending[s] {
        return Refused;
      }
      var ticket := Push(s, nonce, hash);
      return Admitted(ticket);
    }

    /** Mark the signer active and hand the entry's work to the event loop. */
    method Start(s: Address, n: nat, expected: nat)
      requires s in pending && n in pending[s] && pending[s][n].ticket < |waiters|
      modifies this`pending, this`active, this`waiters, this`runs, this`released
      ensures Model() == Launch(old(Model()), s, n, expected)
    {
      var ready := pending[s][n];
      pending := pending[s := pending[s] - {n}];
      active := active[s := ready.ticket];
      waiters := waiters[ready.ticket := Waiter(ready.hash, Running(s))];
      runs := runs[ready.ticket := Flight(s, ready)];
      released := released + [Release(s, n, expected)];
    }

    /** Release the entry at the cursor, forget an empty signer, or arm the gap timer. */
    method ReleaseNext(s: Address, expected: nat)
      requires PendingAgree(Model()) && s in pending && s in cursor
      modifies this
      ensures Model() == Decide(old(Model()), s, expected)
    {
      hide Launch, Forget;
      if cursor[s] in pending[s] {
        CancelDeadline(s);
        Start(s, cursor[s], expected);
      } else if pending[s] == map[] {
        Delete(s);
      } else if s !in deadline {
        timers := timers[nextTimer := s];
        deadline := deadline[s := nextTimer];
        nextTimer := nextTimer + 1;
      }
    }

    /** Pin the cursor to the durable expected nonce, or move it forward to it. */
    method PinCursor(s: Address, expected: nat)
      modifies this`cursor
      ensures Model() == Pin(old(Model()), s, expected)
    {
      if s !in cursor || expected > cursor[s] {
        cursor := cursor[s := expected];
      } else {
        assert cursor[s := cursor[s]] == cursor;
      }
    }

    /** The pump proper: reject what is stale, then decide about the next release. */
    method RunPump(s: Address, expected: nat)
      requires Consistent(Model())
      modifies this
      ensures Model() == PumpSigner(old(Model()), s, expected)
    {
      hide PendingAgree, QueuedAgree, FlightsAgree, HashesAgree, RunsAgree, TimersAgree, Decide, Forget;
      if s !in pending || s in active {
        return;
      }
      if s !in cursor && pending[s] == map[] {
        Delete(s);
        return;
      }
      PinKeepsConsistent(Model(), s, expected);
      PinCursor(s, expected);
      var stale := TooLow(pending[s], cursor[s]);
      DropKeepsConsistent(Model(), s, stale, NonceTooLow);
      SettleAll(s, stale, NonceTooLow);
      ReleaseNext(s, expected);
    }

    /** A scheduled pump runs. */
    method OnMicrotask(s: Address, expected: nat)
      requires Valid(Model()) && s in pumps
      modifies this
      ensures Valid(Model()) && Model() == Exec(old(Model()), Pump(s), expected)
    {
      hide PendingAgree, QueuedAgree, FlightsAgree, HashesAgree, RunsAgree, TimersAgree, NobodyStranded, PumpSigner;
      EventKeepsValid(Model(), Pump(s), expected);
      PoppedKeepsConsistent(Model(), s);
      pumps := pumps - multiset{s};
      RunPump(s, expected);
    }

    /** Clear the active flag of a run that ended, then answer its waiter. */
    method EndActive(t: Ticket, outcome: Outcome)
      requires FlightsAgree(Model()) && t in runs
      modifies this`runs, this`active, this`byHash, this`waiters
      ensures Model() == EndRun(old(Model()), t, outcome)
    {
      var s, e := runs[t].signer, runs[t].entry;
      assert e.ticket < |waiters| && waiters[e.ticket].place.Running?;
      hide FlightsAgree;
      runs := runs - {t};
      active := active - {s};
      Settle(e, outcome);
    }

    /** The work of a released entry ends; its signer is idle before its waiter is answered. */
    method AfterRun(t: Ticket, ok: bool, expected: nat)
      requires Valid(Model()) && t in runs
      modifies this
      ensures Valid(Model()) && Model() == Exec(old(Model()), Finish(t, ok), expected)
    {
      hide PendingAgree, QueuedAgree, HashesAgree, RunsAgree, TimersAgree, NobodyStranded, PumpSigner;
      EventKeepsValid(Model(), Finish(t, ok), expected);
      var outcome := if ok then Resolved else RunFailed;
      var s := runs[t].signer;
      EndKeepsConsistent(Model(), t, outcome);
      EndActive(t, outcome);
      RunPump(s, expected);
    }

    /** The gap timer of one signer fires. */
    method OnDeadline(id: TimerId, expected: nat)
      requires Valid(Model()) && id in timers
      modifies this
      ensures Valid(Model()) && Model() == Exec(old(Model()), Fire(id), expected)
    {
      hide PendingAgree, QueuedAgree, FlightsAgree, HashesAgree, RunsAgree, NobodyStranded, PumpSigner;
      EventKeepsValid(Model(), Fire(id), expected);
      var s := timers[id];
      assert s in pending && s in deadline && deadline[s] == id;
      hide TimersAgree, Forget, Drop;
      ClearKeepsConsistent(Model(), s);
      AdvanceKeepsConsistent(ClearDeadline(Model(), s), s, expected);
      CancelDeadline(s);
      if s in active {
        return;
      }
      if s in cursor {
        PinCursor(s, expected);
      }
      if s in cursor && cursor[s] in pending[s] {
        RunPump(s, expected);
      } else {
        SettleAll(s, pending[s].Keys, NonceGapTimeout);
        Delete(s);
      }
    }
  }
}
