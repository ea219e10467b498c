/**
 * The acquisition of rpc-src/state-lock.ts performed on the port table in place, one candidate after
 * another, with its rollback. StateLock.dfy has the same steps interleaved with everybody else's.
 */
module LockTable {
  import opened StateLock

  lemma OneMoreStep(s: Lock, events: seq<Event>, e: Event)
    requires |s.ports| == CANDIDATE_COUNT
    ensures Run(s, events + [e]) == Apply(Run(s, events), e)
  {
    assert (events + [e])[..|events|] == events;
  }

  /** The capability is held and every server it was granted with still listens. */
  predicate CapabilityGood(s: Lock, c: Id, servers: set<nat>) {
    Holds(s, c) && forall p :: p in servers ==> Owns(s, c, p)
  }

  lemma GoodStep(s: Lock, e: Event, c: Id, servers: set<nat>)
    requires |s.ports| == CANDIDATE_COUNT && CapabilityGood(s, c, servers)
    ensures if e == Close(c) then c in Apply(s, e).phases && Apply(s, e).phases[c] == Closed
            else CapabilityGood(Apply(s, e), c, servers)
  {
  }

  lemma {:induction false} GoodStays(s: Lock, events: seq<Event>, c: Id, servers: set<nat>)
    requires |s.ports| == CANDIDATE_COUNT && CapabilityGood(s, c, servers)
    requires forall k :: 0 <= k < |events| ==> events[k] != Close(c)
    ensures CapabilityGood(Run(s, events), c, servers)
  {
    if events != [] {
      var most := events[..|events| - 1];
      assert forall k :: 0 <= k < |most| ==> most[k] == events[k];
      GoodStays(s, most, c, servers);
      GoodStep(Run(s, most), events[|events| - 1], c, servers);
    }
  }

  /** A capability stays good exactly until it is released or lost, and in the meantime nobody who comes later succeeds. */
  lemma GoodUntilClosed(s: Lock, events: seq<Event>, c: Id, servers: set<nat>)
    requires WellFormed(s) && CapabilityGood(s, c, servers)
    ensures CapabilityGood(Run(s, events), c, servers) <==> forall k :: 0 <= k < |events| ==> events[k] != Close(c)
    ensures CapabilityGood(Run(s, events), c, servers) ==> forall b :: b !in s.phases ==> !Holds(Run(s, events), b)
  {
    if forall k :: 0 <= k < |events| ==> events[k] != Close(c) {
      GoodStays(s, events, c, servers);
      forall b | b !in s.phases ensures !Holds(Run(s, events), b) {
        LaterAttemptExcluded(s, events, c, b);
      }
    } else {
      ClosedForGood(s, events, c);
    }
  }

  /** What was closed stays closed. */
  lemma {:induction false} ClosedForGood(s: Lock, events: seq<Event>, c: Id)
    requires |s.ports| == CANDIDATE_COUNT && Holds(s, c)
    requires exists k :: 0 <= k < |events| && events[k] == Close(c)
    ensures c in Run(s, events).phases && Run(s, events).phases[c] == Closed
  {
    var most, last := events[..|events| - 1], events[|events| - 1];
    if k :| 0 <= k < |most| && most[k] == Close(c) {
      ClosedForGood(s, most, c);
    } else {
      HeldOnlyByHolding(s, most, c);
    }
  }

  /** The attempt has looked at the first `i` candidates, taken the free ones and met no same-state server. */
  predicate Scanned(start: Lock, s: Lock, c: Id, i: nat) {
    && |start.ports| == CANDIDATE_COUNT && |s.ports| == CANDIDATE_COUNT && i <= CANDIDATE_COUNT
    && c in s.phases && s.phases[c] == Scanning(i)
    && (forall p :: 0 <= p < CANDIDATE_COUNT ==>
          start.ports[p] != Server(c)
          && s.ports[p] == if p < i && start.ports[p] == Free then Server(c) else start.ports[p])
    && (forall p :: 0 <= p < i ==> !start.ports[p].Server?)
  }

  lemma ScanStarts(s: Lock, c: Id)
    requires WellFormed(s) && c !in s.phases
    ensures Scanned(s, Apply(s, Start(c)), c, 0)
  {
  }

  lemma ScanBinds(start: Lock, s: Lock, c: Id, i: nat)
    requires Scanned(start, s, c, i) && i < CANDIDATE_COUNT
    ensures var t := Apply(s, Bind(c));
            if start.ports[i] == Free then Scanned(start, t, c, i + 1) else t == s.(phases := s.phases[c := Probing(i)])
  {
  }

  lemma ScanProbes(start: Lock, s: Lock, c: Id, i: nat)
    requires Scanned(start, s, c, i) && i < CANDIDATE_COUNT && start.ports[i] != Free
    ensures var t := Apply(s.(phases := s.phases[c := Probing(i)]), Probe(c));
            if start.ports[i].Server? then c in t.phases && t.phases[c] == Failed && t.ports == start.ports
            else Scanned(start, t, c, i + 1)
  {
    if start.ports[i].Server? {
      assert Rollback(s.ports, c) == start.ports;
    }
  }

  lemma ScanEnds(start: Lock, s: Lock, c: Id)
    requires Scanned(start, s, c, CANDIDATE_COUNT)
    ensures var t := Apply(s, Conclude(c));
            && c in t.phases && t.ports == s.ports && (t.phases[c] == Held || t.phases[c] == Failed)
            && (t.phases[c] == Held <==> exists p :: 0 <= p < CANDIDATE_COUNT && start.ports[p] == Free)
  {
    if p :| 0 <= p < CANDIDATE_COUNT && start.ports[p] == Free {
      assert Owns(s, c, p);
    }
  }

  class LockTable {
    var ports: seq<Occupant>
    var phases: map<Id, Phase>

    function Model(): Lock
      reads this
    {
      Lock(ports, phases)
    }

    constructor (s: Lock)
      ensures Model() == s
    {
      ports, phases := s.ports, s.phases;
    }

    /** Take one step, and remember it. */
    method Step(e: Event, ghost start: Lock, ghost past: seq<Event>) returns (ghost events: seq<Event>)
      requires |start.ports| == CANDIDATE_COUNT && Run(start, past) == Model()
      modifies this
      ensures Model() == Apply(old(Model()), e)
      ensures events == past + [e] && Run(start, events) == Model()
    {
      OneMoreStep(start, past, e);
      events := past + [e];
      var next := Apply(Model(), e);
      ports, phases := next.ports, next.phases;
    }

    /**
     * An acquisition that nobody interrupts. It succeeds exactly when no same-state server is
     * listening and some candidate is free; it then holds every candidate that was free, and
     * otherwise it has rolled back and left the ports as they were. It is a run of the protocol.
     */
    method AcquireStateLock(c: Id) returns (held: bool, servers: set<nat>, ghost events: seq<Event>)
      requires WellFormed(Model()) && c !in phases
      modifies this
      ensures Run(old(Model()), events) == Model() && WellFormed(Model())
      ensures servers == if held then set p | 0 <= p < CANDIDATE_COUNT && old(ports)[p] == Free else {}
      ensures held ==> servers != {} && CapabilityGood(Model(), c, servers)
      ensures held <==> Holds(Model(), c)
      ensures held <==> (forall p :: 0 <= p < CANDIDATE_COUNT ==> !old(ports)[p].Server?)
                        && (exists p :: 0 <= p < CANDIDATE_COUNT && old(ports)[p] == Free)
      ensures |ports| == CANDIDATE_COUNT
      ensures forall p :: 0 <= p < CANDIDATE_COUNT ==>
                ports[p] == if held && old(ports)[p] == Free then Server(c) else old(ports)[p]
    {
      ghost var start := Model();
      hide Apply, Scanned;
      ScanStarts(start, c);
      events := Step(Start(c), start, []);
      for i := 0 to CANDIDATE_COUNT
        invariant Scanned(start, Model(), c, i) && Run(start, events) == Model()
      {
        ScanMeans(start, Model(), c, i);
        ScanBinds(start, Model(), c, i);
        ghost var before := Model();
        var free := ports[i] == Free;
        events := Step(Bind(c), start, events);
        if free {
          continue;
        }
        ScanProbes(start, before, c, i);
        events := Step(Probe(c), start, events);
        if start.ports[i].Server? {
          assert c in phases && phases[c] == Failed;
        } else {
          ScanMeans(start, Model(), c, i + 1);
        }
        if phases[c] == Failed {
          RunKeepsWellFormed(start, events);
          return false, {}, events;
        }
      }
      ScanMeans(start, Model(), c, CANDIDATE_COUNT);
      ScanEnds(start, Model(), c);
      events := Step(Conclude(c), start, events);
      held := phases[c] == Held;
      RunKeepsWellFormed(start, events);
      servers := if held then set p | 0 <= p < CANDIDATE_COUNT && ports[p] == Server(c) else {};
      if held {
        ghost var p :| 0 <= p < CANDIDATE_COUNT && start.ports[p] == Free;
        assert p in servers;
      }
    }

    lemma ScanMeans(start: Lock, s: Lock, c: Id, i: nat)
      requires Scanned(start, s, c, i)
      ensures |start.ports| == CANDIDATE_COUNT && |s.ports| == CANDIDATE_COUNT && i <= CANDIDATE_COUNT
      ensures c in s.phases && s.phases[c] == Scanning(i)
      ensures forall p :: 0 <= p < CANDIDATE_COUNT ==>
                s.ports[p] == if p < i && start.ports[p] == Free then Server(c) else start.ports[p]
      ensures forall p :: 0 <= p < i ==> !start.ports[p].Server?
    {
    }

    /**
     * Asked about a capability that was granted with these servers some events ago, it answers yes
     * exactly if the capability has neither been released nor lost since; and while it does, no attempt
     * that came after the grant holds the lock.
     */
    method AssertStateLockHeld(c: Id, servers: set<nat>, ghost granted: Lock, ghost since: seq<Event>) returns (ok: bool)
      requires WellFormed(granted) && CapabilityGood(granted, c, servers) && Run(granted, since) == Model()
      ensures ok <==> forall k :: 0 <= k < |since| ==> since[k] != Close(c)
      ensures ok ==> forall b :: b !in granted.phases ==> !Holds(Model(), b)
    {
      GoodUntilClosed(granted, since, c, servers);
      return c in phases && phases[c] == Held && forall p :: p in servers ==> p < |ports| && ports[p] == Server(c);
    }

    /** Release, or invalidation by a lost server: every server of the capability is closed. */
    method ReleaseStateLock(c: Id)
      requires |ports| == CANDIDATE_COUNT
      modifies this
      ensures Model() == Apply(old(Model()), Close(c))
      ensures !Holds(Model(), c)
      ensures forall p :: 0 <= p < CANDIDATE_COUNT && Live(old(Model()), c) ==> !Owns(Model(), c, p)
    {
      if !Live(Model(), c) {
        return;
      }
      phases := phases[c := Closed];
      ports := Rollback(ports, c);
    }
  }
}
