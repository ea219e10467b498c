// The exclusive state lock of rpc-src/state-lock.ts as interleaved steps over its eight
// candidate ports. Every acquisition attempt has its own identifier; binding a port and probing
// an occupied one are separate steps, and listeners of unrelated programs come and go.
module StateLock {

  const CANDIDATE_COUNT: nat := 8

  type Id = nat

  /** Who listens on one candidate port: nobody, an unrelated program, or a same-state server. */
  datatype Occupant = Free | Foreign | Server(owner: Id)

  /** How far one acquisition attempt has come; `at` is the candidate index it looks at next. */
  datatype Phase = Scanning(at: nat) | Probing(at: nat) | Held | Failed | Closed

  datatype Lock = Lock(ports: seq<Occupant>, phases: map<Id, Phase>)

  /** `Close` covers release, invalidation by a lost server, a bind error and a dying process. */
  datatype Event =
    | Start(id: Id)
    | Bind(id: Id)
    | Probe(id: Id)
    | Conclude(id: Id)
    | Close(id: Id)
    | ForeignArrives(port: nat)
    | ForeignLeaves(port: nat)

  predicate Owns(s: Lock, c: Id, p: nat) {
    p < |s.ports| && s.ports[p] == Server(c)
  }

  predicate Live(s: Lock, c: Id) {
    c in s.phases && !s.phases[c].Failed? && !s.phases[c].Closed?
  }

  predicate Holds(s: Lock, c: Id) {
    c in s.phases && s.phases[c] == Held
  }

  /** The attempt got beyond candidate `q`. */
  predicate Past(s: Lock, c: Id, q: nat) {
    c in s.phases && match s.phases[c]
                     case Scanning(at) => q < at
                     case Probing(at) => q < at
                     case Held => true
                     case _ => false
  }

  /** Close every server of one attempt. */
  function Rollback(ports: seq<Occupant>, c: Id): (r: seq<Occupant>)
    ensures |r| == |ports|
    ensures forall p :: 0 <= p < |r| ==> r[p] == if ports[p] == Server(c) then Free else ports[p]
  {
    seq(|ports|, p requires 0 <= p < |ports| => if ports[p] == Server(c) then Free else ports[p])
  }

  /** One atomic step; an event that is not enabled leaves the state alone. */
  function Apply(s: Lock, e: Event): Lock
    requires |s.ports| == CANDIDATE_COUNT
  {
    match e
    case Start(c) =>
      if c in s.phases then s else s.(phases := s.phases[c := Scanning(0)])
    case Bind(c) =>
      if c !in s.phases || !s.phases[c].Scanning? || s.phases[c].at >= CANDIDATE_COUNT then s else
        var i := s.phases[c].at;
        if s.ports[i] == Free then
          Lock(s.ports[i := Server(c)], s.phases[c := Scanning(i + 1)])
        else
          s.(phases := s.phases[c := Probing(i)])
    case Probe(c) =>
      if c !in s.phases || !s.phases[c].Probing? || s.phases[c].at >= CANDIDATE_COUNT then s else
        var i := s.phases[c].at;
        // A same-state server proves itself; a foreign listener or a refused connection does not.
        if s.ports[i].Server? then
          Lock(Rollback(s.ports, c), s.phases[c := Failed])
        else
          s.(phases := s.phases[c := Scanning(i + 1)])
    case Conclude(c) =>
      if c !in s.phases || s.phases[c] != Scanning(CANDIDATE_COUNT) then s
      else if exists p :: 0 <= p < CANDIDATE_COUNT && Owns(s, c, p) then s.(phases := s.phases[c := Held])
      else s.(phases := s.phases[c := Failed])
    case Close(c) =>
      if !Live(s, c) then s else Lock(Rollback(s.ports, c), s.phases[c := Closed])
    case ForeignArrives(p) =>
      if p < CANDIDATE_COUNT && s.ports[p] == Free then s.(ports := s.ports[p := Foreign]) else s
    case ForeignLeaves(p) =>
      if p < CANDIDATE_COUNT && s.ports[p] == Foreign then s.(ports := s.ports[p := Free]) else s
  }

  function Run(s: Lock, events: seq<Event>): (r: Lock)
    requires |s.ports| == CANDIDATE_COUNT
    ensures |r.ports| == CANDIDATE_COUNT
  {
    if events == [] then s else Apply(Run(s, events[..|events| - 1]), events[|events| - 1])
  }

  /** A state nobody has started to acquire in; foreign listeners may already be there. */
  predicate Initial(s: Lock) {
    |s.ports| == CANDIDATE_COUNT && s.phases == map[] && forall p :: 0 <= p < |s.ports| ==> !s.ports[p].Server?
  }

  /** Every server belongs to a live attempt that already scanned its port; holders own a port. */
  predicate WellFormed(s: Lock) {
    && |s.ports| == CANDIDATE_COUNT
    && (forall p :: 0 <= p < CANDIDATE_COUNT && s.ports[p].Server? ==> Past(s, s.ports[p].owner, p))
    && (forall c :: c in s.phases && s.phases[c] == Held ==> exists p :: 0 <= p < CANDIDATE_COUNT && Owns(s, c, p))
  }

  lemma StepKeepsWellFormed(s: Lock, e: Event)
    requires WellFormed(s)
    ensures WellFormed(Apply(s, e))
  {
    var t := Apply(s, e);
    forall p | 0 <= p < CANDIDATE_COUNT && t.ports[p].Server?
      ensures Past(t, t.ports[p].owner, p)
    {
      if s.ports[p].Server? {
        assert Past(s, s.ports[p].owner, p) && Owns(s, s.ports[p].owner, p);
      }
    }
    forall c | c in t.phases && t.phases[c] == Held
      ensures exists p :: 0 <= p < CANDIDATE_COUNT && Owns(t, c, p)
    {
      var p :| 0 <= p < CANDIDATE_COUNT && Owns(s, c, p);
      assert Owns(t, c, p);
    }
  }

  lemma {:induction false} RunKeepsWellFormed(s: Lock, events: seq<Event>)
    requires WellFormed(s)
    ensures WellFormed(Run(s, events))
  {
    if events != [] {
      RunKeepsWellFormed(s, events[..|events| - 1]);
      StepKeepsWellFormed(Run(s, events[..|events| - 1]), events[|events| - 1]);
    }
  }

  // ---- A held capability keeps every later attempt out, whatever foreign listeners do. ----

  /** `a` holds the lock and owns a port that `b` has not got past. */
  predicate Behind(s: Lock, a: Id, b: Id) {
    && Holds(s, a)
    && exists p :: 0 <= p < CANDIDATE_COUNT && Owns(s, a, p) && !Past(s, b, p)
  }

  lemma StepKeepsBehind(s: Lock, e: Event, a: Id, b: Id)
    requires WellFormed(s) && a != b && Behind(s, a, b)
    requires Holds(Apply(s, e), a)
    ensures Behind(Apply(s, e), a, b)
  {
    var p :| 0 <= p < CANDIDATE_COUNT && Owns(s, a, p) && !Past(s, b, p);
    var t := Apply(s, e);
    assert Owns(t, a, p) && !Past(t, b, p);
  }

  /**
   * However foreign listeners move and whatever other attempts do, an attempt that starts while a
   * capability is held does not succeed before that capability is given up.
   */
  lemma {:induction false} LaterAttemptExcluded(s: Lock, events: seq<Event>, a: Id, b: Id)
    requires WellFormed(s) && Holds(s, a) && b !in s.phases
    requires Holds(Run(s, events), a)
    ensures !Holds(Run(s, events), b)
    ensures Behind(Run(s, events), a, b)
  {
    if events == [] {
      var p :| 0 <= p < CANDIDATE_COUNT && Owns(s, a, p);
      assert !Past(s, b, p);
    } else {
      var before := Run(s, events[..|events| - 1]);
      RunKeepsWellFormed(s, events[..|events| - 1]);
      HeldOnlyByHolding(s, events[..|events| - 1], a);
      assert Holds(before, a);
      LaterAttemptExcluded(s, events[..|events| - 1], a, b);
      StepKeepsBehind(before, events[|events| - 1], a, b);
    }
  }

  /** A capability once given up is never held again. */
  lemma {:induction false} HeldOnlyByHolding(s: Lock, events: seq<Event>, a: Id)
    requires |s.ports| == CANDIDATE_COUNT && Holds(s, a)
    ensures var t := Run(s, events); a in t.phases && (t.phases[a] == Held || t.phases[a] == Closed)
  {
    if events != [] {
      HeldOnlyByHolding(s, events[..|events| - 1], a);
    }
  }

  // ---- One port that is never foreign decides between overlapping attempts. ----

  predicate NoneCloses(events: seq<Event>) {
    forall k :: 0 <= k < |events| ==> !events[k].Close?
  }

  predicate StaysNative(s: Lock, events: seq<Event>, q: nat) {
    && q < CANDIDATE_COUNT && |s.ports| == CANDIDATE_COUNT && s.ports[q] != Foreign
    && forall k :: 0 <= k < |events| ==> events[k] != ForeignArrives(q)
  }

  /** Nobody stands between a failed bind of `q` and its probe while `c` gives `q` up. */
  predicate Unprobed(s: Lock, c: Id, q: nat) {
    Owns(s, c, q) ==> forall d :: d in s.phases ==> s.phases[d] != Probing(q)
  }

  /** Whoever got past `q` owns it, so at most one attempt is past it. */
  predicate Gated(s: Lock, q: nat) {
    && q < CANDIDATE_COUNT && WellFormed(s)
    && s.ports[q] != Foreign
    && (forall c :: c in s.phases && Past(s, c, q) ==> Owns(s, c, q))
    && (forall c :: c in s.phases && s.phases[c] == Probing(q) ==> s.ports[q].Server?)
  }

  predicate SomeoneLive(s: Lock) {
    && (s.phases != map[] ==> exists c :: c in s.phases && Live(s, c))
    && (forall c :: c in s.phases ==> !s.phases[c].Closed?)
  }

  lemma StepKeepsGate(s: Lock, e: Event, q: nat)
    requires Gated(s, q)
    requires e.Close? ==> Unprobed(s, e.id, q)
    requires e != ForeignArrives(q)
    ensures Gated(Apply(s, e), q)
  {
    StepKeepsWellFormed(s, e);
    var t := Apply(s, e);
    if e.Probe? && t != s && s.ports[s.phases[e.id].at].Server? {
      // The attempt rolls back: it cannot own `q`, because the server it met is past `q` too.
      var c := e.id;
      var d := s.ports[s.phases[c].at].owner;
      assert Past(s, d, s.phases[c].at);
      assert d != c;
      assert !Owns(s, c, q);
    }
  }

  lemma StepKeepsSomeoneLive(s: Lock, e: Event, q: nat)
    requires Gated(s, q) && SomeoneLive(s)
    requires !e.Close? && e != ForeignArrives(q)
    ensures SomeoneLive(Apply(s, e))
  {
    var t := Apply(s, e);
    if e.Start? {
      assert t.phases != map[] ==> Live(t, e.id) || s == t;
    } else if e.Probe? && t != s && s.ports[s.phases[e.id].at].Server? {
      var d := s.ports[s.phases[e.id].at].owner;
      assert Past(s, d, s.phases[e.id].at);
      assert d in t.phases && Live(t, d);
    } else if s.phases != map[] {
      var c :| c in s.phases && Live(s, c);
      if e.Conclude? && e.id == c && t != s {
        assert Past(s, c, q) && Owns(s, c, q);
      }
      assert Live(t, c);
    }
  }

  lemma {:induction false} RunKeepsGate(s: Lock, events: seq<Event>, q: nat)
    requires Initial(s) && StaysNative(s, events, q) && NoneCloses(events)
    ensures Gated(Run(s, events), q) && SomeoneLive(Run(s, events))
  {
    if events != [] {
      var most := events[..|events| - 1];
      assert StaysNative(s, most, q) && NoneCloses(most) by {
        assert forall k :: 0 <= k < |most| ==> most[k] == events[k];
      }
      RunKeepsGate(s, most, q);
      StepKeepsGate(Run(s, most), events[|events| - 1], q);
      StepKeepsSomeoneLive(Run(s, most), events[|events| - 1], q);
    }
  }

  /** Two attempts that are both past a gated port are the same one. */
  lemma GateExcludes(s: Lock, q: nat, a: Id, b: Id)
    requires Gated(s, q) && Holds(s, a) && Holds(s, b)
    ensures a == b
  {
    assert Past(s, a, q) && Past(s, b, q);
  }

  predicate Settled(s: Lock) {
    forall c :: c in s.phases ==> s.phases[c] == Held || s.phases[c] == Failed
  }

  /** Once every started attempt has ended, one of them holds the lock, and it is the only one. */
  lemma ExactlyOneCapability(s: Lock, events: seq<Event>, q: nat) returns (winner: Id)
    requires Initial(s) && StaysNative(s, events, q) && NoneCloses(events)
    requires Settled(Run(s, events)) && Run(s, events).phases != map[]
    ensures Holds(Run(s, events), winner)
    ensures forall c :: Holds(Run(s, events), c) ==> c == winner
  {
    RunKeepsGate(s, events, q);
    var t := Run(s, events);
    winner :| winner in t.phases && Live(t, winner);
    forall c | Holds(t, c) ensures c == winner {
      GateExcludes(t, q, c, winner);
    }
  }

  predicate NoForeignMoves(events: seq<Event>) {
    forall k :: 0 <= k < |events| ==> !events[k].ForeignArrives? && !events[k].ForeignLeaves?
  }

  lemma {:induction false} AllForeignStays(s: Lock, events: seq<Event>)
    requires Initial(s) && NoForeignMoves(events)
    requires forall p :: 0 <= p < CANDIDATE_COUNT ==> s.ports[p] == Foreign
    ensures var t := Run(s, events); t.ports == s.ports && forall c :: !Holds(t, c)
  {
    if events != [] {
      var most := events[..|events| - 1];
      assert NoForeignMoves(most) by {
        assert forall k :: 0 <= k < |most| ==> most[k] == events[k];
      }
      AllForeignStays(s, most);
      var before, e := Run(s, most), events[|events| - 1];
      assert forall c: Id :: Rollback(before.ports, c) == before.ports;
      assert forall c, p :: 0 <= p < CANDIDATE_COUNT ==> !Owns(before, c, p);
      forall c ensures !Holds(Apply(before, e), c) {
        assert !Holds(before, c);
      }
      assert Run(s, events) == Apply(before, e);
    }
  }

  /**
   * With a fixed set of foreign listeners, the attempts that all ran to their end produced a
   * capability if and only if some candidate port was not foreign; and never two.
   */
  lemma FixedOccupancy(s: Lock, events: seq<Event>)
    requires Initial(s) && NoForeignMoves(events) && NoneCloses(events)
    requires Settled(Run(s, events)) && Run(s, events).phases != map[]
    ensures (exists c :: Holds(Run(s, events), c)) <==> (exists p :: 0 <= p < CANDIDATE_COUNT && s.ports[p] != Foreign)
    ensures forall a, b :: Holds(Run(s, events), a) && Holds(Run(s, events), b) ==> a == b
  {
    if q :| 0 <= q < CANDIDATE_COUNT && s.ports[q] != Foreign {
      assert StaysNative(s, events, q);
      var winner := ExactlyOneCapability(s, events, q);
    } else {
      AllForeignStays(s, events);
    }
  }
}
