/**
 * Exactly when overlapping acquisitions of rpc-src/state-lock.ts can end with two capabilities: how
 * many attempts have to be closed, by release or death, and how many have to take part at all, given
 * which candidate ports never are foreign and which may change.
 */
module LockExclusion {
  import opened StateLock

  /** Which ports never become foreign and which may; all others always are. */
  predicate Setting(s: Lock, native: set<nat>, movable: set<nat>) {
    && Initial(s) && native !! movable
    && (forall p :: p in native + movable ==> p < CANDIDATE_COUNT)
    && (forall p :: p in native ==> s.ports[p] == Free)
    && (forall p :: 0 <= p < CANDIDATE_COUNT && p !in native + movable ==> s.ports[p] == Foreign)
  }

  /** Foreign listeners come and go on these ports only. */
  predicate MovesOnly(events: seq<Event>, movable: set<nat>) {
    forall k :: 0 <= k < |events| && (events[k].ForeignArrives? || events[k].ForeignLeaves?) ==> events[k].port in movable
  }

  /** The attempts that gave up what they had: released, or died on the way. */
  function ClosedOnes(s: Lock): set<Id> {
    set c | c in s.phases && s.phases[c] == Closed
  }

  predicate TwoHold(s: Lock) {
    exists a, b :: a in s.phases && b in s.phases && a != b && Holds(s, a) && Holds(s, b)
  }

  // ---- Every closed attempt opens at most one gate ----

  /** Of two gated ports at most one is about to be probed while an attempt gives up both. */
  lemma CloseOpensOne(s: Lock, c: Id, q: nat, r: nat)
    requires Gated(s, q) && Gated(s, r) && q != r
    ensures Unprobed(s, c, q) || Unprobed(s, c, r)
  {
    if q < r {
      CloseOpensFirst(s, c, q, r);
    } else {
      CloseOpensFirst(s, c, r, q);
    }
  }

  lemma CloseOpensFirst(s: Lock, c: Id, q: nat, r: nat)
    requires Gated(s, q) && Gated(s, r) && q < r
    ensures Unprobed(s, c, q) || Unprobed(s, c, r)
  {
    // Whoever probes the later port is past the earlier one and owns it.
    forall d | d in s.phases && s.phases[d] == Probing(r) ensures Owns(s, d, q) {
      assert Past(s, d, q);
    }
  }

  lemma StepCloses(s: Lock, e: Event)
    requires |s.ports| == CANDIDATE_COUNT
    ensures e.Close? && Live(s, e.id) ==> ClosedOnes(Apply(s, e)) == ClosedOnes(s) + {e.id} && e.id !in ClosedOnes(s)
    ensures !(e.Close? && Live(s, e.id)) ==> ClosedOnes(Apply(s, e)) == ClosedOnes(s)
  {
  }

  lemma StepKeepsGates(s: Lock, e: Event, gates: set<nat>, movable: set<nat>) returns (kept: set<nat>)
    requires |s.ports| == CANDIDATE_COUNT && gates !! movable
    requires e.ForeignArrives? ==> e.port in movable
    requires forall q :: q in gates ==> Gated(s, q)
    ensures kept <= gates && |kept| + |ClosedOnes(Apply(s, e))| >= |gates| + |ClosedOnes(s)|
    ensures forall q :: q in kept ==> Gated(Apply(s, e), q)
  {
    kept := gates;
    StepCloses(s, e);
    if e.Close? && Live(s, e.id) {
      if q :| q in gates && !Unprobed(s, e.id, q) {
        kept := gates - {q};
        forall r | r in kept ensures Unprobed(s, e.id, r) {
          CloseOpensOne(s, e.id, q, r);
        }
      }
    }
    forall q | q in kept ensures Gated(Apply(s, e), q) {
      if !e.Close? || Live(s, e.id) {
        StepKeepsGate(s, e, q);
      }
    }
  }

  /** At least as many never-foreign ports stay gated as there are more of them than closed attempts. */
  lemma {:induction false} RunKeepsGates(s: Lock, native: set<nat>, movable: set<nat>, events: seq<Event>)
    returns (gates: set<nat>)
    requires Setting(s, native, movable) && MovesOnly(events, movable)
    ensures gates <= native && |gates| + |ClosedOnes(Run(s, events))| >= |native|
    ensures forall q :: q in gates ==> Gated(Run(s, events), q)
  {
    if events == [] {
      gates := native;
    } else {
      var most := events[..|events| - 1];
      assert MovesOnly(most, movable) by {
        assert forall k :: 0 <= k < |most| ==> most[k] == events[k];
      }
      var before := RunKeepsGates(s, native, movable, most);
      gates := StepKeepsGates(Run(s, most), events[|events| - 1], before, movable);
    }
  }

  /**
   * While fewer attempts have been closed than there are candidate ports that never are foreign, at
   * most one attempt holds the lock, whatever else foreign listeners and any number of attempts do.
   */
  lemma FewerClosesThanPorts(s: Lock, native: set<nat>, movable: set<nat>, events: seq<Event>)
    requires Setting(s, native, movable) && MovesOnly(events, movable)
    requires |ClosedOnes(Run(s, events))| < |native|
    ensures !TwoHold(Run(s, events))
  {
    var gates := RunKeepsGates(s, native, movable, events);
    assert gates != {};
    var q :| q in gates;
    var t := Run(s, events);
    forall a, b | Holds(t, a) && Holds(t, b) ensures a == b {
      GateExcludes(t, q, a, b);
    }
  }

  lemma {:induction false} OthersStayForeign(s: Lock, native: set<nat>, movable: set<nat>, events: seq<Event>)
    requires Setting(s, native, movable) && MovesOnly(events, movable)
    ensures forall p :: 0 <= p < CANDIDATE_COUNT && p !in native + movable ==> Run(s, events).ports[p] == Foreign
  {
    if events != [] {
      var most := events[..|events| - 1];
      assert MovesOnly(most, movable) by {
        assert forall k :: 0 <= k < |most| ==> most[k] == events[k];
      }
      OthersStayForeign(s, native, movable, most);
    }
  }

  /** With a single port that can be bound at all, at most one attempt holds the lock. */
  lemma OnePortOneHolder(s: Lock, native: set<nat>, movable: set<nat>, events: seq<Event>)
    requires Setting(s, native, movable) && MovesOnly(events, movable) && |native + movable| < 2
    ensures !TwoHold(Run(s, events))
  {
    RunKeepsWellFormed(s, events);
    OthersStayForeign(s, native, movable, events);
    var t := Run(s, events);
    forall a, b | Holds(t, a) && Holds(t, b) ensures a == b {
      var p :| 0 <= p < CANDIDATE_COUNT && Owns(t, a, p);
      var q :| 0 <= q < CANDIDATE_COUNT && Owns(t, b, q);
      SmallSet(native + movable, p, q);
    }
  }

  lemma SmallSet(w: set<nat>, p: nat, q: nat)
    requires |w| < 2 && p in w && q in w
    ensures p == q
  {
    assert |w - {p}| == |w| - 1;
    assert w - {p} == {};
  }

  // ---- A run that reaches the bound, for any such ports ----

  /** The two attempts that will hold the lock; an attempt named after its port dies on each never-foreign one. */
  const B: Id := 8
  const C: Id := 9

  /** Events of the run: only the named attempts die, and none of those ever concludes. */
  predicate Fair(e: Event, native: set<nat>, movable: set<nat>) {
    && (e.Close? ==> e.id in native)
    && (e.Conclude? ==> e.id in {B, C})
    && (e.ForeignArrives? || e.ForeignLeaves? ==> e.port in movable)
  }

  /** These events lead from `s` to `t`. */
  predicate Leads(s: Lock, events: seq<Event>, t: Lock, native: set<nat>, movable: set<nat>) {
    |s.ports| == CANDIDATE_COUNT && Run(s, events) == t && forall k :: 0 <= k < |events| ==> Fair(events[k], native, movable)
  }

  lemma {:induction false} RunAppend(s: Lock, first: seq<Event>, second: seq<Event>)
    requires |s.ports| == CANDIDATE_COUNT
    ensures Run(s, first + second) == Run(Run(s, first), second)
  {
    if second == [] {
      assert first + second == first;
    } else {
      var most := second[..|second| - 1];
      RunAppend(s, first, most);
      assert (first + second)[..|first + second| - 1] == first + most;
    }
  }

  lemma Chain(s: Lock, first: seq<Event>, t: Lock, second: seq<Event>, u: Lock, native: set<nat>, movable: set<nat>)
    requires Leads(s, first, t, native, movable) && Leads(t, second, u, native, movable)
    ensures Leads(s, first + second, u, native, movable)
  {
    RunAppend(s, first, second);
  }

  lemma Then(s: Lock, events: seq<Event>, t: Lock, e: Event, u: Lock, native: set<nat>, movable: set<nat>)
    requires Leads(s, events, t, native, movable) && |t.ports| == CANDIDATE_COUNT && Apply(t, e) == u && Fair(e, native, movable)
    ensures Leads(s, events + [e], u, native, movable)
  {
    assert (events + [e])[..|events|] == events;
  }

  function SetAll(phases: map<Id, Phase>, ids: set<Id>, phase: Phase): map<Id, Phase> {
    map c | c in phases :: if c in ids then phase else phases[c]
  }

  predicate AllAt(s: Lock, ids: set<Id>, phase: Phase) {
    forall c :: c in ids ==> c in s.phases && s.phases[c] == phase
  }

  /** Every one of these attempts finds the port occupied. */
  lemma {:induction false} EachBinds(s: Lock, i: nat, ids: set<Id>, native: set<nat>, movable: set<nat>) returns (events: seq<Event>)
    requires |s.ports| == CANDIDATE_COUNT && i < CANDIDATE_COUNT && s.ports[i] != Free && AllAt(s, ids, Scanning(i))
    ensures Leads(s, events, s.(phases := SetAll(s.phases, ids, Probing(i))), native, movable)
  {
    if ids == {} {
      assert SetAll(s.phases, ids, Probing(i)) == s.phases;
      events := [];
    } else {
      var c :| c in ids;
      events := EachBinds(s, i, ids - {c}, native, movable);
      var t := s.(phases := SetAll(s.phases, ids - {c}, Probing(i)));
      var u := s.(phases := SetAll(s.phases, ids, Probing(i)));
      assert t.phases[c := Probing(i)] == u.phases;
      Then(s, events, t, Bind(c), u, native, movable);
      events := events + [Bind(c)];
    }
  }

  /** Every one of them gets no proof from it and moves on. */
  lemma {:induction false} EachProbes(s: Lock, i: nat, ids: set<Id>, native: set<nat>, movable: set<nat>) returns (events: seq<Event>)
    requires |s.ports| == CANDIDATE_COUNT && i < CANDIDATE_COUNT && !s.ports[i].Server? && AllAt(s, ids, Probing(i))
    ensures Leads(s, events, s.(phases := SetAll(s.phases, ids, Scanning(i + 1))), native, movable)
  {
    if ids == {} {
      assert SetAll(s.phases, ids, Scanning(i + 1)) == s.phases;
      events := [];
    } else {
      var c :| c in ids;
      events := EachProbes(s, i, ids - {c}, native, movable);
      var t := s.(phases := SetAll(s.phases, ids - {c}, Scanning(i + 1)));
      var u := s.(phases := SetAll(s.phases, ids, Scanning(i + 1)));
      assert t.phases[c := Scanning(i + 1)] == u.phases;
      Then(s, events, t, Probe(c), u, native, movable);
      events := events + [Probe(c)];
    }
  }

  function Starting(ids: set<Id>): map<Id, Phase> {
    map c | c in ids :: Scanning(0)
  }

  lemma {:induction false} EachStarts(s: Lock, ids: set<Id>, native: set<nat>, movable: set<nat>) returns (events: seq<Event>)
    requires |s.ports| == CANDIDATE_COUNT && s.phases == map[]
    ensures Leads(s, events, s.(phases := Starting(ids)), native, movable)
  {
    if ids == {} {
      assert Starting(ids) == s.phases;
      events := [];
    } else {
      var c :| c in ids;
      events := EachStarts(s, ids - {c}, native, movable);
      var t, u := s.(phases := Starting(ids - {c})), s.(phases := Starting(ids));
      assert t.phases[c := Scanning(0)] == u.phases;
      Then(s, events, t, Start(c), u, native, movable);
      events := events + [Start(c)];
    }
  }

  /** `C` takes the chosen port and `B` every other one that can be bound. */
  function Winner(chosen: nat, p: nat): Id {
    if p == chosen then C else B
  }

  /** Who is still scanning when port `i` is next: both winners, and the attempts that will die on a later port. */
  function Alive(native: set<nat>, i: nat): set<Id> {
    (set c | c in native && c >= i) + {B, C}
  }

  /** Before port `i`: the earlier ports are taken as far as they can be, everyone still alive has passed them. */
  function Stage(s: Lock, native: set<nat>, movable: set<nat>, chosen: nat, i: nat): (t: Lock)
    requires |s.ports| == CANDIDATE_COUNT
    ensures |t.ports| == CANDIDATE_COUNT
  {
    Lock(seq(CANDIDATE_COUNT, p requires 0 <= p < CANDIDATE_COUNT =>
           if p < i && p in native + movable then Server(Winner(chosen, p)) else s.ports[p]),
         map c | c in native + {B, C} :: if c < i && c in native then Closed else Scanning(i))
  }

  predicate Plotted(s: Lock, native: set<nat>, movable: set<nat>, chosen: nat, i: nat) {
    Setting(s, native, movable) && i < CANDIDATE_COUNT
  }

  /** A port that always is foreign: everyone passes it. */
  lemma ForeignStage(s: Lock, native: set<nat>, movable: set<nat>, chosen: nat, i: nat) returns (events: seq<Event>)
    requires Plotted(s, native, movable, chosen, i) && i !in native + movable
    ensures Leads(Stage(s, native, movable, chosen, i), events, Stage(s, native, movable, chosen, i + 1), native, movable)
  {
    var t, alive := Stage(s, native, movable, chosen, i), Alive(native, i);
    events := AllPass(t, i, alive, native, movable);
    assert SetAll(t.phases, alive, Scanning(i + 1)) == Stage(s, native, movable, chosen, i + 1).phases;
    assert t.ports == Stage(s, native, movable, chosen, i + 1).ports;
  }

  lemma AllPass(s: Lock, i: nat, ids: set<Id>, native: set<nat>, movable: set<nat>) returns (events: seq<Event>)
    requires |s.ports| == CANDIDATE_COUNT && i < CANDIDATE_COUNT && s.ports[i] == Foreign && AllAt(s, ids, Scanning(i))
    ensures Leads(s, events, s.(phases := SetAll(s.phases, ids, Scanning(i + 1))), native, movable)
  {
    var first := EachBinds(s, i, ids, native, movable);
    var t := s.(phases := SetAll(s.phases, ids, Probing(i)));
    var second := EachProbes(t, i, ids, native, movable);
    assert SetAll(t.phases, ids, Scanning(i + 1)) == SetAll(s.phases, ids, Scanning(i + 1));
    Chain(s, first, t, second, s.(phases := SetAll(s.phases, ids, Scanning(i + 1))), native, movable);
    events := first + second;
  }

  lemma MakesForeign(s: Lock, i: nat, native: set<nat>, movable: set<nat>) returns (events: seq<Event>)
    requires |s.ports| == CANDIDATE_COUNT && i < CANDIDATE_COUNT && i in movable && !s.ports[i].Server?
    ensures Leads(s, events, s.(ports := s.ports[i := Foreign]), native, movable)
  {
    if s.ports[i] == Free {
      Then(s, [], s, ForeignArrives(i), s.(ports := s.ports[i := Foreign]), native, movable);
      events := [] + [ForeignArrives(i)];
    } else {
      assert s.ports[i := Foreign] == s.ports;
      events := [];
    }
  }

  /** The port is made foreign if it is not, these attempts pass it, and it is left free. */
  lemma PassesAndLeaves(s: Lock, i: nat, ids: set<Id>, native: set<nat>, movable: set<nat>) returns (events: seq<Event>)
    requires |s.ports| == CANDIDATE_COUNT && i < CANDIDATE_COUNT && i in movable && !s.ports[i].Server? && AllAt(s, ids, Scanning(i))
    ensures Leads(s, events, Lock(s.ports[i := Free], SetAll(s.phases, ids, Scanning(i + 1))), native, movable)
  {
    var s1 := s.(ports := s.ports[i := Foreign]);
    var first := MakesForeign(s, i, native, movable);
    var more := AllPass(s1, i, ids, native, movable);
    var s2 := s1.(phases := SetAll(s1.phases, ids, Scanning(i + 1)));
    var s3 := Lock(s.ports[i := Free], s2.phases);
    assert s2.ports[i := Free] == s3.ports;
    assert Apply(s2, ForeignLeaves(i)) == s3;
    hide Apply, SetAll, AllAt, Leads;
    Chain(s, first, s1, more, s2, native, movable);
    Then(s, first + more, s2, ForeignLeaves(i), s3, native, movable);
    events := first + more + [ForeignLeaves(i)];
  }

  /** A port that may change: everyone but its winner passes it while it is foreign, then it is left and bound. */
  lemma MovableStage(s: Lock, native: set<nat>, movable: set<nat>, chosen: nat, i: nat) returns (events: seq<Event>)
    requires Plotted(s, native, movable, chosen, i) && i in movable
    ensures Leads(Stage(s, native, movable, chosen, i), events, Stage(s, native, movable, chosen, i + 1), native, movable)
  {
    var t, w := Stage(s, native, movable, chosen, i), Winner(chosen, i);
    var others := Alive(native, i) - {w};
    events := PassesAndLeaves(t, i, others, native, movable);
    var u := Lock(t.ports[i := Free], SetAll(t.phases, others, Scanning(i + 1)));
    WinnerBinds(s, native, movable, chosen, i, u);
    hide Stage, SetAll, Alive, Apply, Leads;
    Then(t, events, u, Bind(w), Stage(s, native, movable, chosen, i + 1), native, movable);
    events := events + [Bind(w)];
  }

  /** The last step of a port that can be bound: everyone else is past it, and its winner binds it. */
  lemma WinnerBinds(s: Lock, native: set<nat>, movable: set<nat>, chosen: nat, i: nat, t: Lock)
    requires Plotted(s, native, movable, chosen, i) && i in native + movable
    requires t.ports == Stage(s, native, movable, chosen, i).ports[i := Free]
    requires t.phases.Keys == native + {B, C}
    requires forall c :: c in native + {B, C} ==>
               t.phases[c] == if c == Winner(chosen, i) then Scanning(i) else Stage(s, native, movable, chosen, i + 1).phases[c]
    ensures Apply(t, Bind(Winner(chosen, i))) == Stage(s, native, movable, chosen, i + 1)
  {
    var w, u := Winner(chosen, i), Stage(s, native, movable, chosen, i + 1);
    assert t.ports[i := Server(w)] == u.ports;
    assert t.phases[w := Scanning(i + 1)] == u.phases;
  }

  /** An attempt binds the port, the others find it occupied, it dies, and they pass the port it leaves free. */
  lemma BindsAndDies(s: Lock, i: nat, ids: set<Id>, native: set<nat>, movable: set<nat>) returns (events: seq<Event>)
    requires |s.ports| == CANDIDATE_COUNT && i < CANDIDATE_COUNT && i in native && s.ports[i] == Free && i !in ids
    requires AllAt(s, ids, Scanning(i)) && AllAt(s, {i}, Scanning(i))
    requires forall p :: 0 <= p < CANDIDATE_COUNT ==> s.ports[p] != Server(i)
    ensures Leads(s, events, Lock(s.ports, SetAll(s.phases, ids, Scanning(i + 1))[i := Closed]), native, movable)
  {
    var s1 := Lock(s.ports[i := Server(i)], s.phases[i := Scanning(i + 1)]);
    assert Apply(s, Bind(i)) == s1;
    Then(s, [], s, Bind(i), s1, native, movable);
    var binds := EachBinds(s1, i, ids, native, movable);
    var s2 := s1.(phases := SetAll(s1.phases, ids, Probing(i)));
    Chain(s, [] + [Bind(i)], s1, binds, s2, native, movable);
    var s3 := Lock(s.ports, s2.phases[i := Closed]);
    assert Rollback(s2.ports, i) == s.ports;
    assert Apply(s2, Close(i)) == s3;
    var probes := EachProbes(s3, i, ids, native, movable);
    var s4 := s3.(phases := SetAll(s3.phases, ids, Scanning(i + 1)));
    assert s4.phases == SetAll(s.phases, ids, Scanning(i + 1))[i := Closed];
    hide Apply, SetAll, AllAt;
    Then(s, [] + [Bind(i)] + binds, s2, Close(i), s3, native, movable);
    Chain(s, [] + [Bind(i)] + binds + [Close(i)], s3, probes, s4, native, movable);
    events := [] + [Bind(i)] + binds + [Close(i)] + probes;
  }

  /** A port that never is foreign: an attempt dies on it while everyone but its winner is about to probe it. */
  lemma NativeStage(s: Lock, native: set<nat>, movable: set<nat>, chosen: nat, i: nat) returns (events: seq<Event>)
    requires Plotted(s, native, movable, chosen, i) && i in native
    ensures Leads(Stage(s, native, movable, chosen, i), events, Stage(s, native, movable, chosen, i + 1), native, movable)
  {
    var t, w := Stage(s, native, movable, chosen, i), Winner(chosen, i);
    var others := Alive(native, i) - {w, i};
    NativeReady(s, native, movable, chosen, i);
    hide Stage, SetAll, Alive, Apply, Leads, AllAt, Setting;
    events := BindsAndDies(t, i, others, native, movable);
    var u := Lock(t.ports, SetAll(t.phases, others, Scanning(i + 1))[i := Closed]);
    Then(t, events, u, Bind(w), Stage(s, native, movable, chosen, i + 1), native, movable);
    events := events + [Bind(w)];
  }

  lemma NativeReady(s: Lock, native: set<nat>, movable: set<nat>, chosen: nat, i: nat)
    requires Plotted(s, native, movable, chosen, i) && i in native
    ensures var t, w := Stage(s, native, movable, chosen, i), Winner(chosen, i);
            var others := Alive(native, i) - {w, i};
            && t.ports[i] == Free && AllAt(t, others, Scanning(i)) && AllAt(t, {i}, Scanning(i))
            && (forall p :: 0 <= p < CANDIDATE_COUNT ==> t.ports[p] != Server(i))
            && Apply(Lock(t.ports, SetAll(t.phases, others, Scanning(i + 1))[i := Closed]), Bind(w))
               == Stage(s, native, movable, chosen, i + 1)
  {
    var t, w := Stage(s, native, movable, chosen, i), Winner(chosen, i);
    var others := Alive(native, i) - {w, i};
    var u := Lock(t.ports, SetAll(t.phases, others, Scanning(i + 1))[i := Closed]);
    assert t.ports[i := Free] == t.ports;
    OthersPassed(s, native, movable, chosen, i);
    hide Apply, SetAll;
    WinnerBinds(s, native, movable, chosen, i, u);
  }

  /** Once the attempt on port `i` is dead and the others are past it, only its winner is behind the next stage. */
  lemma OthersPassed(s: Lock, native: set<nat>, movable: set<nat>, chosen: nat, i: nat)
    requires Plotted(s, native, movable, chosen, i) && i in native
    ensures var t, w := Stage(s, native, movable, chosen, i), Winner(chosen, i);
            var phases := SetAll(t.phases, Alive(native, i) - {w, i}, Scanning(i + 1))[i := Closed];
            && phases.Keys == native + {B, C}
            && forall c :: c in native + {B, C} ==>
                 phases[c] == if c == w then Scanning(i) else Stage(s, native, movable, chosen, i + 1).phases[c]
  {
  }

  lemma {:induction false} Stages(s: Lock, native: set<nat>, movable: set<nat>, chosen: nat, i: nat) returns (events: seq<Event>)
    requires Setting(s, native, movable) && i <= CANDIDATE_COUNT
    ensures Leads(s, events, Stage(s, native, movable, chosen, i), native, movable)
  {
    if i == 0 {
      events := EachStarts(s, native + {B, C}, native, movable);
      assert Stage(s, native, movable, chosen, 0).ports == s.ports;
      assert Stage(s, native, movable, chosen, 0).phases == Starting(native + {B, C});
    } else {
      var before := Stages(s, native, movable, chosen, i - 1);
      var more;
      if i - 1 in native {
        more := NativeStage(s, native, movable, chosen, i - 1);
      } else if i - 1 in movable {
        more := MovableStage(s, native, movable, chosen, i - 1);
      } else {
        more := ForeignStage(s, native, movable, chosen, i - 1);
      }
      Chain(s, before, Stage(s, native, movable, chosen, i - 1), more, Stage(s, native, movable, chosen, i), native, movable);
      events := before + more;
    }
  }

  /** How the run ends: `B` and `C` hold, everyone else is closed. */
  function Final(s: Lock, native: set<nat>, movable: set<nat>, chosen: nat): Lock
    requires |s.ports| == CANDIDATE_COUNT
  {
    Lock(Stage(s, native, movable, chosen, CANDIDATE_COUNT).ports,
         map c | c in native + {B, C} :: if c in native then Closed else Held)
  }

  lemma BothConclude(s: Lock, native: set<nat>, movable: set<nat>, chosen: nat, p: nat, before: seq<Event>) returns (events: seq<Event>)
    requires Setting(s, native, movable) && chosen in native + movable && p in native + movable && p != chosen
    requires Leads(s, before, Stage(s, native, movable, chosen, CANDIDATE_COUNT), native, movable)
    ensures Leads(s, events, Final(s, native, movable, chosen), native, movable)
  {
    var t := Stage(s, native, movable, chosen, CANDIDATE_COUNT);
    var u := t.(phases := t.phases[B := Held]);
    assert Owns(t, B, p) && Owns(u, C, chosen);
    assert Apply(t, Conclude(B)) == u;
    assert u.phases[C := Held] == Final(s, native, movable, chosen).phases;
    assert Apply(u, Conclude(C)) == Final(s, native, movable, chosen);
    Then(s, before, t, Conclude(B), u, native, movable);
    Then(s, before + [Conclude(B)], u, Conclude(C), Final(s, native, movable, chosen), native, movable);
    events := before + [Conclude(B)] + [Conclude(C)];
  }

  /**
   * For any never-foreign ports and any ports that may change, at least two together: a run in which
   * one attempt dies on each of the former, none of them having concluded, and two others both end up
   * holding the lock.
   */
  lemma AdmitsTwo(s: Lock, native: set<nat>, movable: set<nat>) returns (events: seq<Event>)
    requires Setting(s, native, movable) && |native + movable| >= 2
    ensures MovesOnly(events, movable) && TwoHold(Run(s, events))
    ensures ClosedOnes(Run(s, events)) == native && |Run(s, events).phases.Keys| == |native| + 2
    ensures forall k :: 0 <= k < |events| ==> Fair(events[k], native, movable)
  {
    var chosen :| chosen in native + movable;
    assert native + movable - {chosen} != {} by {
      assert |native + movable - {chosen}| == |native + movable| - 1;
    }
    var p :| p in native + movable - {chosen};
    var before := Stages(s, native, movable, chosen, CANDIDATE_COUNT);
    events := BothConclude(s, native, movable, chosen, p, before);
    FinalHolds(s, native, movable, chosen);
  }

  lemma FinalHolds(s: Lock, native: set<nat>, movable: set<nat>, chosen: nat)
    requires Setting(s, native, movable)
    ensures var t := Final(s, native, movable, chosen);
            TwoHold(t) && ClosedOnes(t) == native && |t.phases.Keys| == |native| + 2
  {
    var t := Final(s, native, movable, chosen);
    assert Holds(t, B) && Holds(t, C);
    assert t.phases.Keys == native + {B, C};
    assert |native + {B, C}| == |native| + |{B, C}|;
  }

  // ---- The exact conditions ----

  /** Some run with at most `n` closed attempts ends with two capabilities. */
  ghost predicate TwoWithClosed(s: Lock, movable: set<nat>, n: nat)
    requires |s.ports| == CANDIDATE_COUNT
  {
    exists events :: MovesOnly(events, movable) && |ClosedOnes(Run(s, events))| <= n && TwoHold(Run(s, events))
  }

  /** Some run with at most `n` attempts ends with two capabilities. */
  ghost predicate TwoWithAttempts(s: Lock, movable: set<nat>, n: nat)
    requires |s.ports| == CANDIDATE_COUNT
  {
    exists events :: MovesOnly(events, movable) && |Run(s, events).phases.Keys| <= n && TwoHold(Run(s, events))
  }

  /**
   * Two capabilities at once are possible if and only if at least two candidate ports can be bound at
   * all and as many attempts may be closed as there are ports that never are foreign.
   */
  lemma TwoExactlyByCloses(s: Lock, native: set<nat>, movable: set<nat>, n: nat)
    requires Setting(s, native, movable)
    ensures TwoWithClosed(s, movable, n) <==> |native + movable| >= 2 && n >= |native|
  {
    if events :| MovesOnly(events, movable) && |ClosedOnes(Run(s, events))| <= n && TwoHold(Run(s, events)) {
      if n < |native| {
        FewerClosesThanPorts(s, native, movable, events);
      }
      if |native + movable| < 2 {
        OnePortOneHolder(s, native, movable, events);
      }
    }
    if |native + movable| >= 2 && n >= |native| {
      var events := AdmitsTwo(s, native, movable);
    }
  }

  /** And if and only if at least that many attempts and two more take part. */
  lemma TwoExactlyByAttempts(s: Lock, native: set<nat>, movable: set<nat>, n: nat)
    requires Setting(s, native, movable)
    ensures TwoWithAttempts(s, movable, n) <==> |native + movable| >= 2 && n >= |native| + 2
  {
    if events :| MovesOnly(events, movable) && |Run(s, events).phases.Keys| <= n && TwoHold(Run(s, events)) {
      HoldersAreOpen(Run(s, events));
      if n < |native| + 2 {
        FewerClosesThanPorts(s, native, movable, events);
      }
      if |native + movable| < 2 {
        OnePortOneHolder(s, native, movable, events);
      }
    }
    if |native + movable| >= 2 && n >= |native| + 2 {
      var events := AdmitsTwo(s, native, movable);
    }
  }

  lemma HoldersAreOpen(s: Lock)
    requires TwoHold(s)
    ensures |ClosedOnes(s)| + 2 <= |s.phases.Keys|
  {
    var a, b :| a in s.phases && b in s.phases && a != b && Holds(s, a) && Holds(s, b);
    Subset(ClosedOnes(s), s.phases.Keys - {a, b});
    assert |s.phases.Keys - {a, b}| == |s.phases.Keys| - |{a, b}|;
  }

  lemma {:induction false} Subset(few: set<Id>, many: set<Id>)
    requires few <= many
    ensures |few| <= |many|
  {
    if few != {} {
      var c :| c in few;
      Subset(few - {c}, many - {c});
    }
  }

  /** With foreign listeners fixed, two capabilities need two ports that are not foreign and a death on each of all such ports. */
  lemma TwoExactlyWithFixedListeners(s: Lock, n: nat)
    requires Initial(s)
    ensures var native := set p | 0 <= p < CANDIDATE_COUNT && s.ports[p] != Foreign;
            TwoWithClosed(s, {}, n) <==> |native| >= 2 && n >= |native|
  {
    var native := set p | 0 <= p < CANDIDATE_COUNT && s.ports[p] != Foreign;
    assert native + {} == native;
    TwoExactlyByCloses(s, native, {}, n);
  }

  /** While nobody gives up anything, two capabilities need two ports that may change and no port that never is foreign. */
  lemma TwoExactlyWithoutCloses(s: Lock, native: set<nat>, movable: set<nat>)
    requires Setting(s, native, movable)
    ensures TwoWithClosed(s, movable, 0) <==> native == {} && |movable| >= 2
  {
    TwoExactlyByCloses(s, native, movable, 0);
    if native == {} {
      assert native + movable == movable;
    }
  }
}
