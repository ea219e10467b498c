/**
 * Whole runs of the transaction protocol: its steps, each with the fate of the directory sync that
 * ends its commit, and losses of power. A file whose directory was not synced since it was put in
 * place may give way to an earlier one when power is lost (rpc-src/store.ts).
 */
module Runs {
  import opened Wrappers
  import opened Addresses
  import opened ChainState
  import opened AddressMap
  import opened Journal
  import opened Planner
  import opened Reconciler
  import opened Protocol

  /** The system, and the chains of earlier state files that a loss of power may bring back. */
  datatype Machine = Machine(system: System, earlier: set<Chain>)

  datatype Move =
    | Act(step: Step, synced: bool)
    | PowerLoss(successor: Owner, image: Chain)

  function Images(w: Machine): set<Chain> {
    {w.system.chain} + w.earlier
  }

  /** The step's store transaction replaces the state file, be it by an equal one. */
  predicate Lands(env: Env, s: System, e: Step) {
    || Protocol.Next(env, s, e).chain != s.chain
    || match e
       case ReceiveSource(raw) => Receive(env, s.chain, s.owner, raw).Ok?
       case Prepare(h, native, sim, x) =>
         && h in s.tasks && s.tasks[h].Building? && FollowsSource(env, s.chain, h, x)
         && PrepareInChain(env, s.chain, s.owner, h, native, sim, x).Ok?
       case NoteBroadcast(h) => h in s.tasks && s.tasks[h].Sent? && RecordBroadcast(env, s.chain, h).Ok?
       case TableUpdate(w) => Write(s.chain, w).Ok?
       case _ => false
  }

  function Next(env: Env, w: Machine, m: Move): Machine {
    match m
    case Act(e, synced) =>
      Machine(Protocol.Next(env, w.system, e),
              if !Lands(env, w.system, e) then w.earlier else if synced then {} else w.earlier + {w.system.chain})
    case PowerLoss(successor, image) =>
      if image in Images(w) then Machine(w.system.(chain := image, owner := successor, tasks := map[]), {}) else w
  }

  function Run(env: Env, owner: Owner, moves: seq<Move>): Machine {
    if moves == [] then Machine(Start(owner), {})
    else Next(env, Run(env, owner, moves[..|moves| - 1]), moves[|moves| - 1])
  }

  lemma RunSnoc(env: Env, owner: Owner, moves: seq<Move>, m: Move)
    ensures Run(env, owner, moves + [m]) == Next(env, Run(env, owner, moves), m)
  {
    hide Next;
    assert (moves + [m])[..|moves|] == moves;
  }

  // ---- What every run keeps, whatever power losses bring back ----

  /** `d` continues `c`: records and tables only advance, counters never decrease. */
  ghost predicate Continues(c: Chain, d: Chain) {
    RecordsStay(c, d) && Climbs(c, d) && forall a :: NextNonce(d, a) >= NextNonce(c, a)
  }

  ghost predicate MachineSound(env: Env, w: Machine) {
    && SystemSound(env, w.system)
    && forall c :: c in w.earlier ==> Sound(env, c) && Continues(c, w.system.chain)
  }

  lemma ContinuesSelf(c: Chain)
    ensures Continues(c, c)
  {
    ClimbsReflexive(c);
  }

  lemma ContinuesTransitive(c: Chain, d: Chain, e: Chain)
    requires Continues(c, d) && Continues(d, e)
    ensures Continues(c, e)
  {
    ClimbsTransitive(c, d, e);
    hide Climbs;
  }

  lemma ActKeepsSound(env: Env, w: Machine, e: Step, synced: bool)
    requires MachineSound(env, w)
    ensures MachineSound(env, Next(env, w, Act(e, synced)))
    ensures Continues(w.system.chain, Next(env, w, Act(e, synced)).system.chain)
  {
    var c, d := w.system.chain, Protocol.Next(env, w.system, e).chain;
    hide Lands, Protocol.Next, Sound, TasksSound, RecordsStay, Climbs;
    StepKeepsSound(env, w.system, e);
    hide Continues;
    assert Continues(c, d) by {
      AsContinues(c, d);
    }
    forall b | b in w.earlier ensures Continues(b, d) {
      ContinuesTransitive(b, c, d);
    }
  }

  lemma AsContinues(c: Chain, d: Chain)
    requires RecordsStay(c, d) && Climbs(c, d) && forall a :: NextNonce(d, a) >= NextNonce(c, a)
    ensures Continues(c, d)
  {
  }

  lemma LossKeepsSound(env: Env, w: Machine, successor: Owner, image: Chain)
    requires MachineSound(env, w)
    ensures MachineSound(env, Next(env, w, PowerLoss(successor, image)))
  {
    hide Sound, Continues;
  }

  /** Every journal, table and counter state any run leaves, and any image of it, passes the checks of the next read. */
  lemma {:induction false} RunSound(env: Env, owner: Owner, moves: seq<Move>)
    ensures MachineSound(env, Run(env, owner, moves))
  {
    if moves == [] {
      StartSound(env, owner);
    } else {
      RunSound(env, owner, moves[..|moves| - 1]);
      hide MachineSound, Next;
      match moves[|moves| - 1]
      case Act(e, synced) => ActKeepsSound(env, Run(env, owner, moves[..|moves| - 1]), e, synced);
      case PowerLoss(successor, image) => LossKeepsSound(env, Run(env, owner, moves[..|moves| - 1]), successor, image);
    }
  }

  // ---- Runs in which no commit is lost ----

  /** From the `i`-th move on, every loss of power brings back the chain as it was. */
  predicate KeepsCommits(env: Env, owner: Owner, moves: seq<Move>, i: nat) {
    forall k :: i <= k < |moves| && moves[k].PowerLoss? ==>
      var w := Run(env, owner, moves[..k]);
      moves[k].image in Images(w) ==> moves[k].image == w.system.chain
  }

  /** A loss of power that finds the directory synced brings back nothing else. */
  lemma SettledKeepsCommits(env: Env, owner: Owner, moves: seq<Move>, i: nat)
    requires forall k :: i <= k < |moves| && moves[k].PowerLoss? ==> Run(env, owner, moves[..k]).earlier == {}
    ensures KeepsCommits(env, owner, moves, i)
  {
    hide Run;
  }

  lemma KeepsCommitsPrefix(env: Env, owner: Owner, moves: seq<Move>, i: nat)
    requires KeepsCommits(env, owner, moves, i) && |moves| > 0
    ensures KeepsCommits(env, owner, moves[..|moves| - 1], i)
  {
    var most := moves[..|moves| - 1];
    hide Run;
    assert forall k :: 0 <= k < |most| ==> most[k] == moves[k] && most[..k] == moves[..k];
  }

  /**
   * While no commit is lost, from any moment of a run to any later one records keep their source and,
   * once they have one, their native transaction and plan; finished records are final; counters never
   * decrease; and the address tables only climb.
   */
  lemma {:induction false} RunOnlyAdvances(env: Env, owner: Owner, moves: seq<Move>, i: nat)
    requires i <= |moves| && KeepsCommits(env, owner, moves, i)
    ensures Continues(Run(env, owner, moves[..i]).system.chain, Run(env, owner, moves).system.chain)
  {
    hide Continues, MachineSound;
    if i == |moves| {
      assert moves[..i] == moves;
      ContinuesSelf(Run(env, owner, moves).system.chain);
    } else {
      var most, m := moves[..|moves| - 1], moves[|moves| - 1];
      assert most[..i] == moves[..i];
      KeepsCommitsPrefix(env, owner, moves, i);
      RunOnlyAdvances(env, owner, most, i);
      RunSound(env, owner, most);
      var w := Run(env, owner, most);
      match m {
        case Act(e, synced) =>
          ActKeepsSound(env, w, e, synced);
          hide Next;
          ContinuesTransitive(Run(env, owner, moves[..i]).system.chain, w.system.chain, Run(env, owner, moves).system.chain);
        case PowerLoss(_, image) =>
          assert image in Images(w) ==> image == w.system.chain;
      }
    }
  }

  /** While no commit is lost, a confirmed transaction keeps its own receipt and its creation tree stays in the table. */
  lemma ConfirmedStaysPublished(env: Env, owner: Owner, moves: seq<Move>, i: nat, h: Hash)
    requires i <= |moves| && KeepsCommits(env, owner, moves, i)
    requires InState(Run(env, owner, moves[..i]).system.chain, h, Confirmed)
    ensures var r, d := Run(env, owner, moves[..i]).system.chain.records[h], Run(env, owner, moves).system.chain;
            h in d.records && d.records[h] == r && OwnReceipt(r) && TreePublished(d, r)
  {
    RunSound(env, owner, moves);
    RunOnlyAdvances(env, owner, moves, i);
    hide Run, KeepsCommits;
    var c, d := Run(env, owner, moves[..i]).system.chain, Run(env, owner, moves).system.chain;
    assert RecordStays(c.records[h], d.records[h]);
    hide Climbs, RecordsStay, RecordStays;
    SoundTrees(env, d);
    hide Sound, OwnReceipt, TreePublished;
    assert d.records[h] == c.records[h] by {
      ConfirmedStays(c, d, h);
    }
  }

  lemma SoundTrees(env: Env, c: Chain)
    requires Sound(env, c)
    ensures TreesPublished(c)
  {
  }

  lemma ConfirmedStays(c: Chain, d: Chain, h: Hash)
    requires Continues(c, d) && InState(c, h, Confirmed)
    ensures h in d.records && d.records[h] == c.records[h]
  {
    assert RecordStays(c.records[h], d.records[h]);
  }

  // ---- No double execution ----

  predicate AllHold(images: set<Chain>, m: Transmission) {
    forall c :: c in images ==> HasNative(c, m.hash, m.native)
  }

  /** What a move hands to the network. */
  function Sends(w: Machine, m: Move): Option<Transmission> {
    if m.Act? then Emission(w.system, m.step) else None
  }

  /**
   * At every sending step, each state file that a loss of power could bring back at that moment
   * already holds the native transaction that is being sent.
   */
  predicate Guarded(env: Env, owner: Owner, moves: seq<Move>) {
    forall k :: 0 <= k < |moves| ==>
      var w := Run(env, owner, moves[..k]);
      Sends(w, moves[k]).Some? ==> AllHold(Images(w), Sends(w, moves[k]).value)
  }

  lemma GuardedPrefix(env: Env, owner: Owner, moves: seq<Move>, i: nat)
    requires Guarded(env, owner, moves) && i <= |moves|
    ensures Guarded(env, owner, moves[..i])
  {
    hide Run, Sends, AllHold;
    var most := moves[..i];
    assert forall k :: 0 <= k < |most| ==> most[k] == moves[k] && most[..k] == moves[..k];
  }

  /** Everything sent so far is in the journal, and in whatever a loss of power could make of it. */
  predicate SentHeld(w: Machine) {
    forall m :: m in w.system.sent ==> AllHold(Images(w), m)
  }

  lemma ActHolds(env: Env, w: Machine, e: Step, synced: bool)
    requires MachineSound(env, w) && SentHeld(w)
    requires Emission(w.system, e).Some? ==> AllHold(Images(w), Emission(w.system, e).value)
    ensures SentHeld(Next(env, w, Act(e, synced)))
  {
    var t := Next(env, w, Act(e, synced));
    StepSends(env, w.system, e);
    ActKeepsSound(env, w, e, synced);
    hide Protocol.Next, Lands, MachineSound, HasNative, Emission, Climbs;
    assert Images(t) <= Images(w) + {t.system.chain};
    forall m | m in t.system.sent ensures AllHold(Images(t), m) {
      assert AllHold(Images(w), m);
      assert HasNative(w.system.chain, m.hash, m.native);
      NativeStays(w.system.chain, t.system.chain, m);
    }
  }

  lemma LossHolds(env: Env, w: Machine, successor: Owner, image: Chain)
    requires SentHeld(w)
    ensures SentHeld(Next(env, w, PowerLoss(successor, image)))
  {
    hide HasNative;
    var t := Next(env, w, PowerLoss(successor, image));
    assert Images(t) <= Images(w);
    forall m | m in t.system.sent ensures AllHold(Images(t), m) { assert AllHold(Images(w), m); }
  }

  lemma {:induction false} GuardedHolds(env: Env, owner: Owner, moves: seq<Move>)
    requires Guarded(env, owner, moves)
    ensures SentHeld(Run(env, owner, moves))
  {
    if moves != [] {
      var most, m := moves[..|moves| - 1], moves[|moves| - 1];
      GuardedPrefix(env, owner, moves, |moves| - 1);
      GuardedHolds(env, owner, most);
      RunSound(env, owner, most);
      var w := Run(env, owner, most);
      assert Sends(w, m).Some? ==> AllHold(Images(w), Sends(w, m).value);
      hide Next, MachineSound, SentHeld, AllHold;
      match m
      case Act(e, synced) => ActHolds(env, w, e, synced);
      case PowerLoss(successor, image) => LossHolds(env, w, successor, image);
    }
  }

  /**
   * No double execution: over every run in which nothing is sent that a loss of power could still
   * take out of the journal, whatever crashes and power losses it has, two transmissions whose
   * sources were signed by the same sender with the same nonce are one and the same native
   * transaction for one and the same source.
   */
  lemma NoDoubleExecution(env: Env, owner: Owner, moves: seq<Move>, m: Transmission, n: Transmission)
    requires Guarded(env, owner, moves)
    requires m in Run(env, owner, moves).system.sent && n in Run(env, owner, moves).system.sent
    ensures var records := Run(env, owner, moves).system.chain.records;
            && m.hash in records && n.hash in records
            && Decode(env, records[m.hash].source).Some? && Decode(env, records[n.hash].source).Some?
            && Keccak(env, records[m.hash].source) == m.hash
            && (Decode(env, records[m.hash].source) == Decode(env, records[n.hash].source) ==> m == n)
  {
    RunSound(env, owner, moves);
    GuardedHolds(env, owner, moves);
    var w := Run(env, owner, moves);
    hide Run, Guarded;
    HeldInChain(w, m);
    HeldInChain(w, n);
    hide SentHeld;
    NativeHoldsNonce(env, w.system.chain, m);
    NativeHoldsNonce(env, w.system.chain, n);
    hide SourcesFollowed, JournalValid, PreparedOccupy, Occupies, CountersValid, FinalsStored, PlansApart, TablesValid, TasksSound,
         TreesPublished, Continues;
  }

  lemma HeldInChain(w: Machine, m: Transmission)
    requires SentHeld(w) && m in w.system.sent
    ensures HasNative(w.system.chain, m.hash, m.native)
  {
    assert AllHold(Images(w), m);
  }

  lemma NativeHoldsNonce(env: Env, c: Chain, m: Transmission)
    requires Sound(env, c) && HasNative(c, m.hash, m.native)
    ensures var r := c.records[m.hash];
            && Occupies(r) && Keccak(env, r.source) == m.hash && NonZero(r.context.value.from)
            && Decode(env, r.source) == Some(Source(r.context.value.from, r.context.value.nonce))
  {
    assert ValidRecord(env, c.records[m.hash], m.hash);
    hide JournalValid, CountersValid, FinalsStored, PlansApart, TablesValid, OneOccupant, ValidPreparation, TreesPublished;
  }

  /**
   * Under the same guard, what is sent for a source was recorded before in every state file that a
   * loss of power could bring back, and from then on the journal never holds other bytes for it.
   */
  lemma SentBytesWereRecorded(env: Env, owner: Owner, moves: seq<Move>, i: nat, m: Transmission)
    requires Guarded(env, owner, moves) && i < |moves| && Sends(Run(env, owner, moves[..i]), moves[i]) == Some(m)
    ensures AllHold(Images(Run(env, owner, moves[..i])), m)
    ensures AllHold(Images(Run(env, owner, moves)), m)
    ensures forall j, n :: i <= j < |moves| && Sends(Run(env, owner, moves[..j]), moves[j]) == Some(n) && n.hash == m.hash ==> n == m
  {
    var before := Run(env, owner, moves[..i]);
    assert AllHold(Images(before), m);
    SentFrom(env, owner, moves, i, |moves|, m);
    assert moves[..|moves|] == moves;
    forall j, n | i <= j < |moves| && Sends(Run(env, owner, moves[..j]), moves[j]) == Some(n) && n.hash == m.hash ensures n == m {
      var w := Run(env, owner, moves[..j]);
      assert AllHold(Images(w), n);
      if j > i {
        SentFrom(env, owner, moves, i, j, m);
      }
      hide Run, Sends, Guarded;
      assert HasNative(w.system.chain, m.hash, m.native) && HasNative(w.system.chain, n.hash, n.native);
    }
  }

  lemma {:induction false} SentGrows(env: Env, owner: Owner, moves: seq<Move>, i: nat)
    requires i <= |moves|
    ensures Run(env, owner, moves[..i]).system.sent <= Run(env, owner, moves).system.sent
  {
    hide MachineSound, Next, Sends;
    if i == |moves| {
      assert moves[..i] == moves;
    } else {
      var most := moves[..|moves| - 1];
      assert most[..i] == moves[..i];
      SentGrows(env, owner, most, i);
      RunSound(env, owner, most);
      MoveSends(env, Run(env, owner, most), moves[|moves| - 1]);
    }
  }

  lemma SentAt(env: Env, owner: Owner, before: seq<Move>, move: Move, m: Transmission)
    requires Sends(Run(env, owner, before), move) == Some(m)
    ensures m in Run(env, owner, before + [move]).system.sent
  {
    RunSound(env, owner, before);
    RunSnoc(env, owner, before, move);
    hide Run, MachineSound, Sends, Next;
    MoveSends(env, Run(env, owner, before), move);
  }

  lemma PrefixSnoc(moves: seq<Move>, i: nat, j: nat)
    requires i < j <= |moves|
    ensures moves[..j][..i + 1] == moves[..i] + [moves[i]]
  {
  }

  lemma SentStays(env: Env, owner: Owner, moves: seq<Move>, i: nat, j: nat, m: Transmission)
    requires i < j <= |moves| && Sends(Run(env, owner, moves[..i]), moves[i]) == Some(m)
    ensures m in Run(env, owner, moves[..j]).system.sent
  {
    hide Run, Sends;
    SentAt(env, owner, moves[..i], moves[i], m);
    PrefixSnoc(moves, i, j);
    SentGrows(env, owner, moves[..j], i + 1);
  }

  lemma SentFrom(env: Env, owner: Owner, moves: seq<Move>, i: nat, j: nat, m: Transmission)
    requires Guarded(env, owner, moves) && i < j <= |moves| && Sends(Run(env, owner, moves[..i]), moves[i]) == Some(m)
    ensures m in Run(env, owner, moves[..j]).system.sent && AllHold(Images(Run(env, owner, moves[..j])), m)
  {
    GuardedPrefix(env, owner, moves, j);
    GuardedHolds(env, owner, moves[..j]);
    hide Guarded, Run, Sends, AllHold, Images;
    SentStays(env, owner, moves, i, j, m);
  }

  lemma MoveSends(env: Env, w: Machine, m: Move)
    requires MachineSound(env, w)
    ensures Next(env, w, m).system.sent == w.system.sent + if Sends(w, m).Some? then {Sends(w, m).value} else {}
  {
    hide Sound, Continues, Protocol.Next, Lands, Emission;
    if m.Act? {
      StepSends(env, w.system, m.step);
    }
  }

  // ---- A guarded transmission is the last word on its nonce ----

  lemma MoveHolds(env: Env, w: Machine, move: Move, m: Transmission)
    requires MachineSound(env, w) && AllHold(Images(w), m)
    ensures AllHold(Images(Next(env, w, move)), m)
  {
    var t := Next(env, w, move);
    hide Protocol.Next, Lands, MachineSound, HasNative, Climbs;
    assert HasNative(w.system.chain, m.hash, m.native);
    if move.Act? {
      ActKeepsSound(env, w, move.step, move.synced);
      NativeStays(w.system.chain, t.system.chain, m);
      assert Images(t) <= Images(w) + {t.system.chain};
    } else {
      assert Images(t) <= Images(w);
    }
  }

  lemma {:induction false} RunHolds(env: Env, owner: Owner, moves: seq<Move>, i: nat, m: Transmission)
    requires i <= |moves| && AllHold(Images(Run(env, owner, moves[..i])), m)
    ensures AllHold(Images(Run(env, owner, moves)), m)
  {
    hide MachineSound, Next, AllHold, Images;
    if i == |moves| {
      assert moves[..i] == moves;
    } else {
      var most := moves[..|moves| - 1];
      assert most[..i] == moves[..i];
      RunHolds(env, owner, most, i, m);
      RunSound(env, owner, most);
      MoveHolds(env, Run(env, owner, most), moves[|moves| - 1], m);
    }
  }

  /**
   * A single guarded transmission is final, whatever the rest of the run did and will do: nothing sent
   * afterwards for a source of the same sender and nonce is another transaction.
   */
  lemma GuardedSendIsFinal(env: Env, owner: Owner, moves: seq<Move>, i: nat, j: nat, m: Transmission, n: Transmission)
    requires i <= j < |moves|
    requires Sends(Run(env, owner, moves[..i]), moves[i]) == Some(m) && AllHold(Images(Run(env, owner, moves[..i])), m)
    requires Sends(Run(env, owner, moves[..j]), moves[j]) == Some(n)
    ensures var records := Run(env, owner, moves[..j]).system.chain.records;
            && m.hash in records && n.hash in records && Decode(env, records[m.hash].source).Some?
            && (Decode(env, records[m.hash].source) == Decode(env, records[n.hash].source) ==> m == n)
  {
    var w := Run(env, owner, moves[..j]);
    assert moves[..j][..i] == moves[..i];
    RunHolds(env, owner, moves[..j], i, m);
    RunSound(env, owner, moves[..j]);
    hide Run;
    StepSends(env, w.system, moves[j].step);
    assert HasNative(w.system.chain, m.hash, m.native);
    hide Sends, AllHold, Continues, TasksSound, Protocol.Next, Emission;
    NativeHoldsNonce(env, w.system.chain, m);
    NativeHoldsNonce(env, w.system.chain, n);
    hide SourcesFollowed, JournalValid, PreparedOccupy, Occupies, CountersValid, FinalsStored, PlansApart, TablesValid, TreesPublished;
  }

  // ---- A guard that is enough: sync the directory with every preparation ----

  predicate SyncedPreparations(moves: seq<Move>) {
    forall k :: 0 <= k < |moves| && moves[k].Act? && moves[k].step.Prepare? ==> moves[k].synced
  }

  /** Whatever native transaction the journal holds, a loss of power cannot take out of it. */
  predicate NativesSettled(w: Machine) {
    forall c, h :: c in w.earlier && h in w.system.chain.records && w.system.chain.records[h].native.Some? ==>
      HasNative(c, h, w.system.chain.records[h].native.value)
  }

  /** Only a preparation records a native transaction. */
  lemma OnlyPrepareRecords(env: Env, s: System, e: Step, h: Hash)
    requires Sound(env, s.chain) && !e.Prepare?
    ensures var d := Protocol.Next(env, s, e).chain;
            h in d.records && d.records[h].native.Some? ==> h in s.chain.records && s.chain.records[h].native == d.records[h].native
  {
    var d := Protocol.Next(env, s, e).chain;
    StepDurable(env, s, e);
    DurableKeepsSound(env, s.chain, d, Protocol.Subject(env, e));
    SoundJournal(env, s.chain);
    DurableStays(env, s.chain, d, Protocol.Subject(env, e));
    StepAddsNoContext(env, s, e);
    hide Protocol.Next, Durable, Climbs;
    if h in d.records && d.records[h].native.Some? {
      PreparedHasContext(env, d, h);
      PreparedHasContext(env, s.chain, h);
      hide Sound;
      assert RecordStays(s.chain.records[h], d.records[h]);
    }
  }

  lemma PreparedHasContext(env: Env, c: Chain, h: Hash)
    requires Sound(env, c) && h in c.records
    ensures c.records[h].native.Some? <==> c.records[h].context.Some?
  {
    assert ValidRecord(env, c.records[h], h);
    hide JournalValid, ValidPreparation;
  }

  lemma ActSettles(env: Env, w: Machine, e: Step, synced: bool)
    requires MachineSound(env, w) && NativesSettled(w) && (e.Prepare? ==> synced)
    ensures NativesSettled(Next(env, w, Act(e, synced)))
  {
    var t := Next(env, w, Act(e, synced));
    if e.Prepare? {
      hide Protocol.Next, MachineSound, HasNative;
      if !Lands(env, w.system, e) {
        assert t.system.chain == w.system.chain;
      }
    } else {
      hide Lands;
      forall c, h | c in t.earlier && h in t.system.chain.records && t.system.chain.records[h].native.Some?
        ensures HasNative(c, h, t.system.chain.records[h].native.value)
      {
        OnlyPrepareRecords(env, w.system, e, h);
        hide Protocol.Next, MachineSound;
      }
    }
  }

  lemma {:induction false} RunSettles(env: Env, owner: Owner, moves: seq<Move>)
    requires SyncedPreparations(moves)
    ensures NativesSettled(Run(env, owner, moves))
  {
    if moves != [] {
      var most, m := moves[..|moves| - 1], moves[|moves| - 1];
      assert SyncedPreparations(most) by {
        assert forall k :: 0 <= k < |most| ==> most[k] == moves[k];
      }
      RunSettles(env, owner, most);
      RunSound(env, owner, most);
      var w := Run(env, owner, most);
      match m {
        case Act(e, synced) =>
          hide MachineSound, NativesSettled, Next;
          ActSettles(env, w, e, synced);
        case PowerLoss(successor, image) =>
      }
    }
  }

  /** If every commit that records a native transaction syncs the directory, nothing is ever sent unguarded. */
  lemma SyncedPreparationsGuard(env: Env, owner: Owner, moves: seq<Move>)
    requires SyncedPreparations(moves)
    ensures Guarded(env, owner, moves)
  {
    forall k | 0 <= k < |moves|
      ensures var w := Run(env, owner, moves[..k]);
              Sends(w, moves[k]).Some? ==> AllHold(Images(w), Sends(w, moves[k]).value)
    {
      assert SyncedPreparations(moves[..k]) by {
        assert forall j :: 0 <= j < k ==> moves[..k][j] == moves[j];
      }
      RunSettles(env, owner, moves[..k]);
      RunSound(env, owner, moves[..k]);
      if Sends(Run(env, owner, moves[..k]), moves[k]).Some? {
        SettledSends(env, Run(env, owner, moves[..k]), moves[k]);
      }
    }
    hide Run, Sends, AllHold, SyncedPreparations;
  }

  lemma SettledSends(env: Env, w: Machine, m: Move)
    requires MachineSound(env, w) && NativesSettled(w) && Sends(w, m).Some?
    ensures AllHold(Images(w), Sends(w, m).value)
  {
    hide Protocol.Next, Emission, Sound, Continues;
    StepSends(env, w.system, m.step);
  }

  // ---- Without the guard a second execution is always possible ----

  /** A call of the sender to itself, whose simulation shows no child CREATE. */
  function SelfCall(from: Address, nonce: nat): Context {
    Context(Call, from, Some(from), nonce, None, from, None, None, None)
  }

  function SelfCallSimulation(from: Address, native: Native): Simulation {
    Simulation(true, ConstantCall, native.id, from, [])
  }

  lemma SelfCallPlans(env: Env, c: Chain, from: Address, nonce: nat, native: Native)
    requires IndexesValid(c) && CountersValid(c) && NonZero(from)
    ensures DerivePlan(env, c, SelfCallSimulation(from, native), SelfCall(from, nonce), native.id)
            == Ok(Preparation(SelfCall(from, nonce), Plan(ConstantCall, from, from, [], map[], map[])))
  {
    hide IndexesValid, CountersValid;
    var x, sim := SelfCall(from, nonce), SelfCallSimulation(from, native);
    assert ProfileError(env, sim, x, native.id).None?;
    var callers: Callers := map[from := from];
    assert FirstCallers(x, sim) == Ok(callers) by {
      assert callers[from := from] == callers;
    }
    hide ProfileError, FirstCallers, NonZero;
    PlanAttemptsStart(env, c, x, sim);
  }

  lemma SelfCallPrepares(env: Env, c: Chain, owner: Owner, h: Hash, from: Address, nonce: nat, native: Native)
    requires Sound(env, c) && InState(c, h, Received) && c.records[h].owner == Some(owner) && NonZero(from)
    requires !NonceTaken(c.records, h, from, nonce)
    ensures var r := PrepareInChain(env, c, owner, h, native, SelfCallSimulation(from, native), SelfCall(from, nonce));
            r.Ok? && HasNative(r.value, h, native)
  {
    hide Sound, DerivePlan, ValidPreparation, NonceTaken, JournalValid;
    PlannableChain(env, c, h);
    SelfCallPlans(env, c, from, nonce, native);
    SelfCallValid(env, from, nonce);
  }

  lemma PlannableChain(env: Env, c: Chain, h: Hash)
    requires Sound(env, c) && h in c.records
    ensures JournalValid(env, c.records) && IndexesValid(c) && CountersValid(c) && c.records[h].hash == h
  {
    assert ValidRecord(env, c.records[h], h);
  }

  lemma SelfCallValid(env: Env, from: Address, nonce: nat)
    ensures ValidPreparation(env, SelfCall(from, nonce), Plan(ConstantCall, from, from, [], map[], map[]))
  {
  }

  /** A record that is received and claimed, with its nonce free, ready to be built by this process. */
  predicate Rebuildable(env: Env, s: System, h: Hash, from: Address, nonce: nat) {
    && s.tasks == map[]
    && InState(s.chain, h, Received) && s.chain.records[h].owner == Some(s.owner)
    && Decode(env, s.chain.records[h].source) == Some(Source(from, nonce)) && NonZero(from)
    && !NonceTaken(s.chain.records, h, from, nonce)
  }

  /** Building it with any native transaction whatever, and sending that. */
  function RebuildMoves(h: Hash, from: Address, nonce: nat, native: Native): seq<Move> {
    [Act(StartBuild(h), true), Act(Prepare(h, native, SelfCallSimulation(from, native), SelfCall(from, nonce)), true),
     Act(Transmit(h), true)]
  }

  lemma RebuildSends(env: Env, w: Machine, h: Hash, from: Address, nonce: nat, native: Native)
    requires MachineSound(env, w) && Rebuildable(env, w.system, h, from, nonce)
    ensures var moves := RebuildMoves(h, from, nonce, native);
            var t := Next(env, Next(env, Next(env, w, moves[0]), moves[1]), moves[2]);
            t.system.sent == w.system.sent + {Transmission(h, native)}
  {
    var c := w.system.chain;
    var x, sim := SelfCall(from, nonce), SelfCallSimulation(from, native);
    SelfCallPrepares(env, c, w.system.owner, h, from, nonce, native);
    var s1 := w.system.(tasks := map[h := Building]);
    BuildStarts(env, w.system, h);
    PrepareStarts(env, s1, h, native, sim, x);
    hide Sound, PrepareInChain, Lands, Continues, Climbs, Protocol.Next;
    SendingSends(env, Protocol.Next(env, s1, Prepare(h, native, sim, x)), h, native);
  }

  lemma BuildStarts(env: Env, s: System, h: Hash)
    requires s.tasks == map[] && h in s.chain.records
    ensures Protocol.Next(env, s, StartBuild(h)) == s.(tasks := map[h := Building])
  {
  }

  lemma PrepareStarts(env: Env, s: System, h: Hash, native: Native, sim: Simulation, x: Context)
    requires s.tasks == map[h := Building] && FollowsSource(env, s.chain, h, x)
    requires var r := PrepareInChain(env, s.chain, s.owner, h, native, sim, x); r.Ok? && HasNative(r.value, h, native)
    ensures var t := Protocol.Next(env, s, Prepare(h, native, sim, x)); t.tasks == map[h := Sending(native)] && t.sent == s.sent
  {
    hide PrepareInChain, FollowsSource;
  }

  lemma SendingSends(env: Env, s: System, h: Hash, native: Native)
    requires s.tasks == map[h := Sending(native)]
    ensures Protocol.Next(env, s, Transmit(h)).sent == s.sent + {Transmission(h, native)}
  {
  }

  /** The moves that bring the record of a chain that lost its preparation back under a claim. */
  function ClaimMoves(c: Chain, h: Hash, raw: Raw): seq<Move> {
    if h in c.records && c.records[h].owner.Some? then
      [PowerLoss(c.records[h].owner.value + 1, c), Act(Recover(h, c.records[h].owner.value), true)]
    else [PowerLoss(0, c), Act(ReceiveSource(raw), true)]
  }

  /** What the earlier image of a chain shows of a transaction it does not hold the preparation of. */
  lemma LostPreparation(env: Env, c: Chain, d: Chain, m: Transmission)
    requires Sound(env, c) && Sound(env, d) && Continues(c, d)
    requires HasNative(d, m.hash, m.native) && !HasNative(c, m.hash, m.native)
    ensures var r := d.records[m.hash];
            && r.context.Some? && Keccak(env, r.source) == m.hash && NonZero(r.context.value.from)
            && Decode(env, r.source) == Some(Source(r.context.value.from, r.context.value.nonce))
            && !NonceTaken(c.records, m.hash, r.context.value.from, r.context.value.nonce)
    ensures m.hash in c.records ==>
              && c.records[m.hash].state == Received && c.records[m.hash].owner.Some?
              && c.records[m.hash].source == d.records[m.hash].source
  {
    NativeHoldsNonce(env, d, m);
    assert ValidRecord(env, d.records[m.hash], m.hash);
    if m.hash in c.records {
      assert ValidRecord(env, c.records[m.hash], m.hash);
      assert RecordStays(c.records[m.hash], d.records[m.hash]);
    }
    var x := d.records[m.hash].context.value;
    forall k | k in c.records && k != m.hash ensures !OccupiesNonce(c.records[k], x.from, x.nonce) {
      if OccupiesNonce(c.records[k], x.from, x.nonce) {
        OccupantStays(env, c, d, k);
      }
    }
    hide Sound, JournalValid, ValidPreparation, Climbs;
  }

  lemma OccupantStays(env: Env, c: Chain, d: Chain, k: Hash)
    requires Sound(env, c) && Sound(env, d) && Continues(c, d) && k in c.records && Occupies(c.records[k])
    ensures k in d.records && Occupies(d.records[k]) && d.records[k].context == c.records[k].context
  {
    assert ValidRecord(env, c.records[k], k);
    assert RecordStays(c.records[k], d.records[k]);
    hide JournalValid, ValidPreparation, OneOccupant, TablesValid, CountersValid, FinalsStored, PlansApart, TreesPublished, Climbs;
  }

  /** The system those moves lead to. */
  function Claimed(s: System, c: Chain, h: Hash, raw: Raw): System {
    if h in c.records && c.records[h].owner.Some? then
      var o := c.records[h].owner.value;
      System(Put(c, c.records[h].(owner := Some(o + 1))), o + 1, map[], s.sent)
    else System(Put(c, NewRecord(h, raw, 0)), 0, map[], s.sent)
  }

  lemma ClaimLeads(env: Env, w: Machine, c: Chain, h: Hash, raw: Raw)
    requires JournalValid(env, c.records) && c in Images(w) && Keccak(env, raw) == h
    requires h in c.records ==> c.records[h].state == Received
    ensures var moves := ClaimMoves(c, h, raw);
            Next(env, Next(env, w, moves[0]), moves[1]).system == Claimed(w.system, c, h, raw)
  {
    if h in c.records {
      RecordAt(env, c, h);
      var o := c.records[h].owner.value;
      hide JournalValid, ValidPreparation;
      RecoverClaims(env, w.system.(chain := c, owner := o + 1, tasks := map[]), h, o);
    } else {
      hide JournalValid;
      ReceiveClaims(env, w.system.(chain := c, owner := 0, tasks := map[]), raw);
    }
    hide Protocol.Next, Lands;
  }

  lemma ClaimRebuildable(env: Env, s: System, c: Chain, h: Hash, raw: Raw, from: Address, nonce: nat)
    requires Keccak(env, raw) == h && Decode(env, raw) == Some(Source(from, nonce)) && NonZero(from)
    requires !NonceTaken(c.records, h, from, nonce)
    requires h in c.records ==> c.records[h].hash == h && c.records[h].state == Received && c.records[h].owner.Some? && c.records[h].source == raw
    ensures Rebuildable(env, Claimed(s, c, h, raw), h, from, nonce)
  {
    SameRivals(c, Claimed(s, c, h, raw).chain, h, from, nonce);
    hide NonceTaken;
  }

  lemma ClaimSucceeds(env: Env, w: Machine, c: Chain, m: Transmission)
    requires MachineSound(env, w) && c in Images(w) && Sound(env, c) && Continues(c, w.system.chain)
    requires HasNative(w.system.chain, m.hash, m.native) && !HasNative(c, m.hash, m.native)
    ensures var r := w.system.chain.records[m.hash];
            var moves := ClaimMoves(c, m.hash, r.source);
            var t := Next(env, Next(env, w, moves[0]), moves[1]);
            && r.context.Some? && Rebuildable(env, t.system, m.hash, r.context.value.from, r.context.value.nonce)
            && t.system.sent == w.system.sent
  {
    var h, r := m.hash, w.system.chain.records[m.hash];
    LostPreparation(env, c, w.system.chain, m);
    SoundJournal(env, c);
    if h in c.records {
      RecordAt(env, c, h);
    }
    hide Sound, Continues, MachineSound, JournalValid, NonceTaken, HasNative, Next, Images, ValidPreparation;
    ClaimLeads(env, w, c, h, r.source);
    ClaimRebuildable(env, w.system, c, h, r.source, r.context.value.from, r.context.value.nonce);
  }

  lemma RecoverClaims(env: Env, s: System, h: Hash, o: Owner)
    requires JournalValid(env, s.chain.records) && InState(s.chain, h, Received)
    requires s.chain.records[h].owner == Some(o) && s.owner == o + 1
    ensures Protocol.Next(env, s, Recover(h, o)) == s.(chain := Put(s.chain, s.chain.records[h].(owner := Some(o + 1))))
    ensures s.chain.records[h].hash == h
  {
    RecordAt(env, s.chain, h);
    hide JournalValid, ValidPreparation;
  }

  lemma ReceiveClaims(env: Env, s: System, raw: Raw)
    requires JournalValid(env, s.chain.records) && Keccak(env, raw) !in s.chain.records
    ensures Protocol.Next(env, s, ReceiveSource(raw)) == s.(chain := Put(s.chain, NewRecord(Keccak(env, raw), raw, s.owner)))
  {
    hide JournalValid;
  }

  lemma SameRivals(c: Chain, d: Chain, h: Hash, from: Address, nonce: nat)
    requires !NonceTaken(c.records, h, from, nonce) && forall k :: k in d.records && k != h ==> k in c.records && d.records[k] == c.records[k]
    ensures !NonceTaken(d.records, h, from, nonce)
  {
  }

  lemma RunTwo(env: Env, owner: Owner, moves: seq<Move>, m: Move, n: Move)
    ensures Run(env, owner, moves + [m, n]) == Next(env, Next(env, Run(env, owner, moves), m), n)
  {
    hide Run, Next;
    RunSnoc(env, owner, moves, m);
    RunSnoc(env, owner, moves + [m], n);
    assert moves + [m, n] == moves + [m] + [n];
  }

  lemma ClaimRun(env: Env, owner: Owner, moves: seq<Move>, image: Chain, m: Transmission)
    requires HasNative(Run(env, owner, moves).system.chain, m.hash, m.native)
    requires image in Run(env, owner, moves).earlier && !HasNative(image, m.hash, m.native)
    ensures var r := Run(env, owner, moves).system.chain.records[m.hash];
            var t := Run(env, owner, moves + ClaimMoves(image, m.hash, r.source));
            && r.context.Some? && Rebuildable(env, t.system, m.hash, r.context.value.from, r.context.value.nonce)
            && t.system.sent == Run(env, owner, moves).system.sent
  {
    var v := Run(env, owner, moves);
    RunSound(env, owner, moves);
    var claim := ClaimMoves(image, m.hash, v.system.chain.records[m.hash].source);
    assert claim == [claim[0], claim[1]];
    hide Run, Sound, Continues, HasNative, Next, ClaimMoves;
    ClaimSucceeds(env, v, image, m);
    RunTwo(env, owner, moves, claim[0], claim[1]);
  }

  lemma RebuildRun(env: Env, owner: Owner, moves: seq<Move>, h: Hash, from: Address, nonce: nat, native: Native)
    requires Rebuildable(env, Run(env, owner, moves).system, h, from, nonce)
    ensures Run(env, owner, moves + RebuildMoves(h, from, nonce, native)).system.sent
            == Run(env, owner, moves).system.sent + {Transmission(h, native)}
  {
    RunSound(env, owner, moves);
    var build := RebuildMoves(h, from, nonce, native);
    hide Run, MachineSound, Next, Rebuildable;
    RebuildSends(env, Run(env, owner, moves), h, from, nonce, native);
    RunTwo(env, owner, moves, build[0], build[1]);
    RunSnoc(env, owner, moves + [build[0], build[1]], build[2]);
    assert moves + build == moves + [build[0], build[1]] + [build[2]];
  }

  /** Whenever something sent can still be lost from the journal, the run can go on to send another for the same source. */
  lemma ExposedSendsTwice(env: Env, owner: Owner, moves: seq<Move>, m: Transmission, image: Chain, other: Native)
    returns (more: seq<Move>)
    requires m in Run(env, owner, moves).system.sent && HasNative(Run(env, owner, moves).system.chain, m.hash, m.native)
    requires image in Run(env, owner, moves).earlier && !HasNative(image, m.hash, m.native)
    ensures forall k :: 0 <= k < |more| ==> more[k].PowerLoss? || more[k].synced
    ensures var sent := Run(env, owner, moves + more).system.sent; m in sent && Transmission(m.hash, other) in sent
  {
    ClaimRun(env, owner, moves, image, m);
    var r := Run(env, owner, moves).system.chain.records[m.hash];
    var from, nonce := r.context.value.from, r.context.value.nonce;
    var claim, build := ClaimMoves(image, m.hash, r.source), RebuildMoves(m.hash, from, nonce, other);
    more := claim + build;
    hide Run, Rebuildable, ClaimMoves, RebuildMoves;
    RebuildRun(env, owner, moves + claim, m.hash, from, nonce, other);
    assert moves + more == moves + claim + build;
    MovesSynced(image, m.hash, r.source, from, nonce, other);
  }

  lemma MovesSynced(c: Chain, h: Hash, raw: Raw, from: Address, nonce: nat, native: Native)
    ensures forall move :: move in ClaimMoves(c, h, raw) + RebuildMoves(h, from, nonce, native) ==> move.PowerLoss? || move.synced
  {
  }

  /**
   * The guard is needed, wherever it fails: if a run sends a native transaction while some state file
   * that a loss of power could bring back does not hold it, the run can go on (power is lost, that
   * file comes back, the source is claimed and built again) until another native transaction, any one
   * the builder may come up with, has been sent for the same source. Every commit of the continuation
   * syncs its directory.
   */
  lemma UnguardedSendsTwice(
    env: Env, owner: Owner, moves: seq<Move>, move: Move, m: Transmission, image: Chain, other: Native)
    returns (more: seq<Move>)
    requires Sends(Run(env, owner, moves), move) == Some(m)
    requires image in Images(Run(env, owner, moves)) && !HasNative(image, m.hash, m.native)
    ensures forall k :: 0 <= k < |more| ==> more[k].PowerLoss? || more[k].synced
    ensures var sent := Run(env, owner, moves + [move] + more).system.sent;
            m in sent && Transmission(m.hash, other) in sent
  {
    RunSound(env, owner, moves);
    RunSnoc(env, owner, moves, move);
    SentAt(env, owner, moves, move, m);
    SendingChangesNothing(env, Run(env, owner, moves), move, m);
    hide Run, Sends, MachineSound, HasNative, Next;
    more := ExposedSendsTwice(env, owner, moves + [move], m, image, other);
  }

  /** A sending step changes neither the journal nor what a loss of power could make of it. */
  lemma SendingChangesNothing(env: Env, w: Machine, move: Move, m: Transmission)
    requires MachineSound(env, w) && Sends(w, move) == Some(m)
    ensures var v := Next(env, w, move);
            v.system.chain == w.system.chain && v.earlier == w.earlier && HasNative(w.system.chain, m.hash, m.native)
  {
    StepSends(env, w.system, move.step);
    hide Protocol.Next, MachineSound, Receive, PrepareInChain, RecordBroadcast, Write;
  }

  // ---- Nonce reservation ----

  /** No (caller, nonce) pair is planned by two records, at any depth, in any run. */
  lemma ReservationsDisjoint(env: Env, owner: Owner, moves: seq<Move>, h: Hash, k: Hash, i: nat, j: nat)
    requires var records := Run(env, owner, moves).system.chain.records;
             && h in records && k in records && h != k && records[h].plan.Some? && records[k].plan.Some?
             && i < |records[h].plan.value.attempts| && j < |records[k].plan.value.attempts|
    ensures var records := Run(env, owner, moves).system.chain.records;
            var a, b := records[h].plan.value.attempts[i], records[k].plan.value.attempts[j];
            a.predictedCaller != b.predictedCaller || a.nonce != b.nonce
  {
    RunSound(env, owner, moves);
    var c := Run(env, owner, moves).system.chain;
    hide Run, Continues, TasksSound;
    RecordedPlanValid(env, c, h);
    RecordedPlanValid(env, c, k);
    InInterval(env, c.records[h].plan.value, i);
    InInterval(env, c.records[k].plan.value, j);
    PlanBounds(env, c.records[h].plan.value);
    PlanBounds(env, c.records[k].plan.value);
    hide ValidPlan, JournalValid, SourcesFollowed, OneOccupant, PreparedOccupy, CountersValid, FinalsStored, TablesValid,
         TreesPublished;
    assert Apart(c.records[h].plan.value, c.records[k].plan.value);
  }

  lemma RecordedPlanValid(env: Env, c: Chain, h: Hash)
    requires Sound(env, c) && h in c.records && c.records[h].plan.Some?
    ensures ValidPlan(env, c.records[h].plan.value)
  {
    assert ValidRecord(env, c.records[h], h);
    hide Sound, JournalValid, ValidContext;
  }

  /** In no run can reconciliation find a counter below a reserved final: its counter check never fails. */
  lemma CounterConflictUnreachable(env: Env, owner: Owner, moves: seq<Move>, hash: Hash, receipt: Receipt)
    ensures ReconcileInChain(env, Run(env, owner, moves).system.chain, hash, receipt) != Err(CounterConflict)
    ensures ReconcileInChain(env, Run(env, owner, moves).system.chain, hash, receipt) != Err(CorruptCounters)
  {
    RunSound(env, owner, moves);
    var c := Run(env, owner, moves).system.chain;
    hide Run, Continues, TasksSound;
    if InState(c, hash, Broadcast) {
      assert ValidRecord(env, c.records[hash], hash);
      assert FinalsBelow(c, c.records[hash].plan.value);
      hide Sound, JournalValid;
      OtherErrors(env, c, c.records[hash], receipt);
    }
  }
}
