/**
 * That the handlers of rpc-src/handlers.ts get somewhere: what is prepared is sent, what is sent is noted
 * and waits for its receipt, the receipt finishes it, and nothing in the journal is ever stuck.
 */
module Progress {
  import opened Wrappers
  import opened Addresses
  import opened ChainState
  import opened AddressMap
  import opened Journal
  import opened Planner
  import opened Reconciler
  import opened Confirmation
  import opened Protocol
  import opened Runs

  // ---- Steps taken in a row ----

  function After(env: Env, s: System, steps: seq<Step>): System {
    if steps == [] then s else Protocol.Next(env, After(env, s, steps[..|steps| - 1]), steps[|steps| - 1])
  }

  /** The steps as moves, each with the fate of its directory sync. */
  function Acts(steps: seq<Step>, synced: seq<bool>): (moves: seq<Move>)
    requires |steps| == |synced|
  {
    seq(|steps|, i requires 0 <= i < |steps| => Act(steps[i], synced[i]))
  }

  lemma {:induction false} RunActs(env: Env, owner: Owner, moves: seq<Move>, steps: seq<Step>, synced: seq<bool>)
    requires |steps| == |synced|
    ensures Run(env, owner, moves + Acts(steps, synced)).system == After(env, Run(env, owner, moves).system, steps)
  {
    hide Run, Protocol.Next, Lands;
    if steps == [] {
      assert moves + Acts(steps, synced) == moves;
    } else {
      var n := |steps| - 1;
      RunActs(env, owner, moves, steps[..n], synced[..n]);
      assert moves + Acts(steps, synced) == moves + Acts(steps[..n], synced[..n]) + [Act(steps[n], synced[n])];
      RunSnoc(env, owner, moves + Acts(steps[..n], synced[..n]), Act(steps[n], synced[n]));
    }
  }

  lemma AfterTwo(env: Env, s: System, a: Step, b: Step)
    ensures After(env, s, [a, b]) == Protocol.Next(env, Protocol.Next(env, s, a), b)
  {
    hide Protocol.Next;
    assert [a][..0] == [];
    assert After(env, s, [a]) == Protocol.Next(env, s, a);
    assert [a, b][..1] == [a];
  }

  lemma AfterBoth(env: Env, s: System, a: seq<Step>, b: seq<Step>)
    ensures After(env, s, a + b) == After(env, After(env, s, a), b)
  {
    hide Protocol.Next;
    if b == [] {
      assert a + b == a;
    } else {
      AfterBoth(env, s, a, b[..|b| - 1]);
      assert (a + b)[..|a + b| - 1] == a + b[..|b| - 1];
    }
  }

  // ---- What waits for a receipt has been noted as sent ----

  predicate WaitingAgree(s: System) {
    forall h :: h in s.tasks && s.tasks[h].Waiting? ==> h in s.chain.records && s.chain.records[h].state in {Broadcast, Confirmed, Failed}
  }

  /** Noting a transmission makes a prepared record broadcast; a finished one stays as it is. */
  lemma NoteEffect(env: Env, s: System, h: Hash)
    requires JournalValid(env, s.chain.records) && h in s.tasks && s.tasks[h].Sent?
    requires h in s.chain.records && s.chain.records[h].state != Received
    ensures var r := s.chain.records[h];
            Protocol.Next(env, s, NoteBroadcast(h))
            == s.(chain := if r.state in {NativeBuilt, Broadcast} then Put(s.chain, r.(state := Broadcast)) else s.chain,
                  tasks := s.tasks[h := Waiting])
  {
    var r := s.chain.records[h];
    RecordAt(env, s.chain, h);
    CallExact(env, s.chain, s.owner, BroadcastCall(h));
    hide JournalValid, ValidPreparation;
    if r.state == Broadcast {
      assert r.(state := Broadcast) == r && s.chain.records[h := r] == s.chain.records;
    }
  }

  lemma OnlyNoteWaits(env: Env, s: System, e: Step, h: Hash)
    requires h in Protocol.Next(env, s, e).tasks && Protocol.Next(env, s, e).tasks[h].Waiting?
    ensures (h in s.tasks && s.tasks[h].Waiting?) || (e == NoteBroadcast(h) && h in s.tasks && s.tasks[h].Sent?)
  {
    hide RecordPreparedNative, Reconcile, Perform, FollowsSource, FailReceived, AfterWrite, RecordBroadcast, RecoverReceived;
  }

  lemma StepKeepsWaiting(env: Env, s: System, e: Step)
    requires SystemSound(env, s) && WaitingAgree(s)
    ensures WaitingAgree(Protocol.Next(env, s, e))
  {
    var t := Protocol.Next(env, s, e);
    StepDurable(env, s, e);
    hide Protocol.Next, SystemSound, Durable;
    forall h | h in t.tasks && t.tasks[h].Waiting?
      ensures h in t.chain.records && t.chain.records[h].state in {Broadcast, Confirmed, Failed}
    {
      OnlyNoteWaits(env, s, e, h);
      if h in s.tasks && s.tasks[h].Waiting? {
        StaysPast(env, s.chain, t.chain, Protocol.Subject(env, e), h);
      } else {
        SentNoted(env, s, h);
      }
    }
  }

  lemma SentNoted(env: Env, s: System, h: Hash)
    requires SystemSound(env, s) && h in s.tasks && s.tasks[h].Sent?
    ensures var d := Protocol.Next(env, s, NoteBroadcast(h)).chain;
            h in d.records && d.records[h].state in {Broadcast, Confirmed, Failed}
  {
    assert TaskSound(s.chain, h, s.tasks[h]);
    SoundMeans(env, s.chain, h);
    hide Sound, JournalValid, Protocol.Next, TasksSound, ValidPreparation;
    NoteEffect(env, s, h);
  }

  /** A record that is past its preparation stays past it. */
  lemma StaysPast(env: Env, c: Chain, d: Chain, written: Hash, h: Hash)
    requires Durable(env, c, d, written) && h in c.records && c.records[h].state in {Broadcast, Confirmed, Failed}
    ensures h in d.records && d.records[h].state in {Broadcast, Confirmed, Failed}
  {
    hide ValidRecord, Occupies, NewlyPrepared, TablesValid, Climbs, TreePublished;
  }

  /** In every run, whatever waits for its receipt is noted as broadcast in the journal, or finished. */
  lemma {:induction false} RunKeepsWaiting(env: Env, owner: Owner, moves: seq<Move>)
    ensures WaitingAgree(Run(env, owner, moves).system)
  {
    if moves != [] {
      var most := moves[..|moves| - 1];
      RunKeepsWaiting(env, owner, most);
      RunSound(env, owner, most);
      hide Protocol.Next, Lands, SystemSound;
      match moves[|moves| - 1]
      case Act(e, _) => StepKeepsWaiting(env, Run(env, owner, most).system, e);
      case PowerLoss(_, _) =>
    }
  }

  // ---- The receipt finishes what waits for it ----

  lemma ReceiptEffect(env: Env, s: System, h: Hash, receipt: Receipt)
    requires h in s.tasks && s.tasks[h].Waiting?
    ensures Protocol.Next(env, s, ReceiptArrives(h, receipt))
            == s.(chain := Reconcile(env, s.chain, h, receipt).chain, tasks := s.tasks - {h})
  {
    hide Reconcile;
  }

  /** The record is done: confirmed with this receipt if that fits, failed with it otherwise. */
  predicate FinishedBy(c: Chain, d: Chain, r: Record, receipt: Receipt, creations: seq<Creation>)
    requires r.context.Some? && ValidContext(r.context.value) && r.native.Some? && r.plan.Some?
  {
    if Confirmable(c, r, receipt, creations) then ConfirmedWith(d, r, receipt)
    else && r.hash in d.records && d.records[r.hash].failure.Some?
         && d.records[r.hash] == r.(state := Failed, failure := d.records[r.hash].failure, receipt := Some(receipt))
  }

  lemma SoundMeans(env: Env, c: Chain, h: Hash)
    requires Sound(env, c)
    ensures JournalValid(env, c.records) && TablesValid(c) && CountersValid(c)
    ensures h in c.records ==> ValidRecord(env, c.records[h], h)
  {
  }

  lemma BroadcastFinished(env: Env, c: Chain, h: Hash, receipt: Receipt, creations: seq<Creation>)
    requires Sound(env, c) && InState(c, h, Broadcast)
    requires Lists(receipt.internals, |receipt.internals|, creations)
    ensures AwaitsReceipt(env, c, c.records[h]) && c.records[h].hash == h
    ensures FinishedBy(c, Reconcile(env, c, h, receipt).chain, c.records[h], receipt, creations)
  {
    SoundMeans(env, c, h);
    hide Sound, JournalValid, TablesValid, CountersValid, Reconcile, Lists, Confirmable, ConfirmedWith, ValidPreparation;
    ReconcileOutcome(env, c, h, receipt, creations);
  }

  /**
   * In every run, when a receipt arrives for a source that waits for one, its record is finished: confirmed
   * exactly when the receipt fits, failed with the receipt kept when it does not, and as it was if it was
   * finished already.
   */
  lemma ReceiptFinishes(
    env: Env, owner: Owner, moves: seq<Move>, h: Hash, receipt: Receipt, synced: bool, creations: seq<Creation>)
    requires var s := Run(env, owner, moves).system; h in s.tasks && s.tasks[h].Waiting?
    requires Lists(receipt.internals, |receipt.internals|, creations)
    ensures var c := Run(env, owner, moves).system.chain;
            var d := Run(env, owner, moves + [Act(ReceiptArrives(h, receipt), synced)]).system.chain;
            && h in c.records
            && if c.records[h].state == Broadcast
               then AwaitsReceipt(env, c, c.records[h]) && FinishedBy(c, d, c.records[h], receipt, creations)
               else c.records[h].state in {Confirmed, Failed} && d == c
  {
    RunKeepsWaiting(env, owner, moves);
    RunSound(env, owner, moves);
    var s := Run(env, owner, moves).system;
    RunSnoc(env, owner, moves, Act(ReceiptArrives(h, receipt), synced));
    hide Run, Lands, Lists;
    SystemMeans(env, Run(env, owner, moves));
    ReceiptEffect(env, s, h, receipt);
    hide MachineSound, Protocol.Next;
    if s.chain.records[h].state == Broadcast {
      hide AwaitsReceipt, FinishedBy;
      BroadcastFinished(env, s.chain, h, receipt, creations);
    } else {
      FinishedAnswers(env, s.chain, h, receipt);
    }
  }

  lemma SystemMeans(env: Env, w: Machine)
    requires MachineSound(env, w)
    ensures Sound(env, w.system.chain) && TasksSound(w.system) && JournalValid(env, w.system.chain.records)
  {
    hide Continues;
  }

  lemma FinishedAnswers(env: Env, c: Chain, h: Hash, receipt: Receipt)
    requires h in c.records && c.records[h].state in {Confirmed, Failed}
    ensures Reconcile(env, c, h, receipt).chain == c
  {
    hide JournalValid, ReconcileInChain, RecordRetainedFailure;
  }

  // ---- Sent, noted, confirmed ----

  /** What a confirmation needs does not depend on whether the transmission has been noted yet. */
  lemma SameConfirmable(c: Chain, r: Record, receipt: Receipt, creations: seq<Creation>)
    requires r.context.Some? && ValidContext(r.context.value) && r.native.Some? && r.plan.Some?
    ensures var s := r.(state := Broadcast);
            Confirmable(Put(c, s), s, receipt, creations) <==> Confirmable(c, r, receipt, creations)
  {
    var s, d := r.(state := Broadcast), Put(c, r.(state := Broadcast));
    hide Intact, ValidContext;
    if |r.plan.value.attempts| == |creations| {
      forall i | 0 <= i < |creations|
        ensures AgreesAt(d, s.context.value, s.plan.value, creations, i) <==> AgreesAt(c, r.context.value, r.plan.value, creations, i)
      {
        SameAgreement(c, d, r.context.value, r.plan.value, creations, i);
      }
      SamePublishable(c, d, r, creations);
    }
    hide AgreesAt, Publishable;
  }

  lemma SameAgreement(c: Chain, d: Chain, x: Context, plan: Plan, creations: seq<Creation>, i: nat)
    requires ValidContext(x) && i < |plan.attempts| == |creations| && d.byPredicted == c.byPredicted
    ensures AgreesAt(d, x, plan, creations, i) <==> AgreesAt(c, x, plan, creations, i)
  {
    hide ValidContext, LastAt, CreatedBefore;
  }

  lemma SamePublishable(c: Chain, d: Chain, r: Record, creations: seq<Creation>)
    requires r.context.Some? && ValidContext(r.context.value) && r.plan.Some? && |r.plan.value.attempts| == |creations|
    requires d.byPredicted == c.byPredicted && d.byActual == c.byActual && d.metadata == c.metadata
    ensures Publishable(d, r.(state := Broadcast), creations) <==> Publishable(c, r, creations)
  {
    var s := r.(state := Broadcast);
    hide ValidContext, FitTogether;
    forall e: Entry ensures FitsTables(d, e) <==> FitsTables(c, e) {}
    hide FitsTables;
    if r.context.value.kind == Deployment {
      assert DeploymentEntry(s) == DeploymentEntry(r);
    }
    forall i | 0 <= i < |creations| ensures EntryFits(d, s, creations, i) <==> EntryFits(c, r, creations, i) {
      assert forall j :: 0 <= j < |creations| ==>
        ChildEntry(s, s.plan.value.attempts[j], creations[j]) == ChildEntry(r, r.plan.value.attempts[j], creations[j]);
    }
    hide EntryFits;
  }

  /** The receipt is the one that the record's preparation asks for. */
  predicate ReceiptFits(env: Env, c: Chain, h: Hash, receipt: Receipt, creations: seq<Creation>) {
    h in c.records && Prepared(env, c.records[h]) && Confirmable(c, c.records[h], receipt, creations)
  }

  /**
   * A source whose native transaction has been sent ends confirmed: once the transmission is noted, a
   * receipt that fits confirms it, whatever the fates of the two commits' directory syncs.
   */
  lemma SentEndsConfirmed(
    env: Env, owner: Owner, moves: seq<Move>, h: Hash, receipt: Receipt, synced: seq<bool>, creations: seq<Creation>)
    requires var s := Run(env, owner, moves).system;
             h in s.tasks && s.tasks[h].Sent? && (InState(s.chain, h, NativeBuilt) || InState(s.chain, h, Broadcast))
    requires |synced| == 2 && Lists(receipt.internals, |receipt.internals|, creations)
    requires ReceiptFits(env, Run(env, owner, moves).system.chain, h, receipt, creations)
    ensures var r := Run(env, owner, moves).system.chain.records[h];
            var d := Run(env, owner, moves + Acts([NoteBroadcast(h), ReceiptArrives(h, receipt)], synced)).system.chain;
            Prepared(env, r) && r.hash == h && ConfirmedWith(d, r.(state := Broadcast), receipt) && InState(d, h, Confirmed)
  {
    RunSound(env, owner, moves);
    SystemMeans(env, Run(env, owner, moves));
    var s := Run(env, owner, moves).system;
    RunActs(env, owner, moves, [NoteBroadcast(h), ReceiptArrives(h, receipt)], synced);
    hide Run, MachineSound, Lists, Acts, TasksSound;
    SentSystemConfirms(env, s, h, receipt, creations);
  }

  lemma SentSystemConfirms(env: Env, s: System, h: Hash, receipt: Receipt, creations: seq<Creation>)
    requires Sound(env, s.chain) && TasksSound(s)
    requires h in s.tasks && s.tasks[h].Sent? && (InState(s.chain, h, NativeBuilt) || InState(s.chain, h, Broadcast))
    requires Lists(receipt.internals, |receipt.internals|, creations)
    requires ReceiptFits(env, s.chain, h, receipt, creations)
    ensures var r := s.chain.records[h];
            var d := After(env, s, [NoteBroadcast(h), ReceiptArrives(h, receipt)]).chain;
            Prepared(env, r) && r.hash == h && ConfirmedWith(d, r.(state := Broadcast), receipt) && InState(d, h, Confirmed)
  {
    var c, r := s.chain, s.chain.records[h];
    var noted := s.(chain := Put(c, r.(state := Broadcast)), tasks := s.tasks[h := Waiting]);
    SoundMeans(env, c, h);
    NotedSound(env, s, h);
    AfterTwo(env, s, NoteBroadcast(h), ReceiptArrives(h, receipt));
    hide Sound, TasksSound, JournalValid, TablesValid, CountersValid, After, Lists;
    SameConfirmable(c, r, receipt, creations);
    hide Confirmable, ConfirmedWith, Protocol.Next, ValidPreparation;
    ReceiptEffect(env, noted, h, receipt);
    BroadcastFinished(env, noted.chain, h, receipt, creations);
    ConfirmedState(Reconcile(env, noted.chain, h, receipt).chain, r.(state := Broadcast), receipt);
  }

  lemma ConfirmedState(d: Chain, r: Record, receipt: Receipt)
    requires ConfirmedWith(d, r, receipt)
    ensures InState(d, r.hash, Confirmed)
  {
    hide KeptAs;
  }

  lemma NotedSound(env: Env, s: System, h: Hash)
    requires Sound(env, s.chain) && TasksSound(s)
    requires h in s.tasks && s.tasks[h].Sent? && (InState(s.chain, h, NativeBuilt) || InState(s.chain, h, Broadcast))
    ensures var noted := s.(chain := Put(s.chain, s.chain.records[h].(state := Broadcast)), tasks := s.tasks[h := Waiting]);
            && Protocol.Next(env, s, NoteBroadcast(h)) == noted
            && Sound(env, noted.chain) && InState(noted.chain, h, Broadcast)
            && noted.chain.records[h] == s.chain.records[h].(state := Broadcast)
  {
    SoundMeans(env, s.chain, h);
    hide JournalValid;
    NoteEffect(env, s, h);
    StepKeepsSound(env, s, NoteBroadcast(h));
    hide Sound, Protocol.Next, ValidPreparation;
  }

  // ---- From a claim to a transmission ----

  lemma BuildEffect(env: Env, s: System, h: Hash)
    requires h !in s.tasks && h in s.chain.records
    ensures Protocol.Next(env, s, StartBuild(h)) == s.(tasks := s.tasks[h := Building])
  {
  }

  lemma TransmitEffect(env: Env, s: System, h: Hash, native: Native)
    requires h in s.tasks && s.tasks[h] == Sending(native)
    ensures Protocol.Next(env, s, Transmit(h)) == s.(tasks := s.tasks[h := Sent], sent := s.sent + {Transmission(h, native)})
  {
  }

  lemma ResumeEffect(env: Env, s: System, h: Hash)
    requires h !in s.tasks && (InState(s.chain, h, NativeBuilt) || InState(s.chain, h, Broadcast))
    ensures Protocol.Next(env, s, StartResume(h)) == s.(tasks := s.tasks[h := Resuming(s.chain.records[h])])
  {
  }

  lemma ResendEffect(env: Env, s: System, h: Hash, found: bool)
    requires h in s.tasks && s.tasks[h].Resuming? && s.tasks[h].record.native.Some?
    ensures Protocol.Next(env, s, Resend(h, found))
            == s.(tasks := s.tasks[h := Sent],
                  sent := if found then s.sent else s.sent + {Transmission(h, s.tasks[h].record.native.value)})
  {
  }

  /** A preparation that can be planned and recorded leaves its native transaction about to be sent. */
  lemma PrepareEffect(env: Env, s: System, h: Hash, native: Native, sim: Simulation, x: Context)
    requires Sound(env, s.chain) && h in s.tasks && s.tasks[h].Building? && FollowsSource(env, s.chain, h, x)
    requires InState(s.chain, h, Received) && PrepareInChain(env, s.chain, s.owner, h, native, sim, x).Ok?
    ensures var d := PrepareInChain(env, s.chain, s.owner, h, native, sim, x).value;
            && Protocol.Next(env, s, Prepare(h, native, sim, x)) == s.(chain := d, tasks := s.tasks[h := Sending(native)])
            && InState(d, h, NativeBuilt) && d.records[h].native == Some(native) && d.records[h].context == Some(x)
  {
    var d := PrepareInChain(env, s.chain, s.owner, h, native, sim, x).value;
    SoundMeans(env, s.chain, h);
    PreparationReserves(env, s.chain, s.owner, h, native, sim, x);
    DerivedContext(env, s.chain, sim, x, native.id);
    hide Sound, PrepareInChain, JournalValid, TablesValid, CountersValid, DerivePlan, NonceTaken, ValidPreparation, FollowsSource, FailIfReceived;
  }

  lemma DerivedContext(env: Env, c: Chain, sim: Simulation, x: Context, nativeId: Hash)
    requires DerivePlan(env, c, sim, x, nativeId).Ok?
    ensures DerivePlan(env, c, sim, x, nativeId).value.context == x
  {
    DerivedPlan(env, c, sim, x, nativeId);
    hide DerivePlan, PlanAttempts, ValidContext;
  }

  /**
   * In every run, a received source that this process holds the claim of and nobody works on is built,
   * recorded and sent, if its preparation can be planned and recorded at all.
   */
  lemma ClaimedIsSent(
    env: Env, owner: Owner, moves: seq<Move>, h: Hash, native: Native, sim: Simulation, x: Context, synced: seq<bool>)
    requires var s := Run(env, owner, moves).system;
             && h !in s.tasks && InState(s.chain, h, Received) && FollowsSource(env, s.chain, h, x)
             && PrepareInChain(env, s.chain, s.owner, h, native, sim, x).Ok?
    requires |synced| == 3
    ensures var s := Run(env, owner, moves).system;
            var t := Run(env, owner, moves + Acts([StartBuild(h), Prepare(h, native, sim, x), Transmit(h)], synced)).system;
            && t.sent == s.sent + {Transmission(h, native)} && h in t.tasks && t.tasks[h].Sent?
            && InState(t.chain, h, NativeBuilt) && HasNative(t.chain, h, native)
  {
    RunSound(env, owner, moves);
    SystemMeans(env, Run(env, owner, moves));
    var s := Run(env, owner, moves).system;
    var steps := [StartBuild(h), Prepare(h, native, sim, x), Transmit(h)];
    RunActs(env, owner, moves, steps, synced);
    hide Run, MachineSound, Acts, TasksSound, Sound, PrepareInChain, FollowsSource, JournalValid;
    var building := s.(tasks := s.tasks[h := Building]);
    BuildEffect(env, s, h);
    PrepareEffect(env, building, h, native, sim, x);
    var built := Protocol.Next(env, building, Prepare(h, native, sim, x));
    hide Protocol.Next;
    TransmitEffect(env, built, h, native);
    AfterTwo(env, s, StartBuild(h), Prepare(h, native, sim, x));
    assert steps[..2] == [StartBuild(h), Prepare(h, native, sim, x)];
  }

  lemma ResumedSends(env: Env, s: System, h: Hash, found: bool)
    requires h !in s.tasks && (InState(s.chain, h, NativeBuilt) || InState(s.chain, h, Broadcast))
    requires s.chain.records[h].native.Some?
    ensures After(env, s, [StartResume(h), Resend(h, found)])
            == s.(tasks := s.tasks[h := Sent],
                  sent := if found then s.sent else s.sent + {Transmission(h, s.chain.records[h].native.value)})
  {
    hide Protocol.Next, After;
    var r := s.chain.records[h];
    ResumeEffect(env, s, h);
    ResendEffect(env, s.(tasks := s.tasks[h := Resuming(r)]), h, found);
    AfterTwo(env, s, StartResume(h), Resend(h, found));
    assert s.tasks[h := Resuming(r)][h := Sent] == s.tasks[h := Sent];
  }

  /** In every run, a record that was prepared before a crash is sent again if the network does not know it. */
  lemma PreparedIsResent(env: Env, owner: Owner, moves: seq<Move>, h: Hash, found: bool, synced: seq<bool>)
    requires var s := Run(env, owner, moves).system;
             h !in s.tasks && (InState(s.chain, h, NativeBuilt) || InState(s.chain, h, Broadcast))
    requires |synced| == 2
    ensures var s, t := Run(env, owner, moves).system, Run(env, owner, moves + Acts([StartResume(h), Resend(h, found)], synced)).system;
            && s.chain.records[h].native.Some?
            && t.sent == (if found then s.sent else s.sent + {Transmission(h, s.chain.records[h].native.value)})
            && t.chain == s.chain && t.owner == s.owner && h in t.tasks && t.tasks[h].Sent?
  {
    RunSound(env, owner, moves);
    SystemMeans(env, Run(env, owner, moves));
    var s := Run(env, owner, moves).system;
    RunActs(env, owner, moves, [StartResume(h), Resend(h, found)], synced);
    SoundMeans(env, s.chain, h);
    hide Run, MachineSound, Acts, TasksSound, Sound, JournalValid, ValidPreparation, After;
    ResumedSends(env, s, h, found);
  }

  // ---- A build that fails ----

  /**
   * A build that fails for good fails its record with the very error, if this process holds the claim; one
   * that may be tried again leaves the journal alone. Either way nobody works on it any more.
   */
  lemma FailedBuild(env: Env, s: System, h: Hash, code: Code, retryable: bool)
    requires Sound(env, s.chain) && h in s.tasks && s.tasks[h].Building? && InState(s.chain, h, Received)
    ensures var r := s.chain.records[h];
            Protocol.Next(env, s, FailBuild(h, code, retryable))
            == s.(chain := if !retryable && r.owner == Some(s.owner)
                           then Put(s.chain, Record(h, r.source, Failed, None, None, None, None, None, Some(code)))
                           else s.chain,
                  tasks := s.tasks - {h})
  {
    SoundMeans(env, s.chain, h);
    hide Sound, JournalValid, TablesValid, CountersValid;
  }

  /** A source whose nonce the queue finds too low fails for that reason, if this process holds its claim. */
  lemma RejectedInQueue(env: Env, s: System, h: Hash)
    requires Sound(env, s.chain) && InState(s.chain, h, Received)
    ensures var r := s.chain.records[h];
            Protocol.Next(env, s, RejectInQueue(h))
            == if r.owner == Some(s.owner)
               then s.(chain := Put(s.chain, Record(h, r.source, Failed, None, None, None, None, None, Some(NonceTooLow))))
               else s
  {
    SoundMeans(env, s.chain, h);
    hide Sound, JournalValid, TablesValid, CountersValid;
  }

  /** A table update is made exactly when it agrees with the tables, and touches nothing else. */
  lemma TableEffect(env: Env, s: System, w: TableWrite)
    requires Sound(env, s.chain)
    ensures Protocol.Next(env, s, TableUpdate(w)) == if Agrees(s.chain, w) then s.(chain := Written(s.chain, w)) else s
  {
    SoundMeans(env, s.chain, 0);
    WriteExact(s.chain, w);
    hide Sound, TablesValid, Write, Agrees, Written;
  }

  // ---- Recovery ----

  /** The process ends and another one, with its own name, takes over the claim of an interrupted build. */
  lemma RecoveryEffect(env: Env, s: System, h: Hash, successor: Owner)
    requires Sound(env, s.chain) && InState(s.chain, h, Received) && s.chain.records[h].owner != Some(successor)
    ensures s.chain.records[h].owner.Some?
    ensures var r := s.chain.records[h];
            After(env, s, [Crash(successor), Recover(h, r.owner.value)])
            == System(Put(s.chain, r.(owner := Some(successor))), successor, map[], s.sent)
  {
    SoundMeans(env, s.chain, h);
    var r := s.chain.records[h];
    AfterTwo(env, s, Crash(successor), Recover(h, r.owner.value));
    hide Sound, JournalValid, TablesValid, CountersValid, After;
  }

  // ---- Nothing is stuck ----

  predicate Finished(c: Chain, h: Hash) {
    InState(c, h, Confirmed) || InState(c, h, Failed)
  }

  /** A process that is not the one that holds the claim, or that runs now. */
  function Another(s: System, h: Hash): Owner {
    s.owner + 1 + if h in s.chain.records && s.chain.records[h].owner.Some? then s.chain.records[h].owner.value else 0
  }

  /** A received source can always be finished: another process takes it over, and its build fails. */
  function AbandonSteps(s: System, h: Hash): seq<Step> {
    if h in s.chain.records && s.chain.records[h].owner.Some? then
      [Crash(Another(s, h)), Recover(h, s.chain.records[h].owner.value)] + [StartBuild(h), FailBuild(h, UnknownTransaction, false)]
    else []
  }

  lemma AbandonFinishes(env: Env, s: System, h: Hash)
    requires Sound(env, s.chain) && InState(s.chain, h, Received)
    ensures InState(After(env, s, AbandonSteps(s, h)).chain, h, Failed)
  {
    SoundMeans(env, s.chain, h);
    var r, next := s.chain.records[h], Another(s, h);
    RecoveryEffect(env, s, h, next);
    RecoveredSound(env, s, h, next);
    hide Sound, JournalValid, TablesValid, CountersValid, ValidPreparation;
    var taken := System(Put(s.chain, r.(owner := Some(next))), next, map[], s.sent);
    AfterBoth(env, s, [Crash(next), Recover(h, r.owner.value)], [StartBuild(h), FailBuild(h, UnknownTransaction, false)]);
    AfterTwo(env, taken, StartBuild(h), FailBuild(h, UnknownTransaction, false));
    BuildEffect(env, taken, h);
    hide Protocol.Next, After;
    FailedBuild(env, taken.(tasks := map[h := Building]), h, UnknownTransaction, false);
  }

  lemma IdleSound(env: Env, s: System)
    requires Sound(env, s.chain) && s.tasks == map[]
    ensures SystemSound(env, s)
  {
    hide Sound;
  }

  lemma RecoverEffect(env: Env, s: System, h: Hash, o: Owner)
    requires JournalValid(env, s.chain.records) && InState(s.chain, h, Received)
    requires s.chain.records[h].owner == Some(o) && s.owner != o
    ensures Protocol.Next(env, s, Recover(h, o)) == s.(chain := Put(s.chain, s.chain.records[h].(owner := Some(s.owner))))
  {
    hide JournalValid;
  }

  lemma RecoveredSound(env: Env, s: System, h: Hash, successor: Owner)
    requires Sound(env, s.chain) && InState(s.chain, h, Received) && s.chain.records[h].owner.Some?
    requires s.chain.records[h].owner != Some(successor)
    ensures Sound(env, Put(s.chain, s.chain.records[h].(owner := Some(successor))))
  {
    hide Sound, JournalValid, Protocol.Next, TasksSound, TablesValid, CountersValid, ValidRecord, Climbs, RecordsStay;
    var o := s.chain.records[h].owner.value;
    var t := System(s.chain, successor, map[], s.sent);
    SoundMeans(env, s.chain, h);
    IdleSound(env, t);
    StepKeepsSound(env, t, Recover(h, o));
    RecoverEffect(env, t, h, o);
  }

  /** A prepared one can as well: it is resumed, found on the network, noted, and its receipt arrives. */
  function ResumeSteps(s: System, h: Hash): seq<Step> {
    ResendSteps(s, h) + [NoteBroadcast(h)]
  }

  function ResendSteps(s: System, h: Hash): seq<Step> {
    [Crash(s.owner + 1)] + [StartResume(h), Resend(h, true)]
  }

  lemma ResumedSent(env: Env, s: System, h: Hash)
    requires Sound(env, s.chain) && (InState(s.chain, h, NativeBuilt) || InState(s.chain, h, Broadcast))
    ensures var sent := System(s.chain, s.owner + 1, map[h := Sent], s.sent);
            After(env, s, ResendSteps(s, h)) == sent && TasksSound(sent)
  {
    hide Sound, JournalValid, TablesValid, CountersValid, ValidPreparation, Protocol.Next, After, TasksSound;
    SoundMeans(env, s.chain, h);
    CrashEffect(env, s, s.owner + 1);
    AfterOne(env, s, Crash(s.owner + 1));
    ResumedSends(env, System(s.chain, s.owner + 1, map[], s.sent), h, true);
    AfterBoth(env, s, [Crash(s.owner + 1)], [StartResume(h), Resend(h, true)]);
    SentSound(env, s.chain, System(s.chain, s.owner + 1, map[h := Sent], s.sent), h);
  }

  lemma ResumedNoted(env: Env, s: System, h: Hash)
    requires Sound(env, s.chain) && (InState(s.chain, h, NativeBuilt) || InState(s.chain, h, Broadcast))
    ensures var c := Put(s.chain, s.chain.records[h].(state := Broadcast));
            && After(env, s, ResumeSteps(s, h)) == System(c, s.owner + 1, map[h := Waiting], s.sent)
            && Sound(env, c) && InState(c, h, Broadcast)
  {
    hide Sound, Protocol.Next, After, TasksSound, ResendSteps;
    var sent := System(s.chain, s.owner + 1, map[h := Sent], s.sent);
    ResumedSent(env, s, h);
    NotedSound(env, sent, h);
    AfterOne(env, sent, NoteBroadcast(h));
    AfterBoth(env, s, ResendSteps(s, h), [NoteBroadcast(h)]);
    MapOnce(h, Sent, Waiting);
    hide Put, InState;
  }

  lemma MapOnce<T>(h: Hash, a: T, b: T)
    ensures map[h := a][h := b] == map[h := b]
  {
  }

  lemma CrashEffect(env: Env, s: System, successor: Owner)
    ensures Protocol.Next(env, s, Crash(successor)) == System(s.chain, successor, map[], s.sent)
  {
  }

  lemma SentSound(env: Env, c: Chain, s: System, h: Hash)
    requires h in c.records && c.records[h].native.Some? && s.chain == c && s.tasks == map[h := Sent]
    ensures TasksSound(s)
  {
  }

  lemma ResumeFinishes(env: Env, s: System, h: Hash, receipt: Receipt)
    requires Sound(env, s.chain) && (InState(s.chain, h, NativeBuilt) || InState(s.chain, h, Broadcast))
    ensures Finished(After(env, s, ResumeSteps(s, h) + [ReceiptArrives(h, receipt)]).chain, h)
  {
    hide Sound, Lists, ResumeSteps;
    ResumedNoted(env, s, h);
    var noted := After(env, s, ResumeSteps(s, h));
    AfterBoth(env, s, ResumeSteps(s, h), [ReceiptArrives(h, receipt)]);
    AfterOne(env, noted, ReceiptArrives(h, receipt));
    ReceiptEffect(env, noted, h, receipt);
    hide Protocol.Next, After;
    var creations := CreationsListed(receipt.internals, |receipt.internals|);
    BroadcastFinished(env, noted.chain, h, receipt, creations);
    hide Confirmable, ConfirmedWith, Reconcile, ValidRecord;
    if Confirmable(noted.chain, noted.chain.records[h], receipt, creations) {
      ConfirmedState(Reconcile(env, noted.chain, h, receipt).chain, noted.chain.records[h], receipt);
    }
  }

  lemma AfterOne(env: Env, s: System, a: Step)
    ensures After(env, s, [a]) == Protocol.Next(env, s, a)
  {
    hide Protocol.Next;
    assert [a][..0] == [];
  }

  /**
   * In every run, whatever the journal still holds unfinished can be finished: some steps of the handlers
   * lead to a journal in which it is confirmed or failed.
   */
  lemma NothingIsStuck(env: Env, owner: Owner, moves: seq<Move>, h: Hash, receipt: Receipt) returns (steps: seq<Step>)
    requires h in Run(env, owner, moves).system.chain.records
    ensures forall synced: seq<bool> :: |synced| == |steps| ==> Finished(Run(env, owner, moves + Acts(steps, synced)).system.chain, h)
  {
    RunSound(env, owner, moves);
    SystemMeans(env, Run(env, owner, moves));
    var s := Run(env, owner, moves).system;
    steps :=
      if Finished(s.chain, h) then []
      else if InState(s.chain, h, Received) then AbandonSteps(s, h)
      else ResumeSteps(s, h) + [ReceiptArrives(h, receipt)];
    hide Run, MachineSound, Sound, TasksSound, JournalValid, AbandonSteps, ResumeSteps, Acts;
    if InState(s.chain, h, Received) {
      AbandonFinishes(env, s, h);
    } else if !Finished(s.chain, h) {
      ResumeFinishes(env, s, h, receipt);
    }
    hide Protocol.Next;
    forall synced: seq<bool> | |synced| == |steps|
      ensures Finished(Run(env, owner, moves + Acts(steps, synced)).system.chain, h)
    {
      RunActs(env, owner, moves, steps, synced);
    }
  }
}
