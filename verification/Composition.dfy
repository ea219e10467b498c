/**
 * The admission queue over the durable protocol. The queue asks the journal for the next nonce at
 * every decision, its releases start the builds, both advance in any interleaving, and a crash loses
 * the queue. Before it serves requests, a new process recovers what it finds in the journal without
 * the queue; a source that cannot be decoded never goes through the queue either.
 */
module Composition {
  import opened Wrappers
  import opened Addresses
  import opened ChainState
  import opened AddressMap
  import opened NonceCount
  import opened QueueEntries
  import Journal
  import Protocol
  import Runs
  import Queue = TransactionQueue

  /** `built` names the tasks in flight that a run of the queue started, with that run's ticket. */
  datatype World =
    World(machine: Runs.Machine, queue: Queue.Queue, serving: bool, built: map<Hash, Queue.Ticket>)

  datatype Move = Serve | Handle(move: Runs.Move) | Build(ticket: Queue.Ticket) | Event(event: Queue.Event)

  function ChainOf(w: World): Chain {
    w.machine.system.chain
  }

  /** The next nonce the queue is told; a signer other than the configured one always gets 0. */
  ghost function Expected(env: Env, c: Chain, sender: Address): Address -> nat {
    var latest := LatestCount(env, c, sender);
    (s: Address) => if s == sender then latest else 0
  }

  /** An empty queue; the list of past releases is history and survives. */
  function Lost(q: Queue.Queue): Queue.Queue {
    Queue.Empty().(released := q.released)
  }

  predicate Restarts(m: Runs.Move) {
    m.PowerLoss? || m.step.Crash?
  }

  /** The record's source, as the routing of a request decodes it. */
  function Routed(env: Env, c: Chain, h: Hash): Option<Source> {
    if h in c.records then Decode(env, c.records[h].source) else None
  }

  /**
   * What the program may do next: recovery only before it serves, the queue only while it serves; a
   * build starts directly only in recovery or for a source without a nonce; an entry is admitted under
   * its source's own signer and nonce; a run ends only when no work for it is in flight any more.
   */
  predicate Enabled(env: Env, w: World, m: Move) {
    match m
    case Serve => !w.serving && w.machine.system.tasks == map[]
    case Handle(Act(StartBuild(h), _)) => w.serving ==> Routed(env, ChainOf(w), h).None?
    case Handle(Act(Recover(_, _), _)) => !w.serving
    case Handle(PowerLoss(_, image)) => image in Runs.Images(w.machine)
    case Handle(_) => true
    case Build(t) => w.serving && t in w.queue.runs
    case Event(Enqueue(s, nonce, h)) => w.serving && Routed(env, ChainOf(w), h) == Some(Source(s, nonce))
    case Event(Finish(t, _)) => w.serving && (t in w.queue.runs ==> w.queue.runs[t].entry.hash !in w.machine.system.tasks)
    case Event(_) => w.serving
  }

  function Restrict(built: map<Hash, Queue.Ticket>, hashes: set<Hash>): map<Hash, Queue.Ticket> {
    map h | h in built && h in hashes :: built[h]
  }

  function HandleNext(env: Env, w: World, m: Runs.Move): World {
    var machine := Runs.Next(env, w.machine, m);
    if Restarts(m) then World(machine, Lost(w.queue), false, map[])
    else w.(machine := machine, built := Restrict(w.built, machine.system.tasks.Keys))
  }

  /** A released entry's work starts, unless work for its source is in flight already, which it then joins. */
  function BuildNext(env: Env, w: World, t: Queue.Ticket): World
    requires t in w.queue.runs
  {
    var h := w.queue.runs[t].entry.hash;
    var machine := Runs.Next(env, w.machine, Runs.Act(Protocol.StartBuild(h), false));
    if h in w.machine.system.tasks || h !in machine.system.tasks then w
    else w.(machine := machine, built := w.built[h := t])
  }

  ghost function Next(env: Env, sender: Address, w: World, m: Move): World
    requires Queue.Consistent(w.queue)
  {
    if !Enabled(env, w, m) then w
    else
      match m
      case Serve => w.(serving := true)
      case Handle(move) => HandleNext(env, w, move)
      case Build(t) => BuildNext(env, w, t)
      case Event(e) => w.(queue := Queue.Exec(w.queue, e, Expected(env, ChainOf(w), sender)(Queue.Subject(w.queue, e))))
  }

  ghost function Run(env: Env, sender: Address, owner: Owner, moves: seq<Move>): (w: World)
    ensures Queue.Valid(w.queue)
  {
    if moves == [] then
      EmptyValid([]);
      World(Runs.Run(env, owner, []), Queue.Empty(), false, map[])
    else
      NextValid(env, sender, Run(env, sender, owner, moves[..|moves| - 1]), moves[|moves| - 1]);
      Next(env, sender, Run(env, sender, owner, moves[..|moves| - 1]), moves[|moves| - 1])
  }

  lemma EmptyValid(released: seq<Queue.Release>)
    ensures Queue.Valid(Queue.Empty().(released := released))
  {
  }

  lemma NextValid(env: Env, sender: Address, w: World, m: Move)
    requires Queue.Valid(w.queue)
    ensures Queue.Valid(Next(env, sender, w, m).queue)
  {
    hide Queue.Exec, Queue.Consistent, Queue.NobodyStranded, Runs.Next, LatestCount;
    EmptyValid(w.queue.released);
    if Enabled(env, w, m) && m.Event? {
      Queue.EventKeepsValid(w.queue, m.event, Expected(env, ChainOf(w), sender)(Queue.Subject(w.queue, m.event)));
    }
  }

  // ---- What every reachable world satisfies ----

  /** An entry stands under the signer and nonce of its own source. */
  predicate Fits(env: Env, c: Chain, s: Address, e: Queue.Entry) {
    Routed(env, c, e.hash) == Some(Source(s, e.nonce))
  }

  ghost predicate EntriesFit(env: Env, c: Chain, q: Queue.Queue) {
    AllEntries(q, (s: Address, e: Queue.Entry) => Fits(env, c, s, e))
  }

  /** Every task the queue started belongs to a run that is still in flight. */
  predicate BuildsAgree(w: World) {
    forall h :: h in w.built ==>
      h in w.machine.system.tasks && w.built[h] in w.queue.runs && w.queue.runs[w.built[h]].entry.hash == h
  }

  /** A confirmed record, or one failed with its receipt, of this sender and nonce. */
  predicate Spent(c: Chain, sender: Address, nonce: nat) {
    exists h :: h in c.records && c.records[h].context.Some? && Finalized(c.records[h])
                && c.records[h].context.value.from == sender && c.records[h].context.value.nonce == nonce
  }

  /** The nonce is at most the baseline, or its predecessor is spent. */
  predicate Due(c: Chain, sender: Address, nonce: nat) {
    nonce > Baseline(c, sender) ==> Spent(c, sender, nonce - 1)
  }

  predicate RunsDue(c: Chain, sender: Address, q: Queue.Queue) {
    forall t :: t in q.runs && q.runs[t].signer == sender ==> Due(c, sender, q.runs[t].entry.nonce)
  }

  ghost predicate Sound(env: Env, sender: Address, w: World) {
    && Runs.MachineSound(env, w.machine)
    && Queue.CursorsBelow(w.queue, Expected(env, ChainOf(w), sender))
    && EntriesFit(env, ChainOf(w), w.queue) && RunsDue(ChainOf(w), sender, w.queue)
    && BuildsAgree(w)
  }

  predicate Grows(few: Address -> nat, many: Address -> nat, s: Address) {
    few(s) <= many(s)
  }

  lemma ExpectedGrows(env: Env, c: Chain, d: Chain, sender: Address, s: Address)
    requires Runs.Continues(c, d)
    ensures Grows(Expected(env, c, sender), Expected(env, d, sender), s)
  {
    LatestAdvances(env, c, d, sender);
    hide LatestCount, Climbs, Protocol.RecordsStay;
  }

  lemma CursorsStayBelow(env: Env, c: Chain, d: Chain, sender: Address, q: Queue.Queue)
    requires Runs.Continues(c, d) && Queue.CursorsBelow(q, Expected(env, c, sender))
    ensures Queue.CursorsBelow(q, Expected(env, d, sender))
  {
    hide Runs.Continues, Expected;
    forall s | s in q.cursor ensures q.cursor[s] <= Expected(env, d, sender)(s) {
      ExpectedGrows(env, c, d, sender, s);
    }
  }

  lemma RoutedStays(env: Env, c: Chain, d: Chain, h: Hash)
    requires Runs.Continues(c, d) && Routed(env, c, h).Some?
    ensures Routed(env, d, h) == Routed(env, c, h)
  {
    assert Protocol.RecordStays(c.records[h], d.records[h]);
  }

  lemma EntriesStayFit(env: Env, c: Chain, d: Chain, q: Queue.Queue)
    requires Runs.Continues(c, d) && EntriesFit(env, c, q)
    ensures EntriesFit(env, d, q)
  {
    hide Runs.Continues, Routed, PendingAt;
    forall s, e | Fits(env, c, s, e) ensures Fits(env, d, s, e) {
      RoutedStays(env, c, d, e.hash);
    }
  }

  lemma DueStays(c: Chain, d: Chain, sender: Address, nonce: nat)
    requires Runs.Continues(c, d) && Due(c, sender, nonce)
    ensures Due(d, sender, nonce)
  {
    hide SnapshotsClimb, DescriptorsClimb;
    assert Baseline(c, sender) <= Baseline(d, sender);
    if nonce > Baseline(d, sender) {
      var h :| h in c.records && c.records[h].context.Some? && Finalized(c.records[h])
               && c.records[h].context.value.from == sender && c.records[h].context.value.nonce == nonce - 1;
      assert Protocol.RecordStays(c.records[h], d.records[h]);
    }
  }

  lemma HandleKeepsSound(env: Env, sender: Address, w: World, m: Runs.Move)
    requires Queue.Valid(w.queue) && Sound(env, sender, w) && Enabled(env, w, Handle(m))
    ensures Sound(env, sender, HandleNext(env, w, m))
  {
    hide Queue.Consistent, Runs.Next, Runs.MachineSound, Runs.Continues, Expected, EntriesFit, Queue.CursorsBelow, Due;
    var c, d := ChainOf(w), Runs.Next(env, w.machine, m).system.chain;
    if Restarts(m) {
      MoveKeepsMachine(env, w.machine, m);
      LostKeeps(env, d, sender, w.queue);
    } else {
      Runs.ActKeepsSound(env, w.machine, m.step, m.synced);
      CursorsStayBelow(env, c, d, sender, w.queue);
      EntriesStayFit(env, c, d, w.queue);
      forall t | t in w.queue.runs && w.queue.runs[t].signer == sender ensures Due(d, sender, w.queue.runs[t].entry.nonce) {
        DueStays(c, d, sender, w.queue.runs[t].entry.nonce);
      }
    }
  }

  lemma MoveKeepsMachine(env: Env, w: Runs.Machine, m: Runs.Move)
    requires Runs.MachineSound(env, w)
    ensures Runs.MachineSound(env, Runs.Next(env, w, m))
  {
    hide Runs.MachineSound, Runs.Next;
    match m
    case Act(e, synced) => Runs.ActKeepsSound(env, w, e, synced);
    case PowerLoss(successor, image) => Runs.LossKeepsSound(env, w, successor, image);
  }

  lemma LostKeeps(env: Env, c: Chain, sender: Address, q: Queue.Queue)
    ensures Queue.CursorsBelow(Lost(q), Expected(env, c, sender)) && EntriesFit(env, c, Lost(q)) && RunsDue(c, sender, Lost(q))
  {
  }

  lemma BuildKeepsSound(env: Env, sender: Address, w: World, t: Queue.Ticket)
    requires Queue.Valid(w.queue) && Sound(env, sender, w) && t in w.queue.runs
    ensures Sound(env, sender, BuildNext(env, w, t))
  {
    var m := Runs.Act(Protocol.StartBuild(w.queue.runs[t].entry.hash), false);
    StartBuildStarts(env, w.machine, w.queue.runs[t].entry.hash);
    MoveKeepsMachine(env, w.machine, m);
    BuildAgrees(env, w, t);
    hide Queue.Valid, Runs.Next, Runs.MachineSound, Expected, EntriesFit, Queue.CursorsBelow, RunsDue, BuildsAgree;
  }

  lemma BuildAgrees(env: Env, w: World, t: Queue.Ticket)
    requires BuildsAgree(w) && t in w.queue.runs
    ensures BuildsAgree(BuildNext(env, w, t))
  {
    StartBuildStarts(env, w.machine, w.queue.runs[t].entry.hash);
    hide Runs.Next;
  }

  lemma StartBuildStarts(env: Env, w: Runs.Machine, h: Hash)
    ensures var t := Runs.Next(env, w, Runs.Act(Protocol.StartBuild(h), false));
            t.system.chain == w.system.chain && w.system.tasks.Keys <= t.system.tasks.Keys
  {
  }

  lemma EventKeepsSound(env: Env, sender: Address, w: World, e: Queue.Event)
    requires Queue.Valid(w.queue) && Sound(env, sender, w) && Enabled(env, w, Event(e))
    ensures Sound(env, sender, Next(env, sender, w, Event(e)))
  {
    var expected := Expected(env, ChainOf(w), sender);
    var n := expected(Queue.Subject(w.queue, e));
    EventKeepsFit(env, sender, w, e);
    EventKeepsDue(env, sender, w, e);
    EventKeepsBuilds(env, w, e, n);
    hide Queue.Exec, Queue.Consistent, Queue.CursorsBelow, Runs.MachineSound, EntriesFit, RunsDue, BuildsAgree;
    Queue.ReleaseAtExpected(w.queue, e, expected);
  }

  lemma EventKeepsFit(env: Env, sender: Address, w: World, e: Queue.Event)
    requires Queue.Valid(w.queue) && EntriesFit(env, ChainOf(w), w.queue) && Enabled(env, w, Event(e))
    ensures EntriesFit(env, ChainOf(w), Next(env, sender, w, Event(e)).queue)
  {
    hide Queue.Exec, Queue.Consistent, PendingAt, LatestCount;
    var c := ChainOf(w);
    var n := Expected(env, c, sender)(Queue.Subject(w.queue, e));
    hide AllEntries;
    EventKeepsEntries(w.queue, e, n, (s: Address, entry: Queue.Entry) => Fits(env, c, s, entry));
  }

  lemma EventKeepsBuilds(env: Env, w: World, e: Queue.Event, n: nat)
    requires Queue.Valid(w.queue) && BuildsAgree(w) && Enabled(env, w, Event(e))
    ensures BuildsAgree(w.(queue := Queue.Exec(w.queue, e, n)))
  {
    EventKeepsRuns(w.queue, e, n);
    FinishedHasNoTask(env, w, e);
    hide Queue.Exec, Queue.Valid, Enabled;
  }

  lemma FinishedHasNoTask(env: Env, w: World, e: Queue.Event)
    requires Enabled(env, w, Event(e))
    ensures e.Finish? && e.ticket in w.queue.runs ==> w.queue.runs[e.ticket].entry.hash !in w.machine.system.tasks
  {
  }

  lemma EventKeepsDue(env: Env, sender: Address, w: World, e: Queue.Event)
    requires Queue.Valid(w.queue) && Queue.CursorsBelow(w.queue, Expected(env, ChainOf(w), sender))
    requires RunsDue(ChainOf(w), sender, w.queue) && Enabled(env, w, Event(e))
    ensures RunsDue(ChainOf(w), sender, Next(env, sender, w, Event(e)).queue)
  {
    var c, q := ChainOf(w), w.queue;
    var expected := Expected(env, c, sender);
    var n := expected(Queue.Subject(q, e));
    var r := Queue.Exec(q, e, n);
    EventReleasesRuns(q, e, n);
    Queue.ReleaseAtExpected(q, e, expected);
    LatestIsDue(env, c, sender);
    hide Queue.Exec, Queue.Valid, Queue.CursorsBelow, Due, LatestCount, Enabled;
    forall t | t in r.runs && r.runs[t].signer == sender ensures Due(c, sender, r.runs[t].entry.nonce) {
      if ReleasedSince(q, r, r.runs[t].signer, r.runs[t].entry.nonce) {
        var i :| |q.released| <= i < |r.released| && r.released[i].signer == sender && r.released[i].nonce == r.runs[t].entry.nonce;
        assert r.released[i] == Queue.Release(Queue.Subject(q, e), n, n);
      }
    }
  }

  lemma LatestIsDue(env: Env, c: Chain, sender: Address)
    ensures Due(c, sender, LatestCount(env, c, sender))
  {
    if LatestCount(env, c, sender) > Baseline(c, sender) {
      var h := LatestIsSpent(env, c, sender);
    }
  }

  lemma {:induction false} RunSound(env: Env, sender: Address, owner: Owner, moves: seq<Move>)
    ensures Sound(env, sender, Run(env, sender, owner, moves))
  {
    hide Queue.Valid;
    if moves == [] {
      Runs.RunSound(env, owner, []);
      LostKeeps(env, Runs.Run(env, owner, []).system.chain, sender, Queue.Empty());
      assert Lost(Queue.Empty()) == Queue.Empty();
      hide Runs.MachineSound, Expected, Runs.Run;
    } else {
      var w, m := Run(env, sender, owner, moves[..|moves| - 1]), moves[|moves| - 1];
      RunSound(env, sender, owner, moves[..|moves| - 1]);
      ServeKeepsSound(env, sender, w);
      hide Sound, HandleNext, BuildNext, Enabled;
      if Enabled(env, w, m) {
        match m
        case Serve =>
        case Handle(move) => HandleKeepsSound(env, sender, w, move);
        case Build(t) => BuildEnabled(env, w, t); BuildKeepsSound(env, sender, w, t);
        case Event(e) => EventKeepsSound(env, sender, w, e);
      }
    }
  }

  lemma ServeKeepsSound(env: Env, sender: Address, w: World)
    requires Sound(env, sender, w)
    ensures Sound(env, sender, w.(serving := true))
  {
  }

  lemma BuildEnabled(env: Env, w: World, t: Queue.Ticket)
    requires Enabled(env, w, Build(t))
    ensures t in w.queue.runs
  {
  }

  // ---- The queue composed with the journal ----

  /** In every reachable world a signer has at most one run in flight, and it is the one its active flag stands for. */
  lemma OneRunPerSigner(env: Env, sender: Address, owner: Owner, moves: seq<Move>, t: Queue.Ticket, u: Queue.Ticket)
    requires var q := Run(env, sender, owner, moves).queue;
             t in q.runs && u in q.runs && q.runs[t].signer == q.runs[u].signer
    ensures t == u
  {
    var q := Run(env, sender, owner, moves).queue;
    assert Queue.RunsAgree(q);
  }

  /**
   * So a signer has at most one transaction being built, prepared, sent or awaited at a time, except
   * for what startup recovery, a resumed resend or a source without a nonce brings.
   */
  lemma OneBuildPerSigner(env: Env, sender: Address, owner: Owner, moves: seq<Move>, h: Hash, k: Hash)
    requires var w := Run(env, sender, owner, moves);
             && h in w.built && k in w.built
             && Routed(env, ChainOf(w), h).Some? && Routed(env, ChainOf(w), k).Some?
             && Routed(env, ChainOf(w), h).value.from == Routed(env, ChainOf(w), k).value.from
    ensures h == k
  {
    RunSound(env, sender, owner, moves);
    var w := Run(env, sender, owner, moves);
    BuiltFits(env, sender, w, h);
    BuiltFits(env, sender, w, k);
    hide Run, Queue.Valid, Sound, Routed;
    OneRunPerSigner(env, sender, owner, moves, w.built[h], w.built[k]);
  }

  lemma BuiltFits(env: Env, sender: Address, w: World, h: Hash)
    requires Sound(env, sender, w) && h in w.built
    ensures w.built[h] in w.queue.runs
    ensures var run := w.queue.runs[w.built[h]];
            run.entry.hash == h && Routed(env, ChainOf(w), h) == Some(Source(run.signer, run.entry.nonce))
  {
    var run := w.queue.runs[w.built[h]];
    hide Runs.MachineSound, Queue.CursorsBelow, RunsDue, PendingAt, Routed;
    assert Fits(env, ChainOf(w), run.signer, run.entry);
  }

  /**
   * Whatever the queue has started for the configured sender with nonce n, while it is in flight n is
   * at most the baseline or a finalized record with nonce n - 1 exists.
   */
  lemma BuildsFollowJournal(env: Env, sender: Address, owner: Owner, moves: seq<Move>, h: Hash, nonce: nat)
    requires var w := Run(env, sender, owner, moves);
             h in w.built && Routed(env, ChainOf(w), h) == Some(Source(sender, nonce))
    ensures Due(ChainOf(Run(env, sender, owner, moves)), sender, nonce)
  {
    RunSound(env, sender, owner, moves);
    var w := Run(env, sender, owner, moves);
    hide Run, Queue.Valid;
    BuiltFits(env, sender, w, h);
    hide Runs.MachineSound, Queue.CursorsBelow, EntriesFit, BuildsAgree, Routed, Due;
  }

  /** While requests are served, work for a source that has a nonce only starts as a run of the queue. */
  lemma BuildsGoThroughQueue(env: Env, sender: Address, w: World, m: Move, h: Hash)
    requires Queue.Consistent(w.queue) && w.serving && Routed(env, ChainOf(w), h).Some?
    requires h !in w.machine.system.tasks
    requires var t := Next(env, sender, w, m).machine.system.tasks; h in t && t[h].Building?
    ensures m.Build? && m.ticket in w.queue.runs && w.queue.runs[m.ticket].entry.hash == h
    ensures Next(env, sender, w, m).built == w.built[h := m.ticket]
  {
    hide Queue.Consistent, LatestCount, Routed, Queue.Exec;
    if Enabled(env, w, m) && m.Handle? {
      if m.move.Act? {
        OnlyStartBuilds(env, w.machine.system, m.move.step, h);
      }
      hide Protocol.Next;
    }
  }

  lemma OnlyStartBuilds(env: Env, s: Protocol.System, e: Protocol.Step, h: Hash)
    requires h !in s.tasks
    requires var t := Protocol.Next(env, s, e).tasks; h in t && t[h].Building?
    ensures e == Protocol.StartBuild(h)
  {
  }

  /** One release, at the journal's own count, whose predecessor is already spent. */
  ghost predicate ReleasesOne(
    env: Env, c: Chain, sender: Address, before: seq<Queue.Release>, after: seq<Queue.Release>, s: Address, n: nat)
  {
    && after == before + [Queue.Release(s, n, n)]
    && n == Expected(env, c, sender)(s)
    && (s == sender ==> Due(c, sender, n))
  }

  /**
   * A release happens only at the count the journal gives at that moment. For the configured sender
   * this means: releasing nonce n above the baseline, there is a finalized record with nonce n - 1.
   */
  lemma ReleaseFollowsJournal(env: Env, sender: Address, owner: Owner, moves: seq<Move>, m: Move)
    ensures var w := Run(env, sender, owner, moves);
            var after := Next(env, sender, w, m).queue.released;
            || after == w.queue.released
            || exists s, n: nat :: ReleasesOne(env, ChainOf(w), sender, w.queue.released, after, s, n)
  {
    RunSound(env, sender, owner, moves);
    var w := Run(env, sender, owner, moves);
    hide Run, HandleNext, BuildNext, Enabled;
    if Enabled(env, w, m) && m.Event? {
      EventReleases(env, sender, w, m.event);
    }
    if Enabled(env, w, m) && m.Build? {
      BuildEnabled(env, w, m.ticket);
    }
    MovesKeepReleased(env, w, m);
    hide Sound, Queue.Valid;
  }

  lemma MovesKeepReleased(env: Env, w: World, m: Move)
    ensures m.Handle? ==> HandleNext(env, w, m.move).queue.released == w.queue.released
    ensures m.Build? && m.ticket in w.queue.runs ==> BuildNext(env, w, m.ticket).queue == w.queue
  {
    hide Runs.Next;
  }

  lemma EventReleases(env: Env, sender: Address, w: World, e: Queue.Event)
    requires Queue.Valid(w.queue) && Sound(env, sender, w) && Enabled(env, w, Event(e))
    ensures var after := Next(env, sender, w, Event(e)).queue.released;
            || after == w.queue.released
            || exists s, n: nat :: ReleasesOne(env, ChainOf(w), sender, w.queue.released, after, s, n)
  {
    hide Queue.Exec, Queue.Consistent, Queue.CursorsBelow, Runs.MachineSound, LatestCount, EntriesFit, RunsDue, BuildsAgree, Enabled;
    var expected := Expected(env, ChainOf(w), sender);
    var s := Queue.Subject(w.queue, e);
    Queue.ReleaseAtExpected(w.queue, e, expected);
    LatestIsDue(env, ChainOf(w), sender);
    hide Due;
    var after := Next(env, sender, w, Event(e)).queue.released;
    if after != w.queue.released {
      assert ReleasesOne(env, ChainOf(w), sender, w.queue.released, after, s, expected(s));
    }
  }

  // ---- The order of releases, and what a lost commit does to it ----

  /** Releases of one signer go by in nonce order, none beyond what the journal now expects. */
  predicate Ordered(released: seq<Queue.Release>, expected: Address -> nat) {
    && Reached(released, expected)
    && (forall i, j :: 0 <= i < j < |released| && released[i].signer == released[j].signer ==>
          released[i].nonce <= released[j].nonce)
  }

  predicate Reached(released: seq<Queue.Release>, expected: Address -> nat) {
    forall i :: 0 <= i < |released| ==> released[i].nonce <= expected(released[i].signer)
  }

  /** No loss of power brings back a journal whose count is below a nonce already released. */
  ghost predicate CountKept(env: Env, sender: Address, owner: Owner, moves: seq<Move>) {
    forall k :: 0 <= k < |moves| && moves[k].Handle? && moves[k].move.PowerLoss? ==>
      Reached(Run(env, sender, owner, moves[..k]).queue.released, Expected(env, moves[k].move.image, sender))
  }

  lemma GrowthKeepsOrder(env: Env, c: Chain, d: Chain, sender: Address, released: seq<Queue.Release>)
    requires Runs.Continues(c, d) && Ordered(released, Expected(env, c, sender))
    ensures Ordered(released, Expected(env, d, sender))
  {
    hide Runs.Continues, Expected;
    forall i | 0 <= i < |released| ensures released[i].nonce <= Expected(env, d, sender)(released[i].signer) {
      ExpectedGrows(env, c, d, sender, released[i].signer);
    }
  }

  lemma HandleKeepsOrder(env: Env, sender: Address, w: World, m: Runs.Move)
    requires Sound(env, sender, w) && Ordered(w.queue.released, Expected(env, ChainOf(w), sender))
    requires m.PowerLoss? ==> m.image in Runs.Images(w.machine) && Reached(w.queue.released, Expected(env, m.image, sender))
    ensures Ordered(w.queue.released, Expected(env, Runs.Next(env, w.machine, m).system.chain, sender))
  {
    hide Queue.CursorsBelow, EntriesFit, RunsDue, BuildsAgree, Expected;
    if m.Act? {
      hide Ordered, Runs.MachineSound, Runs.Continues, Runs.Next;
      Runs.ActKeepsSound(env, w.machine, m.step, m.synced);
      GrowthKeepsOrder(env, ChainOf(w), Runs.Next(env, w.machine, m).system.chain, sender, w.queue.released);
    }
  }

  lemma EventKeepsOrder(env: Env, sender: Address, w: World, e: Queue.Event)
    requires Queue.Valid(w.queue) && Sound(env, sender, w) && Enabled(env, w, Event(e))
    requires Ordered(w.queue.released, Expected(env, ChainOf(w), sender))
    ensures Ordered(Next(env, sender, w, Event(e)).queue.released, Expected(env, ChainOf(w), sender))
  {
    EventReleases(env, sender, w, e);
    var before, after := w.queue.released, Next(env, sender, w, Event(e)).queue.released;
    hide Sound, Queue.Valid, Enabled, Next, Ordered, ReleasesOne;
    if after != before {
      var s, n: nat :| ReleasesOne(env, ChainOf(w), sender, before, after, s, n);
      ReleaseOrdered(env, ChainOf(w), sender, before, after, s, n);
    }
  }

  lemma ReleaseOrdered(
    env: Env, c: Chain, sender: Address, before: seq<Queue.Release>, after: seq<Queue.Release>, s: Address, n: nat)
    requires Ordered(before, Expected(env, c, sender)) && ReleasesOne(env, c, sender, before, after, s, n)
    ensures Ordered(after, Expected(env, c, sender))
  {
    hide Expected, Due;
  }

  lemma {:induction false} RunOrdered(env: Env, sender: Address, owner: Owner, moves: seq<Move>)
    requires CountKept(env, sender, owner, moves)
    ensures var w := Run(env, sender, owner, moves); Ordered(w.queue.released, Expected(env, ChainOf(w), sender))
  {
    if moves != [] {
      var most, m := moves[..|moves| - 1], moves[|moves| - 1];
      CountKeptPrefix(env, sender, owner, moves);
      RunOrdered(env, sender, owner, most);
      RunSound(env, sender, owner, most);
      var w := Run(env, sender, owner, most);
      assert m.Handle? && m.move.PowerLoss? ==> Reached(w.queue.released, Expected(env, m.move.image, sender));
      hide Sound, Ordered, Reached, Expected, Queue.Valid, CountKept;
      if Enabled(env, w, m) {
        match m {
          case Serve =>
          case Handle(move) =>
            HandleKeepsOrder(env, sender, w, move);
            HandleMeans(env, w, move);
            hide HandleNext;
          case Build(t) => BuildMeans(env, w, t);
          case Event(e) => EventKeepsOrder(env, sender, w, e);
        }
      }
    }
  }

  lemma HandleMeans(env: Env, w: World, m: Runs.Move)
    ensures HandleNext(env, w, m).queue.released == w.queue.released
    ensures HandleNext(env, w, m).machine == Runs.Next(env, w.machine, m)
  {
    hide Runs.Next;
  }

  lemma BuildMeans(env: Env, w: World, t: Queue.Ticket)
    requires t in w.queue.runs
    ensures BuildNext(env, w, t).queue == w.queue && ChainOf(BuildNext(env, w, t)) == ChainOf(w)
  {
    StartBuildStarts(env, w.machine, w.queue.runs[t].entry.hash);
    hide Runs.Next;
  }

  lemma CountKeptPrefix(env: Env, sender: Address, owner: Owner, moves: seq<Move>)
    requires CountKept(env, sender, owner, moves) && |moves| > 0
    ensures CountKept(env, sender, owner, moves[..|moves| - 1])
  {
    var most := moves[..|moves| - 1];
    hide Run, Reached, Expected;
    assert forall k :: 0 <= k < |most| ==> most[k] == moves[k] && most[..k] == moves[..k];
  }

  /**
   * While no loss of power takes a released nonce's predecessors out of the journal, the releases of a
   * signer never go back: not within one queue, and not across its deletion and re-creation.
   */
  lemma ReleasesNeverDecrease(env: Env, sender: Address, owner: Owner, moves: seq<Move>, i: nat, j: nat)
    requires CountKept(env, sender, owner, moves)
    requires i < j < |Run(env, sender, owner, moves).queue.released|
    requires Run(env, sender, owner, moves).queue.released[i].signer == Run(env, sender, owner, moves).queue.released[j].signer
    ensures Run(env, sender, owner, moves).queue.released[i].nonce <= Run(env, sender, owner, moves).queue.released[j].nonce
  {
    RunOrdered(env, sender, owner, moves);
    hide Run, Expected, CountKept, Reached;
  }

  /** On an empty queue, an admission at the expected nonce and its pump release it. */
  lemma FreshRelease(released: seq<Queue.Release>, s: Address, n: nat, h: Hash)
    ensures var q := Lost(Queue.Empty().(released := released));
            && Queue.Consistent(q) && Queue.Consistent(Queue.Exec(q, Queue.Enqueue(s, n, h), n))
            && Queue.Exec(Queue.Exec(q, Queue.Enqueue(s, n, h), n), Queue.Pump(s), n).released == released + [Queue.Release(s, n, n)]
  {
    var q := Lost(Queue.Empty().(released := released));
    EmptyValid(released);
    assert q == Queue.Empty().(released := released);
    Queue.EventKeepsValid(q, Queue.Enqueue(s, n, h), n);
    var entered := Queue.AddEntry(q, s, n, h);
    assert Queue.Exec(q, Queue.Enqueue(s, n, h), n) == entered;
    assert entered.pending == map[s := map[n := Queue.Entry(h, n, 0)]];
    var popped := entered.(pumps := entered.pumps - multiset{s});
    hide Queue.PendingAgree, Queue.QueuedAgree, Queue.FlightsAgree, Queue.HashesAgree, Queue.RunsAgree, Queue.TimersAgree;
    Queue.PoppedKeepsConsistent(entered, s);
    assert Queue.TooLow(popped.pending[s], n) == {};
  }

  lemma RunSnoc(env: Env, sender: Address, owner: Owner, moves: seq<Move>, m: Move)
    ensures Run(env, sender, owner, moves + [m]) == Next(env, sender, Run(env, sender, owner, moves), m)
  {
    hide Next, Queue.Valid, Queue.Consistent;
    assert (moves + [m])[..|moves|] == moves;
  }

  lemma RunTwo(env: Env, sender: Address, owner: Owner, moves: seq<Move>, m: Move, n: Move)
    ensures Queue.Consistent(Run(env, sender, owner, moves).queue)
    ensures Queue.Consistent(Next(env, sender, Run(env, sender, owner, moves), m).queue)
    ensures Run(env, sender, owner, moves + [m, n]) == Next(env, sender, Next(env, sender, Run(env, sender, owner, moves), m), n)
  {
    hide Next, Queue.Consistent, Run;
    RunSnoc(env, sender, owner, moves, m);
    RunSnoc(env, sender, owner, moves + [m], n);
    assert moves + [m, n] == moves + [m] + [n];
  }

  /** The journal before the image is served again: power is lost, it comes back, the source is received once more. */
  function ReturnMoves(image: Chain, raw: Raw): seq<Move> {
    [Handle(Runs.PowerLoss(0, image)), Handle(Runs.Act(Protocol.ReceiveSource(raw), true))]
  }

  lemma ImageWorlds(env: Env, sender: Address, w: World, image: Chain, raw: Raw)
    requires Queue.Valid(w.queue) && Sound(env, sender, w) && image in Runs.Images(w.machine) && Decode(env, raw).Some?
    requires Keccak(env, raw) in image.records ==> image.records[Keccak(env, raw)].source == raw
    ensures var u := Next(env, sender, w, ReturnMoves(image, raw)[0]);
            && Queue.Consistent(u.queue)
            && var v := Next(env, sender, u, ReturnMoves(image, raw)[1]);
               && Queue.Consistent(v.queue) && !v.serving && v.machine.system.tasks == map[] && v.queue == Lost(w.queue)
               && Routed(env, ChainOf(v), Keccak(env, raw)) == Decode(env, raw)
               && LatestCount(env, ChainOf(v), sender) == LatestCount(env, image, sender)
  {
    var h := Keccak(env, raw);
    ImageSound(env, sender, w, image);
    EmptyValid(w.queue.released);
    hide Sound, Queue.Consistent, Queue.NobodyStranded, LatestCount, Next, Routed, Runs.Images;
    LossReturns(env, sender, w, image);
    var u := Next(env, sender, w, ReturnMoves(image, raw)[0]);
    ReceiptReturns(env, sender, u, raw);
    SameLatest(env, image, ChainOf(Next(env, sender, u, ReturnMoves(image, raw)[1])), sender, h);
  }

  lemma ImageReturns(env: Env, sender: Address, owner: Owner, moves: seq<Move>, image: Chain, raw: Raw)
    requires image in Runs.Images(Run(env, sender, owner, moves).machine) && Decode(env, raw).Some?
    requires Keccak(env, raw) in image.records ==> image.records[Keccak(env, raw)].source == raw
    ensures var w, v := Run(env, sender, owner, moves), Run(env, sender, owner, moves + ReturnMoves(image, raw) + [Serve]);
            && v.serving && v.queue == Lost(w.queue)
            && Routed(env, ChainOf(v), Keccak(env, raw)) == Decode(env, raw)
            && LatestCount(env, ChainOf(v), sender) == LatestCount(env, image, sender)
  {
    var w := Run(env, sender, owner, moves);
    RunSound(env, sender, owner, moves);
    var back := ReturnMoves(image, raw);
    assert back == [back[0], back[1]];
    hide Run, Sound, Queue.Consistent, LatestCount, Next, Routed, ReturnMoves, Runs.Images;
    RunTwo(env, sender, owner, moves, back[0], back[1]);
    ImageWorlds(env, sender, w, image, raw);
    RunSnoc(env, sender, owner, moves + back, Serve);
    ServeReturns(env, sender, Run(env, sender, owner, moves + back));
  }

  lemma LossReturns(env: Env, sender: Address, w: World, image: Chain)
    requires Queue.Consistent(w.queue) && image in Runs.Images(w.machine)
    ensures var s := w.machine.system.(chain := image, owner := 0, tasks := map[]);
            Next(env, sender, w, Handle(Runs.PowerLoss(0, image))) == World(Runs.Machine(s, {}), Lost(w.queue), false, map[])
  {
    hide Queue.Consistent, LatestCount;
  }

  lemma ReceiptReturns(env: Env, sender: Address, w: World, raw: Raw)
    requires Queue.Consistent(w.queue) && w.machine.system.tasks == map[] && w.built == map[]
    requires Journal.JournalValid(env, ChainOf(w).records) && Decode(env, raw).Some?
    requires Keccak(env, raw) in ChainOf(w).records ==> ChainOf(w).records[Keccak(env, raw)].source == raw
    ensures var c, h := ChainOf(w), Keccak(env, raw);
            var v := Next(env, sender, w, Handle(Runs.Act(Protocol.ReceiveSource(raw), true)));
            && ChainOf(v) == (if h in c.records then c else Journal.Put(c, Journal.NewRecord(h, raw, w.machine.system.owner)))
            && v.machine.system.tasks == map[] && v.queue == w.queue && v.serving == w.serving
            && Routed(env, ChainOf(v), h) == Decode(env, raw)
  {
    ReceivedAgain(env, w.machine.system, raw);
    hide Queue.Consistent, LatestCount, Protocol.Next, Runs.Lands, Journal.JournalValid;
  }

  lemma ServeReturns(env: Env, sender: Address, w: World)
    requires Queue.Consistent(w.queue) && w.machine.system.tasks == map[] && !w.serving
    ensures Next(env, sender, w, Serve) == w.(serving := true)
  {
    hide Queue.Consistent, LatestCount;
  }

  /** On an empty queue, the next nonce is released as soon as it is admitted and pumped. */
  lemma AdmitAndPump(env: Env, sender: Address, w: World, released: seq<Queue.Release>, h: Hash)
    requires var n := LatestCount(env, ChainOf(w), sender);
             w.serving && w.queue == Lost(Queue.Empty().(released := released)) && Routed(env, ChainOf(w), h) == Some(Source(sender, n))
    ensures Queue.Consistent(w.queue)
    ensures var n := LatestCount(env, ChainOf(w), sender);
            var v := Next(env, sender, w, Event(Queue.Enqueue(sender, n, h)));
            && Queue.Consistent(v.queue)
            && Next(env, sender, v, Event(Queue.Pump(sender))).queue.released == released + [Queue.Release(sender, n, n)]
  {
    FreshRelease(released, sender, LatestCount(env, ChainOf(w), sender), h);
    hide LatestCount, Queue.Exec, Queue.Consistent, Routed, Lost, Queue.Empty;
  }

  lemma ImageSound(env: Env, sender: Address, w: World, image: Chain)
    requires Sound(env, sender, w) && image in Runs.Images(w.machine)
    ensures Journal.JournalValid(env, image.records)
  {
    hide Queue.CursorsBelow, EntriesFit, RunsDue, BuildsAgree, Journal.JournalValid;
  }

  lemma ReceivedAgain(env: Env, s: Protocol.System, raw: Raw)
    requires Journal.JournalValid(env, s.chain.records)
    requires Keccak(env, raw) in s.chain.records ==> s.chain.records[Keccak(env, raw)].source == raw
    ensures var h := Keccak(env, raw);
            Protocol.Next(env, s, Protocol.ReceiveSource(raw))
            == if h in s.chain.records then s else s.(chain := Journal.Put(s.chain, Journal.NewRecord(h, raw, s.owner)))
  {
    hide Journal.JournalValid;
  }

  lemma SameLatest(env: Env, c: Chain, d: Chain, sender: Address, h: Hash)
    requires d == c || (h !in c.records && h in d.records && d == Journal.Put(c, d.records[h]) && d.records[h].hash == h
                        && d.records[h].context.None?)
    ensures LatestCount(env, d, sender) == LatestCount(env, c, sender)
  {
    var few, many := AllRecords(c), AllRecords(d);
    forall r, n | r in many && Counts(env, r, sender, Latest, n) ensures r in few && Counts(env, r, sender, Latest, n) {
      var k :| k in d.records && d.records[k] == r;
      assert k in c.records && c.records[k] == r;
    }
    forall r, n | r in few && Counts(env, r, sender, Latest, n) ensures r in many && Counts(env, r, sender, Latest, n) {
      var k :| k in c.records && c.records[k] == r;
      assert k in d.records && d.records[k] == r;
    }
    CountedGrows(env, few, sender, Latest, many, Latest);
    CountedGrows(env, many, sender, Latest, few, Latest);
  }

  /**
   * And whenever a loss of power could bring back a journal whose count is below a released nonce, the
   * run can go on to release a lower one again, for any source of that count that comes in.
   */
  lemma LostCountReleasesAgain(
    env: Env, sender: Address, owner: Owner, moves: seq<Move>, i: nat, image: Chain, raw: Raw)
    returns (more: seq<Move>)
    requires var w := Run(env, sender, owner, moves);
             && image in Runs.Images(w.machine) && i < |w.queue.released| && w.queue.released[i].signer == sender
             && LatestCount(env, image, sender) < w.queue.released[i].nonce
    requires Decode(env, raw) == Some(Source(sender, LatestCount(env, image, sender)))
    requires Keccak(env, raw) in image.records ==> image.records[Keccak(env, raw)].source == raw
    ensures var n := LatestCount(env, image, sender);
            Run(env, sender, owner, moves + more).queue.released
            == Run(env, sender, owner, moves).queue.released + [Queue.Release(sender, n, n)]
  {
    hide Run, LatestCount, Queue.Valid, Routed, Lost, Queue.Empty, ReturnMoves, Runs.Images, AdmitMoves;
    var n, h := LatestCount(env, image, sender), Keccak(env, raw);
    var q := Run(env, sender, owner, moves).queue;
    ImageReturns(env, sender, owner, moves, image, raw);
    more := ReturnMoves(image, raw) + [Serve] + AdmitMoves(sender, n, h);
    Joined(moves, ReturnMoves(image, raw), [Serve], AdmitMoves(sender, n, h));
    LostIsEmpty(q);
    AdmitRun(env, sender, owner, moves + ReturnMoves(image, raw) + [Serve], q.released, h);
  }

  lemma Joined(a: seq<Move>, b: seq<Move>, c: seq<Move>, d: seq<Move>)
    ensures a + (b + c + d) == a + b + c + d
  {
  }

  function AdmitMoves(sender: Address, n: nat, h: Hash): seq<Move> {
    [Event(Queue.Enqueue(sender, n, h)), Event(Queue.Pump(sender))]
  }

  lemma LostIsEmpty(q: Queue.Queue)
    ensures Lost(q) == Lost(Queue.Empty().(released := q.released))
  {
  }

  lemma AdmitRun(env: Env, sender: Address, owner: Owner, moves: seq<Move>, released: seq<Queue.Release>, h: Hash)
    requires var w := Run(env, sender, owner, moves);
             && w.serving && w.queue == Lost(Queue.Empty().(released := released))
             && Routed(env, ChainOf(w), h) == Some(Source(sender, LatestCount(env, ChainOf(w), sender)))
    ensures var n := LatestCount(env, ChainOf(Run(env, sender, owner, moves)), sender);
            Run(env, sender, owner, moves + AdmitMoves(sender, n, h)).queue.released == released + [Queue.Release(sender, n, n)]
  {
    var w := Run(env, sender, owner, moves);
    var n := LatestCount(env, ChainOf(w), sender);
    hide Run, LatestCount, Next, Queue.Valid, Routed, Lost, Queue.Empty;
    AdmitAndPump(env, sender, w, released, h);
    RunTwo(env, sender, owner, moves, Event(Queue.Enqueue(sender, n, h)), Event(Queue.Pump(sender)));
  }
}
