/** The virtual Ethereum nonce count of rpc-src/handlers.ts, derived from the journal. */
module NonceCount {
  import opened Wrappers
  import opened Addresses
  import opened ChainState
  import opened AddressMap
  import Journal
  import Protocol
  import Runs

  datatype BlockTag = Earliest | Latest | Pending | AtBlock(block: nat)

  datatype CountError = InvalidReceiptBlock

  // ---- The least number above every counted nonce ----

  /** `n` is the least number that is not below the baseline and above every nonce. */
  predicate IsNext(nonces: set<nat>, baseline: nat, n: nat) {
    && baseline <= n && (forall k :: k in nonces ==> k < n)
    && (n == baseline || (n > 0 && n - 1 in nonces))
  }

  ghost function NextAbove(nonces: set<nat>, baseline: nat): (n: nat)
    ensures IsNext(nonces, baseline, n)
  {
    if nonces == {} then baseline
    else
      var k :| k in nonces;
      var rest := NextAbove(nonces - {k}, baseline);
      assert forall j :: j in nonces ==> j == k || j in nonces - {k};
      if k < rest then rest else k + 1
  }

  lemma NextUnique(nonces: set<nat>, baseline: nat, m: nat, n: nat)
    requires IsNext(nonces, baseline, m) && IsNext(nonces, baseline, n)
    ensures m == n
  {
  }

  lemma NextMonotone(few: set<nat>, low: nat, many: set<nat>, high: nat)
    requires few <= many && low <= high
    ensures NextAbove(few, low) <= NextAbove(many, high)
  {
  }

  // ---- Which nonces a block tag counts ----

  /** Confirmed, or failed with a receipt: the nonce is spent. */
  predicate Finalized(r: Record) {
    r.state == Confirmed || (r.state == Failed && r.receipt.Some?)
  }

  function ReceiptBlock(r: Record): Option<nat> {
    if r.receipt.Some? then r.receipt.value.block else None
  }

  /** The sender and nonce a record speaks for under a tag; a received one only when pending is asked for. */
  function Speaks(env: Env, r: Record, tag: BlockTag): Option<Source> {
    match r.context
    case Some(x) => Some(Source(x.from, x.nonce))
    case None => if tag == Pending && r.state == Received then Decode(env, r.source) else None
  }

  predicate Counts(env: Env, r: Record, sender: Address, tag: BlockTag, nonce: nat) {
    && Speaks(env, r, tag) == Some(Source(sender, nonce))
    && match tag
       case Pending => true
       case AtBlock(b) => Finalized(r) && ReceiptBlock(r).Some? && ReceiptBlock(r).value <= b
       case _ => Finalized(r)
  }

  ghost predicate CountedIn(env: Env, records: set<Record>, sender: Address, tag: BlockTag, nonce: nat) {
    exists r :: r in records && Counts(env, r, sender, tag, nonce)
  }

  ghost function Counted(env: Env, records: set<Record>, sender: Address, tag: BlockTag): (s: set<nat>)
    ensures forall n: nat :: n in s <==> CountedIn(env, records, sender, tag, n)
  {
    if records == {} then {}
    else
      var r :| r in records;
      var rest := Counted(env, records - {r}, sender, tag);
      var own := Speaks(env, r, tag);
      var s := if own.Some? && Counts(env, r, sender, tag, own.value.nonce) then rest + {own.value.nonce} else rest;
      s
  }

  /** Some finalized record has no block to be counted at. */
  predicate Unplaced(records: set<Record>) {
    exists r :: r in records && r.context.Some? && Finalized(r) && ReceiptBlock(r).None?
  }

  /** What the count promises, for whatever set of records the journal lists and in whatever order. */
  ghost predicate IsCount(
    env: Env, records: set<Record>, expected: Address, address: Address, tag: BlockTag, baseline: nat,
    r: Result<nat, CountError>)
  {
    if tag == Earliest || address != expected then r == Ok(0)
    else if tag.AtBlock? && Unplaced(records) then r == Err(InvalidReceiptBlock)
    else r == Ok(NextAbove(Counted(env, records, expected, tag), baseline))
  }

  function Listed(list: seq<Record>): set<Record> {
    set r | r in list
  }

  /** The loop over the listed records, in the order they are listed. */
  method VirtualTransactionCount(
    env: Env, list: seq<Record>, expected: Address, address: Address, tag: BlockTag, baseline: nat)
    returns (r: Result<nat, CountError>)
    ensures IsCount(env, Listed(list), expected, address, tag, baseline, r)
  {
    if tag == Earliest || address != expected {
      return Ok(0);
    }
    var next: nat := 0;
    for i := 0 to |list|
      invariant (forall n: nat :: CountedIn(env, Listed(list[..i]), expected, tag, n) ==> n < next)
      invariant next > 0 ==> CountedIn(env, Listed(list[..i]), expected, tag, next - 1)
      invariant tag.AtBlock? ==> !Unplaced(Listed(list[..i]))
    {
      var record := list[i];
      Grows(env, list, i, expected, tag);
      var source := Speaks(env, record, tag);
      if source.Some? {
        var included := tag == Pending || Finalized(record);
        if included && tag.AtBlock? {
          var block := ReceiptBlock(record);
          if block.None? {
            assert record in Listed(list);
            return Err(InvalidReceiptBlock);
          }
          included := block.value <= tag.block;
        }
        if included && source.value.from == expected && source.value.nonce >= next {
          next := source.value.nonce + 1;
        }
      }
      assert forall n: nat :: Counts(env, record, expected, tag, n) ==> n < next;
      ghost var longer := Listed(list[..i + 1]);
      forall n: nat | CountedIn(env, longer, expected, tag, n) ensures n < next {
        assert CountedIn(env, Listed(list[..i]), expected, tag, n) || Counts(env, record, expected, tag, n);
      }
    }
    assert list[..|list|] == list;
    ghost var records := Listed(list);
    r := Ok(if next < baseline then baseline else next);
    NextUnique(Counted(env, records, expected, tag), baseline, r.value, NextAbove(Counted(env, records, expected, tag), baseline));
  }

  lemma Grows(env: Env, list: seq<Record>, i: nat, sender: Address, tag: BlockTag)
    requires i < |list|
    ensures Listed(list[..i + 1]) == Listed(list[..i]) + {list[i]}
    ensures forall n: nat :: CountedIn(env, Listed(list[..i + 1]), sender, tag, n)
                        <==> CountedIn(env, Listed(list[..i]), sender, tag, n) || Counts(env, list[i], sender, tag, n)
  {
    assert list[..i + 1] == list[..i] + [list[i]];
    assert Listed(list[..i + 1]) == Listed(list[..i]) + {list[i]};
  }

  // ---- What the counts promise ----

  /** The answer depends on the records alone, not on the order in which the journal lists them. */
  lemma ListOrderIrrelevant(
    env: Env, list: seq<Record>, other: seq<Record>, expected: Address, address: Address, tag: BlockTag, baseline: nat,
    r: Result<nat, CountError>, s: Result<nat, CountError>)
    requires forall q :: q in list <==> q in other
    requires IsCount(env, Listed(list), expected, address, tag, baseline, r)
    requires IsCount(env, Listed(other), expected, address, tag, baseline, s)
    ensures r == s
  {
    assert Listed(list) == Listed(other);
  }

  /** Latest never exceeds pending. */
  lemma LatestBelowPending(env: Env, records: set<Record>, sender: Address, baseline: nat)
    ensures NextAbove(Counted(env, records, sender, Latest), baseline)
            <= NextAbove(Counted(env, records, sender, Pending), baseline)
  {
    CountedGrows(env, records, sender, Latest, records, Pending);
    NextMonotone(Counted(env, records, sender, Latest), baseline, Counted(env, records, sender, Pending), baseline);
  }

  /** The count at a block grows with the block and never exceeds latest. */
  lemma HistoryGrows(env: Env, records: set<Record>, sender: Address, baseline: nat, early: nat, late: nat)
    requires early <= late
    ensures NextAbove(Counted(env, records, sender, AtBlock(early)), baseline)
            <= NextAbove(Counted(env, records, sender, AtBlock(late)), baseline)
            <= NextAbove(Counted(env, records, sender, Latest), baseline)
  {
    CountedGrows(env, records, sender, AtBlock(early), records, AtBlock(late));
    CountedGrows(env, records, sender, AtBlock(late), records, Latest);
    NextMonotone(Counted(env, records, sender, AtBlock(early)), baseline, Counted(env, records, sender, AtBlock(late)), baseline);
    NextMonotone(Counted(env, records, sender, AtBlock(late)), baseline, Counted(env, records, sender, Latest), baseline);
  }

  lemma CountedGrows(env: Env, few: set<Record>, sender: Address, tag: BlockTag, many: set<Record>, wider: BlockTag)
    requires forall r, n :: r in few && Counts(env, r, sender, tag, n) ==> r in many && Counts(env, r, sender, wider, n)
    ensures Counted(env, few, sender, tag) <= Counted(env, many, sender, wider)
  {
    forall n | n in Counted(env, few, sender, tag) ensures n in Counted(env, many, sender, wider) {
      assert CountedIn(env, few, sender, tag, n);
      var r :| r in few && Counts(env, r, sender, tag, n);
      assert Counts(env, r, sender, wider, n);
    }
  }

  // ---- What a count says about the journal ----

  /** The record was prepared for this sender and nonce. */
  predicate PreparedFor(r: Record, sender: Address, nonce: nat) {
    r.context.Some? && r.context.value.from == sender && r.context.value.nonce == nonce
  }

  /** The record has used this nonce up: it is confirmed, or it failed with a receipt. */
  predicate Spends(r: Record, sender: Address, nonce: nat) {
    PreparedFor(r, sender, nonce) && (r.state == Confirmed || (r.state == Failed && r.receipt.Some?))
  }

  /** Whether a record stands for this nonce under a tag: pending ones that are prepared or still to be built, spent ones otherwise. */
  predicate StandsFor(env: Env, r: Record, sender: Address, tag: BlockTag, nonce: nat) {
    match tag
    case Earliest => false
    case Latest => Spends(r, sender, nonce)
    case Pending =>
      || PreparedFor(r, sender, nonce)
      || (r.context.None? && r.state == Received && Decode(env, r.source) == Some(Source(sender, nonce)))
    case AtBlock(block) => Spends(r, sender, nonce) && ReceiptBlock(r).Some? && ReceiptBlock(r).value <= block
  }

  lemma CountsMeans(env: Env, r: Record, sender: Address, tag: BlockTag, nonce: nat)
    requires tag != Earliest
    ensures Counts(env, r, sender, tag, nonce) <==> StandsFor(env, r, sender, tag, nonce)
  {
  }

  lemma CountAbove(env: Env, records: set<Record>, sender: Address, tag: BlockTag, baseline: nat, r: Record, nonce: nat)
    requires tag != Earliest && r in records && StandsFor(env, r, sender, tag, nonce)
    ensures nonce < NextAbove(Counted(env, records, sender, tag), baseline)
  {
    CountsMeans(env, r, sender, tag, nonce);
    hide Counts, StandsFor;
    assert CountedIn(env, records, sender, tag, nonce);
  }

  lemma CountReached(env: Env, records: set<Record>, sender: Address, tag: BlockTag, baseline: nat) returns (r: Record)
    requires tag != Earliest && NextAbove(Counted(env, records, sender, tag), baseline) > baseline
    ensures r in records && StandsFor(env, r, sender, tag, NextAbove(Counted(env, records, sender, tag), baseline) - 1)
  {
    hide Counts, StandsFor;
    var n := NextAbove(Counted(env, records, sender, tag), baseline);
    assert CountedIn(env, records, sender, tag, n - 1);
    r :| r in records && Counts(env, r, sender, tag, n - 1);
    CountsMeans(env, r, sender, tag, n - 1);
  }

  /** The count is above every nonce a record stands for, and above the baseline only because one stands just below it. */
  lemma CountMeans(env: Env, records: set<Record>, sender: Address, tag: BlockTag, baseline: nat)
    requires tag != Earliest
    ensures var n := NextAbove(Counted(env, records, sender, tag), baseline);
            && baseline <= n
            && (forall r, k: nat :: r in records && StandsFor(env, r, sender, tag, k) ==> k < n)
            && (n > baseline ==> exists r :: r in records && StandsFor(env, r, sender, tag, n - 1))
  {
    var n := NextAbove(Counted(env, records, sender, tag), baseline);
    hide StandsFor, Counted;
    forall r, k: nat | r in records && StandsFor(env, r, sender, tag, k) ensures k < n {
      CountAbove(env, records, sender, tag, baseline, r, k);
    }
    if n > baseline {
      var r := CountReached(env, records, sender, tag, baseline);
    }
  }

  /** The pending count of the configured sender; the nonce its tooling signs next. */
  ghost function PendingCount(env: Env, c: Chain, sender: Address): nat {
    NextAbove(Counted(env, AllRecords(c), sender, Pending), Baseline(c, sender))
  }

  /** A source counts as pending from the moment it is received. */
  lemma ReceivedIsPending(env: Env, c: Chain, owner: Owner, raw: Raw, sender: Address, nonce: nat)
    requires Journal.Receive(env, c, owner, raw).Ok? && Keccak(env, raw) !in c.records
    requires Decode(env, raw) == Some(Source(sender, nonce))
    ensures nonce < PendingCount(env, Journal.Receive(env, c, owner, raw).value.0, sender)
  {
    var h, d := Keccak(env, raw), Journal.Receive(env, c, owner, raw).value.0;
    hide Journal.JournalValid;
    assert d.records[h] in AllRecords(d) && StandsFor(env, d.records[h], sender, Pending, nonce);
    CountAbove(env, AllRecords(d), sender, Pending, Baseline(d, sender), d.records[h], nonce);
  }

  /** And as spent from the moment it is confirmed, or failed with its receipt. */
  lemma FinishedIsSpent(env: Env, c: Chain, h: Hash, sender: Address, nonce: nat)
    requires h in c.records && Spends(c.records[h], sender, nonce)
    ensures nonce < LatestCount(env, c, sender)
  {
    assert c.records[h] in AllRecords(c) && StandsFor(env, c.records[h], sender, Latest, nonce);
    CountAbove(env, AllRecords(c), sender, Latest, Baseline(c, sender), c.records[h], nonce);
  }

  // ---- The count along a run of the protocol ----

  function Baseline(c: Chain, sender: Address): nat {
    if sender in c.baselines then c.baselines[sender] else 0
  }

  function AllRecords(c: Chain): set<Record> {
    set h | h in c.records :: c.records[h]
  }

  /** The latest count of the configured sender; the nonce the queue expects next. */
  ghost function LatestCount(env: Env, c: Chain, sender: Address): nat {
    NextAbove(Counted(env, AllRecords(c), sender, Latest), Baseline(c, sender))
  }

  lemma LatestAdvances(env: Env, c: Chain, d: Chain, sender: Address)
    requires Protocol.RecordsStay(c, d) && Climbs(c, d)
    ensures LatestCount(env, c, sender) <= LatestCount(env, d, sender)
  {
    hide SnapshotsClimb, DescriptorsClimb;
    var few, many := AllRecords(c), AllRecords(d);
    forall r, n | r in few && Counts(env, r, sender, Latest, n) ensures r in many && Counts(env, r, sender, Latest, n) {
      FinalizedStays(c, d, r);
    }
    CountedGrows(env, few, sender, Latest, many, Latest);
    NextMonotone(Counted(env, few, sender, Latest), Baseline(c, sender), Counted(env, many, sender, Latest), Baseline(d, sender));
  }

  lemma FinalizedStays(c: Chain, d: Chain, r: Record)
    requires Protocol.RecordsStay(c, d) && r in AllRecords(c) && Finalized(r)
    ensures r in AllRecords(d)
  {
    var h :| h in c.records && c.records[h] == r;
    assert Protocol.RecordStays(c.records[h], d.records[h]);
  }

  /** While no commit is lost, baselines set on the way included, the latest count never decreases along a run. */
  lemma LatestNeverDecreases(env: Env, owner: Owner, moves: seq<Runs.Move>, i: nat, sender: Address)
    requires i <= |moves| && Runs.KeepsCommits(env, owner, moves, i)
    ensures LatestCount(env, Runs.Run(env, owner, moves[..i]).system.chain, sender)
            <= LatestCount(env, Runs.Run(env, owner, moves).system.chain, sender)
  {
    Runs.RunOnlyAdvances(env, owner, moves, i);
    hide Runs.Run, Climbs, Protocol.RecordsStay, LatestCount, Runs.KeepsCommits;
    LatestAdvances(env, Runs.Run(env, owner, moves[..i]).system.chain, Runs.Run(env, owner, moves).system.chain, sender);
  }

  /** The latest count is above the baseline only because the nonce just below it is spent. */
  lemma LatestIsSpent(env: Env, c: Chain, sender: Address) returns (h: Hash)
    requires LatestCount(env, c, sender) > Baseline(c, sender)
    ensures h in c.records && c.records[h].context.Some? && Finalized(c.records[h])
    ensures c.records[h].context.value.from == sender
    ensures c.records[h].context.value.nonce == LatestCount(env, c, sender) - 1
  {
    var n := LatestCount(env, c, sender) - 1;
    assert CountedIn(env, AllRecords(c), sender, Latest, n);
    var r :| r in AllRecords(c) && Counts(env, r, sender, Latest, n);
    h :| h in c.records && c.records[h] == r;
  }
}
