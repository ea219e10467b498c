/** The durable address tables of rpc-src/address-map.ts and the rules under which they change. */
module AddressMap {
  import opened Wrappers
  import opened Addresses
  import opened ChainState

  /** `n` has every entry of `m`, unaltered. */
  predicate Extends<K, V(==)>(m: map<K, V>, n: map<K, V>) {
    forall k :: k in m ==> k in n && n[k] == m[k]
  }

  // ---- What a well-formed table is ----

  predicate Canonical(m: Mapping) {
    NonZero(m.predicted) && NonZero(m.actual) && NonZero(m.creator) && NonZero(m.sender)
  }

  predicate CanonicalRecords(byPredicted: map<Address, Mapping>) {
    forall p :: p in byPredicted ==> byPredicted[p].predicted == p && Canonical(byPredicted[p])
  }

  predicate Reversed(byPredicted: map<Address, Mapping>, byActual: map<Address, Address>) {
    forall p :: p in byPredicted ==> byPredicted[p].actual in byActual && byActual[byPredicted[p].actual] == p
  }

  /** `byActual` is the inverse of the actual addresses in `byPredicted`: nothing missing, nothing more. */
  predicate Inverse(byPredicted: map<Address, Mapping>, byActual: map<Address, Address>) {
    && Reversed(byPredicted, byActual)
    && (forall a :: a in byActual ==> byActual[a] in byPredicted && byPredicted[byActual[a]].actual == a)
  }

  predicate IndexesValid(c: Chain) {
    CanonicalRecords(c.byPredicted) && Inverse(c.byPredicted, c.byActual)
  }

  predicate KeyedMetadata(metadata: map<Address, Metadata>) {
    forall p :: p in metadata ==> metadata[p].predicted == p && NonZero(p)
  }

  /** Metadata belongs to mapped predicted addresses only. */
  predicate MetadataValid(c: Chain) {
    KeyedMetadata(c.metadata) && c.metadata.Keys <= c.byPredicted.Keys
  }

  predicate SnapshotsValid(c: Chain) {
    KeyedSnapshots(c.snapshots)
  }

  predicate KeyedSnapshots(snapshots: map<Hash, Snapshot>) {
    forall h :: h in snapshots ==> snapshots[h].provenance == h
  }

  /** An incomplete capture carries no descriptors; widths are positive. */
  predicate WellFormedDescriptors(r: DescriptorRecord) {
    && NonZero(r.predicted)
    && (forall k :: 0 <= k < |r.descriptors| ==> r.descriptors[k].length > 0)
    && (!r.complete ==> r.descriptors == [])
  }

  predicate KeyedDescriptors(descriptors: map<Address, DescriptorRecord>) {
    forall p :: p in descriptors ==> descriptors[p].predicted == p && WellFormedDescriptors(descriptors[p])
  }

  /** Descriptors belong to mapped predicted addresses only. */
  predicate DescriptorsValid(c: Chain) {
    KeyedDescriptors(c.descriptors) && c.descriptors.Keys <= c.byPredicted.Keys
  }

  predicate NonZeroKeys(baselines: map<Address, nat>) {
    forall s :: s in baselines ==> NonZero(s)
  }

  predicate BaselinesValid(c: Chain) {
    NonZeroKeys(c.baselines)
  }

  predicate TablesValid(c: Chain) {
    IndexesValid(c) && MetadataValid(c) && SnapshotsValid(c) && DescriptorsValid(c) && BaselinesValid(c)
  }

  // ---- The index checker ----

  datatype Verdict = Accepted | RejectedRecord | RejectedCount | RejectedReverse

  lemma {:induction false} SubsetOfSameSize(a: set<Address>, b: set<Address>)
    requires a <= b && |a| == |b|
    ensures a == b
  {
    if a != {} {
      var x :| x in a;
      SubsetOfSameSize(a - {x}, b - {x});
    } else {
      assert b == {};
    }
  }

  /** The first scan: every record is canonical, new and found again in the reverse index. */
  method ScanPredicted(byPredicted: map<Address, Mapping>, byActual: map<Address, Address>)
    returns (ok: bool, seen: set<Address>)
    ensures ok <==> CanonicalRecords(byPredicted) && Reversed(byPredicted, byActual)
    ensures ok ==> seen == set p | p in byPredicted :: byPredicted[p].actual
  {
    seen := {};
    var done: set<Address> := {};
    while done != byPredicted.Keys
      invariant done <= byPredicted.Keys
      invariant seen == set p | p in done :: byPredicted[p].actual
      invariant forall p :: p in done ==>
        && byPredicted[p].predicted == p && Canonical(byPredicted[p])
        && byPredicted[p].actual in byActual && byActual[byPredicted[p].actual] == p
      decreases byPredicted.Keys - done
    {
      assert byPredicted.Keys - done != {};
      var p :| p in byPredicted.Keys - done;
      var record := byPredicted[p];
      if !Canonical(record) || record.predicted != p || record.actual in seen {
        return false, seen;
      }
      if record.actual !in byActual || byActual[record.actual] != p {
        return false, seen;
      }
      seen := seen + {record.actual};
      done := done + {p};
    }
    return true, seen;
  }

  /** The second scan: every reverse entry leads to a record that leads back. */
  method ScanActual(byPredicted: map<Address, Mapping>, byActual: map<Address, Address>) returns (ok: bool)
    ensures ok <==> forall a :: a in byActual ==> byActual[a] in byPredicted && byPredicted[byActual[a]].actual == a
  {
    var done: set<Address> := {};
    while done != byActual.Keys
      invariant done <= byActual.Keys
      invariant forall a :: a in done ==> byActual[a] in byPredicted && byPredicted[byActual[a]].actual == a
      decreases byActual.Keys - done
    {
      assert byActual.Keys - done != {};
      var a :| a in byActual.Keys - done;
      if byActual[a] !in byPredicted || byPredicted[byActual[a]].actual != a {
        return false;
      }
      done := done + {a};
    }
    return true;
  }

  lemma FullReverseInverts(byPredicted: map<Address, Mapping>, byActual: map<Address, Address>, seen: set<Address>)
    requires Reversed(byPredicted, byActual) && seen == set p | p in byPredicted :: byPredicted[p].actual
    ensures |byActual.Keys| == |seen| <==> Inverse(byPredicted, byActual)
  {
    assert seen <= byActual.Keys;
    if |byActual.Keys| == |seen| {
      SubsetOfSameSize(seen, byActual.Keys);
    }
    if Inverse(byPredicted, byActual) {
      assert byActual.Keys == seen;
    }
  }

  /**
   * The two scans and the count check in the order the program makes them. It accepts exactly the
   * tables whose records are canonical and whose reverse index is precisely the inverse; and since
   * the count already decides, its second scan never rejects anything.
   */
  method RequireIndexes(byPredicted: map<Address, Mapping>, byActual: map<Address, Address>) returns (verdict: Verdict)
    ensures verdict == Accepted <==> CanonicalRecords(byPredicted) && Inverse(byPredicted, byActual)
    ensures verdict != RejectedReverse
  {
    var ok, seen := ScanPredicted(byPredicted, byActual);
    if !ok {
      return RejectedRecord;
    }
    FullReverseInverts(byPredicted, byActual, seen);
    if |byActual.Keys| != |seen| {
      return RejectedCount;
    }
    ok := ScanActual(byPredicted, byActual);
    return if ok then Accepted else RejectedReverse;
  }

  // ---- The setters ----

  function SetMapping(c: Chain, m: Mapping): Result<Chain, Code> {
    if !Canonical(m) then Err(InvalidMapping)
    else if !IndexesValid(c) then Err(CorruptIndexes)
    else if m.predicted in c.byPredicted then
      var existing := c.byPredicted[m.predicted];
      if existing.actual != m.actual then Err(PredictedConflict)
      else if existing != m then Err(ProvenanceConflict)
      else Ok(c)
    else if m.actual in c.byActual then Err(ActualConflict)
    else Ok(c.(byPredicted := c.byPredicted[m.predicted := m], byActual := c.byActual[m.actual := m.predicted]))
  }

  function SetMetadata(c: Chain, m: Metadata): Result<Chain, Code> {
    if !NonZero(m.predicted) then Err(InvalidMetadata)
    else if !IndexesValid(c) then Err(CorruptIndexes)
    else if m.predicted !in c.byPredicted then Err(MetadataWithoutMapping)
    else if !MetadataValid(c) then Err(CorruptMetadata)
    else if m.predicted in c.metadata then
      if c.metadata[m.predicted] != m then Err(MetadataConflict) else Ok(c)
    else Ok(c.(metadata := c.metadata[m.predicted := m]))
  }

  /** An envelope may gain its offsets once; any other difference is refused. */
  function SetSnapshot(c: Chain, s: Snapshot): Result<Chain, Code> {
    if !SnapshotsValid(c) then Err(CorruptSnapshots)
    else if s.provenance in c.snapshots then
      var existing := c.snapshots[s.provenance];
      if existing == s then Ok(c)
      else if existing.references.None? != s.references.None? && existing.envelope == s.envelope then
        if existing.references.None? then Ok(c.(snapshots := c.snapshots[s.provenance := s])) else Ok(c)
      else Err(SnapshotConflict)
    else Ok(c.(snapshots := c.snapshots[s.provenance := s]))
  }

  /** A pending capture may be completed; a completed one never changes again. */
  function SetDescriptors(c: Chain, r: DescriptorRecord): Result<Chain, Code> {
    if !WellFormedDescriptors(r) then Err(InvalidDescriptors)
    else if !IndexesValid(c) then Err(CorruptIndexes)
    else if r.predicted !in c.byPredicted then Err(DescriptorsWithoutMapping)
    else if !DescriptorsValid(c) then Err(CorruptDescriptors)
    else if r.predicted in c.descriptors && c.descriptors[r.predicted].complete then
      if !r.complete then Err(DescriptorRegress)
      else if c.descriptors[r.predicted] != r then Err(DescriptorConflict)
      else Ok(c)
    else if r.predicted in c.descriptors && !r.complete then Ok(c)
    else Ok(c.(descriptors := c.descriptors[r.predicted := r]))
  }

  function SetBaseline(c: Chain, sender: Address, nonce: nat): Result<Chain, Code> {
    if !NonZero(sender) then Err(InvalidBaseline)
    else if !BaselinesValid(c) then Err(CorruptBaselines)
    else if sender in c.baselines then
      if c.baselines[sender] != nonce then Err(BaselineConflict) else Ok(c)
    else Ok(c.(baselines := c.baselines[sender := nonce]))
  }

  // ---- Lookups ----

  function ToActual(c: Chain, predicted: Address): Option<Address> {
    if predicted in c.byPredicted then Some(c.byPredicted[predicted].actual) else None
  }

  function ToPredicted(c: Chain, actual: Address): Option<Address> {
    if actual in c.byActual then Some(c.byActual[actual]) else None
  }

  /** Metadata is found under either face of a mapped address. */
  function ResolveMetadata(c: Chain, a: Address): Option<Metadata> {
    var predicted := if a in c.byPredicted then Some(a) else ToPredicted(c, a);
    if predicted.Some? && predicted.value in c.metadata then Some(c.metadata[predicted.value]) else None
  }

  function ResolveDescriptors(c: Chain, a: Address): Option<DescriptorRecord> {
    var predicted := if a in c.byPredicted then Some(a) else ToPredicted(c, a);
    if predicted.Some? && predicted.value in c.descriptors then Some(c.descriptors[predicted.value]) else None
  }

  /** The two faces of a mapped address lead to each other, and nothing else leads to them. */
  lemma LookupsInvert(c: Chain, p: Address, a: Address)
    requires IndexesValid(c)
    ensures ToActual(c, p) == Some(a) <==> ToPredicted(c, a) == Some(p)
    ensures ToActual(c, p) == Some(a) <==> p in c.byPredicted && c.byPredicted[p].actual == a
  {
  }

  /** The address is this predicted one, or the actual one that stands for it and is no predicted address itself. */
  predicate FaceOf(c: Chain, a: Address, predicted: Address) {
    || a == predicted
    || (a !in c.byPredicted && predicted in c.byPredicted && c.byPredicted[predicted].actual == a)
  }

  /** Metadata and descriptors are found under either face of the address they belong to, and under no other. */
  lemma FoundByFace(c: Chain, a: Address, m: Metadata, r: DescriptorRecord)
    requires IndexesValid(c) && MetadataValid(c) && DescriptorsValid(c)
    ensures ResolveMetadata(c, a) == Some(m)
            <==> m.predicted in c.metadata && c.metadata[m.predicted] == m && FaceOf(c, a, m.predicted)
    ensures ResolveDescriptors(c, a) == Some(r)
            <==> r.predicted in c.descriptors && c.descriptors[r.predicted] == r && FaceOf(c, a, r.predicted)
  {
    hide WellFormedDescriptors, CanonicalRecords;
  }

  lemma NewPairKeepsInverse(byPredicted: map<Address, Mapping>, byActual: map<Address, Address>, m: Mapping)
    requires CanonicalRecords(byPredicted) && Inverse(byPredicted, byActual) && Canonical(m)
    requires m.predicted !in byPredicted && m.actual !in byActual
    ensures CanonicalRecords(byPredicted[m.predicted := m])
    ensures Inverse(byPredicted[m.predicted := m], byActual[m.actual := m.predicted])
    ensures Extends(byPredicted, byPredicted[m.predicted := m]) && Extends(byActual, byActual[m.actual := m.predicted])
  {
    hide Canonical;
  }

  /** A mapping is accepted exactly when it is new on both sides or already there word for word. */
  lemma SetMappingExact(c: Chain, m: Mapping)
    requires IndexesValid(c)
    ensures SetMapping(c, m).Ok? <==>
              Canonical(m) && ((m.predicted !in c.byPredicted && m.actual !in c.byActual)
                               || (m.predicted in c.byPredicted && c.byPredicted[m.predicted] == m))
  {
    hide CanonicalRecords, Canonical;
    if m.predicted in c.byPredicted && c.byPredicted[m.predicted] == m {
      assert Canonical(m) by {
        AllCanonical(c.byPredicted, m.predicted);
      }
    }
  }

  lemma AllCanonical(byPredicted: map<Address, Mapping>, p: Address)
    requires CanonicalRecords(byPredicted) && p in byPredicted
    ensures Canonical(byPredicted[p]) && byPredicted[p].predicted == p
  {
  }

  /** An accepted mapping adds exactly its own pair and alters no existing one. */
  lemma SetMappingAdds(c: Chain, m: Mapping)
    requires SetMapping(c, m).Ok?
    ensures var d := SetMapping(c, m).value;
            && IndexesValid(c) && IndexesValid(d)
            && d == c.(byPredicted := c.byPredicted[m.predicted := m], byActual := c.byActual[m.actual := m.predicted])
            && Extends(c.byPredicted, d.byPredicted) && Extends(c.byActual, d.byActual)
  {
    if m.predicted in c.byPredicted {
      SamePair(c.byPredicted, c.byActual, m);
    } else {
      hide CanonicalRecords, Inverse;
      NewPairKeepsInverse(c.byPredicted, c.byActual, m);
    }
  }

  lemma SamePair(byPredicted: map<Address, Mapping>, byActual: map<Address, Address>, m: Mapping)
    requires Inverse(byPredicted, byActual) && m.predicted in byPredicted && byPredicted[m.predicted] == m
    ensures byPredicted[m.predicted := m] == byPredicted && byActual[m.actual := m.predicted] == byActual
  {
    hide Inverse;
    assert m.actual in byActual && byActual[m.actual] == m.predicted by {
      PairPresent(byPredicted, byActual, m.predicted);
    }
  }

  lemma PairPresent(byPredicted: map<Address, Mapping>, byActual: map<Address, Address>, p: Address)
    requires Inverse(byPredicted, byActual) && p in byPredicted
    ensures byPredicted[p].actual in byActual && byActual[byPredicted[p].actual] == p
  {
  }

  // ---- The tables only climb ----

  datatype TableWrite =
    | WriteMapping(mapping: Mapping)
    | WriteMetadata(metadata: Metadata)
    | WriteSnapshot(snapshot: Snapshot)
    | WriteDescriptors(record: DescriptorRecord)
    | WriteBaseline(sender: Address, nonce: nat)

  function Write(c: Chain, w: TableWrite): Result<Chain, Code> {
    match w
    case WriteMapping(m) => SetMapping(c, m)
    case WriteMetadata(m) => SetMetadata(c, m)
    case WriteSnapshot(s) => SetSnapshot(c, s)
    case WriteDescriptors(r) => SetDescriptors(c, r)
    case WriteBaseline(s, n) => SetBaseline(c, s, n)
  }

  /** The chain after a write, where a refused write leaves everything as it was. */
  function AfterWrite(c: Chain, w: TableWrite): Chain {
    match Write(c, w)
    case Ok(d) => d
    case Err(e) => c
  }

  function AfterWrites(c: Chain, ws: seq<TableWrite>): Chain {
    if ws == [] then c else AfterWrite(AfterWrites(c, ws[..|ws| - 1]), ws[|ws| - 1])
  }

  /** A stored envelope stays, except that it may gain the offsets it lacked. */
  predicate SnapshotsClimb(m: map<Hash, Snapshot>, n: map<Hash, Snapshot>) {
    forall h :: h in m ==>
      && h in n
      && (n[h] == m[h]
          || (m[h].references.None? && n[h].references.Some? && n[h] == m[h].(references := n[h].references)))
  }

  /** A stored capture stays, except that a pending one may be completed. */
  predicate DescriptorsClimb(m: map<Address, DescriptorRecord>, n: map<Address, DescriptorRecord>) {
    forall p :: p in m ==> p in n && (n[p] == m[p] || (!m[p].complete && n[p].complete))
  }

  /** Mappings, metadata and baselines are set once; snapshots and descriptors climb. */
  predicate Climbs(c: Chain, d: Chain) {
    && Extends(c.byPredicted, d.byPredicted) && Extends(c.byActual, d.byActual)
    && Extends(c.metadata, d.metadata)
    && SnapshotsClimb(c.snapshots, d.snapshots)
    && DescriptorsClimb(c.descriptors, d.descriptors)
    && Extends(c.baselines, d.baselines)
  }

  lemma ClimbsTransitive(c: Chain, d: Chain, e: Chain)
    requires Climbs(c, d) && Climbs(d, e)
    ensures Climbs(c, e)
  {
  }

  lemma ClimbsReflexive(c: Chain)
    ensures Climbs(c, c)
  {
  }

  /** Two chains that differ in nothing but counters and journal have the same tables. */
  predicate SameTables(c: Chain, d: Chain) {
    d == c.(counters := d.counters, records := d.records)
  }

  lemma SameTablesClimb(c: Chain, d: Chain)
    requires TablesValid(c) && SameTables(c, d)
    ensures TablesValid(d) && Climbs(c, d)
  {
    hide CanonicalRecords, Inverse, KeyedMetadata, KeyedSnapshots, KeyedDescriptors, NonZeroKeys;
  }

  lemma MappingClimbs(c: Chain, m: Mapping)
    requires TablesValid(c) && SetMapping(c, m).Ok?
    ensures TablesValid(SetMapping(c, m).value) && Climbs(c, SetMapping(c, m).value)
  {
    hide IndexesValid, SetMapping, KeyedMetadata, KeyedSnapshots, KeyedDescriptors, NonZeroKeys;
    SetMappingAdds(c, m);
    ClimbsReflexive(c);
  }

  lemma MetadataClimbs(c: Chain, m: Metadata)
    requires TablesValid(c) && SetMetadata(c, m).Ok?
    ensures TablesValid(SetMetadata(c, m).value) && Climbs(c, SetMetadata(c, m).value)
  {
    ClimbsReflexive(c);
    hide SnapshotsClimb, DescriptorsClimb;
    hide CanonicalRecords, Inverse, KeyedSnapshots, KeyedDescriptors, NonZeroKeys;
  }

  lemma SnapshotClimbs(c: Chain, s: Snapshot)
    requires TablesValid(c) && SetSnapshot(c, s).Ok?
    ensures TablesValid(SetSnapshot(c, s).value) && Climbs(c, SetSnapshot(c, s).value)
  {
    ClimbsReflexive(c);
    hide Extends, DescriptorsClimb;
    hide CanonicalRecords, Inverse, KeyedMetadata, KeyedDescriptors, NonZeroKeys;
  }

  lemma DescriptorClimbs(c: Chain, r: DescriptorRecord)
    requires TablesValid(c) && SetDescriptors(c, r).Ok?
    ensures TablesValid(SetDescriptors(c, r).value) && Climbs(c, SetDescriptors(c, r).value)
  {
    ClimbsReflexive(c);
    hide Extends, SnapshotsClimb;
    hide CanonicalRecords, Inverse, KeyedMetadata, KeyedSnapshots, NonZeroKeys;
    hide WellFormedDescriptors;
  }

  lemma BaselineClimbs(c: Chain, s: Address, n: nat)
    requires TablesValid(c) && SetBaseline(c, s, n).Ok?
    ensures TablesValid(SetBaseline(c, s, n).value) && Climbs(c, SetBaseline(c, s, n).value)
  {
    ClimbsReflexive(c);
    hide SnapshotsClimb, DescriptorsClimb;
    hide CanonicalRecords, Inverse, KeyedMetadata, KeyedSnapshots, KeyedDescriptors;
  }

  /** One setter call keeps the tables well-formed, only climbs, and leaves the journal alone. */
  lemma WriteClimbs(c: Chain, w: TableWrite)
    requires TablesValid(c)
    ensures TablesValid(AfterWrite(c, w)) && Climbs(c, AfterWrite(c, w))
  {
    hide IndexesValid, MetadataValid, SnapshotsValid, DescriptorsValid, BaselinesValid, Climbs;
    hide SetMapping, SetMetadata, SetSnapshot, SetDescriptors, SetBaseline;
    ClimbsReflexive(c);
    if Write(c, w).Ok? {
      match w
      case WriteMapping(m) => MappingClimbs(c, m);
      case WriteMetadata(m) => MetadataClimbs(c, m);
      case WriteSnapshot(s) => SnapshotClimbs(c, s);
      case WriteDescriptors(r) => DescriptorClimbs(c, r);
      case WriteBaseline(s, n) => BaselineClimbs(c, s, n);
    }
  }

  /** What an accepted write asks for is in the tables afterwards; a fuller snapshot or capture may already be. */
  predicate WriteShown(c: Chain, w: TableWrite, d: Chain) {
    match w
    case WriteMapping(m) =>
      m.predicted in d.byPredicted && d.byPredicted[m.predicted] == m && m.actual in d.byActual && d.byActual[m.actual] == m.predicted
    case WriteMetadata(m) => m.predicted in d.metadata && d.metadata[m.predicted] == m
    case WriteSnapshot(s) =>
      && s.provenance in d.snapshots && d.snapshots[s.provenance].envelope == s.envelope
      && (s.references.Some? ==> d.snapshots[s.provenance].references.Some?)
      && (d.snapshots[s.provenance] == s || (s.provenance in c.snapshots && d == c))
    case WriteDescriptors(r) =>
      && r.predicted in d.descriptors
      && (r.complete ==> d.descriptors[r.predicted] == r)
      && (!r.complete ==> d.descriptors[r.predicted] == r || (r.predicted in c.descriptors && d == c))
    case WriteBaseline(s, n) => s in d.baselines && d.baselines[s] == n
  }

  lemma MappingShown(c: Chain, m: Mapping)
    requires SetMapping(c, m).Ok?
    ensures WriteShown(c, WriteMapping(m), SetMapping(c, m).value)
  {
    SetMappingAdds(c, m);
    hide SetMapping, IndexesValid;
  }

  lemma MetadataShown(c: Chain, m: Metadata)
    requires SetMetadata(c, m).Ok?
    ensures WriteShown(c, WriteMetadata(m), SetMetadata(c, m).value)
  {
    hide IndexesValid, MetadataValid;
  }

  lemma SnapshotShown(c: Chain, s: Snapshot)
    requires SetSnapshot(c, s).Ok?
    ensures WriteShown(c, WriteSnapshot(s), SetSnapshot(c, s).value)
  {
    hide SnapshotsValid;
  }

  lemma DescriptorsShown(c: Chain, r: DescriptorRecord)
    requires SetDescriptors(c, r).Ok?
    ensures WriteShown(c, WriteDescriptors(r), SetDescriptors(c, r).value)
  {
    hide IndexesValid, DescriptorsValid, WellFormedDescriptors;
  }

  lemma BaselineShown(c: Chain, s: Address, n: nat)
    requires SetBaseline(c, s, n).Ok?
    ensures WriteShown(c, WriteBaseline(s, n), SetBaseline(c, s, n).value)
  {
    hide BaselinesValid;
  }

  /** An accepted write is not lost: its own entry is there, under the rules that let it be there already. */
  lemma AcceptedWriteShown(c: Chain, w: TableWrite)
    requires Write(c, w).Ok?
    ensures WriteShown(c, w, Write(c, w).value)
  {
    hide SetMapping, SetMetadata, SetSnapshot, SetDescriptors, SetBaseline, WriteShown;
    match w
    case WriteMapping(m) => MappingShown(c, m);
    case WriteMetadata(m) => MetadataShown(c, m);
    case WriteSnapshot(s) => SnapshotShown(c, s);
    case WriteDescriptors(r) => DescriptorsShown(c, r);
    case WriteBaseline(s, n) => BaselineShown(c, s, n);
  }

  // ---- Exactly when a write is accepted, and what it makes of the tables ----

  /** The two envelopes are the same, and so are their offsets, unless one of them has none yet. */
  predicate CompatiblePair(a: Snapshot, b: Snapshot) {
    a.provenance == b.provenance ==>
      a.envelope == b.envelope && (a.references == b.references || a.references.None? || b.references.None?)
  }

  /** A write is about a mapped address, and disagrees with nothing that is there for good. */
  predicate Agrees(c: Chain, w: TableWrite) {
    match w
    case WriteMapping(m) =>
      && Canonical(m)
      && (if m.predicted in c.byPredicted then c.byPredicted[m.predicted] == m else m.actual !in c.byActual)
    case WriteMetadata(m) =>
      NonZero(m.predicted) && m.predicted in c.byPredicted && (m.predicted in c.metadata ==> c.metadata[m.predicted] == m)
    case WriteSnapshot(s) => s.provenance in c.snapshots ==> CompatiblePair(c.snapshots[s.provenance], s)
    case WriteDescriptors(r) =>
      && WellFormedDescriptors(r) && r.predicted in c.byPredicted
      && (r.predicted in c.descriptors && c.descriptors[r.predicted].complete ==> c.descriptors[r.predicted] == r)
    case WriteBaseline(s, n) => NonZero(s) && (s in c.baselines ==> c.baselines[s] == n)
  }

  /** Of two compatible envelopes the one with offsets, and the newer if that decides nothing. */
  function FullerSnapshot(stored: map<Hash, Snapshot>, s: Snapshot): Snapshot {
    if s.provenance in stored && s.references.None? then stored[s.provenance] else s
  }

  /** A pending capture gives way to a complete one and to nothing else. */
  function FullerRecord(stored: map<Address, DescriptorRecord>, r: DescriptorRecord): DescriptorRecord {
    if r.predicted in stored && !r.complete then stored[r.predicted] else r
  }

  function Written(c: Chain, w: TableWrite): Chain {
    match w
    case WriteMapping(m) => c.(byPredicted := c.byPredicted[m.predicted := m], byActual := c.byActual[m.actual := m.predicted])
    case WriteMetadata(m) => c.(metadata := c.metadata[m.predicted := m])
    case WriteSnapshot(s) => c.(snapshots := c.snapshots[s.provenance := FullerSnapshot(c.snapshots, s)])
    case WriteDescriptors(r) => c.(descriptors := c.descriptors[r.predicted := FullerRecord(c.descriptors, r)])
    case WriteBaseline(s, n) => c.(baselines := c.baselines[s := n])
  }

  lemma MappingWritten(c: Chain, m: Mapping)
    requires IndexesValid(c)
    ensures SetMapping(c, m).Ok? <==> Agrees(c, WriteMapping(m))
    ensures SetMapping(c, m).Ok? ==> SetMapping(c, m).value == Written(c, WriteMapping(m))
  {
    SetMappingExact(c, m);
    if SetMapping(c, m).Ok? {
      SetMappingAdds(c, m);
    }
    hide IndexesValid, SetMapping, Canonical;
  }

  lemma SnapshotWritten(c: Chain, s: Snapshot)
    requires SnapshotsValid(c)
    ensures SetSnapshot(c, s).Ok? <==> Agrees(c, WriteSnapshot(s))
    ensures SetSnapshot(c, s).Ok? ==> SetSnapshot(c, s).value == Written(c, WriteSnapshot(s))
  {
    if s.provenance in c.snapshots {
      assert c.snapshots[s.provenance := c.snapshots[s.provenance]] == c.snapshots;
    }
  }

  lemma RecordWritten(c: Chain, r: DescriptorRecord)
    requires IndexesValid(c) && DescriptorsValid(c)
    ensures SetDescriptors(c, r).Ok? <==> Agrees(c, WriteDescriptors(r))
    ensures SetDescriptors(c, r).Ok? ==> SetDescriptors(c, r).value == Written(c, WriteDescriptors(r))
  {
    hide IndexesValid, DescriptorsValid, WellFormedDescriptors;
    if r.predicted in c.descriptors {
      assert c.descriptors[r.predicted := c.descriptors[r.predicted]] == c.descriptors;
    }
  }

  lemma EntryWritten(c: Chain, w: TableWrite)
    requires IndexesValid(c) && MetadataValid(c) && BaselinesValid(c) && (w.WriteMetadata? || w.WriteBaseline?)
    ensures Write(c, w).Ok? <==> Agrees(c, w)
    ensures Write(c, w).Ok? ==> Write(c, w).value == Written(c, w)
  {
    hide IndexesValid, MetadataValid, BaselinesValid;
    if w.WriteMetadata? && w.metadata.predicted in c.metadata {
      assert c.metadata[w.metadata.predicted := c.metadata[w.metadata.predicted]] == c.metadata;
    }
    if w.WriteBaseline? && w.sender in c.baselines {
      assert c.baselines[w.sender := c.baselines[w.sender]] == c.baselines;
    }
  }

  /**
   * On well-formed tables a write is accepted exactly when it agrees with them, and its own entry is then
   * the one it asks for, or the fuller one that was there: a mapping new on both sides, metadata and
   * captures of mapped addresses, a pending capture completed, offsets gained.
   */
  lemma WriteExact(c: Chain, w: TableWrite)
    requires TablesValid(c)
    ensures Write(c, w).Ok? <==> Agrees(c, w)
    ensures Write(c, w).Ok? ==> Write(c, w).value == Written(c, w)
  {
    hide IndexesValid, MetadataValid, SnapshotsValid, DescriptorsValid, BaselinesValid;
    hide SetMapping, SetMetadata, SetSnapshot, SetDescriptors, SetBaseline, Agrees, Written;
    match w
    case WriteMapping(m) => MappingWritten(c, m);
    case WriteSnapshot(s) => SnapshotWritten(c, s);
    case WriteDescriptors(r) => RecordWritten(c, r);
    case _ => EntryWritten(c, w);
  }

  lemma WriteKeepsJournal(c: Chain, w: TableWrite)
    ensures AfterWrite(c, w).records == c.records && AfterWrite(c, w).counters == c.counters
  {
    hide Canonical, WellFormedDescriptors, NonZero;
    hide IndexesValid, MetadataValid, SnapshotsValid, DescriptorsValid, BaselinesValid;
  }

  /** Over any sequence of setter calls the tables stay well-formed and only climb. */
  lemma {:induction false} WritesClimb(c: Chain, ws: seq<TableWrite>)
    requires TablesValid(c)
    ensures TablesValid(AfterWrites(c, ws)) && Climbs(c, AfterWrites(c, ws))
  {
    hide TablesValid, Climbs, AfterWrite;
    if ws == [] {
      ClimbsReflexive(c);
    } else {
      WritesClimb(c, ws[..|ws| - 1]);
      WriteClimbs(AfterWrites(c, ws[..|ws| - 1]), ws[|ws| - 1]);
      ClimbsTransitive(c, AfterWrites(c, ws[..|ws| - 1]), AfterWrites(c, ws));
    }
  }

  /** All of the first `k` writes, or the error of the first one refused. */
  function WriteAll(c: Chain, ws: seq<TableWrite>, k: nat): Result<Chain, Code>
    requires k <= |ws|
  {
    if k == 0 then Ok(c)
    else
      var before :- WriteAll(c, ws, k - 1);
      Write(before, ws[k - 1])
  }

  lemma {:induction false} WriteAllFails(c: Chain, ws: seq<TableWrite>, j: nat, k: nat)
    requires j <= k <= |ws| && WriteAll(c, ws, j).Err?
    ensures WriteAll(c, ws, k) == WriteAll(c, ws, j)
  {
    if j < k {
      WriteAllFails(c, ws, j, k - 1);
    }
  }

  /** Writes made in one transaction keep the tables well-formed and only climb, at every point of the way. */
  lemma {:induction false} WriteAllClimbs(c: Chain, ws: seq<TableWrite>, j: nat, k: nat)
    requires j <= k <= |ws| && WriteAll(c, ws, k).Ok? && TablesValid(c)
    ensures WriteAll(c, ws, j).Ok?
    ensures TablesValid(WriteAll(c, ws, j).value) && TablesValid(WriteAll(c, ws, k).value)
    ensures Climbs(WriteAll(c, ws, j).value, WriteAll(c, ws, k).value)
  {
    hide TablesValid, Climbs, Write;
    if k == 0 {
      ClimbsReflexive(c);
    } else {
      var before := WriteAll(c, ws, k - 1).value;
      WriteAllClimbs(c, ws, if j < k then j else k - 1, k - 1);
      WriteAccepted(before, ws[k - 1]);
      if j < k {
        ClimbsTransitive(WriteAll(c, ws, j).value, before, WriteAll(c, ws, k).value);
      } else {
        ClimbsReflexive(WriteAll(c, ws, k).value);
      }
    }
  }

  lemma WriteAccepted(c: Chain, w: TableWrite)
    requires TablesValid(c) && Write(c, w).Ok?
    ensures TablesValid(Write(c, w).value) && Climbs(c, Write(c, w).value)
  {
    WriteClimbs(c, w);
    hide TablesValid, Climbs, Write;
  }

  // ---- The order of compatible snapshot writes does not matter ----

  function AfterSnapshots(c: Chain, ws: seq<Snapshot>): Chain {
    if ws == [] then c else AfterWrite(AfterSnapshots(c, ws[..|ws| - 1]), WriteSnapshot(ws[|ws| - 1]))
  }

  /** The writes agree with each other and with what is stored, except about missing offsets. */
  predicate Compatible(c: Chain, ws: seq<Snapshot>) {
    && (forall i, j :: 0 <= i < |ws| && 0 <= j < |ws| ==> CompatiblePair(ws[i], ws[j]))
    && (forall i :: 0 <= i < |ws| && ws[i].provenance in c.snapshots ==>
          CompatiblePair(c.snapshots[ws[i].provenance], ws[i]))
  }

  function StoredAt(c: Chain, h: Hash): Option<Snapshot> {
    if h in c.snapshots then Some(c.snapshots[h]) else None
  }

  /** `o` is what one hash ends up with: an envelope that was offered, with offsets if any were. */
  predicate IsJoin(c: Chain, ws: seq<Snapshot>, h: Hash, o: Option<Snapshot>) {
    match o
    case None => StoredAt(c, h).None? && forall i :: 0 <= i < |ws| ==> ws[i].provenance != h
    case Some(s) =>
      && (s in ws || StoredAt(c, h) == o)
      && s.provenance == h
      && (s.references.None? ==>
            && (forall i :: 0 <= i < |ws| && ws[i].provenance == h ==> ws[i].references.None?)
            && (StoredAt(c, h).Some? ==> StoredAt(c, h).value.references.None?))
  }

  ghost predicate Joined(c: Chain, ws: seq<Snapshot>, d: Chain) {
    forall h :: IsJoin(c, ws, h, StoredAt(d, h))
  }

  lemma SnapshotAccepted(c: Chain, s: Snapshot, h: Hash)
    requires SnapshotsValid(c) && (StoredAt(c, s.provenance).Some? ==> CompatiblePair(StoredAt(c, s.provenance).value, s))
    ensures var d := AfterWrite(c, WriteSnapshot(s));
            && d == c.(snapshots := d.snapshots) && SnapshotsValid(d)
            && (h != s.provenance ==> StoredAt(d, h) == StoredAt(c, h))
            && (h == s.provenance ==>
                  StoredAt(d, h) == if StoredAt(c, h).Some? && s.references.None? then StoredAt(c, h) else Some(s))
  {
  }

  /** One more write takes the join of the earlier writes to the join of all of them. */
  lemma JoinStep(c: Chain, ws: seq<Snapshot>, h: Hash, o: Option<Snapshot>)
    requires |ws| > 0 && IsJoin(c, ws[..|ws| - 1], h, o)
    ensures var s := ws[|ws| - 1];
            IsJoin(c, ws, h, if h != s.provenance || (o.Some? && s.references.None?) then o else Some(s))
  {
    var most, s := ws[..|ws| - 1], ws[|ws| - 1];
    assert forall i :: 0 <= i < |ws| ==> ws[i] == s || (i < |most| && ws[i] == most[i]);
    assert s in ws && forall t :: t in most ==> t in ws;
  }

  lemma CompatiblePrefix(c: Chain, ws: seq<Snapshot>)
    requires |ws| > 0 && Compatible(c, ws)
    ensures Compatible(c, ws[..|ws| - 1])
  {
    var most := ws[..|ws| - 1];
    assert forall i :: 0 <= i < |most| ==> most[i] == ws[i];
  }

  lemma LastCompatible(c: Chain, ws: seq<Snapshot>, o: Option<Snapshot>)
    requires |ws| > 0 && Compatible(c, ws)
    requires IsJoin(c, ws[..|ws| - 1], ws[|ws| - 1].provenance, o)
    ensures o.Some? ==> CompatiblePair(o.value, ws[|ws| - 1])
  {
    var most, s := ws[..|ws| - 1], ws[|ws| - 1];
    if o.Some? && o.value in most {
      var i :| 0 <= i < |most| && most[i] == o.value;
      assert CompatiblePair(ws[i], s);
    }
  }

  lemma {:induction false} SnapshotsJoin(c: Chain, ws: seq<Snapshot>)
    requires SnapshotsValid(c) && Compatible(c, ws)
    ensures var d := AfterSnapshots(c, ws); d == c.(snapshots := d.snapshots) && SnapshotsValid(d) && Joined(c, ws, d)
  {
    hide SnapshotsValid, Compatible, CompatiblePair, AfterWrite, StoredAt;
    if ws == [] {
      StoredSelf(c);
    } else {
      var most, s := ws[..|ws| - 1], ws[|ws| - 1];
      CompatiblePrefix(c, ws);
      SnapshotsJoin(c, most);
      var b := AfterSnapshots(c, most);
      LastCompatible(c, ws, StoredAt(b, s.provenance));
      forall h ensures IsJoin(c, ws, h, StoredAt(AfterSnapshots(c, ws), h)) {
        SnapshotAccepted(b, s, h);
        JoinStep(c, ws, h, StoredAt(b, h));
      }
      SnapshotAccepted(b, s, s.provenance);
    }
  }

  lemma StoredSelf(c: Chain)
    requires SnapshotsValid(c)
    ensures Joined(c, [], c)
  {
  }

  /** Writing the same mutually compatible snapshots in any order gives the same table. */
  lemma SnapshotOrderIrrelevant(c: Chain, ws: seq<Snapshot>, vs: seq<Snapshot>)
    requires SnapshotsValid(c) && Compatible(c, ws)
    requires forall s :: s in ws <==> s in vs
    ensures AfterSnapshots(c, ws) == AfterSnapshots(c, vs)
  {
    CompatibleReordered(c, ws, vs);
    SnapshotsJoin(c, ws);
    SnapshotsJoin(c, vs);
    var d, e := AfterSnapshots(c, ws), AfterSnapshots(c, vs);
    hide Compatible, IsJoin, SnapshotsValid, AfterSnapshots;
    forall h ensures StoredAt(d, h) == StoredAt(e, h) {
      JoinUnique(c, ws, vs, h, StoredAt(d, h), StoredAt(e, h));
    }
    assert d.snapshots.Keys == e.snapshots.Keys by {
      forall h ensures h in d.snapshots <==> h in e.snapshots { assert StoredAt(d, h) == StoredAt(e, h); }
    }
    forall h | h in d.snapshots ensures d.snapshots[h] == e.snapshots[h] { assert StoredAt(d, h) == StoredAt(e, h); }
    assert d.snapshots == e.snapshots;
  }

  lemma CompatibleReordered(c: Chain, ws: seq<Snapshot>, vs: seq<Snapshot>)
    requires Compatible(c, ws) && forall s :: s in ws <==> s in vs
    ensures Compatible(c, vs)
  {
    hide CompatiblePair;
    forall i, j | 0 <= i < |vs| && 0 <= j < |vs| ensures CompatiblePair(vs[i], vs[j]) {
      assert vs[i] in ws && vs[j] in ws;
    }
    forall i | 0 <= i < |vs| && vs[i].provenance in c.snapshots
      ensures CompatiblePair(c.snapshots[vs[i].provenance], vs[i])
    {
      assert vs[i] in ws;
    }
  }

  lemma JoinUnique(c: Chain, ws: seq<Snapshot>, vs: seq<Snapshot>, h: Hash, o: Option<Snapshot>, p: Option<Snapshot>)
    requires Compatible(c, ws) && forall s :: s in ws <==> s in vs
    requires IsJoin(c, ws, h, o) && IsJoin(c, vs, h, p)
    ensures o == p
  {
    assert forall i :: 0 <= i < |vs| ==> vs[i] in ws;
    assert forall i :: 0 <= i < |ws| ==> ws[i] in vs;
  }
}
