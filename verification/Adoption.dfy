/**
 * Adopting a deployment that already exists (rpc-src/cli.ts) and reading its code afterwards
 * (rpc-src/handlers.ts). What the node and the verified artifact say are parameters.
 */
module Adoption {
  import opened Wrappers
  import opened Addresses
  import opened ChainState
  import opened AddressMap
  import opened Projection

  // ---- Reading code in the predicted world ----

  /** The immutable ranges and template hash of the artifact a deployment is bound to. */
  datatype CodeSource = CodeSource(ranges: seq<Range>, template: Hash)

  datatype ReadError = Unprojectable

  predicate IsProxy(kind: Kind) {
    kind == TransparentProxy || kind == BeaconProxy
  }

  function RequiredRole(kind: Kind): Role {
    if kind == TransparentProxy then AdminRole else BeaconRole
  }

  predicate HasRole(ds: seq<Descriptor>, role: Role) {
    exists i :: 0 <= i < |ds| && ds[i].role == role
  }

  predicate HasAddressWidthRange(ranges: seq<Range>) {
    exists i :: 0 <= i < |ranges| && AddressWidth(ranges[i])
  }

  function Projected(c: Chain, predicted: Address, code: Hex, ds: seq<Descriptor>): Result<Hex, ReadError> {
    match Project(code, ds, |ds|, predicted, c.byActual)
    case Ok(r) => Ok(r)
    case Err(_) => Err(Unprojectable)
  }

  /** A complete record is a commitment: it projects or the read fails. */
  function ReadComplete(
    env: Env, c: Chain, predicted: Address, kind: Kind, ds: seq<Descriptor>, code: Hex, source: Option<CodeSource>)
    : Result<Hex, ReadError>
  {
    if IsProxy(kind) && !HasRole(ds, RequiredRole(kind)) then
      if ds != [] || source.None? || HasAddressWidthRange(source.value.ranges) || CodeHash(env, code) != source.value.template
      then Err(Unprojectable)
      else Ok(code)
    else if ds == [] then Ok(code)
    else Projected(c, predicted, code, ds)
  }

  /** A pending or absent record is rebuilt from the served code; only a proxy fails when that cannot be done. */
  function ReadPending(env: Env, c: Chain, predicted: Address, kind: Kind, code: Hex, source: Option<CodeSource>)
    : Result<Hex, ReadError>
  {
    var raw := if IsProxy(kind) then Err(Unprojectable) else Ok(code);
    if source.None? || ToActual(c, predicted).None? then raw
    else
      match BoundAll(kind, ToActual(c, predicted).value, code, source.value.ranges, |source.value.ranges|)
      case Err(_) => raw
      case Ok(ds) =>
        if ds == [] then if IsProxy(kind) && CodeHash(env, code) != source.value.template then Err(Unprojectable) else Ok(code)
        else if IsProxy(kind) && !HasRole(ds, RequiredRole(kind)) then Err(Unprojectable)
        else
          match Project(code, ds, |ds|, predicted, c.byActual)
          case Ok(r) => Ok(r)
          case Err(_) => raw
  }

  function ProjectCodeImmutables(env: Env, c: Chain, predicted: Address, code: Hex, source: Option<CodeSource>)
    : Result<Hex, ReadError>
  {
    var metadata := ResolveMetadata(c, predicted);
    if metadata.None? || code == [] then Ok(code)
    else
      var record := ResolveDescriptors(c, predicted);
      if record.Some? && record.value.complete
      then ReadComplete(env, c, predicted, metadata.value.kind, record.value.descriptors, code, source)
      else ReadPending(env, c, predicted, metadata.value.kind, code, source)
  }

  /** The code has been projected, with the role's own window among those rewritten. */
  ghost predicate ShowsRole(c: Chain, predicted: Address, code: Hex, role: Role, r: Hex) {
    exists ds :: HasRole(ds, role) && Project(code, ds, |ds|, predicted, c.byActual) == Ok(r)
  }

  /**
   * A proxy's code is never served as it is while it may hold its controller's actual address: it is
   * projected, role window included, or it equals an artifact template that declares no such window.
   */
  lemma ProxyNeverServedRaw(env: Env, c: Chain, predicted: Address, code: Hex, source: Option<CodeSource>)
    requires ResolveMetadata(c, predicted).Some? && IsProxy(ResolveMetadata(c, predicted).value.kind) && code != []
    requires ProjectCodeImmutables(env, c, predicted, code, source).Ok?
    ensures var kind := ResolveMetadata(c, predicted).value.kind;
            var r := ProjectCodeImmutables(env, c, predicted, code, source).value;
            || ShowsRole(c, predicted, code, RequiredRole(kind), r)
            || (r == code && source.Some? && CodeHash(env, code) == source.value.template
                && !HasAddressWidthRange(source.value.ranges))
  {
    var kind := ResolveMetadata(c, predicted).value.kind;
    var record := ResolveDescriptors(c, predicted);
    hide Project, HasRole, HasAddressWidthRange, ResolveMetadata, ResolveDescriptors, ToActual;
    if record.Some? && record.value.complete {
      EmptyHasNoRole(RequiredRole(kind));
    } else {
      var own := ToActual(c, predicted).value;
      hide BoundAll;
      if BoundAll(kind, own, code, source.value.ranges, |source.value.ranges|) == Ok([]) {
        EmptyBinding(kind, own, code, source.value.ranges, |source.value.ranges|);
      }
    }
  }

  lemma EmptyHasNoRole(role: Role)
    ensures !HasRole([], role)
  {
  }

  /** A proxy binds nothing only when there is no address-wide range to bind. */
  lemma EmptyBinding(kind: Kind, own: Address, code: Hex, ranges: seq<Range>, n: nat)
    requires n <= |ranges| && IsProxy(kind) && BoundAll(kind, own, code, ranges, n) == Ok([])
    ensures !HasAddressWidthRange(ranges[..n])
    ensures n == |ranges| ==> !HasAddressWidthRange(ranges)
  {
    if j :| 0 <= j < n && AddressWidth(ranges[j]) {
      var i := RangeIsBound(kind, own, code, ranges, n, j);
    }
    assert n == |ranges| ==> ranges[..n] == ranges;
  }

  // ---- Adopting ----

  datatype References = References(admin: Option<Address>, beacon: Option<Address>, impl: Option<Address>, owner: Option<Address>)

  datatype Artifact =
    Artifact(identity: Identity, provenance: Hash, envelope: nat, template: Hex, ranges: seq<Range>)

  /** What the node answers: the code, the kind's slot, and the controller's own answer; `None` when unusable. */
  datatype Node = Node(code: Hex, slot: Option<Address>, controller: Option<Address>)

  datatype Request =
    Request(predicted: Address, actual: Address, kind: Kind, references: References, baseline: Option<nat>)

  datatype AdoptError =
    | InvalidAddress | UnsupportedKind | InvalidFlag | EmptyArtifact | NoCode | CodeMismatch | RelationshipMismatch
    | SlotMismatch | ControllerMismatch | ControllerUnmapped | UnreadableDescriptors | RoleMissing | StateRefused(code: Code)

  /** The reference whose address the kind's proxy slot must hold. */
  function SlotReference(kind: Kind, refs: References): Option<Address> {
    match kind
    case UupsProxy => refs.impl
    case TransparentProxy => refs.admin
    case BeaconProxy => refs.beacon
    case _ => None
  }

  predicate HasSlot(kind: Kind) {
    kind == UupsProxy || kind == TransparentProxy || kind == BeaconProxy
  }

  /** The reference the controller, or the contract itself, must answer with. */
  function ControlReference(kind: Kind, refs: References): Option<Address> {
    match kind
    case TransparentProxy => refs.owner
    case BeaconProxy => refs.impl
    case ProxyAdmin => refs.owner
    case UpgradeableBeacon => refs.impl
    case _ => None
  }

  predicate HasControl(kind: Kind) {
    kind == TransparentProxy || kind == BeaconProxy || kind == ProxyAdmin || kind == UpgradeableBeacon
  }

  predicate FlagsValid(kind: Kind, refs: References) {
    && (refs.admin.Some? ==> kind == TransparentProxy)
    && (refs.beacon.Some? ==> kind == BeaconProxy)
    && (refs.impl.Some? ==> kind == UupsProxy || kind == BeaconProxy || kind == UpgradeableBeacon)
    && (refs.owner.Some? ==> kind == TransparentProxy || kind == ProxyAdmin)
  }

  /** Equal code hashes where nothing is immutable; otherwise equal hashes of the codes with zeros in the ranges. */
  predicate CodeMatches(env: Env, a: Artifact, code: Hex) {
    if a.ranges == [] then CodeHash(env, code) == CodeHash(env, a.template)
    else && |code| == |a.template| && RangesFit(|code|, a.ranges)
         && CodeHash(env, Masked(code, a.ranges)) == CodeHash(env, Masked(a.template, a.ranges))
  }

  /** Every address-wide immutable of a proxy holds the declared reference, and that is an address. */
  predicate RelationshipHolds(kind: Kind, refs: References, code: Hex, ranges: seq<Range>)
    requires RangesFit(|code|, ranges)
  {
    ranges != [] && HasSlot(kind) && SlotReference(kind, refs).Some? ==>
      && NonZero(SlotReference(kind, refs).value)
      && forall i :: 0 <= i < |ranges| && AddressWidth(ranges[i]) ==> Embedded(code, ranges[i]) == SlotReference(kind, refs).value
  }

  predicate Declared(declared: Option<Address>, answer: Option<Address>) {
    declared.Some? && NonZero(declared.value) && answer == declared
  }

  /** Everything an adoption must find before it writes. */
  predicate Acceptable(env: Env, c: Chain, a: Artifact, n: Node, q: Request) {
    var refs := q.references;
    && NonZero(q.predicted) && NonZero(q.actual) && !q.kind.OtherKind? && FlagsValid(q.kind, refs)
    && CodeHash(env, n.code) != CodeHash(env, []) && CodeHash(env, a.template) != CodeHash(env, [])
    && CodeMatches(env, a, n.code)
    && (a.ranges != [] ==> RelationshipHolds(q.kind, refs, n.code, a.ranges))
    && (HasSlot(q.kind) ==> Declared(SlotReference(q.kind, refs), n.slot))
    && (HasControl(q.kind) ==> Declared(ControlReference(q.kind, refs), n.controller))
    && (IsProxy(q.kind) ==>
          && CanonicalRecords(c.byPredicted) && Inverse(c.byPredicted, c.byActual)
          && SlotReference(q.kind, refs).value in c.byActual
          && HasAddressWidthRange(a.ranges))
  }

  /** An address was declared, and the node answers with it. */
  predicate Answers(declared: Option<Address>, answer: Option<Address>) {
    declared.Some? && answer == declared && NonZero(declared.value)
  }

  predicate NoOther(refs: References, admin: bool, beacon: bool, impl: bool, owner: bool) {
    (refs.admin.Some? ==> admin) && (refs.beacon.Some? ==> beacon) && (refs.impl.Some? ==> impl) && (refs.owner.Some? ==> owner)
  }

  /**
   * The references each kind of contract must and may be given, and what each is held against: a proxy's
   * slot, and the answer of whoever controls the upgrade.
   */
  lemma ReferencesExact(kind: Kind, refs: References, n: Node)
    ensures && FlagsValid(kind, refs)
            && (HasSlot(kind) ==> Declared(SlotReference(kind, refs), n.slot))
            && (HasControl(kind) ==> Declared(ControlReference(kind, refs), n.controller))
            <==>
            match kind
            case TransparentProxy =>
              Answers(refs.admin, n.slot) && Answers(refs.owner, n.controller) && NoOther(refs, true, false, false, true)
            case BeaconProxy =>
              Answers(refs.beacon, n.slot) && Answers(refs.impl, n.controller) && NoOther(refs, false, true, true, false)
            case UupsProxy => Answers(refs.impl, n.slot) && NoOther(refs, false, false, true, false)
            case ProxyAdmin => Answers(refs.owner, n.controller) && NoOther(refs, false, false, false, true)
            case UpgradeableBeacon => Answers(refs.impl, n.controller) && NoOther(refs, false, false, true, false)
            case _ => NoOther(refs, false, false, false, false)
  {
  }

  method MatchCode(env: Env, a: Artifact, code: Hex) returns (ok: bool)
    ensures ok <==> CodeMatches(env, a, code)
  {
    if a.ranges == [] {
      return CodeHash(env, code) == CodeHash(env, a.template);
    }
    if |code| != |a.template| {
      return false;
    }
    var masked := MaskImmutables(code, a.ranges);
    if masked.Err? {
      return false;
    }
    var blank := MaskImmutables(a.template, a.ranges);
    return CodeHash(env, masked.value) == CodeHash(env, blank.value);
  }

  /** Why an adoption is refused: each error has its own reason. */
  predicate AdoptRefuses(env: Env, c: Chain, a: Artifact, n: Node, q: Request, e: AdoptError) {
    match e
    case InvalidAddress => !NonZero(q.predicted) || !NonZero(q.actual)
    case UnsupportedKind => q.kind.OtherKind?
    case InvalidFlag => !FlagsValid(q.kind, q.references)
    case EmptyArtifact => CodeHash(env, a.template) == CodeHash(env, [])
    case NoCode => CodeHash(env, n.code) == CodeHash(env, [])
    case CodeMismatch => !CodeMatches(env, a, n.code)
    case RelationshipMismatch =>
      CodeMatches(env, a, n.code) && a.ranges != [] && !RelationshipHolds(q.kind, q.references, n.code, a.ranges)
    case SlotMismatch => HasSlot(q.kind) && !Declared(SlotReference(q.kind, q.references), n.slot)
    case ControllerMismatch => HasControl(q.kind) && !Declared(ControlReference(q.kind, q.references), n.controller)
    case RoleMissing => IsProxy(q.kind) && !HasAddressWidthRange(a.ranges)
    case ControllerUnmapped =>
      IsProxy(q.kind) && SlotReference(q.kind, q.references).Some? && SlotReference(q.kind, q.references).value !in c.byActual
    case StateRefused(code) =>
      IsProxy(q.kind) && code == CorruptIndexes && !(CanonicalRecords(c.byPredicted) && Inverse(c.byPredicted, c.byActual))
    case UnreadableDescriptors => false
  }

  method CheckReferences(env: Env, ghost c: Chain, a: Artifact, n: Node, q: Request) returns (e: Option<AdoptError>)
    requires CodeMatches(env, a, n.code)
    ensures e.None? <==>
              && (a.ranges != [] ==> RelationshipHolds(q.kind, q.references, n.code, a.ranges))
              && (HasSlot(q.kind) ==> Declared(SlotReference(q.kind, q.references), n.slot))
              && (HasControl(q.kind) ==> Declared(ControlReference(q.kind, q.references), n.controller))
    ensures e.Some? ==> AdoptRefuses(env, c, a, n, q, e.value)
  {
    if a.ranges != [] && !RelationshipHolds(q.kind, q.references, n.code, a.ranges) {
      return Some(RelationshipMismatch);
    }
    if HasSlot(q.kind) && !Declared(SlotReference(q.kind, q.references), n.slot) {
      return Some(SlotMismatch);
    }
    if HasControl(q.kind) && !Declared(ControlReference(q.kind, q.references), n.controller) {
      return Some(ControllerMismatch);
    }
    return None;
  }

  /** The checks in order; what they accept, and the descriptors they leave to be stored. */
  method AdoptChecks(env: Env, c: Chain, a: Artifact, n: Node, q: Request) returns (r: Result<seq<Descriptor>, AdoptError>)
    ensures r.Ok? <==> Acceptable(env, c, a, n, q)
    ensures r.Ok? ==> BoundAll(q.kind, q.actual, n.code, a.ranges, |a.ranges|) == Ok(r.value)
    ensures r.Err? ==> AdoptRefuses(env, c, a, n, q, r.error)
  {
    hide CodeMatches, RelationshipHolds, CanonicalRecords, Inverse, HasAddressWidthRange, HasRole, BoundAll, Declared;
    if !NonZero(q.predicted) || !NonZero(q.actual) {
      return Err(InvalidAddress);
    }
    if q.kind.OtherKind? {
      return Err(UnsupportedKind);
    }
    if !FlagsValid(q.kind, q.references) {
      return Err(InvalidFlag);
    }
    if CodeHash(env, a.template) == CodeHash(env, []) {
      return Err(EmptyArtifact);
    }
    if CodeHash(env, n.code) == CodeHash(env, []) {
      return Err(NoCode);
    }
    var matches := MatchCode(env, a, n.code);
    if !matches {
      return Err(CodeMismatch);
    }
    var error := CheckReferences(env, c, a, n, q);
    if error.Some? {
      return Err(error.value);
    }
    if IsProxy(q.kind) {
      var verdict := RequireIndexes(c.byPredicted, c.byActual);
      if verdict != Accepted {
        return Err(StateRefused(CorruptIndexes));
      }
      SlotDeclared(q.kind, q.references, n.slot);
      if SlotReference(q.kind, q.references).value !in c.byActual {
        return Err(ControllerUnmapped);
      }
    }
    var ds := BuildDescriptorsFromRanges(q.kind, q.actual, n.code, a.ranges);
    BindingAlwaysSucceeds(env, a, n.code, q.kind, q.actual);
    if ds.Err? {
      return Err(UnreadableDescriptors);
    }
    if IsProxy(q.kind) {
      RoleMeansRange(q.kind, q.actual, n.code, a.ranges);
      if !HasRole(ds.value, RequiredRole(q.kind)) {
        return Err(RoleMissing);
      }
    }
    return Ok(ds.value);
  }

  lemma SlotDeclared(kind: Kind, refs: References, slot: Option<Address>)
    requires Declared(SlotReference(kind, refs), slot)
    ensures SlotReference(kind, refs).Some?
  {
  }

  /** Code that matched its template holds every range, so binding cannot fail after the comparison. */
  lemma BindingAlwaysSucceeds(env: Env, a: Artifact, code: Hex, kind: Kind, own: Address)
    requires CodeMatches(env, a, code)
    ensures BoundAll(kind, own, code, a.ranges, |a.ranges|).Ok?
  {
    BindingSucceeds(kind, own, code, a.ranges, |a.ranges|);
    assert a.ranges[..|a.ranges|] == a.ranges;
  }

  /** A proxy's artifact yields the role descriptor exactly when it declares an address-wide immutable. */
  lemma RoleMeansRange(kind: Kind, own: Address, code: Hex, ranges: seq<Range>)
    requires IsProxy(kind) && BoundAll(kind, own, code, ranges, |ranges|).Ok?
    ensures HasRole(BoundAll(kind, own, code, ranges, |ranges|).value, RequiredRole(kind)) <==> HasAddressWidthRange(ranges)
  {
    var ds := BoundAll(kind, own, code, ranges, |ranges|).value;
    if i :| 0 <= i < |ds| && ds[i].role == RequiredRole(kind) {
      var j := BoundShows(kind, own, code, ranges, |ranges|, i);
    }
    if j :| 0 <= j < |ranges| && AddressWidth(ranges[j]) {
      var i := RangeIsBound(kind, own, code, ranges, |ranges|, j);
      var j' := BoundShows(kind, own, code, ranges, |ranges|, i);
    }
  }

  // ---- The one durable write ----

  /** The table writes of an adoption, in order. */
  function AdoptWrites(a: Artifact, q: Request, ds: seq<Descriptor>, sender: Address, source: Hash): seq<TableWrite> {
    [WriteMapping(Mapping(q.predicted, q.actual, sender, sender, source)),
     WriteMetadata(Metadata(q.predicted, q.kind, a.identity, source, Some(a.provenance))),
     WriteSnapshot(Snapshot(a.provenance, a.envelope, Some(a.ranges))),
     WriteDescriptors(DescriptorRecord(q.predicted, true, ds))]
    + if q.baseline.Some? then [WriteBaseline(sender, q.baseline.value)] else []
  }

  /** What an adoption has put in the tables. */
  predicate Adopted(c: Chain, q: Request, ds: seq<Descriptor>) {
    && q.predicted in c.metadata && c.metadata[q.predicted].kind == q.kind
    && q.predicted in c.byPredicted && c.byPredicted[q.predicted].actual == q.actual
    && q.predicted in c.descriptors && c.descriptors[q.predicted] == DescriptorRecord(q.predicted, true, ds)
  }

  lemma AdoptedStays(c: Chain, d: Chain, q: Request, ds: seq<Descriptor>)
    requires Adopted(c, q, ds) && Climbs(c, d)
    ensures Adopted(d, q, ds)
  {
    hide SnapshotsClimb;
  }

  lemma AdoptionStored(c: Chain, a: Artifact, q: Request, ds: seq<Descriptor>, sender: Address, source: Hash)
    requires TablesValid(c)
    requires var ws := AdoptWrites(a, q, ds, sender, source); WriteAll(c, ws, |ws|).Ok?
    ensures var ws := AdoptWrites(a, q, ds, sender, source); Adopted(WriteAll(c, ws, |ws|).value, q, ds)
  {
    var ws := AdoptWrites(a, q, ds, sender, source);
    AdoptWritesAt(a, q, ds, sender, source);
    hide TablesValid, WriteAll, AdoptWrites, Adopted;
    WritesStored(c, ws, 1, 2, 4, ws[0].mapping, ws[1].metadata, q, ds);
  }

  lemma WritesStored(
    c: Chain, ws: seq<TableWrite>, i: nat, j: nat, k: nat, m: Mapping, md: Metadata, q: Request, ds: seq<Descriptor>)
    requires 0 < i < j < k <= |ws| && TablesValid(c) && WriteAll(c, ws, |ws|).Ok?
    requires ws[i - 1] == WriteMapping(m) && m.predicted == q.predicted && m.actual == q.actual
    requires ws[j - 1] == WriteMetadata(md) && md.predicted == q.predicted && md.kind == q.kind
    requires ws[k - 1] == WriteDescriptors(DescriptorRecord(q.predicted, true, ds))
    ensures Adopted(WriteAll(c, ws, |ws|).value, q, ds)
  {
    hide TablesValid, Climbs, Write, WriteAll, Adopted;
    WriteAllClimbs(c, ws, i, |ws|);
    WriteAllClimbs(c, ws, j, |ws|);
    WriteAllClimbs(c, ws, k, |ws|);
    LastWrite(c, ws, i);
    LastWrite(c, ws, j);
    LastWrite(c, ws, k);
    StoredEntries(WriteAll(c, ws, i).value, WriteAll(c, ws, j).value, WriteAll(c, ws, k).value, WriteAll(c, ws, |ws|).value, q, ds);
  }

  lemma AdoptWritesAt(a: Artifact, q: Request, ds: seq<Descriptor>, sender: Address, source: Hash)
    ensures var ws := AdoptWrites(a, q, ds, sender, source);
            && |ws| >= 4
            && ws[0] == WriteMapping(Mapping(q.predicted, q.actual, sender, sender, source))
            && ws[1] == WriteMetadata(Metadata(q.predicted, q.kind, a.identity, source, Some(a.provenance)))
            && ws[3] == WriteDescriptors(DescriptorRecord(q.predicted, true, ds))
  {
  }

  lemma LastWrite(c: Chain, ws: seq<TableWrite>, k: nat)
    requires 0 < k <= |ws| && WriteAll(c, ws, k).Ok?
    ensures WriteAll(c, ws, k - 1).Ok? && WriteShown(WriteAll(c, ws, k - 1).value, ws[k - 1], WriteAll(c, ws, k).value)
  {
    hide Write, WriteShown;
    AcceptedWriteShown(WriteAll(c, ws, k - 1).value, ws[k - 1]);
  }

  lemma StoredEntries(mapped: Chain, described: Chain, bound: Chain, d: Chain, q: Request, ds: seq<Descriptor>)
    requires q.predicted in mapped.byPredicted && mapped.byPredicted[q.predicted].actual == q.actual && Climbs(mapped, d)
    requires q.predicted in described.metadata && described.metadata[q.predicted].kind == q.kind && Climbs(described, d)
    requires q.predicted in bound.descriptors && Climbs(bound, d)
    requires bound.descriptors[q.predicted] == DescriptorRecord(q.predicted, true, ds)
    ensures Adopted(d, q, ds)
  {
    hide SnapshotsClimb;
  }

  // ---- Adopt, then read ----

  predicate InWindow(r: Range, k: int) {
    (r.start + r.length) * 2 - 40 <= k < (r.start + r.length) * 2
  }

  predicate OutsideWindows(ranges: seq<Range>, k: int) {
    forall j :: 0 <= j < |ranges| && AddressWidth(ranges[j]) ==> !InWindow(ranges[j], k)
  }

  /** The digit at `k` is the window's digit of this address. */
  predicate WindowShows(range: Range, a: Address, r: Hex, k: nat)
    requires InWindow(range, k) && k < |r|
  {
    r[k] == a[k - ((range.start + range.length) * 2 - 40)]
  }

  /** Each address-wide window of the code shows the predicted address; every other digit is as it was. */
  predicate Presents(code: Hex, ranges: seq<Range>, predicted: Address, r: Hex) {
    && |r| == |code|
    && (forall j, k :: 0 <= j < |ranges| && AddressWidth(ranges[j]) && 0 <= k < |code| && InWindow(ranges[j], k) ==>
          WindowShows(ranges[j], predicted, r, k))
    && (forall k :: 0 <= k < |code| && OutsideWindows(ranges, k) ==> r[k] == code[k])
  }

  /** Every descriptor of an accepted proxy is bound to the controller and shows it. */
  lemma BoundToController(env: Env, c: Chain, a: Artifact, n: Node, q: Request, ds: seq<Descriptor>, i: nat)
    requires Acceptable(env, c, a, n, q) && IsProxy(q.kind) && i < |ds|
    requires BoundAll(q.kind, q.actual, n.code, a.ranges, |a.ranges|) == Ok(ds)
    ensures var controller := SlotReference(q.kind, q.references);
            && controller.Some? && ds[i].expectedActual == controller.value
            && controller == (if q.kind == TransparentProxy then q.references.admin else q.references.beacon)
            && Shows(n.code, ds[i]) && ds[i].role == RequiredRole(q.kind)
            && ds[i].role == (if q.kind == TransparentProxy then AdminRole else BeaconRole)
  {
    hide CodeHash, CanonicalRecords, Inverse, HasAddressWidthRange;
    var j := BoundShows(q.kind, q.actual, n.code, a.ranges, |a.ranges|, i);
    assert Embedded(n.code, a.ranges[j]) == SlotReference(q.kind, q.references).value;
  }

  /**
   * Adopt then read. Once a transparent or beacon proxy with disjoint address-wide immutables is
   * accepted and its writes are committed, every later read of its code succeeds, whatever has been
   * written to the tables since: each address-wide immutable shows the controller's predicted
   * address and nothing else changes.
   */
  lemma AdoptThenRead(
    env: Env, checked: Chain, c: Chain, a: Artifact, n: Node, q: Request, ds: seq<Descriptor>, sender: Address, source: Hash,
    later: Chain, disk: Option<CodeSource>)
    requires Acceptable(env, checked, a, n, q) && IsProxy(q.kind)
    requires BoundAll(q.kind, q.actual, n.code, a.ranges, |a.ranges|) == Ok(ds)
    requires TablesValid(c) && Climbs(checked, c)
    requires var ws := AdoptWrites(a, q, ds, sender, source); WriteAll(c, ws, |ws|).Ok? && Climbs(WriteAll(c, ws, |ws|).value, later)
    requires DisjointRanges(a.ranges)
    ensures var controller := SlotReference(q.kind, q.references).value;
            && controller in later.byActual
            && ProjectCodeImmutables(env, later, q.predicted, n.code, disk).Ok?
            && Presents(n.code, a.ranges, later.byActual[controller],
                        ProjectCodeImmutables(env, later, q.predicted, n.code, disk).value)
  {
    var ws := AdoptWrites(a, q, ds, sender, source);
    var d := WriteAll(c, ws, |ws|).value;
    hide AdoptWrites;
    AdoptionStored(c, a, q, ds, sender, source);
    AdoptedStays(d, later, q, ds);
    WriteAllClimbs(c, ws, 0, |ws|);
    ControllerStays(checked, c, d, later, SlotReference(q.kind, q.references).value);
    RoleMeansRange(q.kind, q.actual, n.code, a.ranges);
    hide WriteAll, Climbs, TablesValid;
    ReadAdopted(env, later, q, n.code, ds, disk);
    WindowsPresent(env, checked, a, n, q, ds, later);
  }

  lemma ControllerStays(b: Chain, c: Chain, d: Chain, e: Chain, controller: Address)
    requires controller in b.byActual && Climbs(b, c) && Climbs(c, d) && Climbs(d, e)
    ensures controller in e.byActual
  {
    hide SnapshotsClimb, DescriptorsClimb;
  }

  lemma ReadAdopted(env: Env, c: Chain, q: Request, code: Hex, ds: seq<Descriptor>, disk: Option<CodeSource>)
    requires Adopted(c, q, ds) && IsProxy(q.kind) && HasRole(ds, RequiredRole(q.kind)) && code != []
    ensures ProjectCodeImmutables(env, c, q.predicted, code, disk) == Projected(c, q.predicted, code, ds)
  {
    hide Projected;
  }

  lemma WindowsPresent(env: Env, c: Chain, a: Artifact, n: Node, q: Request, ds: seq<Descriptor>, later: Chain)
    requires Acceptable(env, c, a, n, q) && IsProxy(q.kind)
    requires BoundAll(q.kind, q.actual, n.code, a.ranges, |a.ranges|) == Ok(ds)
    requires DisjointRanges(a.ranges) && SlotReference(q.kind, q.references).value in later.byActual
    ensures var r := Project(n.code, ds, |ds|, q.predicted, later.byActual);
            r.Ok? && Presents(n.code, a.ranges, later.byActual[SlotReference(q.kind, q.references).value], r.value)
  {
    BoundDisjoint(q.kind, q.actual, n.code, a.ranges, |a.ranges|);
    DisjointProjection(n.code, ds, q.predicted, later.byActual);
    forall i | 0 <= i < |ds|
      ensures Shows(n.code, ds[i]) && Resolvable(ds[i], |n.code|, q.predicted, later.byActual)
    {
      BoundToController(env, c, a, n, q, ds, i);
    }
    assert Project(n.code, ds, |ds|, q.predicted, later.byActual).Ok?;
    PresentsFromReplaced(env, c, a, n, q, ds, later, Project(n.code, ds, |ds|, q.predicted, later.byActual).value);
  }

  lemma PresentsFromReplaced(
    env: Env, c: Chain, a: Artifact, n: Node, q: Request, ds: seq<Descriptor>, later: Chain, r: Hex)
    requires Acceptable(env, c, a, n, q) && IsProxy(q.kind)
    requires BoundAll(q.kind, q.actual, n.code, a.ranges, |a.ranges|) == Ok(ds)
    requires SlotReference(q.kind, q.references).value in later.byActual && Replaced(n.code, ds, later.byActual, r)
    ensures Presents(n.code, a.ranges, later.byActual[SlotReference(q.kind, q.references).value], r)
  {
    var image := later.byActual[SlotReference(q.kind, q.references).value];
    hide Acceptable, BoundAll, Shows, SlotReference, AddressWidth, Replaced, InWindow;
    ReplacedLength(n.code, ds, later.byActual, r);
    forall j, k | 0 <= j < |a.ranges| && AddressWidth(a.ranges[j]) && 0 <= k < |n.code| && InWindow(a.ranges[j], k)
      ensures WindowShows(a.ranges[j], image, r, k)
    {
      var i := WindowBound(env, c, a, n, q, ds, j);
      WindowReplaced(n.code, ds, later.byActual, r, i, a.ranges[j], k);
    }
    forall k | 0 <= k < |n.code| && OutsideWindows(a.ranges, k) ensures r[k] == n.code[k] {
      forall i | 0 <= i < |ds| ensures !Covers(ds[i], k) {
        WindowOfRange(q.kind, q.actual, n.code, a.ranges, ds, i, k);
      }
      ReplacedElsewhere(n.code, ds, later.byActual, r, k);
    }
  }

  lemma WindowReplaced(code: Hex, ds: seq<Descriptor>, table: Table, r: Hex, i: nat, range: Range, k: nat)
    requires Replaced(code, ds, table, r) && i < |ds| && k < |code| && OfRange(ds[i], range) && InWindow(range, k)
    requires ds[i].expectedActual in table
    ensures |r| == |code| && WindowShows(range, table[ds[i].expectedActual], r, k)
  {
    assert Covers(ds[i], k);
  }

  lemma ReplacedLength(code: Hex, ds: seq<Descriptor>, table: Table, r: Hex)
    requires Replaced(code, ds, table, r)
    ensures |r| == |code|
  {
  }

  lemma ReplacedElsewhere(code: Hex, ds: seq<Descriptor>, table: Table, r: Hex, k: nat)
    requires Replaced(code, ds, table, r) && k < |code| && forall i :: 0 <= i < |ds| ==> !Covers(ds[i], k)
    ensures |r| == |code| && r[k] == code[k]
  {
  }

  lemma WindowOfRange(kind: Kind, own: Address, code: Hex, ranges: seq<Range>, ds: seq<Descriptor>, i: nat, k: nat)
    requires BoundAll(kind, own, code, ranges, |ranges|) == Ok(ds) && i < |ds|
    requires OutsideWindows(ranges, k)
    ensures !Covers(ds[i], k)
  {
    var j := BoundShows(kind, own, code, ranges, |ranges|, i);
    assert !InWindow(ranges[j], k);
  }

  lemma WindowBound(env: Env, c: Chain, a: Artifact, n: Node, q: Request, ds: seq<Descriptor>, j: nat) returns (i: nat)
    requires Acceptable(env, c, a, n, q) && IsProxy(q.kind) && j < |a.ranges| && AddressWidth(a.ranges[j])
    requires BoundAll(q.kind, q.actual, n.code, a.ranges, |a.ranges|) == Ok(ds)
    ensures i < |ds| && OfRange(ds[i], a.ranges[j])
    ensures SlotReference(q.kind, q.references).Some? && ds[i].expectedActual == SlotReference(q.kind, q.references).value
  {
    hide Acceptable, Shows;
    i := RangeIsBound(q.kind, q.actual, n.code, a.ranges, |a.ranges|, j);
    BoundToController(env, c, a, n, q, ds, i);
  }

  /**
   * With windows that may overlap, reading the adopted code succeeds exactly when, wherever two of
   * them overlap, the controller's predicted address repeats what the code shows there.
   */
  lemma OverlappingAdoptionReads(
    env: Env, c: Chain, a: Artifact, n: Node, q: Request, ds: seq<Descriptor>, later: Chain, disk: Option<CodeSource>)
    requires Acceptable(env, c, a, n, q) && IsProxy(q.kind) && Adopted(later, q, ds)
    requires BoundAll(q.kind, q.actual, n.code, a.ranges, |a.ranges|) == Ok(ds)
    requires SlotReference(q.kind, q.references).value in later.byActual
    ensures forall i :: 0 <= i < |ds| ==> ds[i].expectedActual in later.byActual
    ensures ProjectCodeImmutables(env, later, q.predicted, n.code, disk).Ok?
            <==> OverlapsAgree(n.code, ds, |ds|, later.byActual)
  {
    forall i | 0 <= i < |ds|
      ensures Shows(n.code, ds[i]) && Resolvable(ds[i], |n.code|, q.predicted, later.byActual)
    {
      BoundToController(env, c, a, n, q, ds, i);
    }
    RoleMeansRange(q.kind, q.actual, n.code, a.ranges);
    ReadAdopted(env, later, q, n.code, ds, disk);
    assert AllShow(n.code, ds) && AllResolvable(ds, |ds|, |n.code|, q.predicted, later.byActual);
    hide Acceptable, Adopted, ProjectCodeImmutables, BoundAll, Shows, Resolvable;
    forall i | 0 <= i < |ds| ensures ds[i].expectedActual in later.byActual { ResolvedInTable(ds[i], |n.code|, q.predicted, later.byActual); }
    OverlappingProjection(n.code, ds, q.predicted, later.byActual);
  }

  lemma ResolvedInTable(d: Descriptor, size: nat, own: Address, table: Table)
    requires Resolvable(d, size, own, table)
    ensures d.expectedActual in table
  {
  }

  /** When no two of the compared codes collide, an accepted code is the template outside its immutables. */
  lemma AcceptedCodeIsTemplate(env: Env, a: Artifact, code: Hex)
    requires CodeMatches(env, a, code)
    requires CodeHash(env, code) == CodeHash(env, a.template) ==> code == a.template
    requires CodeHash(env, Masked(code, a.ranges)) == CodeHash(env, Masked(a.template, a.ranges))
             ==> Masked(code, a.ranges) == Masked(a.template, a.ranges)
    ensures |code| == |a.template|
    ensures forall k :: 0 <= k < |code| && !InSomeRange(a.ranges, |a.ranges|, k) ==> code[k] == a.template[k]
  {
    hide CodeHash, Masked;
    if a.ranges != [] {
      EqualMasks(code, a.template, a.ranges);
    }
  }
}
