/**
 * What eth_getCode answers for a contract the adapter knows (rpc-src/handlers.ts), for every kind of
 * contract and every stage of its descriptor record.
 */
module CodeReads {
  import opened Wrappers
  import opened Addresses
  import opened ChainState
  import opened AddressMap
  import opened Projection
  import opened Adoption

  /** A contract with metadata, read with code in place. */
  predicate Described(c: Chain, predicted: Address, code: Hex, kind: Kind) {
    code != [] && ResolveMetadata(c, predicted).Some? && ResolveMetadata(c, predicted).value.kind == kind
  }

  predicate RecordComplete(c: Chain, predicted: Address, ds: seq<Descriptor>) {
    var record := ResolveDescriptors(c, predicted);
    record.Some? && record.value.complete && record.value.descriptors == ds
  }

  predicate RecordPending(c: Chain, predicted: Address) {
    var record := ResolveDescriptors(c, predicted);
    record.Some? ==> !record.value.complete
  }

  // ---- A complete record ----

  /**
   * A complete record with descriptors decides the read, for a contract as for a proxy: it succeeds
   * exactly when every window shows its commitment at its turn and resolves (and a proxy has its role's
   * window), and the last window over a digit decides it.
   */
  lemma CompleteRead(env: Env, c: Chain, predicted: Address, code: Hex, source: Option<CodeSource>, kind: Kind, ds: seq<Descriptor>)
    requires Described(c, predicted, code, kind) && RecordComplete(c, predicted, ds) && ds != []
    ensures var r := ProjectCodeImmutables(env, c, predicted, code, source);
            r.Ok? <==> && (IsProxy(kind) ==> HasRole(ds, RequiredRole(kind)))
                       && Committed(code, ds, |ds|, predicted, c.byActual)
    ensures var r := ProjectCodeImmutables(env, c, predicted, code, source);
            r.Ok? ==> && |r.value| == |code| && (forall i :: 0 <= i < |ds| ==> ds[i].expectedActual in c.byActual)
                      && forall k :: 0 <= k < |code| ==> r.value[k] == DigitAfter(code, ds, |ds|, c.byActual, k)
  {
    ProjectExact(code, ds, |ds|, predicted, c.byActual);
    if Committed(code, ds, |ds|, predicted, c.byActual) {
      ResolvableMeans(ds, |ds|, |code|, predicted, c.byActual);
    }
    hide Committed, Project, DigitAfter, HasRole;
  }

  /**
   * With windows apart it succeeds exactly when the served code shows every commitment and each resolves;
   * every window then shows its contract's predicted address and no other digit changes.
   */
  lemma DisjointCompleteRead(
    env: Env, c: Chain, predicted: Address, code: Hex, source: Option<CodeSource>, kind: Kind, ds: seq<Descriptor>)
    requires Described(c, predicted, code, kind) && RecordComplete(c, predicted, ds) && ds != [] && Disjoint(ds)
    ensures var r := ProjectCodeImmutables(env, c, predicted, code, source);
            && (r.Ok? <==> && (IsProxy(kind) ==> HasRole(ds, RequiredRole(kind)))
                           && AllShow(code, ds) && AllResolvable(ds, |ds|, |code|, predicted, c.byActual))
            && (r.Ok? ==> Replaced(code, ds, c.byActual, r.value))
  {
    DisjointProjection(code, ds, predicted, c.byActual);
    hide Disjoint, AllShow, AllResolvable, Replaced, Project, HasRole;
  }

  /** The code is an artifact's template, and that declares no address-wide immutable. */
  predicate PlainTemplate(env: Env, code: Hex, source: Option<CodeSource>) {
    source.Some? && !HasAddressWidthRange(source.value.ranges) && CodeHash(env, code) == source.value.template
  }

  /** A complete record without descriptors: a contract's code is served as it is, a proxy's only if it is a plain template. */
  lemma EmptyCompleteRead(env: Env, c: Chain, predicted: Address, code: Hex, source: Option<CodeSource>, kind: Kind)
    requires Described(c, predicted, code, kind) && RecordComplete(c, predicted, [])
    ensures var r := ProjectCodeImmutables(env, c, predicted, code, source);
            && (r.Ok? <==> (IsProxy(kind) ==> PlainTemplate(env, code, source)))
            && (r.Ok? ==> r.value == code)
  {
    EmptyHasNoRole(RequiredRole(kind));
    hide HasAddressWidthRange;
  }

  // ---- A pending or absent record ----

  /** The address embedded at a range matters: any one in a proxy, the contract's own in another contract. */
  predicate Plays(kind: Kind, own: Address, code: Hex, r: Range) {
    && AddressWidth(r) && (r.start + r.length) * 2 <= |code|
    && (IsProxy(kind) || Embedded(code, r) == own)
  }

  /** Every window that matters shows the predicted address of what it showed; every other digit is as it was. */
  predicate Presented(kind: Kind, own: Address, code: Hex, ranges: seq<Range>, table: Table, r: Hex) {
    && |r| == |code|
    && (forall j, k :: 0 <= j < |ranges| && Plays(kind, own, code, ranges[j]) && Embedded(code, ranges[j]) in table
                       && 0 <= k < |code| && InWindow(ranges[j], k) ==>
          WindowShows(ranges[j], table[Embedded(code, ranges[j])], r, k))
    && (forall k :: 0 <= k < |code| && (forall j :: 0 <= j < |ranges| && Plays(kind, own, code, ranges[j]) ==> !InWindow(ranges[j], k))
          ==> r[k] == code[k])
  }

  /** Whatever windows are bound from the code, each that matters is mapped. */
  predicate AllMapped(kind: Kind, own: Address, code: Hex, ranges: seq<Range>, table: Table) {
    forall j :: 0 <= j < |ranges| && Plays(kind, own, code, ranges[j]) ==> Embedded(code, ranges[j]) in table
  }

  predicate AnyPlays(kind: Kind, own: Address, code: Hex, ranges: seq<Range>) {
    exists j :: 0 <= j < |ranges| && Plays(kind, own, code, ranges[j])
  }

  /** A bound descriptor is that of a range that matters, and commits to what the code shows there. */
  lemma BoundPlays(kind: Kind, own: Address, code: Hex, ranges: seq<Range>, i: nat) returns (j: nat)
    requires BoundAll(kind, own, code, ranges, |ranges|).Ok? && i < |BoundAll(kind, own, code, ranges, |ranges|).value|
    ensures var d := BoundAll(kind, own, code, ranges, |ranges|).value[i];
            && j < |ranges| && Plays(kind, own, code, ranges[j]) && OfRange(d, ranges[j])
            && d.expectedActual == Embedded(code, ranges[j]) && Shows(code, d)
            && d.role == if IsProxy(kind) then RequiredRole(kind) else SelfRole
  {
    j := BoundShows(kind, own, code, ranges, |ranges|, i);
  }

  /** And every range that matters has its descriptor. */
  lemma PlaysBound(kind: Kind, own: Address, code: Hex, ranges: seq<Range>, j: nat) returns (i: nat)
    requires BoundAll(kind, own, code, ranges, |ranges|).Ok? && j < |ranges| && Plays(kind, own, code, ranges[j])
    ensures i < |BoundAll(kind, own, code, ranges, |ranges|).value|
    ensures var d := BoundAll(kind, own, code, ranges, |ranges|).value[i];
            OfRange(d, ranges[j]) && d.expectedActual == Embedded(code, ranges[j])
  {
    i := RangeIsBound(kind, own, code, ranges, |ranges|, j);
    var j' := BoundShows(kind, own, code, ranges, |ranges|, i);
  }

  lemma NothingBound(kind: Kind, own: Address, code: Hex, ranges: seq<Range>)
    requires BoundAll(kind, own, code, ranges, |ranges|).Ok?
    ensures BoundAll(kind, own, code, ranges, |ranges|).value == [] <==> !AnyPlays(kind, own, code, ranges)
  {
    var ds := BoundAll(kind, own, code, ranges, |ranges|).value;
    if j :| 0 <= j < |ranges| && Plays(kind, own, code, ranges[j]) {
      var i := PlaysBound(kind, own, code, ranges, j);
    }
    if ds != [] {
      var j := BoundPlays(kind, own, code, ranges, 0);
    }
  }

  /** Windows bound from a code with ranges apart project exactly when all that matter are mapped. */
  lemma BoundProjection(kind: Kind, own: Address, predicted: Address, code: Hex, ranges: seq<Range>, table: Table)
    requires BoundAll(kind, own, code, ranges, |ranges|).Ok? && DisjointRanges(ranges)
    requires own in table ==> table[own] == predicted
    ensures var ds := BoundAll(kind, own, code, ranges, |ranges|).value;
            var r := Project(code, ds, |ds|, predicted, table);
            (r.Ok? <==> AllMapped(kind, own, code, ranges, table)) && (r.Ok? ==> Presented(kind, own, code, ranges, table, r.value))
  {
    var ds := BoundAll(kind, own, code, ranges, |ranges|).value;
    BoundDisjoint(kind, own, code, ranges, |ranges|);
    DisjointProjection(code, ds, predicted, table);
    forall i | 0 <= i < |ds|
      ensures Shows(code, ds[i]) && (Resolvable(ds[i], |code|, predicted, table) <==> ds[i].expectedActual in table)
    {
      var j := BoundPlays(kind, own, code, ranges, i);
    }
    if AllMapped(kind, own, code, ranges, table) {
      forall i | 0 <= i < |ds| ensures ds[i].expectedActual in table { var j := BoundPlays(kind, own, code, ranges, i); }
    }
    if AllResolvable(ds, |ds|, |code|, predicted, table) {
      forall j | 0 <= j < |ranges| && Plays(kind, own, code, ranges[j]) ensures Embedded(code, ranges[j]) in table {
        var i := PlaysBound(kind, own, code, ranges, j);
        assert Resolvable(ds[i], |code|, predicted, table);
      }
    }
    hide BoundAll, Disjoint, DisjointRanges, Shows, Resolvable, Project, Replaced, Presented, Plays;
    if Project(code, ds, |ds|, predicted, table).Ok? {
      PresentedFrom(kind, own, code, ranges, table, Project(code, ds, |ds|, predicted, table).value);
    }
  }

  lemma PresentedFrom(kind: Kind, own: Address, code: Hex, ranges: seq<Range>, table: Table, r: Hex)
    requires BoundAll(kind, own, code, ranges, |ranges|).Ok?
    requires Replaced(code, BoundAll(kind, own, code, ranges, |ranges|).value, table, r)
    ensures Presented(kind, own, code, ranges, table, r)
  {
    var ds := BoundAll(kind, own, code, ranges, |ranges|).value;
    ReplacedLength(code, ds, table, r);
    hide BoundAll, Replaced, Shows;
    forall j, k | 0 <= j < |ranges| && Plays(kind, own, code, ranges[j]) && Embedded(code, ranges[j]) in table
                  && 0 <= k < |code| && InWindow(ranges[j], k)
      ensures WindowShows(ranges[j], table[Embedded(code, ranges[j])], r, k)
    {
      var i := PlaysBound(kind, own, code, ranges, j);
      WindowReplaced(code, ds, table, r, i, ranges[j], k);
    }
    forall k | 0 <= k < |code| && (forall j :: 0 <= j < |ranges| && Plays(kind, own, code, ranges[j]) ==> !InWindow(ranges[j], k))
      ensures r[k] == code[k]
    {
      forall i | 0 <= i < |ds| ensures !Covers(ds[i], k) {
        var j := BoundPlays(kind, own, code, ranges, i);
        assert !InWindow(ranges[j], k);
      }
      ReplacedElsewhere(code, ds, table, r, k);
    }
  }

  /** The ranges of a resolved artifact, all lying in the code, and the contract's own actual address. */
  predicate Bindable(c: Chain, predicted: Address, code: Hex, source: Option<CodeSource>) {
    source.Some? && predicted in c.byPredicted && InCode(code, source.value.ranges)
  }

  lemma OwnImage(c: Chain, predicted: Address)
    requires IndexesValid(c) && predicted in c.byPredicted
    ensures var own := c.byPredicted[predicted].actual;
            own in c.byActual && c.byActual[own] == predicted && ToActual(c, predicted) == Some(own)
  {
  }

  lemma BoundInCode(kind: Kind, own: Address, code: Hex, ranges: seq<Range>)
    ensures BoundAll(kind, own, code, ranges, |ranges|).Ok? <==> InCode(code, ranges)
  {
    BindingSucceeds(kind, own, code, ranges, |ranges|);
    assert ranges[..|ranges|] == ranges;
  }

  /**
   * While its record is pending, a contract that is no proxy is always served: as it is if no artifact
   * can be resolved or its ranges leave the code, and otherwise, ranges apart, with its own predicted
   * address exactly where the code shows its own actual one.
   */
  lemma PendingContractRead(env: Env, c: Chain, predicted: Address, code: Hex, source: Option<CodeSource>, kind: Kind)
    requires Described(c, predicted, code, kind) && RecordPending(c, predicted) && !IsProxy(kind) && IndexesValid(c)
    ensures ProjectCodeImmutables(env, c, predicted, code, source).Ok?
    ensures var r := ProjectCodeImmutables(env, c, predicted, code, source).value;
            && (!Bindable(c, predicted, code, source) ==> r == code)
            && (Bindable(c, predicted, code, source) && DisjointRanges(source.value.ranges) ==>
                  Presented(kind, c.byPredicted[predicted].actual, code, source.value.ranges, c.byActual, r))
  {
    if source.Some? && predicted in c.byPredicted {
      var own, ranges := c.byPredicted[predicted].actual, source.value.ranges;
      OwnImage(c, predicted);
      BoundInCode(kind, own, code, ranges);
      if InCode(code, ranges) {
        NothingBound(kind, own, code, ranges);
        if DisjointRanges(ranges) {
          BoundProjection(kind, own, predicted, code, ranges, c.byActual);
          assert AllMapped(kind, own, code, ranges, c.byActual);
          RawPresented(kind, own, code, ranges, c.byActual);
        }
      }
    }
    hide BoundAll, Project, Presented, InCode, IndexesValid, DisjointRanges, AllMapped, AnyPlays, HasRole, ResolveMetadata,
         ResolveDescriptors;
  }

  lemma RawPresented(kind: Kind, own: Address, code: Hex, ranges: seq<Range>, table: Table)
    ensures !AnyPlays(kind, own, code, ranges) ==> Presented(kind, own, code, ranges, table, code)
  {
  }

  /**
   * A proxy with a pending record is served exactly when its artifact resolves, its ranges lie in the
   * code, and either there is no address-wide range and the code is the artifact's template, or (ranges
   * apart) every address-wide window shows a mapped address; it then shows the predicted ones.
   */
  lemma PendingProxyRead(env: Env, c: Chain, predicted: Address, code: Hex, source: Option<CodeSource>, kind: Kind)
    requires Described(c, predicted, code, kind) && RecordPending(c, predicted) && IsProxy(kind) && IndexesValid(c)
    requires Bindable(c, predicted, code, source) ==> DisjointRanges(source.value.ranges)
    ensures var r := ProjectCodeImmutables(env, c, predicted, code, source);
            && (r.Ok? <==> && Bindable(c, predicted, code, source)
                           && AllMapped(kind, c.byPredicted[predicted].actual, code, source.value.ranges, c.byActual)
                           && (HasAddressWidthRange(source.value.ranges) || PlainTemplate(env, code, source)))
            && (r.Ok? ==> Presented(kind, c.byPredicted[predicted].actual, code, source.value.ranges, c.byActual, r.value))
  {
    if source.Some? && predicted in c.byPredicted {
      var own, ranges := c.byPredicted[predicted].actual, source.value.ranges;
      OwnImage(c, predicted);
      BoundInCode(kind, own, code, ranges);
      if InCode(code, ranges) {
        NothingBound(kind, own, code, ranges);
        BoundProjection(kind, own, predicted, code, ranges, c.byActual);
        RawPresented(kind, own, code, ranges, c.byActual);
        RoleMeansRange(kind, own, code, ranges);
        assert AnyPlays(kind, own, code, ranges) <==> HasAddressWidthRange(ranges) by { PlaysMeansRange(kind, own, code, ranges); }
        assert !AnyPlays(kind, own, code, ranges) ==> AllMapped(kind, own, code, ranges, c.byActual);
      }
    }
    hide BoundAll, Project, Presented, InCode, IndexesValid, DisjointRanges, AllMapped, AnyPlays, HasRole, HasAddressWidthRange,
         ResolveMetadata, ResolveDescriptors;
  }

  /** The digits after rewriting these windows one after another. */
  predicate Rewritten(code: Hex, ds: seq<Descriptor>, table: Table, r: Hex) {
    && (forall i :: 0 <= i < |ds| ==> ds[i].expectedActual in table)
    && |r| == |code| && forall k :: 0 <= k < |code| ==> r[k] == DigitAfter(code, ds, |ds|, table, k)
  }

  /**
   * For ranges that may overlap: the windows bound from the code are rewritten one after another if each
   * still shows its commitment at its turn and resolves. Otherwise a contract is served as it is, and a
   * proxy is not served.
   */
  lemma PendingOverlappingRead(env: Env, c: Chain, predicted: Address, code: Hex, source: Option<CodeSource>, kind: Kind)
    requires Described(c, predicted, code, kind) && RecordPending(c, predicted) && Bindable(c, predicted, code, source)
    ensures var own, ranges := c.byPredicted[predicted].actual, source.value.ranges;
            && BoundAll(kind, own, code, ranges, |ranges|).Ok?
            && var ds := BoundAll(kind, own, code, ranges, |ranges|).value;
               var r := ProjectCodeImmutables(env, c, predicted, code, source);
               && (r.Ok? <==> (IsProxy(kind) ==> && Committed(code, ds, |ds|, predicted, c.byActual)
                                                 && (HasAddressWidthRange(ranges) || PlainTemplate(env, code, source))))
               && (r.Ok? ==> if Committed(code, ds, |ds|, predicted, c.byActual) then Rewritten(code, ds, c.byActual, r.value)
                             else r.value == code)
  {
    var own, ranges := c.byPredicted[predicted].actual, source.value.ranges;
    BoundInCode(kind, own, code, ranges);
    var ds := BoundAll(kind, own, code, ranges, |ranges|).value;
    NothingBound(kind, own, code, ranges);
    ProjectExact(code, ds, |ds|, predicted, c.byActual);
    if Committed(code, ds, |ds|, predicted, c.byActual) {
      ResolvableMeans(ds, |ds|, |code|, predicted, c.byActual);
    }
    if IsProxy(kind) {
      RoleMeansRange(kind, own, code, ranges);
      PlaysMeansRange(kind, own, code, ranges);
    }
    hide BoundAll, Project, Committed, InCode, AnyPlays, HasRole, HasAddressWidthRange, ResolveMetadata, ResolveDescriptors;
  }

  lemma PlaysMeansRange(kind: Kind, own: Address, code: Hex, ranges: seq<Range>)
    requires IsProxy(kind) && InCode(code, ranges)
    ensures AnyPlays(kind, own, code, ranges) <==> HasAddressWidthRange(ranges)
  {
    if j :| 0 <= j < |ranges| && AddressWidth(ranges[j]) {
      assert Plays(kind, own, code, ranges[j]);
    }
  }

  /** Without metadata or without code nothing is done to what the node answers. */
  lemma UnknownRead(env: Env, c: Chain, predicted: Address, code: Hex, source: Option<CodeSource>)
    requires ResolveMetadata(c, predicted).None? || code == []
    ensures ProjectCodeImmutables(env, c, predicted, code, source) == Ok(code)
  {
  }
}
