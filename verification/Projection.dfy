/**
 * Address windows in runtime code: binding, projecting and masking them
 * (rpc-src/immutable-projection.ts, and the mask of rpc-src/cli.ts).
 */
module Projection {
  import opened Wrappers
  import opened Addresses
  import opened ChainState

  datatype ProjectionError = OutOfRange | Drifted | Unresolved | NotSelf

  /** Which predicted address an actual one stands under. */
  type Table = map<Address, Address>

  /** Addresses are the low 20 bytes of a word; narrower immutables hold other data. */
  predicate AddressWidth(r: Range) {
    r.length >= 20
  }

  /** The end of a window; it begins 40 digits before. */
  function End(d: Descriptor): nat {
    (d.start + d.length) * 2
  }

  predicate Covers(d: Descriptor, k: int) {
    End(d) - 40 <= k < End(d)
  }

  // ---- Projecting ----

  function Overwritten(code: Hex, d: Descriptor, target: Address): (r: Hex)
    requires 40 <= End(d) <= |code|
    ensures |r| == |code|
    ensures forall k :: 0 <= k < |code| ==> r[k] == if Covers(d, k) then target[k - (End(d) - 40)] else code[k]
  {
    code[..End(d) - 40] + target + code[End(d)..]
  }

  /** Verify one window against its commitment, then rewrite it. A window that starts before the code is never found. */
  function ProjectOne(code: Hex, d: Descriptor, own: Address, table: Table): Result<Hex, ProjectionError> {
    if End(d) > |code| then Err(OutOfRange)
    else if End(d) < 40 || code[End(d) - 40..End(d)] != d.expectedActual then Err(Drifted)
    else if d.expectedActual !in table then Err(Unresolved)
    else if d.role == SelfRole && table[d.expectedActual] != own then Err(NotSelf)
    else Ok(Overwritten(code, d, table[d.expectedActual]))
  }

  /** The first `n` windows, each read from the code the earlier ones left. */
  function Project(code: Hex, ds: seq<Descriptor>, n: nat, own: Address, table: Table): Result<Hex, ProjectionError>
    requires n <= |ds|
  {
    if n == 0 then Ok(code)
    else
      var before :- Project(code, ds, n - 1, own, table);
      ProjectOne(before, ds[n - 1], own, table)
  }

  lemma {:induction false} ProjectFails(code: Hex, ds: seq<Descriptor>, m: nat, n: nat, own: Address, table: Table)
    requires m <= n <= |ds| && Project(code, ds, m, own, table).Err?
    ensures Project(code, ds, n, own, table) == Project(code, ds, m, own, table)
  {
    if m < n {
      ProjectFails(code, ds, m, n - 1, own, table);
    }
  }

  /** The windows rewritten in place in one array of digits. */
  method ProjectDescriptorImmutables(code: Hex, ds: seq<Descriptor>, own: Address, table: Table)
    returns (r: Result<Hex, ProjectionError>)
    ensures r == Project(code, ds, |ds|, own, table)
  {
    var chars := new Nibble[|code|](i requires 0 <= i < |code| => code[i]);
    assert chars[..] == code;
    for n := 0 to |ds|
      invariant Project(code, ds, n, own, table) == Ok(chars[..])
    {
      var d := ds[n];
      ghost var before := chars[..];
      var error := CheckWindow(chars, d, own, table);
      if error.Some? {
        ProjectFails(code, ds, n + 1, |ds|, own, table);
        return Err(error.value);
      }
      WriteWindow(chars, d, table[d.expectedActual]);
      assert chars[..] == Overwritten(before, d, table[d.expectedActual]);
    }
    return Ok(chars[..]);
  }

  method CheckWindow(chars: array<Nibble>, d: Descriptor, own: Address, table: Table) returns (e: Option<ProjectionError>)
    ensures match ProjectOne(chars[..], d, own, table)
            case Ok(_) => e.None? && 40 <= End(d) <= chars.Length && d.expectedActual in table
            case Err(x) => e == Some(x)
    ensures e.None? ==> ProjectOne(chars[..], d, own, table) == Ok(Overwritten(chars[..], d, table[d.expectedActual]))
  {
    var to := (d.start + d.length) * 2;
    if to > chars.Length {
      return Some(OutOfRange);
    }
    if to < 40 || chars[to - 40..to] != d.expectedActual {
      return Some(Drifted);
    }
    if d.expectedActual !in table {
      return Some(Unresolved);
    }
    return if d.role == SelfRole && table[d.expectedActual] != own then Some(NotSelf) else None;
  }

  method WriteWindow(chars: array<Nibble>, d: Descriptor, target: Address)
    requires 40 <= End(d) <= chars.Length
    modifies chars
    ensures chars[..] == Overwritten(old(chars[..]), d, target)
  {
    var from := (d.start + d.length) * 2 - 40;
    for i := 0 to 40
      invariant forall k :: 0 <= k < chars.Length ==>
                  chars[k] == if from <= k < from + i then target[k - from] else old(chars[k])
    {
      chars[from + i] := target[i];
    }
    assert |chars[..]| == |Overwritten(old(chars[..]), d, target)|;
  }

  // ---- What projecting amounts to, digit by digit ----

  /** The digit at `k` once the first `n` windows are rewritten: the last of them to cover it decides. */
  function DigitAfter(code: Hex, ds: seq<Descriptor>, n: nat, table: Table, k: nat): Nibble
    requires n <= |ds| && k < |code|
    requires forall i :: 0 <= i < n ==> ds[i].expectedActual in table
  {
    if n == 0 then code[k]
    else if Covers(ds[n - 1], k) then table[ds[n - 1].expectedActual][k - (End(ds[n - 1]) - 40)]
    else DigitAfter(code, ds, n - 1, table, k)
  }

  /** A window that lies in the code and whose committed address is mapped, to the contract itself if it must be. */
  predicate Resolvable(d: Descriptor, size: nat, own: Address, table: Table) {
    && 40 <= End(d) <= size && d.expectedActual in table
    && (d.role == SelfRole ==> table[d.expectedActual] == own)
  }

  predicate AllResolvable(ds: seq<Descriptor>, n: nat, size: nat, own: Address, table: Table)
    requires n <= |ds|
  {
    forall i :: 0 <= i < n ==> Resolvable(ds[i], size, own, table)
  }

  /** Every window, when its turn comes, shows its commitment. */
  predicate Committed(code: Hex, ds: seq<Descriptor>, n: nat, own: Address, table: Table)
    requires n <= |ds|
  {
    && AllResolvable(ds, n, |code|, own, table)
    && forall i, k :: 0 <= i < n && 0 <= k < |code| && Covers(ds[i], k) ==>
         DigitAfter(code, ds, i, table, k) == ds[i].expectedActual[k - (End(ds[i]) - 40)]
  }

  /** For any windows at all: projection succeeds exactly when they are committed, and this is its result. */
  lemma {:induction false} ProjectExact(code: Hex, ds: seq<Descriptor>, n: nat, own: Address, table: Table)
    requires n <= |ds|
    ensures Project(code, ds, n, own, table).Ok? <==> Committed(code, ds, n, own, table)
    ensures Project(code, ds, n, own, table).Ok? ==>
              var r := Project(code, ds, n, own, table).value;
              |r| == |code| && forall k :: 0 <= k < |code| ==> r[k] == DigitAfter(code, ds, n, table, k)
  {
    if n > 0 {
      ProjectExact(code, ds, n - 1, own, table);
      var before := Project(code, ds, n - 1, own, table);
      if before.Ok? {
        ProjectStep(code, ds, n, own, table, before.value);
      }
    }
  }

  lemma ProjectStep(code: Hex, ds: seq<Descriptor>, n: nat, own: Address, table: Table, before: Hex)
    requires 0 < n <= |ds| && Committed(code, ds, n - 1, own, table)
    requires |before| == |code| && forall k :: 0 <= k < |code| ==> before[k] == DigitAfter(code, ds, n - 1, table, k)
    ensures ProjectOne(before, ds[n - 1], own, table).Ok? <==> Committed(code, ds, n, own, table)
    ensures ProjectOne(before, ds[n - 1], own, table).Ok? ==>
              var r := ProjectOne(before, ds[n - 1], own, table).value;
              |r| == |code| && forall k :: 0 <= k < |code| ==> r[k] == DigitAfter(code, ds, n, table, k)
  {
    OneWindow(before, ds[n - 1], own, table);
    ShowsDigits(before, ds[n - 1]);
    CommittedStep(code, ds, n, own, table);
    hide ProjectOne, Shows, Resolvable, Committed;
    if ProjectOne(before, ds[n - 1], own, table).Ok? {
      ResolvableMeans(ds, n, |code|, own, table);
    }
  }

  /** A window is rewritten exactly when it shows its commitment and resolves. */
  lemma OneWindow(code: Hex, d: Descriptor, own: Address, table: Table)
    ensures ProjectOne(code, d, own, table).Ok? <==> Shows(code, d) && Resolvable(d, |code|, own, table)
    ensures ProjectOne(code, d, own, table).Ok? ==>
              40 <= End(d) <= |code| && d.expectedActual in table
              && ProjectOne(code, d, own, table).value == Overwritten(code, d, table[d.expectedActual])
  {
  }

  lemma ResolvableMeans(ds: seq<Descriptor>, n: nat, size: nat, own: Address, table: Table)
    requires n <= |ds| && AllResolvable(ds, n, size, own, table)
    ensures forall i :: 0 <= i < n ==> ds[i].expectedActual in table && 40 <= End(ds[i]) <= size
  {
    assert forall i :: 0 <= i < n ==> Resolvable(ds[i], size, own, table);
  }

  /** The window shows its commitment once the first `n` are rewritten. */
  predicate ShowsAfter(code: Hex, ds: seq<Descriptor>, n: nat, table: Table, d: Descriptor)
    requires n <= |ds| && forall i :: 0 <= i < n ==> ds[i].expectedActual in table
  {
    forall k :: 0 <= k < |code| && Covers(d, k) ==> DigitAfter(code, ds, n, table, k) == d.expectedActual[k - (End(d) - 40)]
  }

  lemma CommittedStep(code: Hex, ds: seq<Descriptor>, n: nat, own: Address, table: Table)
    requires 0 < n <= |ds| && Committed(code, ds, n - 1, own, table)
    ensures AllResolvable(ds, n - 1, |code|, own, table)
    ensures forall i :: 0 <= i < n - 1 ==> ds[i].expectedActual in table
    ensures Committed(code, ds, n, own, table)
            <==> Resolvable(ds[n - 1], |code|, own, table) && ShowsAfter(code, ds, n - 1, table, ds[n - 1])
    ensures Resolvable(ds[n - 1], |code|, own, table) ==> AllResolvable(ds, n, |code|, own, table)
  {
    forall i | 0 <= i < n - 1 ensures ds[i].expectedActual in table { assert Resolvable(ds[i], |code|, own, table); }
    hide DigitAfter, Resolvable, Covers;
  }

  /** A window that shows its commitment in the given code. */
  predicate Shows(code: Hex, d: Descriptor) {
    40 <= End(d) <= |code| && code[End(d) - 40..End(d)] == d.expectedActual
  }

  lemma ShowsDigits(code: Hex, d: Descriptor)
    ensures Shows(code, d) <==>
            40 <= End(d) <= |code| && forall k :: 0 <= k < |code| && Covers(d, k) ==> code[k] == d.expectedActual[k - (End(d) - 40)]
  {
    if 40 <= End(d) <= |code| {
      var from := End(d) - 40;
      assert forall j :: 0 <= j < 40 ==> code[from..End(d)][j] == code[from + j];
      if forall k :: 0 <= k < |code| && Covers(d, k) ==> code[k] == d.expectedActual[k - from] {
        forall j | 0 <= j < 40 ensures code[from..End(d)][j] == d.expectedActual[j] { assert Covers(d, from + j); }
        assert code[from..End(d)] == d.expectedActual;
      }
    }
  }

  // ---- Disjoint windows ----

  predicate Disjoint(ds: seq<Descriptor>) {
    forall i, j :: 0 <= i < j < |ds| ==> End(ds[i]) <= End(ds[j]) - 40 || End(ds[j]) <= End(ds[i]) - 40
  }

  predicate AllShow(code: Hex, ds: seq<Descriptor>) {
    forall i :: 0 <= i < |ds| ==> Shows(code, ds[i])
  }

  /** What disjoint windows leave: the image in each window, the code as it was everywhere else. */
  predicate Replaced(code: Hex, ds: seq<Descriptor>, table: Table, r: Hex) {
    && |r| == |code|
    && (forall i, k :: 0 <= i < |ds| && 0 <= k < |code| && Covers(ds[i], k) && ds[i].expectedActual in table ==>
          r[k] == table[ds[i].expectedActual][k - (End(ds[i]) - 40)])
    && (forall k :: 0 <= k < |code| && (forall i :: 0 <= i < |ds| ==> !Covers(ds[i], k)) ==> r[k] == code[k])
  }

  lemma {:induction false} DisjointDigit(code: Hex, ds: seq<Descriptor>, n: nat, table: Table, i: nat, k: nat)
    requires n <= |ds| && k < |code| && Disjoint(ds) && forall j :: 0 <= j < n ==> ds[j].expectedActual in table
    ensures i < n && Covers(ds[i], k) ==>
              DigitAfter(code, ds, n, table, k) == table[ds[i].expectedActual][k - (End(ds[i]) - 40)]
    ensures (forall j :: 0 <= j < n ==> !Covers(ds[j], k)) ==> DigitAfter(code, ds, n, table, k) == code[k]
  {
    if n > 0 {
      DisjointDigit(code, ds, n - 1, table, i, k);
    }
  }

  /**
   * Disjoint windows project exactly when each one shows its commitment in the original code and
   * resolves; only the 40 digits of each window change, to the image of the committed address.
   */
  lemma DisjointProjection(code: Hex, ds: seq<Descriptor>, own: Address, table: Table)
    requires Disjoint(ds)
    ensures Project(code, ds, |ds|, own, table).Ok? <==> AllShow(code, ds) && AllResolvable(ds, |ds|, |code|, own, table)
    ensures Project(code, ds, |ds|, own, table).Ok? ==> Replaced(code, ds, table, Project(code, ds, |ds|, own, table).value)
  {
    ProjectExact(code, ds, |ds|, own, table);
    hide Shows, Disjoint;
    if AllResolvable(ds, |ds|, |code|, own, table) {
      DisjointCommitted(code, ds, own, table);
      if Project(code, ds, |ds|, own, table).Ok? {
        DisjointReplaced(code, ds, own, table, Project(code, ds, |ds|, own, table).value);
      }
    }
  }

  lemma DisjointCommitted(code: Hex, ds: seq<Descriptor>, own: Address, table: Table)
    requires Disjoint(ds) && AllResolvable(ds, |ds|, |code|, own, table)
    ensures Committed(code, ds, |ds|, own, table) <==> AllShow(code, ds)
  {
    forall i | 0 <= i < |ds|
      ensures Shows(code, ds[i]) <==> forall k :: 0 <= k < |code| && Covers(ds[i], k) ==>
                                        DigitAfter(code, ds, i, table, k) == ds[i].expectedActual[k - (End(ds[i]) - 40)]
    {
      assert Resolvable(ds[i], |code|, own, table);
      ShowsDigits(code, ds[i]);
      forall k | 0 <= k < |code| && Covers(ds[i], k) ensures DigitAfter(code, ds, i, table, k) == code[k] {
        forall j | 0 <= j < i ensures ds[j].expectedActual in table { assert Resolvable(ds[j], |code|, own, table); }
        DisjointDigit(code, ds, i, table, i, k);
      }
    }
  }

  lemma DisjointReplaced(code: Hex, ds: seq<Descriptor>, own: Address, table: Table, r: Hex)
    requires Disjoint(ds) && AllResolvable(ds, |ds|, |code|, own, table)
    requires |r| == |code| && forall k :: 0 <= k < |code| ==> r[k] == DigitAfter(code, ds, |ds|, table, k)
    ensures Replaced(code, ds, table, r)
  {
    forall j | 0 <= j < |ds| ensures ds[j].expectedActual in table { assert Resolvable(ds[j], |code|, own, table); }
    forall i, k | 0 <= i < |ds| && 0 <= k < |code| && Covers(ds[i], k) && ds[i].expectedActual in table
      ensures r[k] == table[ds[i].expectedActual][k - (End(ds[i]) - 40)]
    {
      DisjointDigit(code, ds, |ds|, table, i, k);
    }
    forall k | 0 <= k < |code| && (forall i :: 0 <= i < |ds| ==> !Covers(ds[i], k)) ensures r[k] == code[k] {
      DisjointDigit(code, ds, |ds|, table, 0, k);
    }
  }

  lemma ReplacedUnique(code: Hex, ds: seq<Descriptor>, es: seq<Descriptor>, table: Table, r: Hex, s: Hex)
    requires forall d :: d in ds <==> d in es
    requires forall i :: 0 <= i < |ds| ==> ds[i].expectedActual in table
    requires Replaced(code, ds, table, r) && Replaced(code, es, table, s)
    ensures r == s
  {
    forall k | 0 <= k < |code| ensures r[k] == s[k] {
      if i :| 0 <= i < |ds| && Covers(ds[i], k) {
        assert ds[i] in es;
        var j :| 0 <= j < |es| && es[j] == ds[i];
        assert Covers(es[j], k);
      } else {
        forall j | 0 <= j < |es| ensures !Covers(es[j], k) { assert es[j] in ds; }
      }
    }
  }

  /** Disjoint windows give the same result in any order. */
  lemma OrderIrrelevant(code: Hex, ds: seq<Descriptor>, es: seq<Descriptor>, own: Address, table: Table)
    requires Disjoint(ds) && Disjoint(es) && forall d :: d in ds <==> d in es
    ensures Project(code, ds, |ds|, own, table).Ok? <==> Project(code, es, |es|, own, table).Ok?
    ensures Project(code, ds, |ds|, own, table).Ok? ==>
              Project(code, ds, |ds|, own, table) == Project(code, es, |es|, own, table)
  {
    DisjointProjection(code, ds, own, table);
    DisjointProjection(code, es, own, table);
    hide Project, Disjoint, Shows, Replaced;
    assert forall i :: 0 <= i < |ds| ==> ds[i] in es;
    assert forall i :: 0 <= i < |es| ==> es[i] in ds;
    if Project(code, ds, |ds|, own, table).Ok? {
      forall i | 0 <= i < |ds| ensures ds[i].expectedActual in table { assert Resolvable(ds[i], |code|, own, table); }
      ReplacedUnique(code, ds, es, table, Project(code, ds, |ds|, own, table).value, Project(code, es, |es|, own, table).value);
    }
  }

  // ---- Projecting back ----

  /** The same windows, committed to what they show after projection. */
  function Turned(ds: seq<Descriptor>, table: Table): seq<Descriptor>
    requires forall i :: 0 <= i < |ds| ==> ds[i].expectedActual in table
  {
    seq(|ds|, i requires 0 <= i < |ds| => ds[i].(expectedActual := table[ds[i].expectedActual]))
  }

  /** Two tables that undo each other. */
  predicate Opposite(table: Table, back: Table) {
    && (forall a :: a in table ==> table[a] in back && back[table[a]] == a)
    && (forall p :: p in back ==> back[p] in table && table[back[p]] == p)
  }

  /** Projecting back through the inverse table restores the code, digit for digit. */
  lemma ProjectionReverses(code: Hex, ds: seq<Descriptor>, own: Address, table: Table, back: Table)
    requires Disjoint(ds) && Opposite(table, back) && own in back
    requires Project(code, ds, |ds|, own, table).Ok?
    ensures forall i :: 0 <= i < |ds| ==> ds[i].expectedActual in table
    ensures var r := Project(code, ds, |ds|, own, table).value;
            Project(r, Turned(ds, table), |ds|, back[own], back) == Ok(code)
  {
    DisjointProjection(code, ds, own, table);
    forall i | 0 <= i < |ds| ensures ds[i].expectedActual in table { assert Resolvable(ds[i], |code|, own, table); }
    var r, es := Project(code, ds, |ds|, own, table).value, Turned(ds, table);
    TurnedShow(code, ds, table, r);
    TurnedResolve(ds, |code|, own, table, back);
    assert Disjoint(es);
    DisjointProjection(r, es, back[own], back);
    hide Project, Disjoint;
    Restored(code, ds, table, back, r, Project(r, es, |ds|, back[own], back).value);
  }

  lemma TurnedShow(code: Hex, ds: seq<Descriptor>, table: Table, r: Hex)
    requires forall i :: 0 <= i < |ds| ==> ds[i].expectedActual in table && 40 <= End(ds[i]) <= |code|
    requires Replaced(code, ds, table, r)
    ensures AllShow(r, Turned(ds, table))
  {
    forall i | 0 <= i < |ds| ensures Shows(r, Turned(ds, table)[i]) {
      ShowsDigits(r, Turned(ds, table)[i]);
    }
  }

  lemma TurnedResolve(ds: seq<Descriptor>, size: nat, own: Address, table: Table, back: Table)
    requires AllResolvable(ds, |ds|, size, own, table) && Opposite(table, back) && own in back
    requires forall i :: 0 <= i < |ds| ==> ds[i].expectedActual in table
    ensures AllResolvable(Turned(ds, table), |ds|, size, back[own], back)
  {
    forall i | 0 <= i < |ds| ensures Resolvable(Turned(ds, table)[i], size, back[own], back) {
      assert Resolvable(ds[i], size, own, table);
    }
  }

  lemma Restored(code: Hex, ds: seq<Descriptor>, table: Table, back: Table, r: Hex, s: Hex)
    requires forall i :: 0 <= i < |ds| ==> ds[i].expectedActual in table
    requires AllShow(code, ds) && Opposite(table, back)
    requires Replaced(code, ds, table, r) && Replaced(r, Turned(ds, table), back, s)
    ensures s == code
  {
    var es := Turned(ds, table);
    forall k | 0 <= k < |code| ensures s[k] == code[k] {
      if i :| 0 <= i < |ds| && Covers(ds[i], k) {
        ShowsDigits(code, ds[i]);
        assert Shows(code, ds[i]);
        assert Covers(es[i], k);
      } else {
        assert forall i :: 0 <= i < |es| ==> Covers(es[i], k) == Covers(ds[i], k);
      }
    }
  }

  // ---- Windows bound from a code ----

  function Embedded(code: Hex, r: Range): Address
    requires AddressWidth(r) && (r.start + r.length) * 2 <= |code|
  {
    code[(r.start + r.length) * 2 - 40..(r.start + r.length) * 2]
  }

  /** The role a word plays in a contract of this kind, if it plays one. */
  function RoleOf(kind: Kind, embedded: Address, own: Address): Option<Role> {
    if kind == TransparentProxy then Some(AdminRole)
    else if kind == BeaconProxy then Some(BeaconRole)
    else if embedded == own then Some(SelfRole)
    else None
  }

  function Bound(code: Hex, kind: Kind, own: Address, r: Range): seq<Descriptor>
    requires AddressWidth(r) && (r.start + r.length) * 2 <= |code|
  {
    match RoleOf(kind, Embedded(code, r), own)
    case Some(role) => [Descriptor(role, r.start, r.length, Embedded(code, r))]
    case None => []
  }

  /** The descriptors of the first `n` ranges; narrower ranges are passed over. */
  function BoundAll(kind: Kind, own: Address, code: Hex, ranges: seq<Range>, n: nat): Result<seq<Descriptor>, ProjectionError>
    requires n <= |ranges|
  {
    if n == 0 then Ok([])
    else
      var earlier :- BoundAll(kind, own, code, ranges, n - 1);
      var r := ranges[n - 1];
      if !AddressWidth(r) then Ok(earlier)
      else if (r.start + r.length) * 2 > |code| then Err(OutOfRange)
      else Ok(earlier + Bound(code, kind, own, r))
  }

  lemma {:induction false} BoundAllFails(kind: Kind, own: Address, code: Hex, ranges: seq<Range>, m: nat, n: nat)
    requires m <= n <= |ranges| && BoundAll(kind, own, code, ranges, m).Err?
    ensures BoundAll(kind, own, code, ranges, n) == BoundAll(kind, own, code, ranges, m)
  {
    if m < n {
      BoundAllFails(kind, own, code, ranges, m, n - 1);
    }
  }

  method BuildDescriptorsFromRanges(kind: Kind, own: Address, code: Hex, ranges: seq<Range>)
    returns (r: Result<seq<Descriptor>, ProjectionError>)
    ensures r == BoundAll(kind, own, code, ranges, |ranges|)
  {
    var descriptors := [];
    for n := 0 to |ranges|
      invariant BoundAll(kind, own, code, ranges, n) == Ok(descriptors)
    {
      if AddressWidth(ranges[n]) {
        if (ranges[n].start + ranges[n].length) * 2 > |code| {
          BoundAllFails(kind, own, code, ranges, n + 1, |ranges|);
          return Err(OutOfRange);
        }
        descriptors := descriptors + Bound(code, kind, own, ranges[n]);
      }
    }
    return Ok(descriptors);
  }

  predicate InCode(code: Hex, ranges: seq<Range>) {
    forall i :: 0 <= i < |ranges| && AddressWidth(ranges[i]) ==> (ranges[i].start + ranges[i].length) * 2 <= |code|
  }

  predicate OfRange(d: Descriptor, r: Range) {
    AddressWidth(r) && d.start == r.start && d.length == r.length
  }

  /** A bound descriptor: its window shows its commitment, and its role is the one the kind gives it. */
  predicate IsBound(code: Hex, kind: Kind, own: Address, d: Descriptor) {
    Shows(code, d) && d.length >= 20 && RoleOf(kind, d.expectedActual, own) == Some(d.role)
  }

  /** Binding succeeds exactly when every address-wide range lies in the code. */
  lemma {:induction false} BindingSucceeds(kind: Kind, own: Address, code: Hex, ranges: seq<Range>, n: nat)
    requires n <= |ranges|
    ensures BoundAll(kind, own, code, ranges, n).Ok? <==> InCode(code, ranges[..n])
  {
    if n > 0 {
      BindingSucceeds(kind, own, code, ranges, n - 1);
      assert ranges[..n] == ranges[..n - 1] + [ranges[n - 1]];
    }
  }

  /** Every bound descriptor passes the drift check on the code it was bound from, and is some range's. */
  lemma {:induction false} BoundShows(kind: Kind, own: Address, code: Hex, ranges: seq<Range>, n: nat, i: nat) returns (j: nat)
    requires n <= |ranges| && BoundAll(kind, own, code, ranges, n).Ok? && i < |BoundAll(kind, own, code, ranges, n).value|
    ensures IsBound(code, kind, own, BoundAll(kind, own, code, ranges, n).value[i])
    ensures j < n && OfRange(BoundAll(kind, own, code, ranges, n).value[i], ranges[j])
  {
    var earlier := BoundAll(kind, own, code, ranges, n - 1).value;
    if i < |earlier| {
      j := BoundShows(kind, own, code, ranges, n - 1, i);
    } else {
      j := n - 1;
    }
  }

  /** Every address-wide range whose word plays a role is bound; in a proxy that is every one of them. */
  lemma {:induction false} RangeIsBound(kind: Kind, own: Address, code: Hex, ranges: seq<Range>, n: nat, j: nat) returns (i: nat)
    requires j < n <= |ranges| && BoundAll(kind, own, code, ranges, n).Ok? && AddressWidth(ranges[j])
    requires (ranges[j].start + ranges[j].length) * 2 <= |code| ==> RoleOf(kind, Embedded(code, ranges[j]), own).Some?
    ensures i < |BoundAll(kind, own, code, ranges, n).value|
    ensures OfRange(BoundAll(kind, own, code, ranges, n).value[i], ranges[j])
  {
    if j < n - 1 {
      i := RangeIsBound(kind, own, code, ranges, n - 1, j);
    } else {
      i := |BoundAll(kind, own, code, ranges, n - 1).value|;
    }
  }

  predicate DisjointRanges(ranges: seq<Range>) {
    forall i, j :: 0 <= i < j < |ranges| && AddressWidth(ranges[i]) && AddressWidth(ranges[j]) ==> Clear(ranges[i], ranges[j])
  }

  predicate Clear(r: Range, s: Range) {
    (r.start + r.length) * 2 <= (s.start + s.length) * 2 - 40 || (s.start + s.length) * 2 <= (r.start + r.length) * 2 - 40
  }

  lemma {:induction false} BoundDisjoint(kind: Kind, own: Address, code: Hex, ranges: seq<Range>, n: nat)
    requires n <= |ranges| && DisjointRanges(ranges) && BoundAll(kind, own, code, ranges, n).Ok?
    ensures Disjoint(BoundAll(kind, own, code, ranges, n).value)
  {
    if n > 0 {
      BoundDisjoint(kind, own, code, ranges, n - 1);
      var earlier := BoundAll(kind, own, code, ranges, n - 1).value;
      forall i | 0 <= i < |earlier| && AddressWidth(ranges[n - 1])
        ensures exists j :: 0 <= j < n - 1 && OfRange(earlier[i], ranges[j]) && Clear(ranges[j], ranges[n - 1])
      {
        var j := BoundShows(kind, own, code, ranges, n - 1, i);
      }
    }
  }

  // ---- Masking ----

  predicate InRange(r: Range, k: int) {
    r.start * 2 <= k < (r.start + r.length) * 2
  }

  predicate InSomeRange(ranges: seq<Range>, n: nat, k: int)
    requires n <= |ranges|
  {
    exists i :: 0 <= i < n && InRange(ranges[i], k)
  }

  predicate RangesFit(size: nat, ranges: seq<Range>) {
    forall i :: 0 <= i < |ranges| ==> (ranges[i].start + ranges[i].length) * 2 <= size
  }

  /** Zeros in every range, the code everywhere else. */
  function Masked(code: Hex, ranges: seq<Range>): Hex {
    seq(|code|, k requires 0 <= k < |code| => if InSomeRange(ranges, |ranges|, k) then 0 else code[k])
  }

  method MaskImmutables(code: Hex, ranges: seq<Range>) returns (r: Result<Hex, ProjectionError>)
    ensures r.Ok? <==> RangesFit(|code|, ranges)
    ensures r.Ok? ==> r.value == Masked(code, ranges)
  {
    var chars := new Nibble[|code|](i requires 0 <= i < |code| => code[i]);
    for n := 0 to |ranges|
      invariant RangesFit(|code|, ranges[..n])
      invariant forall k :: 0 <= k < |code| ==> chars[k] == if InSomeRange(ranges, n, k) then 0 else code[k]
    {
      var to := (ranges[n].start + ranges[n].length) * 2;
      if to > chars.Length {
        return Err(OutOfRange);
      }
      ZeroRange(chars, ranges[n]);
      MoreRanges(ranges, n);
    }
    return Ok(chars[..]);
  }

  method ZeroRange(chars: array<Nibble>, r: Range)
    requires (r.start + r.length) * 2 <= chars.Length
    modifies chars
    ensures forall k :: 0 <= k < chars.Length ==> chars[k] == if InRange(r, k) then 0 else old(chars[k])
  {
    var from, to := r.start * 2, (r.start + r.length) * 2;
    for i := from to to
      invariant forall k :: 0 <= k < chars.Length ==> chars[k] == if from <= k < i then 0 else old(chars[k])
    {
      chars[i] := 0;
    }
  }

  lemma MoreRanges(ranges: seq<Range>, n: nat)
    requires n < |ranges|
    ensures forall k :: InSomeRange(ranges, n + 1, k) <==> InSomeRange(ranges, n, k) || InRange(ranges[n], k)
    ensures ranges[..n + 1] == ranges[..n] + [ranges[n]]
  {
  }

  /** Two codes of one length have equal masks exactly when they agree outside the ranges. */
  lemma EqualMasks(code: Hex, template: Hex, ranges: seq<Range>)
    requires |code| == |template|
    ensures Masked(code, ranges) == Masked(template, ranges)
            <==> forall k :: 0 <= k < |code| && !InSomeRange(ranges, |ranges|, k) ==> code[k] == template[k]
  {
    var r, s := Masked(code, ranges), Masked(template, ranges);
    if r == s {
      forall k | 0 <= k < |code| && !InSomeRange(ranges, |ranges|, k) ensures code[k] == template[k] {
        assert r[k] == s[k];
      }
    }
  }

  // ---- Overlapping windows ----

  /** Wherever two windows overlap, the image of the earlier one is what the code showed there anyway. */
  predicate OverlapsAgree(code: Hex, ds: seq<Descriptor>, n: nat, table: Table)
    requires n <= |ds| && forall i :: 0 <= i < n ==> ds[i].expectedActual in table
  {
    forall i, j, k :: 0 <= i < j < n && 0 <= k < |code| && Covers(ds[i], k) && Covers(ds[j], k) ==>
      table[ds[i].expectedActual][k - (End(ds[i]) - 40)] == code[k]
  }

  lemma {:induction false} AgreeingDigit(code: Hex, ds: seq<Descriptor>, n: nat, table: Table, k: nat)
    requires n <= |ds| && k < |code| && forall i :: 0 <= i < n ==> ds[i].expectedActual in table
    requires forall i :: 0 <= i < n && Covers(ds[i], k) ==> table[ds[i].expectedActual][k - (End(ds[i]) - 40)] == code[k]
    ensures DigitAfter(code, ds, n, table, k) == code[k]
  {
    if n > 0 {
      AgreeingDigit(code, ds, n - 1, table, k);
    }
  }

  lemma {:induction false} ShownDigitsAgree(code: Hex, ds: seq<Descriptor>, n: nat, own: Address, table: Table, i: nat, k: nat)
    requires n <= |ds| && i < n && k < |code| && AllShow(code, ds) && Committed(code, ds, n, own, table)
    requires Covers(ds[i], k) && Resolvable(ds[i], |code|, own, table)
    requires forall j :: 0 <= j < n ==> ds[j].expectedActual in table
    requires DigitAfter(code, ds, n, table, k) == code[k]
    ensures table[ds[i].expectedActual][k - (End(ds[i]) - 40)] == code[k]
  {
    if i < n - 1 {
      if Covers(ds[n - 1], k) {
        assert Shows(code, ds[n - 1]);
        ShowsDigits(code, ds[n - 1]);
      }
      ShownDigitsAgree(code, ds, n - 1, own, table, i, k);
    }
  }

  /** Windows bound from the code itself project exactly when they resolve and agree wherever they overlap. */
  lemma OverlappingProjection(code: Hex, ds: seq<Descriptor>, own: Address, table: Table)
    requires AllShow(code, ds) && AllResolvable(ds, |ds|, |code|, own, table)
    requires forall i :: 0 <= i < |ds| ==> ds[i].expectedActual in table
    ensures Project(code, ds, |ds|, own, table).Ok? <==> OverlapsAgree(code, ds, |ds|, table)
  {
    ProjectExact(code, ds, |ds|, own, table);
    hide Project;
    if Committed(code, ds, |ds|, own, table) {
      forall i, j, k | 0 <= i < j < |ds| && 0 <= k < |code| && Covers(ds[i], k) && Covers(ds[j], k)
        ensures table[ds[i].expectedActual][k - (End(ds[i]) - 40)] == code[k]
      {
        assert Shows(code, ds[j]);
        ShowsDigits(code, ds[j]);
        assert Resolvable(ds[i], |code|, own, table);
        assert Committed(code, ds, j, own, table);
        ShownDigitsAgree(code, ds, j, own, table, i, k);
      }
    }
    if OverlapsAgree(code, ds, |ds|, table) {
      forall i, k | 0 <= i < |ds| && 0 <= k < |code| && Covers(ds[i], k)
        ensures DigitAfter(code, ds, i, table, k) == ds[i].expectedActual[k - (End(ds[i]) - 40)]
      {
        assert Shows(code, ds[i]);
        ShowsDigits(code, ds[i]);
        AgreeingDigit(code, ds, i, table, k);
      }
    }
  }
}
