/**
 * Translating ABI values between the two address worlds: predicted to actual on the way out
 * (rpc-src/rewriter.ts), actual to predicted on the way back (rpc-src/handlers.ts).
 */
module Rewriter {
  import opened Wrappers
  import opened Addresses
  import opened ChainState
  import opened AddressMap

  type Name = nat

  datatype Component = Component(name: Option<Name>, t: Type)

  datatype Type =
    | AddressType
    | BytesType
    | PlainType
    | ArrayType(child: Type)
    | TupleType(components: seq<Component>)

  /** A decoded value; tuples come as lists or as objects with a field per component. */
  datatype Value =
    | AddressValue(address: Address)
    | BytesValue(digits: Hex)
    | PlainValue(content: nat)
    | List(items: seq<Value>)
    | Object(fields: map<Name, Value>)
    | Undefined

  datatype RewriteError = InvalidAddress | ZeroLookup | InvalidAbiValue | InvalidBytes | OpaquePredictedAddress

  // ---- The opaque scan ----

  predicate OccursAt(bytes: Hex, a: Address, k: nat) {
    k + 40 <= |bytes| && bytes[k..k + 40] == a
  }

  /** The address starts on a byte boundary somewhere in the payload. */
  predicate Carries(bytes: Hex, a: Address) {
    exists k :: 0 <= k < |bytes| && k % 2 == 0 && OccursAt(bytes, a, k)
  }

  predicate CarriesAny(bytes: Hex, predicted: set<Address>) {
    exists a :: a in predicted && Carries(bytes, a)
  }

  /** The first occurrence at or after `from`, as a substring search gives it. */
  method IndexOf(bytes: Hex, a: Address, from: nat) returns (r: Option<nat>)
    ensures r.None? ==> forall k :: from <= k ==> !OccursAt(bytes, a, k)
    ensures r.Some? ==> from <= r.value && OccursAt(bytes, a, r.value)
                        && forall k :: from <= k < r.value ==> !OccursAt(bytes, a, k)
  {
    var i := from;
    while i + 40 <= |bytes|
      invariant from <= i
      invariant forall k :: from <= k < i ==> !OccursAt(bytes, a, k)
      decreases |bytes| - i
    {
      if OccursAt(bytes, a, i) {
        return Some(i);
      }
      i := i + 1;
    }
    return None;
  }

  /**
   * The search steps past matches on odd digits and rejects at an even one. It stops, and it rejects
   * exactly the payloads that carry a known predicted address on a byte boundary.
   */
  method AssertOpaqueBytesSafe(digits: Hex, predicted: set<Address>) returns (e: Option<RewriteError>)
    ensures e == Scan(digits, predicted)
    ensures e == Some(InvalidBytes) <==> |digits| % 2 != 0
    ensures e == Some(OpaquePredictedAddress) <==> |digits| % 2 == 0 && exists a :: a in predicted && Carries(digits, a)
    ensures e.None? <==> |digits| % 2 == 0 && forall a :: a in predicted ==> !Carries(digits, a)
  {
    if |digits| % 2 != 0 {
      return Some(InvalidBytes);
    }
    var rest := predicted;
    while rest != {}
      invariant rest <= predicted
      invariant forall a :: a in predicted && a !in rest ==> !Carries(digits, a)
      decreases rest
    {
      var a :| a in rest;
      var offset := IndexOf(digits, a, 0);
      while offset.Some?
        invariant offset.None? ==> !Carries(digits, a)
        invariant offset.Some? ==> OccursAt(digits, a, offset.value)
                                   && forall k :: 0 <= k < offset.value && OccursAt(digits, a, k) ==> k % 2 != 0
        decreases if offset.Some? then |digits| - offset.value else 0
      {
        if offset.value % 2 == 0 {
          assert Carries(digits, a);
          return Some(OpaquePredictedAddress);
        }
        offset := IndexOf(digits, a, offset.value + 1);
      }
      rest := rest - {a};
    }
    return None;
  }

  function Scan(digits: Hex, predicted: set<Address>): Option<RewriteError> {
    if |digits| % 2 != 0 then Some(InvalidBytes)
    else if CarriesAny(digits, predicted) then Some(OpaquePredictedAddress)
    else None
  }

  // ---- Outward ----

  function MapAddress(c: Chain, a: Address): Result<Value, RewriteError> {
    if !NonZero(a) then Err(ZeroLookup)
    else Ok(AddressValue(if a in c.byPredicted then c.byPredicted[a].actual else a))
  }

  function Rewrite(c: Chain, t: Type, v: Value): Result<Value, RewriteError>
    decreases t, 1, 0
  {
    match t
    case AddressType => if v.AddressValue? then MapAddress(c, v.address) else Err(InvalidAddress)
    case BytesType =>
      if !v.BytesValue? then Err(InvalidBytes)
      else if Scan(v.digits, c.byPredicted.Keys).Some? then Err(Scan(v.digits, c.byPredicted.Keys).value)
      else Ok(v)
    case PlainType => Ok(v)
    case ArrayType(_) =>
      if !v.List? then Err(InvalidAbiValue)
      else
        var items :- RewriteItems(c, t, v.items, |v.items|);
        Ok(List(items))
    case TupleType(components) =>
      if v.List? then
        if |v.items| != |components| then Err(InvalidAbiValue)
        else
          var items :- RewriteItems(c, t, v.items, |v.items|);
          Ok(List(items))
      else if v.Object? then
        var fields :- RewriteFields(c, t, v.fields, |components|);
        Ok(Object(fields))
      else Err(InvalidAbiValue)
  }

  /** The type of the item at `k` of a list value. */
  function ItemType(t: Type, k: nat): (r: Type)
    requires t.ArrayType? || (t.TupleType? && k < |t.components|)
    ensures r < t
  {
    if t.ArrayType? then t.child else t.components[k].t
  }

  predicate Fits(t: Type, size: nat) {
    t.ArrayType? || (t.TupleType? && size == |t.components|)
  }

  function RewriteItems(c: Chain, t: Type, items: seq<Value>, k: nat): (r: Result<seq<Value>, RewriteError>)
    requires Fits(t, |items|) && k <= |items|
    ensures r.Ok? ==> |r.value| == k
    decreases t, 0, k
  {
    if k == 0 then Ok([])
    else
      var earlier :- RewriteItems(c, t, items, k - 1);
      var item :- Rewrite(c, ItemType(t, k - 1), items[k - 1]);
      Ok(earlier + [item])
  }

  /** Every component must be named and present; one name twice is written twice, the later one last. */
  function RewriteFields(c: Chain, t: Type, fields: map<Name, Value>, k: nat): (r: Result<map<Name, Value>, RewriteError>)
    requires t.TupleType? && k <= |t.components|
    ensures r.Ok? ==> r.value.Keys == fields.Keys
    decreases t, 0, k
  {
    if k == 0 then Ok(fields)
    else
      var earlier :- RewriteFields(c, t, fields, k - 1);
      var name := t.components[k - 1].name;
      if name.None? || name.value !in fields then Err(InvalidAbiValue)
      else
        var field :- Rewrite(c, t.components[k - 1].t, fields[name.value]);
        Ok(earlier[name.value := field])
  }

  // ---- Inward ----

  function Reverse(c: Chain, t: Type, v: Value): Result<Value, RewriteError>
    decreases t, 1, 0
  {
    match t
    case AddressType =>
      if !v.AddressValue? then Ok(v)
      else if !NonZero(v.address) then Err(ZeroLookup)
      else Ok(AddressValue(if v.address in c.byActual then c.byActual[v.address] else v.address))
    case ArrayType(_) =>
      if !v.List? then Ok(v)
      else
        var items :- ReverseItems(c, t, v.items, |v.items|);
        Ok(List(items))
    case TupleType(components) =>
      if !v.List? then Ok(v)
      else
        var items :- ReverseItems(c, t, v.items, |components|);
        Ok(List(items))
    case _ => Ok(v)
  }

  /** The first `k` items; a tuple value that is too short lacks its later ones. */
  function ReverseItems(c: Chain, t: Type, items: seq<Value>, k: nat): (r: Result<seq<Value>, RewriteError>)
    requires t.ArrayType? || (t.TupleType? && k <= |t.components|)
    ensures r.Ok? ==> |r.value| == k
    decreases t, 0, k
  {
    if k == 0 then Ok([])
    else
      var earlier :- ReverseItems(c, t, items, k - 1);
      var item :- Reverse(c, ItemType(t, k - 1), if k - 1 < |items| then items[k - 1] else Undefined);
      Ok(earlier + [item])
  }

  // ---- What both directions do, item by item and field by field ----

  lemma {:induction false} RewrittenItem(c: Chain, t: Type, items: seq<Value>, k: nat, i: nat)
    requires Fits(t, |items|) && i < k <= |items| && RewriteItems(c, t, items, k).Ok?
    ensures Rewrite(c, ItemType(t, i), items[i]) == Ok(RewriteItems(c, t, items, k).value[i])
  {
    if i < k - 1 {
      RewrittenItem(c, t, items, k - 1, i);
    }
  }

  lemma {:induction false} ReversedItem(c: Chain, t: Type, items: seq<Value>, k: nat, i: nat)
    requires Fits(t, |items|) && i < k <= |items| && ReverseItems(c, t, items, k).Ok?
    ensures Reverse(c, ItemType(t, i), items[i]) == Ok(ReverseItems(c, t, items, k).value[i])
  {
    if i < k - 1 {
      ReversedItem(c, t, items, k - 1, i);
    }
  }

  lemma {:induction false} ReverseItemsAccepts(c: Chain, t: Type, items: seq<Value>, k: nat)
    requires Fits(t, |items|) && k <= |items|
    requires forall i :: 0 <= i < k ==> Reverse(c, ItemType(t, i), items[i]).Ok?
    ensures ReverseItems(c, t, items, k).Ok?
  {
    if k > 0 {
      ReverseItemsAccepts(c, t, items, k - 1);
    }
  }

  /** The last of the first `k` components to bear its name; it is the one that decides the field. */
  predicate Decides(components: seq<Component>, k: nat, j: nat)
    requires k <= |components|
  {
    j < k && components[j].name.Some? && forall i :: j < i < k ==> components[i].name != components[j].name
  }

  lemma {:induction false} RewrittenField(c: Chain, t: Type, fields: map<Name, Value>, k: nat, j: nat)
    requires t.TupleType? && k <= |t.components| && RewriteFields(c, t, fields, k).Ok? && Decides(t.components, k, j)
    ensures t.components[j].name.value in fields
    ensures Rewrite(c, t.components[j].t, fields[t.components[j].name.value])
            == Ok(RewriteFields(c, t, fields, k).value[t.components[j].name.value])
  {
    if j < k - 1 {
      assert Decides(t.components, k - 1, j);
      RewrittenField(c, t, fields, k - 1, j);
    }
  }

  lemma {:induction false} OtherField(c: Chain, t: Type, fields: map<Name, Value>, k: nat, name: Name)
    requires t.TupleType? && k <= |t.components| && RewriteFields(c, t, fields, k).Ok? && name in fields
    requires forall j :: 0 <= j < k ==> t.components[j].name != Some(name)
    ensures RewriteFields(c, t, fields, k).value[name] == fields[name]
  {
    if k > 0 {
      OtherField(c, t, fields, k - 1, name);
    }
  }

  lemma {:induction false} Decider(components: seq<Component>, k: nat, i: nat) returns (j: nat)
    requires i < k <= |components| && components[i].name.Some?
    ensures Decides(components, k, j) && components[j].name == components[i].name
  {
    if components[k - 1].name == components[i].name {
      j := k - 1;
    } else {
      j := Decider(components, k - 1, i);
    }
  }

  // ---- Which values are accepted ----

  /**
   * Every address leaf is a nonzero address, every payload has whole bytes and carries no known predicted
   * address on a byte boundary, lists have the length their tuple asks for, and objects have a field for
   * every component, all of which are named.
   */
  predicate Rewritable(c: Chain, t: Type, v: Value)
    decreases t
  {
    match t
    case AddressType => v.AddressValue? && NonZero(v.address)
    case BytesType => v.BytesValue? && |v.digits| % 2 == 0 && forall p :: p in c.byPredicted ==> !Carries(v.digits, p)
    case PlainType => true
    case ArrayType(_) => v.List? && forall i :: 0 <= i < |v.items| ==> Rewritable(c, ItemType(t, i), v.items[i])
    case TupleType(components) =>
      || (&& v.List? && |v.items| == |components|
          && forall i :: 0 <= i < |v.items| ==> Rewritable(c, ItemType(t, i), v.items[i]))
      || (&& v.Object?
          && forall j :: 0 <= j < |components| ==>
               && components[j].name.Some? && components[j].name.value in v.fields
               && Rewritable(c, ItemType(t, j), v.fields[components[j].name.value]))
  }

  lemma {:induction false} ItemsAccepted(c: Chain, t: Type, items: seq<Value>, k: nat)
    requires Fits(t, |items|) && k <= |items|
    ensures RewriteItems(c, t, items, k).Ok? <==> forall i :: 0 <= i < k ==> Rewrite(c, ItemType(t, i), items[i]).Ok?
  {
    if k > 0 {
      ItemsAccepted(c, t, items, k - 1);
    }
  }

  /** A component has its field, and that is accepted. */
  predicate FieldAccepted(c: Chain, t: Type, fields: map<Name, Value>, j: nat)
    requires t.TupleType? && j < |t.components|
  {
    var name := t.components[j].name;
    name.Some? && name.value in fields && Rewrite(c, ItemType(t, j), fields[name.value]).Ok?
  }

  lemma {:induction false} FieldsAccepted(c: Chain, t: Type, fields: map<Name, Value>, k: nat)
    requires t.TupleType? && k <= |t.components|
    ensures RewriteFields(c, t, fields, k).Ok? <==> forall j :: 0 <= j < k ==> FieldAccepted(c, t, fields, j)
  {
    if k > 0 {
      FieldsAccepted(c, t, fields, k - 1);
      assert RewriteFields(c, t, fields, k).Ok? <==> RewriteFields(c, t, fields, k - 1).Ok? && FieldAccepted(c, t, fields, k - 1);
    }
  }

  lemma FieldsRewritable(c: Chain, t: Type, v: Value)
    requires t.TupleType? && v.Object?
    requires forall j :: 0 <= j < |t.components| && t.components[j].name.Some? && t.components[j].name.value in v.fields ==>
               (FieldAccepted(c, t, v.fields, j) <==> Rewritable(c, ItemType(t, j), v.fields[t.components[j].name.value]))
    ensures Rewritable(c, t, v) <==> forall j :: 0 <= j < |t.components| ==> FieldAccepted(c, t, v.fields, j)
  {
    if Rewritable(c, t, v) {
      forall j | 0 <= j < |t.components| ensures FieldAccepted(c, t, v.fields, j) {
        assert t.components[j].name.Some?;
      }
    }
    if forall j :: 0 <= j < |t.components| ==> FieldAccepted(c, t, v.fields, j) {
      forall j | 0 <= j < |t.components|
        ensures t.components[j].name.Some? && t.components[j].name.value in v.fields
        ensures Rewritable(c, ItemType(t, j), v.fields[t.components[j].name.value])
      {
        assert FieldAccepted(c, t, v.fields, j);
      }
    }
  }

  /** Rewriting accepts exactly the rewritable values, however deeply they nest. */
  lemma {:induction false} RewriteExact(c: Chain, t: Type, v: Value)
    ensures Rewrite(c, t, v).Ok? <==> Rewritable(c, t, v)
    decreases t
  {
    if (t.ArrayType? || t.TupleType?) && v.List? {
      if Fits(t, |v.items|) {
        ItemsAccepted(c, t, v.items, |v.items|);
        forall i | 0 <= i < |v.items| ensures Rewrite(c, ItemType(t, i), v.items[i]).Ok? <==> Rewritable(c, ItemType(t, i), v.items[i]) {
          RewriteExact(c, ItemType(t, i), v.items[i]);
        }
      }
    } else if t.TupleType? && v.Object? {
      FieldsAccepted(c, t, v.fields, |t.components|);
      forall j | 0 <= j < |t.components| && t.components[j].name.Some? && t.components[j].name.value in v.fields
        ensures FieldAccepted(c, t, v.fields, j) <==> Rewritable(c, ItemType(t, j), v.fields[t.components[j].name.value])
      {
        RewriteExact(c, ItemType(t, j), v.fields[t.components[j].name.value]);
      }
      FieldsRewritable(c, t, v);
    } else if t.BytesType? && v.BytesValue? {
      assert CarriesAny(v.digits, c.byPredicted.Keys) <==> exists p :: p in c.byPredicted && Carries(v.digits, p);
    }
  }

  // ---- What becomes of an accepted value ----

  type LeafRelation = (Address, Address) -> bool

  /** The two values have the same shape and differ at most in their address leaves, which are related. */
  predicate Alike(t: Type, v: Value, w: Value, leaf: LeafRelation)
    decreases t
  {
    match t
    case AddressType => v.AddressValue? && w.AddressValue? && leaf(v.address, w.address)
    case ArrayType(_) =>
      v.List? && w.List? && |w.items| == |v.items|
      && forall i :: 0 <= i < |v.items| ==> Alike(ItemType(t, i), v.items[i], w.items[i], leaf)
    case TupleType(components) =>
      if v.List? then
        w.List? && |w.items| == |v.items| == |components|
        && forall i :: 0 <= i < |v.items| ==> Alike(ItemType(t, i), v.items[i], w.items[i], leaf)
      else
        && v.Object? && w.Object? && w.fields.Keys == v.fields.Keys
        && (forall j :: 0 <= j < |components| && Decides(components, |components|, j) ==>
              && components[j].name.value in v.fields
              && Alike(ItemType(t, j), v.fields[components[j].name.value], w.fields[components[j].name.value], leaf))
        && (forall name :: name in v.fields && (forall j :: 0 <= j < |components| ==> components[j].name != Some(name)) ==>
              w.fields[name] == v.fields[name])
    case _ => w == v
  }

  /** The actual address of a mapped predicted one; any other address stands for itself. */
  function MovedOut(c: Chain): LeafRelation {
    (a, b) => if a in c.byPredicted then b == c.byPredicted[a].actual else b == a
  }

  /** Rewriting keeps the shape of every value it accepts and changes nothing but address leaves, each to its image. */
  lemma {:induction false} RewriteAlike(c: Chain, t: Type, v: Value)
    requires Rewrite(c, t, v).Ok?
    ensures Alike(t, v, Rewrite(c, t, v).value, MovedOut(c))
    decreases t
  {
    var w, leaf := Rewrite(c, t, v).value, MovedOut(c);
    if (t.ArrayType? || t.TupleType?) && v.List? {
      forall i | 0 <= i < |v.items| ensures Alike(ItemType(t, i), v.items[i], w.items[i], leaf) {
        RewrittenItem(c, t, v.items, |v.items|, i);
        RewriteAlike(c, ItemType(t, i), v.items[i]);
      }
    } else if t.TupleType? {
      var components := t.components;
      forall j | 0 <= j < |components| && Decides(components, |components|, j)
        ensures components[j].name.value in v.fields
        ensures Alike(ItemType(t, j), v.fields[components[j].name.value], w.fields[components[j].name.value], leaf)
      {
        RewrittenField(c, t, v.fields, |components|, j);
        RewriteAlike(c, ItemType(t, j), v.fields[components[j].name.value]);
      }
      forall name | name in v.fields && (forall j :: 0 <= j < |components| ==> components[j].name != Some(name))
        ensures w.fields[name] == v.fields[name]
      {
        OtherField(c, t, v.fields, |components|, name);
      }
    }
  }

  predicate AnyLeaf(a: Address, b: Address) {
    true
  }

  /** Stays, or turns from a mapped actual address into its predicted one. */
  function MovedBack(c: Chain): LeafRelation {
    (a, b) => b == a || (a in c.byActual && b == c.byActual[a])
  }

  lemma {:induction false} SelfAlike(c: Chain, t: Type, w: Value)
    requires Alike(t, w, w, AnyLeaf)
    ensures Alike(t, w, w, MovedBack(c))
    decreases t
  {
    if (t.ArrayType? || t.TupleType?) && w.List? {
      forall i | 0 <= i < |w.items| ensures Alike(ItemType(t, i), w.items[i], w.items[i], MovedBack(c)) {
        SelfAlike(c, ItemType(t, i), w.items[i]);
      }
    } else if t.TupleType? {
      var components := t.components;
      forall j | 0 <= j < |components| && Decides(components, |components|, j)
        ensures Alike(ItemType(t, j), w.fields[components[j].name.value], w.fields[components[j].name.value], MovedBack(c))
      {
        SelfAlike(c, ItemType(t, j), w.fields[components[j].name.value]);
      }
    }
  }

  /** Translating back keeps the shape of every well-shaped value as well. */
  lemma {:induction false} ReverseAlike(c: Chain, t: Type, w: Value)
    requires Alike(t, w, w, AnyLeaf) && Reverse(c, t, w).Ok?
    ensures Alike(t, w, Reverse(c, t, w).value, MovedBack(c))
    decreases t
  {
    if (t.ArrayType? || t.TupleType?) && w.List? {
      var back := Reverse(c, t, w).value;
      forall i | 0 <= i < |w.items| ensures Alike(ItemType(t, i), w.items[i], back.items[i], MovedBack(c)) {
        ReversedItem(c, t, w.items, |w.items|, i);
        ReverseAlike(c, ItemType(t, i), w.items[i]);
      }
    } else if t.TupleType? {
      SelfAlike(c, t, w);
    }
  }

  /** No address that translating back comes across is zero. */
  predicate Reversible(t: Type, v: Value)
    decreases t
  {
    match t
    case AddressType => v.AddressValue? ==> NonZero(v.address)
    case ArrayType(_) => v.List? ==> forall i :: 0 <= i < |v.items| ==> Reversible(ItemType(t, i), v.items[i])
    case TupleType(components) =>
      v.List? ==> forall i :: 0 <= i < |v.items| && i < |components| ==> Reversible(ItemType(t, i), v.items[i])
    case _ => true
  }

  /**
   * What translating back makes of any value, well-shaped or not: every mapped actual address it comes
   * across is replaced, a tuple gets exactly as many items as it has components, and whatever does not
   * look like its type stays.
   */
  predicate TurnedBack(c: Chain, t: Type, v: Value, w: Value)
    decreases t
  {
    match t
    case AddressType =>
      if v.AddressValue? && v.address in c.byActual then w == AddressValue(c.byActual[v.address]) else w == v
    case ArrayType(_) =>
      if v.List? then
        && w.List? && |w.items| == |v.items|
        && forall i :: 0 <= i < |v.items| ==> TurnedBack(c, ItemType(t, i), v.items[i], w.items[i])
      else w == v
    case TupleType(components) =>
      if v.List? then
        && w.List? && |w.items| == |components|
        && (forall i :: 0 <= i < |w.items| && i < |v.items| ==> TurnedBack(c, ItemType(t, i), v.items[i], w.items[i]))
        && (forall i :: |v.items| <= i < |w.items| ==> w.items[i] == Undefined)
      else w == v
    case _ => w == v
  }

  /** The item at `i`, or nothing where a tuple value is too short. */
  function ItemAt(items: seq<Value>, i: nat): Value {
    if i < |items| then items[i] else Undefined
  }

  lemma {:induction false} TurnedItems(c: Chain, t: Type, items: seq<Value>, k: nat)
    requires t.ArrayType? || (t.TupleType? && k <= |t.components|)
    ensures ReverseItems(c, t, items, k).Ok? <==> forall i :: 0 <= i < k ==> Reverse(c, ItemType(t, i), ItemAt(items, i)).Ok?
    ensures ReverseItems(c, t, items, k).Ok? ==>
              forall i :: 0 <= i < k ==> Reverse(c, ItemType(t, i), ItemAt(items, i)) == Ok(ReverseItems(c, t, items, k).value[i])
  {
    if k > 0 {
      TurnedItems(c, t, items, k - 1);
    }
  }

  /** Translating back accepts exactly the values without a zero address in them, and this is its result. */
  lemma {:induction false} ReverseExact(c: Chain, t: Type, v: Value)
    ensures Reverse(c, t, v).Ok? <==> Reversible(t, v)
    ensures Reverse(c, t, v).Ok? ==> TurnedBack(c, t, v, Reverse(c, t, v).value)
    decreases t
  {
    if (t.ArrayType? || t.TupleType?) && v.List? {
      var n := if t.ArrayType? then |v.items| else |t.components|;
      TurnedItems(c, t, v.items, n);
      forall i | 0 <= i < n && i < |v.items|
        ensures Reverse(c, ItemType(t, i), v.items[i]).Ok? <==> Reversible(ItemType(t, i), v.items[i])
        ensures Reverse(c, ItemType(t, i), v.items[i]).Ok? ==>
                  TurnedBack(c, ItemType(t, i), v.items[i], Reverse(c, ItemType(t, i), v.items[i]).value)
      {
        ReverseExact(c, ItemType(t, i), v.items[i]);
      }
      forall i | |v.items| <= i < n ensures Reverse(c, ItemType(t, i), ItemAt(v.items, i)) == Ok(Undefined) {}
    }
  }

  // ---- The round trip ----

  /** No leaf that decides the rewritten value is moved by the address table. */
  predicate Untouched(c: Chain, t: Type, v: Value)
    decreases t
  {
    match t
    case AddressType => v.AddressValue? ==> v.address in c.byPredicted ==> c.byPredicted[v.address].actual == v.address
    case ArrayType(_) => v.List? ==> forall i :: 0 <= i < |v.items| ==> Untouched(c, ItemType(t, i), v.items[i])
    case TupleType(components) =>
      && (v.List? && |v.items| == |components| ==> forall i :: 0 <= i < |v.items| ==> Untouched(c, ItemType(t, i), v.items[i]))
      && (v.Object? ==>
            forall j :: 0 <= j < |components| && Decides(components, |components|, j) && components[j].name.value in v.fields ==>
              Untouched(c, ItemType(t, j), v.fields[components[j].name.value]))
    case _ => true
  }

  /**
   * Every address leaf is a mapped predicted address, or is not a mapped actual one. A tuple given as
   * an object is not translated back, so nothing in it may be moved in the first place.
   */
  predicate Restorable(c: Chain, t: Type, v: Value)
    decreases t
  {
    match t
    case AddressType => v.AddressValue? ==> v.address in c.byPredicted || v.address !in c.byActual
    case ArrayType(_) => v.List? ==> forall i :: 0 <= i < |v.items| ==> Restorable(c, ItemType(t, i), v.items[i])
    case TupleType(components) =>
      if v.List? then
        |v.items| == |components| ==> forall i :: 0 <= i < |v.items| ==> Restorable(c, ItemType(t, i), v.items[i])
      else Untouched(c, t, v)
    case _ => true
  }

  lemma ItemsUntouched(c: Chain, t: Type, v: Value)
    requires v.List? && Fits(t, |v.items|) && Rewrite(c, t, v).Ok?
    requires forall i :: 0 <= i < |v.items| && Rewrite(c, ItemType(t, i), v.items[i]).Ok? ==>
               (Rewrite(c, ItemType(t, i), v.items[i]).value == v.items[i] <==> Untouched(c, ItemType(t, i), v.items[i]))
    ensures Rewrite(c, t, v).value == v <==> forall i :: 0 <= i < |v.items| ==> Untouched(c, ItemType(t, i), v.items[i])
  {
    var items := RewriteItems(c, t, v.items, |v.items|).value;
    forall i | 0 <= i < |v.items| ensures Rewrite(c, ItemType(t, i), v.items[i]) == Ok(items[i]) {
      RewrittenItem(c, t, v.items, |v.items|, i);
    }
    if forall i :: 0 <= i < |v.items| ==> Untouched(c, ItemType(t, i), v.items[i]) {
      assert items == v.items;
    }
  }

  lemma FieldsUntouched(c: Chain, t: Type, v: Value)
    requires t.TupleType? && v.Object? && Rewrite(c, t, v).Ok?
    requires forall j :: 0 <= j < |t.components| && Decides(t.components, |t.components|, j)
                         && t.components[j].name.value in v.fields
                         && Rewrite(c, ItemType(t, j), v.fields[t.components[j].name.value]).Ok? ==>
               (Rewrite(c, ItemType(t, j), v.fields[t.components[j].name.value]).value == v.fields[t.components[j].name.value]
                <==> Untouched(c, ItemType(t, j), v.fields[t.components[j].name.value]))
    ensures Rewrite(c, t, v).value == v <==> Untouched(c, t, v)
  {
    var n, components := |t.components|, t.components;
    var fields := RewriteFields(c, t, v.fields, n).value;
    forall j | 0 <= j < n && Decides(components, n, j)
      ensures components[j].name.value in v.fields
      ensures Rewrite(c, ItemType(t, j), v.fields[components[j].name.value]) == Ok(fields[components[j].name.value])
    {
      RewrittenField(c, t, v.fields, n, j);
    }
    if Untouched(c, t, v) {
      forall name | name in v.fields ensures fields[name] == v.fields[name] {
        if i :| 0 <= i < n && components[i].name == Some(name) {
          var j := Decider(components, n, i);
        } else {
          OtherField(c, t, v.fields, n, name);
        }
      }
      assert fields == v.fields;
    }
  }

  /** Rewriting leaves a value as it is exactly when no deciding leaf is moved. */
  lemma {:induction false} UntouchedExact(c: Chain, t: Type, v: Value)
    requires Rewrite(c, t, v).Ok?
    ensures Rewrite(c, t, v).value == v <==> Untouched(c, t, v)
    decreases t
  {
    if (t.ArrayType? || t.TupleType?) && v.List? {
      forall i | 0 <= i < |v.items| && Rewrite(c, ItemType(t, i), v.items[i]).Ok?
        ensures Rewrite(c, ItemType(t, i), v.items[i]).value == v.items[i] <==> Untouched(c, ItemType(t, i), v.items[i])
      {
        UntouchedExact(c, ItemType(t, i), v.items[i]);
      }
      ItemsUntouched(c, t, v);
    } else if t.TupleType? {
      var components := t.components;
      forall j | 0 <= j < |components| && Decides(components, |components|, j) && components[j].name.value in v.fields
                 && Rewrite(c, ItemType(t, j), v.fields[components[j].name.value]).Ok?
        ensures Rewrite(c, ItemType(t, j), v.fields[components[j].name.value]).value == v.fields[components[j].name.value]
                <==> Untouched(c, ItemType(t, j), v.fields[components[j].name.value])
      {
        UntouchedExact(c, ItemType(t, j), v.fields[components[j].name.value]);
      }
      FieldsUntouched(c, t, v);
    }
  }

  lemma AddressRoundTrip(c: Chain, a: Address)
    requires IndexesValid(c) && NonZero(a)
    ensures var w := Rewrite(c, AddressType, AddressValue(a));
            && w.Ok? && Reverse(c, AddressType, w.value).Ok?
            && (Reverse(c, AddressType, w.value) == Ok(AddressValue(a)) <==> a in c.byPredicted || a !in c.byActual)
  {
  }

  lemma ItemsRoundTrip(c: Chain, t: Type, items: seq<Value>, out: seq<Value>)
    requires Fits(t, |items|) && |out| == |items|
    requires forall i :: 0 <= i < |items| ==>
               && Reverse(c, ItemType(t, i), out[i]).Ok?
               && (Reverse(c, ItemType(t, i), out[i]) == Ok(items[i]) <==> Restorable(c, ItemType(t, i), items[i]))
    ensures ReverseItems(c, t, out, |out|).Ok?
    ensures ReverseItems(c, t, out, |out|) == Ok(items)
            <==> forall i :: 0 <= i < |items| ==> Restorable(c, ItemType(t, i), items[i])
  {
    ReverseItemsAccepts(c, t, out, |out|);
    var back := ReverseItems(c, t, out, |out|).value;
    forall i | 0 <= i < |items| ensures Reverse(c, ItemType(t, i), out[i]) == Ok(back[i]) {
      ReversedItem(c, t, out, |out|, i);
    }
    if forall i :: 0 <= i < |items| ==> Restorable(c, ItemType(t, i), items[i]) {
      assert back == items;
    }
  }

  /**
   * The round trip, for every nested type and every value that rewriting accepts: translating back is
   * always possible, and it gives the value back exactly when the value is restorable.
   */
  lemma {:induction false} RoundTrip(c: Chain, t: Type, v: Value)
    requires IndexesValid(c) && Rewrite(c, t, v).Ok?
    ensures Reverse(c, t, Rewrite(c, t, v).value).Ok?
    ensures Reverse(c, t, Rewrite(c, t, v).value) == Ok(v) <==> Restorable(c, t, v)
    decreases t
  {
    if t.AddressType? {
      AddressRoundTrip(c, v.address);
    } else if (t.ArrayType? || t.TupleType?) && v.List? {
      hide IndexesValid;
      var out := RewriteItems(c, t, v.items, |v.items|).value;
      forall i | 0 <= i < |v.items|
        ensures Reverse(c, ItemType(t, i), out[i]).Ok?
        ensures Reverse(c, ItemType(t, i), out[i]) == Ok(v.items[i]) <==> Restorable(c, ItemType(t, i), v.items[i])
      {
        RewrittenItem(c, t, v.items, |v.items|, i);
        RoundTrip(c, ItemType(t, i), v.items[i]);
      }
      ItemsRoundTrip(c, t, v.items, out);
    } else if t.TupleType? {
      hide IndexesValid;
      UntouchedExact(c, t, v);
    }
  }
}
