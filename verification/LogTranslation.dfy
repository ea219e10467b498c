/**
 * Event logs and log filters across the two address worlds (rpc-src/log-translation.ts), with the two
 * mappers eth_getLogs uses (rpc-src/handlers.ts). Hex is kept as digits, without a case.
 */
module LogTranslation {
  import opened Wrappers
  import opened Addresses
  import opened ChainState
  import opened AddressMap

  type Mapper = Address -> Address

  /** Outward: an actual address becomes its predicted one. */
  function Outward(c: Chain): Mapper {
    a => if a in c.byActual then c.byActual[a] else a
  }

  /** Inward: a predicted address becomes its actual one. */
  function Inward(c: Chain): Mapper {
    p => if p in c.byPredicted then c.byPredicted[p].actual else p
  }

  function Zeros(n: nat): (h: Hex)
    ensures |h| == n && forall k :: 0 <= k < n ==> h[k] == 0
  {
    seq(n, _ => 0)
  }

  // ---- Fields, words and data ----

  /** The one address a field or word stands for, if it stands for one. */
  function FieldAddress(field: Hex): Option<Address> {
    if |field| == 40 && field != Zeros(40) then Some(field) else None
  }

  function WordAddress(word: Hex): Option<Address> {
    if |word| == 64 && word[..24] == Zeros(24) && word[24..] != Zeros(40) then Some(word[24..]) else None
  }

  function MapAddressField(field: Hex, m: Mapper): (r: Hex)
    ensures |r| == |field|
  {
    match FieldAddress(field)
    case Some(a) => m(a)
    case None => field
  }

  function MapLogWord(word: Hex, m: Mapper): (r: Hex)
    ensures |r| == |word|
  {
    match WordAddress(word)
    case Some(a) => Zeros(24) + m(a)
    case None => word
  }

  function MapTopics(topics: seq<Hex>, m: Mapper): (r: seq<Hex>)
    ensures |r| == |topics|
  {
    seq(|topics|, i requires 0 <= i < |topics| => MapLogWord(topics[i], m))
  }

  /** The words of the data from `offset` on, and the digits that do not fill a word. */
  function MapFrom(data: Hex, m: Mapper, offset: nat): (r: Hex)
    requires offset <= |data|
    ensures |r| == |data| - offset
    decreases |data| - offset
  {
    if offset + 64 <= |data| then MapLogWord(data[offset..offset + 64], m) + MapFrom(data, m, offset + 64)
    else data[offset..]
  }

  method MapLogData(data: Hex, m: Mapper) returns (out: Hex)
    ensures out == MapFrom(data, m, 0)
  {
    out := [];
    var offset := 0;
    while offset + 64 <= |data|
      invariant offset <= |data|
      invariant MapFrom(data, m, 0) == out + MapFrom(data, m, offset)
    {
      out := out + MapLogWord(data[offset..offset + 64], m);
      offset := offset + 64;
    }
    out := out + data[offset..];
  }

  // ---- Logs and filters ----

  datatype Log = Log(address: Option<Hex>, topics: Option<seq<Hex>>, data: Option<Hex>)

  datatype FilterAddress = AnyAddress | OneAddress(field: Hex) | OneOf(fields: seq<Hex>)

  /** A position of a filter: anything, one word, or alternatives. */
  datatype Topic = AnyTopic | Exactly(word: Hex) | Among(words: seq<Hex>)

  datatype Filter = Filter(address: FilterAddress, topics: Option<seq<Topic>>)

  function MapOption(h: Option<Hex>, f: Hex -> Hex): Option<Hex> {
    match h
    case Some(x) => Some(f(x))
    case None => None
  }

  function MapLogEntry(log: Log, m: Mapper): Log {
    Log(MapOption(log.address, f => MapAddressField(f, m)),
        match log.topics case Some(ts) => Some(MapTopics(ts, m)) case None => None,
        MapOption(log.data, d => MapFrom(d, m, 0)))
  }

  function MapTopic(topic: Topic, m: Mapper): Topic {
    match topic
    case AnyTopic => AnyTopic
    case Exactly(w) => Exactly(MapLogWord(w, m))
    case Among(ws) => Among(MapTopics(ws, m))
  }

  function MapFilter(filter: Filter, m: Mapper): Filter {
    Filter(
      match filter.address
      case AnyAddress => AnyAddress
      case OneAddress(f) => OneAddress(MapAddressField(f, m))
      case OneOf(fs) => OneOf(seq(|fs|, i requires 0 <= i < |fs| => MapAddressField(fs[i], m))),
      match filter.topics
      case None => None
      case Some(ts) => Some(seq(|ts|, i requires 0 <= i < |ts| => MapTopic(ts[i], m))))
  }

  /** The filter a caller makes from a log it was shown, to find logs like it. */
  function FilterFor(log: Log): Filter {
    Filter(
      match log.address case Some(f) => OneAddress(f) case None => AnyAddress,
      match log.topics
      case None => None
      case Some(ts) => Some(seq(|ts|, i requires 0 <= i < |ts| => Exactly(ts[i]))))
  }

  // ---- The round trip ----

  /** An address that comes back: it is mapped, or it is no predicted address itself. */
  predicate Restorable(c: Chain, a: Option<Address>) {
    a.Some? ==> a.value in c.byActual || a.value !in c.byPredicted
  }

  lemma AddressReturns(c: Chain, a: Address)
    requires IndexesValid(c) && NonZero(a)
    ensures NonZero(Outward(c)(a))
    ensures Inward(c)(Outward(c)(a)) == a <==> Restorable(c, Some(a))
  {
  }

  lemma FieldReturns(c: Chain, field: Hex)
    requires IndexesValid(c)
    ensures MapAddressField(MapAddressField(field, Outward(c)), Inward(c)) == field <==> Restorable(c, FieldAddress(field))
  {
    if FieldAddress(field).Some? {
      assert NonZero(FieldAddress(field).value) by { NonZeroDigits(field); }
      AddressReturns(c, FieldAddress(field).value);
      NonZeroDigits(Outward(c)(field));
    }
  }

  lemma NonZeroDigits(a: Address)
    ensures NonZero(a) <==> a != Zeros(40)
  {
    if a == Zeros(40) {
      assert a == ZeroAddress();
    }
  }

  lemma WordReturns(c: Chain, word: Hex)
    requires IndexesValid(c)
    ensures MapLogWord(MapLogWord(word, Outward(c)), Inward(c)) == word <==> Restorable(c, WordAddress(word))
  {
    if WordAddress(word).Some? {
      var a := WordAddress(word).value;
      NonZeroDigits(a);
      AddressReturns(c, a);
      var out := Outward(c)(a);
      NonZeroDigits(out);
      WordOf(out);
      WordOf(Inward(c)(out));
      assert word == Zeros(24) + a;
      assert MapLogWord(word, Outward(c)) == Zeros(24) + out;
      assert (Zeros(24) + Inward(c)(out))[24..] == Inward(c)(out);
    }
  }

  lemma WordOf(a: Address)
    ensures (Zeros(24) + a)[24..] == a && (Zeros(24) + a)[..24] == Zeros(24)
    ensures a != Zeros(40) ==> WordAddress(Zeros(24) + a) == Some(a)
  {
  }

  /** Every word of the data from `offset` on comes back. */
  predicate AllWordsRestorable(c: Chain, data: Hex, offset: nat)
    decreases |data| - offset
  {
    offset + 64 <= |data| ==>
      Restorable(c, WordAddress(data[offset..offset + 64])) && AllWordsRestorable(c, data, offset + 64)
  }

  /** The digits that do not fill a word. */
  function Tail(h: Hex): Hex {
    h[|h| - |h| % 64..]
  }

  /** Translating data in either direction keeps its length and the digits that do not fill a word. */
  lemma {:induction false} DataKeepsTail(data: Hex, m: Mapper, offset: nat)
    requires offset <= |data|
    ensures |MapFrom(data, m, offset)| == |data| - offset && Tail(MapFrom(data, m, offset)) == Tail(data[offset..])
    decreases |data| - offset
  {
    if offset + 64 <= |data| {
      var word, rest := MapLogWord(data[offset..offset + 64], m), MapFrom(data, m, offset + 64);
      DataKeepsTail(data, m, offset + 64);
      TailOfRest(word, rest);
      TailOfRest(data[offset..offset + 64], data[offset + 64..]);
      assert data[offset..] == data[offset..offset + 64] + data[offset + 64..];
    }
  }

  lemma TailOfRest(word: Hex, rest: Hex)
    requires |word| == 64
    ensures Tail(word + rest) == Tail(rest)
  {
  }

  /** Outward then inward restores the data exactly when every full word is restorable; length and tail always stay. */
  lemma {:induction false} DataReturns(c: Chain, data: Hex, mapped: Hex, offset: nat)
    requires IndexesValid(c) && offset <= |data| == |mapped| && mapped[offset..] == MapFrom(data, Outward(c), offset)
    ensures MapFrom(mapped, Inward(c), offset) == data[offset..] <==> AllWordsRestorable(c, data, offset)
    ensures |MapFrom(mapped, Inward(c), offset)| == |data| - offset && Tail(MapFrom(mapped, Inward(c), offset)) == Tail(data[offset..])
    decreases |data| - offset
  {
    DataKeepsTail(data, Outward(c), offset);
    DataKeepsTail(mapped, Inward(c), offset);
    hide Tail;
    if offset + 64 <= |data| {
      hide IndexesValid, Outward, Inward, MapLogWord, WordAddress, Restorable;
      var next := offset + 64;
      var word := data[offset..next];
      var out := MapLogWord(word, Outward(c));
      SplitAt(mapped, offset, out, MapFrom(data, Outward(c), next));
      DataReturns(c, data, mapped, next);
      WordReturns(c, word);
      SplitAt(data, offset, word, data[next..]);
      Joined(MapLogWord(out, Inward(c)), MapFrom(mapped, Inward(c), next), word, data[next..]);
    }
  }

  lemma SplitAt(h: Hex, offset: nat, word: Hex, rest: Hex)
    requires offset + 64 <= |h| && |word| == 64
    ensures h[offset..] == word + rest <==> h[offset..offset + 64] == word && h[offset + 64..] == rest
  {
    var tail := h[offset..];
    assert tail[..64] == h[offset..offset + 64] && tail[64..] == h[offset + 64..];
    if tail == word + rest {
      assert (word + rest)[..64] == word && (word + rest)[64..] == rest;
    } else {
      assert tail == tail[..64] + tail[64..];
    }
  }

  lemma Joined(a: Hex, b: Hex, x: Hex, y: Hex)
    requires |a| == |x| && |b| == |y|
    ensures a + b == x + y <==> a == x && b == y
  {
    if a + b == x + y {
      assert a == (a + b)[..|a|] && x == (x + y)[..|x|];
      assert b == (a + b)[|a|..] && y == (x + y)[|x|..];
    }
  }

  predicate LogRestorable(c: Chain, log: Log) {
    && (log.address.Some? ==> Restorable(c, FieldAddress(log.address.value)))
    && (log.topics.Some? ==>
          forall i :: 0 <= i < |log.topics.value| ==> Restorable(c, WordAddress(log.topics.value[i])))
  }

  /**
   * The filter round trip: a filter built from the address and topics of a translated log reaches the
   * node as the filter of the native log, exactly when none of those is itself a mapped predicted
   * address standing where an actual one is expected.
   */
  lemma FilterReturns(c: Chain, log: Log)
    requires IndexesValid(c)
    ensures MapFilter(FilterFor(MapLogEntry(log, Outward(c))), Inward(c)) == FilterFor(log) <==> LogRestorable(c, log)
  {
    hide IndexesValid, Outward, Inward, MapLogWord, MapAddressField, WordAddress, FieldAddress, Restorable;
    if log.address.Some? {
      FieldReturns(c, log.address.value);
    }
    var shown := MapFilter(FilterFor(MapLogEntry(log, Outward(c))), Inward(c));
    if log.topics.Some? {
      TopicsReturn(c, log.topics.value, shown.topics.value);
    }
  }

  lemma TopicsReturn(c: Chain, native: seq<Hex>, shown: seq<Topic>)
    requires IndexesValid(c) && |shown| == |native|
    requires forall i :: 0 <= i < |native| ==> shown[i] == Exactly(MapLogWord(MapLogWord(native[i], Outward(c)), Inward(c)))
    ensures shown == seq(|native|, i requires 0 <= i < |native| => Exactly(native[i]))
            <==> forall i :: 0 <= i < |native| ==> Restorable(c, WordAddress(native[i]))
  {
    hide IndexesValid, Outward, Inward, MapLogWord, WordAddress, Restorable;
    forall i | 0 <= i < |native|
      ensures MapLogWord(MapLogWord(native[i], Outward(c)), Inward(c)) == native[i] <==> Restorable(c, WordAddress(native[i]))
    {
      WordReturns(c, native[i]);
    }
    var plain := seq(|native|, i requires 0 <= i < |native| => Exactly(native[i]));
    if shown == plain {
      assert forall i :: 0 <= i < |native| ==> shown[i] == plain[i];
    }
  }

  lemma FirstWord(data: Hex, m: Mapper, offset: nat)
    requires offset + 64 <= |data|
    ensures MapFrom(data, m, offset) == MapLogWord(data[offset..offset + 64], m) + MapFrom(data, m, offset + 64)
  {
  }

  /** Every full word of the data, at digit `i`, is translated on its own. */
  lemma {:induction false} DataWord(data: Hex, m: Mapper, offset: nat, i: nat)
    requires i % 64 == 0 && offset + i + 64 <= |data|
    ensures MapFrom(data, m, offset)[i..i + 64] == MapLogWord(data[offset + i..offset + i + 64], m)
    decreases i
  {
    hide MapFrom, MapLogWord;
    FirstWord(data, m, offset);
    var word, rest := MapLogWord(data[offset..offset + 64], m), MapFrom(data, m, offset + 64);
    if i == 0 {
      assert (word + rest)[..64] == word;
    } else {
      assert (i - 64) % 64 == 0 && i >= 64;
      DataWord(data, m, offset + 64, i - 64);
      WordBehind(word, rest, i);
      assert offset + 64 + (i - 64) == offset + i;
    }
  }

  lemma WordBehind(word: Hex, rest: Hex, i: nat)
    requires |word| == 64 <= i <= |rest|
    ensures (word + rest)[i..i + 64] == rest[i - 64..i]
  {
  }

  /** A whole log, data included, comes back exactly when its address, its topics and every full word of its data do. */
  lemma LogReturns(c: Chain, log: Log)
    requires IndexesValid(c)
    ensures MapLogEntry(MapLogEntry(log, Outward(c)), Inward(c)) == log
            <==> LogRestorable(c, log) && (log.data.Some? ==> AllWordsRestorable(c, log.data.value, 0))
  {
    var out := MapLogEntry(log, Outward(c));
    if log.address.Some? {
      FieldReturns(c, log.address.value);
    }
    if log.topics.Some? {
      forall i | 0 <= i < |log.topics.value|
        ensures MapLogWord(out.topics.value[i], Inward(c)) == log.topics.value[i] <==> Restorable(c, WordAddress(log.topics.value[i]))
      {
        WordReturns(c, log.topics.value[i]);
      }
    }
    hide IndexesValid, Outward, Inward, MapLogWord, MapAddressField, WordAddress, FieldAddress, Restorable, AllWordsRestorable;
    if log.data.Some? {
      assert log.data.value[0..] == log.data.value && out.data.value[0..] == out.data.value;
      DataReturns(c, log.data.value, out.data.value, 0);
    }
    if log.topics.Some? {
      SameTopics(log.topics.value, MapTopics(out.topics.value, Inward(c)));
    }
  }

  lemma SameTopics(a: seq<Hex>, b: seq<Hex>)
    requires |a| == |b|
    ensures a == b <==> forall i :: 0 <= i < |a| ==> b[i] == a[i]
  {
  }

  // ---- What a filter selects ----

  predicate SelectsAddress(f: FilterAddress, address: Option<Hex>) {
    match f
    case AnyAddress => true
    case OneAddress(field) => address == Some(field)
    case OneOf(fields) => fields == [] || (address.Some? && address.value in fields)
  }

  predicate SelectsTopic(t: Topic, word: Hex) {
    match t
    case AnyTopic => true
    case Exactly(w) => word == w
    case Among(ws) => ws == [] || word in ws
  }

  /** The logs that eth_getLogs answers a filter with: its address, and every position of its topics, must agree. */
  predicate Selects(f: Filter, log: Log) {
    && SelectsAddress(f.address, log.address)
    && (f.topics.Some? ==>
          && log.topics.Some? && |f.topics.value| <= |log.topics.value|
          && forall i :: 0 <= i < |f.topics.value| ==> SelectsTopic(f.topics.value[i], log.topics.value[i]))
  }

  /** An address of one world only, as the table has it. */
  predicate OneSided(c: Chain, a: Option<Address>) {
    a.Some? && (a.value in c.byPredicted <==> a.value !in c.byActual)
  }

  lemma AddressSelected(c: Chain, x: Address, a: Address)
    requires IndexesValid(c)
    ensures (Inward(c)(x) == a <==> x == Outward(c)(a)) <==> !(x == a && OneSided(c, Some(a)))
  {
  }

  /** A field of the filter, moved inward, is the native one exactly when it is the translated one, unless it names a one-sided address itself. */
  lemma FieldSelected(c: Chain, x: Hex, a: Hex)
    requires IndexesValid(c)
    ensures (MapAddressField(x, Inward(c)) == a <==> x == MapAddressField(a, Outward(c))) <==> !(x == a && OneSided(c, FieldAddress(a)))
  {
    if FieldAddress(x).Some? {
      MovedField(c, x);
    }
    if FieldAddress(a).Some? {
      MovedField(c, a);
    }
    if FieldAddress(x).Some? && FieldAddress(a).Some? {
      AddressSelected(c, x, a);
    }
    hide IndexesValid, Outward, Inward, OneSided;
  }

  /** Moving an address in either direction gives an address. */
  lemma MovedField(c: Chain, a: Address)
    requires IndexesValid(c) && a != Zeros(40)
    ensures Inward(c)(a) != Zeros(40) && Outward(c)(a) != Zeros(40)
  {
    NonZeroDigits(a);
    NonZeroDigits(Inward(c)(a));
    NonZeroDigits(Outward(c)(a));
  }

  lemma WordSelected(c: Chain, x: Hex, a: Hex)
    requires IndexesValid(c)
    ensures (MapLogWord(x, Inward(c)) == a <==> x == MapLogWord(a, Outward(c))) <==> !(x == a && OneSided(c, WordAddress(a)))
  {
    if WordAddress(x).Some? {
      MovedField(c, WordAddress(x).value);
      WordOf(Inward(c)(WordAddress(x).value));
      SplitWord(x);
    }
    if WordAddress(a).Some? {
      MovedField(c, WordAddress(a).value);
      WordOf(Outward(c)(WordAddress(a).value));
      SplitWord(a);
    }
    if WordAddress(x).Some? && WordAddress(a).Some? {
      AddressSelected(c, WordAddress(x).value, WordAddress(a).value);
      SameWords(Inward(c)(WordAddress(x).value), WordAddress(a).value);
      SameWords(WordAddress(x).value, Outward(c)(WordAddress(a).value));
      SameWords(WordAddress(x).value, WordAddress(a).value);
    }
    hide IndexesValid, Outward, Inward, OneSided;
  }

  lemma SplitWord(word: Hex)
    requires WordAddress(word).Some?
    ensures word == Zeros(24) + WordAddress(word).value
  {
  }

  lemma SameWords(a: Address, b: Address)
    ensures Zeros(24) + a == Zeros(24) + b <==> a == b
  {
    if Zeros(24) + a == Zeros(24) + b {
      assert (Zeros(24) + a)[24..] == a && (Zeros(24) + b)[24..] == b;
    }
  }

  predicate NamesField(f: FilterAddress, field: Hex) {
    (f.OneAddress? && f.field == field) || (f.OneOf? && field in f.fields)
  }

  predicate NamesWord(t: Topic, word: Hex) {
    (t.Exactly? && t.word == word) || (t.Among? && word in t.words)
  }

  /** The filter names no address of the log, as the node has it, that is of one world only. */
  predicate Unmixed(c: Chain, f: Filter, log: Log) {
    && (log.address.Some? && NamesField(f.address, log.address.value) ==> !OneSided(c, FieldAddress(log.address.value)))
    && (f.topics.Some? && log.topics.Some? ==>
          forall i :: 0 <= i < |f.topics.value| && i < |log.topics.value| && NamesWord(f.topics.value[i], log.topics.value[i]) ==>
            !OneSided(c, WordAddress(log.topics.value[i])))
  }

  lemma AddressesSelect(c: Chain, f: Filter, log: Log)
    requires IndexesValid(c) && Unmixed(c, f, log)
    ensures SelectsAddress(MapFilter(f, Inward(c)).address, log.address)
            <==> SelectsAddress(f.address, MapLogEntry(log, Outward(c)).address)
  {
    hide IndexesValid, Outward, Inward, MapAddressField, FieldAddress, OneSided;
    if log.address.Some? {
      var a := log.address.value;
      match f.address
      case AnyAddress =>
      case OneAddress(x) => FieldSelected(c, x, a);
      case OneOf(xs) =>
        var moved := MapFilter(f, Inward(c)).address.fields;
        forall i | 0 <= i < |xs| ensures moved[i] == a <==> xs[i] == MapAddressField(a, Outward(c)) {
          FieldSelected(c, xs[i], a);
        }
        SameMembership(moved, a, xs, MapAddressField(a, Outward(c)));
    }
  }

  /** Two lists of one length have their values at the same places. */
  lemma SameMembership(xs: seq<Hex>, a: Hex, ys: seq<Hex>, b: Hex)
    requires |xs| == |ys| && forall i :: 0 <= i < |xs| ==> (xs[i] == a <==> ys[i] == b)
    ensures a in xs <==> b in ys
  {
    if a in xs {
      var i :| 0 <= i < |xs| && xs[i] == a;
      assert ys[i] == b;
    }
    if b in ys {
      var i :| 0 <= i < |ys| && ys[i] == b;
      assert xs[i] == a;
    }
  }

  lemma TopicSelects(c: Chain, t: Topic, word: Hex)
    requires IndexesValid(c) && (NamesWord(t, word) ==> !OneSided(c, WordAddress(word)))
    ensures SelectsTopic(MapTopic(t, Inward(c)), word) <==> SelectsTopic(t, MapLogWord(word, Outward(c)))
  {
    hide IndexesValid, Outward, Inward, MapLogWord, WordAddress, OneSided;
    match t
    case AnyTopic =>
    case Exactly(w) => WordSelected(c, w, word);
    case Among(ws) =>
      var moved := MapTopics(ws, Inward(c));
      forall i | 0 <= i < |ws| ensures moved[i] == word <==> ws[i] == MapLogWord(word, Outward(c)) {
        WordSelected(c, ws[i], word);
      }
      SameMembership(moved, word, ws, MapLogWord(word, Outward(c)));
  }

  /**
   * Filtering commutes with translation: asking the node with the filter moved inward answers with exactly
   * the logs whose translations the caller's own filter selects, alternatives and wildcards included.
   */
  lemma FilterSelects(c: Chain, f: Filter, log: Log)
    requires IndexesValid(c) && Unmixed(c, f, log)
    ensures Selects(MapFilter(f, Inward(c)), log) <==> Selects(f, MapLogEntry(log, Outward(c)))
  {
    AddressesSelect(c, f, log);
    hide IndexesValid, Outward, Inward, MapLogWord, MapAddressField, WordAddress, FieldAddress, OneSided, SelectsAddress, MapTopic;
    var g, out := MapFilter(f, Inward(c)), MapLogEntry(log, Outward(c));
    if f.topics.Some? && log.topics.Some? && |f.topics.value| <= |log.topics.value| {
      forall i | 0 <= i < |f.topics.value|
        ensures SelectsTopic(g.topics.value[i], log.topics.value[i]) <==> SelectsTopic(f.topics.value[i], out.topics.value[i])
      {
        TopicSelects(c, f.topics.value[i], log.topics.value[i]);
      }
      hide SelectsTopic;
    }
  }
}
