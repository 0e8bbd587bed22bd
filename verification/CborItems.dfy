/**
 CBOR data items as trees (section 3 of RFC 8949), where they stand in bytes, and what the walker of src/nymauth/cbor.rs
 does on them: it ends exactly behind the items whose nesting is not too deep, and finds the values in maps and arrays.
 */
module CborItems {
  import opened Options
  import opened Bytes
  import opened Cbor

  datatype Item =
    | Number(negative: bool, argument: nat)
    | ByteString(bytes: seq<Byte>)
    | TextString(text: seq<Byte>)
    | Array(items: Items)
    | Map(entries: Items)
    | Tagged(tag: nat, item: Item)
    | Special(argument: nat, headLength: nat)

  /** The items of an array, or the keys and values of a map in turn. */
  datatype Items = Nil | Cons(first: Item, rest: Items)
  {
    function Count(): nat {
      if Nil? then 0 else 1 + rest.Count()
    }
  }

  /** How deep the items inside an item are nested. */
  ghost function Height(item: Item): nat {
    match item
    case Array(items) => if items.Nil? then 0 else 1 + MaxHeight(items)
    case Map(entries) => if entries.Nil? then 0 else 1 + MaxHeight(entries)
    case Tagged(_, inner) => 1 + Height(inner)
    case _ => 0
  }

  ghost function MaxHeight(items: Items): nat {
    match items
    case Nil => 0
    case Cons(first, rest) => if Height(first) > MaxHeight(rest) then Height(first) else MaxHeight(rest)
  }

  /** A head of the given major type and argument stands at p, and what it belongs to continues at q. */
  ghost predicate HeadAt(d: seq<Byte>, p: nat, q: nat, major: nat, argument: nat) {
    match Head(d, p)
    case None => false
    case Some(h) => h.major == major && h.argument == argument && q == p + h.length
  }

  /** The item stands in d from p up to q. */
  ghost predicate ItemAt(utf8: seq<Byte> -> bool, d: seq<Byte>, p: nat, q: nat, item: Item)
    decreases item
  {
    match item
    case Number(negative, n) => HeadAt(d, p, q, if negative then 1 else 0, n)
    case ByteString(s) => q <= |d| && p <= q - |s| && HeadAt(d, p, q - |s|, 2, |s|) && d[q - |s|..q] == s
    case TextString(s) => q <= |d| && p <= q - |s| && HeadAt(d, p, q - |s|, 3, |s|) && d[q - |s|..q] == s && utf8(s)
    case Array(items) => exists m: nat :: HeadAt(d, p, m, 4, items.Count()) && ItemsAt(utf8, d, m, q, items)
    case Map(entries) =>
      entries.Count() % 2 == 0 && exists m: nat ::
        HeadAt(d, p, m, 5, entries.Count() / 2) && ItemsAt(utf8, d, m, q, entries)
    case Tagged(tag, inner) => exists m: nat :: HeadAt(d, p, m, 6, tag) && ItemAt(utf8, d, m, q, inner)
    case Special(n, length) => HeadAt(d, p, q, 7, n) && q == p + length && (length == 2 ==> n >= 32)
  }

  /** The items stand in d from p up to q, one behind the other. */
  ghost predicate ItemsAt(utf8: seq<Byte> -> bool, d: seq<Byte>, p: nat, q: nat, items: Items)
    decreases items
  {
    match items
    case Nil => p == q <= |d|
    case Cons(first, rest) => exists m: nat :: ItemAt(utf8, d, p, m, first) && ItemsAt(utf8, d, m, q, rest)
  }

  // ----- The walker on an item -----

  /** Every item takes at least one byte and ends inside the data. */
  lemma {:induction false} ItemInside(utf8: seq<Byte> -> bool, d: seq<Byte>, p: nat, q: nat, item: Item)
    requires ItemAt(utf8, d, p, q, item)
    ensures p < q <= |d|
    decreases item
  {
    match item
    case Array(items) =>
      var m: nat :| HeadAt(d, p, m, 4, items.Count()) && ItemsAt(utf8, d, m, q, items);
      ItemsInside(utf8, d, m, q, items);
    case Map(entries) =>
      var m: nat :| HeadAt(d, p, m, 5, entries.Count() / 2) && ItemsAt(utf8, d, m, q, entries);
      ItemsInside(utf8, d, m, q, entries);
    case Tagged(tag, inner) =>
      var m: nat :| HeadAt(d, p, m, 6, tag) && ItemAt(utf8, d, m, q, inner);
      ItemInside(utf8, d, m, q, inner);
    case _ =>
  }

  lemma {:induction false} ItemsInside(utf8: seq<Byte> -> bool, d: seq<Byte>, p: nat, q: nat, items: Items)
    requires ItemsAt(utf8, d, p, q, items)
    ensures p + items.Count() <= q <= |d|
    decreases items
  {
    match items
    case Nil =>
    case Cons(first, rest) =>
      var m: nat :| ItemAt(utf8, d, p, m, first) && ItemsAt(utf8, d, m, q, rest);
      ItemInside(utf8, d, p, m, first);
      ItemsInside(utf8, d, m, q, rest);
  }

  /** The walker ends behind every item that is not nested too deeply. */
  lemma {:induction false} WalksItem(utf8: seq<Byte> -> bool, d: seq<Byte>, p: nat, q: nat, item: Item, depth: nat)
    requires ItemAt(utf8, d, p, q, item) && depth + Height(item) <= MAX_DEPTH
    ensures EndOf(utf8, d, p, depth) == Some(q)
    decreases item
  {
    match item
    case Array(items) =>
      var m: nat :| HeadAt(d, p, m, 4, items.Count()) && ItemsAt(utf8, d, m, q, items);
      ItemsInside(utf8, d, m, q, items);
      WalksItems(utf8, d, m, q, items, depth + 1);
      WalksContainer(utf8, d, p, m, q, 4, items.Count(), items.Count(), depth);
    case Map(entries) =>
      var m: nat :| HeadAt(d, p, m, 5, entries.Count() / 2) && ItemsAt(utf8, d, m, q, entries);
      ItemsInside(utf8, d, m, q, entries);
      WalksItems(utf8, d, m, q, entries, depth + 1);
      WalksContainer(utf8, d, p, m, q, 5, entries.Count() / 2, entries.Count(), depth);
    case Tagged(tag, inner) =>
      var m: nat :| HeadAt(d, p, m, 6, tag) && ItemAt(utf8, d, m, q, inner);
      WalksItem(utf8, d, m, q, inner, depth + 1);
    case _ => WalksLeaf(utf8, d, p, q, item, depth);
  }

  lemma WalksLeaf(utf8: seq<Byte> -> bool, d: seq<Byte>, p: nat, q: nat, item: Item, depth: nat)
    requires ItemAt(utf8, d, p, q, item) && depth <= MAX_DEPTH && !item.Array? && !item.Map? && !item.Tagged?
    ensures EndOf(utf8, d, p, depth) == Some(q)
  {
  }

  lemma WalksContainer(utf8: seq<Byte> -> bool, d: seq<Byte>, p: nat, m: nat, q: nat, major: nat, argument: nat,
                       count: nat, depth: nat)
    requires HeadAt(d, p, m, major, argument) && depth <= MAX_DEPTH && m + count <= q <= |d|
    requires (major == 4 && count == argument) || (major == 5 && count == 2 * argument)
    requires EndOfItems(utf8, d, m, count, depth + 1) == Some(q)
    ensures EndOf(utf8, d, p, depth) == Some(q)
  {
  }

  lemma {:induction false} WalksItems(utf8: seq<Byte> -> bool, d: seq<Byte>, p: nat, q: nat, items: Items, depth: nat)
    requires p <= |d| && ItemsAt(utf8, d, p, q, items) && (items.Cons? ==> depth + MaxHeight(items) <= MAX_DEPTH)
    ensures EndOfItems(utf8, d, p, items.Count(), depth) == Some(q)
    decreases items
  {
    match items
    case Nil =>
    case Cons(first, rest) =>
      var m: nat :| ItemAt(utf8, d, p, m, first) && ItemsAt(utf8, d, m, q, rest);
      ItemInside(utf8, d, p, m, first);
      WalksItem(utf8, d, p, m, first, depth);
      WalksItems(utf8, d, m, q, rest, depth);
  }

  // ----- The item behind which the walker ends -----

  /** Wherever the walker ends, an item of bounded nesting stands before it. */
  lemma {:induction false} ParsedItem(utf8: seq<Byte> -> bool, d: seq<Byte>, p: nat, q: nat, depth: nat)
      returns (item: Item)
    requires EndOf(utf8, d, p, depth) == Some(q)
    ensures ItemAt(utf8, d, p, q, item) && depth + Height(item) <= MAX_DEPTH
    decreases Levels(depth), 0, 0
  {
    var h := Head(d, p).value;
    var m := p + h.length;
    assert HeadAt(d, p, m, h.major, h.argument);
    if h.major < 4 || h.major == 7 {
      item := ParsedLeaf(utf8, d, p, q, depth);
    } else if h.major == 4 {
      var items := ParsedItems(utf8, d, m, q, h.argument, depth + 1);
      item := Array(items);
    } else if h.major == 5 {
      var entries := ParsedItems(utf8, d, m, q, 2 * h.argument, depth + 1);
      item := Map(entries);
    } else {
      var inner := ParsedItem(utf8, d, m, q, depth + 1);
      item := Tagged(h.argument, inner);
    }
  }

  lemma ParsedLeaf(utf8: seq<Byte> -> bool, d: seq<Byte>, p: nat, q: nat, depth: nat) returns (item: Item)
    requires EndOf(utf8, d, p, depth) == Some(q) && (Head(d, p).value.major < 4 || Head(d, p).value.major == 7)
    ensures ItemAt(utf8, d, p, q, item) && Height(item) == 0 && depth <= MAX_DEPTH
  {
    var h := Head(d, p).value;
    var m := p + h.length;
    if h.major < 2 {
      item := Number(h.major == 1, h.argument);
    } else if h.major == 2 {
      item := ByteString(d[m..q]);
    } else if h.major == 3 {
      item := TextString(d[m..q]);
    } else {
      item := Special(h.argument, h.length);
    }
  }

  lemma {:induction false} ParsedItems(utf8: seq<Byte> -> bool, d: seq<Byte>, p: nat, q: nat, count: nat, depth: nat)
      returns (items: Items)
    requires p <= |d| && EndOfItems(utf8, d, p, count, depth) == Some(q)
    ensures items.Count() == count && ItemsAt(utf8, d, p, q, items)
      && (items.Cons? ==> depth + MaxHeight(items) <= MAX_DEPTH)
    decreases Levels(depth), 1, count
  {
    if count == 0 {
      return Nil;
    }
    var m := EndOf(utf8, d, p, depth).value;
    var first := ParsedItem(utf8, d, p, m, depth);
    var rest := ParsedItems(utf8, d, m, q, count - 1, depth);
    items := Cons(first, rest);
  }

  /** The walker ends at q exactly when an item of nesting at most 16 stands from p up to q. */
  lemma WalkerExactly(utf8: seq<Byte> -> bool, d: seq<Byte>, p: nat, q: nat)
    ensures EndOf(utf8, d, p, 0) == Some(q) <==> exists item :: ItemAt(utf8, d, p, q, item) && Height(item) <= MAX_DEPTH
  {
    if EndOf(utf8, d, p, 0) == Some(q) {
      var item := ParsedItem(utf8, d, p, q, 0);
    }
    if item :| ItemAt(utf8, d, p, q, item) && Height(item) <= MAX_DEPTH {
      WalksItem(utf8, d, p, q, item, 0);
    }
  }

  // ----- Bytes hold at most one item -----

  /** At most one item stands at a position. */
  lemma {:induction false} ItemOnce(utf8: seq<Byte> -> bool, d: seq<Byte>, p: nat, q: nat, r: nat, a: Item, b: Item)
    requires ItemAt(utf8, d, p, q, a) && ItemAt(utf8, d, p, r, b)
    ensures a == b && q == r
    decreases a
  {
    SameKind(utf8, d, p, q, r, a, b);
    match a
    case Array(items) =>
      var m: nat :| HeadAt(d, p, m, 4, items.Count()) && ItemsAt(utf8, d, m, q, items);
      var n: nat :| HeadAt(d, p, n, 4, b.items.Count()) && ItemsAt(utf8, d, n, r, b.items);
      ItemsOnce(utf8, d, m, q, r, items, b.items);
    case Map(entries) =>
      var m: nat :| HeadAt(d, p, m, 5, entries.Count() / 2) && ItemsAt(utf8, d, m, q, entries);
      var n: nat :| HeadAt(d, p, n, 5, b.entries.Count() / 2) && ItemsAt(utf8, d, n, r, b.entries);
      ItemsOnce(utf8, d, m, q, r, entries, b.entries);
    case Tagged(tag, inner) =>
      var m: nat :| HeadAt(d, p, m, 6, tag) && ItemAt(utf8, d, m, q, inner);
      var n: nat :| HeadAt(d, p, n, 6, b.tag) && ItemAt(utf8, d, n, r, b.item);
      ItemOnce(utf8, d, m, q, r, inner, b.item);
    case _ => LeafOnce(utf8, d, p, q, r, a, b);
  }

  lemma SameKind(utf8: seq<Byte> -> bool, d: seq<Byte>, p: nat, q: nat, r: nat, a: Item, b: Item)
    requires ItemAt(utf8, d, p, q, a) && ItemAt(utf8, d, p, r, b)
    ensures (a.Array? <==> b.Array?) && (a.Map? <==> b.Map?) && (a.Tagged? <==> b.Tagged?)
  {
  }

  lemma LeafOnce(utf8: seq<Byte> -> bool, d: seq<Byte>, p: nat, q: nat, r: nat, a: Item, b: Item)
    requires ItemAt(utf8, d, p, q, a) && ItemAt(utf8, d, p, r, b) && !a.Array? && !a.Map? && !a.Tagged?
    ensures a == b && q == r
  {
  }

  lemma {:induction false} ItemsOnce(utf8: seq<Byte> -> bool, d: seq<Byte>, p: nat, q: nat, r: nat, a: Items, b: Items)
    requires ItemsAt(utf8, d, p, q, a) && ItemsAt(utf8, d, p, r, b) && a.Count() == b.Count()
    ensures a == b && q == r
    decreases a
  {
    match a
    case Nil =>
    case Cons(first, rest) =>
      var m: nat :| ItemAt(utf8, d, p, m, first) && ItemsAt(utf8, d, m, q, rest);
      var n: nat :| ItemAt(utf8, d, p, n, b.first) && ItemsAt(utf8, d, n, r, b.rest);
      ItemOnce(utf8, d, p, m, n, first, b.first);
      ItemsOnce(utf8, d, m, q, r, rest, b.rest);
  }

  /** An item that is nested too deeply is refused. */
  lemma TooDeep(utf8: seq<Byte> -> bool, d: seq<Byte>, p: nat, q: nat, item: Item)
    requires ItemAt(utf8, d, p, q, item) && Height(item) > MAX_DEPTH
    ensures EndOf(utf8, d, p, 0) == None
  {
    if EndOf(utf8, d, p, 0).Some? {
      var other := ParsedItem(utf8, d, p, EndOf(utf8, d, p, 0).value, 0);
      ItemOnce(utf8, d, p, q, EndOf(utf8, d, p, 0).value, item, other);
    }
  }

  // ----- Maps and arrays -----

  ghost predicate NamedBy(item: Item, key: seq<Byte>) {
    item == ByteString(key) || item == TextString(key)
  }

  /** The value of the first entry with the key. */
  ghost function ValueIn(entries: Items, key: seq<Byte>): Option<Item> {
    if entries.Nil? || entries.rest.Nil? then None
    else if NamedBy(entries.first, key) then Some(entries.rest.first)
    else ValueIn(entries.rest.rest, key)
  }

  lemma KeyIsNamed(utf8: seq<Byte> -> bool, d: seq<Byte>, p: nat, q: nat, item: Item, key: seq<Byte>)
    requires ItemAt(utf8, d, p, q, item)
    ensures IsKey(d, p, key) <==> NamedBy(item, key)
  {
  }

  /** What a lookup returns: the position of the value, or that there is none. */
  ghost predicate LooksUp(utf8: seq<Byte> -> bool, d: seq<Byte>, r: Lookup, value: Option<Item>) {
    match r
    case Malformed => false
    case Absent => value.None?
    case Found(at) => value.Some? && exists m: nat :: ItemAt(utf8, d, at, m, value.value)
  }

  lemma FirstAndRest(utf8: seq<Byte> -> bool, d: seq<Byte>, p: nat, q: nat, items: Items) returns (m: nat)
    requires ItemsAt(utf8, d, p, q, items) && items.Cons?
    ensures ItemAt(utf8, d, p, m, items.first) && ItemsAt(utf8, d, m, q, items.rest)
  {
    m :| ItemAt(utf8, d, p, m, items.first) && ItemsAt(utf8, d, m, q, items.rest);
  }

  lemma {:induction false} LooksUpEntries(utf8: seq<Byte> -> bool, d: seq<Byte>, p: nat, q: nat, entries: Items, n: nat,
                                          key: seq<Byte>)
    requires ItemsAt(utf8, d, p, q, entries) && entries.Count() == 2 * n && MaxHeight(entries) <= MAX_DEPTH
    ensures LooksUp(utf8, d, LookupFrom(utf8, d, p, n, key), ValueIn(entries, key))
    decreases n
  {
    if n > 0 {
      var first, rest := entries.first, entries.rest;
      assert rest.Cons?;
      var m := FirstAndRest(utf8, d, p, q, entries);
      var e := FirstAndRest(utf8, d, m, q, rest);
      EntryReads(utf8, d, p, m, e, first, rest.first, key);
      LooksUpEntries(utf8, d, e, q, rest.rest, n - 1, key);
    }
  }

  /** One entry of a map: its value is at m if it has the key, and the next entry is at e. */
  lemma EntryReads(utf8: seq<Byte> -> bool, d: seq<Byte>, p: nat, m: nat, e: nat, name: Item, value: Item,
                   key: seq<Byte>)
    requires ItemAt(utf8, d, p, m, name) && ItemAt(utf8, d, m, e, value)
    requires Height(name) <= MAX_DEPTH && Height(value) <= MAX_DEPTH
    ensures EntryAt(utf8, d, p, key) == if NamedBy(name, key) then Match(m) else Skip(e)
  {
    WalksItem(utf8, d, p, m, name, 0);
    WalksItem(utf8, d, m, e, value, 0);
    KeyIsNamed(utf8, d, p, m, name, key);
  }

  /**
   In every map of bounded nesting, `map_get` finds the value of the first entry with the key, or that there is none.
   */
  lemma MapGetFinds(utf8: seq<Byte> -> bool, d: seq<Byte>, p: nat, q: nat, entries: Items, key: seq<Byte>)
    requires ItemAt(utf8, d, p, q, Map(entries)) && MaxHeight(entries) <= MAX_DEPTH
    ensures Head(d, p).Some? && Head(d, p).value.major == 5
    ensures var h := Head(d, p).value;
      LooksUp(utf8, d, LookupFrom(utf8, d, p + h.length, h.argument, key), ValueIn(entries, key))
  {
    var m: nat :| HeadAt(d, p, m, 5, entries.Count() / 2) && ItemsAt(utf8, d, m, q, entries);
    LooksUpEntries(utf8, d, m, q, entries, entries.Count() / 2, key);
  }

  ghost function Nth(items: Items, i: nat): Item
    requires i < items.Count()
  {
    if i == 0 then items.first else Nth(items.rest, i - 1)
  }

  lemma {:induction false} StartOfNth(utf8: seq<Byte> -> bool, d: seq<Byte>, p: nat, q: nat, items: Items, i: nat)
      returns (at: nat, end: nat)
    requires p <= |d| && ItemsAt(utf8, d, p, q, items) && i < items.Count() && MaxHeight(items) <= MAX_DEPTH
    ensures ItemStart(utf8, d, p, i) == Some(at) && ItemAt(utf8, d, at, end, Nth(items, i))
    decreases i
  {
    var m := FirstAndRest(utf8, d, p, q, items);
    if i == 0 {
      at, end := p, m;
    } else {
      ItemInside(utf8, d, p, m, items.first);
      WalksItem(utf8, d, p, m, items.first, 0);
      at, end := StartOfNth(utf8, d, m, q, items.rest, i - 1);
      StartAfter(utf8, d, p, m, i, at);
    }
  }

  lemma StartAfter(utf8: seq<Byte> -> bool, d: seq<Byte>, p: nat, m: nat, i: nat, at: nat)
    requires p <= |d| && i > 0 && EndOf(utf8, d, p, 0) == Some(m) && ItemStart(utf8, d, m, i - 1) == Some(at)
    ensures ItemStart(utf8, d, p, i) == Some(at)
  {
  }

  /** In every array of bounded nesting, `array_item` finds the item with the given number. */
  lemma ArrayItemFinds(utf8: seq<Byte> -> bool, d: seq<Byte>, p: nat, q: nat, items: Items, i: nat)
      returns (start: nat, at: nat, end: nat)
    requires ItemAt(utf8, d, p, q, Array(items)) && i < items.Count() && MaxHeight(items) <= MAX_DEPTH
    ensures HeadAt(d, p, start, 4, items.Count()) && start <= |d|
    ensures ItemStart(utf8, d, start, i) == Some(at) && ItemAt(utf8, d, at, end, Nth(items, i))
  {
    start := InsideArray(utf8, d, p, q, items);
    at, end := StartOfNth(utf8, d, start, q, items, i);
  }

  lemma InsideArray(utf8: seq<Byte> -> bool, d: seq<Byte>, p: nat, q: nat, items: Items) returns (m: nat)
    requires ItemAt(utf8, d, p, q, Array(items))
    ensures HeadAt(d, p, m, 4, items.Count()) && ItemsAt(utf8, d, m, q, items)
  {
    m :| HeadAt(d, p, m, 4, items.Count()) && ItemsAt(utf8, d, m, q, items);
  }
}
