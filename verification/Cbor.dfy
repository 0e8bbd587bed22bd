/**
 The bounds-checked CBOR walker (src/nymauth/cbor.rs) and the CBOR writer (src/nymauth/challenge.rs). Item heads follow
 section 3 of RFC 8949. The test for UTF-8 is uninterpreted.
 */
module Cbor {
  import opened Options
  import opened Bytes

  const MAX_DEPTH: nat := 16

  // ----- Reading -----

  /** The value of big-endian bytes. */
  function BigEndian(bytes: seq<Byte>): nat {
    if |bytes| == 0 then 0 else 256 * BigEndian(bytes[..|bytes| - 1]) + bytes[|bytes| - 1]
  }

  datatype HeadOf = HeadOf(major: nat, argument: nat, length: nat)

  /** How many bytes of argument follow the initial byte. */
  function ArgumentLength(info: nat): nat
    requires 24 <= info < 28
  {
    if info == 24 then 1 else if info == 25 then 2 else if info == 26 then 4 else 8
  }

  /** `head`: major type, argument and length of the head at p. */
  function Head(d: seq<Byte>, p: nat): (h: Option<HeadOf>)
    ensures h.Some? ==> h.value.major < 8 && 1 <= h.value.length <= 9 && p + h.value.length <= |d|
  {
    if p >= |d| then None
    else
      var major, info := d[p] / 32, d[p] % 32;
      if info < 24 then Some(HeadOf(major, info, 1))
      else if info < 28 then
        var n := ArgumentLength(info);
        if p + 1 + n > |d| then None else Some(HeadOf(major, BigEndian(d[p + 1..p + 1 + n]), 1 + n))
      else None
  }

  ghost function Levels(depth: nat): nat {
    if depth <= MAX_DEPTH then MAX_DEPTH + 1 - depth else 0
  }

  predicate IsContainer(major: nat) {
    major == 4 || major == 5
  }

  /** Where an item without items inside ends, given its head. */
  function EndOfLeaf(utf8: seq<Byte> -> bool, d: seq<Byte>, p: nat, h: HeadOf): (e: Option<nat>)
    requires p + h.length <= |d| && h.length > 0
    ensures e.Some? ==> p < e.value <= |d|
  {
    var q := p + h.length;
    if h.major == 2 || h.major == 3 then
      if q + h.argument > |d| then None
      else if h.major == 3 && !utf8(d[q..q + h.argument]) then None
      else Some(q + h.argument)
    else if h.major == 7 && h.length == 2 && h.argument < 32 then None
    else Some(q)
  }

  /** The number of items in an array, or of keys and values in a map. */
  function ItemCount(h: HeadOf): nat {
    if h.major == 5 then 2 * h.argument else h.argument
  }

  /** Where the item at p ends. */
  ghost function EndOf(utf8: seq<Byte> -> bool, d: seq<Byte>, p: nat, depth: nat): (e: Option<nat>)
    ensures e.Some? ==> p < e.value <= |d|
    decreases Levels(depth), 0, 0
  {
    if depth > MAX_DEPTH then None
    else
      match Head(d, p)
      case None => None
      case Some(h) =>
        if h.major == 6 then EndOf(utf8, d, p + h.length, depth + 1)
        else if IsContainer(h.major) then
          if ItemCount(h) > |d| - p then None else EndOfItems(utf8, d, p + h.length, ItemCount(h), depth + 1)
        else EndOfLeaf(utf8, d, p, h)
  }

  /** Where the last of `count` items that start at q ends. */
  ghost function EndOfItems(utf8: seq<Byte> -> bool, d: seq<Byte>, q: nat, count: nat, depth: nat): (e: Option<nat>)
    requires q <= |d|
    ensures e.Some? ==> q <= e.value <= |d|
    decreases Levels(depth), 1, count
  {
    if count == 0 then Some(q)
    else
      match EndOf(utf8, d, q, depth)
      case None => None
      case Some(e) => EndOfItems(utf8, d, e, count - 1, depth)
  }

  /** `end_depth` */
  method EndDepth(utf8: seq<Byte> -> bool, d: seq<Byte>, p: nat, depth: nat) returns (e: Option<nat>)
    ensures e == EndOf(utf8, d, p, depth)
    ensures e.Some? ==> p < e.value <= |d|
    decreases Levels(depth), 0
  {
    if depth > MAX_DEPTH {
      return None;
    }
    var head := Head(d, p);
    if head.None? {
      return None;
    }
    var h := head.value;
    if h.major == 6 {
      e := EndDepth(utf8, d, p + h.length, depth + 1);
    } else if IsContainer(h.major) {
      if ItemCount(h) > |d| - p {
        return None;
      }
      e := WalkItems(utf8, d, p + h.length, ItemCount(h), depth + 1);
    } else {
      e := EndOfLeaf(utf8, d, p, h);
    }
  }

  /** The loop over the items of a container. */
  method WalkItems(utf8: seq<Byte> -> bool, d: seq<Byte>, first: nat, count: nat, depth: nat) returns (e: Option<nat>)
    requires first <= |d|
    ensures e == EndOfItems(utf8, d, first, count, depth)
    decreases Levels(depth), 1
  {
    var q: nat, left: nat := first, count;
    while left > 0
      invariant q <= |d| && EndOfItems(utf8, d, q, left, depth) == EndOfItems(utf8, d, first, count, depth)
      decreases left
    {
      var next := EndDepth(utf8, d, q, depth);
      if next.None? {
        return None;
      }
      q, left := next.value, left - 1;
    }
    e := Some(q);
  }

  /** `content`: the bytes of the byte or text string at p. */
  function Content(d: seq<Byte>, p: nat): (c: Option<seq<Byte>>) {
    match Head(d, p)
    case None => None
    case Some(h) =>
      if h.major != 2 && h.major != 3 then None
      else if p + h.length + h.argument > |d| then None
      else Some(d[p + h.length..p + h.length + h.argument])
  }

  // ----- A successful walk does not depend on what follows -----

  lemma HeadWithTail(d: seq<Byte>, tail: seq<Byte>, p: nat)
    requires Head(d, p).Some?
    ensures Head(d + tail, p) == Head(d, p)
  {
    var info := d[p] % 32;
    if 24 <= info < 28 {
      var n := ArgumentLength(info);
      assert (d + tail)[p + 1..p + 1 + n] == d[p + 1..p + 1 + n];
    }
  }

  lemma LeafWithTail(utf8: seq<Byte> -> bool, d: seq<Byte>, tail: seq<Byte>, p: nat, h: HeadOf)
    requires p + h.length <= |d| && h.length > 0 && EndOfLeaf(utf8, d, p, h).Some?
    ensures EndOfLeaf(utf8, d + tail, p, h) == EndOfLeaf(utf8, d, p, h)
  {
    var q := p + h.length;
    if h.major == 2 || h.major == 3 {
      assert (d + tail)[q..q + h.argument] == d[q..q + h.argument];
    }
  }

  lemma {:induction false} EndWithTail(utf8: seq<Byte> -> bool, d: seq<Byte>, tail: seq<Byte>, p: nat, depth: nat)
    requires EndOf(utf8, d, p, depth).Some?
    ensures EndOf(utf8, d + tail, p, depth) == EndOf(utf8, d, p, depth)
    decreases Levels(depth), 0, 0
  {
    HeadWithTail(d, tail, p);
    var h := Head(d, p).value;
    if h.major == 6 {
      EndWithTail(utf8, d, tail, p + h.length, depth + 1);
    } else if IsContainer(h.major) {
      ItemsWithTail(utf8, d, tail, p + h.length, ItemCount(h), depth + 1);
    } else {
      LeafWithTail(utf8, d, tail, p, h);
    }
  }

  lemma {:induction false} ItemsWithTail(utf8: seq<Byte> -> bool, d: seq<Byte>, tail: seq<Byte>, q: nat, count: nat,
                                         depth: nat)
    requires q <= |d| && EndOfItems(utf8, d, q, count, depth).Some?
    ensures EndOfItems(utf8, d + tail, q, count, depth) == EndOfItems(utf8, d, q, count, depth)
    decreases Levels(depth), 1, count
  {
    if count > 0 {
      EndWithTail(utf8, d, tail, q, depth);
      ItemsWithTail(utf8, d, tail, EndOf(utf8, d, q, depth).value, count - 1, depth);
    }
  }

  // ----- Maps and arrays -----

  /** The start of entry i of the items that start at q. */
  ghost function ItemStart(utf8: seq<Byte> -> bool, d: seq<Byte>, q: nat, i: nat): (s: Option<nat>)
    requires q <= |d|
    ensures s.Some? ==> q <= s.value <= |d|
    decreases i
  {
    if i == 0 then Some(q)
    else
      match EndOf(utf8, d, q, 0)
      case None => None
      case Some(e) => ItemStart(utf8, d, e, i - 1)
  }

  /** `array_item` */
  method ArrayItem(utf8: seq<Byte> -> bool, d: seq<Byte>, p: nat, i: nat) returns (r: Option<nat>)
    ensures r.Some? ==>
      Head(d, p).Some? && Head(d, p).value.major == 4 && i < Head(d, p).value.argument && p < r.value <= |d|
    ensures Head(d, p).Some? && Head(d, p).value.major == 4 && i < Head(d, p).value.argument
      ==> r == ItemStart(utf8, d, p + Head(d, p).value.length, i)
  {
    var head := Head(d, p);
    if head.None? || head.value.major != 4 || i >= head.value.argument {
      return None;
    }
    r := SkipItems(utf8, d, p + head.value.length, i);
  }

  /** Step over i items. */
  method SkipItems(utf8: seq<Byte> -> bool, d: seq<Byte>, start: nat, i: nat) returns (r: Option<nat>)
    requires start <= |d|
    ensures r == ItemStart(utf8, d, start, i) && (r.Some? ==> start <= r.value <= |d|)
  {
    var q := start;
    for k := 0 to i
      invariant start <= q <= |d| && ItemStart(utf8, d, q, i - k) == ItemStart(utf8, d, start, i)
    {
      var e := EndDepth(utf8, d, q, 0);
      if e.None? {
        return None;
      }
      q := e.value;
    }
    r := Some(q);
  }

  ghost predicate IsKey(d: seq<Byte>, q: nat, key: seq<Byte>) {
    Content(d, q) == Some(key)
  }

  /** The outcome of a lookup: malformed data, no such key, or where the value starts. */
  datatype Lookup = Malformed | Absent | Found(at: nat)

  /** One entry of a map: malformed, with the key and its value at `at`, or another key and the next entry there. */
  datatype Entry = BadEntry | Match(at: nat) | Skip(at: nat)

  ghost function EntryAt(utf8: seq<Byte> -> bool, d: seq<Byte>, q: nat, key: seq<Byte>): (r: Entry)
    ensures !r.BadEntry? ==> q < r.at <= |d|
  {
    match EndOf(utf8, d, q, 0)
    case None => BadEntry
    case Some(e) =>
      if IsKey(d, q, key) then Match(e)
      else
        match EndOf(utf8, d, e, 0)
        case None => BadEntry
        case Some(next) => Skip(next)
  }

  /** The first of n entries from q on with the given key. */
  ghost function LookupFrom(utf8: seq<Byte> -> bool, d: seq<Byte>, q: nat, n: nat, key: seq<Byte>): (r: Lookup)
    ensures r.Found? ==> q < r.at <= |d|
    decreases n
  {
    if n == 0 then Absent
    else
      match EntryAt(utf8, d, q, key)
      case BadEntry => Malformed
      case Match(e) => Found(e)
      case Skip(next) => LookupFrom(utf8, d, next, n - 1, key)
  }

  /** A key that the walker accepts as an item has a head, and as a string its content. */
  lemma KeyReadable(utf8: seq<Byte> -> bool, d: seq<Byte>, q: nat)
    requires EndOf(utf8, d, q, 0).Some?
    ensures Head(d, q).Some?
    ensures Head(d, q).value.major == 2 || Head(d, q).value.major == 3 <==> Content(d, q).Some?
  {
  }

  /** `map_get` */
  method MapGet(utf8: seq<Byte> -> bool, d: seq<Byte>, p: nat, key: seq<Byte>) returns (r: Lookup)
    ensures Head(d, p).None? || Head(d, p).value.major != 5 ==> r == Malformed
    ensures Head(d, p).Some? && Head(d, p).value.major == 5 ==>
      r == LookupFrom(utf8, d, p + Head(d, p).value.length, Head(d, p).value.argument, key)
    ensures r.Found? ==> p < r.at <= |d|
  {
    var head := Head(d, p);
    if head.None? || head.value.major != 5 {
      return Malformed;
    }
    var q := p + head.value.length;
    r := Search(utf8, d, q, head.value.argument, key);
  }

  /** The loop over the entries of a map. */
  method Search(utf8: seq<Byte> -> bool, d: seq<Byte>, first: nat, n: nat, key: seq<Byte>) returns (r: Lookup)
    ensures r == LookupFrom(utf8, d, first, n, key)
  {
    var q: nat, left: nat := first, n;
    while left > 0
      invariant LookupFrom(utf8, d, q, left, key) == LookupFrom(utf8, d, first, n, key)
    {
      var entry := ReadEntry(utf8, d, q, key);
      match entry
      case BadEntry => return Malformed;
      case Match(at) => return Found(at);
      case Skip(at) => q, left := at, left - 1;
    }
    r := Absent;
  }

  method ReadEntry(utf8: seq<Byte> -> bool, d: seq<Byte>, q: nat, key: seq<Byte>) returns (entry: Entry)
    ensures entry == EntryAt(utf8, d, q, key)
  {
    var keyEnd := EndDepth(utf8, d, q, 0);
    if keyEnd.None? {
      return BadEntry;
    }
    KeyReadable(utf8, d, q);
    var content := Content(d, q);
    if content.Some? && content.value == key {
      return Match(keyEnd.value);
    }
    var next := EndDepth(utf8, d, keyEnd.value, 0);
    if next.None? {
      return BadEntry;
    }
    entry := Skip(next.value);
  }

  // ----- Writing -----

  /** `head` of the writer, for arguments below 2^32. */
  function WriteHead(major: nat, n: nat): (bytes: seq<Byte>)
    requires major < 8 && n < 0x1_0000_0000
    ensures |bytes| == if n < 24 then 1 else if n < 256 then 2 else if n < 65536 then 3 else 5
  {
    if n < 24 then [32 * major + n]
    else if n < 256 then [32 * major + 24, n]
    else if n < 65536 then [32 * major + 25, n / 256, n % 256]
    else [32 * major + 26, n / 0x100_0000, n / 65536 % 256, n / 256 % 256, n % 256]
  }

  lemma BigEndian2(a: Byte, b: Byte)
    ensures BigEndian([a, b]) == 256 * a + b
  {
    assert [a, b][..1] == [a] && [a][..0] == [];
    assert BigEndian([a]) == 256 * BigEndian([]) + a;
  }

  lemma BigEndian4(a: Byte, b: Byte, c: Byte, e: Byte)
    ensures BigEndian([a, b, c, e]) == 256 * (256 * (256 * a + b) + c) + e
  {
    BigEndian2(a, b);
    assert [a, b, c][..2] == [a, b] && [a, b, c, e][..3] == [a, b, c];
    assert BigEndian([a, b, c]) == 256 * BigEndian([a, b]) + c;
  }

  /** The reader recovers every head that the writer emits, wherever it stands. */
  lemma HeadRoundTrip(before: seq<Byte>, major: nat, n: nat, after: seq<Byte>)
    requires major < 8 && n < 0x1_0000_0000
    ensures Head(before + WriteHead(major, n) + after, |before|) == Some(HeadOf(major, n, |WriteHead(major, n)|))
  {
    var h, p := WriteHead(major, n), |before|;
    InitialByte(before, h, after);
    InitialSplit(major, if n < 24 then n else if n < 256 then 24 else if n < 65536 then 25 else 26);
    if n >= 24 {
      ArgumentBytes(before, h, after);
      ArgumentValue(major, n);
    }
  }

  lemma InitialSplit(major: nat, info: nat)
    requires info < 32
    ensures (32 * major + info) / 32 == major && (32 * major + info) % 32 == info
  {
  }

  lemma ArgumentBytes(before: seq<Byte>, h: seq<Byte>, after: seq<Byte>)
    requires |h| > 0
    ensures (before + h + after)[|before| + 1..|before| + |h|] == h[1..]
  {
  }

  lemma ArgumentValue(major: nat, n: nat)
    requires major < 8 && 24 <= n < 0x1_0000_0000
    ensures BigEndian(WriteHead(major, n)[1..]) == n
  {
    var h := WriteHead(major, n);
    if n < 256 {
      assert h[1..] == [n] && [n][..0] == [];
      assert BigEndian([n]) == 256 * BigEndian([]) + n;
    } else if n < 65536 {
      assert h[1..] == [n / 256, n % 256];
      BigEndian2(n / 256, n % 256);
    } else {
      FourBytes(n);
      assert h[1..] == [n / 0x100_0000, n / 65536 % 256, n / 256 % 256, n % 256];
    }
  }

  lemma FourBytes(n: nat)
    requires n < 0x1_0000_0000
    ensures BigEndian([n / 0x100_0000, n / 65536 % 256, n / 256 % 256, n % 256]) == n
  {
    var a, b, c, e := n / 0x100_0000, n / 65536 % 256, n / 256 % 256, n % 256;
    BigEndian4(a, b, c, e);
    Digits(n);
  }

  lemma Digits(n: nat)
    ensures 256 * (n / 0x100_0000) + n / 65536 % 256 == n / 65536
    ensures 256 * (n / 65536) + n / 256 % 256 == n / 256
  {
  }

  lemma InitialByte(before: seq<Byte>, h: seq<Byte>, after: seq<Byte>)
    requires |h| > 0
    ensures (before + h + after)[|before|] == h[0] && |before + h + after| == |before| + |h| + |after|
  {
  }

  /** A byte or text string. */
  function WriteString(major: nat, s: seq<Byte>): (bytes: seq<Byte>)
    requires (major == 2 || major == 3) && |s| < 0x1_0000_0000
    ensures |bytes| > |s|
  {
    WriteHead(major, |s|) + s
  }

  /** The walker steps over every string that the writer emits. */
  lemma StringRoundTrip(utf8: seq<Byte> -> bool, before: seq<Byte>, major: nat, s: seq<Byte>, after: seq<Byte>,
                        depth: nat)
    requires (major == 2 || major == 3) && |s| < 0x1_0000_0000 && depth <= MAX_DEPTH && (major == 3 ==> utf8(s))
    ensures EndOf(utf8, before + WriteString(major, s) + after, |before|, depth)
      == Some(|before| + |WriteString(major, s)|)
    ensures Content(before + WriteString(major, s) + after, |before|) == Some(s)
  {
    var h := WriteHead(major, |s|);
    var d := before + WriteString(major, s) + after;
    assert d == before + h + (s + after);
    HeadRoundTrip(before, major, |s|, s + after);
    var q := |before| + |h|;
    assert d[q..q + |s|] == s;
  }

  // ----- What the reader finds -----

  /** A string of major type 2 or 3 with content s stands at p, and q is the position after it. */
  ghost predicate StringAt(d: seq<Byte>, p: nat, major: nat, s: seq<Byte>, q: nat) {
    match Head(d, p)
    case None => false
    case Some(h) => h.major == major && Content(d, p) == Some(s) && q == p + h.length + |s|
  }

  /** The head of an array of n items stands at p, and its first item at q. */
  ghost predicate ArrayAt(d: seq<Byte>, p: nat, n: nat, q: nat) {
    match Head(d, p)
    case None => false
    case Some(h) => h.major == 4 && h.argument == n && q == p + h.length
  }

  /** The head of the tag for encoded CBOR (24) stands at p, and its item at q. */
  ghost predicate TagAt(d: seq<Byte>, p: nat, q: nat) {
    match Head(d, p)
    case None => false
    case Some(h) => h.major == 6 && h.argument == 24 && q == p + h.length
  }

  ghost predicate NullAt(d: seq<Byte>, p: nat, q: nat) {
    Head(d, p) == Some(HeadOf(7, 22, 1)) && q == p + 1
  }

  lemma StringOnce(d: seq<Byte>, p: nat, major: nat, s: seq<Byte>, q: nat, t: seq<Byte>, r: nat)
    requires StringAt(d, p, major, s, q) && StringAt(d, p, major, t, r)
    ensures s == t && q == r
  {
  }

  lemma HeadStands(d: seq<Byte>, p: nat, q: nat, major: nat, n: nat)
    requires major < 8 && n < 0x1_0000_0000 && Stands(d, p, q, WriteHead(major, n))
    ensures Head(d, p) == Some(HeadOf(major, n, |WriteHead(major, n)|)) && q == p + |WriteHead(major, n)|
  {
    StandsSlice(d, p, q, WriteHead(major, n));
    assert d == d[..p] + WriteHead(major, n) + d[q..];
    HeadRoundTrip(d[..p], major, n, d[q..]);
  }

  lemma ArrayStands(d: seq<Byte>, p: nat, q: nat, n: nat)
    requires n < 0x1_0000_0000 && Stands(d, p, q, WriteHead(4, n))
    ensures ArrayAt(d, p, n, q)
  {
    HeadStands(d, p, q, 4, n);
  }

  lemma TagStands(d: seq<Byte>, p: nat, q: nat)
    requires Stands(d, p, q, WriteHead(6, 24))
    ensures TagAt(d, p, q)
  {
    HeadStands(d, p, q, 6, 24);
  }

  lemma StringStands(d: seq<Byte>, p: nat, q: nat, major: nat, s: seq<Byte>)
    requires (major == 2 || major == 3) && |s| < 0x1_0000_0000 && Stands(d, p, q, WriteString(major, s))
    ensures StringAt(d, p, major, s, q)
  {
    var m := StandsApart(d, p, q, WriteHead(major, |s|), s);
    HeadStands(d, p, m, major, |s|);
    StandsSlice(d, m, q, s);
  }

  // ----- Items at other positions -----

  /** The bytes of d come in `all` behind some others. */
  ghost predicate Behind(all: seq<Byte>, before: nat, d: seq<Byte>) {
    before <= |all| && all[before..] == d
  }

  lemma HeadAfter(all: seq<Byte>, before: nat, d: seq<Byte>, p: nat, at: nat)
    requires Behind(all, before, d) && at == before + p
    ensures Head(all, at) == Head(d, p)
  {
    if p < |d| {
      assert all[at] == all[before..][p];
      var info := d[p] % 32;
      if 24 <= info < 28 && p + 1 + ArgumentLength(info) <= |d| {
        SliceAfter(all, before, d, p + 1, p + 1 + ArgumentLength(info));
      }
    }
  }

  lemma SliceAfter(all: seq<Byte>, before: nat, d: seq<Byte>, i: nat, j: nat)
    requires Behind(all, before, d) && i <= j <= |d|
    ensures all[before + i..before + j] == d[i..j]
  {
    assert all[before..][i..j] == all[before + i..before + j];
  }

  ghost function Shifted(e: Option<nat>, n: nat): Option<nat> {
    match e
    case None => None
    case Some(v) => Some(v + n)
  }

  lemma LeafAfter(utf8: seq<Byte> -> bool, all: seq<Byte>, before: nat, d: seq<Byte>, p: nat, at: nat, h: HeadOf)
    requires Behind(all, before, d) && at == before + p && p + h.length <= |d| && h.length > 0
    ensures EndOfLeaf(utf8, all, at, h) == Shifted(EndOfLeaf(utf8, d, p, h), before)
  {
    var q := p + h.length;
    if (h.major == 2 || h.major == 3) && q + h.argument <= |d| {
      SliceAfter(all, before, d, q, q + h.argument);
    }
  }

  /** Bytes before an item shift its end. */
  lemma {:induction false} EndAfter(utf8: seq<Byte> -> bool, all: seq<Byte>, before: nat, d: seq<Byte>, p: nat, at: nat,
                                    depth: nat)
    requires Behind(all, before, d) && at == before + p
    ensures EndOf(utf8, all, at, depth) == Shifted(EndOf(utf8, d, p, depth), before)
    decreases Levels(depth), 0, 0
  {
    HeadAfter(all, before, d, p, at);
    if depth <= MAX_DEPTH && Head(d, p).Some? {
      var h := Head(d, p).value;
      var q, next := p + h.length, at + h.length;
      if h.major == 6 {
        EndAfter(utf8, all, before, d, q, next, depth + 1);
        TagAfter(utf8, all, before, d, p, at, depth, h, EndOf(utf8, d, q, depth + 1));
      } else if IsContainer(h.major) && ItemCount(h) <= |d| - p {
        ItemsAfter(utf8, all, before, d, q, next, ItemCount(h), depth + 1);
        ContainerAfter(utf8, all, before, d, p, at, depth, h, EndOfItems(utf8, d, q, ItemCount(h), depth + 1));
      } else {
        OtherAfter(utf8, all, before, d, p, at, depth, h);
      }
    } else {
      NothingAfter(utf8, all, before, d, p, at, depth);
    }
  }

  lemma NothingAfter(utf8: seq<Byte> -> bool, all: seq<Byte>, before: nat, d: seq<Byte>, p: nat, at: nat, depth: nat)
    requires depth > MAX_DEPTH || Head(d, p) == Head(all, at) == None
    ensures EndOf(utf8, all, at, depth) == Shifted(EndOf(utf8, d, p, depth), before)
  {
  }

  lemma TagAfter(utf8: seq<Byte> -> bool, all: seq<Byte>, before: nat, d: seq<Byte>, p: nat, at: nat, depth: nat,
                 h: HeadOf, e: Option<nat>)
    requires depth <= MAX_DEPTH && Head(d, p) == Head(all, at) == Some(h) && h.major == 6
    requires EndOf(utf8, d, p + h.length, depth + 1) == e
    requires EndOf(utf8, all, at + h.length, depth + 1) == Shifted(e, before)
    ensures EndOf(utf8, all, at, depth) == Shifted(EndOf(utf8, d, p, depth), before)
  {
    TagEnds(utf8, d, p, depth, h);
    TagEnds(utf8, all, at, depth, h);
  }

  lemma TagEnds(utf8: seq<Byte> -> bool, d: seq<Byte>, p: nat, depth: nat, h: HeadOf)
    requires depth <= MAX_DEPTH && Head(d, p) == Some(h) && h.major == 6
    ensures EndOf(utf8, d, p, depth) == EndOf(utf8, d, p + h.length, depth + 1)
  {
  }

  lemma ContainerAfter(utf8: seq<Byte> -> bool, all: seq<Byte>, before: nat, d: seq<Byte>, p: nat, at: nat, depth: nat,
                       h: HeadOf, e: Option<nat>)
    requires Behind(all, before, d) && at == before + p && depth <= MAX_DEPTH && Head(d, p) == Head(all, at) == Some(h)
    requires IsContainer(h.major) && ItemCount(h) <= |d| - p
    requires EndOfItems(utf8, d, p + h.length, ItemCount(h), depth + 1) == e
    requires EndOfItems(utf8, all, at + h.length, ItemCount(h), depth + 1) == Shifted(e, before)
    ensures EndOf(utf8, all, at, depth) == Shifted(EndOf(utf8, d, p, depth), before)
  {
    ContainerEnds(utf8, d, p, depth, h);
    ContainerEnds(utf8, all, at, depth, h);
  }

  lemma ContainerEnds(utf8: seq<Byte> -> bool, d: seq<Byte>, p: nat, depth: nat, h: HeadOf)
    requires depth <= MAX_DEPTH && Head(d, p) == Some(h) && IsContainer(h.major) && ItemCount(h) <= |d| - p
    ensures EndOf(utf8, d, p, depth) == EndOfItems(utf8, d, p + h.length, ItemCount(h), depth + 1)
  {
  }

  lemma OtherAfter(utf8: seq<Byte> -> bool, all: seq<Byte>, before: nat, d: seq<Byte>, p: nat, at: nat, depth: nat,
                   h: HeadOf)
    requires Behind(all, before, d) && at == before + p && depth <= MAX_DEPTH && Head(d, p) == Head(all, at) == Some(h)
    requires h.major != 6 && (IsContainer(h.major) ==> ItemCount(h) > |d| - p)
    ensures EndOf(utf8, all, at, depth) == Shifted(EndOf(utf8, d, p, depth), before)
  {
    if !IsContainer(h.major) {
      LeafAfter(utf8, all, before, d, p, at, h);
    }
  }

  lemma {:induction false} ItemsAfter(utf8: seq<Byte> -> bool, all: seq<Byte>, before: nat, d: seq<Byte>, q: nat,
                                      at: nat,
                                      count: nat, depth: nat)
    requires Behind(all, before, d) && at == before + q && q <= |d|
    ensures EndOfItems(utf8, all, at, count, depth) == Shifted(EndOfItems(utf8, d, q, count, depth), before)
    decreases Levels(depth), 1, count
  {
    if count > 0 {
      EndAfter(utf8, all, before, d, q, at, depth);
      var e := EndOf(utf8, d, q, depth);
      if e.Some? {
        ItemsAfter(utf8, all, before, d, e.value, e.value + before, count - 1, depth);
      }
    }
  }

  /** A whole item that stands in longer bytes ends where it ends there. */
  lemma ItemStands(utf8: seq<Byte> -> bool, d: seq<Byte>, p: nat, q: nat, item: seq<Byte>)
    requires EndOf(utf8, item, 0, 0) == Some(|item|) && Stands(d, p, q, item)
    ensures EndOf(utf8, d, p, 0) == Some(q) && d[p..q] == item
  {
    StandsSlice(d, p, q, item);
    EndWithTail(utf8, item, d[q..], 0, 0);
    EndAfter(utf8, d, p, item + d[q..], 0, p, 0);
  }
}
