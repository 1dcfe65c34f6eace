/** The canonical bencode reader of src/disk/web/torrent-protocol.js. Byte-order
    marks matter: the reader decodes integer and key text with a decoder that drops
    one leading mark, so a token may carry a mark that its value does not show. */
module Bencode {
  import opened Octets
  import Utf8

  const MAX_SAFE := 0x1F_FFFF_FFFF_FFFF
  const MAX_NODES := 256
  const MAX_DEPTH := 8
  const MAX_TOKEN := 17
  const MARK: seq<Byte> := [0xEF, 0xBB, 0xBF]

  const INTEGER: Byte := 105
  const DICTIONARY: Byte := 100
  const LIST: Byte := 108
  const END: Byte := 101
  const COLON: Byte := 58

  // A parsed value and the bytes it came from.
  datatype Node = Node(start: nat, end: nat, value: Value)

  // `marked` remembers a dropped byte-order mark; the reader itself forgets it.
  datatype Value =
    | Num(n: int, marked: bool)
    | Str(bytes: seq<Byte>)
    | List(items: seq<Node>)
    | Dict(entries: seq<Entry>)

  datatype Entry = Entry(name: seq<Byte>, marked: bool, node: Node)

  // Decimal text.

  predicate IsDigit(b: Byte) { 48 <= b <= 57 }

  predicate Digits(t: seq<Byte>) { forall i :: 0 <= i < |t| ==> IsDigit(t[i]) }

  // The pattern 0|[1-9][0-9]*
  predicate Canonical(t: seq<Byte>) { |t| > 0 && Digits(t) && (|t| == 1 || t[0] != 48) }

  // The pattern 0|-?[1-9][0-9]*
  predicate CanonicalInt(t: seq<Byte>) {
    Canonical(t) || (|t| > 1 && t[0] == 45 && Canonical(t[1..]) && t[1] != 48)
  }

  function Dec(n: nat): (t: seq<Byte>)
    ensures Canonical(t) && (n > 0 ==> t[0] != 48)
  {
    if n < 10 then [48 + n] else Dec(n / 10) + [48 + n % 10]
  }

  predicate Token(text: seq<Byte>, negative: bool) { if negative then CanonicalInt(text) else Canonical(text) }

  function DecInt(n: int): (t: seq<Byte>)
    ensures CanonicalInt(t)
  {
    if n < 0 then [45] + Dec(-n) else Dec(n)
  }

  function FromDec(t: seq<Byte>): nat
    requires Digits(t)
  {
    if |t| == 0 then 0 else 10 * FromDec(t[..|t| - 1]) + (t[|t| - 1] - 48)
  }

  function FromDecInt(t: seq<Byte>): int
    requires CanonicalInt(t)
  {
    if t[0] == 45 then 0 - FromDec(t[1..]) else FromDec(t)
  }

  lemma {:induction false} FromDecOfDec(n: nat)
    ensures FromDec(Dec(n)) == n
  {
    if n >= 10 {
      FromDecOfDec(n / 10);
      assert Dec(n)[..|Dec(n)| - 1] == Dec(n / 10);
    } else {
      assert Dec(n)[..0] == [];
    }
  }

  lemma {:induction false} DecOfFromDec(t: seq<Byte>)
    requires Canonical(t)
    ensures Dec(FromDec(t)) == t
    ensures |t| > 1 || t[0] != 48 ==> FromDec(t) > 0
  {
    var k := |t| - 1;
    if k == 0 {
      assert t[..0] == [];
    } else {
      DecOfFromDec(t[..k]);
      var n := FromDec(t);
      assert n / 10 == FromDec(t[..k]) && n % 10 == t[k] - 48;
      assert t == t[..k] + [t[k]];
    }
  }

  lemma DecIntInverse(n: int, t: seq<Byte>)
    ensures FromDecInt(DecInt(n)) == n
    ensures CanonicalInt(t) ==> DecInt(FromDecInt(t)) == t
  {
    FromDecOfDec(if n < 0 then -n else n);
    if n < 0 {
      assert DecInt(n)[1..] == Dec(-n);
    }
    if CanonicalInt(t) {
      if t[0] == 45 {
        DecOfFromDec(t[1..]);
        assert t == [45] + t[1..];
      } else {
        DecOfFromDec(t);
      }
    }
  }

  function Pow10(k: nat): nat { if k == 0 then 1 else 10 * Pow10(k - 1) }

  lemma {:induction false} DecLength(n: nat, k: nat)
    requires 0 < k && n < Pow10(k)
    ensures |Dec(n)| <= k
  {
    if n >= 10 {
      assert k > 1;
      DecLength(n / 10, k - 1);
    }
  }

  lemma SafeLength(n: nat)
    requires n <= MAX_SAFE
    ensures |Dec(n)| <= 16
  {
    assert Pow10(4) == 10000;
    assert Pow10(8) == 10000 * Pow10(4) by { assert Pow10(6) == 100 * Pow10(4); }
    assert Pow10(12) == 10000 * Pow10(8) by { assert Pow10(10) == 100 * Pow10(8); }
    assert Pow10(16) == 10000 * Pow10(12) by { assert Pow10(14) == 100 * Pow10(12); }
    DecLength(n, 16);
  }

  // The wire form, marks included.

  function Marks(marked: bool): seq<Byte> { if marked then MARK else [] }

  function EncNumber(n: int, marked: bool): seq<Byte> { Marks(marked) + DecInt(n) }

  function EncStr(b: seq<Byte>): (r: seq<Byte>)
    ensures |r| > 0 && IsDigit(r[0])
  {
    Dec(|b|) + [COLON] + b
  }

  function KeyText(e: Entry): seq<Byte> { Marks(e.marked) + e.name }

  function EncKey(e: Entry): seq<Byte> { EncStr(KeyText(e)) }

  function Enc(n: Node): (r: seq<Byte>)
    ensures |r| > 0 && r[0] != END
    decreases n, 0
  {
    match n.value
    case Num(k, marked) => [INTEGER] + EncNumber(k, marked) + [END]
    case Str(b) => EncStr(b)
    case List(items) => [LIST] + EncItems(items) + [END]
    case Dict(entries) => [DICTIONARY] + EncEntries(entries) + [END]
  }

  function EncItems(items: seq<Node>): seq<Byte>
    decreases items, 1
  {
    if items == [] then [] else Enc(items[0]) + EncItems(items[1..])
  }

  function EncEntries(entries: seq<Entry>): seq<Byte>
    decreases entries, 1
  {
    if entries == [] then [] else EncEntry(entries[0]) + EncEntries(entries[1..])
  }

  function EncEntry(e: Entry): seq<Byte>
    decreases e, 0
  {
    EncKey(e) + Enc(e.node)
  }

  // Values the format can carry, at the positions their bytes occupy.

  // A key is text, and keys go up in the order of their UTF-16 units.

  predicate Readable(name: seq<Byte>) { Utf8.Points(name).Some? }

  function KeyUnits(name: seq<Byte>): seq<nat> {
    match Utf8.Points(name)
    case None => []
    case Some(t) => Utf8.Units(t)
  }

  predicate After(previous: Option<seq<Byte>>, name: seq<Byte>) {
    previous.Some? ==> Utf8.Less(KeyUnits(previous.value), KeyUnits(name))
  }

  // Only one mark is dropped, so a name may begin with a second.
  predicate Named(e: Entry) { Readable(e.name) && (e.marked || !(MARK <= e.name)) }

  predicate Good(n: Node, o: nat)
    decreases n, 0
  {
    && n.start == o && n.end == o + |Enc(n)|
    && match n.value
       case Num(k, marked) => -MAX_SAFE <= k <= MAX_SAFE && |EncNumber(k, marked)| <= MAX_TOKEN
       case Str(b) => |b| <= MAX_SAFE
       case List(items) => GoodItems(items, o + 1)
       case Dict(entries) => GoodEntries(entries, o + 1, None)
  }

  predicate GoodItems(items: seq<Node>, o: nat)
    decreases items, 1
  {
    items == [] || (Good(items[0], o) && GoodItems(items[1..], items[0].end))
  }

  predicate GoodEntries(entries: seq<Entry>, o: nat, previous: Option<seq<Byte>>)
    decreases entries, 1
  {
    entries == [] ||
    (GoodEntry(entries[0], o, previous) && GoodEntries(entries[1..], entries[0].node.end, Some(entries[0].name)))
  }

  predicate GoodEntry(e: Entry, o: nat, previous: Option<seq<Byte>>)
    decreases e, 0
  {
    && Named(e) && After(previous, e.name) && |KeyText(e)| <= MAX_SAFE
    && Good(e.node, o + |EncKey(e)|)
  }

  // The limits: nodes in all (keys included) and nesting.

  function Count(n: Node): (c: nat)
    ensures c > 0
    decreases n, 0
  {
    match n.value
    case Num(_, _) => 1
    case Str(_) => 1
    case List(items) => 1 + CountItems(items)
    case Dict(entries) => 1 + CountEntries(entries)
  }

  function CountItems(items: seq<Node>): nat
    decreases items, 1
  {
    if items == [] then 0 else Count(items[0]) + CountItems(items[1..])
  }

  function CountEntries(entries: seq<Entry>): nat
    decreases entries, 1
  {
    if entries == [] then 0 else 1 + Count(entries[0].node) + CountEntries(entries[1..])
  }

  predicate Shallow(n: Node, depth: nat)
    decreases n, 0
  {
    && depth <= MAX_DEPTH
    && match n.value
       case Num(_, _) => true
       case Str(_) => true
       case List(items) => ShallowItems(items, depth + 1)
       case Dict(entries) => ShallowEntries(entries, depth + 1)
  }

  predicate ShallowItems(items: seq<Node>, depth: nat)
    decreases items, 1
  {
    items == [] || (Shallow(items[0], depth) && ShallowItems(items[1..], depth))
  }

  predicate ShallowEntries(entries: seq<Entry>, depth: nat)
    decreases entries, 1
  {
    entries == [] || (depth <= MAX_DEPTH && Shallow(entries[0].node, depth) && ShallowEntries(entries[1..], depth))
  }

  // The reader as functions. A position is passed along with the node count.

  datatype Number = Number(n: int, marked: bool, next: nat)

  // The decoder drops one leading byte-order mark.
  function Strip(t: seq<Byte>): seq<Byte> { if MARK <= t then t[3..] else t }

  // The text of a token, once its end is known.
  function NumberIn(raw: seq<Byte>, negative: bool): Option<(int, bool)> {
    var text := Strip(raw);
    if |raw| > MAX_TOKEN || !Token(text, negative) then None
    else
      var n := if negative then FromDecInt(text) else FromDec(text);
      if -MAX_SAFE <= n <= MAX_SAFE then Some((n, MARK <= raw)) else None
  }

  function NumberAt(bytes: seq<Byte>, o: nat, end: Byte, negative: bool): (r: Option<Number>)
    requires o <= |bytes|
    ensures r.Some? ==> o < r.value.next <= |bytes|
  {
    NumberFrom(bytes, o, o, end, negative)
  }

  // The search for the terminator has reached `k`.
  function NumberFrom(bytes: seq<Byte>, o: nat, k: nat, end: Byte, negative: bool): (r: Option<Number>)
    requires o <= k <= |bytes|
    ensures r.Some? ==> k < r.value.next <= |bytes|
    decreases |bytes| - k
  {
    if k == |bytes| then None
    else if bytes[k] != end then NumberFrom(bytes, o, k + 1, end, negative)
    else
      match NumberIn(bytes[o..k], negative)
      case None => None
      case Some((n, marked)) => Some(Number(n, marked, k + 1))
  }

  function StrAt(bytes: seq<Byte>, o: nat): (r: Option<Node>)
    requires o <= |bytes|
    ensures r.Some? ==> o < r.value.end <= |bytes|
  {
    match NumberAt(bytes, o, COLON, false)
    case None => None
    case Some(length) =>
      if length.n < 0 || length.next + length.n > |bytes| then None
      else Some(Node(o, length.next + length.n, Str(bytes[length.next..length.next + length.n])))
  }

  datatype Parsed<+T> = Parsed(value: T, end: nat, nodes: nat)

  function Parse(bytes: seq<Byte>, o: nat, nodes: nat, depth: nat): (r: Option<Parsed<Node>>)
    requires o <= |bytes|
    ensures r.Some? ==> o < r.value.end <= |bytes| && r.value.value.end == r.value.end
    decreases |bytes| - o, 0
  {
    if nodes + 1 > MAX_NODES || depth > MAX_DEPTH || o >= |bytes| then None
    else if bytes[o] == INTEGER then
      match NumberAt(bytes, o + 1, END, true)
      case None => None
      case Some(x) => Some(Parsed(Node(o, x.next, Num(x.n, x.marked)), x.next, nodes + 1))
    else if bytes[o] == DICTIONARY then
      match ParseEntries(bytes, o + 1, nodes + 1, depth, None)
      case None => None
      case Some(p) => Some(Parsed(Node(o, p.end, Dict(p.value)), p.end, p.nodes))
    else if bytes[o] == LIST then
      match ParseItems(bytes, o + 1, nodes + 1, depth)
      case None => None
      case Some(p) => Some(Parsed(Node(o, p.end, List(p.value)), p.end, p.nodes))
    else if IsDigit(bytes[o]) then
      match StrAt(bytes, o)
      case None => None
      case Some(n) => Some(Parsed(n, n.end, nodes + 1))
    else None
  }

  function ParseItems(bytes: seq<Byte>, o: nat, nodes: nat, depth: nat): (r: Option<Parsed<seq<Node>>>)
    requires o <= |bytes|
    ensures r.Some? ==> o < r.value.end <= |bytes|
    decreases |bytes| - o, 1
  {
    if o < |bytes| && bytes[o] == END then Some(Parsed([], o + 1, nodes))
    else
      match Parse(bytes, o, nodes, depth + 1)
      case None => None
      case Some(head) =>
        match ParseItems(bytes, head.end, head.nodes, depth)
        case None => None
        case Some(tail) => Some(Parsed([head.value] + tail.value, tail.end, tail.nodes))
  }

  // One key and its value.
  function ParseEntry(
    bytes: seq<Byte>, o: nat, nodes: nat, depth: nat, previous: Option<seq<Byte>>): (r: Option<Parsed<Entry>>)
    requires o <= |bytes|
    ensures r.Some? ==> o < r.value.end <= |bytes|
    decreases |bytes| - o, 1
  {
    match Parse(bytes, o, nodes, depth + 1)
    case None => None
    case Some(key) =>
      if !key.value.value.Str? then None
      else
        var raw := key.value.value.bytes;
        var name := Strip(raw);
        if !Readable(name) || !After(previous, name) then None
        else
          match Parse(bytes, key.end, key.nodes, depth + 1)
          case None => None
          case Some(p) => Some(Parsed(Entry(name, MARK <= raw, p.value), p.end, p.nodes))
  }

  function ParseEntries(
    bytes: seq<Byte>, o: nat, nodes: nat, depth: nat, previous: Option<seq<Byte>>): (r: Option<Parsed<seq<Entry>>>)
    requires o <= |bytes|
    ensures r.Some? ==> o < r.value.end <= |bytes|
    decreases |bytes| - o, 2
  {
    if o < |bytes| && bytes[o] == END then Some(Parsed([], o + 1, nodes))
    else
      match ParseEntry(bytes, o, nodes, depth, previous)
      case None => None
      case Some(head) =>
        match ParseEntries(bytes, head.end, head.nodes, depth, Some(head.value.name))
        case None => None
        case Some(tail) => Some(Parsed([head.value] + tail.value, tail.end, tail.nodes))
  }

  // What an integer or length token yields, both ways.

  lemma TokenBytes(text: seq<Byte>, negative: bool, end: Byte)
    requires Token(text, negative) && (end == END || end == COLON)
    ensures end !in text && !(MARK <= text)
  {
    forall i | 0 <= i < |text|
      ensures text[i] != end && text[i] < 128
    {
      if text[0] == 45 && i > 0 {
        assert text[i] == text[1..][i - 1];
      }
    }
  }

  /** A token means a number exactly when it is the canonical decimal text of that
      safe integer, after at most one mark, in at most 17 bytes. */
  lemma NumberIff(raw: seq<Byte>, negative: bool, n: int, marked: bool)
    ensures NumberIn(raw, negative) == Some((n, marked)) <==>
      && -MAX_SAFE <= n <= MAX_SAFE && (!negative ==> n >= 0)
      && raw == EncNumber(n, marked) && |raw| <= MAX_TOKEN
  {
    if NumberIn(raw, negative).Some? {
      TextSound(Strip(raw), negative);
      StripMark(raw);
    }
    if raw == EncNumber(n, marked) {
      TokenBytes(DecInt(n), true, END);
      MarkedText(DecInt(n), marked);
      DecIntInverse(n, []);
      if n >= 0 {
        FromDecOfDec(n);
      }
    }
  }

  /** The reader takes the bytes up to the first terminator and nothing else. */
  lemma NumberAtIff(bytes: seq<Byte>, o: nat, end: Byte, negative: bool, raw: seq<Byte>)
    requires o + |raw| < |bytes| && bytes[o..o + |raw|] == raw && bytes[o + |raw|] == end && end !in raw
    ensures NumberAt(bytes, o, end, negative) ==
      match NumberIn(raw, negative)
      case None => None
      case Some((n, marked)) => Some(Number(n, marked, o + |raw| + 1))
  {
    var k := o + |raw|;
    forall i | o <= i < k
      ensures bytes[i] != end
    {
      assert bytes[i] == raw[i - o];
    }
    Skip(bytes, o, k, end, negative);
  }

  lemma {:induction false} Skip(bytes: seq<Byte>, o: nat, k: nat, end: Byte, negative: bool)
    requires o <= k <= |bytes| && forall i :: o <= i < k ==> bytes[i] != end
    ensures NumberAt(bytes, o, end, negative) == NumberFrom(bytes, o, k, end, negative)
  {
    if k > o {
      Skip(bytes, o, k - 1, end, negative);
    }
  }

  lemma NumberSound(bytes: seq<Byte>, o: nat, end: Byte, negative: bool)
    requires o <= |bytes| && NumberAt(bytes, o, end, negative).Some?
    ensures var x := NumberAt(bytes, o, end, negative).value;
      && -MAX_SAFE <= x.n <= MAX_SAFE && (!negative ==> x.n >= 0)
      && bytes[o..x.next] == EncNumber(x.n, x.marked) + [end]
      && |EncNumber(x.n, x.marked)| <= MAX_TOKEN
  {
    var x := NumberAt(bytes, o, end, negative).value;
    var raw := NumberRaw(bytes, o, end, negative);
    NumberIff(raw, negative, x.n, x.marked);
  }

  lemma NumberRaw(bytes: seq<Byte>, o: nat, end: Byte, negative: bool) returns (raw: seq<Byte>)
    requires o <= |bytes| && NumberAt(bytes, o, end, negative).Some?
    ensures var x := NumberAt(bytes, o, end, negative).value;
      NumberIn(raw, negative) == Some((x.n, x.marked)) && bytes[o..x.next] == raw + [end]
  {
    var k := NumberFromEnd(bytes, o, o, end, negative);
    LastByte(bytes, o, k + 1);
    raw := bytes[o..k];
  }

  lemma {:induction false} NumberFromEnd(bytes: seq<Byte>, o: nat, k: nat, end: Byte, negative: bool) returns (e: nat)
    requires o <= k <= |bytes| && NumberFrom(bytes, o, k, end, negative).Some?
    ensures var x := NumberFrom(bytes, o, k, end, negative).value;
      k <= e < |bytes| && x.next == e + 1 && bytes[e] == end && NumberIn(bytes[o..e], negative) == Some((x.n, x.marked))
    decreases |bytes| - k
  {
    e := k;
    if bytes[k] != end {
      e := NumberFromEnd(bytes, o, k + 1, end, negative);
    }
  }

  lemma TextSound(text: seq<Byte>, negative: bool)
    requires Token(text, negative)
    ensures DecInt(if negative then FromDecInt(text) else FromDec(text)) == text
  {
    if negative {
      DecIntInverse(0, text);
    } else {
      DecOfFromDec(text);
    }
  }

  lemma StripMark(raw: seq<Byte>)
    ensures raw == Marks(MARK <= raw) + Strip(raw)
  {
  }

  lemma LastByte(bytes: seq<Byte>, o: nat, e: nat)
    requires o < e <= |bytes|
    ensures bytes[o..e] == bytes[o..e - 1] + [bytes[e - 1]]
  {
  }

  lemma NumberComplete(bytes: seq<Byte>, o: nat, end: Byte, n: int, marked: bool, negative: bool)
    requires -MAX_SAFE <= n <= MAX_SAFE && (!negative ==> n >= 0) && (end == END || end == COLON)
    requires |EncNumber(n, marked)| <= MAX_TOKEN && o <= |bytes|
    requires Spells(bytes, o, EncNumber(n, marked) + [end])
    ensures NumberAt(bytes, o, end, negative) == Some(Number(n, marked, o + |EncNumber(n, marked)| + 1))
  {
    var raw := NumberText(n, marked, negative, end);
    var x := RawComplete(bytes, o, end, negative, raw, (n, marked));
  }

  lemma NumberText(n: int, marked: bool, negative: bool, end: Byte) returns (raw: seq<Byte>)
    requires -MAX_SAFE <= n <= MAX_SAFE && (!negative ==> n >= 0) && (end == END || end == COLON)
    requires |EncNumber(n, marked)| <= MAX_TOKEN
    ensures raw == EncNumber(n, marked) && NumberIn(raw, negative) == Some((n, marked)) && end !in raw
  {
    raw := EncNumber(n, marked);
    NumberIff(raw, negative, n, marked);
    TokenBytes(DecInt(n), true, end);
  }

  lemma RawComplete(
    bytes: seq<Byte>, o: nat, end: Byte, negative: bool, raw: seq<Byte>, t: (int, bool)) returns (x: Number)
    requires Spells(bytes, o, raw + [end]) && end !in raw && NumberIn(raw, negative) == Some(t)
    ensures NumberAt(bytes, o, end, negative) == Some(x) && x == Number(t.0, t.1, o + |raw| + 1)
  {
    Split(bytes, o, raw, [end]);
    First(bytes, o + |raw|, [end]);
    assert bytes[o..o + |raw|] == raw;
    NumberAtIff(bytes, o, end, negative, raw);
    x := Number(t.0, t.1, o + |raw| + 1);
  }

  // `text` stands in `bytes` at position `o`.
  ghost predicate Spells(bytes: seq<Byte>, o: nat, text: seq<Byte>) {
    o + |text| <= |bytes| && forall i :: 0 <= i < |text| ==> text[i] == bytes[o + i]
  }

  lemma MarkedText(text: seq<Byte>, marked: bool)
    requires marked || !(MARK <= text)
    ensures MARK <= Marks(marked) + text <==> marked
    ensures Strip(Marks(marked) + text) == text
  {
  }

  lemma StrSound(bytes: seq<Byte>, o: nat)
    requires o < |bytes| && IsDigit(bytes[o]) && StrAt(bytes, o).Some?
    ensures var n := StrAt(bytes, o).value; bytes[o..n.end] == Enc(n) && Good(n, o)
  {
    NumberSound(bytes, o, COLON, false);
    var x := NumberAt(bytes, o, COLON, false).value;
    assert bytes[o..x.next][0] == bytes[o];
    assert !x.marked;
    assert EncNumber(x.n, false) == Dec(x.n);
    var n := StrAt(bytes, o).value;
    Join(bytes, o, x.next, n.end, Dec(x.n) + [COLON], n.value.bytes);
  }

  lemma StrComplete(bytes: seq<Byte>, o: nat, b: seq<Byte>)
    requires Spells(bytes, o, EncStr(b)) && |b| <= MAX_SAFE
    ensures StrAt(bytes, o) == Some(Node(o, o + |EncStr(b)|, Str(b)))
  {
    var next := o + |Dec(|b|)| + 1;
    Split(bytes, o, Dec(|b|) + [COLON], b);
    LengthComplete(bytes, o, |b|);
    assert bytes[next..next + |b|] == b;
  }

  lemma LengthComplete(bytes: seq<Byte>, o: nat, n: nat)
    requires Spells(bytes, o, Dec(n) + [COLON]) && n <= MAX_SAFE
    ensures NumberAt(bytes, o, COLON, false) == Some(Number(n, false, o + |Dec(n)| + 1))
  {
    SafeLength(n);
    assert EncNumber(n, false) == Dec(n);
    NumberComplete(bytes, o, COLON, n, false, false);
  }

  // Limits as they stand at one point of the reading.
  ghost predicate Room(n: Node, nodes: nat, depth: nat) { nodes + Count(n) <= MAX_NODES && Shallow(n, depth) }

  lemma {:induction false} ParseSound(bytes: seq<Byte>, o: nat, nodes: nat, depth: nat) returns (p: Parsed<Node>)
    requires o <= |bytes| && Parse(bytes, o, nodes, depth).Some?
    ensures Parse(bytes, o, nodes, depth) == Some(p)
    ensures Good(p.value, o) && bytes[o..p.end] == Enc(p.value)
    ensures p.nodes == nodes + Count(p.value) && Room(p.value, nodes, depth)
    decreases |bytes| - o, 0
  {
    p := Parse(bytes, o, nodes, depth).value;
    if bytes[o] == INTEGER {
      NumberSound(bytes, o + 1, END, true);
      Wrap(bytes, o, p.end, EncNumber(p.value.value.n, p.value.value.marked), END);
    } else if bytes[o] == DICTIONARY {
      p := DictSound(bytes, o, nodes, depth);
    } else if bytes[o] == LIST {
      p := ListSound(bytes, o, nodes, depth);
    } else {
      StrSound(bytes, o);
    }
  }

  lemma {:induction false} DictSound(bytes: seq<Byte>, o: nat, nodes: nat, depth: nat) returns (p: Parsed<Node>)
    requires o < |bytes| && bytes[o] == DICTIONARY && Parse(bytes, o, nodes, depth).Some?
    ensures Parse(bytes, o, nodes, depth) == Some(p)
    ensures Good(p.value, o) && bytes[o..p.end] == Enc(p.value)
    ensures p.nodes == nodes + Count(p.value) && Room(p.value, nodes, depth)
    decreases |bytes| - o - 1, 3
  {
    var body := EntriesSound(bytes, o + 1, nodes + 1, depth, None);
    p := Parsed(Node(o, body.end, Dict(body.value)), body.end, body.nodes);
    Wrap(bytes, o, p.end, EncEntries(body.value), END);
  }

  lemma {:induction false} ListSound(bytes: seq<Byte>, o: nat, nodes: nat, depth: nat) returns (p: Parsed<Node>)
    requires o < |bytes| && bytes[o] == LIST && Parse(bytes, o, nodes, depth).Some?
    ensures Parse(bytes, o, nodes, depth) == Some(p)
    ensures Good(p.value, o) && bytes[o..p.end] == Enc(p.value)
    ensures p.nodes == nodes + Count(p.value) && Room(p.value, nodes, depth)
    decreases |bytes| - o - 1, 3
  {
    var body := ItemsSound(bytes, o + 1, nodes + 1, depth);
    p := Parsed(Node(o, body.end, List(body.value)), body.end, body.nodes);
    Wrap(bytes, o, p.end, EncItems(body.value), END);
  }

  lemma Join(bytes: seq<Byte>, o: nat, m: nat, e: nat, left: seq<Byte>, right: seq<Byte>)
    requires o <= m <= e <= |bytes| && bytes[o..m] == left && bytes[m..e] == right
    ensures bytes[o..e] == left + right
  {
  }

  lemma Split(bytes: seq<Byte>, o: nat, left: seq<Byte>, right: seq<Byte>)
    requires Spells(bytes, o, left + right)
    ensures Spells(bytes, o, left) && Spells(bytes, o + |left|, right)
  {
    var whole := left + right;
    assert forall i :: 0 <= i < |left| ==> left[i] == whole[i];
    assert forall i :: 0 <= i < |right| ==> right[i] == whole[|left| + i];
  }

  lemma SplitLast(bytes: seq<Byte>, o: nat, left: seq<Byte>, right: seq<Byte>, last: Byte)
    requires Spells(bytes, o, left + right + [last])
    ensures Spells(bytes, o, left) && Spells(bytes, o + |left|, right + [last])
  {
    assert left + right + [last] == left + (right + [last]);
    Split(bytes, o, left, right + [last]);
  }

  lemma Wrap(bytes: seq<Byte>, o: nat, e: nat, body: seq<Byte>, last: Byte)
    requires o < e <= |bytes| && bytes[o + 1..e] == body + [last]
    ensures bytes[o..e] == [bytes[o]] + body + [last]
  {
  }

  lemma JoinThree(bytes: seq<Byte>, o: nat, m: nat, e: nat, left: seq<Byte>, right: seq<Byte>, last: Byte)
    requires o <= m <= e <= |bytes| && bytes[o..m] == left && bytes[m..e] == right + [last]
    ensures bytes[o..e] == left + right + [last]
  {
  }

  lemma ItemsCons(head: Node, tail: seq<Node>, o: nat, depth: nat)
    ensures EncItems([head] + tail) == Enc(head) + EncItems(tail)
    ensures CountItems([head] + tail) == Count(head) + CountItems(tail)
    ensures GoodItems([head] + tail, o) <==> Good(head, o) && GoodItems(tail, head.end)
    ensures ShallowItems([head] + tail, depth) <==> Shallow(head, depth) && ShallowItems(tail, depth)
  {
    assert ([head] + tail)[1..] == tail;
  }

  lemma EntriesCons(e: Entry, rest: seq<Entry>, o: nat, previous: Option<seq<Byte>>, depth: nat)
    ensures EncEntries([e] + rest) == EncEntry(e) + EncEntries(rest)
    ensures CountEntries([e] + rest) == 1 + Count(e.node) + CountEntries(rest)
    ensures GoodEntries([e] + rest, o, previous) <==>
      GoodEntry(e, o, previous) && GoodEntries(rest, e.node.end, Some(e.name))
    ensures ShallowEntries([e] + rest, depth) <==>
      depth <= MAX_DEPTH && Shallow(e.node, depth) && ShallowEntries(rest, depth)
  {
    assert ([e] + rest)[1..] == rest;
  }

  lemma {:induction false} ItemsSound(bytes: seq<Byte>, o: nat, nodes: nat, depth: nat) returns (p: Parsed<seq<Node>>)
    requires o <= |bytes| && nodes <= MAX_NODES && ParseItems(bytes, o, nodes, depth).Some?
    ensures ParseItems(bytes, o, nodes, depth) == Some(p)
    ensures GoodItems(p.value, o) && bytes[o..p.end] == EncItems(p.value) + [END]
    ensures p.nodes == nodes + CountItems(p.value) <= MAX_NODES && ShallowItems(p.value, depth + 1)
    decreases |bytes| - o, 1
  {
    p := ParseItems(bytes, o, nodes, depth).value;
    if bytes[o] == END {
      assert bytes[o..o + 1] == [END];
    } else {
      var head := ParseSound(bytes, o, nodes, depth + 1);
      var tail := ItemsSound(bytes, head.end, head.nodes, depth);
      ItemsCons(head.value, tail.value, o, depth + 1);
      JoinThree(bytes, o, head.end, p.end, Enc(head.value), EncItems(tail.value), END);
    }
  }

  lemma {:induction false} EntrySound(bytes: seq<Byte>, o: nat, nodes: nat, depth: nat, previous: Option<seq<Byte>>)
    returns (p: Parsed<Entry>)
    requires o <= |bytes| && ParseEntry(bytes, o, nodes, depth, previous).Some?
    ensures ParseEntry(bytes, o, nodes, depth, previous) == Some(p)
    ensures GoodEntry(p.value, o, previous) && p.value.node.end == p.end && bytes[o..p.end] == EncEntry(p.value)
    ensures p.nodes == nodes + 1 + Count(p.value.node) <= MAX_NODES
    ensures depth + 1 <= MAX_DEPTH && Shallow(p.value.node, depth + 1)
    decreases |bytes| - o, 1
  {
    var key := ParseSound(bytes, o, nodes, depth + 1);
    var value := ParseSound(bytes, key.end, key.nodes, depth + 1);
    var raw := key.value.value.bytes;
    p := Parsed(Entry(Strip(raw), MARK <= raw, value.value), value.end, value.nodes);
    EntryJoin(bytes, o, key, p);
  }

  lemma EntryJoin(bytes: seq<Byte>, o: nat, key: Parsed<Node>, p: Parsed<Entry>)
    requires o <= key.end <= p.end <= |bytes| && key.value.value.Str? && key.value.end == key.end
    requires Good(key.value, o) && bytes[o..key.end] == Enc(key.value)
    requires Good(p.value.node, key.end) && bytes[key.end..p.end] == Enc(p.value.node)
    requires p.value.name == Strip(key.value.value.bytes) && (p.value.marked <==> MARK <= key.value.value.bytes)
    ensures |KeyText(p.value)| <= MAX_SAFE && Good(p.value.node, o + |EncKey(p.value)|)
    ensures bytes[o..p.end] == EncEntry(p.value) && Count(key.value) == 1
  {
    KeySound(key.value, p.value, o);
    Join(bytes, o, key.end, p.end, EncKey(p.value), Enc(p.value.node));
  }

  lemma KeySound(key: Node, e: Entry, o: nat)
    requires key.value.Str? && Good(key, o)
    requires e.name == Strip(key.value.bytes) && (e.marked <==> MARK <= key.value.bytes)
    ensures key.value.bytes == KeyText(e) && |key.value.bytes| <= MAX_SAFE
    ensures Enc(key) == EncKey(e) && key.end == o + |EncKey(e)| && Count(key) == 1
  {
    StripMark(key.value.bytes);
  }

  lemma {:induction false} EntriesSound(bytes: seq<Byte>, o: nat, nodes: nat, depth: nat, previous: Option<seq<Byte>>)
    returns (p: Parsed<seq<Entry>>)
    requires o <= |bytes| && nodes <= MAX_NODES && ParseEntries(bytes, o, nodes, depth, previous).Some?
    ensures ParseEntries(bytes, o, nodes, depth, previous) == Some(p)
    ensures GoodEntries(p.value, o, previous) && bytes[o..p.end] == EncEntries(p.value) + [END]
    ensures p.nodes == nodes + CountEntries(p.value) <= MAX_NODES && ShallowEntries(p.value, depth + 1)
    decreases |bytes| - o, 2
  {
    p := ParseEntries(bytes, o, nodes, depth, previous).value;
    if bytes[o] == END {
      assert bytes[o..o + 1] == [END];
    } else {
      var head := EntrySound(bytes, o, nodes, depth, previous);
      var tail := EntriesSound(bytes, head.end, head.nodes, depth, Some(head.value.name));
      EntriesCons(head.value, tail.value, o, previous, depth + 1);
      JoinThree(bytes, o, head.end, p.end, EncEntry(head.value), EncEntries(tail.value), END);
    }
  }

  // Every value within the limits is read back from its bytes.

  lemma Inner(bytes: seq<Byte>, o: nat, first: Byte, body: seq<Byte>)
    requires Spells(bytes, o, [first] + body + [END])
    ensures o < |bytes| && bytes[o] == first && Spells(bytes, o + 1, body + [END])
  {
    assert [first] + body + [END] == [first] + (body + [END]);
    Split(bytes, o, [first], body + [END]);
    First(bytes, o, [first]);
  }

  lemma StrParse(bytes: seq<Byte>, o: nat, nodes: nat, depth: nat, b: seq<Byte>)
    requires Spells(bytes, o, EncStr(b)) && |b| <= MAX_SAFE
    requires nodes + 1 <= MAX_NODES && depth <= MAX_DEPTH
    ensures var e := o + |EncStr(b)|; Parse(bytes, o, nodes, depth) == Some(Parsed(Node(o, e, Str(b)), e, nodes + 1))
  {
    StrComplete(bytes, o, b);
    First(bytes, o, EncStr(b));
  }

  lemma {:induction false} ParseComplete(
    bytes: seq<Byte>, o: nat, nodes: nat, depth: nat, n: Node) returns (p: Parsed<Node>)
    requires Good(n, o) && Spells(bytes, o, Enc(n)) && Room(n, nodes, depth)
    ensures Parse(bytes, o, nodes, depth) == Some(p) && p == Parsed(n, n.end, nodes + Count(n))
    decreases n, 1
  {
    if n.value.Num? {
      p := NumComplete(bytes, o, nodes, depth, n);
    } else if n.value.Str? {
      StrParse(bytes, o, nodes, depth, n.value.bytes);
      p := Parsed(n, n.end, nodes + 1);
    } else if n.value.List? {
      p := ListComplete(bytes, o, nodes, depth, n);
    } else {
      p := DictComplete(bytes, o, nodes, depth, n);
    }
  }

  lemma {:induction false} ListComplete(
    bytes: seq<Byte>, o: nat, nodes: nat, depth: nat, n: Node) returns (p: Parsed<Node>)
    requires n.value.List? && Good(n, o) && Spells(bytes, o, Enc(n)) && Room(n, nodes, depth)
    ensures Parse(bytes, o, nodes, depth) == Some(p) && p == Parsed(n, n.end, nodes + Count(n))
    decreases n, 0
  {
    Inner(bytes, o, LIST, EncItems(n.value.items));
    var body := ItemsComplete(bytes, o + 1, nodes + 1, depth, n.value.items);
    ListParse(bytes, o, nodes, depth, body);
    p := Parsed(n, body.end, body.nodes);
  }

  lemma {:induction false} DictComplete(
    bytes: seq<Byte>, o: nat, nodes: nat, depth: nat, n: Node) returns (p: Parsed<Node>)
    requires n.value.Dict? && Good(n, o) && Spells(bytes, o, Enc(n)) && Room(n, nodes, depth)
    ensures Parse(bytes, o, nodes, depth) == Some(p) && p == Parsed(n, n.end, nodes + Count(n))
    decreases n, 0
  {
    Inner(bytes, o, DICTIONARY, EncEntries(n.value.entries));
    var body := EntriesComplete(bytes, o + 1, nodes + 1, depth, n.value.entries, None);
    DictParse(bytes, o, nodes, depth, body);
    p := Parsed(n, body.end, body.nodes);
  }

  lemma NumComplete(bytes: seq<Byte>, o: nat, nodes: nat, depth: nat, n: Node) returns (p: Parsed<Node>)
    requires n.value.Num? && Good(n, o) && Spells(bytes, o, Enc(n)) && Room(n, nodes, depth)
    ensures Parse(bytes, o, nodes, depth) == Some(p) && p == Parsed(n, n.end, nodes + Count(n))
  {
    p := NumParse(bytes, o, nodes, depth, n.value.n, n.value.marked);
  }

  lemma NumParse(bytes: seq<Byte>, o: nat, nodes: nat, depth: nat, k: int, marked: bool) returns (p: Parsed<Node>)
    requires -MAX_SAFE <= k <= MAX_SAFE && |EncNumber(k, marked)| <= MAX_TOKEN
    requires nodes + 1 <= MAX_NODES && depth <= MAX_DEPTH
    requires Spells(bytes, o, [INTEGER] + EncNumber(k, marked) + [END])
    ensures var e := o + |EncNumber(k, marked)| + 2;
      Parse(bytes, o, nodes, depth) == Some(p) && p == Parsed(Node(o, e, Num(k, marked)), e, nodes + 1)
  {
    var body := EncNumber(k, marked);
    Inner(bytes, o, INTEGER, body);
    NumberComplete(bytes, o + 1, END, k, marked, true);
    p := NumStep(bytes, o, nodes, depth, Number(k, marked, o + |body| + 2));
  }

  lemma NumStep(bytes: seq<Byte>, o: nat, nodes: nat, depth: nat, x: Number) returns (p: Parsed<Node>)
    requires o < |bytes| && bytes[o] == INTEGER && nodes + 1 <= MAX_NODES && depth <= MAX_DEPTH
    requires NumberAt(bytes, o + 1, END, true) == Some(x)
    ensures Parse(bytes, o, nodes, depth) == Some(p)
      && p == Parsed(Node(o, x.next, Num(x.n, x.marked)), x.next, nodes + 1)
  {
    p := Parsed(Node(o, x.next, Num(x.n, x.marked)), x.next, nodes + 1);
  }

  lemma ListParse(bytes: seq<Byte>, o: nat, nodes: nat, depth: nat, p: Parsed<seq<Node>>)
    requires o < |bytes| && bytes[o] == LIST && nodes + 1 <= MAX_NODES && depth <= MAX_DEPTH
    requires ParseItems(bytes, o + 1, nodes + 1, depth) == Some(p)
    ensures Parse(bytes, o, nodes, depth) == Some(Parsed(Node(o, p.end, List(p.value)), p.end, p.nodes))
  {
  }

  lemma DictParse(bytes: seq<Byte>, o: nat, nodes: nat, depth: nat, p: Parsed<seq<Entry>>)
    requires o < |bytes| && bytes[o] == DICTIONARY && nodes + 1 <= MAX_NODES && depth <= MAX_DEPTH
    requires ParseEntries(bytes, o + 1, nodes + 1, depth, None) == Some(p)
    ensures Parse(bytes, o, nodes, depth) == Some(Parsed(Node(o, p.end, Dict(p.value)), p.end, p.nodes))
  {
  }

  lemma ItemsFacts(bytes: seq<Byte>, o: nat, items: seq<Node>)
    requires items != [] && GoodItems(items, o) && Spells(bytes, o, EncItems(items) + [END])
    ensures Spells(bytes, o, Enc(items[0])) && o < |bytes| && bytes[o] != END
    ensures items[0].end == o + |Enc(items[0])|
    ensures Spells(bytes, o + |Enc(items[0])|, EncItems(items[1..]) + [END])
    ensures |EncItems(items)| == |Enc(items[0])| + |EncItems(items[1..])|
  {
    SplitLast(bytes, o, Enc(items[0]), EncItems(items[1..]), END);
    First(bytes, o, Enc(items[0]));
  }

  lemma {:induction false} ItemsComplete(bytes: seq<Byte>, o: nat, nodes: nat, depth: nat, items: seq<Node>)
    returns (p: Parsed<seq<Node>>)
    requires GoodItems(items, o) && Spells(bytes, o, EncItems(items) + [END])
    requires nodes + CountItems(items) <= MAX_NODES && ShallowItems(items, depth + 1)
    ensures ParseItems(bytes, o, nodes, depth) == Some(p)
    ensures p == Parsed(items, o + |EncItems(items)| + 1, nodes + CountItems(items))
    decreases items, 1
  {
    if items == [] {
      NoItems(bytes, o, nodes, depth);
      p := Parsed(items, o + 1, nodes);
    } else {
      ItemsFacts(bytes, o, items);
      var head := ParseComplete(bytes, o, nodes, depth + 1, items[0]);
      var tail := ItemsComplete(bytes, head.end, head.nodes, depth, items[1..]);
      ItemsParse(bytes, o, nodes, depth, head, tail);
      assert [items[0]] + items[1..] == items;
      p := Parsed(items, tail.end, tail.nodes);
    }
  }

  lemma NoItems(bytes: seq<Byte>, o: nat, nodes: nat, depth: nat)
    requires Spells(bytes, o, EncItems([]) + [END])
    ensures ParseItems(bytes, o, nodes, depth) == Some(Parsed([], o + 1, nodes))
  {
    assert EncItems([]) + [END] == [END];
    First(bytes, o, [END]);
  }

  lemma ItemsParse(bytes: seq<Byte>, o: nat, nodes: nat, depth: nat, head: Parsed<Node>, tail: Parsed<seq<Node>>)
    requires o < |bytes| && bytes[o] != END && head.end <= |bytes|
    requires Parse(bytes, o, nodes, depth + 1) == Some(head)
    requires ParseItems(bytes, head.end, head.nodes, depth) == Some(tail)
    ensures ParseItems(bytes, o, nodes, depth) == Some(Parsed([head.value] + tail.value, tail.end, tail.nodes))
  {
  }

  lemma First(bytes: seq<Byte>, o: nat, left: seq<Byte>)
    requires |left| > 0 && Spells(bytes, o, left)
    ensures o < |bytes| && bytes[o] == left[0]
  {
    assert left[0] == bytes[o + 0];
  }

  lemma {:induction false} EntryComplete(
    bytes: seq<Byte>, o: nat, nodes: nat, depth: nat, previous: Option<seq<Byte>>, e: Entry)
    returns (p: Parsed<Entry>)
    requires GoodEntry(e, o, previous) && Spells(bytes, o, EncEntry(e))
    requires nodes + 1 + Count(e.node) <= MAX_NODES && depth + 1 <= MAX_DEPTH && Shallow(e.node, depth + 1)
    ensures ParseEntry(bytes, o, nodes, depth, previous) == Some(p)
    ensures p == Parsed(e, e.node.end, nodes + 1 + Count(e.node)) && p.end == o + |EncEntry(e)|
    decreases e, 1
  {
    Split(bytes, o, EncKey(e), Enc(e.node));
    var key := KeyComplete(bytes, o, nodes, depth + 1, e);
    var value := ParseComplete(bytes, key.end, key.nodes, depth + 1, e.node);
    p := EntryParse(bytes, o, nodes, depth, previous, e, key, value);
  }

  lemma KeyComplete(bytes: seq<Byte>, o: nat, nodes: nat, depth: nat, e: Entry) returns (key: Parsed<Node>)
    requires Spells(bytes, o, EncKey(e)) && |KeyText(e)| <= MAX_SAFE && Named(e)
    requires nodes + 1 <= MAX_NODES && depth <= MAX_DEPTH
    ensures Parse(bytes, o, nodes, depth) == Some(key) && key.end == o + |EncKey(e)| && key.nodes == nodes + 1
    ensures key.value.value.Str? && Strip(key.value.value.bytes) == e.name
    ensures MARK <= key.value.value.bytes <==> e.marked
  {
    StrParse(bytes, o, nodes, depth, KeyText(e));
    key := Parsed(Node(o, o + |EncKey(e)|, Str(KeyText(e))), o + |EncKey(e)|, nodes + 1);
    MarkedText(e.name, e.marked);
  }

  lemma EntryParse(
    bytes: seq<Byte>, o: nat, nodes: nat, depth: nat, previous: Option<seq<Byte>>, e: Entry, key: Parsed<Node>,
    value: Parsed<Node>)
    returns (p: Parsed<Entry>)
    requires o <= key.end <= |bytes| && Readable(e.name) && After(previous, e.name)
    requires Parse(bytes, o, nodes, depth + 1) == Some(key) && key.value.value.Str?
    requires Strip(key.value.value.bytes) == e.name && (MARK <= key.value.value.bytes <==> e.marked)
    requires Parse(bytes, key.end, key.nodes, depth + 1) == Some(value) && value.value == e.node
    ensures ParseEntry(bytes, o, nodes, depth, previous) == Some(p) && p == Parsed(e, value.end, value.nodes)
  {
    p := Parsed(e, value.end, value.nodes);
  }

  lemma EntriesFacts(bytes: seq<Byte>, o: nat, entries: seq<Entry>, previous: Option<seq<Byte>>)
    requires entries != [] && GoodEntries(entries, o, previous) && Spells(bytes, o, EncEntries(entries) + [END])
    ensures Spells(bytes, o, EncEntry(entries[0])) && o < |bytes| && bytes[o] != END
    ensures entries[0].node.end == o + |EncEntry(entries[0])|
    ensures Spells(bytes, o + |EncEntry(entries[0])|, EncEntries(entries[1..]) + [END])
    ensures |EncEntries(entries)| == |EncEntry(entries[0])| + |EncEntries(entries[1..])|
  {
    SplitLast(bytes, o, EncEntry(entries[0]), EncEntries(entries[1..]), END);
    First(bytes, o, EncEntry(entries[0]));
    EntryEnd(entries[0], o, previous);
  }

  lemma EntryEnd(e: Entry, o: nat, previous: Option<seq<Byte>>)
    requires GoodEntry(e, o, previous)
    ensures e.node.end == o + |EncEntry(e)|
  {
  }

  lemma {:induction false} EntryHead(
    bytes: seq<Byte>, o: nat, nodes: nat, depth: nat, entries: seq<Entry>, previous: Option<seq<Byte>>)
    returns (p: Parsed<Entry>)
    requires entries != [] && GoodEntries(entries, o, previous) && Spells(bytes, o, EncEntries(entries) + [END])
    requires nodes + CountEntries(entries) <= MAX_NODES && ShallowEntries(entries, depth + 1)
    ensures o < |bytes| && bytes[o] != END && ParseEntry(bytes, o, nodes, depth, previous) == Some(p)
    ensures p.value == entries[0] && p.end == entries[0].node.end && p.nodes == nodes + 1 + Count(entries[0].node)
    ensures p.end <= |bytes| && Spells(bytes, p.end, EncEntries(entries[1..]) + [END])
    ensures p.end - o + |EncEntries(entries[1..])| == |EncEntries(entries)|
    decreases entries, 0
  {
    EntriesFacts(bytes, o, entries, previous);
    p := EntryComplete(bytes, o, nodes, depth, previous, entries[0]);
  }

  lemma NoEntries(bytes: seq<Byte>, o: nat, nodes: nat, depth: nat, previous: Option<seq<Byte>>)
    requires Spells(bytes, o, EncEntries([]) + [END])
    ensures ParseEntries(bytes, o, nodes, depth, previous) == Some(Parsed([], o + 1, nodes))
  {
    assert EncEntries([]) + [END] == [END];
    First(bytes, o, [END]);
  }

  lemma {:induction false} EntriesComplete(
    bytes: seq<Byte>, o: nat, nodes: nat, depth: nat, entries: seq<Entry>, previous: Option<seq<Byte>>)
    returns (p: Parsed<seq<Entry>>)
    requires GoodEntries(entries, o, previous) && Spells(bytes, o, EncEntries(entries) + [END])
    requires nodes + CountEntries(entries) <= MAX_NODES && ShallowEntries(entries, depth + 1)
    ensures ParseEntries(bytes, o, nodes, depth, previous) == Some(p)
    ensures p == Parsed(entries, o + |EncEntries(entries)| + 1, nodes + CountEntries(entries))
    decreases entries, 1
  {
    if entries == [] {
      NoEntries(bytes, o, nodes, depth, previous);
      p := Parsed(entries, o + 1, nodes);
    } else {
      var head := EntryHead(bytes, o, nodes, depth, entries, previous);
      var tail := EntriesComplete(bytes, head.end, head.nodes, depth, entries[1..], Some(head.value.name));
      EntriesParse(bytes, o, nodes, depth, previous, head, tail);
      assert [entries[0]] + entries[1..] == entries;
      p := Parsed(entries, tail.end, tail.nodes);
    }
  }

  lemma EntriesParse(
    bytes: seq<Byte>, o: nat, nodes: nat, depth: nat, previous: Option<seq<Byte>>, head: Parsed<Entry>,
    tail: Parsed<seq<Entry>>)
    requires o < |bytes| && bytes[o] != END && head.end <= |bytes|
    requires ParseEntry(bytes, o, nodes, depth, previous) == Some(head)
    requires ParseEntries(bytes, head.end, head.nodes, depth, Some(head.value.name)) == Some(tail)
    ensures ParseEntries(bytes, o, nodes, depth, previous) ==
      Some(Parsed([head.value] + tail.value, tail.end, tail.nodes))
  {
  }

  /** The whole reader: one value and nothing after it. */
  function Decode(bytes: seq<Byte>): (r: Option<Node>)
  {
    match Parse(bytes, 0, 0, 0)
    case None => None
    case Some(p) => if p.end == |bytes| then Some(p.value) else None
  }

  ghost predicate InLimits(n: Node) { Room(n, 0, 0) }

  /** Decoding is the exact inverse of encoding: bytes are accepted precisely when
      they spell a value within the limits, and that value is the one returned. */
  lemma DecodeIff(bytes: seq<Byte>, n: Node)
    ensures Decode(bytes) == Some(n) <==> Good(n, 0) && InLimits(n) && Enc(n) == bytes
  {
    assert bytes[0..] == bytes;
    if Decode(bytes) == Some(n) {
      var p := ParseSound(bytes, 0, 0, 0);
      assert bytes[0..|bytes|] == bytes;
    }
    if Good(n, 0) && InLimits(n) && Enc(n) == bytes {
      var p := ParseComplete(bytes, 0, 0, 0, n);
    }
  }
}
