/** When accepted bytes are the canonical spelling of what they mean, and how a
    value can be moved to another place in a file. */
module BencodeCanonical {
  import opened Octets
  import opened Bencode

  predicate Unmarked(n: Node)
    decreases n, 0
  {
    match n.value
    case Num(_, marked) => !marked
    case Str(_) => true
    case List(items) => UnmarkedItems(items)
    case Dict(entries) => UnmarkedEntries(entries)
  }

  predicate UnmarkedItems(items: seq<Node>)
    decreases items, 1
  {
    items == [] || (Unmarked(items[0]) && UnmarkedItems(items[1..]))
  }

  predicate UnmarkedEntries(entries: seq<Entry>)
    decreases entries, 1
  {
    entries == [] || (!entries[0].marked && Unmarked(entries[0].node) && UnmarkedEntries(entries[1..]))
  }

  // No key still begins with a mark once one has been dropped.

  predicate Single(n: Node)
    decreases n, 0
  {
    match n.value
    case Num(_, _) => true
    case Str(_) => true
    case List(items) => SingleItems(items)
    case Dict(entries) => SingleEntries(entries)
  }

  predicate SingleItems(items: seq<Node>)
    decreases items, 1
  {
    items == [] || (Single(items[0]) && SingleItems(items[1..]))
  }

  predicate SingleEntries(entries: seq<Entry>)
    decreases entries, 1
  {
    entries == [] || (!(MARK <= entries[0].name) && Single(entries[0].node) && SingleEntries(entries[1..]))
  }

  /** The same value at another position, with or without its marks. */
  function Place(n: Node, o: nat, erase: bool): (r: Node)
    ensures r.start == o && r.end == o + |Enc(r)|
    decreases n, 0
  {
    match n.value
    case Num(k, marked) =>
      var m := marked && !erase;
      Node(o, o + |EncNumber(k, m)| + 2, Num(k, m))
    case Str(b) => Node(o, o + |EncStr(b)|, n.value)
    case List(items) =>
      var r := PlaceItems(items, o + 1, erase);
      Node(o, o + |EncItems(r)| + 2, List(r))
    case Dict(entries) =>
      var r := PlaceEntries(entries, o + 1, erase);
      Node(o, o + |EncEntries(r)| + 2, Dict(r))
  }

  function PlaceItems(items: seq<Node>, o: nat, erase: bool): seq<Node>
    decreases items, 1
  {
    if items == [] then []
    else
      var head := Place(items[0], o, erase);
      [head] + PlaceItems(items[1..], head.end, erase)
  }

  function PlaceEntry(e: Entry, o: nat, erase: bool): Entry
    decreases e, 1
  {
    var m := e.marked && !erase;
    Entry(e.name, m, Place(e.node, o + |EncStr(Marks(m) + e.name)|, erase))
  }

  function PlaceEntries(entries: seq<Entry>, o: nat, erase: bool): seq<Entry>
    decreases entries, 1
  {
    if entries == [] then []
    else
      var head := PlaceEntry(entries[0], o, erase);
      [head] + PlaceEntries(entries[1..], head.node.end, erase)
  }

  // What placing keeps.

  lemma {:induction false} PlaceGood(n: Node, from: nat, o: nat, erase: bool)
    requires Good(n, from)
    ensures Good(Place(n, o, erase), o) <==> !erase || Single(n)
    ensures Count(Place(n, o, erase)) == Count(n)
    decreases n, 0
  {
    match n.value
    case Num(_, _) =>
    case Str(_) =>
    case List(items) => ItemsGood(items, from + 1, o + 1, erase);
    case Dict(entries) => EntriesGood(entries, from + 1, o + 1, erase, None);
  }

  lemma {:induction false} ItemsGood(items: seq<Node>, from: nat, o: nat, erase: bool)
    requires GoodItems(items, from)
    ensures GoodItems(PlaceItems(items, o, erase), o) <==> !erase || SingleItems(items)
    ensures CountItems(PlaceItems(items, o, erase)) == CountItems(items)
    decreases items, 1
  {
    if items != [] {
      var head := Place(items[0], o, erase);
      var tail := PlaceItems(items[1..], head.end, erase);
      PlaceGood(items[0], from, o, erase);
      ItemsGood(items[1..], items[0].end, head.end, erase);
      ItemsCons(head, tail, o, 0);
    }
  }

  lemma {:induction false} EntriesGood(entries: seq<Entry>, from: nat, o: nat, erase: bool, previous: Option<seq<Byte>>)
    requires GoodEntries(entries, from, previous)
    ensures GoodEntries(PlaceEntries(entries, o, erase), o, previous) <==> !erase || SingleEntries(entries)
    ensures CountEntries(PlaceEntries(entries, o, erase)) == CountEntries(entries)
    decreases entries, 1
  {
    if entries != [] {
      var e := entries[0];
      var head := PlaceEntry(e, o, erase);
      var tail := PlaceEntries(entries[1..], head.node.end, erase);
      EntryGood(e, from, o, erase, previous);
      EntriesGood(entries[1..], e.node.end, head.node.end, erase, Some(e.name));
      EntriesCons(head, tail, o, previous, 0);
    }
  }

  lemma {:induction false} EntryGood(e: Entry, from: nat, o: nat, erase: bool, previous: Option<seq<Byte>>)
    requires GoodEntry(e, from, previous)
    ensures GoodEntry(PlaceEntry(e, o, erase), o, previous) <==>
      !erase || (!(MARK <= e.name) && Single(e.node))
    ensures Count(PlaceEntry(e, o, erase).node) == Count(e.node)
    decreases e, 1
  {
    PlaceGood(e.node, from + |EncKey(e)|, o + |EncKey(PlaceEntry(e, o, erase))|, erase);
  }

  lemma {:induction false} PlaceShallow(n: Node, o: nat, erase: bool, depth: nat)
    requires Shallow(n, depth)
    ensures Shallow(Place(n, o, erase), depth)
    decreases n, 0
  {
    match n.value
    case Num(_, _) =>
    case Str(_) =>
    case List(items) => ItemsShallow(items, o + 1, erase, depth + 1);
    case Dict(entries) => EntriesShallow(entries, o + 1, erase, depth + 1);
  }

  lemma {:induction false} ItemsShallow(items: seq<Node>, o: nat, erase: bool, depth: nat)
    requires ShallowItems(items, depth)
    ensures ShallowItems(PlaceItems(items, o, erase), depth)
    decreases items, 1
  {
    if items != [] {
      var head := Place(items[0], o, erase);
      PlaceShallow(items[0], o, erase, depth);
      ItemsShallow(items[1..], head.end, erase, depth);
      ItemsCons(head, PlaceItems(items[1..], head.end, erase), o, depth);
    }
  }

  lemma {:induction false} EntriesShallow(entries: seq<Entry>, o: nat, erase: bool, depth: nat)
    requires ShallowEntries(entries, depth)
    ensures ShallowEntries(PlaceEntries(entries, o, erase), depth)
    decreases entries, 1
  {
    if entries != [] {
      var head := PlaceEntry(entries[0], o, erase);
      PlaceShallow(entries[0].node, o + |EncKey(head)|, erase, depth);
      EntriesShallow(entries[1..], head.node.end, erase, depth);
      EntriesCons(head, PlaceEntries(entries[1..], head.node.end, erase), o, None, depth);
    }
  }

  // Placing keeps the bytes unless it erases a mark, and erasing leaves none.

  lemma {:induction false} PlaceBytes(n: Node, o: nat, erase: bool)
    ensures !erase || Unmarked(n) ==> Enc(Place(n, o, erase)) == Enc(n)
    ensures erase ==> Unmarked(Place(n, o, erase))
    decreases n, 0
  {
    match n.value
    case Num(_, _) =>
    case Str(_) =>
    case List(items) => ItemsBytes(items, o + 1, erase);
    case Dict(entries) => EntriesBytes(entries, o + 1, erase);
  }

  lemma {:induction false} ItemsBytes(items: seq<Node>, o: nat, erase: bool)
    ensures !erase || UnmarkedItems(items) ==> EncItems(PlaceItems(items, o, erase)) == EncItems(items)
    ensures erase ==> UnmarkedItems(PlaceItems(items, o, erase))
    decreases items, 1
  {
    if items != [] {
      var head := Place(items[0], o, erase);
      var tail := PlaceItems(items[1..], head.end, erase);
      PlaceBytes(items[0], o, erase);
      ItemsBytes(items[1..], head.end, erase);
      ItemsCons(head, tail, o, 0);
      assert ([head] + tail)[1..] == tail;
    }
  }

  lemma {:induction false} EntriesBytes(entries: seq<Entry>, o: nat, erase: bool)
    ensures !erase || UnmarkedEntries(entries) ==> EncEntries(PlaceEntries(entries, o, erase)) == EncEntries(entries)
    ensures erase ==> UnmarkedEntries(PlaceEntries(entries, o, erase))
    decreases entries, 1
  {
    if entries != [] {
      var head := PlaceEntry(entries[0], o, erase);
      var tail := PlaceEntries(entries[1..], head.node.end, erase);
      PlaceBytes(entries[0].node, o + |EncKey(head)|, erase);
      EntriesBytes(entries[1..], head.node.end, erase);
      EntriesCons(head, tail, o, None, 0);
      assert ([head] + tail)[1..] == tail;
    }
  }

  // Erasing a mark makes the bytes fewer.

  lemma {:induction false} DecGrows(a: nat, b: nat)
    requires a <= b
    ensures |Dec(a)| <= |Dec(b)|
  {
    if b >= 10 && a >= 10 {
      DecGrows(a / 10, b / 10);
    }
  }

  lemma {:induction false} Shrinks(n: Node, o: nat)
    ensures |Enc(Place(n, o, true))| <= |Enc(n)|
    ensures !Unmarked(n) ==> |Enc(Place(n, o, true))| < |Enc(n)|
    decreases n, 0
  {
    match n.value
    case Num(_, _) =>
    case Str(_) =>
    case List(items) => ItemsShrink(items, o + 1);
    case Dict(entries) => EntriesShrink(entries, o + 1);
  }

  lemma {:induction false} ItemsShrink(items: seq<Node>, o: nat)
    ensures |EncItems(PlaceItems(items, o, true))| <= |EncItems(items)|
    ensures !UnmarkedItems(items) ==> |EncItems(PlaceItems(items, o, true))| < |EncItems(items)|
    decreases items, 1
  {
    if items != [] {
      var head := Place(items[0], o, true);
      Shrinks(items[0], o);
      ItemsShrink(items[1..], head.end);
      ItemsCons(head, PlaceItems(items[1..], head.end, true), o, 0);
    }
  }

  lemma {:induction false} EntriesShrink(entries: seq<Entry>, o: nat)
    ensures |EncEntries(PlaceEntries(entries, o, true))| <= |EncEntries(entries)|
    ensures !UnmarkedEntries(entries) ==> |EncEntries(PlaceEntries(entries, o, true))| < |EncEntries(entries)|
    decreases entries, 1
  {
    if entries != [] {
      var e := entries[0];
      var head := PlaceEntry(e, o, true);
      EntryShrinks(e, o);
      EntriesShrink(entries[1..], head.node.end);
      EntriesCons(head, PlaceEntries(entries[1..], head.node.end, true), o, None, 0);
    }
  }

  lemma {:induction false} EntryShrinks(e: Entry, o: nat)
    ensures |EncEntry(PlaceEntry(e, o, true))| <= |EncEntry(e)|
    ensures e.marked || !Unmarked(e.node) ==> |EncEntry(PlaceEntry(e, o, true))| < |EncEntry(e)|
    decreases e, 1
  {
    DecGrows(|e.name|, |KeyText(e)|);
    Shrinks(e.node, o + |EncKey(PlaceEntry(e, o, true))|);
  }

  /** The canonical spelling of a value: what an encoder that sees only the value
      writes, with nothing standing for a dropped mark. */
  function Spelling(n: Node): seq<Byte> { Enc(Place(n, 0, true)) }

  /** Accepted bytes spell their value canonically exactly when no token in them
      carried a mark, and the spelling means the value again exactly when no key
      carried two. */
  lemma CanonicalIff(bytes: seq<Byte>, n: Node)
    requires Decode(bytes) == Some(n)
    ensures Spelling(n) == bytes <==> Unmarked(n)
    ensures Decode(Spelling(n)) == Some(Place(n, 0, true)) <==> Single(n)
  {
    var plain := Place(n, 0, true);
    DecodeIff(bytes, n);
    Shrinks(n, 0);
    PlaceBytes(n, 0, true);
    PlaceGood(n, 0, 0, true);
    PlaceShallow(n, 0, true, 0);
    DecodeIff(Spelling(n), plain);
  }

  /** A number may be accepted from bytes that do not spell it: a mark in front of
      the digits is dropped. */
  lemma MarkedInteger()
    ensures var bytes := [105, 0xEF, 0xBB, 0xBF, 53, 101];
      && Decode(bytes) == Some(Node(0, 6, Num(5, true)))
      && Spelling(Node(0, 6, Num(5, true))) == [105, 53, 101]
  {
    var n := Node(0, 6, Num(5, true));
    assert DecInt(5) == [53];
    assert EncNumber(5, true) == [0xEF, 0xBB, 0xBF, 53];
    assert EncNumber(5, false) == [53];
    assert Enc(n) == [105, 0xEF, 0xBB, 0xBF, 53, 101];
    DecodeIff(Enc(n), n);
  }

  // Bytes with no mark anywhere are always canonical.

  ghost predicate HasMark(s: seq<Byte>) {
    exists i :: MarkAt(s, i)
  }

  ghost predicate MarkAt(s: seq<Byte>, i: int) { 0 <= i <= |s| - 3 && s[i..i + 3] == MARK }

  lemma MarkWithin(a: seq<Byte>, s: seq<Byte>, b: seq<Byte>)
    requires HasMark(s)
    ensures HasMark(a + s + b) && HasMark(a + s) && HasMark(s + b)
  {
    var i :| MarkAt(s, i);
    var k := |a| + i;
    assert MarkAt(a + s + b, k) && MarkAt(a + s, k) && MarkAt(s + b, i);
  }

  lemma MarkFirst(t: seq<Byte>)
    ensures HasMark(MARK + t)
  {
    assert MarkAt(MARK + t, 0);
  }

  lemma {:induction false} MarkedBytes(n: Node)
    requires !Unmarked(n)
    ensures HasMark(Enc(n))
    decreases n, 0
  {
    match n.value
    case Num(k, _) =>
      MarkFirst(DecInt(k));
      MarkWithin([INTEGER], EncNumber(k, true), [END]);
    case Str(_) =>
    case List(items) =>
      MarkedItems(items);
      MarkWithin([LIST], EncItems(items), [END]);
    case Dict(entries) =>
      MarkedEntries(entries);
      MarkWithin([DICTIONARY], EncEntries(entries), [END]);
  }

  lemma {:induction false} MarkedItems(items: seq<Node>)
    requires !UnmarkedItems(items)
    ensures HasMark(EncItems(items))
    decreases items, 1
  {
    var head := Enc(items[0]);
    var tail := EncItems(items[1..]);
    if !Unmarked(items[0]) {
      MarkedBytes(items[0]);
      MarkWithin([], head, tail);
    } else {
      MarkedItems(items[1..]);
      MarkWithin(head, tail, []);
    }
  }

  lemma {:induction false} MarkedEntries(entries: seq<Entry>)
    requires !UnmarkedEntries(entries)
    ensures HasMark(EncEntries(entries))
    decreases entries, 1
  {
    var e := entries[0];
    var tail := EncEntries(entries[1..]);
    if e.marked {
      MarkFirst(e.name);
      MarkWithin(Dec(|KeyText(e)|) + [COLON], KeyText(e), []);
      MarkWithin([], EncKey(e), Enc(e.node));
      MarkWithin([], EncEntry(e), tail);
    } else if !Unmarked(e.node) {
      MarkedBytes(e.node);
      MarkWithin(EncKey(e), Enc(e.node), []);
      MarkWithin([], EncEntry(e), tail);
    } else {
      MarkedEntries(entries[1..]);
      MarkWithin(EncEntry(e), tail, []);
    }
  }

  /** Bytes in which EF BB BF does not occur re-encode to themselves. */
  lemma NoMarkCanonical(bytes: seq<Byte>, n: Node)
    requires Decode(bytes) == Some(n) && !HasMark(bytes)
    ensures Spelling(n) == bytes
  {
    DecodeIff(bytes, n);
    if !Unmarked(n) {
      MarkedBytes(n);
    }
    CanonicalIff(bytes, n);
  }
}
