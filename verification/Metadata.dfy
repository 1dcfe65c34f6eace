/** Checking a torrent's metadata against a publication's info hash, and the
    metadata handed on: the exact hashed dictionary and nothing else. */
module Metadata {
  import opened Octets
  import opened Bencode
  import Utf8
  import BencodeCanonical

  datatype Component = Descriptor | Disk | State | Profile

  datatype Accepted = Accepted(infoHash: seq<Byte>, kind: Component, size: nat, pieces: nat, metadata: seq<Byte>)

  const PIECE := 262144

  function FileName(kind: Component): seq<Byte> {
    match kind
    case Descriptor => Text("publication.json")
    case Disk => Text("disk.my98")
    case State => Text("state.my98state")
    case Profile => Text("profile.json")
  }

  function Limit(kind: Component): nat {
    match kind
    case Descriptor => 4096
    case Disk => 0x100_0000_0000 + 0x4000_0000 + 198
    case State => 0x4000_0000 + 65536
    case Profile => 65536
  }

  function KindOf(name: seq<Byte>): Option<Component> {
    if name == FileName(Descriptor) then Some(Descriptor)
    else if name == FileName(Disk) then Some(Disk)
    else if name == FileName(State) then Some(State)
    else if name == FileName(Profile) then Some(Profile)
    else None
  }

  // The first entry with a given name.
  function Lookup(entries: seq<Entry>, name: seq<Byte>): (r: Option<Node>)
    ensures r.Some? ==> exists i :: 0 <= i < |entries| && entries[i].name == name && entries[i].node == r.value
  {
    if entries == [] then None
    else if entries[0].name == name then Some(entries[0].node)
    else Lookup(entries[1..], name)
  }

  /** What the info dictionary says, when it describes one component file. */
  function Describe(info: Value, kind: Option<Component>): Option<(Component, nat, nat)> {
    if !info.Dict? || |info.entries| != 4 then None
    else
      Fields(Lookup(info.entries, Text("name")), Lookup(info.entries, Text("length")),
             Lookup(info.entries, Text("piece length")), Lookup(info.entries, Text("pieces")), kind)
  }

  function Fields(
    name: Option<Node>, length: Option<Node>, piece: Option<Node>, pieces: Option<Node>, kind: Option<Component>):
    Option<(Component, nat, nat)>
  {
    if name.None? || length.None? || piece.None? || pieces.None? then None
    else if !name.value.value.Str? then None
    else
      var actual := KindOf(Strip(name.value.value.bytes));
      if actual.None? || (kind.Some? && kind != actual) then None
      else if !length.value.value.Num? || length.value.value.n < 1 || length.value.value.n > Limit(actual.value)
      then None
      else if !piece.value.value.Num? || piece.value.value.n != PIECE then None
      else
        var size := length.value.value.n;
        var count := (size + PIECE - 1) / PIECE;
        if !pieces.value.value.Str? || |pieces.value.value.bytes| != 20 * count then None
        else Some((actual.value, size, count))
  }

  function Rebuilt(raw: seq<Byte>): seq<Byte> { Text("d4:info") + raw + Text("e") }

  // The value of the key `info`, when the file is one dictionary that has it.
  function InfoOf(bytes: seq<Byte>): Option<Node> {
    match Decode(bytes)
    case None => None
    case Some(root) => if root.value.Dict? then Lookup(root.value.entries, Text("info")) else None
  }

  function Accept(
      raw: seq<Byte>, info: Value, expected: seq<Byte>, kind: Option<Component>,
      digest: seq<Byte> -> seq<Byte>): Option<Accepted> {
    match Describe(info, kind)
    case None => None
    case Some((actual, size, count)) =>
      if digest(raw) == expected then Some(Accepted(expected, actual, size, count, Rebuilt(raw))) else None
  }

  function SizeLimit(kind: Option<Component>): nat { if kind == Some(Descriptor) then 16384 else 96 * 1024 * 1024 }

  /** The verification, for a 20-byte expected hash. `digest` stands for SHA-1. */
  function Verify(
      bytes: seq<Byte>, expected: seq<Byte>, kind: Option<Component>,
      digest: seq<Byte> -> seq<Byte>): Option<Accepted> {
    if |expected| != 20 || |bytes| == 0 || |bytes| > SizeLimit(kind) then None
    else
      match InfoOf(bytes)
      case None => None
      case Some(info) => Accept(Slice(bytes, info), info.value, expected, kind, digest)
  }

  function Slice(bytes: seq<Byte>, n: Node): seq<Byte> {
    if n.start <= n.end <= |bytes| then bytes[n.start..n.end] else []
  }

  // What an accepted file says about the bytes of one of its entries.

  ghost predicate Held(n: Node, bytes: seq<Byte>, from: nat, to: nat, nodes: nat, depth: nat) {
    && from <= n.start && n.end <= to <= |bytes|
    && Good(n, n.start) && Spells(bytes, n.start, Enc(n))
    && Count(n) <= nodes && Shallow(n, depth)
  }

  lemma {:induction false} LookupHeld(
    bytes: seq<Byte>, entries: seq<Entry>, o: nat, previous: Option<seq<Byte>>, name: seq<Byte>, depth: nat)
    requires GoodEntries(entries, o, previous) && ShallowEntries(entries, depth)
    requires Spells(bytes, o, EncEntries(entries) + [END]) && Lookup(entries, name).Some?
    ensures Held(Lookup(entries, name).value, bytes, o + 2 + |name|, o + |EncEntries(entries)|,
      CountEntries(entries) - 1, depth)
    decreases entries
  {
    EntriesFacts(bytes, o, entries, previous);
    var e := entries[0];
    if e.name == name {
      EntryHeld(bytes, o, previous, e, depth);
    } else {
      LookupHeld(bytes, entries[1..], e.node.end, Some(e.name), name, depth);
    }
  }

  lemma EntryHeld(bytes: seq<Byte>, o: nat, previous: Option<seq<Byte>>, e: Entry, depth: nat)
    requires GoodEntry(e, o, previous) && Spells(bytes, o, EncEntry(e)) && Shallow(e.node, depth)
    ensures Held(e.node, bytes, o + 2 + |e.name|, o + |EncEntry(e)|, Count(e.node), depth)
  {
    Split(bytes, o, EncKey(e), Enc(e.node));
  }

  lemma InfoHeld(bytes: seq<Byte>) returns (n: Node)
    requires InfoOf(bytes).Some?
    ensures InfoOf(bytes) == Some(n)
    ensures Held(n, bytes, 7, |bytes| - 1, MAX_NODES - 2, 1) && Slice(bytes, n) == Enc(n)
  {
    var root := Decode(bytes).value;
    DecodeIff(bytes, root);
    var entries := root.value.entries;
    Inner(bytes, 0, DICTIONARY, EncEntries(entries));
    LookupHeld(bytes, entries, 1, None, Text("info"), 1);
    n := Lookup(entries, Text("info")).value;
  }

  // The rebuilt file holds the same dictionary, moved to position 7.

  function Moved(info: Node): Node { BencodeCanonical.Place(info, 7, false) }

  function RebuiltRoot(info: Node): Node {
    Node(0, 8 + |Enc(info)|, Dict([Entry(Text("info"), false, Moved(info))]))
  }

  lemma RebuiltEncoding(e: Entry)
    requires e.name == Text("info") && !e.marked
    ensures EncKey(e) == [52, 58] + e.name
    ensures Rebuilt(Enc(e.node)) == [DICTIONARY] + EncEntries([e]) + [END]
  {
    InfoText();
    InfoKey(e);
    EntriesCons(e, [], 1, None, 1);
    assert [e] + [] == [e];
    Reassociate(Text("info"), Enc(e.node));
  }

  lemma InfoKey(e: Entry)
    requires |e.name| == 4 && !e.marked
    ensures EncKey(e) == [52, 58] + e.name
  {
    assert KeyText(e) == e.name;
    assert Dec(4) == [52];
  }

  lemma InfoText()
    ensures Text("d4:info") == [DICTIONARY, 52, 58] + Text("info") && Text("e") == [END]
  {
  }

  lemma Reassociate(key: seq<Byte>, value: seq<Byte>)
    ensures [DICTIONARY, 52, 58] + key + value + [END] == [DICTIONARY] + ([52, 58] + key + value + []) + [END]
  {
  }

  lemma RebuiltDecodes(info: Node)
    requires Good(info, info.start) && Count(info) <= MAX_NODES - 2 && Shallow(info, 1)
    ensures Decode(Rebuilt(Enc(info))) == Some(RebuiltRoot(info))
    ensures InfoOf(Rebuilt(Enc(info))) == Some(Moved(info))
    ensures Slice(Rebuilt(Enc(info)), Moved(info)) == Enc(info)
  {
    BencodeCanonical.PlaceGood(info, info.start, 7, false);
    BencodeCanonical.PlaceShallow(info, 7, false, 1);
    BencodeCanonical.PlaceBytes(info, 7, false);
    RebuiltGood(Moved(info));
    DecodeIff(Rebuilt(Enc(info)), RebuiltRoot(info));
  }

  lemma RebuiltGood(n: Node)
    requires Good(n, 7) && Count(n) <= MAX_NODES - 2 && Shallow(n, 1)
    ensures var root := Node(0, 8 + |Enc(n)|, Dict([Entry(Text("info"), false, n)]));
      Good(root, 0) && InLimits(root) && Enc(root) == Rebuilt(Enc(n))
  {
    var e := Entry(Text("info"), false, n);
    Utf8.Ascii(e.name);
    RebuiltEncoding(e);
    EntriesCons(e, [], 1, None, 1);
    assert [e] + [] == [e];
  }

  lemma {:induction false} LookupPlaced(entries: seq<Entry>, o: nat, name: seq<Byte>)
    ensures Alike(Lookup(BencodeCanonical.PlaceEntries(entries, o, false), name), Lookup(entries, name))
    decreases entries
  {
    if entries != [] {
      var head := BencodeCanonical.PlaceEntry(entries[0], o, false);
      var tail := BencodeCanonical.PlaceEntries(entries[1..], head.node.end, false);
      LookupPlaced(entries[1..], head.node.end, name);
      PlaceAlike(entries[0].node, head.node.start);
      assert ([head] + tail)[1..] == tail;
    }
  }

  lemma PlaceAlike(n: Node, o: nat)
    ensures Alike(Some(BencodeCanonical.Place(n, o, false)), Some(n))
  {
  }

  // The same number or string, or neither.
  ghost predicate Alike(a: Option<Node>, b: Option<Node>) {
    && (a.Some? <==> b.Some?)
    && (a.Some? ==>
      var x, y := a.value.value, b.value.value;
      && (x.Num? <==> y.Num?) && (x.Num? ==> x.n == y.n)
      && (x.Str? <==> y.Str?) && (x.Str? ==> x.bytes == y.bytes))
  }

  lemma {:induction false} PlacedSize(entries: seq<Entry>, o: nat)
    ensures |BencodeCanonical.PlaceEntries(entries, o, false)| == |entries|
    decreases entries
  {
    if entries != [] {
      PlacedSize(entries[1..], BencodeCanonical.PlaceEntry(entries[0], o, false).node.end);
    }
  }

  lemma DescribeMoved(info: Node, kind: Option<Component>)
    ensures Describe(Moved(info).value, kind) == Describe(info.value, kind)
  {
    PlaceAlike(info, 7);
    if info.value.Dict? {
      var entries := info.value.entries;
      var moved := BencodeCanonical.PlaceEntries(entries, 8, false);
      PlacedSize(entries, 8);
      LookupPlaced(entries, 8, Text("name"));
      LookupPlaced(entries, 8, Text("length"));
      LookupPlaced(entries, 8, Text("piece length"));
      LookupPlaced(entries, 8, Text("pieces"));
      assert Moved(info).value == Dict(moved);
      FieldsAlike(moved, entries, kind);
    }
  }

  lemma FieldsAlike(a: seq<Entry>, b: seq<Entry>, kind: Option<Component>)
    requires |a| == |b|
    requires Alike(Lookup(a, Text("name")), Lookup(b, Text("name")))
      && Alike(Lookup(a, Text("length")), Lookup(b, Text("length")))
    requires Alike(Lookup(a, Text("piece length")), Lookup(b, Text("piece length")))
    requires Alike(Lookup(a, Text("pieces")), Lookup(b, Text("pieces")))
    ensures Describe(Dict(a), kind) == Describe(Dict(b), kind)
  {
    SameFields(
      Lookup(a, Text("name")), Lookup(a, Text("length")), Lookup(a, Text("piece length")), Lookup(a, Text("pieces")),
      Lookup(b, Text("name")), Lookup(b, Text("length")), Lookup(b, Text("piece length")), Lookup(b, Text("pieces")),
      kind);
  }

  lemma SameFields(
    a1: Option<Node>, a2: Option<Node>, a3: Option<Node>, a4: Option<Node>,
    b1: Option<Node>, b2: Option<Node>, b3: Option<Node>, b4: Option<Node>, kind: Option<Component>)
    requires Alike(a1, b1) && Alike(a2, b2) && Alike(a3, b3) && Alike(a4, b4)
    ensures Fields(a1, a2, a3, a4, kind) == Fields(b1, b2, b3, b4, kind)
  {
  }

  /** What verification hands on verifies again to itself, under any digest: it is
      one dictionary with the single key `info`, whose bytes are exactly the bytes of
      the original's info value, and those bytes have the expected hash. */
  lemma VerifyFixed(bytes: seq<Byte>, expected: seq<Byte>, kind: Option<Component>, digest: seq<Byte> -> seq<Byte>)
    returns (info: Node, raw: seq<Byte>)
    ensures Verify(bytes, expected, kind, digest).Some? ==> Fixed(bytes, expected, kind, digest, info, raw)
  {
    info, raw := Node(0, 0, Str([])), [];
    if Verify(bytes, expected, kind, digest).Some? {
      info := InfoHeld(bytes);
      raw := Enc(info);
      RebuiltDecodes(info);
      RebuiltVerifies(info, expected, kind, digest);
    }
  }

  lemma RebuiltVerifies(
    info: Node, expected: seq<Byte>, kind: Option<Component>, digest: seq<Byte> -> seq<Byte>)
    requires InfoOf(Rebuilt(Enc(info))) == Some(Moved(info))
    requires Slice(Rebuilt(Enc(info)), Moved(info)) == Enc(info)
    requires |expected| == 20 && 0 < |Rebuilt(Enc(info))| <= SizeLimit(kind)
    ensures Verify(Rebuilt(Enc(info)), expected, kind, digest) == Accept(Enc(info), info.value, expected, kind, digest)
  {
    DescribeMoved(info, kind);
  }

  ghost predicate Fixed(
    bytes: seq<Byte>, expected: seq<Byte>, kind: Option<Component>, digest: seq<Byte> -> seq<Byte>, info: Node,
    raw: seq<Byte>)
  {
    && info.start <= info.end <= |bytes| && raw == bytes[info.start..info.end] && digest(raw) == expected
    && InfoOf(bytes) == Some(info) && Decode(Rebuilt(raw)) == Some(RebuiltRoot(info)) && |Rebuilt(raw)| <= |bytes|
    && var a := Verify(bytes, expected, kind, digest);
       a.Some? && a.value.metadata == Rebuilt(raw) && Verify(Rebuilt(raw), expected, kind, digest) == a
  }

  /** With a digest that never collides, the expected hash alone fixes everything
      that is handed on: trackers, locations and any other key outside the info
      dictionary make no difference, nor does the kind the caller asked for. */
  lemma HashDecides(
    a: seq<Byte>, b: seq<Byte>, expected: seq<Byte>, first: Option<Component>, second: Option<Component>,
    digest: seq<Byte> -> seq<Byte>)
    requires forall x, y :: digest(x) == digest(y) ==> x == y
    ensures Verify(a, expected, first, digest).Some? && Verify(b, expected, second, digest).Some? ==>
      Verify(a, expected, first, digest) == Verify(b, expected, second, digest)
  {
    var _, x := VerifyFixed(a, expected, first, digest);
    var _, y := VerifyFixed(b, expected, second, digest);
    KindFree(Rebuilt(x), expected, first, second, digest);
  }

  lemma KindFree(
    bytes: seq<Byte>, expected: seq<Byte>, first: Option<Component>, second: Option<Component>,
    digest: seq<Byte> -> seq<Byte>)
    ensures Verify(bytes, expected, first, digest).Some? && Verify(bytes, expected, second, digest).Some? ==>
      Verify(bytes, expected, first, digest) == Verify(bytes, expected, second, digest)
  {
    if InfoOf(bytes).Some? {
      var info := InfoOf(bytes).value.value;
      assert Describe(info, first).Some? && Describe(info, second).Some? ==>
        Describe(info, first) == Describe(info, second);
    }
  }
}
