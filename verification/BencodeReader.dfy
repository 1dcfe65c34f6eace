/** The reader as it runs: one shared cursor and node counter over the bytes. Every
    method is proved to compute the function of module Bencode at the cursor. */
module BencodeReader {
  import opened Octets
  import Bencode

  class Reader {
    const bytes: seq<Byte>
    var offset: nat
    var nodes: nat

    constructor (bytes: seq<Byte>)
      ensures this.bytes == bytes && offset == 0 && nodes == 0
    {
      this.bytes := bytes;
      offset, nodes := 0, 0;
    }

    method Number(end: Byte, negative: bool) returns (r: Option<(int, bool)>)
      requires offset <= |bytes|
      modifies this`offset
      ensures old(offset) <= offset <= |bytes|
      ensures match Bencode.NumberAt(bytes, old(offset), end, negative)
        case None => r.None?
        case Some(x) => r == Some((x.n, x.marked)) && offset == x.next
    {
      var start := offset;
      while offset < |bytes| && bytes[offset] != end
        invariant start <= offset <= |bytes|
        invariant Bencode.NumberAt(bytes, start, end, negative) ==
          Bencode.NumberFrom(bytes, start, offset, end, negative)
      {
        offset := offset + 1;
      }
      if offset == |bytes| || offset - start > Bencode.MAX_TOKEN {
        return None;
      }
      r := Bencode.NumberIn(bytes[start..offset], negative);
      offset := offset + 1;
    }

    method Parse(depth: nat) returns (r: Option<Bencode.Node>)
      requires offset <= |bytes|
      modifies this
      ensures offset <= |bytes|
      ensures match Bencode.Parse(bytes, old(offset), old(nodes), depth)
        case None => r.None?
        case Some(p) => r == Some(p.value) && offset == p.end && nodes == p.nodes
      decreases |bytes| - offset, 1
    {
      nodes := nodes + 1;
      if nodes > Bencode.MAX_NODES || depth > Bencode.MAX_DEPTH || offset >= |bytes| {
        return None;
      }
      var start := offset;
      var first := bytes[offset];
      var value: Option<Bencode.Value>;
      if first == Bencode.INTEGER {
        offset := offset + 1;
        var x := Number(Bencode.END, true);
        value := if x.None? then None else Some(Bencode.Num(x.value.0, x.value.1));
      } else if first == Bencode.DICTIONARY {
        value := Dictionary(depth);
      } else if first == Bencode.LIST {
        value := Items(depth);
      } else if Bencode.IsDigit(first) {
        value := Text();
      } else {
        value := None;
      }
      r := if value.None? then None else Some(Bencode.Node(start, offset, value.value));
    }

    method Text() returns (r: Option<Bencode.Value>)
      requires offset <= |bytes|
      modifies this`offset
      ensures offset <= |bytes|
      ensures match Bencode.StrAt(bytes, old(offset))
        case None => r.None?
        case Some(n) => r == Some(n.value) && offset == n.end
    {
      var length := Number(Bencode.COLON, false);
      if length.None? || length.value.0 < 0 || offset + length.value.0 > |bytes| {
        return None;
      }
      var n := length.value.0;
      r := Some(Bencode.Str(bytes[offset..offset + n]));
      offset := offset + n;
    }

    method Items(depth: nat) returns (r: Option<Bencode.Value>)
      requires offset < |bytes|
      modifies this
      ensures offset <= |bytes|
      ensures match Bencode.ParseItems(bytes, old(offset) + 1, old(nodes), depth)
        case None => r.None?
        case Some(p) => r == Some(Bencode.List(p.value)) && offset == p.end && nodes == p.nodes
      decreases |bytes| - offset, 0
    {
      offset := offset + 1;
      var items: seq<Bencode.Node> := [];
      PrependNone(Bencode.ParseItems(bytes, offset, nodes, depth));
      while offset == |bytes| || bytes[offset] != Bencode.END
        invariant old(offset) < offset <= |bytes|
        invariant Bencode.ParseItems(bytes, old(offset) + 1, old(nodes), depth) ==
          Prepend(items, Bencode.ParseItems(bytes, offset, nodes, depth))
        decreases |bytes| - offset
      {
        var n := Parse(depth + 1);
        if n.None? {
          return None;
        }
        PrependSeq(items, n.value, Bencode.ParseItems(bytes, offset, nodes, depth));
        items := items + [n.value];
      }
      assert items + [] == items;
      offset := offset + 1;
      r := Some(Bencode.List(items));
    }

    method Dictionary(depth: nat) returns (r: Option<Bencode.Value>)
      requires offset < |bytes|
      modifies this
      ensures offset <= |bytes|
      ensures match Bencode.ParseEntries(bytes, old(offset) + 1, old(nodes), depth, None)
        case None => r.None?
        case Some(p) => r == Some(Bencode.Dict(p.value)) && offset == p.end && nodes == p.nodes
      decreases |bytes| - offset, 0
    {
      offset := offset + 1;
      var entries: seq<Bencode.Entry> := [];
      var previous: Option<seq<Byte>> := None;
      PrependNone(Bencode.ParseEntries(bytes, offset, nodes, depth, previous));
      while offset == |bytes| || bytes[offset] != Bencode.END
        invariant old(offset) < offset <= |bytes|
        invariant Bencode.ParseEntries(bytes, old(offset) + 1, old(nodes), depth, None) ==
          Prepend(entries, Bencode.ParseEntries(bytes, offset, nodes, depth, previous))
        decreases |bytes| - offset
      {
        var e := KeyAndValue(depth, previous);
        if e.None? {
          return None;
        }
        PrependSeq(entries, e.value, Bencode.ParseEntries(bytes, offset, nodes, depth, Some(e.value.name)));
        entries := entries + [e.value];
        previous := Some(e.value.name);
      }
      assert entries + [] == entries;
      offset := offset + 1;
      r := Some(Bencode.Dict(entries));
    }

    method KeyAndValue(depth: nat, previous: Option<seq<Byte>>) returns (r: Option<Bencode.Entry>)
      requires offset <= |bytes|
      modifies this
      ensures offset <= |bytes|
      ensures match Bencode.ParseEntry(bytes, old(offset), old(nodes), depth, previous)
        case None => r.None?
        case Some(p) => r == Some(p.value) && offset == p.end && nodes == p.nodes
      decreases |bytes| - offset, 2
    {
      var key := Parse(depth + 1);
      if key.None? || !key.value.value.Str? {
        return None;
      }
      var raw := key.value.value.bytes;
      var name := Bencode.Strip(raw);
      if !Bencode.Readable(name) || !Bencode.After(previous, name) {
        return None;
      }
      var n := Parse(depth + 1);
      r := if n.None? then None else Some(Bencode.Entry(name, Bencode.MARK <= raw, n.value));
    }
  }

  // The elements read so far stand in front of those still to come.
  function Prepend<T>(done: seq<T>, rest: Option<Bencode.Parsed<seq<T>>>): Option<Bencode.Parsed<seq<T>>> {
    match rest
    case None => None
    case Some(p) => Some(Bencode.Parsed(done + p.value, p.end, p.nodes))
  }

  lemma PrependNone<T>(rest: Option<Bencode.Parsed<seq<T>>>)
    ensures Prepend([], rest) == rest
  {
    if rest.Some? {
      assert [] + rest.value.value == rest.value.value;
    }
  }

  lemma PrependSeq<T>(done: seq<T>, x: T, rest: Option<Bencode.Parsed<seq<T>>>)
    ensures Prepend(done + [x], rest) == Prepend(done, Prepend([x], rest))
  {
    if rest.Some? {
      assert done + [x] + rest.value.value == done + ([x] + rest.value.value);
    }
  }

  /** The whole reader decides and decodes exactly as `Bencode.Decode`. */
  method Decode(bytes: seq<Byte>) returns (r: Option<Bencode.Node>)
    ensures r == Bencode.Decode(bytes)
  {
    var reader := new Reader(bytes);
    r := reader.Parse(0);
    if r.Some? && reader.offset != |bytes| {
      r := None;
    }
  }
}
