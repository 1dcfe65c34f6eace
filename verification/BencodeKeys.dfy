/** The keys of accepted dictionaries: all distinct, and in the order of their UTF-16
    text, which is not always that of their bytes. */
module BencodeKeys {
  import opened Octets
  import opened Bencode
  import Utf8

  lemma {:induction false} LessTransitive(a: seq<nat>, b: seq<nat>, c: seq<nat>)
    requires Utf8.Less(a, b) && Utf8.Less(b, c)
    ensures Utf8.Less(a, c)
  {
    if a != [] && a[0] == b[0] == c[0] {
      LessTransitive(a[1..], b[1..], c[1..]);
    }
  }

  lemma {:induction false} KeysAscend(entries: seq<Entry>, o: nat, previous: Option<seq<Byte>>, i: nat)
    requires GoodEntries(entries, o, previous) && i < |entries|
    ensures Readable(entries[i].name) && After(previous, entries[i].name)
    ensures forall k :: i < k < |entries| ==> After(Some(entries[i].name), entries[k].name)
    decreases |entries|
  {
    var e := entries[0];
    if i > 0 {
      KeysAscend(entries[1..], e.node.end, Some(e.name), i - 1);
      if previous.Some? {
        LessTransitive(KeyUnits(previous.value), KeyUnits(e.name), KeyUnits(entries[i].name));
      }
    } else {
      forall k | i < k < |entries|
        ensures After(Some(e.name), entries[k].name)
      {
        KeysAscend(entries[1..], e.node.end, Some(e.name), k - 1);
      }
    }
  }

  /** No key of an accepted dictionary replaces another. */
  lemma KeysDistinct(entries: seq<Entry>, o: nat, i: nat, k: nat)
    requires GoodEntries(entries, o, None) && i < k < |entries|
    ensures entries[i].name != entries[k].name && KeyUnits(entries[i].name) != KeyUnits(entries[k].name)
  {
    KeysAscend(entries, o, None, i);
    Utf8.NotLess(KeyUnits(entries[i].name));
  }

  ghost predicate Crossed(a: seq<Byte>, b: seq<Byte>)
    requires Readable(a) && Readable(b)
  {
    Utf8.Crossed(Utf8.Points(a).value, Utf8.Points(b).value)
  }

  /** Two keys are in the same order as their bytes exactly when they do not cross. */
  lemma KeyOrderIff(a: seq<Byte>, b: seq<Byte>)
    requires Readable(a) && Readable(b)
    ensures (After(Some(a), b) <==> Utf8.Less(a, b)) <==> !Crossed(a, b)
  {
    Utf8.PointsIff(a, Utf8.Points(a).value);
    Utf8.PointsIff(b, Utf8.Points(b).value);
    Utf8.OrdersAgree(Utf8.Points(a).value, Utf8.Points(b).value);
  }

  ghost predicate ByteOrder(entries: seq<Entry>) {
    forall i, k :: 0 <= i < k < |entries| ==> Utf8.Less(entries[i].name, entries[k].name)
  }

  /** An accepted dictionary has its keys in the order of their bytes, as canonical
      bencoding asks, exactly when no two of them cross. */
  lemma ByteOrderIff(entries: seq<Entry>, o: nat)
    requires GoodEntries(entries, o, None)
    ensures forall i :: 0 <= i < |entries| ==> Readable(entries[i].name)
    ensures ByteOrder(entries) <==>
      forall i, k :: 0 <= i < k < |entries| ==> !Crossed(entries[i].name, entries[k].name)
  {
    forall i | 0 <= i < |entries|
      ensures Readable(entries[i].name)
      ensures forall k :: i < k < |entries| ==> After(Some(entries[i].name), entries[k].name)
    {
      KeysAscend(entries, o, None, i);
    }
    forall i, k | 0 <= i < k < |entries|
      ensures Utf8.Less(entries[i].name, entries[k].name) <==> !Crossed(entries[i].name, entries[k].name)
    {
      KeyOrderIff(entries[i].name, entries[k].name);
    }
  }

  /** Two such keys are accepted in one order only, and it is not that of their bytes:
      a code point from 10000 on and one from E000 to FFFF. */
  lemma CrossedKeys(s: nat, u: nat)
    requires Utf8.Scalar(s) && 0xE000 <= u < 0x10000 <= s
    ensures var high, low := Utf8.Encode(s), Utf8.Encode(u);
      && Readable(high) && Readable(low) && Utf8.Less(low, high)
      && After(Some(high), low) && !After(Some(low), high)
  {
    var high, low := Utf8.Encode(s), Utf8.Encode(u);
    Spelled(high, s);
    Spelled(low, u);
    Utf8.PairOrder(s, u, [], []);
    Utf8.PairOrder(u, s, [], []);
    KeyOrderIff(low, high);
  }

  lemma Spelled(b: seq<Byte>, s: nat)
    requires Utf8.Scalar(s) && b == Utf8.Encode(s)
    ensures Utf8.Points(b) == Some([s]) && KeyUnits(b) == Utf8.Pair(s) + []
  {
    assert Utf8.Bytes([s]) == b + [];
    Utf8.PointsIff(b, [s]);
    assert Utf8.Units([s]) == Utf8.Pair(s) + [];
  }
}
