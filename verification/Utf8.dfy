/** The text decoder behind dictionary keys: UTF-8 of RFC 3629, refused when it is not
    well formed, into the UTF-16 text by which the reader orders the keys. */
module Utf8 {
  import opened Octets

  // A code point that is no surrogate.
  predicate Scalar(s: nat) { s <= 0x10FFFF && !(0xD800 <= s <= 0xDFFF) }

  predicate Scalars(t: seq<nat>) { forall i :: 0 <= i < |t| ==> Scalar(t[i]) }

  predicate Tail(b: Byte) { 0x80 <= b <= 0xBF }

  // The last six bits of a number, and what is before them.
  ghost function Cut(s: nat): (p: (nat, nat))
    ensures p.1 < 64 && s == p.0 * 64 + p.1
  {
    assert s == s / 64 * 64 + s % 64;
    var q: nat, r: nat :| r < 64 && s == q * 64 + r;
    (q, r)
  }

  // Section 3 of RFC 3629.
  ghost function Encode(s: nat): (b: seq<Byte>)
    requires Scalar(s)
    ensures 0 < |b| <= 4
  {
    if s < 0x80 then [s]
    else
      var a := Cut(s);
      if s < 0x800 then [0xC0 + a.0, 0x80 + a.1]
      else
        var b := Cut(a.0);
        if s < 0x10000 then [0xE0 + b.0, 0x80 + b.1, 0x80 + a.1]
        else
          var c := Cut(b.0);
          [0xF0 + c.0, 0x80 + c.1, 0x80 + b.1, 0x80 + a.1]
  }

  // The second byte of a sequence is narrower after some first bytes: no overlong
  // form, no surrogate, nothing above 10FFFF.
  predicate Second(first: Byte, b: Byte) {
    && Tail(b)
    && (first == 0xE0 ==> 0xA0 <= b) && (first == 0xED ==> b <= 0x9F)
    && (first == 0xF0 ==> 0x90 <= b) && (first == 0xF4 ==> b <= 0x8F)
  }

  // What a byte carries beside its leading bits.
  function Low(b: nat, base: nat): nat
    requires base <= b
  {
    b - base
  }

  /** The decoder: the first code point of some bytes. */
  function First(b: seq<Byte>): (r: Option<nat>)
    ensures r.Some? ==> |b| > 0 && Width(b[0]) <= |b|
  {
    if |b| == 0 then None
    else if b[0] < 0x80 then Some(b[0])
    else if b[0] < 0xC2 || b[0] > 0xF4 || |b| < 2 || !Second(b[0], b[1]) then None
    else if b[0] < 0xE0 then Some(Low(b[0], 0xC0) * 64 + Low(b[1], 0x80))
    else if |b| < 3 || !Tail(b[2]) then None
    else if b[0] < 0xF0 then Some(Low(b[0], 0xE0) * 4096 + Low(b[1], 0x80) * 64 + Low(b[2], 0x80))
    else if |b| < 4 || !Tail(b[3]) then None
    else Some(Low(b[0], 0xF0) * 262144 + Low(b[1], 0x80) * 4096 + Low(b[2], 0x80) * 64 + Low(b[3], 0x80))
  }

  lemma FirstSound(b: seq<Byte>, s: nat)
    requires First(b) == Some(s)
    ensures Scalar(s) && Encode(s) <= b
  {
    if b[0] >= 0xF0 {
      SoundFour(b[..4], s);
    } else if b[0] >= 0xE0 {
      SoundThree(b[..3], s);
    } else if b[0] >= 0x80 {
      SoundTwo(b[..2], s);
    }
  }

  lemma SoundTwo(b: seq<Byte>, s: nat)
    requires |b| == 2 && 0x80 <= b[0] < 0xE0 && First(b) == Some(s)
    ensures Scalar(s) && Encode(s) == b
  {
  }

  lemma SoundThree(b: seq<Byte>, s: nat)
    requires |b| == 3 && 0xE0 <= b[0] < 0xF0 && First(b) == Some(s)
    ensures Scalar(s) && Encode(s) == b
  {
  }

  lemma SoundFour(b: seq<Byte>, s: nat)
    requires |b| == 4 && 0xF0 <= b[0] && First(b) == Some(s)
    ensures Scalar(s) && Encode(s) == b
  {
    var f, x, y, z := Low(b[0], 0xF0), Low(b[1], 0x80), Low(b[2], 0x80), Low(b[3], 0x80);
    CutIs(s, f * 4096 + x * 64 + y, z);
    CutIs(f * 4096 + x * 64 + y, f * 64 + x, y);
    CutIs(f * 64 + x, f, x);
  }

  lemma CutIs(s: nat, q: nat, r: nat)
    requires s == q * 64 + r && r < 64
    ensures Cut(s) == (q, r)
  {
  }

  function Width(first: Byte): (n: nat)
    ensures n > 0
  {
    if first < 0x80 then 1 else if first < 0xE0 then 2 else if first < 0xF0 then 3 else 4
  }

  // The bytes of a code point and what they stand for.
  lemma Shape(s: nat)
    requires Scalar(s)
    ensures |Encode(s)| == Width(Encode(s)[0])
    ensures forall i :: 0 < i < |Encode(s)| ==> Tail(Encode(s)[i])
  {
  }

  lemma Recombined(s: nat)
    requires Scalar(s)
    ensures First(Encode(s)) == Some(s)
  {
    Shape(s);
  }

  /** It decodes exactly the encodings of code points. */
  lemma FirstIff(b: seq<Byte>, s: nat)
    ensures First(b) == Some(s) <==> Scalar(s) && Encode(s) <= b
  {
    if First(b) == Some(s) {
      FirstSound(b, s);
    }
    if Scalar(s) && Encode(s) <= b {
      Recombined(s);
      var e := Encode(s);
      assert forall i :: 0 <= i < |e| ==> e[i] == b[i];
      assert First(b) == First(e);
    }
  }

  // The code points of a whole text.
  function Points(b: seq<Byte>): (r: Option<seq<nat>>) {
    if b == [] then Some([])
    else
      match First(b)
      case None => None
      case Some(s) =>
        match Points(b[Width(b[0])..])
        case None => None
        case Some(rest) => Some([s] + rest)
  }

  ghost function Bytes(t: seq<nat>): seq<Byte>
    requires Scalars(t)
  {
    if t == [] then [] else Encode(t[0]) + Bytes(t[1..])
  }

  /** Decoding inverts encoding: no two texts have the same bytes, nor two sequences
      of bytes the same text. */
  lemma PointsIff(b: seq<Byte>, t: seq<nat>)
    ensures Points(b) == Some(t) <==> Scalars(t) && Bytes(t) == b
  {
    if Points(b) == Some(t) {
      PointsSound(b, t);
    }
    if Scalars(t) && Bytes(t) == b {
      PointsComplete(t);
    }
  }

  lemma {:induction false} PointsSound(b: seq<Byte>, t: seq<nat>)
    requires Points(b) == Some(t)
    ensures Scalars(t) && Bytes(t) == b
    decreases |b|
  {
    if b != [] {
      var s := First(b).value;
      FirstIff(b, s);
      var n := |Encode(s)|;
      assert b == b[..n] + b[n..];
      assert t[1..] == Points(b[n..]).value;
      PointsSound(b[n..], t[1..]);
    }
  }

  lemma {:induction false} PointsComplete(t: seq<nat>)
    requires Scalars(t)
    ensures Points(Bytes(t)) == Some(t)
  {
    if t != [] {
      var b := Bytes(t);
      FirstIff(b, t[0]);
      assert b[|Encode(t[0])|..] == Bytes(t[1..]);
      PointsComplete(t[1..]);
      assert [t[0]] + t[1..] == t;
    }
  }

  lemma {:induction false} Ascii(b: seq<Byte>)
    requires forall i :: 0 <= i < |b| ==> b[i] < 0x80
    ensures Points(b) == Some(b)
  {
    if b != [] {
      Ascii(b[1..]);
      assert [b[0]] + b[1..] == b;
    }
  }

  // UTF-16.

  function Pair(s: nat): (r: seq<nat>)
    ensures 0 < |r| <= 2
  {
    if s < 0x10000 then [s] else [0xD800 + (s - 0x10000) / 1024, 0xDC00 + (s - 0x10000) % 1024]
  }

  function Units(t: seq<nat>): seq<nat> { if t == [] then [] else Pair(t[0]) + Units(t[1..]) }

  // Lexicographic order.
  predicate Less(a: seq<nat>, b: seq<nat>) {
    |b| > 0 && (|a| == 0 || a[0] < b[0] || (a[0] == b[0] && Less(a[1..], b[1..])))
  }

  lemma {:induction false} LessAfter(p: seq<nat>, a: seq<nat>, b: seq<nat>)
    ensures Less(p + a, p + b) <==> Less(a, b)
  {
    if p == [] {
      assert p + a == a && p + b == b;
    } else {
      assert (p + a)[1..] == p[1..] + a && (p + b)[1..] == p[1..] + b;
      LessAfter(p[1..], a, b);
    }
  }

  // UTF-16 puts the code points from 10000 on, which are pairs of surrogates, before
  // those from E000 to FFFF.
  predicate Before(s: nat, u: nat) {
    if s >= 0x10000 && 0xE000 <= u < 0x10000 then true
    else if u >= 0x10000 && 0xE000 <= s < 0x10000 then false
    else s < u
  }

  lemma EncodeOrder(s: nat, u: nat, x: seq<Byte>, y: seq<Byte>)
    requires Scalar(s) && Scalar(u) && s != u
    ensures Less(Encode(s) + x, Encode(u) + y) <==> s < u
  {
    if s >= 0x10000 && u >= 0x10000 {
      OrderFour(s, u, x, y);
    } else if 0x800 <= s < 0x10000 && 0x800 <= u < 0x10000 {
      OrderThree(s, u, x, y);
    } else {
      SecondByte(Encode(s) + x, Encode(u) + y);
    }
  }

  lemma OrderThree(s: nat, u: nat, x: seq<Byte>, y: seq<Byte>)
    requires Scalar(s) && Scalar(u) && 0x800 <= s < 0x10000 && 0x800 <= u < 0x10000 && s != u
    ensures Less(Encode(s) + x, Encode(u) + y) <==> s < u
  {
    SecondByte(Encode(s) + x, Encode(u) + y);
  }

  lemma OrderFour(s: nat, u: nat, x: seq<Byte>, y: seq<Byte>)
    requires Scalar(s) && Scalar(u) && 0x10000 <= s && 0x10000 <= u && s != u
    ensures Less(Encode(s) + x, Encode(u) + y) <==> s < u
  {
    SecondByte(Encode(s) + x, Encode(u) + y);
  }

  lemma SecondByte(a: seq<nat>, b: seq<nat>)
    ensures |a| > 1 && |b| > 1 && a[0] == b[0] && a[1] != b[1] ==> (Less(a, b) <==> a[1] < b[1])
    ensures |a| > 2 && |b| > 2 && a[..2] == b[..2] && a[2] != b[2] ==> (Less(a, b) <==> a[2] < b[2])
    ensures |a| > 3 && |b| > 3 && a[..3] == b[..3] && a[3] != b[3] ==> (Less(a, b) <==> a[3] < b[3])
  {
  }

  lemma PairOrder(s: nat, u: nat, x: seq<nat>, y: seq<nat>)
    requires Scalar(s) && Scalar(u) && s != u
    ensures Less(Pair(s) + x, Pair(u) + y) <==> Before(s, u)
  {
    var a, b := Pair(s) + x, Pair(u) + y;
    if a[0] == b[0] {
      SecondByte(a, b);
    }
  }

  // The first place where two texts differ.

  /** At the first difference one text has a code point from E000 to FFFF and the
      other one above. */
  predicate Crossed(t: seq<nat>, u: seq<nat>) {
    && t != [] && u != []
    && if t[0] == u[0] then Crossed(t[1..], u[1..])
       else (t[0] >= 0x10000 && 0xE000 <= u[0] < 0x10000) || (u[0] >= 0x10000 && 0xE000 <= t[0] < 0x10000)
  }

  /** The order of the bytes and that of the UTF-16 text, by which the reader goes,
      agree exactly when the texts do not cross. */
  lemma {:induction false} OrdersAgree(t: seq<nat>, u: seq<nat>)
    requires Scalars(t) && Scalars(u)
    ensures (Less(Bytes(t), Bytes(u)) <==> Less(Units(t), Units(u))) <==> !Crossed(t, u)
  {
    if t != [] && u != [] {
      if t[0] == u[0] {
        LessAfter(Encode(t[0]), Bytes(t[1..]), Bytes(u[1..]));
        LessAfter(Pair(t[0]), Units(t[1..]), Units(u[1..]));
        OrdersAgree(t[1..], u[1..]);
      } else {
        EncodeOrder(t[0], u[0], Bytes(t[1..]), Bytes(u[1..]));
        PairOrder(t[0], u[0], Units(t[1..]), Units(u[1..]));
      }
    }
  }

  lemma {:induction false} NotLess(a: seq<nat>)
    ensures !Less(a, a)
  {
    if a != [] {
      NotLess(a[1..]);
    }
  }
}
