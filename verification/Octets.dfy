/** Bytes, little-endian numbers and the outcome types shared by every module. */
module Octets {

  datatype Option<+T> = None | Some(value: T)

  // The error classes a caller can tell apart; messages are not modelled.
  datatype Error =
    | Cancelled
    | IoError
    | Corruption
    | Operation
    | ReadOnly
    | Unsupported
    | Authentication

  datatype Result<+T> = Ok(value: T) | Err(error: Error) {
    predicate IsFailure() { Err? }

    function PropagateFailure<U>(): Result<U>
      requires Err?
    {
      Err(error)
    }

    function Extract(): T
      requires Ok?
    {
      value
    }
  }

  /** A point at which an operation may find itself cancelled. A calm operation is not
      cancelled, and nothing it asks of the outside world fails. */
  method Check(calm: bool) returns (r: Result<()>)
    ensures r.Err? ==> !calm && r.error == Cancelled
  {
    var cancelled: bool := *;
    r := if cancelled && !calm then Err(Cancelled) else Ok(());
  }

  type Byte = b: int | 0 <= b < 256

  /** What one byte of a stored file can be. Cryptography is ideal: a byte of a
      ciphertext or signature is a symbol that names the whole operation and its
      position, so it equals no other byte and reveals its inputs only to the
      functions of module Envelope. */
  datatype Octet =
    | Plain(value: Byte)
    | Sealed(box: Box, at: nat)
    | Signed(signer: seq<Byte>, message: seq<Octet>, at: nat)

  // Everything that determines one authenticated encryption.
  datatype Box = Box(key: Subkey, nonce: seq<Byte>, aad: seq<Octet>, text: seq<Byte>)

  datatype Subkey = Subkey(key: seq<Byte>, salt: seq<Octet>, kind: Byte)

  function Min(a: nat, b: nat): nat { if a < b then a else b }

  // The bytes of ASCII text.
  function Text(s: string): (r: seq<Byte>)
    requires forall i :: 0 <= i < |s| ==> s[i] as int < 128
    ensures |r| == |s|
  {
    seq(|s|, i requires 0 <= i < |s| => s[i] as int)
  }

  function Lift(bytes: seq<Byte>): (r: seq<Octet>)
    ensures |r| == |bytes|
    ensures forall i :: 0 <= i < |r| ==> r[i] == Plain(bytes[i])
  {
    seq(|bytes|, i requires 0 <= i < |bytes| => Plain(bytes[i]))
  }

  lemma LiftInjective(a: seq<Byte>, b: seq<Byte>)
    requires Lift(a) == Lift(b)
    ensures a == b
  {
    assert forall i :: 0 <= i < |a| ==> Lift(a)[i] == Plain(a[i]) && Lift(b)[i] == Plain(b[i]);
  }

  function Pow256(width: nat): (r: nat)
    ensures r > 0
  {
    if width == 0 then 1 else 256 * Pow256(width - 1)
  }

  /** The `width` low bytes of `n`, least significant first. */
  function LE(n: nat, width: nat): (r: seq<Byte>)
    ensures |r| == width
  {
    if width == 0 then [] else [n % 256] + LE(n / 256, width - 1)
  }

  function FromLE(b: seq<Byte>): (n: nat)
    ensures n < Pow256(|b|)
  {
    if |b| == 0 then 0 else b[0] + 256 * FromLE(b[1..])
  }

  lemma {:induction false} LEInverse(n: nat, width: nat)
    requires n < Pow256(width)
    ensures FromLE(LE(n, width)) == n
  {
    if width > 0 {
      LEInverse(n / 256, width - 1);
      assert LE(n, width)[1..] == LE(n / 256, width - 1);
    }
  }

  lemma {:induction false} FromLEInverse(b: seq<Byte>)
    ensures LE(FromLE(b), |b|) == b
  {
    if |b| > 0 {
      FromLEInverse(b[1..]);
      var n := FromLE(b);
      assert n % 256 == b[0] && n / 256 == FromLE(b[1..]);
      assert b == [b[0]] + b[1..];
    }
  }

  lemma Powers()
    ensures Pow256(4) == 0x1_0000_0000
    ensures Pow256(8) == 0x1_0000_0000_0000_0000
  {
    assert Pow256(1) == 256;
    assert Pow256(2) == 65536;
    assert Pow256(3) == 16777216;
    assert Pow256(4) == 4294967296;
    assert Pow256(5) == 1099511627776;
    assert Pow256(6) == 281474976710656;
    assert Pow256(7) == 72057594037927936;
  }

  /** The bytes of a field that holds no cryptographic symbol. */
  function Bytes(o: seq<Octet>): (r: Option<seq<Byte>>)
    ensures r.Some? ==> o == Lift(r.value)
    ensures (forall i :: 0 <= i < |o| ==> o[i].Plain?) ==> r.Some?
  {
    if forall i :: 0 <= i < |o| ==> o[i].Plain? then
      Some(seq(|o|, i requires 0 <= i < |o| => o[i].value))
    else None
  }

  /** The number stored little-endian in a field of a file. */
  function Number(o: seq<Octet>): (r: Option<nat>)
  {
    match Bytes(o)
    case None => None
    case Some(b) => Some(FromLE(b))
  }

  lemma NumberIffLE(o: seq<Octet>, n: nat)
    ensures Number(o) == Some(n) <==> n < Pow256(|o|) && o == Lift(LE(n, |o|))
  {
    if Number(o) == Some(n) {
      FromLEInverse(Bytes(o).value);
    }
    if n < Pow256(|o|) && o == Lift(LE(n, |o|)) {
      LEInverse(n, |o|);
      LiftInjective(Bytes(o).value, LE(n, |o|));
    }
  }
}
