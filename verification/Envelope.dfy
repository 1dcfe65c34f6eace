/** The envelope framing of src/crypto/src/lib.rs over ideal authenticated
    encryption and ideal signatures. Only the framing is concrete: an envelope is
    a 46-byte header (magic, version, kind, salt, length), the ciphertext and a
    16-byte tag, and the header and context are authenticated. */
module Envelope {
  import opened Octets

  const PREFIX: seq<Byte> := [83, 76, 56, 54]
  const HEADER := 46
  const TAG := 16
  const OVERHEAD := 62
  const MAX_UNIT_BYTES := 16 * 1024 * 1024

  const DESCRIPTOR: Byte := 1
  const DATA: Byte := 2
  const SNAPSHOT: Byte := 4

  const ZERO_NONCE: seq<Byte> := [0, 0, 0, 0, 0, 0, 0, 0, 0, 0, 0, 0]

  // Ideal AEAD: the ciphertext and tag of a box, and the only way to open them.
  function Encrypt(box: Box): (r: seq<Octet>)
    ensures |r| == |box.text| + TAG
  {
    seq(|box.text| + TAG, i requires 0 <= i < |box.text| + TAG => Sealed(box, i))
  }

  function Decrypt(key: Subkey, nonce: seq<Byte>, aad: seq<Octet>, cipher: seq<Octet>): (r: Option<seq<Byte>>)
    ensures forall text {:trigger Encrypt(Box(key, nonce, aad, text))} ::
      r == Some(text) <==> cipher == Encrypt(Box(key, nonce, aad, text))
  {
    if |cipher| < TAG || !cipher[0].Sealed? then
      assert forall text :: |cipher| >= TAG ==> Encrypt(Box(key, nonce, aad, text))[0] != cipher[0];
      None
    else
      var box := Box(key, nonce, aad, cipher[0].box.text);
      assert forall text :: cipher == Encrypt(Box(key, nonce, aad, text)) ==> cipher[0].box.text == text;
      if cipher == Encrypt(box) then Some(box.text) else None
  }

  function Head(kind: Byte, salt: seq<Octet>, length: nat): (r: seq<Octet>)
    ensures |r| == 14 + |salt|
  {
    Lift(PREFIX + [1, kind]) + salt + Lift(LE(length, 8))
  }

  /** `seal_with_salt`; the random salt of `seal` is an argument. */
  function Seal(
    key: seq<Byte>, kind: Byte, nonce: seq<Byte>, context: seq<Octet>, bytes: seq<Byte>,
    salt: seq<Octet>): (r: Result<seq<Octet>>)
    requires |salt| == 32
    ensures r.Ok? <==> |bytes| <= MAX_UNIT_BYTES
    ensures r.Ok? ==> |r.value| == |bytes| + OVERHEAD
  {
    if |bytes| > MAX_UNIT_BYTES then Err(Operation)
    else
      var header := Head(kind, salt, |bytes|);
      Ok(header + Encrypt(Box(Subkey(key, salt, kind), nonce, header + context, bytes)))
  }

  function Unseal(
    key: seq<Byte>, kind: Byte, nonce: seq<Byte>, context: seq<Octet>, envelope: seq<Octet>): (r: Result<seq<Byte>>)
    ensures r.Ok? ==> |envelope| == |r.value| + OVERHEAD
  {
    if |envelope| < HEADER + TAG || |envelope| > HEADER + TAG + MAX_UNIT_BYTES then Err(Authentication)
    else if envelope[..4] != Lift(PREFIX) || envelope[4] != Plain(1) || envelope[5] != Plain(kind)
    then Err(Authentication)
    else if Number(envelope[38..46]) != Some(|envelope| - HEADER - TAG) then Err(Authentication)
    else
      match Decrypt(Subkey(key, envelope[6..38], kind), nonce, envelope[..HEADER] + context, envelope[HEADER..])
      case None => Err(Authentication)
      case Some(text) => Ok(text)
  }

  lemma HeadFields(kind: Byte, salt: seq<Octet>, length: nat)
    requires |salt| == 32
    ensures var h := Head(kind, salt, length);
            h[..4] == Lift(PREFIX) && h[4] == Plain(1) && h[5] == Plain(kind) &&
            h[6..38] == salt && h[38..46] == Lift(LE(length, 8))
  {
  }

  lemma HeadFrom(h: seq<Octet>, kind: Byte, length: nat)
    requires |h| == HEADER
    requires h[..4] == Lift(PREFIX) && h[4] == Plain(1) && h[5] == Plain(kind)
    requires h[38..46] == Lift(LE(length, 8))
    ensures h == Head(kind, h[6..38], length)
  {
    var g := Head(kind, h[6..38], length);
    HeadFields(kind, h[6..38], length);
    assert h == h[..4] + [h[4], h[5]] + h[6..38] + h[38..46];
    assert g == g[..4] + [g[4], g[5]] + g[6..38] + g[38..46];
  }

  /** An envelope opens to a text exactly when sealing that text under the same
      key, kind, nonce and context, with some salt, produces that envelope. */
  lemma OpensIffSealed(
    key: seq<Byte>, kind: Byte, nonce: seq<Byte>, context: seq<Octet>, envelope: seq<Octet>, text: seq<Byte>)
    ensures Unseal(key, kind, nonce, context, envelope) == Ok(text)
       <==> exists salt :: |salt| == 32 && Seal(key, kind, nonce, context, text, salt) == Ok(envelope)
  {
    if Unseal(key, kind, nonce, context, envelope) == Ok(text) {
      var h := envelope[..HEADER];
      NumberIffLE(envelope[38..46], |text|);
      assert h[..4] == envelope[..4] && h[6..38] == envelope[6..38] && h[38..46] == envelope[38..46];
      HeadFrom(h, kind, |text|);
      assert envelope == h + envelope[HEADER..];
      assert Seal(key, kind, nonce, context, text, h[6..38]) == Ok(envelope);
    }
    if salt :| |salt| == 32 && Seal(key, kind, nonce, context, text, salt) == Ok(envelope) {
      SealOpens(key, kind, nonce, context, text, salt);
    }
  }

  lemma SealOpens(key: seq<Byte>, kind: Byte, nonce: seq<Byte>, context: seq<Octet>, bytes: seq<Byte>, salt: seq<Octet>)
    requires |salt| == 32 && |bytes| <= MAX_UNIT_BYTES
    ensures Unseal(key, kind, nonce, context, Seal(key, kind, nonce, context, bytes, salt).value) == Ok(bytes)
  {
    var h := Head(kind, salt, |bytes|);
    var c := Encrypt(Box(Subkey(key, salt, kind), nonce, h + context, bytes));
    var e := h + c;
    HeadFields(kind, salt, |bytes|);
    assert e[..HEADER] == h && e[HEADER..] == c;
    assert e[..4] == h[..4] && e[6..38] == h[6..38] && e[38..46] == h[38..46];
    Powers();
    NumberIffLE(e[38..46], |bytes|);
  }

  /** Binding: an envelope opens under one key, kind, nonce and context at most. */
  lemma OpensInOneContext(
    key: seq<Byte>, kind: Byte, nonce: seq<Byte>, context: seq<Octet>, key': seq<Byte>, kind': Byte,
    nonce': seq<Byte>, context': seq<Octet>, envelope: seq<Octet>)
    requires Unseal(key, kind, nonce, context, envelope).Ok?
    requires Unseal(key', kind', nonce', context', envelope).Ok?
    ensures key == key' && kind == kind' && nonce == nonce' && context == context'
  {
    var c := envelope[HEADER..];
    var box := c[0].box;
    assert box.aad == envelope[..HEADER] + context == envelope[..HEADER] + context';
    assert context == box.aad[HEADER..] == context';
  }

  // A disk: a public 16-byte name and a 32-byte key.
  datatype Disk = Disk(id: seq<Byte>, key: seq<Byte>) {
    predicate Valid() { |id| == 16 && |key| == 32 }
  }

  // An identity: signing seed, metadata key, and the public key the seed signs for.
  datatype Identity = Identity(publicKey: seq<Byte>, masterKey: seq<Byte>)

  function Unit(index: nat): (r: seq<Byte>)
    ensures |r| == 12
  {
    LE(index, 8) + [0, 0, 0, 0]
  }

  function SealUnit(disk: Disk, index: nat, bytes: seq<Byte>, salt: seq<Octet>): (r: Result<seq<Octet>>)
    requires |salt| == 32
    ensures r.Ok? <==> |bytes| <= MAX_UNIT_BYTES
    ensures r.Ok? ==> |r.value| == |bytes| + OVERHEAD
  {
    Seal(disk.key, DATA, Unit(index), Lift(disk.id + Unit(index)), bytes, salt)
  }

  function OpenUnit(disk: Disk, index: nat, envelope: seq<Octet>): (r: Result<seq<Byte>>)
    ensures r.Ok? ==> |envelope| == |r.value| + OVERHEAD
  {
    Unseal(disk.key, DATA, Unit(index), Lift(disk.id + Unit(index)), envelope)
  }

  function SealSnapshot(disk: Disk, context: seq<Octet>, bytes: seq<Byte>, salt: seq<Octet>): (r: Result<seq<Octet>>)
    requires |salt| == 32
    ensures r.Ok? <==> |bytes| <= MAX_UNIT_BYTES
    ensures r.Ok? ==> |r.value| == |bytes| + OVERHEAD
  {
    Seal(disk.key, SNAPSHOT, ZERO_NONCE, Lift(disk.id) + context, bytes, salt)
  }

  function OpenSnapshot(disk: Disk, context: seq<Octet>, envelope: seq<Octet>): (r: Result<seq<Byte>>)
    ensures r.Ok? ==> |envelope| == |r.value| + OVERHEAD
  {
    Unseal(disk.key, SNAPSHOT, ZERO_NONCE, Lift(disk.id) + context, envelope)
  }

  function SealDescriptor(owner: Identity, disk: Disk, salt: seq<Octet>): (r: seq<Octet>)
    requires |salt| == 32 && disk.Valid()
    ensures |r| == 110
  {
    Seal(owner.masterKey, DESCRIPTOR, ZERO_NONCE, Lift(owner.publicKey), disk.id + disk.key, salt).value
  }

  /** `open_descriptor`: a disk key travels only inside a 48-byte descriptor. */
  function OpenDescriptor(owner: Identity, envelope: seq<Octet>): (r: Result<Disk>)
    ensures r.Ok? ==> r.value.Valid() && |envelope| == 110
  {
    match Unseal(owner.masterKey, DESCRIPTOR, ZERO_NONCE, Lift(owner.publicKey), envelope)
    case Err(e) => Err(e)
    case Ok(bytes) =>
      if |bytes| != 48 then Err(Authentication) else Ok(Disk(bytes[..16], bytes[16..]))
  }

  lemma DescriptorIff(owner: Identity, envelope: seq<Octet>, disk: Disk)
    requires disk.Valid()
    ensures OpenDescriptor(owner, envelope) == Ok(disk)
       <==> exists salt :: |salt| == 32 && SealDescriptor(owner, disk, salt) == envelope
  {
    var text := disk.id + disk.key;
    OpensIffSealed(owner.masterKey, DESCRIPTOR, ZERO_NONCE, Lift(owner.publicKey), envelope, text);
    assert text[..16] == disk.id && text[16..] == disk.key;
    if OpenDescriptor(owner, envelope) == Ok(disk) {
      var bytes := Unseal(owner.masterKey, DESCRIPTOR, ZERO_NONCE, Lift(owner.publicKey), envelope).value;
      assert bytes == bytes[..16] + bytes[16..] == text;
    }
    if salt :| |salt| == 32 && SealDescriptor(owner, disk, salt) == envelope {
      SealOpens(owner.masterKey, DESCRIPTOR, ZERO_NONCE, Lift(owner.publicKey), text, salt);
    }
  }

  // Ideal signatures: 64 symbols that name the signer and the whole message.
  function Sign(owner: Identity, message: seq<Octet>): (r: seq<Octet>)
    ensures |r| == 64
  {
    seq(64, i requires 0 <= i < 64 => Signed(owner.publicKey, message, i))
  }

  predicate Verify(publicKey: seq<Byte>, message: seq<Octet>, signature: seq<Octet>) {
    |signature| == 64 && forall i :: 0 <= i < 64 ==> signature[i] == Signed(publicKey, message, i)
  }
}
