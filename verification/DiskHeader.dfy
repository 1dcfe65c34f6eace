/** The 198-byte signed header of a linear disk and the size arithmetic around it
    (src/disk/src/lib.rs). */
module DiskHeader {
  import opened Octets
  import opened Envelope

  const CHUNK := 65536
  const DISK_HEADER := 198
  const MAX_SIZE := 0x100_0000_0000
  const MAGIC: seq<Byte> := [83, 76, 79, 80, 68, 83, 75, 0]
  // "slop86/linear-disk/v1\0"
  const DOMAIN: seq<Byte> :=
    [115, 108, 111, 112, 56, 54, 47, 108, 105, 110, 101, 97, 114, 45, 100, 105, 115, 107, 47, 118, 49, 0]

  function Chunks(size: nat): (r: nat)
    ensures size <= r * CHUNK < size + CHUNK
  {
    (size + CHUNK - 1) / CHUNK
  }

  function ChunkLength(size: nat, index: nat): (r: nat)
    requires index * CHUNK <= size
  {
    Min(size - index * CHUNK, CHUNK)
  }

  function FileSize(size: nat): Result<nat> {
    if size == 0 || size > MAX_SIZE then Err(Corruption)
    else Ok(DISK_HEADER + size + Chunks(size) * OVERHEAD)
  }

  /** A file length names at most one disk size. */
  lemma FileSizeInjective(a: nat, b: nat)
    requires FileSize(a).Ok? && FileSize(a) == FileSize(b)
    ensures a == b
  {
  }

  function HeaderFields(size: nat): (r: seq<Byte>)
    ensures |r| == 24
  {
    MAGIC + LE(1, 4) + LE(CHUNK, 4) + LE(size, 8)
  }

  function MakeHeader(owner: Identity, disk: Disk, size: nat, salt: seq<Octet>): (r: Result<seq<Octet>>)
    requires |salt| == 32 && disk.Valid()
    ensures r.Ok? <==> FileSize(size).Ok?
    ensures r.Ok? ==> |r.value| == DISK_HEADER
  {
    if FileSize(size).Err? then Err(Corruption)
    else
      var b := Lift(HeaderFields(size)) + SealDescriptor(owner, disk, salt);
      Ok(b + Sign(owner, Lift(DOMAIN) + b))
  }

  function HeaderSize(b: seq<Octet>, total: nat): (r: Result<nat>)
    ensures r.Ok? ==> |b| == DISK_HEADER && FileSize(r.value) == Ok(total)
  {
    if |b| < 8 then Err(Corruption)
    else if b[..8] != Lift(MAGIC) then Err(Unsupported)
    else if |b| != DISK_HEADER then Err(Corruption)
    else if Number(b[8..12]) != Some(1) || Number(b[12..16]) != Some(CHUNK) then Err(Unsupported)
    else
      match Number(b[16..24])
      case None => Err(Corruption)
      case Some(size) =>
        if FileSize(size) != Ok(total) then Err(Corruption) else Ok(size)
  }

  function VerifyHeader(publicKey: seq<Byte>, b: seq<Octet>): Result<()>
    requires |b| == DISK_HEADER
  {
    if Verify(publicKey, Lift(DOMAIN) + b[..134], b[134..]) then Ok(()) else Err(Corruption)
  }

  function ParseHeader(owner: Identity, b: seq<Octet>, total: nat): (r: Result<(Disk, nat)>)
    ensures r.Ok? ==> |b| == DISK_HEADER && r.value.0.Valid() && FileSize(r.value.1) == Ok(total)
  {
    var size :- HeaderSize(b, total);
    var disk :- OpenDescriptor(owner, b[24..134]);
    var _ :- VerifyHeader(owner.publicKey, b);
    Ok((disk, size))
  }

  // Cutting and joining the four fixed fields of a header.
  lemma Fields(size: nat)
    ensures var h := Lift(HeaderFields(size));
      h[..8] == Lift(MAGIC) && h[8..12] == Lift(LE(1, 4)) && h[12..16] == Lift(LE(CHUNK, 4))
        && h[16..24] == Lift(LE(size, 8))
  {
  }

  lemma SplitFields(b: seq<Octet>)
    requires |b| == DISK_HEADER
    ensures var h := b[..24];
      h[..8] == b[..8] && h[8..12] == b[8..12] && h[12..16] == b[12..16] && h[16..24] == b[16..24]
  {
  }

  lemma JoinFields(g: seq<Octet>, h: seq<Octet>)
    requires |g| == |h| == 24
    requires g[..8] == h[..8] && g[8..12] == h[8..12] && g[12..16] == h[12..16] && g[16..24] == h[16..24]
    ensures g == h
  {
    assert g == g[..8] + g[8..12] + g[12..16] + g[16..24];
    assert h == h[..8] + h[8..12] + h[12..16] + h[16..24];
  }

  lemma HeaderSizeIff(b: seq<Octet>, total: nat, size: nat)
    ensures HeaderSize(b, total) == Ok(size)
       <==> |b| == DISK_HEADER && FileSize(size) == Ok(total) && b[..24] == Lift(HeaderFields(size))
  {
    if |b| == DISK_HEADER {
      Powers();
      NumberIffLE(b[8..12], 1);
      NumberIffLE(b[12..16], CHUNK);
      NumberIffLE(b[16..24], size);
      SplitFields(b);
      Fields(size);
      if HeaderSize(b, total) == Ok(size) {
        JoinFields(b[..24], Lift(HeaderFields(size)));
      }
    }
  }

  lemma ParsedHeader(owner: Identity, b: seq<Octet>, total: nat, disk: Disk, size: nat) returns (salt: seq<Octet>)
    requires ParseHeader(owner, b, total) == Ok((disk, size))
    ensures |salt| == 32 && MakeHeader(owner, disk, size, salt) == Ok(b)
  {
    HeaderSizeIff(b, total, size);
    DescriptorIff(owner, b[24..134], disk);
    salt :| |salt| == 32 && SealDescriptor(owner, disk, salt) == b[24..134];
    assert b[..134] == b[..24] + b[24..134];
    assert b[134..] == Sign(owner, Lift(DOMAIN) + b[..134]);
    assert b == b[..134] + b[134..];
  }

  lemma MadeHeader(owner: Identity, disk: Disk, size: nat, salt: seq<Octet>)
    requires |salt| == 32 && disk.Valid() && FileSize(size).Ok?
    ensures ParseHeader(owner, MakeHeader(owner, disk, size, salt).value, FileSize(size).value) == Ok((disk, size))
  {
    var b := MakeHeader(owner, disk, size, salt).value;
    var d := SealDescriptor(owner, disk, salt);
    var f := Lift(HeaderFields(size));
    assert b[..134] == f + d;
    assert b[..24] == f && b[24..134] == d;
    assert b[134..] == Sign(owner, Lift(DOMAIN) + b[..134]);
    HeaderSizeIff(b, FileSize(size).value, size);
    DescriptorIff(owner, b[24..134], disk);
  }

  /** A header is accepted, with this disk and size, exactly when its owner could
      have made it for this disk and size and the file has the one length that
      goes with the size. */
  lemma HeaderIff(owner: Identity, b: seq<Octet>, total: nat, disk: Disk, size: nat)
    requires disk.Valid()
    ensures ParseHeader(owner, b, total) == Ok((disk, size))
       <==> FileSize(size) == Ok(total) && exists salt :: |salt| == 32 && MakeHeader(owner, disk, size, salt) == Ok(b)
  {
    if ParseHeader(owner, b, total) == Ok((disk, size)) {
      var salt := ParsedHeader(owner, b, total, disk, size);
    }
    if FileSize(size) == Ok(total) {
      forall salt | |salt| == 32 && MakeHeader(owner, disk, size, salt) == Ok(b)
        ensures ParseHeader(owner, b, total) == Ok((disk, size))
      {
        MadeHeader(owner, disk, size, salt);
      }
    }
  }
}
