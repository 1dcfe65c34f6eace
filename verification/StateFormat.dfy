/** The `.my98state` container of src/disk/web/state-format.js: what a file of saved
    machine state is, byte for byte, and when one is accepted. The text codecs and
    the compressor are parameters; the framing and the encryption are not. */
module StateFormat {
  import opened Octets
  import opened Envelope
  import Bencode

  const MAGIC: seq<Byte> := [77, 89, 57, 56, 83, 84, 65, 84]
  const RECORD := 0x10_0000
  const LIMIT := 0x4000_0000
  const MAX_FILE := LIMIT + 65536
  const MAX_HEADER := 4096
  const MAX_META := 65536

  // Text of the header.

  // Numbers separated by commas.
  function List(b: seq<Byte>): (r: seq<Byte>) {
    if |b| == 0 then []
    else if |b| == 1 then Bencode.Dec(b[0])
    else Bencode.Dec(b[0]) + Text(",") + List(b[1..])
  }

  lemma {:induction false} ListLength(b: seq<Byte>)
    ensures |List(b)| <= 4 * |b|
  {
    if |b| > 0 {
      assert Bencode.Pow10(1) == 10 && Bencode.Pow10(2) == 100 && Bencode.Pow10(3) == 1000;
      Bencode.DecLength(b[0], 3);
      ListLength(b[1..]);
    }
  }

  datatype Header = Header(version: int, base: seq<int>, raw: int, packed: int)

  function HeaderText(base: seq<Byte>, nonce: seq<Byte>, raw: nat, packed: nat): seq<Byte> {
    Text("{\"version\":1,\"base\":[") + List(base) + Text("],\"nonce\":[") + List(nonce) +
    Text("],\"raw\":") + Bencode.Dec(raw) + Text(",\"packed\":") + Bencode.Dec(packed) + Text("}")
  }

  /** The header of any state of a disk fits the reader's limit with room to spare. */
  lemma HeaderFits(base: seq<Byte>, nonce: seq<Byte>, raw: nat, packed: nat)
    requires HeaderOk(base, nonce, raw, packed)
    ensures 1 <= |HeaderText(base, nonce, raw, packed)| <= 940
  {
    ListLength(base);
    ListLength(nonce);
    assert Bencode.Pow10(5) == 100000;
    assert Bencode.Pow10(10) == 100000 * Bencode.Pow10(5) by { assert Bencode.Pow10(7) == 100 * Bencode.Pow10(5); }
    Bencode.DecLength(raw, 10);
    Bencode.DecLength(packed, 10);
  }

  // What is saved beside the state: the caller's own metadata, a JSON value that `fields`
  // stands for, and the published disk the state belongs to.
  datatype Info = Info(fields: seq<Byte>, reference: Option<seq<Byte>>)

  // The metadata of a file also carries the section lengths.
  datatype Meta = Meta(info: Info, stateLength: int, overlayLength: int)

  datatype Codec = Codec(
    pack: seq<Byte> -> seq<Byte>,
    unpack: seq<Byte> -> Option<seq<Byte>>,
    readHeader: seq<Byte> -> Option<Header>,
    writeMeta: Meta -> seq<Byte>,
    readMeta: seq<Byte> -> Option<Meta>)

  // The lengths and sizes in any state are far below what JSON numbers can carry.
  predicate Sized(m: Meta) { 0 <= m.stateLength <= LIMIT && 0 <= m.overlayLength <= LIMIT }

  predicate HeaderOk(base: seq<Byte>, nonce: seq<Byte>, raw: nat, packed: nat) {
    |base| == 198 && |nonce| == 16 && raw <= LIMIT && packed <= LIMIT
  }

  /** Reading inverts writing; compressed data is never empty. */
  ghost predicate Faithful(c: Codec) {
    && (forall b :: |b| <= LIMIT ==> |c.pack(b)| > 0 && c.unpack(c.pack(b)) == Some(b))
    && (forall m {:trigger c.writeMeta(m)} :: Sized(m) ==> c.readMeta(c.writeMeta(m)) == Some(m))
    && forall base: seq<Byte>, nonce: seq<Byte>, raw: nat, packed: nat ::
         HeaderOk(base, nonce, raw, packed) ==>
           c.readHeader(HeaderText(base, nonce, raw, packed)) == Some(Header(1, base, raw, packed))
  }

  // The open disk, as far as states are concerned: sealing takes a random salt.
  datatype Vault = Vault(
    seal: (seq<Octet>, seq<Byte>, seq<Octet>) -> seq<Octet>,
    open: (seq<Octet>, seq<Octet>) -> Option<seq<Byte>>)

  /** A record opens under the one context it was sealed in, to the one text. */
  ghost predicate Ideal(v: Vault) {
    && (forall context, text, salt {:trigger v.seal(context, text, salt)} :: |salt| == 32 && |text| <= RECORD ==>
          |v.seal(context, text, salt)| == |text| + OVERHEAD
          && v.open(context, v.seal(context, text, salt)) == Some(text))
    && (forall context, record {:trigger v.open(context, record)} :: v.open(context, record).Some? ==>
          exists salt :: |salt| == 32 && v.seal(context, v.open(context, record).value, salt) == record)
    && forall a, b, record {:trigger v.open(a, record), v.open(b, record)} ::
         v.open(a, record).Some? && v.open(b, record).Some? ==> a == b
  }

  function VaultOf(disk: Disk): Vault {
    Vault(
      (context, text, salt) =>
        if |salt| == 32 && |text| <= MAX_UNIT_BYTES then SealSnapshot(disk, context, text, salt).value else [],
      (context, record) => match OpenSnapshot(disk, context, record) case Ok(text) => Some(text) case Err(_) => None)
  }

  /** The envelope makes every disk such a vault. */
  lemma VaultIdeal(disk: Disk)
    ensures Ideal(VaultOf(disk))
  {
    var v := VaultOf(disk);
    forall context, text, salt {:trigger v.seal(context, text, salt)} | |salt| == 32 && |text| <= RECORD
      ensures |v.seal(context, text, salt)| == |text| + OVERHEAD
        && v.open(context, v.seal(context, text, salt)) == Some(text)
    {
      SealOpens(disk.key, SNAPSHOT, ZERO_NONCE, Lift(disk.id) + context, text, salt);
    }
    forall context, record {:trigger v.open(context, record)} | v.open(context, record).Some?
      ensures exists salt :: |salt| == 32 && v.seal(context, v.open(context, record).value, salt) == record
    {
      OpenedSeal(disk, context, record);
    }
    forall a, b, record {:trigger v.open(a, record), v.open(b, record)}
      | v.open(a, record).Some? && v.open(b, record).Some?
      ensures a == b
    {
      SnapshotPinned(disk, a, b, record);
    }
  }

  lemma OpenedSeal(disk: Disk, context: seq<Octet>, record: seq<Octet>)
    requires OpenSnapshot(disk, context, record).Ok?
    ensures exists salt ::
      |salt| == 32 && VaultOf(disk).seal(context, OpenSnapshot(disk, context, record).value, salt) == record
  {
    var text := OpenSnapshot(disk, context, record).value;
    OpensIffSealed(disk.key, SNAPSHOT, ZERO_NONCE, Lift(disk.id) + context, record, text);
    var salt :| |salt| == 32 && SealSnapshot(disk, context, text, salt) == Ok(record);
    assert VaultOf(disk).seal(context, text, salt) == record;
  }

  lemma SnapshotPinned(disk: Disk, a: seq<Octet>, b: seq<Octet>, record: seq<Octet>)
    requires OpenSnapshot(disk, a, record).Ok? && OpenSnapshot(disk, b, record).Ok?
    ensures a == b
  {
    var x, y := Lift(disk.id) + a, Lift(disk.id) + b;
    OpensInOneContext(disk.key, SNAPSHOT, ZERO_NONCE, x, disk.key, SNAPSHOT, ZERO_NONCE, y, record);
    assert x[|disk.id|..] == a && y[|disk.id|..] == b;
  }

  // Records: one per MiB of compressed data, each sealed for its own place.

  function Context(header: seq<Byte>, index: nat): seq<Octet> { Lift(header + LE(index, 4)) }

  lemma ContextInjective(h: seq<Byte>, i: nat, g: seq<Byte>, j: nat)
    requires Context(h, i) == Context(g, j) && i < 0x1_0000_0000 && j < 0x1_0000_0000
    ensures h == g && i == j
  {
    LiftInjective(h + LE(i, 4), g + LE(j, 4));
    assert (h + LE(i, 4))[..|h|] == h && (g + LE(j, 4))[..|g|] == g;
    assert (h + LE(i, 4))[|h|..] == LE(i, 4) && (g + LE(j, 4))[|g|..] == LE(j, 4);
    Powers();
    LEInverse(i, 4);
    LEInverse(j, 4);
  }

  function Records(packed: nat): (r: nat)
    ensures packed <= r * RECORD < packed + RECORD
  {
    (packed + RECORD - 1) / RECORD
  }

  function BodySize(packed: nat): nat { packed + Records(packed) * OVERHEAD }

  // One salt for each record of `packed` bytes.
  ghost predicate SaltsFor(salts: seq<seq<Octet>>, packed: nat) {
    packed <= |salts| * RECORD < packed + RECORD && forall i :: 0 <= i < |salts| ==> |salts[i]| == 32
  }

  function SealFrom(v: Vault, header: seq<Byte>, packed: seq<Byte>, index: nat, salts: seq<seq<Octet>>): (r: seq<Octet>)
    requires SaltsFor(salts, |packed|)
    decreases |packed|
  {
    if |packed| == 0 then []
    else
      var n := Min(RECORD, |packed|);
      v.seal(Context(header, index), packed[..n], salts[0]) +
      SealFrom(v, header, packed[n..], index + 1, salts[1..])
  }

  function OpenFrom(v: Vault, header: seq<Byte>, body: seq<Octet>, index: nat, left: nat): (r: Option<seq<Byte>>)
    ensures r.Some? ==> |r.value| == left
    decreases left
  {
    if left == 0 then if body == [] then Some([]) else None
    else
      var n := Min(RECORD, left);
      if |body| < n + OVERHEAD then None
      else
        var text := v.open(Context(header, index), body[..n + OVERHEAD]);
        if text.None? || |text.value| != n then None
        else
          match OpenFrom(v, header, body[n + OVERHEAD..], index + 1, left - n)
          case None => None
          case Some(rest) => Some(text.value + rest)
  }

  lemma {:induction false} BodyLength(
    v: Vault, header: seq<Byte>, body: seq<Octet>, index: nat, left: nat, records: nat)
    requires OpenFrom(v, header, body, index, left).Some? && left <= records * RECORD < left + RECORD
    ensures |body| == left + records * OVERHEAD
    decreases left
  {
    if left > 0 {
      var n := Min(RECORD, left);
      BodyLength(v, header, body[n + OVERHEAD..], index + 1, left - n, records - 1);
    }
  }

  /** The records open to some compressed data exactly when they are its records,
      each sealed under this header at its own index, in order and none missing. */
  lemma {:induction false} RecordsIff(v: Vault, header: seq<Byte>, body: seq<Octet>, index: nat, packed: seq<Byte>)
    requires Ideal(v)
    ensures OpenFrom(v, header, body, index, |packed|) == Some(packed) <==>
      exists salts :: SaltsFor(salts, |packed|) && body == SealFrom(v, header, packed, index, salts)
    decreases |packed|
  {
    if OpenFrom(v, header, body, index, |packed|) == Some(packed) {
      var salts := OpenedSalts(v, header, body, index, packed);
    }
    if salts :| SaltsFor(salts, |packed|) && body == SealFrom(v, header, packed, index, salts) {
      SealedOpens(v, header, packed, index, salts);
    }
  }

  lemma {:induction false} OpenedSalts(v: Vault, header: seq<Byte>, body: seq<Octet>, index: nat, packed: seq<Byte>)
    returns (salts: seq<seq<Octet>>)
    requires Ideal(v)
    requires OpenFrom(v, header, body, index, |packed|) == Some(packed)
    ensures SaltsFor(salts, |packed|) && body == SealFrom(v, header, packed, index, salts)
    decreases |packed|
  {
    if |packed| == 0 {
      return [];
    }
    var n := Min(RECORD, |packed|);
    var first, rest := body[..n + OVERHEAD], body[n + OVERHEAD..];
    var text := v.open(Context(header, index), first).value;
    Halves(text, OpenFrom(v, header, rest, index + 1, |packed| - n).value);
    var more := OpenedSalts(v, header, rest, index + 1, packed[n..]);
    var salt :| |salt| == 32 && v.seal(Context(header, index), text, salt) == first;
    salts := [salt] + more;
    Halves([salt], more);
    Whole(body, n + OVERHEAD);
  }

  lemma {:induction false} SealedOpens(
    v: Vault, header: seq<Byte>, packed: seq<Byte>, index: nat, salts: seq<seq<Octet>>)
    requires Ideal(v)
    requires SaltsFor(salts, |packed|)
    ensures OpenFrom(v, header, SealFrom(v, header, packed, index, salts), index, |packed|) == Some(packed)
    decreases |packed|
  {
    if |packed| > 0 {
      var n := Min(RECORD, |packed|);
      var first := v.seal(Context(header, index), packed[..n], salts[0]);
      var rest := SealFrom(v, header, packed[n..], index + 1, salts[1..]);
      Halves(first, rest);
      Whole(packed, n);
      SealedOpens(v, header, packed[n..], index + 1, salts[1..]);
    }
  }

  lemma Halves<T>(a: seq<T>, b: seq<T>)
    ensures (a + b)[..|a|] == a && (a + b)[|a|..] == b
  {
  }

  lemma Whole<T>(s: seq<T>, n: nat)
    requires n <= |s|
    ensures s[..n] + s[n..] == s
  {
  }

  // The file.

  datatype Decoded = Decoded(meta: Meta, state: seq<Byte>, overlay: seq<Byte>)

  // A header that passed every check.
  datatype Front = Front(text: seq<Byte>, raw: nat, packed: nat)

  function FileSize(f: Front): nat { 12 + |f.text| + BodySize(f.packed) }

  function Prefix(header: seq<Byte>): seq<Byte> { MAGIC + LE(|header|, 4) }

  function RawData(meta: seq<Byte>, state: seq<Byte>, overlay: seq<Byte>): seq<Byte> {
    LE(|meta|, 4) + meta + state + overlay
  }

  // What is saved is within the limits.
  predicate Encodable(c: Codec, info: Info, state: seq<Byte>, overlay: seq<Byte>) {
    var meta := c.writeMeta(Meta(info, |state|, |overlay|));
    var raw := RawData(meta, state, overlay);
    && 0 < |state| <= LIMIT && |meta| <= MAX_META && |raw| <= LIMIT && |c.pack(raw)| <= LIMIT
  }

  /** `encodeState`; the nonce and the salts of the records are random. */
  function EncodeFile(
    c: Codec, v: Vault, base: seq<Byte>, nonce: seq<Byte>, salts: seq<seq<Octet>>, info: Info,
    state: seq<Byte>, overlay: seq<Byte>): Result<seq<Octet>>
    requires SaltsFor(salts, LIMIT)
  {
    var meta := c.writeMeta(Meta(info, |state|, |overlay|));
    var raw := RawData(meta, state, overlay);
    var packed := c.pack(raw);
    if !Encodable(c, info, state, overlay) then Err(Corruption)
    else
      var header := HeaderText(base, nonce, |raw|, |packed|);
      Ok(Lift(Prefix(header) + header) + SealFrom(v, header, packed, 0, salts[..Records(|packed|)]))
  }

  function ParsePrefix(prefix: seq<Octet>): Option<nat>
    requires |prefix| == 12
  {
    if prefix[..8] != Lift(MAGIC) then None
    else
      match Number(prefix[8..])
      case None => None
      case Some(n) => if 1 <= n <= MAX_HEADER then Some(n) else None
  }

  function ParseHeader(c: Codec, base: seq<Byte>, text: seq<Octet>): (r: Option<Front>)
    ensures r.Some? ==> text == Lift(r.value.text)
  {
    match Bytes(text)
    case None => None
    case Some(b) =>
      match c.readHeader(b)
      case None => None
      case Some(h) =>
        if h.version != 1 || h.raw < 4 || h.raw > LIMIT || h.packed < 1 || h.packed > LIMIT || h.base != base then None
        else Some(Front(b, h.raw, h.packed))
  }

  // The metadata, if the sections it announces make up the whole.
  function MetaOf(c: Codec, text: seq<Byte>, size: nat): (r: Option<Meta>)
    ensures r.Some? ==> r.value.stateLength >= 1 && r.value.overlayLength >= 0
    ensures r.Some? ==> 4 + |text| + r.value.stateLength + r.value.overlayLength == size
  {
    match c.readMeta(text)
    case None => None
    case Some(m) =>
      if m.stateLength < 1 || m.overlayLength < 0 || 4 + |text| + m.stateLength + m.overlayLength != size then None
      else Some(m)
  }

  function Sections(c: Codec, raw: seq<Byte>): Option<Decoded> {
    if |raw| < 4 then None
    else
      var n := FromLE(raw[..4]);
      if n > MAX_META || n + 4 > |raw| then None
      else
        match MetaOf(c, raw[4..4 + n], |raw|)
        case None => None
        case Some(m) => Some(Decoded(m, raw[4 + n..4 + n + m.stateLength], raw[4 + n + m.stateLength..]))
  }

  predicate SizeOk(declared: Option<nat>) { declared.Some? ==> 12 <= declared.value <= MAX_FILE }

  function FrontOf(c: Codec, base: seq<Byte>, file: seq<Octet>): (r: Option<Front>)
    ensures r.Some? ==> 12 + |r.value.text| <= |file|
  {
    if |file| < 12 then None
    else
      match ParsePrefix(file[..12])
      case None => None
      case Some(n) => if |file| < 12 + n then None else ParseHeader(c, base, file[12..12 + n])
  }

  /** `decodeState` on the bytes of a whole file, of which the size may be known. */
  function DecodeFile(c: Codec, v: Vault, base: seq<Byte>, file: seq<Octet>, declared: Option<nat>): Option<Decoded> {
    match FrontOf(c, base, file)
    case None => None
    case Some(f) =>
      if !SizeOk(declared) || FileSize(f) > MAX_FILE || (declared.Some? && declared.value != FileSize(f)) then None
      else
        match OpenFrom(v, f.text, file[12 + |f.text|..], 0, f.packed)
        case None => None
        case Some(packed) => Unpacked(c, f, packed)
  }

  function Unpacked(c: Codec, f: Front, packed: seq<Byte>): Option<Decoded> {
    match c.unpack(packed)
    case None => None
    case Some(raw) => if |raw| == f.raw then Sections(c, raw) else None
  }

  // What is encoded is decoded.

  lemma RawSlices(meta: seq<Byte>, state: seq<Byte>, overlay: seq<Byte>)
    requires |meta| <= MAX_META
    ensures var raw := RawData(meta, state, overlay); var n := 4 + |meta|;
      && |raw| == n + |state| + |overlay| && FromLE(raw[..4]) == |meta| && raw[4..n] == meta
      && raw[n..n + |state|] == state && raw[n + |state|..] == overlay
  {
    var raw := RawData(meta, state, overlay);
    Powers();
    LEInverse(|meta|, 4);
    assert raw[..4] == LE(|meta|, 4) && raw[4..4 + |meta|] == meta;
    assert raw[4 + |meta|..4 + |meta| + |state|] == state && raw[4 + |meta| + |state|..] == overlay;
  }

  lemma SectionsOf(c: Codec, m: Meta, state: seq<Byte>, overlay: seq<Byte>)
    requires Faithful(c) && m.stateLength == |state| > 0 && m.overlayLength == |overlay| && |c.writeMeta(m)| <= MAX_META
    requires |state| <= LIMIT && |overlay| <= LIMIT
    ensures Sections(c, RawData(c.writeMeta(m), state, overlay)) == Some(Decoded(m, state, overlay))
  {
    var meta := c.writeMeta(m);
    RawSlices(meta, state, overlay);
    MetaRead(c, m);
    SectionsAre(c, RawData(meta, state, overlay), meta, m, state, overlay);
  }

  lemma MetaRead(c: Codec, m: Meta)
    requires Faithful(c) && Sized(m)
    ensures c.readMeta(c.writeMeta(m)) == Some(m)
  {
  }

  lemma SectionsAre(c: Codec, raw: seq<Byte>, meta: seq<Byte>, m: Meta, state: seq<Byte>, overlay: seq<Byte>)
    requires |meta| <= MAX_META && c.readMeta(meta) == Some(m)
    requires m.stateLength == |state| > 0 && m.overlayLength == |overlay|
    requires var n := 4 + |meta|;
      && |raw| == n + |state| + |overlay| && FromLE(raw[..4]) == |meta| && raw[4..n] == meta
      && raw[n..n + |state|] == state && raw[n + |state|..] == overlay
    ensures Sections(c, raw) == Some(Decoded(m, state, overlay))
  {
  }

  lemma FrontOfFile(c: Codec, base: seq<Byte>, header: seq<Byte>, h: Header, body: seq<Octet>)
    requires c.readHeader(header) == Some(h) && 1 <= |header| <= MAX_HEADER
    requires h.version == 1 && 4 <= h.raw <= LIMIT && 1 <= h.packed <= LIMIT && h.base == base
    ensures FrontOf(c, base, Lift(Prefix(header) + header) + body) == Some(Front(header, h.raw, h.packed))
    ensures (Lift(Prefix(header) + header) + body)[12 + |header|..] == body
  {
    var file := Lift(Prefix(header) + header) + body;
    var n := 12 + |header|;
    assert file[..12] == Lift(Prefix(header));
    assert Lift(Prefix(header))[..8] == Lift(MAGIC) && Lift(Prefix(header))[8..] == Lift(LE(|header|, 4));
    Powers();
    NumberIffLE(Lift(LE(|header|, 4)), |header|);
    assert file[12..n] == Lift(header);
    LiftInjective(Bytes(Lift(header)).value, header);
  }

  // Compressed data that is sealed behind a header is what opens behind it.
  lemma Framed(
    c: Codec, v: Vault, base: seq<Byte>, header: seq<Byte>, raw: nat, packed: seq<Byte>, salts: seq<seq<Octet>>)
    returns (file: seq<Octet>, f: Front)
    requires Ideal(v) && SaltsFor(salts, |packed|) && 1 <= |header| <= 940
    requires c.readHeader(header) == Some(Header(1, base, raw, |packed|))
    requires 4 <= raw <= LIMIT && 1 <= |packed| <= LIMIT
    ensures file == Lift(Prefix(header) + header) + SealFrom(v, header, packed, 0, salts)
    ensures f == Front(header, raw, |packed|) && FrontOf(c, base, file) == Some(f)
    ensures OpenFrom(v, f.text, file[12 + |f.text|..], 0, f.packed) == Some(packed)
    ensures 12 <= |file| == FileSize(f) <= MAX_FILE
  {
    var body := SealFrom(v, header, packed, 0, salts);
    SealedOpens(v, header, packed, 0, salts);
    BodyLength(v, header, body, 0, |packed|, Records(|packed|));
    FrontOfFile(c, base, header, Header(1, base, raw, |packed|), body);
    file, f := Lift(Prefix(header) + header) + body, Front(header, raw, |packed|);
  }

  lemma ReadBack(c: Codec, base: seq<Byte>, nonce: seq<Byte>, raw: seq<Byte>)
    requires Faithful(c) && |base| == 198 && |nonce| == 16 && |raw| <= LIMIT && |c.pack(raw)| <= LIMIT
    ensures |c.pack(raw)| > 0 && c.unpack(c.pack(raw)) == Some(raw)
    ensures var header := HeaderText(base, nonce, |raw|, |c.pack(raw)|);
      c.readHeader(header) == Some(Header(1, base, |raw|, |c.pack(raw)|)) && 1 <= |header| <= 940
  {
    HeaderFits(base, nonce, |raw|, |c.pack(raw)|);
  }

  /** Every file the encoder emits is decoded to exactly what went in, whether or
      not its size is known beforehand, and is within the reader's size limit. */
  lemma RoundTrip(
    c: Codec, v: Vault, base: seq<Byte>, nonce: seq<Byte>, salts: seq<seq<Octet>>, info: Info,
    state: seq<Byte>, overlay: seq<Byte>)
    requires Ideal(v)
    requires Faithful(c) && SaltsFor(salts, LIMIT) && |base| == 198 && |nonce| == 16
    requires EncodeFile(c, v, base, nonce, salts, info, state, overlay).Ok?
    ensures var file := EncodeFile(c, v, base, nonce, salts, info, state, overlay).value;
      var decoded := Some(Decoded(Meta(info, |state|, |overlay|), state, overlay));
      && |file| <= MAX_FILE
      && DecodeFile(c, v, base, file, None) == decoded && DecodeFile(c, v, base, file, Some(|file|)) == decoded
  {
    var m := Meta(info, |state|, |overlay|);
    var packed := c.pack(RawData(c.writeMeta(m), state, overlay));
    SaltsCut(salts, |packed|);
    var file := PartsDecode(c, v, base, nonce, salts[..Records(|packed|)], m, state, overlay);
  }

  lemma SaltsCut(salts: seq<seq<Octet>>, packed: nat)
    requires SaltsFor(salts, LIMIT) && packed <= LIMIT
    ensures Records(packed) <= |salts| && SaltsFor(salts[..Records(packed)], packed)
  {
  }

  lemma PartsDecode(
    c: Codec, v: Vault, base: seq<Byte>, nonce: seq<Byte>, salts: seq<seq<Octet>>, m: Meta, state: seq<Byte>,
    overlay: seq<Byte>)
    returns (file: seq<Octet>)
    requires Ideal(v) && Faithful(c) && |base| == 198 && |nonce| == 16
    requires m.stateLength == |state| > 0 && m.overlayLength == |overlay| && |c.writeMeta(m)| <= MAX_META
    requires var raw := RawData(c.writeMeta(m), state, overlay);
      |raw| <= LIMIT && |c.pack(raw)| <= LIMIT && SaltsFor(salts, |c.pack(raw)|)
    ensures var raw := RawData(c.writeMeta(m), state, overlay); var packed := c.pack(raw);
      var header := HeaderText(base, nonce, |raw|, |packed|);
      file == Lift(Prefix(header) + header) + SealFrom(v, header, packed, 0, salts)
    ensures |file| <= MAX_FILE
    ensures DecodeFile(c, v, base, file, None) == Some(Decoded(m, state, overlay))
    ensures DecodeFile(c, v, base, file, Some(|file|)) == Some(Decoded(m, state, overlay))
  {
    var raw := RawData(c.writeMeta(m), state, overlay);
    var packed := c.pack(raw);
    ReadBack(c, base, nonce, raw);
    SectionsOf(c, m, state, overlay);
    var f;
    file, f := Framed(c, v, base, HeaderText(base, nonce, |raw|, |packed|), |raw|, packed, salts);
    WholeDecodes(c, v, base, file, None, f, packed, raw);
    WholeDecodes(c, v, base, file, Some(|file|), f, packed, raw);
  }

  lemma WholeDecodes(
    c: Codec, v: Vault, base: seq<Byte>, file: seq<Octet>, declared: Option<nat>, f: Front, packed: seq<Byte>,
    raw: seq<Byte>)
    requires FrontOf(c, base, file) == Some(f) && 12 <= FileSize(f) <= MAX_FILE
    requires declared.None? || declared.value == FileSize(f)
    requires OpenFrom(v, f.text, file[12 + |f.text|..], 0, f.packed) == Some(packed)
    requires c.unpack(packed) == Some(raw) && |raw| == f.raw
    ensures DecodeFile(c, v, base, file, declared) == Sections(c, raw)
  {
  }

  // Knowing the size beforehand only refuses; it never changes what is decoded.
  lemma DeclaredOnlyRefuses(c: Codec, v: Vault, base: seq<Byte>, file: seq<Octet>, declared: Option<nat>)
    ensures DecodeFile(c, v, base, file, declared).Some? ==>
      DecodeFile(c, v, base, file, declared) == DecodeFile(c, v, base, file, None)
  {
  }

  // What is accepted is whole and in its place.

  /** A file is accepted exactly when it is a checked header followed by the sealed
      records of compressed data whose sections are what is returned. */
  lemma AcceptedIff(c: Codec, v: Vault, base: seq<Byte>, file: seq<Octet>, declared: Option<nat>, d: Decoded)
    requires Ideal(v)
    ensures DecodeFile(c, v, base, file, declared) == Some(d) <==>
      exists f, packed, salts :: Made(c, v, base, file, declared, d, f, packed, salts)
  {
    if DecodeFile(c, v, base, file, declared) == Some(d) {
      var f := FrontOf(c, base, file).value;
      var body := file[12 + |f.text|..];
      var packed := OpenFrom(v, f.text, body, 0, f.packed).value;
      BodyLength(v, f.text, body, 0, f.packed, Records(f.packed));
      var salts := OpenedSalts(v, f.text, body, 0, packed);
      assert Made(c, v, base, file, declared, d, f, packed, salts);
    }
    if f, packed, salts :| Made(c, v, base, file, declared, d, f, packed, salts) {
      SealedOpens(v, f.text, packed, 0, salts);
    }
  }

  ghost predicate Made(
    c: Codec, v: Vault, base: seq<Byte>, file: seq<Octet>, declared: Option<nat>, d: Decoded,
    f: Front, packed: seq<Byte>, salts: seq<seq<Octet>>)
  {
    && FrontOf(c, base, file) == Some(f) && |packed| == f.packed && SaltsFor(salts, |packed|)
    && file[12 + |f.text|..] == SealFrom(v, f.text, packed, 0, salts)
    && SizeOk(declared) && FileSize(f) <= MAX_FILE && (declared.Some? ==> declared.value == FileSize(f))
    && |file| == FileSize(f)
    && Unpacked(c, f, packed) == Some(d)
  }

  /** No accepted file is a proper prefix of another: a truncated or extended
      container is refused. */
  lemma NoProperPrefix(
    c: Codec, v: Vault, base: seq<Byte>, a: seq<Octet>, b: seq<Octet>, da: Option<nat>, db: Option<nat>)
    requires DecodeFile(c, v, base, a, da).Some? && DecodeFile(c, v, base, b, db).Some? && a <= b
    ensures a == b
  {
    var f := FrontOf(c, base, a).value;
    assert a[..12] == b[..12] && a[12..12 + |f.text|] == b[12..12 + |f.text|];
    SameFront(c, base, a, b, |f.text|);
    DecodedLength(c, v, base, a, da, f);
    DecodedLength(c, v, base, b, db, f);
  }

  lemma DecodedLength(c: Codec, v: Vault, base: seq<Byte>, file: seq<Octet>, declared: Option<nat>, f: Front)
    requires DecodeFile(c, v, base, file, declared).Some? && FrontOf(c, base, file) == Some(f)
    ensures |file| == FileSize(f)
  {
    BodyLength(v, f.text, file[12 + |f.text|..], 0, f.packed, Records(f.packed));
  }

  lemma SameFront(c: Codec, base: seq<Byte>, a: seq<Octet>, b: seq<Octet>, n: nat)
    requires 12 + n <= |a| <= |b| && a[..12] == b[..12] && a[12..12 + n] == b[12..12 + n]
    requires FrontOf(c, base, a).Some? && |FrontOf(c, base, a).value.text| == n
    ensures FrontOf(c, base, b) == FrontOf(c, base, a)
  {
  }

  // Where record `i` of `left` bytes lies among the records.
  function Begin(i: nat): nat { i * (RECORD + OVERHEAD) }

  function End(left: nat, i: nat): nat
    requires i * RECORD < left
  {
    Begin(i) + Min(RECORD, left - i * RECORD) + OVERHEAD
  }

  lemma OpenStep(v: Vault, header: seq<Byte>, body: seq<Octet>, index: nat, left: nat) returns (n: nat)
    requires OpenFrom(v, header, body, index, left).Some? && left > 0
    ensures n == Min(RECORD, left) + OVERHEAD <= |body| && v.open(Context(header, index), body[..n]).Some?
    ensures left > RECORD ==> OpenFrom(v, header, body[n..], index + 1, left - RECORD).Some?
  {
    n := Min(RECORD, left) + OVERHEAD;
  }

  lemma {:induction false} RecordOpens(v: Vault, header: seq<Byte>, body: seq<Octet>, index: nat, left: nat, i: nat)
    returns (record: seq<Octet>)
    requires OpenFrom(v, header, body, index, left).Some? && i * RECORD < left
    ensures End(left, i) <= |body| && record == body[Begin(i)..End(left, i)]
    ensures v.open(Context(header, index + i), record).Some?
    decreases i
  {
    var n := OpenStep(v, header, body, index, left);
    if i == 0 {
      record := body[..n];
    } else {
      record := RecordOpens(v, header, body[n..], index + 1, left - RECORD, i - 1);
      SliceAfter(body, n, Begin(i - 1), End(left - RECORD, i - 1));
    }
  }

  lemma SliceAfter(b: seq<Octet>, k: nat, o: nat, e: nat)
    requires o <= e && k + e <= |b|
    ensures b[k..][o..e] == b[k + o..k + e]
  {
  }

  function RecordAt(file: seq<Octet>, f: Front, i: nat): seq<Octet>
    requires i * RECORD < f.packed && |file| == FileSize(f)
  {
    file[12 + |f.text|..][Begin(i)..End(f.packed, i)]
  }

  // A record of an accepted file opens under the file's header and its own index.
  lemma RecordOf(c: Codec, v: Vault, base: seq<Byte>, file: seq<Octet>, declared: Option<nat>, f: Front, i: nat)
    requires DecodeFile(c, v, base, file, declared).Some? && FrontOf(c, base, file) == Some(f) && i * RECORD < f.packed
    ensures |file| == FileSize(f) && i < 0x1_0000_0000
    ensures v.open(Context(f.text, i), RecordAt(file, f, i)).Some?
  {
    var body := file[12 + |f.text|..];
    BodyLength(v, f.text, body, 0, f.packed, Records(f.packed));
    var record := RecordOpens(v, f.text, body, 0, f.packed, i);
  }

  /** A sealed record is accepted in one place only: if the same bytes are a record
      of two accepted files, the files have the same header and the records the same
      index. So records can be neither reordered nor moved between states. */
  lemma RecordPinned(
    c: Codec, v: Vault, base: seq<Byte>, a: seq<Octet>, b: seq<Octet>, da: Option<nat>, db: Option<nat>, f: Front,
    g: Front,
    i: nat, j: nat)
    requires Ideal(v)
    requires DecodeFile(c, v, base, a, da).Some? && FrontOf(c, base, a) == Some(f) && i * RECORD < f.packed
    requires DecodeFile(c, v, base, b, db).Some? && FrontOf(c, base, b) == Some(g) && j * RECORD < g.packed
    requires |a| == FileSize(f) && |b| == FileSize(g) && RecordAt(a, f, i) == RecordAt(b, g, j)
    ensures i == j && f == g
  {
    RecordOf(c, v, base, a, da, f, i);
    RecordOf(c, v, base, b, db, g, j);
    assert Context(f.text, i) == Context(g.text, j);
    ContextInjective(f.text, i, g.text, j);
    HeaderDecides(c, base, a, b);
  }

  lemma HeaderDecides(c: Codec, base: seq<Byte>, a: seq<Octet>, b: seq<Octet>)
    requires FrontOf(c, base, a).Some? && FrontOf(c, base, b).Some?
    requires FrontOf(c, base, a).value.text == FrontOf(c, base, b).value.text
    ensures FrontOf(c, base, a) == FrontOf(c, base, b)
  {
    var t := FrontOf(c, base, a).value.text;
    assert ParseHeader(c, base, a[12..12 + |t|]) == FrontOf(c, base, a);
    assert ParseHeader(c, base, b[12..12 + |t|]) == FrontOf(c, base, b);
  }
}
