/** `StateReader`, `encodeState` and `decodeState` of src/disk/web/state-format.js as
    they run, over streams that arrive in pieces of any size. Every step may be
    cancelled; otherwise the outcome is the one module StateFormat gives to the
    bytes, however they were cut. */
module StateStream {
  import opened Octets
  import opened Envelope
  import opened StateFormat

  function Flatten<T>(pieces: seq<seq<T>>): seq<T> { if pieces == [] then [] else pieces[0] + Flatten(pieces[1..]) }

  /** One way to hand bytes out in pieces: of these sizes, and the rest at once. Every
      way to cut them is one of these. */
  function Pieces<T>(all: seq<T>, sizes: seq<nat>): (r: seq<seq<T>>)
    ensures Flatten(r) == all
    decreases |sizes|
  {
    if sizes == [] || sizes[0] > |all| then
      assert [all] + [] == [all];
      [all]
    else
      var r := [all[..sizes[0]]] + Pieces(all[sizes[0]..], sizes[1..]);
      assert r[1..] == Pieces(all[sizes[0]..], sizes[1..]);
      r
  }

  lemma {:induction false} AnyPieces<T>(pieces: seq<seq<T>>) returns (sizes: seq<nat>)
    ensures Pieces(Flatten(pieces), sizes) == pieces + [[]]
  {
    sizes := [];
    if pieces != [] {
      var rest := AnyPieces(pieces[1..]);
      sizes := [|pieces[0]|] + rest;
      var all := Flatten(pieces);
      assert all[..|pieces[0]|] == pieces[0] && all[|pieces[0]|..] == Flatten(pieces[1..]);
      assert sizes[1..] == rest;
      assert pieces + [[]] == [pieces[0]] + (pieces[1..] + [[]]);
    }
  }

  lemma Dropped<T>(a: seq<T>, b: seq<T>, n: nat)
    requires n <= |a|
    ensures (a + b)[n..] == a[n..] + b && (a + b)[..n] == a[..n]
  {
  }

  lemma Grown<T>(all: seq<T>, at: nat, count: nat)
    requires at + count <= |all|
    ensures all[..at] + all[at..][..count] == all[..at + count] && all[at..][count..] == all[at + count..]
  {
  }

  class StateReader<T(0)> {
    ghost const total: nat
    const calm: bool
    var max: nat
    var rest: seq<seq<T>>
    var chunk: seq<T>
    var offset: nat
    var received: nat

    ghost predicate Valid()
      reads this
    {
      offset <= |chunk| <= received && received + |Flatten(rest)| == total
    }

    // The bytes not read yet.
    ghost function Left(): seq<T>
      reads this
      requires Valid()
    {
      chunk[offset..] + Flatten(rest)
    }

    constructor (stream: seq<seq<T>>, max: nat, calm: bool)
      ensures Valid() && Left() == Flatten(stream) && total == |Flatten(stream)| && this.max == max
      ensures this.calm == calm
    {
      this.max, this.calm := max, calm;
      rest, chunk, offset, received, total := stream, [], 0, 0, |Flatten(stream)|;
    }

    method Available() returns (r: Result<bool>)
      requires Valid()
      modifies this`rest, this`chunk, this`offset, this`received
      ensures Valid() && Left() == old(Left())
      ensures r == Ok(true) ==> offset < |chunk|
      ensures r == Ok(false) ==> Left() == [] && received == total
      ensures r.Err? ==> (r.error == Cancelled && !calm) || (r.error == Corruption && total > max)
    {
      while offset == |chunk|
        invariant Valid() && Left() == old(Left())
        decreases |rest|
      {
        var _ :- Check(calm);
        if rest == [] {
          return Ok(false);
        }
        if received + |rest[0]| > max {
          return Err(Corruption);
        }
        received, chunk, offset, rest := received + |rest[0]|, rest[0], 0, rest[1..];
      }
      r := Ok(true);
    }

    method Into(bytes: array<T>) returns (r: Result<bool>)
      requires Valid()
      modifies this`rest, this`chunk, this`offset, this`received, bytes
      ensures Valid()
      ensures r.Ok? ==>
        bytes.Length <= |old(Left())| && bytes[..] == old(Left())[..bytes.Length]
          && Left() == old(Left())[bytes.Length..]
      ensures r.Err? ==>
        || (r.error == Cancelled && !calm)
        || (r.error == Corruption && (total > max || bytes.Length > |old(Left())|))
    {
      ghost var all := Left();
      var at := 0;
      while at < bytes.Length
        invariant Valid() && at <= bytes.Length && at <= |all|
        invariant bytes[..at] == all[..at] && Left() == all[at..]
      {
        var more := Available();
        if more.Err? {
          return more;
        }
        if !more.value {
          return Err(Corruption);
        }
        var count := Take(bytes, at);
        Grown(all, at, count);
        at := at + count;
      }
      assert bytes[..] == bytes[..at];
      r := Ok(true);
    }

    // What is left of the current chunk, as far as it is wanted.
    method Take(bytes: array<T>, at: nat) returns (count: nat)
      requires Valid() && at < bytes.Length && offset < |chunk|
      modifies this`offset, bytes
      ensures Valid() && 0 < count <= bytes.Length - at && count <= |old(Left())|
      ensures bytes[..at + count] == old(bytes[..at]) + old(Left())[..count] && Left() == old(Left())[count..]
    {
      count := Min(bytes.Length - at, |chunk| - offset);
      Dropped(chunk[offset..], Flatten(rest), count);
      forall i | 0 <= i < count {
        bytes[at + i] := chunk[offset + i];
      }
      assert chunk[offset..][count..] == chunk[offset + count..];
      offset := offset + count;
    }

    method Read(size: nat) returns (r: Result<seq<T>>)
      requires Valid()
      modifies this`rest, this`chunk, this`offset, this`received
      ensures Valid()
      ensures r.Ok? ==> size <= |old(Left())| && r.value == old(Left())[..size] && Left() == old(Left())[size..]
      ensures r.Err? ==>
        (r.error == Cancelled && !calm) || (r.error == Corruption && (total > max || size > |old(Left())|))
    {
      var bytes := new T[size];
      var done := Into(bytes);
      r := if done.Err? then Err(done.error) else Ok(bytes[..]);
    }

    method End() returns (r: Result<bool>)
      requires Valid()
      modifies this`rest, this`chunk, this`offset, this`received
      ensures Valid() && Left() == old(Left())
      ensures r.Ok? ==> Left() == [] && received == total
      ensures r.Err? ==> (r.error == Cancelled && !calm) || (r.error == Corruption && (total > max || Left() != []))
    {
      r := Available();
      if r.Ok? && r.value {
        r := Err(Corruption);
      }
    }
  }

  // Reading the front of a file.

  method ReadFront(c: Codec, base: seq<Byte>, source: StateReader<Octet>) returns (r: Result<Front>, prefix: seq<Octet>)
    requires source.Valid()
    modifies source`rest, source`chunk, source`offset, source`received
    ensures source.Valid()
    ensures r.Ok? ==> FrontOf(c, base, old(source.Left())) == Some(r.value)
    ensures r.Ok? ==>
      source.Left() == old(source.Left())[12 + |r.value.text|..] && prefix + source.Left() == old(source.Left())
    ensures r.Err? ==>
      || (r.error == Cancelled && !source.calm)
      || (r.error == Corruption && (source.total > source.max || FrontOf(c, base, old(source.Left())).None?))
  {
    ghost var file := source.Left();
    prefix := [];
    var head := source.Read(12);
    if head.Err? {
      return Err(head.error), prefix;
    }
    var length := ParsePrefix(head.value);
    if length.None? {
      return Err(Corruption), prefix;
    }
    FrontIs(c, base, file, length.value);
    var text := source.Read(length.value);
    if text.Err? {
      return Err(text.error), prefix;
    }
    prefix := head.value + text.value;
    var f := ParseHeader(c, base, text.value);
    r := if f.None? then Err(Corruption) else Ok(f.value);
  }

  lemma FrontIs(c: Codec, base: seq<Byte>, file: seq<Octet>, n: nat)
    requires |file| >= 12 && ParsePrefix(file[..12]) == Some(n)
    ensures FrontOf(c, base, file) == if |file| < 12 + n then None else ParseHeader(c, base, file[12..][..n])
    ensures |file| >= 12 + n ==>
      file[12..][n..] == file[12 + n..] && file[..12] + file[12..][..n] + file[12 + n..] == file
  {
    if |file| >= 12 + n {
      assert file[12..][..n] == file[12..12 + n];
    }
  }

  // Opening the records one after another, handed on in pieces of 16 KiB.

  function Join(done: seq<Byte>, rest: Option<seq<Byte>>): Option<seq<Byte>> {
    match rest case None => None case Some(more) => Some(done + more)
  }

  lemma JoinMore(done: seq<Byte>, next: seq<Byte>, rest: Option<seq<Byte>>)
    ensures Join(done, Join(next, rest)) == Join(done + next, rest) && Join([], rest) == rest
  {
    if rest.Some? {
      assert done + (next + rest.value) == done + next + rest.value && [] + rest.value == rest.value;
    }
  }

  const PIECE := 16384

  function Opened(index: nat, packed: nat): nat { Min(index * RECORD, packed) }

  function Remaining(v: Vault, f: Front, body: seq<Octet>, index: nat): Option<seq<Byte>> {
    OpenFrom(v, f.text, body, index, f.packed - Opened(index, f.packed))
  }

  method ReadRecord(v: Vault, f: Front, source: StateReader<Octet>, index: nat)
    returns (r: Result<seq<Byte>>, record: seq<Octet>)
    requires source.Valid() && index * RECORD < f.packed
    modifies source`rest, source`chunk, source`offset, source`received
    ensures source.Valid()
    ensures r.Ok? ==>
      record + source.Left() == old(source.Left()) && |r.value| == Opened(index + 1, f.packed) - index * RECORD
    ensures r.Ok? ==>
      Remaining(v, f, old(source.Left()), index) == Join(r.value, Remaining(v, f, source.Left(), index + 1))
    ensures r.Err? ==>
      || (r.error == Cancelled && !source.calm)
      || (r.error == Corruption && (source.total > source.max || Remaining(v, f, old(source.Left()), index).None?))
  {
    ghost var body := source.Left();
    record := [];
    var going := Check(source.calm);
    if going.Err? {
      return Err(going.error), record;
    }
    var size := Min(RECORD, f.packed - index * RECORD) + OVERHEAD;
    var sealed := source.Read(size);
    if sealed.Err? {
      return Err(sealed.error), record;
    }
    record := sealed.value;
    assert record == body[..size] && source.Left() == body[size..];
    var plain := v.open(Context(f.text, index), record);
    if plain.None? || |plain.value| != size - OVERHEAD {
      return Err(Corruption), record;
    }
    r := Ok(plain.value);
  }

  lemma Regroup(sealed: seq<Octet>, record: seq<Octet>, left: seq<Octet>)
    ensures sealed + (record + left) == sealed + record + left
  {
  }

  // One piece of the pending plaintext goes on to the decompressor.
  method Feed(packed: seq<Byte>, pending: seq<Byte>, position: nat) returns (fed: seq<Byte>, kept: seq<Byte>, at: nat)
    requires position < |pending|
    ensures if |kept| > 0 then at < |kept| else at == 0
    ensures fed + kept[at..] == packed + pending[position..]
    ensures |kept| - at < |pending| - position
  {
    var end := Min(position + PIECE, |pending|);
    fed, kept, at := packed + pending[position..end], pending, end;
    assert fed + pending[end..] == packed + pending[position..];
    if at == |kept| {
      kept, at := [], 0;
    }
  }

  // The next record; `body` is what there was to read, `done` what it has given so far.
  method Refill(
    v: Vault, f: Front, source: StateReader<Octet>, index: nat, ghost body: seq<Octet>, ghost done: seq<Byte>,
    sealed: seq<Octet>)
    returns (r: Result<seq<Byte>>, record: seq<Octet>)
    requires source.Valid() && index * RECORD < f.packed && |done| == Opened(index, f.packed)
    requires Remaining(v, f, body, 0) == Join(done, Remaining(v, f, source.Left(), index))
      && sealed + source.Left() == body
    modifies source`rest, source`chunk, source`offset, source`received
    ensures source.Valid()
    ensures r.Ok? ==>
      |r.value| > 0 && |done + r.value| == Opened(index + 1, f.packed) && sealed + record + source.Left() == body
    ensures r.Ok? ==> Remaining(v, f, body, 0) == Join(done + r.value, Remaining(v, f, source.Left(), index + 1))
    ensures r.Err? ==>
      || (r.error == Cancelled && !source.calm)
      || (r.error == Corruption && (source.total > source.max || Remaining(v, f, body, 0).None?))
  {
    r, record := ReadRecord(v, f, source, index);
    if r.Ok? {
      Regroup(sealed, record, source.Left());
      JoinMore(done, r.value, Remaining(v, f, source.Left(), index + 1));
    }
  }

  lemma NewPieces(packed: seq<Byte>, used: seq<Byte>, pending: seq<Byte>)
    requires used == []
    ensures packed + used[0..] + pending == packed + pending[0..] && packed + used[0..] == packed
  {
  }

  // After the last record there must be nothing left.
  lemma AllRead(v: Vault, f: Front, body: seq<Octet>, packed: seq<Byte>, left: seq<Octet>, index: nat)
    requires Remaining(v, f, body, 0) == Join(packed, Remaining(v, f, left, index)) && index == Records(f.packed)
    ensures OpenFrom(v, f.text, body, 0, f.packed) == if left == [] then Some(packed) else None
  {
    assert packed + [] == packed;
  }

  /** The records, opened one after another and handed on in pieces. */
  method ReadRecords(v: Vault, f: Front, source: StateReader<Octet>) returns (r: Result<seq<Byte>>, sealed: seq<Octet>)
    requires source.Valid()
    requires source.total > source.max ==> OpenFrom(v, f.text, source.Left(), 0, f.packed).None?
    modifies source`rest, source`chunk, source`offset, source`received
    ensures (r == Err(Cancelled) && !source.calm) ||
      match OpenFrom(v, f.text, old(source.Left()), 0, f.packed)
      case None => r == Err(Corruption)
      case Some(packed) => r == Ok(packed) && sealed == old(source.Left())
  {
    ghost var body := source.Left();
    r, sealed := OpenRecords(v, f, source);
    if r.Ok? {
      AllRead(v, f, body, r.value, source.Left(), Records(f.packed));
      var done := source.End();
      if done.Err? {
        r := Err(done.error);
      }
    }
  }

  method OpenRecords(v: Vault, f: Front, source: StateReader<Octet>) returns (r: Result<seq<Byte>>, sealed: seq<Octet>)
    requires source.Valid()
    modifies source`rest, source`chunk, source`offset, source`received
    ensures source.Valid()
    ensures r.Ok? ==> sealed + source.Left() == old(source.Left())
    ensures r.Ok? ==>
      Remaining(v, f, old(source.Left()), 0) == Join(r.value, Remaining(v, f, source.Left(), Records(f.packed)))
    ensures r.Err? ==>
      || (r.error == Cancelled && !source.calm)
      || (r.error == Corruption && (source.total > source.max || Remaining(v, f, old(source.Left()), 0).None?))
  {
    ghost var body := source.Left();
    var records := Records(f.packed);
    var index: nat, position: nat := 0, 0;
    var pending, packed: seq<Byte> := [], [];
    sealed := [];
    ghost var plainText: seq<Byte> := [];
    JoinMore([], [], Remaining(v, f, body, 0));
    while |pending| > 0 || index != records
      invariant source.Valid() && index <= records && (if |pending| > 0 then position < |pending| else position == 0)
      invariant plainText == packed + pending[position..] && |plainText| == Opened(index, f.packed)
      invariant Remaining(v, f, body, 0) == Join(plainText, Remaining(v, f, source.Left(), index))
      invariant sealed + source.Left() == body
      decreases records - index, |pending| - position
    {
      if |pending| == 0 {
        var plain, record := Refill(v, f, source, index, body, plainText, sealed);
        if plain.Err? {
          return Err(plain.error), sealed;
        }
        sealed := sealed + record;
        NewPieces(packed, pending, plain.value);
        pending := plain.value;
        index := index + 1;
        plainText := plainText + pending;
      }
      packed, pending, position := Feed(packed, pending, position);
    }
    NewPieces(packed, pending, []);
    r := Ok(packed);
  }

  function Expected(c: Codec, raw: seq<Byte>, size: nat): Result<Decoded> {
    if |raw| != size then Err(Corruption)
    else match Sections(c, raw) case None => Err(Corruption) case Some(d) => Ok(d)
  }

  // The sections of the expanded data, read from the decompressor as it comes.
  method ReadSections(c: Codec, expanded: seq<seq<Byte>>, size: nat, calm: bool) returns (r: Result<Decoded>)
    requires 4 <= size
    ensures (r == Err(Cancelled) && !calm) || r == Expected(c, Flatten(expanded), size)
  {
    ghost var raw := Flatten(expanded);
    var source := new StateReader<Byte>(expanded, size, calm);
    var head := source.Read(4);
    if head.Err? {
      return Err(head.error);
    }
    var n := FromLE(head.value);
    if n > MAX_META || n + 4 > size {
      return Err(Corruption);
    }
    var text := source.Read(n);
    if text.Err? {
      return Err(text.error);
    }
    assert text.value == raw[4..4 + n] && source.Left() == raw[4..][n..];
    r := ReadAnnounced(c, source, raw, text.value, size);
  }

  // What follows the metadata, of which `text` is what was read.
  method ReadAnnounced(c: Codec, source: StateReader<Byte>, ghost raw: seq<Byte>, text: seq<Byte>, size: nat)
    returns (r: Result<Decoded>)
    requires source.Valid() && source.total == |raw| && source.max == size
    requires 4 + |text| <= |raw| && |text| == FromLE(raw[..4]) <= MAX_META && 4 + |text| <= size
    requires text == raw[4..4 + |text|] && source.Left() == raw[4..][|text|..]
    modifies source`rest, source`chunk, source`offset, source`received
    ensures (r == Err(Cancelled) && !source.calm) || r == Expected(c, raw, size)
  {
    var m := MetaOf(c, text, size);
    if m.None? {
      return Err(Corruption);
    }
    r := ReadBody(source, m.value);
    if |raw| == size {
      SectionSlices(raw, |text|, m.value.stateLength, m.value.overlayLength);
    }
  }

  method ReadBody(source: StateReader<Byte>, m: Meta) returns (r: Result<Decoded>)
    requires source.Valid() && m.stateLength >= 0 && m.overlayLength >= 0
    modifies source`rest, source`chunk, source`offset, source`received
    ensures r.Ok? ==> |old(source.Left())| == m.stateLength + m.overlayLength
    ensures r.Ok? ==> r.value == Decoded(m, old(source.Left())[..m.stateLength], old(source.Left())[m.stateLength..])
    ensures r.Err? ==>
      || (r.error == Cancelled && !source.calm)
      || (r.error == Corruption
          && (source.total > source.max || |old(source.Left())| != m.stateLength + m.overlayLength))
  {
    var state := source.Read(m.stateLength);
    if state.Err? {
      return Err(state.error);
    }
    var overlay := source.Read(m.overlayLength);
    if overlay.Err? {
      return Err(overlay.error);
    }
    var done := source.End();
    r := if done.Err? then Err(done.error) else Ok(Decoded(m, state.value, overlay.value));
  }

  lemma SectionSlices(raw: seq<Byte>, n: nat, state: nat, overlay: nat)
    requires 4 + n + state + overlay == |raw|
    ensures raw[4..][n..][..state] == raw[4 + n..4 + n + state] && raw[4..][n..][state..] == raw[4 + n + state..]
  {
  }

  /** `decodeState`: unless it is cancelled the outcome is that of the bytes, and calm
      it is not cancelled. The file comes as `chunks` and the decompressor hands out its
      output in pieces of `sizes`; `hashed` is everything fed to the state's digest. */
  method DecodeState(
    c: Codec, v: Vault, base: seq<Byte>, chunks: seq<seq<Octet>>, declared: Option<nat>, sizes: seq<nat>,
    calm: bool)
    returns (r: Result<Decoded>, hashed: seq<Octet>)
    ensures (r == Err(Cancelled) && !calm) ||
      match DecodeFile(c, v, base, Flatten(chunks), declared)
      case None => r == Err(Corruption)
      case Some(d) => r == Ok(d) && hashed == Flatten(chunks)
  {
    hashed := [];
    if !SizeOk(declared) {
      return Err(Corruption), hashed;
    }
    var source := new StateReader<Octet>(chunks, MAX_FILE, calm);
    var front, prefix := ReadFront(c, base, source);
    if front.Err? {
      TooLong(c, v, base, Flatten(chunks), declared);
      return Err(front.error), hashed;
    }
    var f := front.value;
    var expected := FileSize(f);
    if expected > MAX_FILE || (declared.Some? && declared.value != expected) {
      return Err(Corruption), hashed;
    }
    source.max := expected;
    WrongLength(v, f, source.Left());
    var packed, sealed := ReadRecords(v, f, source);
    if packed.Err? {
      return Err(packed.error), hashed;
    }
    hashed := prefix + sealed;
    var raw := c.unpack(packed.value);
    if raw.None? {
      return Err(Corruption), hashed;
    }
    r := ReadSections(c, Pieces(raw.value, sizes), f.raw, calm);
  }

  lemma WrongLength(v: Vault, f: Front, body: seq<Octet>)
    ensures |body| > BodySize(f.packed) ==> OpenFrom(v, f.text, body, 0, f.packed).None?
  {
    if OpenFrom(v, f.text, body, 0, f.packed).Some? {
      BodyLength(v, f.text, body, 0, f.packed, Records(f.packed));
    }
  }

  lemma TooLong(c: Codec, v: Vault, base: seq<Byte>, file: seq<Octet>, declared: Option<nat>)
    ensures |file| > MAX_FILE || FrontOf(c, base, file).None? ==> DecodeFile(c, v, base, file, declared).None?
  {
    if FrontOf(c, base, file).Some? {
      WrongLength(v, FrontOf(c, base, file).value, file[12 + |FrontOf(c, base, file).value.text|..]);
    }
  }

  // Gathering the compressor's output, which comes in pieces, within a limit.
  method Collect(pieces: seq<seq<Byte>>, max: nat, calm: bool) returns (r: Result<seq<Byte>>)
    ensures (r == Err(Cancelled) && !calm) ||
      r == if |Flatten(pieces)| <= max then Ok(Flatten(pieces)) else Err(Corruption)
  {
    var rest := pieces;
    var all: seq<Byte> := [];
    while rest != []
      invariant |all| <= max && all + Flatten(rest) == Flatten(pieces)
      decreases |rest|
    {
      var _ :- Check(calm);
      assert all + rest[0] + Flatten(rest[1..]) == all + (rest[0] + Flatten(rest[1..]));
      all := all + rest[0];
      if |all| > max {
        return Err(Corruption);
      }
      rest := rest[1..];
    }
    assert all + [] == all;
    r := Ok(all);
  }

  /** `encodeState`: unless it is cancelled the outcome is the specified file. */
  method EncodeState(
    c: Codec, v: Vault, base: seq<Byte>, nonce: seq<Byte>, salts: seq<seq<Octet>>, info: Info,
    state: seq<Byte>, overlay: seq<Byte>, sizes: seq<nat>, calm: bool)
    returns (r: Result<seq<Octet>>)
    requires SaltsFor(salts, LIMIT)
    ensures (r == Err(Cancelled) && !calm) || r == EncodeFile(c, v, base, nonce, salts, info, state, overlay)
  {
    if |state| == 0 || |state| > LIMIT {
      return Err(Corruption);
    }
    var meta := c.writeMeta(Meta(info, |state|, |overlay|));
    if |meta| > MAX_META {
      return Err(Corruption);
    }
    var raw := RawData(meta, state, overlay);
    if |raw| > LIMIT {
      return Err(Corruption);
    }
    var compressed := Collect(Pieces(c.pack(raw), sizes), LIMIT, calm);
    if compressed.Err? {
      return Err(compressed.error);
    }
    var packed := compressed.value;
    var header := HeaderText(base, nonce, |raw|, |packed|);
    var sealed := SealRecords(v, header, packed, salts[..Records(|packed|)], calm);
    if sealed.Err? {
      return Err(sealed.error);
    }
    r := Ok(Lift(Prefix(header) + header) + sealed.value);
  }

  method SealRecords(
    v: Vault, header: seq<Byte>, packed: seq<Byte>, salts: seq<seq<Octet>>, calm: bool)
    returns (r: Result<seq<Octet>>)
    requires SaltsFor(salts, |packed|)
    ensures (r == Err(Cancelled) && !calm) || r == Ok(SealFrom(v, header, packed, 0, salts))
  {
    ghost var all := SealFrom(v, header, packed, 0, salts);
    var sealed: seq<Octet> := [];
    var offset, index := 0, 0;
    assert salts[0..] == salts && packed[0..] == packed && [] + all == all;
    while offset < |packed|
      invariant offset <= |packed| && offset == Min(index * RECORD, |packed|) && index <= |salts|
      invariant SaltsFor(salts[index..], |packed| - offset)
      invariant sealed + SealFrom(v, header, packed[offset..], index, salts[index..]) == all
      decreases |packed| - offset
    {
      var _ :- Check(calm);
      var end := Min(offset + RECORD, |packed|);
      var record := v.seal(Context(header, index), packed[offset..end], salts[index]);
      SealStep(v, header, packed, offset, index, salts[index..], sealed);
      assert salts[index..][1..] == salts[index + 1..];
      sealed := sealed + record;
      offset, index := end, index + 1;
    }
    assert sealed + [] == sealed;
    r := Ok(sealed);
  }

  lemma SealStep(
    v: Vault, header: seq<Byte>, packed: seq<Byte>, offset: nat, index: nat, salts: seq<seq<Octet>>,
    sealed: seq<Octet>)
    requires offset < |packed| && SaltsFor(salts, |packed| - offset)
    ensures var end := Min(offset + RECORD, |packed|);
      && SaltsFor(salts[1..], |packed| - end)
      && sealed + SealFrom(v, header, packed[offset..], index, salts) ==
         sealed + v.seal(Context(header, index), packed[offset..end], salts[0]) +
         SealFrom(v, header, packed[end..], index + 1, salts[1..])
  {
    var n := Min(RECORD, |packed| - offset);
    assert packed[offset..][..n] == packed[offset..offset + n] && packed[offset..][n..] == packed[offset + n..];
  }
}
