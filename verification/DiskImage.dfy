/** An open disk image of src/disk/src/lib.rs: reading, and staging a write. Every
    look at the outside world may fail or be cancelled. */
module DiskImage {
  import opened Octets
  import opened Envelope
  import opened DiskHeader
  import opened DiskView
  import C = ChunkCache
  import SectorCodec

  type Source = nat

  // The source table while one operation runs: encrypted files, and plain images to
  // import. A calm operation is not cancelled and its reads do not fail.
  datatype Io = Io(files: map<Source, seq<Octet>>, raws: map<Source, seq<Byte>>, calm: bool) {
    // Reading from this source cannot fail.
    predicate Sure(source: Source) { calm && source in files }

    // Sources are immutable: what the table offers under a name never changes.
    predicate Serves(source: Source, content: seq<Octet>) {
      source in files ==> files[source] == content
    }

    predicate ServesRaw(source: Source, content: seq<Byte>) {
      source in raws ==> raws[source] == content
    }
  }

  // The host's answer: an error, or true bytes, possibly fewer than asked for.
  method HostRead<T>(table: map<Source, seq<T>>, calm: bool, source: Source, offset: nat, length: nat)
    returns (r: Result<seq<T>>)
    ensures r.Ok? ==> source in table && offset + |r.value| <= |table[source]|
    ensures r.Ok? ==> r.value == table[source][offset..offset + |r.value|]
    ensures r.Err? ==> r.error == IoError
    ensures calm && source in table && offset + length <= |table[source]| ==> r.Ok? && |r.value| == length
  {
    var fails: bool, short: nat := *, *;
    if (fails && !calm) || source !in table || offset + length > |table[source]| {
      return Err(IoError);
    }
    r := Ok(table[source][offset..offset + if short < length && !calm then short else length]);
  }

  method Exact<T>(table: map<Source, seq<T>>, calm: bool, source: Source, offset: nat, length: nat)
    returns (r: Result<seq<T>>)
    ensures r.Ok? ==> source in table && offset + length <= |table[source]|
    ensures r.Ok? ==> r.value == table[source][offset..offset + length]
    ensures r.Err? ==> r.error == Cancelled || r.error == IoError
    ensures calm && source in table && offset + length <= |table[source]| ==> r.Ok?
  {
    var _ :- Check(calm);
    var b :- HostRead(table, calm, source, offset, length);
    var _ :- Check(calm);
    if |b| != length {
      return Err(IoError);
    }
    r := Ok(b);
  }

  method Random(n: nat, calm: bool) returns (r: Result<seq<Byte>>)
    ensures r.Ok? ==> |r.value| == n
    ensures calm ==> r.Ok?
  {
    var unavailable: bool := *;
    if unavailable && !calm {
      return Err(Operation);
    }
    var b := [];
    while |b| < n
      invariant |b| <= n
    {
      var x: Byte := *;
      b := b + [x];
    }
    r := Ok(b);
  }

  method CopyInto(out: array<Byte>, at: nat, bytes: seq<Byte>)
    requires at + |bytes| <= out.Length
    modifies out
    ensures forall k :: at <= k < at + |bytes| ==> out[k] == bytes[k - at]
    ensures forall k :: 0 <= k < out.Length && !(at <= k < at + |bytes|) ==> out[k] == old(out[k])
  {
    forall i | 0 <= i < |bytes| {
      out[at + i] := bytes[i];
    }
  }

  /** The part of one sector a write cursor fills next. */
  lemma SectorStep(pos: nat, size: nat, left: nat, n: nat)
    requires 0 < left && pos + left <= size
    requires var start := pos / SECTOR * SECTOR; n == Min(Min(size - start, SECTOR) - (pos - start), left)
    ensures 0 < n && (pos + n - 1) / SECTOR == pos / SECTOR
    ensures n < left ==> (pos + n) % SECTOR == 0
  {
  }

  class Image {
    const source: Source
    const size: nat
    const disk: Disk
    ghost const content: seq<Octet>
    // What the file shows, worked out once; the field keeps decryption out of
    // the reasoning about offsets.
    ghost const base: View
    var dirty: Sectors
    var cache: C.Cache

    constructor (source: Source, ghost content: seq<Octet>, size: nat, disk: Disk, dirty: Sectors)
      requires 0 < size <= MAX_SIZE && disk.Valid() && WellFormed(dirty, size)
      ensures Valid() && fresh(cache)
      ensures this.source == source && this.content == content && this.size == size && this.disk == disk
      ensures this.dirty == dirty && base == FileView(Medium(content, disk, size))
    {
      this.source, this.content, this.size, this.disk := source, content, size, disk;
      base := FileView(Medium(content, disk, size));
      this.dirty := dirty;
      cache := new C.Cache();
    }

    ghost predicate BaseTrue() {
      var m := Medium(content, disk, size);
      |base| == size && forall p {:trigger BaseAt(m, p)} :: 0 <= p < size ==> base[p] == BaseAt(m, p)
    }

    // The bytes `b` are the whole chunk `k` of the file.
    ghost predicate IsChunk(k: nat, b: seq<Byte>) {
      k * CHUNK < size && |b| == ChunkLength(size, k) && Shows(b, base, k * CHUNK)
    }

    ghost predicate Valid()
      reads this, cache
    {
      && 0 < size <= MAX_SIZE && disk.Valid()
      && BaseTrue()
      && WellFormed(dirty, size)
      && cache.Valid()
      && forall k :: k in cache.values ==> IsChunk(k, cache.values[k].bytes)
    }

    lemma ChunkOfFile(k: nat, b: seq<Byte>)
      requires BaseTrue() && k * CHUNK < size && ChunkText(Medium(content, disk, size), k) == Some(b)
      ensures IsChunk(k, b)
    {
      var m := Medium(content, disk, size);
      forall i | 0 <= i < |b|
        ensures base[k * CHUNK + i] == Some(b[i])
      {
        var p := k * CHUNK + i;
        assert p / CHUNK == k && p % CHUNK == i;
        assert base[p] == BaseAt(m, p);
      }
    }

    // No byte of chunk `k` can be told: its record is not authentic.
    ghost predicate Damaged(k: nat) {
      |base| == size && k * CHUNK < size && forall p: nat :: p < size && p / CHUNK == k ==> base[p].None?
    }

    lemma NotAChunk(k: nat)
      requires BaseTrue() && k * CHUNK < size && ChunkText(Medium(content, disk, size), k).None?
      ensures Damaged(k)
    {
      var m := Medium(content, disk, size);
      forall p: nat | p < size && p / CHUNK == k
        ensures base[p].None?
      {
        assert base[p] == BaseAt(m, p);
      }
    }

    // Images of the same file, disk and size show the same bytes.
    lemma SameBase(that: Image)
      requires BaseTrue() && that.BaseTrue()
      requires content == that.content && disk == that.disk && size == that.size
      ensures base == that.base
    {
      var m := Medium(content, disk, size);
      forall p | 0 <= p < size
        ensures base[p] == that.base[p]
      {
        assert base[p] == BaseAt(m, p);
      }
    }

    predicate InBounds(offset: nat, len: nat) { offset <= size && len <= size - offset }

    // The uncached half of `original`.
    method Fetch(io: Io, index: nat) returns (r: Result<seq<Byte>>)
      requires Valid() && io.Serves(source, content) && index * CHUNK < size
      ensures r.Ok? ==> IsChunk(index, r.value)
      ensures r.Err? ==> r.error == Cancelled || r.error == IoError || (r.error == Corruption && Damaged(index))
      ensures r.Err? && io.Sure(source) ==> Damaged(index)
    {
      var len := Min(size - index * CHUNK, CHUNK);
      var got := Exact(io.files, io.calm, source, ChunkOffset(index), len + OVERHEAD);
      if got.Err? {
        if io.Sure(source) {
          NotAChunk(index);
        }
        return Err(got.error);
      }
      var enc := got.value;
      var plain := OpenUnit(disk, index, enc);
      if plain.Err? {
        NotAChunk(index);
        return Err(Corruption);
      }
      if |plain.value| != len {
        return Err(Corruption);
      }
      ChunkOfFile(index, plain.value);
      r := plain;
    }

    method Original(io: Io, index: nat) returns (r: Result<seq<Byte>>)
      requires Valid() && io.Serves(source, content)
      modifies cache
      ensures Valid()
      ensures r.Ok? ==> IsChunk(index, r.value)
      ensures index * CHUNK >= size ==> r.Err?
      ensures r.Err? && index * CHUNK < size ==>
        r.error == Cancelled || r.error == IoError || (r.error == Corruption && Damaged(index))
      ensures r.Err? && index * CHUNK < size && io.Sure(source) ==> Damaged(index)
    {
      var _ :- Check(io.calm);
      var hit := cache.Get(index);
      if hit.Some? {
        return Ok(hit.value);
      }
      var start := index * CHUNK;
      if start >= 0x1_0000_0000_0000_0000 {
        return Err(Corruption);
      }
      if start >= size {
        return Err(IoError);
      }
      var b :- Fetch(io, index);
      cache.Put(index, b);
      r := Ok(b);
    }

    // Some byte of the range can be neither told from the file nor from a dirty sector.
    ghost predicate Lost(offset: nat, len: nat)
      requires WellFormed(dirty, |base|)
      reads this
    {
      exists p: nat :: offset <= p < offset + len && p < |base| && At(base, dirty, p).None?
    }

    method Read(io: Io, offset: nat, len: nat) returns (r: Result<seq<Byte>>)
      requires Valid() && io.Serves(source, content)
      modifies cache
      ensures Valid()
      ensures r.Ok? ==> |r.value| == len && Shows(r.value, Flat(base, dirty), offset)
      ensures !InBounds(offset, len) ==> r == Err(IoError)
      ensures r.Err? ==> r.error == Cancelled || r.error == IoError || r.error == Corruption
      ensures r == Err(Corruption) ==> Lost(offset, len)
      ensures r.Err? && io.Sure(source) ==> !Told(Flat(base, dirty), offset, len)
    {
      if !InBounds(offset, len) {
        return Err(IoError);
      }
      var out := new Byte[len](i => 0);
      var done := 0;
      while done < len
        invariant 0 <= done <= len
        invariant Valid()
        invariant forall i :: 0 <= i < done ==> At(base, dirty, offset + i) == Some(out[i])
        decreases len - done
      {
        var _ :- Check(io.calm);
        var pos := offset + done;
        var sector: nat := pos / SECTOR;
        var inside := pos % SECTOR;
        if sector in dirty {
          var n := Min(SECTOR - inside, len - done);
          FromSector(out, done, pos, n);
          done := done + n;
        } else {
          var end := Min(CHUNK - pos % CHUNK, len - done);
          var _ :- FromChunk(io, out, done, pos, end);
          done := done + end;
        }
      }
      r := Ok(out[..]);
    }

    // One dirty sector supplies the next bytes of the view.
    lemma SectorSpan(pos: nat, piece: seq<Byte>)
      requires Valid() && pos / SECTOR in dirty && pos % SECTOR + |piece| <= |dirty[pos / SECTOR]|
      requires piece == dirty[pos / SECTOR][pos % SECTOR..pos % SECTOR + |piece|]
      ensures pos + |piece| <= size
      ensures forall i :: 0 <= i < |piece| ==> At(base, dirty, pos + i) == Some(piece[i])
    {
      var s: nat := pos / SECTOR;
      assert |dirty[s]| == Min(size - s * SECTOR, SECTOR);
      forall i | 0 <= i < |piece|
        ensures At(base, dirty, pos + i) == Some(piece[i])
      {
        assert (pos + i) / SECTOR == s && (pos + i) % SECTOR == pos % SECTOR + i;
      }
    }

    // The same, by the place of the bytes in the sector.
    lemma SectorPart(s: nat, a: nat, z: nat, piece: seq<Byte>)
      requires Valid() && s in dirty && s * SECTOR <= a < z <= s * SECTOR + |dirty[s]|
      requires piece == dirty[s][a - s * SECTOR..z - s * SECTOR]
      ensures forall p: nat :: a <= p < z ==> p < size && At(base, dirty, p) == Some(piece[p - a])
    {
      assert |dirty[s]| == Min(size - s * SECTOR, SECTOR);
      assert a / SECTOR == s && a % SECTOR == a - s * SECTOR;
      SectorSpan(a, piece);
      forall p: nat | a <= p < z
        ensures At(base, dirty, p) == Some(piece[p - a])
      {
        assert At(base, dirty, a + (p - a)) == Some(piece[p - a]);
      }
    }

    // Where a span and a sector overlap.
    static lemma Overlap(p: nat, pos: nat, top: nat, s: nat, n: nat)
      requires pos <= p < top && n <= SECTOR && (n == SECTOR || top <= s * SECTOR + n)
      ensures p / SECTOR == s <==>
        (if s * SECTOR > pos then s * SECTOR else pos) <= p < Min(s * SECTOR + n, top)
    {
    }

    // One chunk supplies the next bytes of the file.
    lemma ChunkSpan(pos: nat, b: seq<Byte>, piece: seq<Byte>)
      requires Valid() && IsChunk(pos / CHUNK, b) && pos % CHUNK + |piece| <= |b|
      requires piece == b[pos % CHUNK..pos % CHUNK + |piece|]
      ensures pos + |piece| <= size
      ensures forall i :: 0 <= i < |piece| ==> base[pos + i] == Some(piece[i])
    {
      forall i | 0 <= i < |piece|
        ensures base[pos + i] == Some(piece[i])
      {
        assert base[pos / CHUNK * CHUNK + (pos % CHUNK + i)] == Some(b[pos % CHUNK + i]);
      }
    }

    method FromSector(out: array<Byte>, done: nat, pos: nat, n: nat)
      requires Valid() && pos / SECTOR in dirty && pos % SECTOR + n <= SECTOR && pos + n <= size
        && done + n <= out.Length
      modifies out
      ensures forall k :: done <= k < done + n ==> At(base, dirty, pos + (k - done)) == Some(out[k])
      ensures forall k :: 0 <= k < out.Length && !(done <= k < done + n) ==> out[k] == old(out[k])
    {
      var inside, bytes := pos % SECTOR, dirty[pos / SECTOR];
      assert |bytes| == Min(size - pos / SECTOR * SECTOR, SECTOR);
      SectorSpan(pos, bytes[inside..inside + n]);
      CopyInto(out, done, bytes[inside..inside + n]);
    }

    method FromChunk(io: Io, out: array<Byte>, done: nat, pos: nat, end: nat) returns (r: Result<()>)
      requires Valid() && io.Serves(source, content)
      requires 0 < end && pos % CHUNK + end <= CHUNK && pos + end <= size && done + end <= out.Length
      requires pos / SECTOR !in dirty
      modifies cache, out
      ensures Valid()
      ensures r.Err? ==>
        r.error == Cancelled || r.error == IoError || (r.error == Corruption && At(base, dirty, pos).None?)
      ensures r.Err? && io.Sure(source) ==> At(base, dirty, pos).None?
      ensures r.Ok? ==> forall k :: done <= k < done + end ==> At(base, dirty, pos + (k - done)) == Some(out[k])
      ensures forall k :: 0 <= k < out.Length && !(done <= k < done + end) ==> out[k] == old(out[k])
    {
      var b :- Original(io, pos / CHUNK);
      var inner := pos % CHUNK;
      ChunkSpan(pos, b, b[inner..inner + end]);
      CopyInto(out, done, b[inner..inner + end]);
      Overlay(out, done, pos, end);
      r := Ok(());
    }

    /** Lays the dirty sectors of a span over bytes of the file. */
    method Overlay(out: array<Byte>, done: nat, pos: nat, end: nat)
      requires Valid() && 0 < end && done + end <= out.Length && pos + end <= size
      requires forall k :: done <= k < done + end ==> base[pos + (k - done)] == Some(out[k])
      modifies out
      ensures forall k :: done <= k < done + end ==> At(base, dirty, pos + (k - done)) == Some(out[k])
      ensures forall k :: 0 <= k < out.Length && !(done <= k < done + end) ==> out[k] == old(out[k])
    {
      var sector: nat, last: nat := pos / SECTOR, (pos + end - 1) / SECTOR;
      for s := sector to last + 1
        invariant forall k :: 0 <= k < out.Length && !(done <= k < done + end) ==> out[k] == old(out[k])
        invariant forall k :: done <= k < done + end && (pos + (k - done)) / SECTOR < s ==>
          At(base, dirty, pos + (k - done)) == Some(out[k])
        invariant forall k :: done <= k < done + end && (pos + (k - done)) / SECTOR >= s ==>
          base[pos + (k - done)] == Some(out[k])
      {
        if s in dirty {
          OverlaySector(out, done, pos, end, s);
        }
      }
    }

    method OverlaySector(out: array<Byte>, done: nat, pos: nat, end: nat, s: nat)
      requires Valid() && done + end <= out.Length && pos + end <= size && s in dirty
      requires pos / SECTOR <= s && s * SECTOR < pos + end
      modifies out
      ensures forall k :: done <= k < done + end && (pos + (k - done)) / SECTOR == s ==>
        At(base, dirty, pos + (k - done)) == Some(out[k])
      ensures forall k :: 0 <= k < out.Length && !(done <= k < done + end && (pos + (k - done)) / SECTOR == s) ==>
        out[k] == old(out[k])
    {
      var bytes := dirty[s];
      assert |bytes| == Min(size - s * SECTOR, SECTOR);
      var a := if s * SECTOR > pos then s * SECTOR else pos;
      var z := Min(s * SECTOR + |bytes|, pos + end);
      if z > a {
        var piece := bytes[a - s * SECTOR..z - s * SECTOR];
        SectorPart(s, a, z, piece);
        CopyInto(out, done + (a - pos), piece);
      }
      forall k | 0 <= k < out.Length
        ensures done <= k < done + end && (pos + (k - done)) / SECTOR == s ==>
          At(base, dirty, pos + (k - done)) == Some(out[k])
        ensures !(done <= k < done + end && (pos + (k - done)) / SECTOR == s) ==> out[k] == old(out[k])
      {
        if done <= k < done + end {
          Overlap(pos + (k - done), pos, pos + end, s, |bytes|);
        }
      }
    }

    static ghost predicate StagedAt(base: View, dirty: Sectors, staged: Sectors, offset: nat, bytes: seq<Byte>, p: nat)
      requires WellFormed(dirty, |base|) && WellFormed(staged, |base|) && p < |base| && p / SECTOR in staged
    {
      Some(staged[p / SECTOR][p % SECTOR]) == if offset <= p < offset + |bytes| then Some(bytes[p - offset])
        else At(base, dirty, p)
    }

    // The sectors a write of `bytes` replaces, up to its first `done` bytes: each
    // holds the new bytes where the write falls and the old view elsewhere.
    static ghost predicate Staged(base: View, dirty: Sectors, staged: Sectors, offset: nat, bytes: seq<Byte>, done: nat)
      requires WellFormed(dirty, |base|)
    {
      && WellFormed(staged, |base|)
      && (forall s: nat :: s in staged <==> Touched(offset, done, s))
      && forall p: nat :: p < |base| && p / SECTOR in staged ==> StagedAt(base, dirty, staged, offset, bytes, p)
    }

    /** The loop of `write`: nothing is stored until every sector is ready. */
    method Stage(io: Io, offset: nat, bytes: seq<Byte>) returns (r: Result<Sectors>)
      requires Valid() && io.Serves(source, content) && InBounds(offset, |bytes|)
      modifies cache
      ensures Valid()
      ensures r.Ok? ==> Staged(base, dirty, r.value, offset, bytes, |bytes|)
      ensures r.Ok? ==> Edges(Flat(base, dirty), offset, |bytes|)
      ensures r.Err? && io.Sure(source) ==> !Edges(Flat(base, dirty), offset, |bytes|)
    {
      var staged: Sectors := map[];
      var done := 0;
      while done < |bytes|
        invariant 0 <= done <= |bytes|
        invariant Valid() && Staged(base, dirty, staged, offset, bytes, done)
        invariant 0 < done < |bytes| ==> (offset + done) % SECTOR == 0
        decreases |bytes| - done
      {
        var _ :- Check(io.calm);
        var pos := offset + done;
        var sector: nat := pos / SECTOR;
        var start := sector * SECTOR;
        var actual := Min(size - start, SECTOR);
        var inside := pos - start;
        var n := Min(actual - inside, |bytes| - done);
        var prepared := StageSector(io, start, actual, inside, bytes[done..done + n]);
        if prepared.Err? {
          if io.Sure(source) {
            EdgeLost(offset, |bytes|, done, n, start, actual);
          }
          return Err(prepared.error);
        }
        var value := prepared.value;
        StagedNext(staged, offset, bytes, done, n, sector, value);
        staged, done := staged[sector := value], done + n;
      }
      StagedEdges(staged, offset, bytes);
      r := Ok(staged);
    }

    lemma StagedEdges(staged: Sectors, offset: nat, bytes: seq<Byte>)
      requires Valid() && Staged(base, dirty, staged, offset, bytes, |bytes|)
      ensures Edges(Flat(base, dirty), offset, |bytes|)
    {
      forall p: nat | p < |base| && Touched(offset, |bytes|, p / SECTOR) && !(offset <= p < offset + |bytes|)
        ensures Flat(base, dirty)[p].Some?
      {
        assert StagedAt(base, dirty, staged, offset, bytes, p);
      }
    }

    // A sector is lost as a whole or not at all.
    lemma LostSector(p: nat, q: nat)
      requires Valid() && p < size && q < size && p / SECTOR == q / SECTOR && At(base, dirty, q).None?
      ensures At(base, dirty, p).None?
    {
      var m := Medium(content, disk, size);
      assert p / CHUNK == q / CHUNK;
      assert base[p] == BaseAt(m, p) && base[q] == BaseAt(m, q);
    }

    // A sector that is needed in part and cannot be read has a byte that was to stay.
    lemma EdgeLost(offset: nat, len: nat, done: nat, n: nat, start: nat, actual: nat)
      requires Valid() && InBounds(offset, len) && done < len && (0 < done ==> (offset + done) % SECTOR == 0)
      requires start == (offset + done) / SECTOR * SECTOR && actual == Min(size - start, SECTOR)
      requires n == Min(actual - (offset + done - start), len - done)
      requires !(offset + done == start && n == actual) && !Told(Flat(base, dirty), start, actual)
      ensures !Edges(Flat(base, dirty), offset, len)
    {
      var q: nat :| start <= q < start + actual && Flat(base, dirty)[q].None?;
      var p := EdgeByte(offset, len, done, n, start, actual);
      InSector((offset + done) / SECTOR, p);
      InSector((offset + done) / SECTOR, q);
      LostSector(p, q);
      TouchedHere(offset, len, done);
    }

    static lemma InSector(s: nat, p: nat)
      requires s * SECTOR <= p < s * SECTOR + SECTOR
      ensures p / SECTOR == s
    {
    }

    // A byte of the sector that the write leaves alone.
    static lemma EdgeByte(offset: nat, len: nat, done: nat, n: nat, start: nat, actual: nat) returns (p: nat)
      requires done < len && (0 < done ==> (offset + done) % SECTOR == 0) && start == (offset + done) / SECTOR * SECTOR
      requires offset + done - start < actual && n == Min(actual - (offset + done - start), len - done)
      requires !(offset + done == start && n == actual)
      ensures start <= p < start + actual && !(offset <= p < offset + len)
    {
      p := if offset + done > start then start else start + n;
    }

    lemma TouchedHere(offset: nat, len: nat, done: nat)
      requires done < len
      ensures Touched(offset, len, (offset + done) / SECTOR)
    {
    }

    // The new content of one sector.
    static ghost predicate SectorOf(
      base: View, dirty: Sectors, value: seq<Byte>, start: nat, inside: nat, piece: seq<Byte>)
      requires WellFormed(dirty, |base|)
    {
      && start + |value| <= |base|
      && forall j :: 0 <= j < |value| ==>
        Some(value[j]) == if inside <= j < inside + |piece| then Some(piece[j - inside]) else At(base, dirty, start + j)
    }

    method StageSector(io: Io, start: nat, actual: nat, inside: nat, piece: seq<Byte>) returns (r: Result<seq<Byte>>)
      requires Valid() && io.Serves(source, content)
      requires start + actual <= size && inside + |piece| <= actual
      modifies cache
      ensures Valid()
      ensures r.Ok? ==> |r.value| == actual && SectorOf(base, dirty, r.value, start, inside, piece)
      ensures r.Err? ==> !(inside == 0 && |piece| == actual)
      ensures r.Err? && io.Sure(source) ==> !Told(Flat(base, dirty), start, actual)
    {
      var value := seq(actual, i => 0);
      if !(inside == 0 && |piece| == actual) {
        value :- Read(io, start, actual);
      }
      r := Ok(value[..inside] + piece + value[inside + |piece|..]);
    }

    lemma StagedNext(staged: Sectors, offset: nat, bytes: seq<Byte>, done: nat, n: nat, sector: nat, value: seq<Byte>)
      requires Valid() && InBounds(offset, |bytes|) && Staged(base, dirty, staged, offset, bytes, done)
      requires done < |bytes| && (0 < done ==> (offset + done) % SECTOR == 0) && sector == (offset + done) / SECTOR
      requires |value| == Min(size - sector * SECTOR, SECTOR)
      requires n == Min(|value| - (offset + done - sector * SECTOR), |bytes| - done)
      requires SectorOf(base, dirty, value, sector * SECTOR, offset + done - sector * SECTOR, bytes[done..done + n])
      ensures 0 < n && (done + n < |bytes| ==> (offset + done + n) % SECTOR == 0)
      ensures Staged(base, dirty, staged[sector := value], offset, bytes, done + n)
    {
      var staged' := staged[sector := value];
      SectorStep(offset + done, size, |bytes| - done, n);
      StagedSectors(staged, offset, bytes, done, n, sector, value);
      StagedRange(offset, done, n, sector);
    }

    // The new sector is right, and those before it stay so.
    lemma StagedSectors(
      staged: Sectors, offset: nat, bytes: seq<Byte>, done: nat, n: nat, sector: nat, value: seq<Byte>)
      requires Valid() && InBounds(offset, |bytes|) && Staged(base, dirty, staged, offset, bytes, done)
        && done + n <= |bytes|
      requires (0 < done ==> (offset + done) % SECTOR == 0) && sector == (offset + done) / SECTOR
        && sector * SECTOR < size
      requires |value| == Min(size - sector * SECTOR, SECTOR)
      requires n == Min(|value| - (offset + done - sector * SECTOR), |bytes| - done)
      requires SectorOf(base, dirty, value, sector * SECTOR, offset + done - sector * SECTOR, bytes[done..done + n])
      ensures var staged' := staged[sector := value];
        && WellFormed(staged', |base|)
        && forall p: nat :: p < |base| && p / SECTOR in staged' ==> StagedAt(base, dirty, staged', offset, bytes, p)
    {
      var staged' := staged[sector := value];
      forall p: nat | p < |base| && p / SECTOR in staged'
        ensures StagedAt(base, dirty, staged', offset, bytes, p)
      {
        if p / SECTOR == sector {
          NewSectorAt(staged', offset, bytes, done, n, p);
        } else {
          assert StagedAt(base, dirty, staged, offset, bytes, p);
        }
      }
    }

    // The sectors touched up to the end of this step: those before, and this one.
    lemma StagedRange(offset: nat, done: nat, n: nat, sector: nat)
      requires sector == (offset + done) / SECTOR == (offset + done + n - 1) / SECTOR && 0 < n
      requires 0 < done ==> (offset + done) % SECTOR == 0
      ensures forall s: nat :: Touched(offset, done + n, s) <==> s == sector || Touched(offset, done, s)
    {
      forall s: nat
        ensures Touched(offset, done + n, s) <==> s == sector || Touched(offset, done, s)
      {
        var last := (offset + done + n - 1) / SECTOR;
        assert offset / SECTOR <= last == sector;
        if 0 < done {
          assert (offset + done - 1) / SECTOR == sector - 1;
        } else {
          assert offset / SECTOR == sector;
        }
      }
    }

    lemma NewSectorAt(staged: Sectors, offset: nat, bytes: seq<Byte>, done: nat, n: nat, p: nat)
      requires Valid() && InBounds(offset, |bytes|) && WellFormed(staged, |base|) && done + n <= |bytes|
      requires p < |base| && p / SECTOR == (offset + done) / SECTOR && p / SECTOR in staged
      requires 0 < done ==> (offset + done) % SECTOR == 0
      requires var start := p / SECTOR * SECTOR; var value := staged[p / SECTOR];
        && SectorOf(base, dirty, value, start, offset + done - start, bytes[done..done + n])
        && n == Min(|value| - (offset + done - start), |bytes| - done)
      ensures StagedAt(base, dirty, staged, offset, bytes, p)
    {
      var start := p / SECTOR * SECTOR;
      var j := p - start;
      assert |staged[p / SECTOR]| == Min(|base| - start, SECTOR);
      assert Some(staged[p / SECTOR][j]) == if offset + done - start <= j < offset + done - start + n
        then Some(bytes[done..done + n][j - (offset + done - start)]) else At(base, dirty, start + j);
    }

    lemma StagedSplices(staged: Sectors, offset: nat, bytes: seq<Byte>)
      requires Valid() && InBounds(offset, |bytes|) && Staged(base, dirty, staged, offset, bytes, |bytes|)
      ensures WellFormed(dirty + staged, |base|)
      ensures Flat(base, dirty + staged) == Splice(Flat(base, dirty), offset, bytes)
    {
      var v := Splice(Flat(base, dirty), offset, bytes);
      forall p: nat | p < |base|
        ensures At(base, dirty + staged, p) == v[p]
      {
        if offset <= p < offset + |bytes| {
          assert v[offset + (p - offset)] == Some(bytes[p - offset]);
          assert p / SECTOR in staged;
        }
        assert p / SECTOR in staged ==> StagedAt(base, dirty, staged, offset, bytes, p);
      }
    }

    static ghost predicate SameAt(base: View, dirty: Sectors, p: nat)
      requires WellFormed(dirty, |base|) && p < |base|
    {
      At(base, dirty, p) == base[p]
    }

    // One byte of a dirty sector against the chunk underneath it.
    lemma ByteAgainst(sector: nat, original: seq<Byte>, p: nat)
      requires Valid() && sector in dirty && IsChunk(sector / 128, original) && p < size && p / SECTOR == sector
      ensures p % SECTOR < |dirty[sector]| && sector % 128 * SECTOR + |dirty[sector]| <= |original|
      ensures SameAt(base, dirty, p) <==> original[sector % 128 * SECTOR + p % SECTOR] == dirty[sector][p % SECTOR]
    {
      var i := sector % 128 * SECTOR + p % SECTOR;
      assert |dirty[sector]| == Min(size - sector * SECTOR, SECTOR);
      assert sector / 128 * CHUNK + i == p;
      assert base[sector / 128 * CHUNK + i] == Some(original[i]);
    }

    // A dirty sector against the chunk underneath it.
    lemma SectorAgainst(sector: nat, original: seq<Byte>)
      requires Valid() && sector in dirty && IsChunk(sector / 128, original)
      ensures var inside := sector % 128 * SECTOR; var bytes := dirty[sector];
        && inside + |bytes| <= |original|
        && (original[inside..inside + |bytes|] == bytes <==>
          forall p: nat :: p < size && p / SECTOR == sector ==> SameAt(base, dirty, p))
    {
      var inside, bytes := sector % 128 * SECTOR, dirty[sector];
      assert |bytes| == Min(size - sector * SECTOR, SECTOR);
      ByteAgainst(sector, original, sector * SECTOR);
      var piece := original[inside..inside + |bytes|];
      forall p: nat | p < size && p / SECTOR == sector
        ensures p % SECTOR < |bytes| && (SameAt(base, dirty, p) <==> piece[p % SECTOR] == bytes[p % SECTOR])
      {
        ByteAgainst(sector, original, p);
      }
      if piece != bytes {
        var j :| 0 <= j < |bytes| && piece[j] != bytes[j];
        var p := sector * SECTOR + j;
        assert p / SECTOR == sector && p % SECTOR == j;
      }
    }

    // The sectors compared so far, all of them but `rest`, agree with the file.
    static ghost predicate Agree(base: View, dirty: Sectors, rest: Sectors)
      requires WellFormed(dirty, |base|)
    {
      forall p: nat :: p < |base| && p / SECTOR in dirty && p / SECTOR !in rest ==> SameAt(base, dirty, p)
    }

    lemma AgreeNext(rest: Sectors, k: nat, same: bool)
      requires WellFormed(dirty, |base|) && k in rest && k in dirty
      requires same <==> forall p: nat :: p < |base| && p / SECTOR == k ==> SameAt(base, dirty, p)
      ensures Agree(base, dirty, rest - {k}) <==> Agree(base, dirty, rest) && same
    {
      if Agree(base, dirty, rest) && same {
        forall p: nat | p < |base| && p / SECTOR in dirty && p / SECTOR !in rest - {k}
          ensures SameAt(base, dirty, p)
        {
        }
      }
    }

    lemma CompareNext(rest: Sectors, sector: nat, original: seq<Byte>)
      requires Valid() && sector in rest && sector in dirty && IsChunk(sector / 128, original)
      ensures var inside := sector % 128 * SECTOR;
        && inside + |dirty[sector]| <= |original|
        && (Agree(base, dirty, rest - {sector}) <==>
          Agree(base, dirty, rest) && original[inside..inside + |dirty[sector]|] == dirty[sector])
    {
      SectorAgainst(sector, original);
      var inside := sector % 128 * SECTOR;
      AgreeNext(rest, sector, original[inside..inside + |dirty[sector]|] == dirty[sector]);
    }

    lemma AgreeAll()
      requires WellFormed(dirty, |base|)
      ensures Agree(base, dirty, map[]) <==> Flat(base, dirty) == base
    {
      if Agree(base, dirty, map[]) {
        forall p: nat | p < |base|
          ensures Flat(base, dirty)[p] == base[p]
        {
          if p / SECTOR in dirty { assert SameAt(base, dirty, p); }
        }
      }
    }

    // The file has a chunk under each of the sectors compared so far.
    ghost predicate Sound(rest: Sectors)
      reads this`dirty
    {
      |base| == size && forall p: nat :: p < size && p / SECTOR in dirty && p / SECTOR !in rest ==> base[p].Some?
    }

    lemma SoundNext(rest: Sectors, sector: nat, original: seq<Byte>)
      requires Valid() && sector in dirty && IsChunk(sector / 128, original)
      ensures Sound(rest) ==> Sound(rest - {sector})
    {
      forall p: nat | p < size && p / SECTOR == sector
        ensures base[p].Some?
      {
        var k: nat := sector / 128;
        assert p / CHUNK == k && base[k * CHUNK + p % CHUNK] == Some(original[p % CHUNK]);
      }
    }

    lemma SoundAll()
      requires Valid() && Sound(map[])
      ensures !Hides(base, Flat(base, dirty))
    {
    }

    // A dirty sector over a chunk that is lost.
    lemma Hidden(sector: nat)
      requires Valid() && sector in dirty && Damaged(sector / 128)
      ensures Hides(base, Flat(base, dirty))
    {
      var p := sector * SECTOR;
      assert p / SECTOR == sector && p / CHUNK == sector / 128 && base[p].None?;
      assert Flat(base, dirty)[p].Some?;
    }

    method Same(ghost rest: Sectors, sector: nat, original: seq<Byte>) returns (same: bool)
      requires Valid() && sector in rest && sector in dirty && IsChunk(sector / 128, original)
      ensures Agree(base, dirty, rest - {sector}) <==> Agree(base, dirty, rest) && same
      ensures Sound(rest) ==> Sound(rest - {sector})
      ensures |rest - {sector}| < |rest| && (rest - {sector}).Keys <= rest.Keys
    {
      assert (rest - {sector})[sector := rest[sector]] == rest;
      var inside := sector % 128 * SECTOR;
      CompareNext(rest, sector, original);
      SoundNext(rest, sector, original);
      same := original[inside..inside + |dirty[sector]|] == dirty[sector];
    }

    // The chunk under a dirty sector, unless it is the one at hand.
    method Underneath(io: Io, sector: nat, group: Option<nat>, original: seq<Byte>) returns (r: Result<seq<Byte>>)
      requires Valid() && io.Serves(source, content) && sector in dirty
      requires group.Some? ==> IsChunk(group.value, original)
      modifies cache
      ensures Valid() && (r.Ok? ==> IsChunk(sector / 128, r.value))
      ensures r.Err? && io.Sure(source) ==> Hides(base, Flat(base, dirty))
    {
      var index: nat := sector / 128;
      if group == Some(index) {
        r := Ok(original);
      } else {
        r := Original(io, index);
        if r.Err? && io.Sure(source) {
          Hidden(sector);
        }
      }
    }

    /** The comparison loop of `begin_save`: whether some dirty sector differs from
        the file. Chunks are fetched once per run of sectors in one chunk. */
    method Differs(io: Io) returns (r: Result<bool>)
      requires Valid() && io.Serves(source, content)
      modifies cache
      ensures Valid()
      ensures r.Ok? ==> (r.value <==> Flat(base, dirty) != base) && !Hides(base, Flat(base, dirty))
      ensures r.Err? && io.Sure(source) ==> Hides(base, Flat(base, dirty))
    {
      var rest := dirty;
      var changed := false;
      var group: Option<nat> := None;
      var original: seq<Byte> := [];
      while rest != map[]
        invariant Valid() && rest.Keys <= dirty.Keys
        invariant group.Some? ==> IsChunk(group.value, original)
        invariant changed <==> !Agree(base, dirty, rest)
        invariant Sound(rest)
        decreases |rest|
      {
        SectorCodec.HasLowest(rest);
        var sector :| sector in rest && SectorCodec.Lowest(rest, sector);
        var _ :- Check(io.calm);
        original :- Underneath(io, sector, group, original);
        group := Some(sector / 128);
        var same := Same(rest, sector, original);
        changed := changed || !same;
        rest := rest - {sector};
      }
      AgreeAll();
      SoundAll();
      var _ :- Check(io.calm);
      r := Ok(changed);
    }
  }
}
