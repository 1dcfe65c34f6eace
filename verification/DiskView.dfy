/** The flat byte array an open disk stands for: the decrypted chunks of an
    immutable file, overlaid with the dirty 512-byte sectors. */
module DiskView {
  import opened Octets
  import opened Envelope
  import opened DiskHeader

  const SECTOR := 512

  type Sectors = map<nat, seq<Byte>>

  // A byte of the view, or None where the file has no authentic chunk.
  type View = seq<Option<Byte>>

  datatype Medium = Medium(content: seq<Octet>, disk: Disk, size: nat)

  function ChunkOffset(index: nat): nat { DISK_HEADER + index * (CHUNK + OVERHEAD) }

  ghost function ChunkText(m: Medium, index: nat): (r: Option<seq<Byte>>)
    requires index * CHUNK < m.size
    ensures r.Some? ==> |r.value| == ChunkLength(m.size, index)
  {
    var at := ChunkOffset(index);
    var n := ChunkLength(m.size, index) + OVERHEAD;
    if at + n > |m.content| then None
    else
      match OpenUnit(m.disk, index, m.content[at..at + n])
      case Err(_) => None
      case Ok(text) => Some(text)
  }

  ghost predicate WellFormed(dirty: Sectors, size: nat) {
    forall s :: s in dirty ==> s * SECTOR < size && |dirty[s]| == Min(size - s * SECTOR, SECTOR)
  }

  ghost function BaseAt(m: Medium, p: nat): Option<Byte>
    requires p < m.size
  {
    match ChunkText(m, p / CHUNK)
    case None => None
    case Some(text) => Some(text[p % CHUNK])
  }

  // What the file alone shows.
  ghost function FileView(m: Medium): (v: View)
    ensures |v| == m.size && forall p {:trigger BaseAt(m, p)} :: 0 <= p < m.size ==> v[p] == BaseAt(m, p)
  {
    seq(m.size, p requires 0 <= p < m.size => BaseAt(m, p))
  }

  ghost function At(base: View, dirty: Sectors, p: nat): Option<Byte>
    requires p < |base| && WellFormed(dirty, |base|)
  {
    if p / SECTOR in dirty then Some(dirty[p / SECTOR][p % SECTOR]) else base[p]
  }

  // The view: dirty sectors over the file.
  ghost function Flat(base: View, dirty: Sectors): (v: View)
    requires WellFormed(dirty, |base|)
    ensures |v| == |base| && forall p :: 0 <= p < |base| ==> v[p] == At(base, dirty, p)
  {
    seq(|base|, p requires 0 <= p < |base| => At(base, dirty, p))
  }

  lemma FlatClean(base: View)
    ensures WellFormed(map[], |base|) && Flat(base, map[]) == base
  {
  }

  // The bytes `b` are what the view holds from `offset` on.
  ghost predicate Shows(b: seq<Byte>, v: View, offset: nat) {
    offset + |b| <= |v| && forall i :: 0 <= i < |b| ==> v[offset + i] == Some(b[i])
  }

  // The view has these bytes: they are in bounds and none of them is lost.
  ghost predicate Told(v: View, offset: nat, len: nat) {
    offset + len <= |v| && forall p: nat :: offset <= p < offset + len ==> v[p].Some?
  }

  lemma ShowsTold(b: seq<Byte>, v: View, offset: nat)
    requires Shows(b, v, offset)
    ensures Told(v, offset, |b|)
  {
    forall p: nat | offset <= p < offset + |b|
      ensures v[p].Some?
    {
      assert v[offset + (p - offset)] == Some(b[p - offset]);
    }
  }

  // The sectors that the first `done` bytes of a write at `offset` fall in.
  predicate Touched(offset: nat, done: nat, s: nat) {
    0 < done && offset / SECTOR <= s <= (offset + done - 1) / SECTOR
  }

  // What a write leaves of the sectors it touches is there to be kept.
  ghost predicate Edges(v: View, offset: nat, len: nat) {
    forall p: nat :: p < |v| && Touched(offset, len, p / SECTOR) && !(offset <= p < offset + len) ==> v[p].Some?
  }

  // A byte that was written lies over a chunk of the file that is lost.
  ghost predicate Hides(base: View, v: View) {
    |base| == |v| && exists p: nat :: p < |v| && base[p].None? && v[p].Some?
  }

  ghost function Splice(v: View, offset: nat, b: seq<Byte>): (r: View)
    requires offset + |b| <= |v|
    ensures |r| == |v| && Shows(b, r, offset)
    ensures forall p :: 0 <= p < |v| && !(offset <= p < offset + |b|) ==> r[p] == v[p]
  {
    seq(|v|, p requires 0 <= p < |v| => if offset <= p < offset + |b| then Some(b[p - offset]) else v[p])
  }

  // A raw image of which only `content` exists.
  ghost function RawView(content: seq<Byte>, size: nat): (v: View)
    ensures |v| == size
  {
    seq(size, p requires 0 <= p < size => if p < |content| then Some(content[p]) else None)
  }

  // Dirty sectors that hide nothing: each equals the file underneath.
  ghost predicate Clean(base: View, dirty: Sectors) {
    WellFormed(dirty, |base|) && Flat(base, dirty) == base
  }

  // An emitted record: it opens at its own index to its own chunk of the target.
  ghost predicate Carries(disk: Disk, size: nat, index: nat, record: seq<Octet>, target: View) {
    && index * CHUNK < size == |target|
    && OpenUnit(disk, index, record).Ok?
    && |OpenUnit(disk, index, record).value| == ChunkLength(size, index)
    && Shows(OpenUnit(disk, index, record).value, target, index * CHUNK)
  }

  function Concat(records: seq<seq<Octet>>): seq<Octet> {
    if records == [] then [] else Concat(records[..|records| - 1]) + records[|records| - 1]
  }

  ghost predicate Records(disk: Disk, size: nat, records: seq<seq<Octet>>, target: View) {
    && |records| <= Chunks(size)
    && forall i :: 0 <= i < |records| ==> Carries(disk, size, i, records[i], target)
  }

  lemma ConcatAppend(header: seq<Octet>, records: seq<seq<Octet>>, record: seq<Octet>)
    ensures header + Concat(records + [record]) == header + Concat(records) + record
  {
    assert (records + [record])[..|records|] == records;
  }

  // Records of the lengths that tile a disk of this size.
  ghost predicate Tiled(size: nat, records: seq<seq<Octet>>) {
    && |records| <= Chunks(size)
    && forall i :: 0 <= i < |records| ==> i * CHUNK < size && |records[i]| == ChunkLength(size, i) + OVERHEAD
  }

  lemma RecordsTile(disk: Disk, size: nat, records: seq<seq<Octet>>, target: View)
    requires Records(disk, size, records, target)
    ensures Tiled(size, records)
  {
    forall i | 0 <= i < |records|
      ensures i * CHUNK < size && |records[i]| == ChunkLength(size, i) + OVERHEAD
    {
      assert Carries(disk, size, i, records[i], target);
    }
  }

  lemma {:induction false} TiledLength(size: nat, records: seq<seq<Octet>>)
    requires Tiled(size, records)
    ensures |Concat(records)| == Min(|records| * CHUNK, size) + |records| * OVERHEAD
  {
    if records != [] {
      var n := |records| - 1;
      TiledLength(size, records[..n]);
      assert |records[n]| == ChunkLength(size, n) + OVERHEAD;
    }
  }

  lemma {:induction false} TileAt(size: nat, records: seq<seq<Octet>>, i: nat)
    requires Tiled(size, records) && i < |records|
    ensures var at := i * (CHUNK + OVERHEAD);
      at + |records[i]| <= |Concat(records)| && Concat(records)[at..at + |records[i]|] == records[i]
  {
    var n := |records| - 1;
    var front := records[..n];
    TiledLength(size, front);
    if i < n {
      TileAt(size, front, i);
      var at := i * (CHUNK + OVERHEAD);
      assert Concat(records)[at..at + |records[i]|] == Concat(front)[at..at + |records[i]|];
    } else {
      assert |records[n]| == ChunkLength(size, n) + OVERHEAD;
    }
  }

  lemma FileTile(size: nat, header: seq<Octet>, records: seq<seq<Octet>>, i: nat)
    requires |header| == DISK_HEADER && Tiled(size, records) && i < |records|
    ensures var at := ChunkOffset(i); var file := header + Concat(records);
      at + |records[i]| <= |file| && file[at..at + |records[i]|] == records[i]
  {
    TileAt(size, records, i);
    var at := i * (CHUNK + OVERHEAD);
    var file := header + Concat(records);
    assert file[ChunkOffset(i)..ChunkOffset(i) + |records[i]|] == Concat(records)[at..at + |records[i]|];
  }

  lemma FileChunk(disk: Disk, size: nat, header: seq<Octet>, records: seq<seq<Octet>>, target: View, k: nat)
    returns (text: seq<Byte>)
    requires |header| == DISK_HEADER && k < |records| && Tiled(size, records)
    requires Carries(disk, size, k, records[k], target)
    ensures ChunkText(Medium(header + Concat(records), disk, size), k) == Some(text) && Shows(text, target, k * CHUNK)
  {
    FileTile(size, header, records, k);
    text := CarriedText(disk, size, k, records[k], target);
    RecordText(Medium(header + Concat(records), disk, size), k, records[k], text);
  }

  lemma CarriedText(disk: Disk, size: nat, k: nat, record: seq<Octet>, target: View) returns (text: seq<Byte>)
    requires Carries(disk, size, k, record, target)
    ensures OpenUnit(disk, k, record) == Ok(text) && |text| == ChunkLength(size, k) && Shows(text, target, k * CHUNK)
  {
    text := OpenUnit(disk, k, record).value;
  }

  lemma RecordText(m: Medium, k: nat, record: seq<Octet>, text: seq<Byte>)
    requires k * CHUNK < m.size && |record| == ChunkLength(m.size, k) + OVERHEAD
    requires var at := ChunkOffset(k); at + |record| <= |m.content| && m.content[at..at + |record|] == record
    requires OpenUnit(m.disk, k, record) == Ok(text)
    ensures ChunkText(m, k) == Some(text)
  {
  }

  lemma ChunkShows(m: Medium, k: nat, text: seq<Byte>, target: View, p: nat)
    requires k * CHUNK < m.size == |target| && ChunkText(m, k) == Some(text) && Shows(text, target, k * CHUNK)
    requires p < m.size && p / CHUNK == k
    ensures BaseAt(m, p) == target[p]
  {
    assert target[k * CHUNK + p % CHUNK] == Some(text[p % CHUNK]);
  }

  /** The file assembled from a header and a complete run of records has the one
      acceptable length and, read back with the sealing disk, is the target. */
  lemma Reopens(disk: Disk, size: nat, header: seq<Octet>, records: seq<seq<Octet>>, target: View)
    requires |header| == DISK_HEADER && FileSize(size).Ok? && |target| == size
    requires Records(disk, size, records, target) && |records| == Chunks(size)
    ensures FileSize(size) == Ok(|header + Concat(records)|)
    ensures FileView(Medium(header + Concat(records), disk, size)) == target
  {
    RecordsTile(disk, size, records, target);
    TiledLength(size, records);
    var m := Medium(header + Concat(records), disk, size);
    forall p | 0 <= p < size
      ensures FileView(m)[p] == target[p]
    {
      var k: nat := p / CHUNK;
      assert Carries(disk, size, k, records[k], target);
      var text := FileChunk(disk, size, header, records, target, k);
      ChunkShows(m, k, text, target, p);
    }
  }
}
