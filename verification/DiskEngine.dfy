/** The engine of src/disk/src/lib.rs: an open image, a save being prepared, a
    verification in progress, and the revision counter that makes both stale. */
module DiskEngine {
  import opened Octets
  import opened Envelope
  import opened DiskHeader
  import opened DiskView
  import opened DiskImage
  import SectorCodec
  import C = ChunkCache

  datatype Build = Build(disk: Disk, size: nat, header: seq<Octet>, raw: Option<Source>, index: nat, revision: nat)

  // An ideal hash: the digest names the bytes it was fed.
  datatype Digest = Sha256(content: seq<Byte>)

  datatype Hashing = Hashing(fed: seq<Byte>, index: nat, revision: nat)

  // Two facts below are stated for every header that equals a given one: the
  // quantifier keeps header parsing out of proofs that do not look at it.

  // The header of a build names its disk and size to its owner.
  ghost predicate HeaderNames(owner: Identity, b: Build) {
    && |b.header| == DISK_HEADER && FileSize(b.size).Ok?
    && forall total {:trigger ParseHeader(owner, b.header, total)} ::
      FileSize(b.size) == Ok(total) ==> ParseHeader(owner, b.header, total) == Ok((b.disk, b.size))
  }

  /** What holds of a save in preparation, stale or not: the records handed out so
      far carry the target; and until it is stale the target is the current view. */
  ghost predicate BuildOk(
      owner: Option<Identity>, build: Option<Build>, emitted: seq<seq<Octet>>, target: View, raw: seq<Byte>,
      revision: nat, current: Option<View>) {
    build.Some? ==>
      var b := build.value;
      && owner.Some? && b.disk.Valid() && HeaderNames(owner.value, b)
      && b.revision <= revision
      && b.index == |emitted| && |target| == b.size && Records(b.disk, b.size, emitted, target)
      && (b.raw.None? ==>
        current.Some? && |current.value| == b.size && (b.revision == revision ==> target == current.value))
      && (b.raw.Some? ==> current.None? && target == RawView(raw, b.size))
  }

  /** A verification that is not stale has been fed a prefix of the view. */
  ghost predicate HashOk(hash: Option<Hashing>, revision: nat, current: Option<View>) {
    hash.Some? ==>
      var h := hash.value;
      && current.Some? && h.revision <= revision
      && (h.revision == revision ==>
        |h.fed| == Min(h.index * CHUNK, |current.value|) && Shows(h.fed, current.value, 0))
  }

  /** A saved file that its owner can open, and that shows exactly `view`. */
  ghost predicate Opens(owner: Identity, file: seq<Octet>, view: View) {
    DISK_HEADER <= |file| && exists disk: Disk :: OpensWith(owner, file, disk, view)
  }

  ghost predicate OpensWith(owner: Identity, file: seq<Octet>, disk: Disk, view: View)
    requires DISK_HEADER <= |file|
  {
    && (forall h {:trigger ParseHeader(owner, h, |file|)} ::
      h == file[..DISK_HEADER] ==> ParseHeader(owner, h, |file|) == Ok((disk, |view|)))
    && FileView(Medium(file, disk, |view|)) == view
  }

  // A complete build assembles into a file that opens to its target.
  lemma BuildOpens(owner: Identity, b: Build, records: seq<seq<Octet>>, target: View)
    requires HeaderNames(owner, b) && |target| == b.size
    requires Records(b.disk, b.size, records, target) && |records| == Chunks(b.size)
    ensures FileSize(b.size) == Ok(|b.header + Concat(records)|)
    ensures FileView(Medium(b.header + Concat(records), b.disk, b.size)) == target
    ensures Opens(owner, b.header + Concat(records), target)
  {
    Reopens(b.disk, b.size, b.header, records, target);
    var file := b.header + Concat(records);
    assert file[..DISK_HEADER] == b.header;
    assert ParseHeader(owner, b.header, |file|) == Ok((b.disk, b.size));
    assert OpensWith(owner, file, b.disk, target);
  }

  lemma SealedCarries(disk: Disk, size: nat, index: nat, text: seq<Byte>, salt: seq<Octet>, target: View)
    requires |salt| == 32 && index * CHUNK < size == |target|
    requires |text| == ChunkLength(size, index) && Shows(text, target, index * CHUNK)
    ensures SealUnit(disk, index, text, salt).Ok?
    ensures Carries(disk, size, index, SealUnit(disk, index, text, salt).value, target)
  {
    SealOpens(disk.key, DATA, Unit(index), Lift(disk.id + Unit(index)), text, salt);
  }

  lemma RecordsAppend(disk: Disk, size: nat, records: seq<seq<Octet>>, record: seq<Octet>, target: View)
    requires Records(disk, size, records, target) && Carries(disk, size, |records|, record, target)
    ensures Records(disk, size, records + [record], target)
  {
    var all := records + [record];
    forall i | 0 <= i < |all|
      ensures Carries(disk, size, i, all[i], target)
    {
      if i < |records| {
        assert Carries(disk, size, i, records[i], target);
      }
    }
  }

  // Feeding the next chunk to a hash keeps it a prefix of the view.
  lemma FeedChunk(fed: seq<Byte>, index: nat, b: seq<Byte>, view: View)
    requires 0 < |view| && index * CHUNK < |view| && |fed| == index * CHUNK && Shows(fed, view, 0)
    requires |b| == ChunkLength(|view|, index) && Shows(b, view, index * CHUNK)
    ensures |fed + b| == Min((index + 1) * CHUNK, |view|) && Shows(fed + b, view, 0)
  {
    forall i | 0 <= i < |fed + b|
      ensures view[0 + i] == Some((fed + b)[i])
    {
      if i < |fed| {
        assert view[0 + i] == Some(fed[i]);
      } else {
        assert view[index * CHUNK + (i - |fed|)] == Some(b[i - |fed|]);
      }
    }
  }

  lemma BuildNext(
    owner: Option<Identity>, b: Build, emitted: seq<seq<Octet>>, record: seq<Octet>, target: View, raw: seq<Byte>,
    revision: nat, current: Option<View>)
    requires BuildOk(owner, Some(b), emitted, target, raw, revision, current)
    requires Carries(b.disk, b.size, b.index, record, target)
    ensures BuildOk(owner, Some(b.(index := b.index + 1)), emitted + [record], target, raw, revision, current)
  {
    RecordsAppend(b.disk, b.size, emitted, record, target);
  }

  lemma HashNext(h: Hashing, b: seq<Byte>, revision: nat, view: View)
    requires HashOk(Some(h), revision, Some(view)) && h.revision == revision && h.index * CHUNK < |view|
    requires |b| == ChunkLength(|view|, h.index) && Shows(b, view, h.index * CHUNK)
    ensures HashOk(Some(Hashing(h.fed + b, h.index + 1, revision)), revision, Some(view))
  {
    FeedChunk(h.fed, h.index, b, view);
  }

  // Chunk `index` of the view is there.
  ghost predicate ChunkTold(v: View, index: nat) {
    index * CHUNK < |v| && Told(v, index * CHUNK, Min(|v| - index * CHUNK, CHUNK))
  }

  // Something begun at a revision, and how many chunks of it are done.
  datatype Progress = Progress(at: nat, done: nat)

  // The revision at which the view was found to be the file, the save in preparation
  // and the verification in progress.
  datatype Work = Work(clean: Option<nat>, save: Option<Progress>, verify: Option<Progress>)

  const IDLE := Work(None, None, None)

  // Nothing has made it stale.
  predicate Fresh(p: Option<Progress>, revision: nat) { p.Some? && p.value.at == revision }

  // The next chunk can be read, if there is one.
  ghost predicate GoesOn(p: Option<Progress>, revision: nat, v: View) {
    Fresh(p, revision) && (p.value.done * CHUNK < |v| ==> ChunkTold(v, p.value.done))
  }

  function Advanced(p: Progress, size: nat): Progress { if p.done * CHUNK < size then p.(done := p.done + 1) else p }

  // What a comparison leaves: the view is found clean, or a save is begun.
  function Compared(w: Work, changed: bool, revision: nat): Work {
    if changed then w.(save := Some(Progress(revision, 0))) else w.(clean := Some(revision))
  }

  // What a step of a verification leaves, and what is left when it stops short of the end.
  function Verified(w: Work, p: Progress, size: nat): Work {
    if (p.done + 1) * CHUNK >= size then w.(verify := None) else Fed(w, p)
  }

  function Fed(w: Work, p: Progress): Work { w.(verify := Some(p.(done := p.done + 1))) }

  // Fresh disk and header for a save, or the failure of the randomness source.
  method NewBuild(owner: Identity, size: nat, source: Option<Source>, revision: nat, calm: bool)
    returns (r: Result<Build>)
    requires FileSize(size).Ok?
    ensures calm ==> r.Ok?
    ensures r.Ok? ==> HeaderNames(owner, r.value) && r.value.disk.Valid()
    ensures r.Ok? ==> r.value == Build(r.value.disk, size, r.value.header, source, 0, revision)
  {
    var id :- Random(16, calm);
    var key :- Random(32, calm);
    var disk := Disk(id, key);
    var salt :- Random(32, calm);
    MadeHeader(owner, disk, size, Lift(salt));
    var header := MakeHeader(owner, disk, size, Lift(salt)).value;
    r := Ok(Build(disk, size, header, source, 0, revision));
  }

  method ReadHeader(io: Io, owner: Identity, source: Source, total: nat) returns (r: Result<(Disk, nat)>)
    ensures r.Ok? ==> source in io.files && DISK_HEADER <= |io.files[source]|
    ensures r.Ok? ==> ParseHeader(owner, io.files[source][..DISK_HEADER], total) == r
    ensures r.Ok? ==> r.value.0.Valid() && 0 < r.value.1 <= MAX_SIZE && FileSize(r.value.1) == Ok(total)
  {
    var b :- Exact(io.files, io.calm, source, 0, Min(total, DISK_HEADER));
    r := ParseHeader(owner, b, total);
  }

  // One record of a save: sealing draws a fresh salt, which may be unavailable.
  method SealRecord(disk: Disk, size: nat, index: nat, text: seq<Byte>, calm: bool, ghost target: View)
    returns (r: Result<seq<Octet>>)
    requires index * CHUNK < size == |target|
    requires |text| == ChunkLength(size, index) && Shows(text, target, index * CHUNK)
    ensures r.Ok? ==> Carries(disk, size, index, r.value, target)
    ensures calm ==> r.Ok?
  {
    var salt :- Random(32, calm);
    SealedCarries(disk, size, index, text, Lift(salt), target);
    r := SealUnit(disk, index, text, Lift(salt));
  }

  class Engine {
    const identity: Option<Identity>
    var image: Image?
    var build: Option<Build>
    var revision: nat
    var hash: Option<Hashing>
    var unmodified: Option<nat>
    // The records handed out for the current build, the view they must carry, and
    // the plain image behind a build that creates a disk.
    ghost var emitted: seq<seq<Octet>>
    ghost var target: View
    ghost var raw: seq<Byte>

    ghost function Parts(): set<object?>
      reads this, image
    {
      if image == null then {} else {image, image.cache}
    }

    ghost function Repr(): set<object?>
      reads this, image
    {
      {this} + Parts()
    }

    ghost predicate ImageOk()
      reads this, image, Parts()
    {
      image != null ==> image.Valid()
    }

    ghost function Current(): Option<View>
      requires ImageOk()
      reads this, image, Parts()
    {
      if image == null then None else Some(Flat(image.base, image.dirty))
    }

    ghost function View(): View
      requires ImageOk() && image != null
      reads this, image, Parts()
    {
      Flat(image.base, image.dirty)
    }

    // The progress made on the open disk.
    ghost function Doing(): Work
      reads this
    {
      Work(
        unmodified,
        if build.None? then None else Some(Progress(build.value.revision, build.value.index)),
        if hash.None? then None else Some(Progress(hash.value.revision, hash.value.index)))
    }

    ghost predicate UnmodifiedOk()
      reads this, image, Parts()
    {
      unmodified.Some? ==>
        && image != null && unmodified.value <= revision
        && (unmodified.value == revision ==> Clean(image.base, image.dirty))
    }

    ghost predicate Valid()
      reads this, image, Parts()
    {
      && ImageOk()
      && BuildOk(identity, build, emitted, target, raw, revision, Current())
      && HashOk(hash, revision, Current())
      && UnmodifiedOk()
    }

    // The source table may have grown or lost names, but names keep their bytes.
    ghost predicate Sees(io: Io)
      reads this, image
    {
      && (image != null ==> io.Serves(image.source, image.content))
      && (build.Some? && build.value.raw.Some? ==> io.ServesRaw(build.value.raw.value, raw))
    }

    // Reading the open file cannot fail.
    ghost predicate Sure(io: Io)
      reads this, image
    {
      io.calm && (image != null ==> io.Sure(image.source))
    }

    // The file the records handed out so far would assemble.
    ghost function Assembled(): seq<Octet>
      requires build.Some?
      reads this
    {
      build.value.header + Concat(emitted)
    }

    constructor (identity: Option<Identity>)
      ensures Valid() && image == null && build.None? && this.identity == identity
    {
      this.identity := identity;
      image, build, revision, hash, unmodified := null, None, 0, None, None;
      emitted, target, raw := [], [], [];
    }

    constructor WithImage(identity: Option<Identity>, image: Image, revision: nat)
      requires image.Valid()
      ensures Valid() && this.identity == identity && this.image == image && this.revision == revision
      ensures build.None? && hash.None? && unmodified.None?
    {
      this.identity, this.image, this.revision := identity, image, revision;
      build, hash, unmodified := None, None, None;
      emitted, target, raw := [], [], [];
    }

    method Open(io: Io, source: Source, total: nat) returns (r: Result<()>)
      requires Valid()
      modifies this
      ensures Valid()
      ensures r.Ok? ==> old(image) == null && old(build).None? && source in io.files && image != null && fresh(Parts())
      ensures r.Ok? ==> image.source == source && image.content == io.files[source] && image.dirty == map[]
      ensures r.Ok? ==> DISK_HEADER <= |image.content| && identity.Some?
      ensures r.Ok? ==> ParseHeader(identity.value, image.content[..DISK_HEADER], total) == Ok((image.disk, image.size))
      ensures r.Ok? ==> View() == FileView(Medium(image.content, image.disk, image.size))
      ensures r.Err? ==> image == old(image) && revision == old(revision) && unchanged(this)
    {
      if identity.None? {
        return Err(ReadOnly);
      }
      if image != null || build.Some? {
        return Err(Operation);
      }
      var parsed :- ReadHeader(io, identity.value, source, total);
      var _ :- Check(io.calm);
      Mount(source, io.files[source], parsed.1, parsed.0);
      r := Ok(());
    }

    method BeginCreate(source: Source, size: nat, calm: bool, ghost content: seq<Byte>) returns (r: Result<()>)
      requires Valid()
      modifies this
      ensures Valid() && image == old(image)
      ensures r.Ok? ==> old(image) == null && old(build).None? && Begun(Some(source), size) && raw == content
      ensures r.Err? ==> unchanged(this)
      ensures r.Err? && calm ==> identity.None? || image != null || build.Some? || FileSize(size).Err?
    {
      if identity.None? {
        return Err(ReadOnly);
      }
      if image != null || build.Some? {
        return Err(Operation);
      }
      if FileSize(size).Err? {
        return Err(Corruption);
      }
      r := Begin(Some(source), size, calm, RawView(content, size), content);
    }

    // A save has just begun: nothing emitted, not stale.
    ghost predicate Begun(source: Option<Source>, size: nat)
      reads this
    {
      && build.Some? && build.value.raw == source && build.value.size == size
      && build.value.index == 0 && build.value.revision == revision && emitted == []
    }

    method Begin(source: Option<Source>, size: nat, calm: bool, ghost view: View, ghost content: seq<Byte>)
      returns (r: Result<()>)
      requires Valid() && identity.Some? && FileSize(size).Ok? && |view| == size
      requires source.None? ==> Current() == Some(view)
      requires source.Some? ==> image == null && view == RawView(content, size)
      modifies this`build, this`emitted, this`target, this`raw
      ensures Valid()
      ensures r.Ok? ==> old(build).None? && Begun(source, size) && target == view && raw == content
      ensures r.Err? ==> unchanged(this)
      ensures r.Err? && calm ==> build.Some?
    {
      if build.Some? {
        return Err(Operation);
      }
      var b :- NewBuild(identity.value, size, source, revision, calm);
      build := Some(b);
      emitted, target, raw := [], view, content;
      r := Ok(());
    }

    /** False when no dirty sector differs from the file; only then may the dirty
        marks be cleared. */
    method BeginSave(io: Io) returns (r: Result<bool>)
      requires Valid() && Sees(io)
      modifies this`build, this`emitted, this`target, this`raw, this`unmodified, Caches()
      ensures Valid()
      ensures r.Ok? ==> image != null && identity.Some? && old(build).None? && (r.value <==> View() != image.base)
      ensures r.Ok? ==> !Hides(image.base, View())
      ensures r.Err? && Sure(io) ==>
        identity.None? || build.Some? || image == null || Hides(image.base, View())
      ensures Doing() == if r.Ok? then Compared(old(Doing()), r.value, revision) else old(Doing())
      ensures r == Ok(true) ==> Begun(None, image.size) && target == View()
      ensures r == Ok(false) ==> unmodified == Some(revision)
      ensures r != Ok(true) ==> unchanged(this`build, this`emitted, this`target, this`raw)
      ensures r != Ok(false) ==> unchanged(this`unmodified)
    {
      if identity.None? {
        return Err(ReadOnly);
      }
      if build.Some? || image == null {
        return Err(Operation);
      }
      var changed :- image.Differs(io);
      if !changed {
        unmodified := Some(revision);
        return Ok(false);
      }
      var _ :- Begin(None, image.size, io.calm, View(), []);
      r := Ok(true);
    }

    ghost function Caches(): set<object?>
      reads this, image
    {
      if image == null then {} else {image.cache}
    }

    method AcceptUnchanged(calm: bool) returns (r: Result<()>)
      requires Valid()
      modifies this`unmodified, Parts()
      ensures Valid() && Parts() == old(Parts())
      ensures r.Ok? ==> old(unmodified) == Some(revision) && unmodified.None? && image != null && image.dirty == map[]
      ensures image != null ==> View() == old(View())
      ensures r.Err? ==> unchanged(this`unmodified) && (image != null ==> unchanged(image))
      ensures r.Err? && calm ==> identity.None? || unmodified != Some(revision)
      ensures Doing() == if r.Ok? then old(Doing()).(clean := None) else old(Doing())
    {
      if identity.None? {
        return Err(ReadOnly);
      }
      var _ :- Check(calm);
      if unmodified != Some(revision) {
        return Err(Operation);
      }
      FlatClean(image.base);
      image.dirty := map[];
      unmodified := None;
      r := Ok(());
    }

    method Header() returns (r: Result<seq<Octet>>)
      ensures r.Ok? <==> identity.Some? && build.Some?
      ensures r.Ok? ==> r.value == build.value.header
    {
      if identity.None? {
        return Err(ReadOnly);
      }
      r := if build.None? then Err(Operation) else Ok(build.value.header);
    }

    // The part of the open disk that a save needs next is there.
    ghost predicate NextTold(b: Build)
      requires ImageOk()
      reads this, image, Parts()
    {
      image != null && ChunkTold(View(), b.index)
    }

    // The save in preparation can go on.
    ghost predicate SaveGoesOn()
      requires ImageOk() && image != null
      reads this, image, Parts()
    {
      GoesOn(Doing().save, revision, View())
    }

    method PrepareRecord(io: Io, b: Build) returns (r: Result<seq<Octet>>)
      requires Valid() && Sees(io) && build == Some(b) && b.revision == revision && b.index * CHUNK < b.size
      modifies Caches()
      ensures Valid()
      ensures r.Ok? ==>
        BuildOk(identity, Some(b.(index := b.index + 1)), emitted + [r.value], target, raw, revision, Current())
      ensures r.Ok? ==> b.index < Chunks(b.size)
      ensures r.Ok? && b.raw.None? ==> NextTold(b)
      ensures r.Err? && Sure(io) && b.raw.None? ==> !NextTold(b)
    {
      var offset := b.index * CHUNK;
      var len := Min(b.size - offset, CHUNK);
      var text: seq<Byte>;
      if b.raw.Some? {
        text :- Exact(io.raws, io.calm, b.raw.value, offset, len);
      } else {
        text :- image.Read(io, offset, len);
        ShowsTold(text, View(), offset);
      }
      assert Shows(text, target, offset);
      var record :- SealRecord(b.disk, b.size, b.index, text, io.calm, target);
      var _ :- Check(io.calm);
      BuildNext(identity, b, emitted, record, target, raw, revision, Current());
      r := Ok(record);
    }

    /** The next record of the save, or None after the last one. A failure emits
        nothing and may be retried. */
    method Next(io: Io) returns (r: Result<Option<seq<Octet>>>)
      requires Valid() && Sees(io)
      modifies this`build, this`emitted, Caches()
      ensures Valid()
      ensures r.Ok? ==> old(build).Some? && old(build).value.revision == revision
      ensures r == Ok(None) ==> unchanged(this`build, this`emitted) && build.value.index == Chunks(build.value.size)
      ensures r.Ok? && r.value.Some? ==>
        && old(build).value.index < Chunks(old(build).value.size)
        && emitted == old(emitted) + [r.value.value]
        && build == Some(old(build).value.(index := old(build).value.index + 1))
        && Assembled() == old(Assembled()) + r.value.value
      ensures r.Err? ==> unchanged(this`build, this`emitted)
      ensures r.Ok? && image != null ==>
        && old(SaveGoesOn())
        && Doing() == old(Doing()).(save := Some(Advanced(old(Doing()).save.value, image.size)))
      ensures r.Err? && Sure(io) && image != null ==> identity.None? || !SaveGoesOn()
    {
      var b :- Prepared(io.calm);
      if b.index * CHUNK >= b.size {
        NoMore(b);
        return Ok(None);
      }
      var record :- NextRecord(io, b);
      r := Ok(Some(record));
    }

    // The next record as it is handed to the host, empty when there is none.
    method NextPart(io: Io) returns (r: Result<seq<Octet>>)
      requires Valid() && Sees(io) && image != null && identity.Some?
      modifies this`build, this`emitted, Caches()
      ensures Valid() && (build.Some? <==> old(build).Some?)
      ensures build.Some? ==> Assembled() == old(Assembled()) + if r.Ok? then r.value else []
      ensures r.Ok? ==>
        && old(SaveGoesOn())
        && Doing() == old(Doing()).(save := Some(Advanced(old(Doing()).save.value, image.size)))
      ensures r.Err? ==> Doing() == old(Doing())
      ensures r.Err? && Sure(io) ==> !SaveGoesOn()
    {
      var next :- Next(io);
      r := Ok(if next.Some? then next.value else []);
    }

    // The save in preparation, unless there is none or it is stale.
    method Prepared(calm: bool) returns (r: Result<Build>)
      ensures r.Ok? ==> build == Some(r.value) && r.value.revision == revision
      ensures r.Err? && calm ==> identity.None? || build.None? || build.value.revision != revision
    {
      if identity.None? {
        return Err(ReadOnly);
      }
      var _ :- Check(calm);
      if build.None? || build.value.revision != revision {
        return Err(Operation);
      }
      r := Ok(build.value);
    }

    method NextRecord(io: Io, b: Build) returns (r: Result<seq<Octet>>)
      requires Valid() && Sees(io) && build == Some(b) && b.revision == revision && b.index * CHUNK < b.size
      modifies this`build, this`emitted, Caches()
      ensures Valid()
      ensures r.Ok? ==>
        && b.index < Chunks(b.size) && build == Some(b.(index := b.index + 1))
        && emitted == old(emitted) + [r.value] && Assembled() == old(Assembled()) + r.value
      ensures r.Err? ==> unchanged(this`build, this`emitted)
      ensures r.Ok? && image != null ==>
        && old(SaveGoesOn())
        && Doing() == old(Doing()).(save := Some(Advanced(old(Doing()).save.value, image.size)))
      ensures r.Err? && Sure(io) && image != null ==> !SaveGoesOn()
    {
      r := PrepareRecord(io, b);
      if r.Ok? {
        Emit(b, r.value);
      }
    }

    // A save that has handed out all its records can go on, to no effect.
    lemma NoMore(b: Build)
      requires Valid() && build == Some(b) && b.revision == revision && b.index * CHUNK >= b.size
      ensures b.index == Chunks(b.size)
      ensures image != null ==>
        && SaveGoesOn() && Doing() == Doing().(save := Some(Advanced(Doing().save.value, image.size)))
    {
    }

    method Emit(b: Build, record: seq<Octet>)
      requires Valid() && build == Some(b)
      requires BuildOk(identity, Some(b.(index := b.index + 1)), emitted + [record], target, raw, revision, Current())
      modifies this`build, this`emitted
      ensures Valid() && build == Some(b.(index := b.index + 1))
      ensures emitted == old(emitted) + [record] && Assembled() == old(Assembled()) + record
    {
      ConcatAppend(b.header, emitted, record);
      build := Some(b.(index := b.index + 1));
      emitted := emitted + [record];
    }

    // The save in preparation has handed out all its records.
    ghost predicate SaveDone()
      reads this
    {
      && build.Some? && Fresh(Doing().save, revision) && Doing().save.value.done == Chunks(build.value.size)
    }

    lemma TotalIs()
      requires Valid()
      ensures SaveDone() ==> FileSize(build.value.size) == Ok(|Assembled()|)
    {
      if SaveDone() {
        BuildOpens(identity.value, build.value, emitted, target);
      }
    }

    /** Commits a save whose file the host has assembled under `source`. */
    method Accept(io: Io, source: Source, total: nat) returns (r: Result<()>)
      requires Valid()
      modifies this
      ensures Valid()
      ensures r.Ok? ==> old(build).Some? && old(build).value.revision == old(revision)
      ensures r.Ok? ==> |old(emitted)| == Chunks(old(build).value.size) && total == |old(Assembled())|
      ensures r.Ok? ==> identity.Some? && Opens(identity.value, old(Assembled()), old(target))
      ensures r.Ok? ==> image != null && fresh(Parts()) && View() == image.base
      ensures r.Ok? ==> image != null && image.source == source && build.None? && revision == old(revision) + 1
      ensures r.Ok? && source in io.files ==> image.content == io.files[source]
      ensures r.Ok? && source in io.files && io.files[source] == old(Assembled()) ==> View() == old(target)
      ensures r.Err? ==>
        || (r.error == Cancelled && !io.calm) || identity.None? || build.None? || build.value.revision != revision
        || |emitted| != Chunks(build.value.size) || FileSize(build.value.size) != Ok(total)
      ensures r.Err? ==> unchanged(this)
      ensures r.Ok? ==> Doing() == Work(old(Doing()).clean, None, None)
      ensures r.Ok? ==> old(SaveDone())
      ensures r.Err? && io.calm && (build.Some? ==> total == |Assembled()|) ==> identity.None? || !SaveDone()
    {
      TotalIs();
      if identity.None? {
        return Err(ReadOnly);
      }
      var _ :- Check(io.calm);
      if build.None? {
        return Err(Operation);
      }
      var b := build.value;
      if b.revision != revision || b.index != Chunks(b.size) {
        return Err(Operation);
      }
      if FileSize(b.size) != Ok(total) {
        return Err(Corruption);
      }
      BuildOpens(identity.value, b, emitted, target);
      Install(source, if source in io.files then io.files[source] else [], b);
      r := Ok(());
    }

    // A new image without dirty sectors.
    method Mount(source: Source, ghost content: seq<Octet>, size: nat, disk: Disk)
      requires disk.Valid() && FileSize(size).Ok?
      modifies this`image, this`revision
      ensures image != null && fresh(Parts()) && image.Valid() && revision == old(revision) + 1
      ensures image.source == source && image.content == content && image.disk == disk && image.size == size
      ensures image.dirty == map[] && View() == image.base == FileView(Medium(content, disk, size))
    {
      image := new Image(source, content, size, disk, map[]);
      FlatClean(image.base);
      revision := revision + 1;
    }

    // The saved file replaces whatever was open.
    method Install(source: Source, ghost content: seq<Octet>, b: Build)
      requires b.disk.Valid() && FileSize(b.size).Ok?
      modifies this`image, this`build, this`revision, this`hash
      ensures image != null && fresh(Parts()) && image.Valid()
      ensures image.source == source && image.content == content && image.dirty == map[] && View() == image.base
      ensures image.base == FileView(Medium(content, b.disk, b.size))
      ensures build.None? && hash.None? && revision == old(revision) + 1
    {
      build, hash := None, None;
      Mount(source, content, b.size, b.disk);
    }

    method Cancel()
      requires Valid()
      modifies this`unmodified, this`build, this`hash
      ensures Valid() && unmodified.None? && build.None? && hash.None? && Doing() == IDLE
    {
      unmodified, build, hash := None, None, None;
    }

    method Read(io: Io, offset: nat, len: nat) returns (r: Result<seq<Byte>>)
      requires Valid() && Sees(io)
      modifies Caches()
      ensures Valid()
      ensures r.Ok? ==> image != null && |r.value| == len && Shows(r.value, View(), offset)
      ensures r.Err? ==>
        || r.error == Cancelled || r.error == IoError || (r.error == Operation && image == null)
        || (r.error == Corruption && image != null && image.Lost(offset, len))
      ensures r.Err? && Sure(io) ==> image == null || !Told(View(), offset, len)
    {
      if image == null {
        return Err(Operation);
      }
      r := image.Read(io, offset, len);
    }

    /** A write replaces exactly its slice of the view, or changes nothing. */
    method Write(io: Io, offset: nat, bytes: seq<Byte>) returns (r: Result<()>)
      requires Valid() && Sees(io)
      modifies this`revision, Parts()
      ensures Valid() && Parts() == old(Parts())
      ensures r.Ok? ==> image != null && offset + |bytes| <= image.size && View() == Splice(old(View()), offset, bytes)
      ensures r.Ok? ==> Edges(old(View()), offset, |bytes|)
      ensures r.Err? && Sure(io) ==>
        image == null || offset + |bytes| > image.size || !Edges(old(View()), offset, |bytes|)
      ensures r.Ok? && bytes != [] ==> revision == old(revision) + 1
      ensures r.Err? || bytes == [] ==> revision == old(revision) && (image != null ==> image.dirty == old(image.dirty))
      ensures r.Err? && image != null ==> View() == old(View())
      ensures Doing() == old(Doing())
    {
      if image == null {
        return Err(Operation);
      }
      if !image.InBounds(offset, |bytes|) {
        return Err(IoError);
      }
      var _ :- Check(io.calm);
      if |bytes| == 0 {
        assert Splice(View(), offset, bytes) == View();
        return Ok(());
      }
      var staged :- image.Stage(io, offset, bytes);
      var _ :- Check(io.calm);
      image.StagedSplices(staged, offset, bytes);
      image.dirty := image.dirty + staged;
      revision := revision + 1;
      r := Ok(());
    }

    method Discard() returns (r: Result<()>)
      requires Valid()
      modifies this, Parts()
      ensures Valid() && image == old(image) && Parts() == old(Parts())
      ensures r.Ok? <==> image != null
      ensures r.Ok? ==> image.dirty == map[] && View() == image.base && revision == old(revision) + 1
      ensures r.Ok? ==> unmodified.None? && build.None? && hash.None? && Doing() == IDLE
      ensures r.Err? ==> unchanged(this)
    {
      if image == null {
        return Err(Operation);
      }
      image.dirty := map[];
      FlatClean(image.base);
      revision := revision + 1;
      unmodified, build, hash := None, None, None;
      r := Ok(());
    }

    method ClearCache()
      requires Valid()
      modifies Parts()
      ensures Valid() && fresh(Parts() - old(Parts()))
      ensures (image != null ==>
        View() == old(View()) && image.dirty == old(image.dirty) && image.cache.values == map[])
    {
      if image != null {
        image.cache := new C.Cache();
      }
    }

    method VerifyStart() returns (r: Result<()>)
      requires Valid()
      modifies this`hash
      ensures Valid()
      ensures r.Ok? <==> image != null
      ensures r.Ok? ==> hash == Some(Hashing([], 0, revision))
      ensures r.Ok? ==> Doing() == old(Doing()).(verify := Some(Progress(revision, 0)))
      ensures r.Err? ==> unchanged(this)
    {
      if image == null {
        return Err(Operation);
      }
      hash := Some(Hashing([], 0, revision));
      r := Ok(());
    }

    /** A digest is the hash of the whole view, each byte fed once and in order,
        however many earlier steps failed; after a write there is none. */
    method VerifyStep(io: Io) returns (r: Result<Option<Digest>>)
      requires Valid() && Sees(io)
      modifies this`hash, Caches()
      ensures Valid()
      ensures r.Ok? ==> old(hash).Some? && old(hash).value.revision == revision && image != null
      ensures r.Ok? && r.value.Some? ==>
        && |r.value.value.content| == image.size && Shows(r.value.value.content, View(), 0)
        && hash.None?
      ensures r.Ok? ==>
        && image != null && old(VerifyGoesOn())
        && Doing() == Verified(old(Doing()), old(Doing()).verify.value, image.size)
        && (r.value.Some? <==> Doing().verify.None?)
      ensures r.Err? ==> Doing() == old(Doing()) || (!io.calm && Interrupted(old(Doing())))
      ensures r.Err? && Sure(io) && image != null ==> !old(VerifyGoesOn())
    {
      var _ :- Check(io.calm);
      if hash.None? || hash.value.revision != revision {
        return Err(Operation);
      }
      r := Advance(io);
    }

    // The verification in progress can go on.
    ghost predicate VerifyGoesOn()
      requires ImageOk() && image != null
      reads this, image, Parts()
    {
      GoesOn(Doing().verify, revision, View())
    }

    // A verification has read its chunk and then stopped.
    ghost predicate Interrupted(was: Work)
      reads this
    {
      Fresh(was.verify, revision) && Doing() == Fed(was, was.verify.value)
    }

    // One step of a verification that is in progress and not stale.
    method Advance(io: Io) returns (r: Result<Option<Digest>>)
      requires Valid() && Sees(io) && hash.Some? && hash.value.revision == revision
      modifies this`hash, Caches()
      ensures Valid()
      ensures r.Ok? && r.value.Some? ==>
        && |r.value.value.content| == image.size && Shows(r.value.value.content, View(), 0)
        && hash.None?
      ensures r.Ok? ==>
        && image != null && old(VerifyGoesOn())
        && Doing() == Verified(old(Doing()), old(Doing()).verify.value, image.size)
        && (r.value.Some? <==> Doing().verify.None?)
      ensures r.Err? ==> Doing() == old(Doing()) || (!io.calm && Interrupted(old(Doing())))
      ensures r.Err? && Sure(io) ==> !old(VerifyGoesOn())
    {
      var offset := hash.value.index * CHUNK;
      if offset < image.size {
        var _ :- Feed(io, hash.value);
      }
      if offset + CHUNK >= image.size {
        var _ :- Check(io.calm);
        var digest := Finish();
        return Ok(Some(digest));
      }
      r := Ok(None);
    }

    method Finish() returns (digest: Digest)
      requires Valid() && hash.Some? && hash.value.revision == revision && hash.value.index * CHUNK >= image.size
      modifies this`hash
      ensures Valid() && hash.None?
      ensures |digest.content| == image.size && Shows(digest.content, View(), 0)
    {
      digest := Sha256(hash.value.fed);
      hash := None;
    }

    // Reads the next chunk of the view into the hash.
    method Feed(io: Io, h: Hashing) returns (r: Result<()>)
      requires Valid() && Sees(io) && hash == Some(h) && h.revision == revision && h.index * CHUNK < image.size
      modifies this`hash, Caches()
      ensures Valid()
      ensures r.Ok? ==> hash.Some? && hash.value.revision == revision && hash.value.index == h.index + 1
      ensures r.Ok? ==> ChunkTold(View(), h.index)
      ensures r.Err? ==> unchanged(this`hash)
      ensures r.Err? && Sure(io) ==> !ChunkTold(View(), h.index)
    {
      var offset := h.index * CHUNK;
      var b :- image.Read(io, offset, Min(image.size - offset, CHUNK));
      ShowsTold(b, View(), offset);
      HashNext(h, b, revision, View());
      hash := Some(Hashing(h.fed + b, h.index + 1, revision));
      r := Ok(());
    }

    method StateOverlay() returns (r: Result<seq<Byte>>)
      requires Valid()
      ensures r.Ok? <==> identity.Some? && image != null
      ensures r.Ok? ==> SectorCodec.Serialises(r.value, image.dirty, image.size)
    {
      if identity.None? {
        return Err(ReadOnly);
      }
      if image == null {
        return Err(Operation);
      }
      var out := SectorCodec.Serialize(image.dirty, image.size);
      r := Ok(out);
    }

    /** An independent engine over the same file with the dirty sectors that
        `bytes` serialise; refused, with no effect, exactly when `bytes` serialise
        no dirty map of this disk. */
    method ForkState(bytes: seq<Byte>) returns (r: Result<Engine>)
      requires Valid()
      ensures r.Ok? ==>
        image != null && build.None? && r.value.Valid() && fresh(r.value) && r.value.image != null
          && fresh(r.value.Parts())
      ensures r.Ok? ==>
        && r.value.identity == identity && r.value.revision == revision + 1
        && r.value.build.None? && r.value.hash.None? && r.value.unmodified.None?
      ensures r.Ok? ==>
        && r.value.image.source == image.source && r.value.image.content == image.content
        && r.value.image.size == image.size && r.value.image.disk == image.disk && r.value.image.base == image.base
      ensures r.Ok? ==> SectorCodec.Serialises(bytes, r.value.image.dirty, image.size)
      ensures r.Ok? ==> r.value.View() == Flat(image.base, r.value.image.dirty)
      ensures build.None? && image != null && r.Err? ==> forall d :: !SectorCodec.Serialises(bytes, d, image.size)
      ensures build.Some? || image == null ==> r == Err(Operation)
    {
      if build.Some? || image == null {
        return Err(Operation);
      }
      var dirty :- SectorCodec.Deserialize(bytes, image.size);
      var copy := new Image(image.source, image.content, image.size, image.disk, dirty);
      image.SameBase(copy);
      var e := new Engine.WithImage(identity, copy, revision + 1);
      r := Ok(e);
    }
  }
}
