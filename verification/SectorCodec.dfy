/** The serialised dirty sectors of a saved machine state (src/disk/src/snapshot.rs):
    ascending records of an LE64 sector, an LE32 length and the bytes. */
module SectorCodec {
  import opened Octets
  import opened DiskHeader
  import opened DiskView

  datatype Rec = Rec(sector: nat, bytes: seq<Byte>)

  function RecBytes(r: Rec): (b: seq<Byte>)
    ensures |b| == 12 + |r.bytes|
  {
    LE(r.sector, 8) + LE(|r.bytes|, 4) + r.bytes
  }

  function Flatten(rs: seq<Rec>): seq<Byte> {
    if rs == [] then [] else Flatten(rs[..|rs| - 1]) + RecBytes(rs[|rs| - 1])
  }

  ghost predicate Fits(r: Rec, size: nat) {
    r.sector * SECTOR < size && |r.bytes| == Min(size - r.sector * SECTOR, SECTOR)
  }

  ghost predicate AllFit(rs: seq<Rec>, size: nat) {
    forall i :: 0 <= i < |rs| ==> Fits(rs[i], size)
  }

  ghost predicate Ordered(rs: seq<Rec>, size: nat) {
    && AllFit(rs, size)
    && forall i, j :: 0 <= i < j < |rs| ==> rs[i].sector < rs[j].sector
  }

  ghost predicate Has(rs: seq<Rec>, s: nat) {
    exists i :: 0 <= i < |rs| && rs[i].sector == s
  }

  // `rs` is the ascending list of the sectors of `d`.
  ghost predicate Lists(rs: seq<Rec>, d: Sectors, size: nat) {
    && Ordered(rs, size)
    && (forall i :: 0 <= i < |rs| ==> rs[i].sector in d && d[rs[i].sector] == rs[i].bytes)
    && forall s :: s in d ==> Has(rs, s)
  }

  /** Bytes that serialise the dirty map `d`. */
  ghost predicate Serialises(bytes: seq<Byte>, d: Sectors, size: nat) {
    exists rs :: Lists(rs, d, size) && Flatten(rs) == bytes
  }

  lemma ListsAppend(rs: seq<Rec>, d: Sectors, size: nat, r: Rec)
    requires Lists(rs, d, size) && Fits(r, size) && forall j :: j in d ==> j < r.sector
    ensures Lists(rs + [r], d[r.sector := r.bytes], size)
    ensures Flatten(rs + [r]) == Flatten(rs) + RecBytes(r)
  {
    var rs', d' := rs + [r], d[r.sector := r.bytes];
    assert rs'[..|rs|] == rs;
    forall s | s in d'
      ensures Has(rs', s)
    {
      if s == r.sector {
        assert rs'[|rs|].sector == s;
      } else {
        assert Has(rs, s);
        var i :| 0 <= i < |rs| && rs[i].sector == s;
        assert rs'[i].sector == s;
      }
    }
  }

  lemma Assoc<T>(a: seq<T>, b: seq<T>, c: seq<T>)
    ensures a + b + c == a + (b + c)
  {
  }

  lemma Cancel<T>(a: seq<T>, b: seq<T>, c: seq<T>)
    ensures a + b <= a + c ==> b <= c
    ensures (a + c)[|a|..] == c
  {
    if a + b <= a + c {
      assert forall i :: 0 <= i < |b| ==> (a + b)[|a| + i] == b[i] && (a + c)[|a| + i] == c[i];
    }
  }

  lemma SnocPrefix<T>(rs: seq<T>, all: seq<T>)
    requires 0 < |rs| <= |all| && rs[..|rs| - 1] == all[..|rs| - 1] && rs[|rs| - 1] == all[|rs| - 1]
    ensures rs == all[..|rs|]
  {
    assert rs == rs[..|rs| - 1] + [rs[|rs| - 1]];
  }

  lemma {:induction false} FlattenFirst(rs: seq<Rec>)
    requires rs != []
    ensures Flatten(rs) == RecBytes(rs[0]) + Flatten(rs[1..])
  {
    var n := |rs| - 1;
    if n == 0 {
      assert rs[..0] == [] && rs[1..] == [];
    } else {
      var front := rs[..n];
      FlattenFirst(front);
      assert rs[1..][..n - 1] == front[1..] && rs[1..][n - 1] == rs[n];
      Assoc(RecBytes(rs[0]), Flatten(front[1..]), RecBytes(rs[n]));
    }
  }

  // The code is prefix-free: at most one record starts any byte string.
  lemma RecUnique(r: Rec, q: Rec, b: seq<Byte>, size: nat)
    requires size <= MAX_SIZE && Fits(r, size) && Fits(q, size)
    requires RecBytes(r) <= b && RecBytes(q) <= b
    ensures r == q
  {
    RecFields(r, b, size);
    RecFields(q, b, size);
  }

  lemma RecFields(r: Rec, b: seq<Byte>, size: nat)
    requires size <= MAX_SIZE && Fits(r, size) && RecBytes(r) <= b
    ensures FromLE(b[..8]) == r.sector && FromLE(b[8..12]) == |r.bytes|
    ensures b[12..12 + |r.bytes|] == r.bytes
  {
    var c := RecBytes(r);
    Powers();
    LEInverse(r.sector, 8);
    LEInverse(|r.bytes|, 4);
    assert b[..8] == c[..8] == LE(r.sector, 8);
    assert b[8..12] == c[8..12] == LE(|r.bytes|, 4);
    assert b[12..12 + |r.bytes|] == c[12..];
  }

  /** Records already read are the first records of every list with these bytes. */
  lemma {:induction false} ReadPrefix(rs: seq<Rec>, all: seq<Rec>, size: nat)
    requires size <= MAX_SIZE && AllFit(rs, size) && AllFit(all, size)
    requires Flatten(rs) <= Flatten(all)
    ensures |rs| <= |all| && rs == all[..|rs|]
    ensures Flatten(all) == Flatten(rs) + Flatten(all[|rs|..])
  {
    if rs == [] {
      assert all[0..] == all;
    } else {
      var n := |rs| - 1;
      var front, last := rs[..n], rs[n];
      ReadPrefix(front, all, size);
      var tail := all[n..];
      var bytes := Flatten(tail);
      Cancel(Flatten(front), RecBytes(last), bytes);
      assert |tail| > 0;
      FlattenFirst(tail);
      assert RecBytes(tail[0]) <= bytes;
      RecUnique(last, tail[0], bytes, size);
      assert tail[1..] == all[|rs|..];
      Assoc(Flatten(front), RecBytes(last), Flatten(tail[1..]));
      SnocPrefix(rs, all);
    }
  }

  lemma ListsDetermines(rs: seq<Rec>, a: Sectors, b: Sectors, size: nat)
    requires Lists(rs, a, size) && Lists(rs, b, size)
    ensures a == b
  {
    forall s | s in a
      ensures s in b && a[s] == b[s]
    {
      assert Has(rs, s);
      var i :| 0 <= i < |rs| && rs[i].sector == s;
    }
    forall s | s in b
      ensures s in a
    {
      assert Has(rs, s);
      var i :| 0 <= i < |rs| && rs[i].sector == s;
    }
  }

  /** Bytes serialise one dirty map at most. */
  lemma OneMap(bytes: seq<Byte>, a: Sectors, b: Sectors, size: nat)
    requires size <= MAX_SIZE && Serialises(bytes, a, size) && Serialises(bytes, b, size)
    ensures a == b
  {
    var rs :| Lists(rs, a, size) && Flatten(rs) == bytes;
    var qs :| Lists(qs, b, size) && Flatten(qs) == bytes;
    ReadPrefix(rs, qs, size);
    ReadPrefix(qs, rs, size);
    assert rs == qs;
    ListsDetermines(rs, a, b, size);
  }

  lemma SameLast(rs: seq<Rec>, qs: seq<Rec>, d: Sectors, size: nat)
    requires Lists(rs, d, size) && Lists(qs, d, size) && |rs| > 0 && |qs| > 0
    ensures rs[|rs| - 1] == qs[|qs| - 1]
  {
    LastIsHighest(rs, d, size, qs[|qs| - 1].sector);
    LastIsHighest(qs, d, size, rs[|rs| - 1].sector);
  }

  lemma ListsEmpty(rs: seq<Rec>, d: Sectors, size: nat)
    requires Lists(rs, d, size)
    ensures |rs| == 0 <==> d == map[]
  {
    if |rs| > 0 {
      assert rs[0].sector in d;
    } else {
      assert forall s :: s in d ==> Has(rs, s);
    }
  }

  lemma {:induction false} OneList(rs: seq<Rec>, qs: seq<Rec>, d: Sectors, size: nat)
    requires Lists(rs, d, size) && Lists(qs, d, size)
    ensures rs == qs
    decreases |rs|
  {
    ListsEmpty(rs, d, size);
    ListsEmpty(qs, d, size);
    if d != map[] {
      var front, last, front' := rs[..|rs| - 1], rs[|rs| - 1], qs[..|qs| - 1];
      SameLast(rs, qs, d, size);
      var rest := d - {last.sector};
      ListsFront(rs, d, size, rest);
      ListsFront(qs, d, size, rest);
      OneList(front, front', rest, size);
      assert rs == front + [last] && qs == front' + [last];
    }
  }

  lemma LastIsHighest(rs: seq<Rec>, d: Sectors, size: nat, s: nat)
    requires Lists(rs, d, size) && rs != [] && s in d
    ensures s <= rs[|rs| - 1].sector
  {
    assert Has(rs, s);
    var i :| 0 <= i < |rs| && rs[i].sector == s;
  }

  lemma ListsFront(rs: seq<Rec>, d: Sectors, size: nat, rest: Sectors)
    requires Lists(rs, d, size) && |rs| > 0 && rest == d - {rs[|rs| - 1].sector}
    ensures Lists(rs[..|rs| - 1], rest, size)
  {
    var n := |rs| - 1;
    FrontOrdered(rs, size);
    forall s | s in rest
      ensures Has(rs[..n], s)
    {
      assert Has(rs, s);
      var i :| 0 <= i < |rs| && rs[i].sector == s;
      assert rs[..n][i].sector == s;
    }
    forall i | 0 <= i < n
      ensures rs[..n][i].sector in rest && rest[rs[..n][i].sector] == rs[..n][i].bytes
    {
      assert rs[..n][i] == rs[i] && rs[i].sector < rs[n].sector;
    }
  }

  lemma FrontOrdered(rs: seq<Rec>, size: nat)
    requires Ordered(rs, size) && |rs| > 0
    ensures Ordered(rs[..|rs| - 1], size)
  {
  }

  /** A dirty map has one serialisation at most. */
  lemma OneSerialisation(a: seq<Byte>, b: seq<Byte>, d: Sectors, size: nat)
    requires Serialises(a, d, size) && Serialises(b, d, size)
    ensures a == b
  {
    var rs :| Lists(rs, d, size) && Flatten(rs) == a;
    var qs :| Lists(qs, d, size) && Flatten(qs) == b;
    OneList(rs, qs, d, size);
  }

  predicate Lowest(d: Sectors, k: nat) {
    k in d && forall j :: j in d ==> k <= j
  }

  lemma {:induction false} HasLowest(d: Sectors)
    requires d != map[]
    ensures exists k :: Lowest(d, k)
    decreases |d|
  {
    var k :| k in d;
    var rest := d - {k};
    assert forall j :: j in d ==> j == k || j in rest;
    if rest == map[] {
      assert Lowest(d, k);
    } else {
      HasLowest(rest);
      var l :| Lowest(rest, l);
      assert Lowest(d, if k < l then k else l);
    }
  }

  // The part of a map already written, and the step that writes one more sector.
  ghost predicate Written(dirty: Sectors, written: Sectors, rest: Sectors) {
    && written.Keys !! rest.Keys && dirty == written + rest
    && forall j, k :: j in written && k in rest ==> j < k
  }

  lemma WrittenNext(dirty: Sectors, written: Sectors, rest: Sectors, k: nat)
    requires Written(dirty, written, rest) && Lowest(rest, k)
    ensures Written(dirty, written[k := rest[k]], rest - {k})
  {
    forall j | j in rest - {k}
      ensures k < j
    {
    }
  }

  ghost predicate SerializedSoFar(
      dirty: Sectors, written: Sectors, rest: Sectors, rs: seq<Rec>, size: nat, out: seq<Byte>) {
    Written(dirty, written, rest) && Lists(rs, written, size) && Flatten(rs) == out
  }

  lemma NothingWritten(dirty: Sectors, size: nat)
    requires WellFormed(dirty, size)
    ensures SerializedSoFar(dirty, map[], dirty, [], size, [])
  {
  }

  lemma AllWritten(dirty: Sectors, written: Sectors, rs: seq<Rec>, size: nat, out: seq<Byte>)
    requires SerializedSoFar(dirty, written, map[], rs, size, out)
    ensures Serialises(out, dirty, size)
  {
    assert written == dirty;
  }

  lemma SerializeStep(dirty: Sectors, written: Sectors, rest: Sectors, rs: seq<Rec>, size: nat, out: seq<Byte>, k: nat)
    returns (written': Sectors, rs': seq<Rec>)
    requires WellFormed(dirty, size) && SerializedSoFar(dirty, written, rest, rs, size, out) && Lowest(rest, k)
    ensures SerializedSoFar(dirty, written', rest - {k}, rs', size, out + RecBytes(Rec(k, rest[k])))
    ensures |rest - {k}| < |rest|
  {
    var r := Rec(k, rest[k]);
    assert Fits(r, size) by { assert k in dirty; }
    ListsAppend(rs, written, size, r);
    WrittenNext(dirty, written, rest, k);
    written', rs' := written[k := rest[k]], rs + [r];
    assert rest == (rest - {k})[k := rest[k]];
  }

  /** The loop of `state_overlay`, in key order. */
  method Serialize(dirty: Sectors, ghost size: nat) returns (out: seq<Byte>)
    requires WellFormed(dirty, size)
    ensures Serialises(out, dirty, size)
  {
    out := [];
    var rest := dirty;
    ghost var written: Sectors, rs: seq<Rec> := map[], [];
    NothingWritten(dirty, size);
    while rest != map[]
      invariant SerializedSoFar(dirty, written, rest, rs, size, out)
      decreases |rest|
    {
      HasLowest(rest);
      var k :| k in rest && Lowest(rest, k);
      written, rs := SerializeStep(dirty, written, rest, rs, size, out, k);
      out := out + RecBytes(Rec(k, rest[k]));
      rest := rest - {k};
    }
    AllWritten(dirty, written, rs, size, out);
  }

  // What every list of records with these bytes says about the next one.
  lemma NextRecord(rs: seq<Rec>, all: seq<Rec>, size: nat)
    requires size <= MAX_SIZE && AllFit(rs, size) && AllFit(all, size)
    requires Flatten(rs) < Flatten(all)
    ensures |rs| < |all| && rs == all[..|rs|]
    ensures RecBytes(all[|rs|]) <= Flatten(all)[|Flatten(rs)|..]
  {
    ReadPrefix(rs, all, size);
    var tail := all[|rs|..];
    Cancel(Flatten(rs), [], Flatten(tail));
    assert |tail| == 0 ==> Flatten(tail) == [];
    FlattenFirst(tail);
  }

  // One iteration of the reading loop: the checks `fork_state` makes at `pos`.
  predicate Acceptable(bytes: seq<Byte>, pos: nat, size: nat, previous: Option<nat>)
    requires pos < |bytes|
  {
    && |bytes| - pos >= 12
    && var sector := FromLE(bytes[pos..][..8]); var len := FromLE(bytes[pos..][8..12]);
    && sector * SECTOR < 0x1_0000_0000_0000_0000
    && sector * SECTOR < size
    && (previous.Some? ==> sector > previous.value)
    && len == Min(size - sector * SECTOR, SECTOR)
    && len <= |bytes| - pos - 12
  }

  // A serialisation is never refused.
  lemma NotRefused(rs: seq<Rec>, d: Sectors, bytes: seq<Byte>, pos: nat, size: nat, previous: Option<nat>)
    requires size <= MAX_SIZE && Ordered(rs, size) && Serialises(bytes, d, size)
    requires pos < |bytes| && Flatten(rs) == bytes[..pos]
    requires previous == if rs == [] then None else Some(rs[|rs| - 1].sector)
    ensures Acceptable(bytes, pos, size, previous)
  {
    var all :| Lists(all, d, size) && Flatten(all) == bytes;
    assert |bytes[..pos]| < |bytes|;
    NextRecord(rs, all, size);
    var r := all[|rs|];
    assert Fits(r, size);
    assert rs != [] ==> all[|rs| - 1] == rs[|rs| - 1];
    RecordAccepted(bytes, pos, size, previous, r);
  }

  lemma RecordAccepted(bytes: seq<Byte>, pos: nat, size: nat, previous: Option<nat>, r: Rec)
    requires size <= MAX_SIZE && pos < |bytes| && Fits(r, size) && RecBytes(r) <= bytes[pos..]
    requires previous.Some? ==> r.sector > previous.value
    ensures Acceptable(bytes, pos, size, previous)
  {
    RecFields(r, bytes[pos..], size);
  }

  // An acceptable position holds one more record.
  lemma Accepted(bytes: seq<Byte>, pos: nat, size: nat, previous: Option<nat>) returns (r: Rec)
    requires pos < |bytes| && Acceptable(bytes, pos, size, previous)
    ensures r.sector == FromLE(bytes[pos..][..8]) && |r.bytes| == FromLE(bytes[pos..][8..12])
    ensures Fits(r, size) && pos + |RecBytes(r)| <= |bytes| && (previous.Some? ==> r.sector > previous.value)
    ensures r.bytes == bytes[pos + 12..pos + 12 + |r.bytes|]
    ensures bytes[..pos + |RecBytes(r)|] == bytes[..pos] + RecBytes(r)
  {
    var sector, len := FromLE(bytes[pos..][..8]), FromLE(bytes[pos..][8..12]);
    r := Rec(sector, bytes[pos + 12..pos + 12 + len]);
    FieldBytes(bytes, pos, r);
    Joined(bytes, pos, RecBytes(r));
  }

  lemma FieldBytes(bytes: seq<Byte>, pos: nat, r: Rec)
    requires pos + 12 + |r.bytes| <= |bytes| && r.bytes == bytes[pos + 12..pos + 12 + |r.bytes|]
    requires r.sector == FromLE(bytes[pos..][..8]) && |r.bytes| == FromLE(bytes[pos..][8..12])
    ensures bytes[pos..pos + 12 + |r.bytes|] == RecBytes(r)
  {
    FromLEInverse(bytes[pos..][..8]);
    FromLEInverse(bytes[pos..][8..12]);
    ThreeParts(bytes, pos, |r.bytes|);
  }

  lemma ThreeParts(bytes: seq<Byte>, pos: nat, len: nat)
    requires pos + 12 + len <= |bytes|
    ensures bytes[pos..pos + 12 + len] == bytes[pos..][..8] + bytes[pos..][8..12] + bytes[pos + 12..pos + 12 + len]
  {
  }

  lemma Joined(bytes: seq<Byte>, pos: nat, part: seq<Byte>)
    requires pos + |part| <= |bytes| && bytes[pos..pos + |part|] == part
    ensures bytes[..pos + |part|] == bytes[..pos] + part
  {
  }

  // The records `rs` are what has been read up to `pos`.
  ghost predicate ReadSoFar(
      rs: seq<Rec>, dirty: Sectors, bytes: seq<Byte>, pos: nat, size: nat, previous: Option<nat>) {
    && pos <= |bytes|
    && Lists(rs, dirty, size) && Flatten(rs) == bytes[..pos]
    && previous == if rs == [] then None else Some(rs[|rs| - 1].sector)
  }

  lemma AboveAll(rs: seq<Rec>, d: Sectors, size: nat, previous: Option<nat>, sector: nat)
    requires Lists(rs, d, size) && (previous.Some? ==> sector > previous.value)
    requires previous == if rs == [] then None else Some(rs[|rs| - 1].sector)
    ensures forall j :: j in d ==> j < sector
  {
    ListsEmpty(rs, d, size);
    forall j | j in d
      ensures j < sector
    {
      LastIsHighest(rs, d, size, j);
    }
  }

  lemma ReadStep(
    rs: seq<Rec>, dirty: Sectors, bytes: seq<Byte>, pos: nat, size: nat, previous: Option<nat>)
    returns (rs': seq<Rec>)
    requires pos < |bytes| && ReadSoFar(rs, dirty, bytes, pos, size, previous) && Acceptable(bytes, pos, size, previous)
    ensures var sector := FromLE(bytes[pos..][..8]); var end := pos + 12 + FromLE(bytes[pos..][8..12]);
      ReadSoFar(rs', dirty[sector := bytes[pos + 12..end]], bytes, end, size, Some(sector))
  {
    var rec := Accepted(bytes, pos, size, previous);
    assert pos + |RecBytes(rec)| == pos + 12 + |rec.bytes|;
    rs' := ReadOne(rs, dirty, bytes, pos, size, previous, rec);
  }

  lemma ReadOne(
    rs: seq<Rec>, dirty: Sectors, bytes: seq<Byte>, pos: nat, size: nat, previous: Option<nat>, rec: Rec)
    returns (rs': seq<Rec>)
    requires ReadSoFar(rs, dirty, bytes, pos, size, previous) && Fits(rec, size)
    requires previous.Some? ==> rec.sector > previous.value
    requires pos + |RecBytes(rec)| <= |bytes| && bytes[..pos + |RecBytes(rec)|] == bytes[..pos] + RecBytes(rec)
    ensures ReadSoFar(rs', dirty[rec.sector := rec.bytes], bytes, pos + |RecBytes(rec)|, size, Some(rec.sector))
  {
    AboveAll(rs, dirty, size, previous, rec.sector);
    ListsAppend(rs, dirty, size, rec);
    rs' := rs + [rec];
  }

  lemma Refused(rs: seq<Rec>, dirty: Sectors, bytes: seq<Byte>, pos: nat, size: nat, previous: Option<nat>)
    requires size <= MAX_SIZE && pos < |bytes| && ReadSoFar(rs, dirty, bytes, pos, size, previous)
    requires !Acceptable(bytes, pos, size, previous)
    ensures forall d :: !Serialises(bytes, d, size)
  {
    forall d
      ensures !Serialises(bytes, d, size)
    {
      if Serialises(bytes, d, size) {
        NotRefused(rs, d, bytes, pos, size, previous);
      }
    }
  }

  /** The loop of `fork_state`. Bytes are accepted exactly when they serialise a
      well-formed dirty map, and that map is the result. */
  method Deserialize(bytes: seq<Byte>, size: nat) returns (r: Result<Sectors>)
    requires size <= MAX_SIZE
    ensures r.Ok? ==> WellFormed(r.value, size) && Serialises(bytes, r.value, size)
    ensures r.Err? ==> r == Err(Corruption) && forall d :: !Serialises(bytes, d, size)
  {
    var dirty: Sectors := map[];
    var pos := 0;
    var previous: Option<nat> := None;
    ghost var rs: seq<Rec> := [];
    while pos < |bytes|
      invariant 0 <= pos <= |bytes| && ReadSoFar(rs, dirty, bytes, pos, size, previous)
      decreases |bytes| - pos
    {
      if !Acceptable(bytes, pos, size, previous) {
        Refused(rs, dirty, bytes, pos, size, previous);
        return Err(Corruption);
      }
      rs := ReadStep(rs, dirty, bytes, pos, size, previous);
      var sector, end := FromLE(bytes[pos..][..8]), pos + 12 + FromLE(bytes[pos..][8..12]);
      dirty, previous, pos := dirty[sector := bytes[pos + 12..end]], Some(sector), end;
    }
    assert bytes[..pos] == bytes;
    ListsWellFormed(rs, dirty, size);
    r := Ok(dirty);
  }

  lemma ListsWellFormed(rs: seq<Rec>, d: Sectors, size: nat)
    requires Lists(rs, d, size)
    ensures WellFormed(d, size)
  {
    forall s | s in d
      ensures s * SECTOR < size && |d[s]| == Min(size - s * SECTOR, SECTOR)
    {
      assert Has(rs, s);
      var i :| 0 <= i < |rs| && rs[i].sector == s;
    }
  }

  /** Mutual inverses: reading back what was written gives the same map, and
      writing what was read gives the same bytes. */
  method RoundTrips(
    dirty: Sectors, bytes: seq<Byte>, size: nat) returns (again: Result<Sectors>, rewritten: Result<seq<Byte>>)
    requires size <= MAX_SIZE && WellFormed(dirty, size)
    ensures again == Ok(dirty)
    ensures rewritten.Ok? ==> rewritten.value == bytes
    ensures rewritten.Err? <==> forall d :: !Serialises(bytes, d, size)
  {
    var out := Serialize(dirty, size);
    again := Deserialize(out, size);
    assert again.Ok?;
    OneMap(out, again.value, dirty, size);
    var read := Deserialize(bytes, size);
    if read.Ok? {
      var b := Serialize(read.value, size);
      OneSerialisation(b, bytes, read.value, size);
      rewritten := Ok(b);
    } else {
      rewritten := Err(Corruption);
    }
  }
}
