/** The plaintext chunk cache of src/disk/src/lib.rs: an exact byte counter, a
    recency tick per entry, and eviction of the least recent entries. */
module ChunkCache {
  import opened Octets

  const CACHE_LIMIT := 32 * 1024 * 1024 - 512

  datatype Entry = Entry(bytes: seq<Byte>, tick: nat)

  type Entries = map<nat, Entry>

  ghost function Total(m: Entries): (r: nat)
    decreases |m|
  {
    if m == map[] then 0
    else
      var k :| k in m;
      |m[k].bytes| + Total(m - {k})
  }

  lemma {:induction false} TotalRemove(m: Entries, k: nat)
    requires k in m
    ensures Total(m) == |m[k].bytes| + Total(m - {k})
    decreases |m|
  {
    var j :| j in m && Total(m) == |m[j].bytes| + Total(m - {j});
    if j != k {
      TotalRemove(m - {j}, k);
      TotalRemove(m - {k}, j);
      assert m - {j} - {k} == m - {k} - {j};
    }
  }

  lemma TotalInsert(m: Entries, k: nat, e: Entry)
    requires k !in m
    ensures Total(m[k := e]) == Total(m) + |e.bytes|
  {
    TotalRemove(m[k := e], k);
    assert m[k := e] - {k} == m;
  }

  lemma {:induction false} TotalTouch(m: Entries, k: nat, tick: nat)
    requires k in m
    ensures Total(m[k := m[k].(tick := tick)]) == Total(m)
  {
    var m' := m[k := m[k].(tick := tick)];
    TotalRemove(m, k);
    TotalRemove(m', k);
    assert m' - {k} == m - {k};
  }

  predicate Oldest(m: Entries, k: nat) {
    k in m && forall j :: j in m ==> m[k].tick <= m[j].tick
  }

  lemma {:induction false} HasOldest(m: Entries)
    requires m != map[]
    ensures exists k :: Oldest(m, k)
    decreases |m|
  {
    var k :| k in m;
    var rest := m - {k};
    if rest == map[] {
      assert m.Keys == {k} by {
        forall j | j in m ensures j == k { assert j in rest + map[k := m[k]]; }
      }
      assert Oldest(m, k);
    } else {
      HasOldest(rest);
      var o :| Oldest(rest, o);
      assert forall j :: j in m ==> j == k || j in rest;
      if m[k].tick <= m[o].tick {
        assert Oldest(m, k);
      } else {
        assert Oldest(m, o);
      }
    }
  }

  // The entries of `m` used at tick `cut` or later.
  ghost function Recent(m: Entries, cut: nat): Entries {
    map k | k in m && m[k].tick >= cut :: m[k]
  }

  ghost predicate Overflows(m: Entries, cut: nat, room: nat) {
    Total(Recent(m, cut)) + room > CACHE_LIMIT
  }

  // `left` is what remains of `m` once everything before `cut` is gone, and every
  // earlier cut leaves too much beside `room` more bytes.
  ghost predicate CutAt(m: Entries, left: Entries, cut: nat, room: nat) {
    && left == Recent(m, cut)
    && forall c: nat :: c < cut ==> Overflows(m, c, room)
  }

  /** What eviction must leave of `m` to make room for `room` more bytes: the
      entries used since some tick, and no earlier tick would do. */
  ghost predicate LongestRecent(m: Entries, left: Entries, room: nat) {
    && Total(left) + room <= CACHE_LIMIT
    && exists cut: nat :: CutAt(m, left, cut, room)
  }

  ghost predicate DistinctTicks(m: Entries) {
    forall j, k :: j in m && k in m && m[j].tick == m[k].tick ==> j == k
  }

  ghost predicate TicksUpTo(m: Entries, tick: nat) {
    forall k :: k in m ==> m[k].tick <= tick
  }

  lemma CutNothing(m: Entries, room: nat)
    ensures CutAt(m, m, 0, room)
  {
    assert Recent(m, 0) == m;
  }

  // Dropping the oldest remaining entry moves the cut past it.
  lemma CutOldest(m: Entries, left: Entries, cut: nat, k: nat, room: nat)
    requires DistinctTicks(m) && CutAt(m, left, cut, room) && Oldest(left, k)
    requires Total(left) + room > CACHE_LIMIT
    ensures CutAt(m, left - {k}, m[k].tick + 1, room)
    ensures Total(left) == |left[k].bytes| + Total(left - {k})
  {
    TotalRemove(left, k);
    assert left - {k} == Recent(m, m[k].tick + 1);
    forall c: nat | c <= m[k].tick
      ensures Overflows(m, c, room)
    {
      if cut <= c {
        assert forall j :: j in left ==> j in Recent(m, c);
        assert Recent(m, c) == left;
      }
    }
  }

  lemma Shrinks(m: Entries, k: nat)
    requires k in m
    ensures |m - {k}| < |m|
  {
    assert m == (m - {k})[k := m[k]];
  }

  lemma CutIsValid(m: Entries, left: Entries, cut: nat, room: nat, tick: nat)
    requires DistinctTicks(m) && TicksUpTo(m, tick) && CutAt(m, left, cut, room)
    ensures DistinctTicks(left) && TicksUpTo(left, tick)
  {
  }

  lemma WithKey(m: Entries, tick: nat, key: nat, e: Entry)
    requires DistinctTicks(m) && TicksUpTo(m, tick) && key !in m && e.tick == tick + 1
    ensures DistinctTicks(m[key := e]) && TicksUpTo(m[key := e], tick + 1)
    ensures Total(m[key := e]) == Total(m) + |e.bytes|
    ensures m[key := e] - {key} == m
  {
    TotalInsert(m, key, e);
  }

  lemma WithoutKey(m: Entries, tick: nat, key: nat)
    requires DistinctTicks(m) && TicksUpTo(m, tick)
    ensures DistinctTicks(m - {key}) && TicksUpTo(m - {key}, tick)
    ensures Total(m) == Total(m - {key}) + if key in m then |m[key].bytes| else 0
  {
    if key in m {
      TotalRemove(m, key);
    } else {
      assert m - {key} == m;
    }
  }

  class Cache {
    var values: Entries
    var bytes: nat
    var tick: nat

    ghost predicate Valid()
      reads this
    {
      && bytes == Total(values) <= CACHE_LIMIT
      && TicksUpTo(values, tick)
      && DistinctTicks(values)
    }

    constructor ()
      ensures Valid() && values == map[]
    {
      values, bytes, tick := map[], 0, 0;
    }

    method Get(key: nat) returns (r: Option<seq<Byte>>)
      requires Valid()
      modifies this
      ensures Valid() && bytes == old(bytes) && tick == old(tick) + 1
      ensures r == if key in old(values) then Some(old(values)[key].bytes) else None
      ensures values == if key in old(values) then old(values)[key := Entry(old(values)[key].bytes, tick)]
        else old(values)
    {
      tick := tick + 1;
      if key in values {
        r := Some(values[key].bytes);
        TotalTouch(values, key, tick);
        values := values[key := values[key].(tick := tick)];
      } else {
        r := None;
      }
    }

    method Remove(key: nat)
      requires Valid()
      modifies this`values, this`bytes
      ensures Valid() && values == old(values) - {key}
    {
      WithoutKey(values, tick, key);
      if key in values {
        bytes := bytes - |values[key].bytes|;
      }
      values := values - {key};
    }

    /** The eviction loop of `put`. */
    method MakeRoom(room: nat) returns (ghost cut: nat)
      requires Valid() && room <= CACHE_LIMIT
      modifies this`values, this`bytes
      ensures Valid() && Total(values) + room <= CACHE_LIMIT
      ensures CutAt(old(values), values, cut, room)
    {
      ghost var before := values;
      cut := 0;
      CutNothing(before, room);
      while bytes + room > CACHE_LIMIT
        invariant bytes == Total(values) <= CACHE_LIMIT
        invariant CutAt(before, values, cut, room)
        decreases |values|
      {
        cut := EvictOldest(before, cut, room);
      }
      CutIsValid(before, values, cut, room, tick);
    }

    method EvictOldest(ghost before: Entries, ghost cut: nat, room: nat) returns (ghost next: nat)
      requires DistinctTicks(before) && CutAt(before, values, cut, room) && bytes == Total(values) <= CACHE_LIMIT
      requires room <= CACHE_LIMIT < bytes + room
      modifies this`values, this`bytes
      ensures CutAt(before, values, next, room) && bytes == Total(values) <= CACHE_LIMIT
      ensures |values| < |old(values)|
    {
      HasOldest(values);
      var k :| k in values && Oldest(values, k);
      CutOldest(before, values, cut, k, room);
      Shrinks(values, k);
      next := before[k].tick + 1;
      bytes := bytes - |values[k].bytes|;
      values := values - {k};
    }

    /** The caller's chunks never exceed the limit; a larger one would empty the
        cache and then fail to find an entry to evict. */
    method Put(key: nat, b: seq<Byte>)
      requires Valid() && |b| <= CACHE_LIMIT
      modifies this
      ensures Valid() && tick == old(tick) + 1
      ensures key in values && values[key] == Entry(b, tick)
      ensures LongestRecent(old(values) - {key}, values - {key}, |b|)
      ensures forall k :: k in values && k != key ==> k in old(values) && values[k] == old(values)[k]
    {
      Remove(key);
      ghost var rest := values;
      ghost var cut := MakeRoom(|b|);
      ghost var left := values;
      Insert(key, b);
      assert LongestRecent(rest, left, |b|);
    }

    method Insert(key: nat, b: seq<Byte>)
      requires Valid() && key !in values && Total(values) + |b| <= CACHE_LIMIT
      modifies this
      ensures Valid() && tick == old(tick) + 1 && values == old(values)[key := Entry(b, tick)]
        && values - {key} == old(values)
    {
      WithKey(values, tick, key, Entry(b, tick + 1));
      tick := tick + 1;
      bytes := bytes + |b|;
      values := values[key := Entry(b, tick)];
    }
  }
}
