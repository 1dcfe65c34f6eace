/** Prefetching by observed order (src/disk/web/range-prefetch.js): when a stored
    profile is usable, and which unit comes next. */
module RangeOrder {
  import opened Octets
  import StartupRanges

  type Range = StartupRanges.Interval

  const SLOTS := 32

  // A profile as it was stored: fixed slots, some empty.
  datatype Profile = Profile(version: int, infoHash: string, unitBytes: int, slots: seq<Option<(int, int)>>)

  predicate InFile(r: Range, units: nat) { r.first <= r.last < units }

  predicate Apart(a: Range, b: Range) { a.last < b.first || b.last < a.first }

  /** No unit belongs to two ranges. */
  ghost predicate Disjoint(ranges: seq<Range>) {
    forall i, j :: 0 <= i < j < |ranges| ==> Apart(ranges[i], ranges[j])
  }

  ghost predicate AllInFile(ranges: seq<Range>, units: nat) {
    forall i :: 0 <= i < |ranges| ==> InFile(ranges[i], units)
  }

  // The check of the source: neighbours in order of their first unit.
  predicate NeighboursApart(sorted: seq<Range>) {
    forall i :: 0 < i < |sorted| ==> sorted[i - 1].last < sorted[i].first
  }

  ghost predicate ApartFrom(v: Range, ranges: seq<Range>) { forall u :: u in ranges ==> Apart(u, v) }

  lemma DisjointCons(v: Range, ranges: seq<Range>)
    ensures Disjoint([v] + ranges) <==> ApartFrom(v, ranges) && Disjoint(ranges)
  {
    var front := [v] + ranges;
    if Disjoint(front) {
      forall u | u in ranges
        ensures Apart(u, v)
      {
        var i :| 0 <= i < |ranges| && ranges[i] == u;
        assert front[i + 1] == u && Apart(front[0], front[i + 1]);
      }
      forall i, j | 0 <= i < j < |ranges|
        ensures Apart(ranges[i], ranges[j])
      {
        assert front[i + 1] == ranges[i] && front[j + 1] == ranges[j];
      }
    }
    if ApartFrom(v, ranges) && Disjoint(ranges) {
      forall i, j | 0 <= i < j < |front|
        ensures Apart(front[i], front[j])
      {
        assert front[j] == ranges[j - 1] && ranges[j - 1] in ranges;
        assert i > 0 ==> front[i] == ranges[i - 1];
      }
    }
  }

  lemma DisjointSnoc(v: Range, ranges: seq<Range>)
    ensures Disjoint(ranges + [v]) <==> ApartFrom(v, ranges) && Disjoint(ranges)
  {
    var back := ranges + [v];
    if Disjoint(back) {
      forall u | u in ranges
        ensures Apart(u, v)
      {
        var i :| 0 <= i < |ranges| && ranges[i] == u;
        assert back[i] == u && Apart(back[i], back[|ranges|]);
      }
      forall i, j | 0 <= i < j < |ranges|
        ensures Apart(ranges[i], ranges[j])
      {
        assert back[i] == ranges[i] && back[j] == ranges[j];
      }
    }
    if ApartFrom(v, ranges) && Disjoint(ranges) {
      forall i, j | 0 <= i < j < |back|
        ensures Apart(back[i], back[j])
      {
        assert back[i] == ranges[i] && ranges[i] in ranges;
        assert j < |ranges| ==> back[j] == ranges[j];
      }
    }
  }

  lemma ApartCons(v: Range, x: Range, tail: seq<Range>)
    ensures ApartFrom(v, [x] + tail) <==> Apart(x, v) && ApartFrom(v, tail)
  {
    assert forall u :: u in [x] + tail <==> u == x || u in tail;
  }

  lemma SameMembers(v: Range, a: seq<Range>, b: seq<Range>)
    requires multiset(a) == multiset(b)
    ensures ApartFrom(v, a) <==> ApartFrom(v, b)
  {
    assert forall u :: u in a <==> u in multiset(a);
    assert forall u :: u in b <==> u in multiset(b);
  }

  lemma {:induction false} DisjointInsert(v: Range, sorted: seq<Range>)
    ensures Disjoint(StartupRanges.Insert(v, sorted)) <==> ApartFrom(v, sorted) && Disjoint(sorted)
  {
    if sorted == [] || v.first < sorted[0].first {
      DisjointCons(v, sorted);
    } else {
      var x, tail := sorted[0], sorted[1..];
      var inserted := StartupRanges.Insert(v, tail);
      DisjointInsert(v, tail);
      DisjointCons(x, inserted);
      DisjointCons(x, tail);
      assert sorted == [x] + tail;
      ApartCons(v, x, tail);
      assert multiset([v] + tail) == multiset{v} + multiset(tail);
      SameMembers(x, inserted, [v] + tail);
      ApartCons(x, v, tail);
    }
  }

  lemma DisjointStep(v: Range, init: seq<Range>, sorted: seq<Range>)
    requires multiset(init) == multiset(sorted) && (Disjoint(sorted) <==> Disjoint(init))
    ensures Disjoint(StartupRanges.Insert(v, sorted)) <==> Disjoint(init + [v])
  {
    DisjointInsert(v, sorted);
    DisjointSnoc(v, init);
    SameMembers(v, init, sorted);
  }

  lemma {:induction false} DisjointSort(ranges: seq<Range>)
    ensures Disjoint(StartupRanges.Sort(ranges)) <==> Disjoint(ranges)
  {
    if ranges != [] {
      var n := |ranges| - 1;
      var init, sorted := ranges[..n], StartupRanges.Sort(ranges[..n]);
      DisjointSort(init);
      DisjointStep(ranges[n], init, sorted);
      SplitLast(ranges);
    }
  }

  lemma SplitLast(ranges: seq<Range>)
    requires ranges != []
    ensures ranges == ranges[..|ranges| - 1] + [ranges[|ranges| - 1]]
  {
  }

  lemma {:induction false} Chain(sorted: seq<Range>, i: nat, j: nat)
    requires NeighboursApart(sorted) && i < j < |sorted|
    requires forall k :: 0 <= k < |sorted| ==> sorted[k].first <= sorted[k].last
    ensures sorted[i].last < sorted[j].first
    decreases j
  {
    if i < j - 1 {
      Chain(sorted, i, j - 1);
    }
  }

  /** Testing sorted neighbours decides whether all pairs are disjoint. */
  lemma NeighboursDecide(ranges: seq<Range>)
    requires StartupRanges.Ordered(ranges)
    ensures NeighboursApart(StartupRanges.Sort(ranges)) <==> Disjoint(ranges)
  {
    StartupRanges.SortSorted(ranges);
    DisjointSort(ranges);
    SortNonEmpty(ranges);
    NeighboursEnough(StartupRanges.Sort(ranges));
  }

  lemma SortNonEmpty(ranges: seq<Range>)
    requires StartupRanges.Ordered(ranges)
    ensures StartupRanges.Ordered(StartupRanges.Sort(ranges))
  {
    var sorted := StartupRanges.Sort(ranges);
    forall k | 0 <= k < |sorted|
      ensures sorted[k].first <= sorted[k].last
    {
      assert sorted[k] in multiset(ranges);
      assert sorted[k] in ranges;
    }
  }

  lemma NeighboursEnough(sorted: seq<Range>)
    requires StartupRanges.Ordered(sorted) && StartupRanges.Sorted(sorted)
    ensures NeighboursApart(sorted) <==> Disjoint(sorted)
  {
    if NeighboursApart(sorted) {
      forall i, j | 0 <= i < j < |sorted|
        ensures Apart(sorted[i], sorted[j])
      {
        Chain(sorted, i, j);
      }
    }
    if Disjoint(sorted) {
      forall i | 0 < i < |sorted|
        ensures sorted[i - 1].last < sorted[i].first
      {
        assert Apart(sorted[i - 1], sorted[i]);
      }
    }
  }

  // The ranges in the filled slots.
  function Filled(slots: seq<Option<(int, int)>>): seq<(int, int)> {
    if slots == [] then []
    else (if slots[0].Some? then [slots[0].value] else []) + Filled(slots[1..])
  }

  predicate Describes(p: Profile, infoHash: string) {
    infoHash != "" && p.version == 1 && p.infoHash == infoHash && p.unitBytes == 65536 && |p.slots| == SLOTS
  }

  predicate PairOk(p: (int, int), units: nat) { 0 <= p.0 <= p.1 < units }

  ghost predicate PairsOk(pairs: seq<(int, int)>, units: nat) {
    forall i :: 0 <= i < |pairs| ==> PairOk(pairs[i], units)
  }

  function RangesOf(pairs: seq<(int, int)>, units: nat): (r: seq<Range>)
    requires PairsOk(pairs, units)
    ensures |r| == |pairs| && AllInFile(r, units)
    ensures forall i :: 0 <= i < |r| ==> r[i] == StartupRanges.Interval(pairs[i].0, pairs[i].1)
  {
    seq(|pairs|, i requires 0 <= i < |pairs| => StartupRanges.Interval(pairs[i].0, pairs[i].1))
  }

  lemma FilledNext(filled: seq<(int, int)>, n: nat, pair: (int, int), rest: seq<(int, int)>, units: nat)
    requires n <= |filled| && filled[n..] == [pair] + rest && PairsOk(filled[..n], units)
    ensures n < |filled| && filled[n] == pair && filled[n + 1..] == rest
    ensures PairOk(pair, units) ==> PairsOk(filled[..n + 1], units)
    ensures PairOk(pair, units) ==>
      RangesOf(filled[..n + 1], units) == RangesOf(filled[..n], units) + [StartupRanges.Interval(pair.0, pair.1)]
  {
    assert filled[n] == filled[n..][0];
    assert filled[n + 1..] == filled[n..][1..];
  }

  method Gather(slots: seq<Option<(int, int)>>, units: nat) returns (r: Option<seq<Range>>)
    ensures r.Some? <==> PairsOk(Filled(slots), units)
    ensures r.Some? ==> r.value == RangesOf(Filled(slots), units)
  {
    var ranges: seq<Range> := [];
    ghost var filled := Filled(slots);
    for k := 0 to |slots|
      invariant |ranges| <= |filled| && filled[|ranges|..] == Filled(slots[k..])
      invariant PairsOk(filled[..|ranges|], units) && ranges == RangesOf(filled[..|ranges|], units)
    {
      assert slots[k..][1..] == slots[k + 1..];
      if slots[k].Some? {
        var pair := slots[k].value;
        FilledNext(filled, |ranges|, pair, Filled(slots[k + 1..]), units);
        if !PairOk(pair, units) {
          return None;
        }
        ranges := ranges + [StartupRanges.Interval(pair.0, pair.1)];
      }
    }
    assert filled[..|ranges|] == filled;
    r := Some(ranges);
  }

  /** A profile is used exactly when it is for this file and its ranges lie in the file
      and are pairwise disjoint; they are then used in the stored order. */
  method MatchingRanges(p: Profile, infoHash: string, units: nat) returns (r: Option<seq<Range>>)
    ensures r.Some? <==>
      Describes(p, infoHash) && PairsOk(Filled(p.slots), units) && Disjoint(RangesOf(Filled(p.slots), units))
    ensures r.Some? ==> r.value == RangesOf(Filled(p.slots), units)
  {
    if !Describes(p, infoHash) {
      return None;
    }
    r := Gather(p.slots, units);
    if r.Some? {
      NeighboursDecide(r.value);
      if !NeighboursApart(StartupRanges.Sort(r.value)) {
        r := None;
      }
    }
  }

  // The order in which units are prefetched.

  predicate Has(r: Range, unit: int) { r.first <= unit <= r.last }

  ghost predicate Wanted(ranges: seq<Range>, unit: int) { exists i :: 0 <= i < |ranges| && Has(ranges[i], unit) }

  predicate CursorOk(ranges: seq<Range>, active: nat, cursor: int) {
    ranges != [] ==> active < |ranges| && Has(ranges[active], cursor)
  }

  // The unit `n` places after the cursor, wrapping round inside the range.
  function Around(r: Range, cursor: int, n: nat): (unit: int)
    requires Has(r, cursor) && n <= r.last - r.first
    ensures Has(r, unit)
  {
    if cursor + n <= r.last then cursor + n else r.first + (cursor + n - r.last - 1)
  }

  // How far after the cursor a unit of the range comes.
  function Distance(r: Range, cursor: int, unit: int): (n: nat)
    requires Has(r, cursor) && Has(r, unit)
    ensures n <= r.last - r.first && Around(r, cursor, n) == unit
    ensures forall k: nat :: k <= r.last - r.first && Around(r, cursor, k) == unit ==> k == n
  {
    if unit >= cursor then unit - cursor else unit - cursor + (r.last - r.first + 1)
  }

  lemma Wrapped(r: Range, cursor: int, n: nat)
    requires Has(r, cursor) && n <= r.last - r.first
    ensures Around(r, cursor, n) == r.first + (cursor - r.first + n) % (r.last - r.first + 1)
  {
    var k, length := cursor - r.first + n, r.last - r.first + 1;
    if k < length {
      Below(k, length);
    } else {
      Below(k - length, length);
      assert k % length == (k - length) % length;
    }
  }

  lemma Below(k: nat, length: nat)
    requires k < length
    ensures k % length == k && (k + length) % length == k
  {
  }

  function Next(r: Range, unit: int): (cursor: int)
    requires Has(r, unit)
    ensures Has(r, cursor)
  {
    if unit == r.last then r.first else unit + 1
  }

  // Seen for the first time, in a range.
  ghost predicate New(ranges: seq<Range>, before: seq<bool>, after: seq<bool>, unit: int) {
    0 <= unit < |before| && unit < |after| && !before[unit] && after[unit] && Wanted(ranges, unit)
  }

  ghost predicate Last(ranges: seq<Range>, before: seq<bool>, after: seq<bool>, unit: int) {
    New(ranges, before, after, unit) && forall w :: w > unit ==> !New(ranges, before, after, w)
  }

  /** The cursor stands after the last newly seen unit of a range, if there is one. */
  ghost predicate Followed(
    ranges: seq<Range>, before: seq<bool>, after: seq<bool>, active: nat, active': nat, cursor: int, cursor': int)
  {
    && ((forall u :: !New(ranges, before, after, u)) ==> active' == active && cursor' == cursor)
    && forall u :: Last(ranges, before, after, u) ==>
         active' < |ranges| && Has(ranges[active'], u) && cursor' == Next(ranges[active'], u)
  }

  lemma FollowedStep(ranges: seq<Range>, start: seq<bool>, before: seq<bool>, after: seq<bool>, unit: nat)
    requires unit < |before| == |after| == |start| && after == before[unit := true]
    requires forall u :: unit <= u < |before| ==> before[u] == start[u]
    ensures forall u :: New(ranges, start, after, u) <==>
      New(ranges, start, before, u) || (u == unit && !before[unit] && Wanted(ranges, unit))
    ensures !before[unit] && Wanted(ranges, unit) ==> Last(ranges, start, after, unit)
  {
  }

  class Order {
    const ranges: seq<Range>
    const coverage: array<bool>
    const seen: array<bool>
    var active: nat
    var cursor: int

    ghost predicate Valid()
      reads this
    {
      && AllInFile(ranges, coverage.Length) && Disjoint(ranges) && seen.Length == coverage.Length
      && seen != coverage && CursorOk(ranges, active, cursor)
    }

    constructor (ranges: seq<Range>, coverage: array<bool>)
      requires AllInFile(ranges, coverage.Length) && Disjoint(ranges)
      ensures Valid() && fresh(seen) && this.ranges == ranges && this.coverage == coverage
    {
      this.ranges, this.coverage := ranges, coverage;
      this.seen := new bool[coverage.Length](i => false);
      active := 0;
      cursor := if ranges == [] then 0 else ranges[0].first;
    }

    method Find(unit: int) returns (index: int)
      requires Valid()
      ensures -1 <= index < |ranges| && (index < 0 <==> !Wanted(ranges, unit))
      ensures index >= 0 ==>
        Has(ranges[index], unit) && forall i :: 0 <= i < |ranges| && i != index ==> !Has(ranges[i], unit)
    {
      index := 0;
      while index < |ranges|
        invariant 0 <= index <= |ranges| && forall i :: 0 <= i < index ==> !Has(ranges[i], unit)
      {
        if Has(ranges[index], unit) {
          forall i | index < i < |ranges|
            ensures !Has(ranges[i], unit)
          {
            assert Apart(ranges[index], ranges[i]);
          }
          return;
        }
        index := index + 1;
      }
      index := -1;
    }

    /** What the machine reads moves the cursor past it, the first time only. */
    method Observe(offset: nat, length: nat)
      requires Valid()
      modifies this`active, this`cursor, seen
      ensures Valid()
      ensures forall u :: 0 <= u < seen.Length ==>
        seen[u] == (old(seen[u]) || (offset / 65536 <= u && u * 65536 < offset + length))
      ensures Followed(ranges, old(seen[..]), seen[..], old(active), active, old(cursor), cursor)
    {
      var unit := offset / 65536;
      var reach := (offset + length - 1) / 65536;
      var last := if reach < seen.Length - 1 then reach else seen.Length - 1;
      ghost var first: int := unit;
      while unit <= last
        invariant first <= unit && (unit <= last + 1 || unit == first) && Valid()
        invariant forall u :: 0 <= u < seen.Length ==> seen[u] == (old(seen[u]) || (first <= u < unit))
        invariant Followed(ranges, old(seen[..]), seen[..], old(active), active, old(cursor), cursor)
      {
        See(unit, old(seen[..]), old(active), old(cursor));
        unit := unit + 1;
      }
    }

    // One unit; `start` and the rest describe where the observation began.
    method See(unit: nat, ghost start: seq<bool>, ghost active0: nat, ghost cursor0: int)
      requires Valid() && unit < seen.Length == |start| && forall u :: unit <= u < seen.Length ==> seen[u] == start[u]
      requires Followed(ranges, start, seen[..], active0, active, cursor0, cursor)
      modifies this`active, this`cursor, seen
      ensures Valid() && seen[..] == old(seen[..])[unit := true]
      ensures Followed(ranges, start, seen[..], active0, active, cursor0, cursor)
    {
      ghost var before := seen[..];
      if !seen[unit] {
        seen[unit] := true;
        var index := Find(unit);
        if index >= 0 {
          active := index;
          cursor := Next(ranges[index], unit);
        }
      }
      FollowedStep(ranges, start, before, seen[..], unit);
    }

    // The first uncovered unit of a range from a place in it, going round.
    method Scan(index: nat, from: int) returns (unit: int)
      requires Valid() && index < |ranges| && Has(ranges[index], from)
      modifies this`active, this`cursor
      ensures Valid()
      ensures unit == -1 <==> forall u :: Has(ranges[index], u) ==> coverage[u]
      ensures unit != -1 ==>
        Has(ranges[index], unit) && !coverage[unit] && active == index && cursor == Next(ranges[index], unit)
      ensures unit != -1 ==>
        forall n :: 0 <= n < Distance(ranges[index], from, unit) ==> coverage[Around(ranges[index], from, n)]
      ensures unit == -1 ==> active == old(active) && cursor == old(cursor)
    {
      var r := ranges[index];
      var length := r.last - r.first + 1;
      for n := 0 to length
        invariant Valid() && active == old(active) && cursor == old(cursor)
        invariant forall k :: 0 <= k < n ==> coverage[Around(r, from, k)]
      {
        Wrapped(r, from, n);
        unit := r.first + (from - r.first + n) % length;
        if !coverage[unit] {
          active := index;
          cursor := Next(r, unit);
          return;
        }
      }
      forall u | Has(r, u)
        ensures coverage[u]
      {
        assert u == Around(r, from, Distance(r, from, u));
      }
      unit := -1;
    }

    /** The next unit is one that is wanted and not covered, from the active range while
        it has any; there is none exactly when everything wanted is covered. */
    method NextUnit() returns (unit: int)
      requires Valid()
      modifies this`active, this`cursor
      ensures Valid()
      ensures unit == -1 <==> forall u :: Wanted(ranges, u) ==> coverage[u]
      ensures unit != -1 ==> 0 <= unit < coverage.Length && Wanted(ranges, unit) && !coverage[unit]
      ensures unit != -1 ==> Has(ranges[active], unit) && cursor == Next(ranges[active], unit)
      ensures ranges != [] && active != old(active) && unit != -1 ==>
        forall u :: Has(ranges[old(active)], u) ==> coverage[u]
    {
      if ranges != [] {
        unit := Scan(active, cursor);
        if unit >= 0 {
          return;
        }
      }
      for i := 0 to |ranges|
        invariant Valid() && active == old(active) && cursor == old(cursor)
        invariant forall k, u :: 0 <= k < i && Has(ranges[k], u) ==> coverage[u]
        invariant ranges != [] ==> forall u :: Has(ranges[active], u) ==> coverage[u]
      {
        unit := Scan(i, ranges[i].first);
        if unit >= 0 {
          return;
        }
      }
      unit := -1;
    }

    /** Asking for the next unit and covering it, until there is none, visits every
        wanted uncovered unit exactly once. */
    method Drain() returns (visited: seq<int>)
      requires Valid()
      modifies this`active, this`cursor, coverage
      ensures Valid() && forall i, j :: 0 <= i < j < |visited| ==> visited[i] != visited[j]
      ensures forall u :: 0 <= u < coverage.Length ==> (u in visited <==> Wanted(ranges, u) && !old(coverage[u]))
      ensures forall u :: u in visited ==> 0 <= u < coverage.Length
      ensures forall u :: 0 <= u < coverage.Length ==> coverage[u] == (old(coverage[u]) || Wanted(ranges, u))
    {
      visited := [];
      ghost var left := set u: int | 0 <= u < coverage.Length && !coverage[u];
      var unit := NextUnit();
      while unit != -1
        invariant Valid() && forall i, j :: 0 <= i < j < |visited| ==> visited[i] != visited[j]
        invariant forall u :: u in visited ==> 0 <= u < coverage.Length && Wanted(ranges, u) && !old(coverage[u])
        invariant forall u :: 0 <= u < coverage.Length ==> coverage[u] == (old(coverage[u]) || u in visited)
        invariant left == set u: int | 0 <= u < coverage.Length && !coverage[u]
        invariant unit != -1 ==> 0 <= unit < coverage.Length && Wanted(ranges, unit) && !coverage[unit]
        invariant unit == -1 ==> forall u :: 0 <= u < coverage.Length && Wanted(ranges, u) ==> coverage[u]
        decreases |left|
      {
        coverage[unit] := true;
        visited := visited + [unit];
        left := left - {unit};
        unit := NextUnit();
      }
    }

    ghost function Units(): set<int>
      reads this, coverage
      requires Valid()
    {
      set u: int | 0 <= u < coverage.Length && Wanted(ranges, u)
    }

    /** The counts shown: distinct units wanted, and those of them covered. */
    method Stats() returns (units: nat, completed: nat)
      requires Valid()
      ensures units == |Units()| && completed == |set u | u in Units() && coverage[u]|
    {
      units, completed := 0, 0;
      ghost var wanted: set<int> := {};
      ghost var covered: set<int> := {};
      for k := 0 to |ranges|
        invariant forall u :: u in wanted <==> exists j :: 0 <= j < k && Has(ranges[j], u)
        invariant covered == set u | u in wanted && 0 <= u < coverage.Length && coverage[u]
        invariant units == |wanted| && completed == |covered|
      {
        forall u | u in wanted
          ensures !Has(ranges[k], u)
        {
          NotCounted(ranges, k, u);
        }
        var more, done;
        more, done, wanted, covered := Count(ranges[k], wanted, covered);
        units, completed := units + more, completed + done;
      }
      assert forall u :: u in wanted <==> Wanted(ranges, u);
      assert wanted == Units();
      assert covered == set u | u in Units() && coverage[u];
    }

    // Counting one more range, disjoint from those counted.
    method Count(r: Range, ghost wanted: set<int>, ghost covered: set<int>)
      returns (units: nat, completed: nat, ghost wanted': set<int>, ghost covered': set<int>)
      requires InFile(r, coverage.Length) && forall u :: u in wanted ==> !Has(r, u)
      requires covered == set u | u in wanted && 0 <= u < coverage.Length && coverage[u]
      ensures forall u :: u in wanted' <==> u in wanted || Has(r, u)
      ensures covered' == set u | u in wanted' && 0 <= u < coverage.Length && coverage[u]
      ensures |wanted'| == |wanted| + units && |covered'| == |covered| + completed
    {
      units, completed, wanted', covered' := 0, 0, wanted, covered;
      var i := r.first;
      while i <= r.last
        invariant r.first <= i <= r.last + 1
        invariant forall u :: u in wanted' <==> u in wanted || r.first <= u < i
        invariant covered' == set u | u in wanted' && 0 <= u < coverage.Length && coverage[u]
        invariant |wanted'| == |wanted| + units && |covered'| == |covered| + completed
      {
        wanted' := wanted' + {i};
        units := units + 1;
        if coverage[i] {
          covered' := covered' + {i};
          completed := completed + 1;
        }
        i := i + 1;
      }
    }
  }

  lemma NotCounted(ranges: seq<Range>, k: nat, u: int)
    requires Disjoint(ranges) && k < |ranges| && exists j :: 0 <= j < k && Has(ranges[j], u)
    ensures !Has(ranges[k], u)
  {
    var j :| 0 <= j < k && Has(ranges[j], u);
    assert Apart(ranges[j], ranges[k]);
  }
}
