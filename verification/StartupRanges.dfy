/** How much a startup prefetch has to fetch: by merged intervals of pieces on the
    asking side (`startupRanges`, src/disk/web/startup-prefetch.js) and piece by piece
    on the serving side (src/disk/web/torrent-window.js). */
module StartupRanges {
  import opened Octets

  const PIECE := 262144
  const HEADER := 198
  const UNIT := 65598
  const MAX_SAFE := 0x1F_FFFF_FFFF_FFFF

  function Min(a: int, b: int): int { if a < b then a else b }
  function Max(a: int, b: int): int { if a < b then b else a }

  // Bytes of a file, and the pieces they touch.
  datatype Range = Range(offset: nat, length: nat)

  datatype Interval = Interval(first: nat, last: nat)

  predicate InBounds(r: Range, size: nat) {
    r.offset <= MAX_SAFE && 1 <= r.length <= MAX_SAFE && r.offset + r.length <= size
  }

  function IntervalOf(r: Range): Interval
    requires r.length >= 1
  {
    Interval(r.offset / PIECE, (r.offset + r.length - 1) / PIECE)
  }

  ghost predicate Within(v: Interval, size: nat) { v.first <= v.last && v.last * PIECE < size }

  lemma IntervalWithin(r: Range, size: nat)
    requires InBounds(r, size)
    ensures Within(IntervalOf(r), size)
  {
  }

  ghost predicate Ordered(intervals: seq<Interval>) {
    forall i :: 0 <= i < |intervals| ==> intervals[i].first <= intervals[i].last
  }

  ghost predicate AllWithin(intervals: seq<Interval>, size: nat) {
    Ordered(intervals) && forall i :: 0 <= i < |intervals| ==> Within(intervals[i], size)
  }

  ghost predicate AllInBounds(ranges: seq<Range>, size: nat) {
    NonEmpty(ranges) && forall i :: 0 <= i < |ranges| ==> InBounds(ranges[i], size)
  }

  ghost predicate NonEmpty(ranges: seq<Range>) { forall i :: 0 <= i < |ranges| ==> ranges[i].length >= 1 }

  // Piece `p` belongs to one of the intervals.
  ghost predicate Covered(intervals: seq<Interval>, p: nat) {
    exists i :: 0 <= i < |intervals| && intervals[i].first <= p <= intervals[i].last
  }

  // What the serving side adds up.

  function Bytes(size: nat, piece: nat): int { Min(PIECE, size - piece * PIECE) }

  function ListTotal(size: nat, pieces: seq<nat>): int {
    if pieces == [] then 0 else Bytes(size, pieces[0]) + ListTotal(size, pieces[1..])
  }

  ghost predicate Distinct(pieces: seq<nat>) { forall i, j :: 0 <= i < j < |pieces| ==> pieces[i] != pieces[j] }

  // What the asking side adds up.

  function IntervalBytes(size: nat, v: Interval): int { Min(size, (v.last + 1) * PIECE) - v.first * PIECE }

  function IntervalTotal(size: nat, merged: seq<Interval>): int {
    if merged == [] then 0 else IntervalBytes(size, merged[0]) + IntervalTotal(size, merged[1..])
  }

  // Sorting by first piece.

  ghost predicate Sorted(intervals: seq<Interval>) {
    forall i, j :: 0 <= i < j < |intervals| ==> intervals[i].first <= intervals[j].first
  }

  function Insert(v: Interval, sorted: seq<Interval>): (r: seq<Interval>)
    ensures multiset(r) == multiset(sorted) + multiset{v}
  {
    if sorted == [] || v.first < sorted[0].first then
      assert multiset([v] + sorted) == multiset(sorted) + multiset{v};
      [v] + sorted
    else
      assert sorted == [sorted[0]] + sorted[1..];
      [sorted[0]] + Insert(v, sorted[1..])
  }

  lemma {:induction false} InsertSorted(v: Interval, sorted: seq<Interval>)
    requires Sorted(sorted)
    ensures Sorted(Insert(v, sorted))
  {
    if sorted != [] && v.first >= sorted[0].first {
      InsertSorted(v, sorted[1..]);
      var r := Insert(v, sorted[1..]);
      forall i | 0 <= i < |r|
        ensures sorted[0].first <= r[i].first
      {
        assert r[i] in multiset(r);
      }
    }
  }

  function Sort(intervals: seq<Interval>): (r: seq<Interval>)
    ensures multiset(r) == multiset(intervals) && |r| == |intervals|
  {
    if intervals == [] then []
    else
      var last := |intervals| - 1;
      assert intervals == intervals[..last] + [intervals[last]];
      var r := Insert(intervals[last], Sort(intervals[..last]));
      assert |r| == |multiset(r)|;
      r
  }

  lemma {:induction false} SortSorted(intervals: seq<Interval>)
    ensures Sorted(Sort(intervals))
  {
    if intervals != [] {
      var last := |intervals| - 1;
      SortSorted(intervals[..last]);
      InsertSorted(intervals[last], Sort(intervals[..last]));
    }
  }

  lemma SortCovers(intervals: seq<Interval>, p: nat)
    ensures Covered(Sort(intervals), p) <==> Covered(intervals, p)
  {
    SameCover(intervals, Sort(intervals), p);
    SameCover(Sort(intervals), intervals, p);
  }

  lemma SameCover(a: seq<Interval>, b: seq<Interval>, p: nat)
    requires multiset(a) == multiset(b)
    ensures Covered(a, p) ==> Covered(b, p)
  {
    if i :| 0 <= i < |a| && a[i].first <= p <= a[i].last {
      assert a[i] in multiset(b);
      var j :| 0 <= j < |b| && b[j] == a[i];
    }
  }

  // Merging.

  /** Intervals in order with at least one piece between any two. */
  ghost predicate Separated(merged: seq<Interval>) {
    forall i :: 0 <= i < |merged| - 1 ==> merged[i].last + 1 < merged[i + 1].first
  }

  /** The merge of sorted intervals: separated intervals that cover the same pieces. */
  method Merge(size: nat, sorted: seq<Interval>) returns (merged: seq<Interval>)
    requires Sorted(sorted) && AllWithin(sorted, size)
    ensures Separated(merged) && AllWithin(merged, size)
    ensures forall p :: Covered(merged, p) <==> Covered(sorted, p)
  {
    merged := [];
    for k := 0 to |sorted|
      invariant Separated(merged) && AllWithin(merged, size)
      invariant forall p :: Covered(merged, p) <==> Covered(sorted[..k], p)
      invariant merged != [] ==> k > 0 && merged[|merged| - 1].first <= sorted[k - 1].first
    {
      var v := sorted[k];
      ghost var before := merged;
      var n := |merged| - 1;
      if n >= 0 && v.first <= merged[n].last + 1 {
        merged := merged[n := Interval(merged[n].first, Max(merged[n].last, v.last))];
      } else {
        merged := merged + [v];
      }
      MergeStep(before, v, merged, sorted, k);
    }
    assert sorted[..|sorted|] == sorted;
  }

  lemma MergeStep(before: seq<Interval>, v: Interval, after: seq<Interval>, sorted: seq<Interval>, k: nat)
    requires k < |sorted| && v == sorted[k]
    requires forall p :: Covered(before, p) <==> Covered(sorted[..k], p)
    requires Ordered(before)
    requires var n := |before| - 1;
      if n >= 0 && v.first <= before[n].last + 1 then
        before[n].first <= v.first && after == before[n := Interval(before[n].first, Max(before[n].last, v.last))]
      else after == before + [v]
    ensures forall p :: Covered(after, p) <==> Covered(sorted[..k + 1], p)
  {
    forall p: nat
      ensures Covered(after, p) <==> Covered(before, p) || v.first <= p <= v.last
    {
      MergePiece(before, v, after, p);
    }
    forall p: nat
      ensures Covered(sorted[..k + 1], p) <==> Covered(sorted[..k], p) || v.first <= p <= v.last
    {
      Extend(sorted, k, p);
    }
  }

  lemma Extend(sorted: seq<Interval>, k: nat, p: nat)
    requires k < |sorted|
    ensures Covered(sorted[..k + 1], p) <==> Covered(sorted[..k], p) || sorted[k].first <= p <= sorted[k].last
  {
    var a, b := sorted[..k], sorted[..k + 1];
    if i :| 0 <= i < |a| && a[i].first <= p <= a[i].last {
      assert b[i] == a[i];
    }
    if sorted[k].first <= p <= sorted[k].last {
      assert b[k] == sorted[k];
    }
    if i :| 0 <= i < |b| && b[i].first <= p <= b[i].last && i < k {
      assert a[i] == b[i];
    }
  }

  lemma MergePiece(before: seq<Interval>, v: Interval, after: seq<Interval>, p: nat)
    requires Ordered(before)
    requires var n := |before| - 1;
      if n >= 0 && v.first <= before[n].last + 1 then
        before[n].first <= v.first && after == before[n := Interval(before[n].first, Max(before[n].last, v.last))]
      else after == before + [v]
    ensures Covered(after, p) <==> Covered(before, p) || v.first <= p <= v.last
  {
    var n := |before| - 1;
    if i :| 0 <= i < |before| && before[i].first <= p <= before[i].last {
      assert after[i].first <= p <= after[i].last;
    }
    if v.first <= p <= v.last {
      var j := if n >= 0 && v.first <= before[n].last + 1 then n else n + 1;
      assert after[j].first <= p <= after[j].last;
    }
    if i :| 0 <= i < |after| && after[i].first <= p <= after[i].last {
      if i <= n && before[i].first <= p <= before[i].last {
        assert Covered(before, p);
      }
    }
  }

  // The pieces of the merged intervals, in order.

  function Spread(first: nat, last: nat): (r: seq<nat>)
    requires first <= last + 1
    ensures forall p :: p in r <==> first <= p <= last
    decreases last + 1 - first
  {
    if first > last then [] else [first] + Spread(first + 1, last)
  }

  function Pieces(merged: seq<Interval>): (r: seq<nat>)
    requires Ordered(merged)
    ensures forall p :: p in r ==> Covered(merged, p)
    ensures forall p :: Covered(merged, p) ==> p in r
  {
    if merged == [] then []
    else
      var head, tail := Spread(merged[0].first, merged[0].last), Pieces(merged[1..]);
      assert forall p: nat :: Covered(merged, p) <==> p in head || Covered(merged[1..], p) by {
        forall p: nat
          ensures Covered(merged, p) <==> p in head || Covered(merged[1..], p)
        {
          CoveredFirst(merged, p);
        }
      }
      head + tail
  }

  lemma CoveredFirst(merged: seq<Interval>, p: nat)
    requires merged != []
    ensures Covered(merged, p) <==> merged[0].first <= p <= merged[0].last || Covered(merged[1..], p)
  {
    var t := merged[1..];
    if i :| 0 <= i < |merged| && merged[i].first <= p <= merged[i].last && i > 0 {
      assert t[i - 1] == merged[i];
    }
    if i :| 0 <= i < |t| && t[i].first <= p <= t[i].last {
      assert merged[i + 1] == t[i];
    }
  }

  lemma {:induction false} SpreadTotal(size: nat, first: nat, last: nat)
    requires first <= last && last * PIECE < size
    ensures ListTotal(size, Spread(first, last)) == IntervalBytes(size, Interval(first, last))
    decreases last - first
  {
    if first < last {
      SpreadTotal(size, first + 1, last);
    }
  }

  lemma {:induction false} SpreadDistinct(first: nat, last: nat)
    requires first <= last + 1
    ensures Distinct(Spread(first, last))
    decreases last + 1 - first
  {
    if first <= last {
      SpreadDistinct(first + 1, last);
      var tail := Spread(first + 1, last);
      assert forall i :: 0 <= i < |tail| ==> tail[i] in tail;
    }
  }

  lemma {:induction false} TotalAppend(size: nat, a: seq<nat>, b: seq<nat>)
    ensures ListTotal(size, a + b) == ListTotal(size, a) + ListTotal(size, b)
  {
    if a == [] {
      assert a + b == b;
    } else {
      TotalAppend(size, a[1..], b);
      assert (a + b)[1..] == a[1..] + b;
    }
  }

  lemma {:induction false} SeparatedAfter(merged: seq<Interval>, i: nat)
    requires Separated(merged) && Ordered(merged) && 0 < i < |merged|
    ensures merged[0].last < merged[i].first
  {
    if i > 1 {
      SeparatedAfter(merged, i - 1);
    }
  }

  lemma {:induction false} PiecesTotal(size: nat, merged: seq<Interval>)
    requires Separated(merged) && AllWithin(merged, size)
    ensures ListTotal(size, Pieces(merged)) == IntervalTotal(size, merged) && Distinct(Pieces(merged))
  {
    if merged != [] {
      var v := merged[0];
      var head, tail := Spread(v.first, v.last), Pieces(merged[1..]);
      PiecesTotal(size, merged[1..]);
      SpreadTotal(size, v.first, v.last);
      SpreadDistinct(v.first, v.last);
      TotalAppend(size, head, tail);
      forall p | p in tail
        ensures p !in head
      {
        var i :| 0 <= i < |merged[1..]| && merged[1..][i].first <= p <= merged[1..][i].last;
        SeparatedAfter(merged, i + 1);
      }
      Disjoint(head, tail);
    }
  }

  lemma Disjoint(a: seq<nat>, b: seq<nat>)
    requires Distinct(a) && Distinct(b) && forall p :: p in b ==> p !in a
    ensures Distinct(a + b)
  {
    var c := a + b;
    forall i, j | 0 <= i < j < |c|
      ensures c[i] != c[j]
    {
      if i < |a| <= j {
        assert c[i] in a && c[j] in b;
      }
    }
  }

  lemma {:induction false} Once(a: seq<nat>, p: nat)
    requires Distinct(a)
    ensures multiset(a)[p] == if p in a then 1 else 0
  {
    if a != [] {
      Once(a[1..], p);
      assert a == [a[0]] + a[1..];
    }
  }

  lemma {:induction false} Rearranged(size: nat, a: seq<nat>, b: seq<nat>)
    requires multiset(a) == multiset(b)
    ensures ListTotal(size, a) == ListTotal(size, b)
    decreases |a|
  {
    assert |a| == |multiset(a)| == |multiset(b)| == |b|;
    if a != [] {
      assert a[0] in multiset(b);
      var k :| 0 <= k < |b| && b[k] == a[0];
      Without(a, 0);
      Without(b, k);
      SplitAt(size, b, k);
      assert a[..0] + a[1..] == a[1..];
      Rearranged(size, a[1..], b[..k] + b[k + 1..]);
    }
  }

  lemma Without(b: seq<nat>, k: nat)
    requires k < |b|
    ensures multiset(b[..k] + b[k + 1..]) == multiset(b) - multiset{b[k]}
  {
    assert b == b[..k] + [b[k]] + b[k + 1..];
  }

  lemma SplitAt(size: nat, b: seq<nat>, k: nat)
    requires k < |b|
    ensures ListTotal(size, b) == Bytes(size, b[k]) + ListTotal(size, b[..k] + b[k + 1..])
  {
    assert b == b[..k] + b[k..];
    TotalAppend(size, b[..k], b[k..]);
    TotalAppend(size, b[..k], b[k + 1..]);
  }

  /** A total depends only on which pieces are counted, each once. */
  lemma SameTotal(size: nat, a: seq<nat>, b: seq<nat>)
    requires Distinct(a) && Distinct(b) && forall p :: p in a <==> p in b
    ensures ListTotal(size, a) == ListTotal(size, b)
  {
    forall p: nat
      ensures multiset(a)[p] == multiset(b)[p]
    {
      Once(a, p);
      Once(b, p);
    }
    assert multiset(a) == multiset(b);
    Rearranged(size, a, b);
  }

  // Both sides of the check.

  // The pieces that the ranges touch.
  ghost predicate Touched(ranges: seq<Range>, p: nat)
    requires NonEmpty(ranges)
  {
    exists i :: 0 <= i < |ranges| && ranges[i].offset / PIECE <= p <= (ranges[i].offset + ranges[i].length - 1) / PIECE
  }

  /** `prefetchStartup` gathers the pieces of the ranges, each once, in the order in
      which it meets them; any range out of bounds is refused. */
  method Targets(size: nat, ranges: seq<Range>) returns (r: Option<seq<nat>>)
    ensures r.Some? <==> AllInBounds(ranges, size)
    ensures r.Some? ==> Distinct(r.value) && forall p: nat :: p in r.value <==> Touched(ranges, p)
  {
    var targets: seq<nat> := [];
    for k := 0 to |ranges|
      invariant forall i :: 0 <= i < k ==> InBounds(ranges[i], size)
      invariant Distinct(targets)
      invariant forall p: nat :: p in targets <==>
        exists i :: 0 <= i < k && ranges[i].offset / PIECE <= p <= (ranges[i].offset + ranges[i].length - 1) / PIECE
    {
      if ranges[k].offset > MAX_SAFE || ranges[k].length > MAX_SAFE || ranges[k].length < 1
        || ranges[k].offset + ranges[k].length > size {
        return None;
      }
      var v := IntervalOf(ranges[k]);
      ghost var before := targets;
      var index := v.first;
      while index <= v.last
        invariant v.first <= index <= v.last + 1 && Distinct(targets)
        invariant forall p: nat :: p in targets <==> p in before || v.first <= p < index
      {
        if index !in targets {
          targets := targets + [index];
        }
        index := index + 1;
      }
    }
    r := Some(targets);
  }

  function Intervals(ranges: seq<Range>): (r: seq<Interval>)
    requires NonEmpty(ranges)
    ensures |r| == |ranges| && forall i :: 0 <= i < |r| ==> r[i] == IntervalOf(ranges[i])
  {
    seq(|ranges|, i requires 0 <= i < |ranges| => IntervalOf(ranges[i]))
  }

  /** The total of `startupRanges`, from the ranges it hands on. */
  method Total(size: nat, ranges: seq<Range>) returns (total: int)
    requires AllInBounds(ranges, size)
    ensures forall pieces :: Distinct(pieces) && (forall p: nat :: p in pieces <==> Touched(ranges, p)) ==>
      total == ListTotal(size, pieces)
  {
    var intervals := Intervals(ranges);
    var sorted := Sort(intervals);
    SortSorted(intervals);
    SortWithin(size, ranges);
    var merged := Merge(size, sorted);
    total := IntervalTotal(size, merged);
    forall pieces | Distinct(pieces) && forall p: nat :: p in pieces <==> Touched(ranges, p)
      ensures total == ListTotal(size, pieces)
    {
      PiecesTotal(size, merged);
      forall p: nat
        ensures p in Pieces(merged) <==> Touched(ranges, p)
      {
        SortCovers(intervals, p);
        TouchedCovered(ranges, p);
      }
      SameTotal(size, pieces, Pieces(merged));
    }
  }

  lemma SortWithin(size: nat, ranges: seq<Range>)
    requires AllInBounds(ranges, size)
    ensures AllWithin(Sort(Intervals(ranges)), size)
  {
    var intervals := Intervals(ranges);
    var sorted := Sort(intervals);
    forall j | 0 <= j < |sorted|
      ensures Within(sorted[j], size)
    {
      assert sorted[j] in multiset(intervals);
      var i :| 0 <= i < |intervals| && intervals[i] == sorted[j];
      IntervalWithin(ranges[i], size);
    }
  }

  lemma TouchedCovered(ranges: seq<Range>, p: nat)
    requires NonEmpty(ranges)
    ensures Touched(ranges, p) <==> Covered(Intervals(ranges), p)
  {
    var intervals := Intervals(ranges);
    if i :| 0 <= i < |ranges| && ranges[i].offset / PIECE <= p <= (ranges[i].offset + ranges[i].length - 1) / PIECE {
      assert intervals[i].first <= p <= intervals[i].last;
    }
    if i :| 0 <= i < |intervals| && intervals[i].first <= p <= intervals[i].last {
      assert ranges[i].offset / PIECE <= p <= (ranges[i].offset + ranges[i].length - 1) / PIECE;
    }
  }

  function Begin(unit: nat): nat { HEADER + unit * UNIT }

  // A position beyond the safe integers is refused: it rounds to a number that is not
  // safe either. With a safe end the beginning is safe as well.
  predicate Fits(size: nat, units: (nat, nat)) { Begin(units.0) < Min(size, Begin(units.1 + 1)) <= MAX_SAFE }

  function RangeOf(size: nat, units: (nat, nat)): Range
    requires Fits(size, units)
  {
    Range(Begin(units.0), Min(size, Begin(units.1 + 1)) - Begin(units.0))
  }

  /** The ranges of a profile: logical units, first and last, mapped into the file. */
  method Ranges(size: nat, profile: seq<(nat, nat)>) returns (r: Option<seq<Range>>)
    ensures r.Some? <==> forall i :: 0 <= i < |profile| ==> Fits(size, profile[i])
    ensures r.Some? ==>
      |r.value| == |profile| && forall i :: 0 <= i < |profile| ==> r.value[i] == RangeOf(size, profile[i])
    ensures r.Some? ==> AllInBounds(r.value, size)
  {
    var ranges: seq<Range> := [];
    for k := 0 to |profile|
      invariant |ranges| == k
      invariant forall i :: 0 <= i < k ==> Fits(size, profile[i])
      invariant forall i :: 0 <= i < k ==> ranges[i] == RangeOf(size, profile[i])
    {
      var begin := Begin(profile[k].0);
      var end := Min(size, Begin(profile[k].1 + 1));
      if begin > MAX_SAFE || end > MAX_SAFE || end <= begin {
        return None;
      }
      ranges := ranges + [Range(begin, end - begin)];
    }
    r := Some(ranges);
  }

  /** The check between the two sides can always be met: for every profile whose
      ranges are accepted, the asking side's total is the serving side's. */
  method TotalsAgree(size: nat, profile: seq<(nat, nat)>) returns (asked: Option<int>, served: Option<int>)
    ensures asked == served
  {
    var ranges := Ranges(size, profile);
    if ranges.None? {
      return None, None;
    }
    var total := Total(size, ranges.value);
    var targets := Targets(size, ranges.value);
    asked, served := Some(total), Some(ListTotal(size, targets.value));
  }
}
