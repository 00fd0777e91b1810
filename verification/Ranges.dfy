/** Byte ranges with inclusive ends, and what a list of them covers. */
module Ranges {
  import opened Basics

  datatype ByteRange = ByteRange(start: int, end: int) {

    /** What NewByteRange lets through. */
    predicate Valid() { 0 <= start <= end }

    function Length(): int { end - start + 1 }

    predicate Has(o: int) { start <= o <= end }

    predicate Contains(other: ByteRange) { start <= other.start && end >= other.end }

    predicate Overlaps(other: ByteRange) { start <= other.end && other.start <= end }

    predicate Adjacent(other: ByteRange) { end + 1 == other.start || other.end + 1 == start }

    function Merge(other: ByteRange): Result<ByteRange> {
      if !Overlaps(other) && !Adjacent(other) then
        Failure(InvalidRange)
      else
        var (a, b) := if other.start < start then (other, this) else (this, other);
        Success(if b.end > a.end then ByteRange(a.start, b.end) else a)
    }
  }

  function NewByteRange(start: int, end: int): Result<ByteRange> {
    if start < 0 || end < start then Failure(InvalidRange) else Success(ByteRange(start, end))
  }

  lemma OverlapsMeansSharedOffset(a: ByteRange, b: ByteRange)
    requires a.Valid() && b.Valid()
    ensures a.Overlaps(b) <==> exists o :: a.Has(o) && b.Has(o)
    ensures a.Contains(b) <==> forall o :: b.Has(o) ==> a.Has(o)
  {
    if a.Overlaps(b) {
      assert a.Has(Max(a.start, b.start)) && b.Has(Max(a.start, b.start));
    }
    assert b.Has(b.start) && b.Has(b.end);
  }

  /** Merge succeeds exactly when the union has no hole, and then returns the union. */
  lemma MergeIsUnion(a: ByteRange, b: ByteRange)
    requires a.Valid() && b.Valid()
    ensures a.Merge(b).Success? ==>
      && a.Merge(b).value.Valid()
      && forall o :: a.Merge(b).value.Has(o) <==> a.Has(o) || b.Has(o)
    ensures a.Merge(b).Failure? <==>
      exists o :: !a.Has(o) && !b.Has(o)
        && (exists p :: p < o && (a.Has(p) || b.Has(p)))
        && (exists q :: o < q && (a.Has(q) || b.Has(q)))
  {
    if a.Merge(b).Failure? {
      var o := Min(a.end, b.end) + 1;
      assert !a.Has(o) && !b.Has(o);
      var p, q := o - 1, Max(a.start, b.start);
      assert p < o && (a.Has(p) || b.Has(p));
      assert o < q && (a.Has(q) || b.Has(q));
    }
  }

  // ---------------------------------------------------------------- coverage

  ghost predicate AllValid(rs: seq<ByteRange>) {
    forall i :: 0 <= i < |rs| ==> rs[i].Valid()
  }

  ghost predicate Covered(rs: seq<ByteRange>, o: int) {
    exists i :: 0 <= i < |rs| && rs[i].Has(o)
  }

  predicate StartsBefore(a: ByteRange, b: ByteRange) { a.start <= b.start }

  ghost predicate SortedByStart(rs: seq<ByteRange>) {
    forall i, j :: 0 <= i < j < |rs| ==> rs[i].start <= rs[j].start
  }

  /** The accumulating loop of ContiguousEnd, from the offset `end` on. */
  function Scan(rs: seq<ByteRange>, end: int): int {
    if rs == [] || rs[0].start > end + 1 then end
    else Scan(rs[1..], Max(end, rs[0].end))
  }

  /** `e` ends the covered prefix: offsets 0..e are covered and e+1 is not. */
  ghost predicate EndsPrefix(rs: seq<ByteRange>, e: int) {
    && -1 <= e
    && (forall o :: 0 <= o <= e ==> Covered(rs, o))
    && !Covered(rs, e + 1)
  }

  lemma {:induction false} ScanCovers(rs: seq<ByteRange>, end: int)
    requires SortedByStart(rs) && AllValid(rs) && -1 <= end
    ensures end <= Scan(rs, end)
    ensures forall o :: end < o <= Scan(rs, end) ==> Covered(rs, o)
    ensures !Covered(rs, Scan(rs, end) + 1)
    decreases |rs|
  {
    if rs != [] && rs[0].start <= end + 1 {
      var next, e := Max(end, rs[0].end), Scan(rs, end);
      ScanCovers(rs[1..], next);
      forall o | end < o <= e ensures Covered(rs, o) {
        if o <= rs[0].end {
          assert rs[0].Has(o);
        } else {
          var tail := rs[1..];
          assert Covered(tail, o);
          var i :| 0 <= i < |tail| && tail[i].Has(o);
          assert rs[i + 1].Has(o);
        }
      }
      forall i | 0 <= i < |rs| ensures !rs[i].Has(e + 1) {
        if i > 0 { assert !rs[1..][i - 1].Has(e + 1); }
      }
    }
  }

  lemma PrefixEndUnique(rs: seq<ByteRange>, e: int, f: int)
    requires EndsPrefix(rs, e) && EndsPrefix(rs, f)
    ensures e == f
  {
    assert e < f ==> Covered(rs, e + 1);
    assert f < e ==> Covered(rs, f + 1);
  }

  lemma SameRangesSameCover(a: seq<ByteRange>, b: seq<ByteRange>)
    requires multiset(a) == multiset(b)
    ensures forall o :: Covered(a, o) <==> Covered(b, o)
    ensures AllValid(a) <==> AllValid(b)
  {
    forall r ensures r in a <==> r in b {
      assert r in multiset(a) <==> r in a;
      assert r in multiset(b) <==> r in b;
    }
    forall o ensures Covered(a, o) <==> Covered(b, o) {
      if Covered(a, o) {
        var i :| 0 <= i < |a| && a[i].Has(o);
        assert a[i] in b;
      }
      if Covered(b, o) {
        var i :| 0 <= i < |b| && b[i].Has(o);
        assert b[i] in a;
      }
    }
    assert AllValid(a) ==> forall r :: r in b ==> r in a && r.Valid();
    assert AllValid(b) ==> forall r :: r in a ==> r in b && r.Valid();
  }

  function Insert(rs: seq<ByteRange>, r: ByteRange): seq<ByteRange> {
    if rs == [] || r.start < rs[0].start then [r] + rs
    else [rs[0]] + Insert(rs[1..], r)
  }

  function SortedRanges(rs: seq<ByteRange>): seq<ByteRange> {
    if rs == [] then [] else Insert(SortedRanges(rs[..|rs| - 1]), rs[|rs| - 1])
  }

  lemma {:induction false} InsertKeepsAll(rs: seq<ByteRange>, r: ByteRange)
    ensures multiset(Insert(rs, r)) == multiset(rs) + multiset{r}
    decreases |rs|
  {
    if rs != [] {
      assert rs == [rs[0]] + rs[1..];
      if r.start >= rs[0].start { InsertKeepsAll(rs[1..], r); }
    }
  }

  lemma {:induction false} InsertSorts(rs: seq<ByteRange>, r: ByteRange)
    requires SortedByStart(rs)
    ensures SortedByStart(Insert(rs, r))
    ensures rs != [] ==> Insert(rs, r)[0].start == Min(rs[0].start, r.start)
    decreases |rs|
  {
    if rs != [] && r.start >= rs[0].start {
      var tail := Insert(rs[1..], r);
      InsertSorts(rs[1..], r);
      assert rs[0].start <= tail[0].start;
      SortedCons(rs[0], tail);
    }
  }

  lemma SortedCons(first: ByteRange, tail: seq<ByteRange>)
    requires SortedByStart(tail) && (tail != [] ==> first.start <= tail[0].start)
    ensures SortedByStart([first] + tail)
  {
  }

  lemma {:induction false} SortedRangesSorts(rs: seq<ByteRange>)
    ensures SortedByStart(SortedRanges(rs))
    decreases |rs|
  {
    if rs != [] {
      SortedRangesSorts(rs[..|rs| - 1]);
      InsertSorts(SortedRanges(rs[..|rs| - 1]), rs[|rs| - 1]);
    }
  }

  lemma {:induction false} SortedRangesKeepAll(rs: seq<ByteRange>)
    ensures multiset(SortedRanges(rs)) == multiset(rs)
    decreases |rs|
  {
    if rs != [] {
      SortedRangesKeepAll(rs[..|rs| - 1]);
      InsertKeepsAll(SortedRanges(rs[..|rs| - 1]), rs[|rs| - 1]);
      assert rs == rs[..|rs| - 1] + [rs[|rs| - 1]];
    }
  }

  /** The last offset of the prefix that the ranges cover without a gap, or -1. */
  function ContiguousEnd(rs: seq<ByteRange>): int {
    if rs == [] then -1 else Scan(SortedRanges(rs), -1)
  }

  lemma ContiguousEndIsExact(rs: seq<ByteRange>)
    requires AllValid(rs)
    ensures EndsPrefix(rs, ContiguousEnd(rs))
    ensures forall e :: EndsPrefix(rs, e) ==> e == ContiguousEnd(rs)
  {
    if rs != [] {
      SortedRangesSorts(rs);
      SortedRangesKeepAll(rs);
      SameRangesSameCover(SortedRanges(rs), rs);
      ScanCovers(SortedRanges(rs), -1);
    }
    assert EndsPrefix(rs, ContiguousEnd(rs));
    forall e | EndsPrefix(rs, e) ensures e == ContiguousEnd(rs) {
      PrefixEndUnique(rs, e, ContiguousEnd(rs));
    }
  }

  lemma {:induction false} ScanIsClosed(sorted: seq<ByteRange>, end: int)
    requires SortedByStart(sorted)
    ensures end <= Scan(sorted, end)
    ensures forall r :: r in sorted && r.start <= Scan(sorted, end) + 1 ==> r.end <= Scan(sorted, end)
    decreases |sorted|
  {
    if sorted != [] && sorted[0].start <= end + 1 {
      ScanIsClosed(sorted[1..], Max(end, sorted[0].end));
      assert sorted == [sorted[0]] + sorted[1..];
    }
  }

  lemma {:induction false} ScanIsLeast(rs: seq<ByteRange>, end: int, bound: int)
    requires end <= bound && forall r :: r in rs && r.start <= bound + 1 ==> r.end <= bound
    ensures Scan(rs, end) <= bound
    decreases |rs|
  {
    if rs != [] && rs[0].start <= end + 1 {
      assert rs[0] in rs;
      ScanIsLeast(rs[1..], Max(end, rs[0].end), bound);
    }
  }

  lemma SameScan(a: seq<ByteRange>, b: seq<ByteRange>)
    requires SortedByStart(b) && forall r :: r in a ==> r in b
    ensures Scan(a, -1) <= Scan(b, -1)
  {
    ScanIsClosed(b, -1);
    ScanIsLeast(a, -1, Scan(b, -1));
  }

  /** Scanning any sorted permutation of the ranges finds the same end, even with ranges that end before they start. */
  lemma ScanOfAnyOrder(rs: seq<ByteRange>, sorted: seq<ByteRange>)
    requires multiset(sorted) == multiset(rs) && SortedByStart(sorted)
    ensures Scan(sorted, -1) == ContiguousEnd(rs)
  {
    var other := SortedRanges(rs);
    SortedRangesSorts(rs);
    SortedRangesKeepAll(rs);
    forall r ensures r in sorted <==> r in other {
      assert r in multiset(sorted) <==> r in sorted;
      assert r in multiset(other) <==> r in other;
    }
    SameScan(sorted, other);
    SameScan(other, sorted);
    if rs == [] { assert |multiset(sorted)| == 0; }
  }

  lemma ContiguousEndIgnoresOrder(a: seq<ByteRange>, b: seq<ByteRange>)
    requires multiset(a) == multiset(b)
    ensures ContiguousEnd(a) == ContiguousEnd(b)
  {
    SortedRangesSorts(b);
    SortedRangesKeepAll(b);
    ScanOfAnyOrder(a, SortedRanges(b));
    ScanOfAnyOrder(b, SortedRanges(b));
  }

  function MaxEnd(rs: seq<ByteRange>): int {
    if rs == [] then -1 else Max(MaxEnd(rs[..|rs| - 1]), rs[|rs| - 1].end)
  }

  lemma {:induction false} MaxEndIsLast(rs: seq<ByteRange>)
    requires AllValid(rs)
    ensures -1 <= MaxEnd(rs)
    ensures forall i :: 0 <= i < |rs| ==> rs[i].end <= MaxEnd(rs)
    ensures rs != [] ==> Covered(rs, MaxEnd(rs))
    ensures forall o :: MaxEnd(rs) < o ==> !Covered(rs, o)
    decreases |rs|
  {
    if rs != [] {
      var front, last := rs[..|rs| - 1], rs[|rs| - 1];
      MaxEndIsLast(front);
      if MaxEnd(rs) == last.end {
        assert rs[|rs| - 1].Has(MaxEnd(rs));
      } else {
        assert Covered(front, MaxEnd(rs));
        var i :| 0 <= i < |front| && front[i].Has(MaxEnd(rs));
        assert rs[i].Has(MaxEnd(rs));
      }
      forall i | 0 <= i < |rs| ensures rs[i].end <= MaxEnd(rs) {
        if i < |front| { assert front[i].end <= MaxEnd(front); }
      }
    }
  }

  /** The contiguous end reaches the last byte exactly when there is no gap before it. */
  lemma ReachesEndIffNoGap(rs: seq<ByteRange>)
    requires AllValid(rs)
    ensures ContiguousEnd(rs) == MaxEnd(rs) <==> forall o :: 0 <= o <= MaxEnd(rs) ==> Covered(rs, o)
    ensures ContiguousEnd(rs) <= MaxEnd(rs)
  {
    MaxEndIsLast(rs);
    ContiguousEndIsExact(rs);
    var e := ContiguousEnd(rs);
    assert e >= 0 ==> Covered(rs, e);
  }

  // ---------------------------------------------------------------- tilings

  ghost predicate PairwiseDisjoint(rs: seq<ByteRange>) {
    forall i, j :: 0 <= i < j < |rs| ==> !rs[i].Overlaps(rs[j])
  }

  function TotalLength(rs: seq<ByteRange>): int {
    if rs == [] then 0 else TotalLength(rs[..|rs| - 1]) + rs[|rs| - 1].Length()
  }

  /** The ranges cut [0, size) into pieces: disjoint, nothing missing, nothing beyond. */
  ghost predicate Tiles(rs: seq<ByteRange>, size: int) {
    && AllValid(rs)
    && PairwiseDisjoint(rs)
    && forall o :: Covered(rs, o) <==> 0 <= o < size
  }

  function Interval(lo: int, hi: int): (offsets: set<int>)
    ensures forall o :: o in offsets <==> lo <= o < hi
    ensures lo <= hi ==> |offsets| == hi - lo
    decreases hi - lo
  {
    if hi <= lo then {} else Interval(lo, hi - 1) + {hi - 1}
  }

  ghost function Offsets(rs: seq<ByteRange>): set<int> {
    if rs == [] then {} else Offsets(rs[..|rs| - 1]) + Interval(rs[|rs| - 1].start, rs[|rs| - 1].end + 1)
  }

  lemma {:induction false} OffsetsAreCovered(rs: seq<ByteRange>)
    ensures forall o :: o in Offsets(rs) <==> Covered(rs, o)
    decreases |rs|
  {
    if rs != [] {
      var front, last := rs[..|rs| - 1], rs[|rs| - 1];
      OffsetsAreCovered(front);
      forall o ensures o in Offsets(rs) <==> Covered(rs, o) {
        if Covered(front, o) {
          var i :| 0 <= i < |front| && front[i].Has(o);
          assert rs[i].Has(o);
        }
        if last.Has(o) { assert rs[|rs| - 1].Has(o); }
        if Covered(rs, o) && !last.Has(o) {
          var i :| 0 <= i < |rs| && rs[i].Has(o);
          assert front[i].Has(o);
        }
      }
    }
  }

  lemma {:induction false} DisjointLengthsAddUp(rs: seq<ByteRange>)
    requires AllValid(rs) && PairwiseDisjoint(rs)
    ensures |Offsets(rs)| == TotalLength(rs)
    decreases |rs|
  {
    if rs != [] {
      var front, last := rs[..|rs| - 1], rs[|rs| - 1];
      DisjointLengthsAddUp(front);
      OffsetsAreCovered(front);
      var piece := Interval(last.start, last.end + 1);
      forall o | o in Offsets(front) ensures o !in piece {
        var i :| 0 <= i < |front| && front[i].Has(o);
        assert !rs[i].Overlaps(rs[|rs| - 1]);
      }
      assert Offsets(front) !! piece;
    }
  }

  lemma TilingHasTotalLength(rs: seq<ByteRange>, size: int)
    requires Tiles(rs, size) && 0 <= size
    ensures TotalLength(rs) == size
  {
    OffsetsAreCovered(rs);
    DisjointLengthsAddUp(rs);
    assert Offsets(rs) == Interval(0, size);
  }
}
