/** The uploader's view of a session: chunks in any order, sorted in place to find the contiguous prefix. */
module Uploader {
  import opened Basics
  import opened Ranges

  ghost predicate SortedUpTo(a: array<ByteRange>, n: int)
    requires 0 <= n <= a.Length
    reads a
  {
    forall p, q :: 0 <= p < q < n ==> a[p].start <= a[q].start
  }

  method Swap(a: array<ByteRange>, j: nat)
    requires 0 < j < a.Length
    modifies a
    ensures a[j - 1] == old(a[j]) && a[j] == old(a[j - 1])
    ensures forall k :: 0 <= k < a.Length && k != j && k != j - 1 ==> a[k] == old(a[k])
    ensures multiset(a[..]) == old(multiset(a[..]))
  {
    a[j - 1], a[j] := a[j], a[j - 1];
  }

  /** Insertion sort by Start, in place. */
  method SortChunks(chunks: array<ByteRange>)
    modifies chunks
    ensures SortedByStart(chunks[..])
    ensures multiset(chunks[..]) == old(multiset(chunks[..]))
  {
    var i := 1;
    while i < chunks.Length
      invariant 1 <= i
      invariant i <= chunks.Length || chunks.Length == 0
      invariant chunks.Length > 0 ==> SortedUpTo(chunks, i)
      invariant multiset(chunks[..]) == old(multiset(chunks[..]))
    {
      var j := i;
      while j > 0 && chunks[j - 1].start > chunks[j].start
        invariant 0 <= j <= i
        invariant forall p, q :: 0 <= p < q <= i && q != j ==> chunks[p].start <= chunks[q].start
        invariant multiset(chunks[..]) == old(multiset(chunks[..]))
      {
        Swap(chunks, j);
        j := j - 1;
      }
      i := i + 1;
    }
  }

  class Session {
    var chunks: seq<ByteRange>

    constructor ()
      ensures chunks == []
    {
      chunks := [];
    }

    /** The largest offset of the contiguous prefix: what it covers, and that the next offset is free,
        is `ContiguousEndIsExact`. */
    method ContiguousEnd() returns (end: int)
      ensures end == Ranges.ContiguousEnd(chunks)
      ensures AllValid(chunks) ==> EndsPrefix(chunks, end)
    {
      if AllValid(chunks) { ContiguousEndIsExact(chunks); }
      if chunks == [] { return -1; }
      var ordered := new ByteRange[|chunks|](i requires 0 <= i < |chunks| reads this => chunks[i]);
      assert ordered[..] == chunks;
      SortChunks(ordered);
      var sorted := ordered[..];
      ScanOfAnyOrder(chunks, sorted);
      end := -1;
      var k := 0;
      while k < |sorted|
        invariant 0 <= k <= |sorted|
        invariant Scan(sorted[k..], end) == Scan(sorted, -1)
      {
        var c := sorted[k];
        assert sorted[k..][0] == c && sorted[k..][1..] == sorted[k + 1..];
        if c.start > end + 1 { return; }
        if c.end > end { end := c.end; }
        k := k + 1;
      }
    }

    method HasExactChunk(start: int, end: int) returns (found: bool)
      ensures found <==> ByteRange(start, end) in chunks
    {
      for k := 0 to |chunks|
        invariant ByteRange(start, end) !in chunks[..k]
      {
        if chunks[k].start == start && chunks[k].end == end { return true; }
      }
      return false;
    }

    /** One past the last offset of any chunk. */
    method EndOffset() returns (r: Result<int>)
      ensures r == if chunks == [] then Failure(EmptySession) else Success(MaxEnd(chunks) + 1)
    {
      if chunks == [] { return Failure(EmptySession); }
      var end := -1;
      for k := 0 to |chunks|
        invariant end == MaxEnd(chunks[..k])
      {
        assert chunks[..k + 1][..k] == chunks[..k];
        if chunks[k].end > end { end := chunks[k].end; }
      }
      assert chunks[..|chunks|] == chunks;
      return Success(end + 1);
    }
  }
}
