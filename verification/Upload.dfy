/** The resumable upload session: recorded chunks, the finalize guard, and the states it moves through. */
module Upload {
  import opened Basics
  import opened Ordering
  import opened Ranges
  import opened Artifacts

  datatype UploadState = Open | Finalizing | Completed | Aborted | Expired

  datatype Chunk = Chunk(range: ByteRange, digest: Digest)

  /** A stored session: the catalog keeps and hands out copies. */
  datatype SessionValue = SessionValue(
    id: string,
    repository: string,
    tenant: string,
    token: string,
    state: UploadState,
    chunks: seq<Chunk>,
    expectedSize: Option<int>,
    reservedBytes: int,
    expiresAt: int,
    version: int)

  function TempKey(id: string): string { "uploads/" + id }

  function RangesOf(chunks: seq<Chunk>): (rs: seq<ByteRange>)
    ensures |rs| == |chunks| && forall i :: 0 <= i < |rs| ==> rs[i] == chunks[i].range
  {
    seq(|chunks|, i requires 0 <= i < |chunks| => chunks[i].range)
  }

  function NewUploadSession(id: string, token: string, repository: string, tenant: string,
                            expected: Option<int>, ttl: int, now: int): Result<SessionValue> {
    if expected.Some? && expected.value < 0 then Failure(Validation("expectedSize"))
    else Success(SessionValue(id, repository, tenant, token, Open, [], expected, 0, now + ttl, 1))
  }

  predicate IsExpired(s: SessionValue, now: int) { now > s.expiresAt }

  predicate HasExactChunk(s: SessionValue, r: ByteRange, d: Digest) { Chunk(r, d) in s.chunks }

  /** The first recorded chunk that shares an offset with the range. */
  function FirstOverlap(chunks: seq<Chunk>, r: ByteRange): Option<Chunk> {
    if chunks == [] then None
    else if chunks[0].range.Overlaps(r) then Some(chunks[0])
    else FirstOverlap(chunks[1..], r)
  }

  function Recorded(s: SessionValue, r: ByteRange, d: Digest, now: int): (SessionValue, Outcome) {
    if s.state != Open then (s, Fail(UploadConflict))
    else if IsExpired(s, now) then (s.(state := Expired), Fail(UploadExpired))
    else if s.expectedSize.Some? && r.end >= s.expectedSize.value then (s, Fail(Validation("range")))
    else
      match FirstOverlap(s.chunks, r)
      case Some(c) => (s, if c == Chunk(r, d) then Pass else Fail(UploadConflict))
      case None =>
        (s.(chunks := s.chunks + [Chunk(r, d)], reservedBytes := s.reservedBytes + r.Length(),
          version := s.version + 1),
         Pass)
  }

  function CanFinalize(s: SessionValue, size: int, now: int): Outcome {
    if s.state != Open then Fail(UploadConflict)
    else if IsExpired(s, now) then Fail(UploadExpired)
    else if size < 0 then Fail(Validation("size"))
    else if s.expectedSize.Some? && size != s.expectedSize.value then Fail(Validation("size"))
    else if size == 0 && s.chunks == [] then Pass
    else if ContiguousEnd(RangesOf(s.chunks)) != size - 1 then Fail(UploadOutOfOrder)
    else Pass
  }

  function Finalized(s: SessionValue): (SessionValue, Outcome) {
    if s.state != Open then (s, Fail(UploadConflict))
    else (s.(state := Finalizing, version := s.version + 1), Pass)
  }

  function CompletedSession(s: SessionValue): SessionValue {
    s.(state := Completed, version := s.version + 1)
  }

  function AbortedSession(s: SessionValue): SessionValue {
    if s.state == Completed then s else s.(state := Aborted, version := s.version + 1)
  }

  class UploadSession {
    const id: string
    const repository: string
    const tenant: string
    const token: string
    const expectedSize: Option<int>
    const expiresAt: int
    var state: UploadState
    var chunks: seq<Chunk>
    var reservedBytes: int
    var version: int

    /** A copy of a stored session. */
    constructor (v: SessionValue)
      ensures Value() == v
    {
      id, repository, tenant, token := v.id, v.repository, v.tenant, v.token;
      expectedSize, expiresAt := v.expectedSize, v.expiresAt;
      state, chunks, reservedBytes, version := v.state, v.chunks, v.reservedBytes, v.version;
    }

    function Value(): SessionValue
      reads this
    {
      SessionValue(id, repository, tenant, token, state, chunks, expectedSize, reservedBytes, expiresAt, version)
    }

    method ContiguousEnd() returns (end: int)
      ensures end == Ranges.ContiguousEnd(RangesOf(chunks))
    {
      if |chunks| == 0 { return -1; }
      var rs := RangesOf(chunks);
      var ranges := SortSlice(rs, StartsBefore);
      ScanOfAnyOrder(rs, ranges);
      end := -1;
      assert ranges[0..] == ranges;
      for k := 0 to |ranges|
        invariant Scan(ranges[k..], end) == Scan(ranges, -1)
      {
        var r := ranges[k];
        assert ranges[k..][0] == r && ranges[k..][1..] == ranges[k + 1..];
        if r.start > end + 1 { return; }
        if r.end > end { end := r.end; }
      }
    }

    method HasExact(r: ByteRange, d: Digest) returns (found: bool)
      ensures found <==> HasExactChunk(Value(), r, d)
    {
      for k := 0 to |chunks|
        invariant Chunk(r, d) !in chunks[..k]
      {
        if chunks[k].range == r && chunks[k].digest == d { return true; }
      }
      return false;
    }

    method RecordChunk(r: ByteRange, d: Digest, now: int) returns (o: Outcome)
      modifies this
      ensures (Value(), o) == Recorded(old(Value()), r, d, now)
    {
      if state != Open { return Fail(UploadConflict); }
      if now > expiresAt {
        state := Expired;
        return Fail(UploadExpired);
      }
      if expectedSize.Some? && r.end >= expectedSize.value { return Fail(Validation("range")); }
      assert chunks[0..] == chunks;
      for k := 0 to |chunks|
        invariant Value() == old(Value())
        invariant FirstOverlap(chunks[k..], r) == FirstOverlap(chunks, r)
      {
        var c := chunks[k];
        assert chunks[k..][0] == c && chunks[k..][1..] == chunks[k + 1..];
        if c.range.Overlaps(r) {
          if c.range == r && c.digest == d { return Pass; }
          return Fail(UploadConflict);
        }
      }
      chunks := chunks + [Chunk(r, d)];
      reservedBytes := reservedBytes + r.Length();
      version := version + 1;
      return Pass;
    }

    method MayFinalize(size: int, now: int) returns (o: Outcome)
      ensures o == CanFinalize(Value(), size, now)
    {
      if state != Open { return Fail(UploadConflict); }
      if now > expiresAt { return Fail(UploadExpired); }
      if size < 0 { return Fail(Validation("size")); }
      if expectedSize.Some? && size != expectedSize.value { return Fail(Validation("size")); }
      if size == 0 && |chunks| == 0 { return Pass; }
      var end := ContiguousEnd();
      if end != size - 1 { return Fail(UploadOutOfOrder); }
      return Pass;
    }

    method Finalize() returns (o: Outcome)
      modifies this
      ensures (Value(), o) == Finalized(old(Value()))
    {
      if state != Open { return Fail(UploadConflict); }
      state := Finalizing;
      version := version + 1;
      return Pass;
    }

    method Complete()
      modifies this
      ensures Value() == CompletedSession(old(Value()))
    {
      state := Completed;
      version := version + 1;
    }

    method Abort()
      modifies this
      ensures Value() == AbortedSession(old(Value()))
    {
      if state == Completed { return; }
      state := Aborted;
      version := version + 1;
    }
  }

  // ---------------------------------------------------------------- what recording keeps

  /** The recorded ranges are valid, disjoint and within the expected size, and the reserved bytes are their lengths. */
  ghost predicate SessionOk(s: SessionValue) {
    var rs := RangesOf(s.chunks);
    && AllValid(rs)
    && PairwiseDisjoint(rs)
    && s.reservedBytes == TotalLength(rs)
    && (s.expectedSize.Some? ==>
          0 <= s.expectedSize.value && forall i :: 0 <= i < |rs| ==> rs[i].end < s.expectedSize.value)
  }

  lemma {:induction false} FirstOverlapFinds(chunks: seq<Chunk>, r: ByteRange)
    ensures match FirstOverlap(chunks, r)
            case None => forall i :: 0 <= i < |chunks| ==> !chunks[i].range.Overlaps(r)
            case Some(c) => c in chunks && c.range.Overlaps(r)
    decreases |chunks|
  {
    if chunks != [] { FirstOverlapFinds(chunks[1..], r); }
  }

  lemma AppendedKeepsOk(rs: seq<ByteRange>, r: ByteRange)
    requires AllValid(rs) && PairwiseDisjoint(rs) && r.Valid()
    requires forall i :: 0 <= i < |rs| ==> !rs[i].Overlaps(r)
    ensures AllValid(rs + [r]) && PairwiseDisjoint(rs + [r])
    ensures TotalLength(rs + [r]) == TotalLength(rs) + r.Length()
  {
    assert (rs + [r])[..|rs|] == rs;
  }

  lemma AppendedSessionOk(s: SessionValue, r: ByteRange, d: Digest, t: SessionValue)
    requires SessionOk(s) && r.Valid()
    requires s.expectedSize.Some? ==> r.end < s.expectedSize.value
    requires forall i :: 0 <= i < |s.chunks| ==> !s.chunks[i].range.Overlaps(r)
    requires t.chunks == s.chunks + [Chunk(r, d)] && t.reservedBytes == s.reservedBytes + r.Length()
    requires t.expectedSize == s.expectedSize
    ensures SessionOk(t)
  {
    var rs := RangesOf(s.chunks);
    assert RangesOf(t.chunks) == rs + [r];
    AppendedKeepsOk(rs, r);
  }

  lemma RecordKeepsOk(s: SessionValue, r: ByteRange, d: Digest, now: int)
    requires SessionOk(s) && r.Valid()
    ensures SessionOk(Recorded(s, r, d, now).0)
  {
    var t := Recorded(s, r, d, now).0;
    if t.chunks == s.chunks {
      assert RangesOf(t.chunks) == RangesOf(s.chunks);
    } else {
      FirstOverlapFinds(s.chunks, r);
      AppendedSessionOk(s, r, d, t);
    }
  }

  lemma StateChangesKeepOk(s: SessionValue)
    requires SessionOk(s)
    ensures SessionOk(Finalized(s).0) && SessionOk(CompletedSession(s)) && SessionOk(AbortedSession(s))
  {
  }

  /** A session accepts a range exactly when it is open and not expired, the range lies within the announced size,
      and is new in every byte or was recorded before with the same digest; a retransmission changes nothing. */
  lemma RecordAcceptsIff(s: SessionValue, r: ByteRange, d: Digest, now: int)
    requires SessionOk(s) && r.Valid()
    ensures Recorded(s, r, d, now).1.Pass? <==>
      && s.state == Open && now <= s.expiresAt && (s.expectedSize.Some? ==> r.end < s.expectedSize.value)
      && (Chunk(r, d) in s.chunks || forall o :: r.Has(o) ==> !Covered(RangesOf(s.chunks), o))
    ensures Recorded(s, r, d, now).1.Pass? && Chunk(r, d) in s.chunks ==> Recorded(s, r, d, now).0 == s
  {
    var rs := RangesOf(s.chunks);
    FirstOverlapFinds(s.chunks, r);
    if Chunk(r, d) in s.chunks {
      var k :| 0 <= k < |s.chunks| && s.chunks[k] == Chunk(r, d);
      var c := FirstOverlap(s.chunks, r).value;
      var i :| 0 <= i < |s.chunks| && s.chunks[i] == c;
      assert rs[i].Overlaps(rs[k]) && rs[k].Overlaps(rs[i]);
      assert i == k;
    }
    match FirstOverlap(s.chunks, r)
    case Some(c) =>
      var i :| 0 <= i < |s.chunks| && s.chunks[i] == c;
      OverlapsMeansSharedOffset(rs[i], r);
      var o :| rs[i].Has(o) && r.Has(o);
      assert Covered(rs, o);
    case None =>
      forall o, i | r.Has(o) && 0 <= i < |rs| ensures !rs[i].Has(o) {
        assert !s.chunks[i].range.Overlaps(r);
      }
  }

  /** All recorded chunks lie within a file of the given size. */
  ghost predicate FitsIn(s: SessionValue, size: int) {
    forall i :: 0 <= i < |s.chunks| ==> s.chunks[i].range.end < size
  }

  /** The finalize guard passes exactly when the chunks tile the file: disjoint, and together [0, size). */
  lemma CanFinalizeIffTiled(s: SessionValue, size: int, now: int)
    requires SessionOk(s) && FitsIn(s, size) && 0 <= size
    ensures CanFinalize(s, size, now).Pass? <==>
      && s.state == Open && now <= s.expiresAt
      && (s.expectedSize.Some? ==> size == s.expectedSize.value)
      && Tiles(RangesOf(s.chunks), size)
    ensures CanFinalize(s, size, now).Pass? ==> s.reservedBytes == size
  {
    var rs := RangesOf(s.chunks);
    ContiguousEndIsExact(rs);
    var e := ContiguousEnd(rs);
    forall o | Covered(rs, o) ensures 0 <= o < size {
      var i :| 0 <= i < |rs| && rs[i].Has(o);
      assert s.chunks[i].range.end < size && rs[i].Valid();
    }
    if e == size - 1 {
      assert Tiles(rs, size);
    }
    if Tiles(rs, size) {
      TilingHasTotalLength(rs, size);
      assert e >= 0 ==> Covered(rs, e);
      assert size > e + 1 ==> Covered(rs, e + 1);
    }
  }
}
