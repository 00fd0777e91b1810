/** The upload round trip: chunks in any order, retransmitted at will, among any other calls, read back as sent. */
module RoundTrip {
  import opened Basics
  import opened Ranges
  import opened Artifacts
  import opened Upload
  import opened Objects
  import opened Store
  import opened Registry
  import opened Runs
  import opened Effects
  import opened RunInvariants
  import opened RunLaws
  import opened Interference

  // ---------------------------------------------------------------- sending

  /** The part of the content that a range names. */
  function Piece(content: Bytes, r: ByteRange): Bytes {
    if 0 <= r.start <= r.end < |content| then content[r.start..r.end + 1] else []
  }

  /** An upload of the content that is being sent. */
  datatype Sending = Sending(repo: string, id: string, token: string, content: Bytes, tiles: seq<ByteRange>,
                             expiresAt: int)

  /** The tiles cut the content into pieces, none too long for the registry. */
  ghost predicate Sendable(c: Config, x: Sending) {
    && x.content != [] && Tiles(x.tiles, |x.content|)
    && forall i :: 0 <= i < |x.tiles| ==> x.tiles[i].Length() <= c.maxBlobSize
  }

  lemma TileFits(c: Config, x: Sending, r: ByteRange)
    requires Sendable(c, x) && r in x.tiles
    ensures 0 <= r.start <= r.end < |x.content| && r.Length() <= c.maxBlobSize
  {
    var i :| 0 <= i < |x.tiles| && x.tiles[i] == r;
    assert r.Has(r.end) && Covered(x.tiles, r.end);
    assert r.Has(r.start) && Covered(x.tiles, r.start);
  }

  /** A chunk call of this upload before it expires: one of the tiles with its bytes. */
  predicate Sends(x: Sending, step: Step) {
    && step.UploadChunk? && step.repo == x.repo && step.id == x.id && step.token == x.token
    && step.range in x.tiles && step.now <= x.expiresAt
    && step.data == Piece(x.content, step.range)
  }

  function PieceDigest(c: Config, x: Sending, r: ByteRange): Digest {
    c.hash(Piece(x.content, r))
  }

  /** The chunk is one of the tiles, with the digest of its bytes. */
  predicate IsPiece(c: Config, x: Sending, chunk: Chunk) {
    chunk.range in x.tiles && chunk.digest == PieceDigest(c, x, chunk.range)
  }

  /** The session is open for this content, and its temp file holds what was sent. */
  ghost predicate Receiving(c: Config, s: State, x: Sending) {
    && x.repo in s.repos
    && Addresses(s, x.repo, x.id, x.token)
    && var u, file := s.uploads[x.id], FileAt(s.files, TempKey(x.id));
       && u.state == Open && u.expiresAt == x.expiresAt
       && (u.expectedSize.Some? ==> u.expectedSize.value == |x.content|)
       && (forall k :: 0 <= k < |u.chunks| ==> IsPiece(c, x, u.chunks[k]))
       && |file| <= |x.content|
       && (forall o :: Covered(RangesOf(u.chunks), o) ==> 0 <= o < |file| && file[o] == x.content[o])
  }

  lemma TilesDisjoint(tiles: seq<ByteRange>, a: ByteRange, b: ByteRange)
    requires PairwiseDisjoint(tiles) && a in tiles && b in tiles && a != b
    ensures !a.Overlaps(b)
  {
    var i :| 0 <= i < |tiles| && tiles[i] == a;
    var j :| 0 <= j < |tiles| && tiles[j] == b;
    assert i < j ==> !tiles[i].Overlaps(tiles[j]);
    assert j < i ==> !tiles[j].Overlaps(tiles[i]);
  }

  /** A tile that was not recorded yet meets no recorded chunk. */
  lemma NewTileIsFree(c: Config, x: Sending, chunks: seq<Chunk>, r: ByteRange)
    requires Sendable(c, x) && r in x.tiles && Chunk(r, PieceDigest(c, x, r)) !in chunks
    requires forall k :: 0 <= k < |chunks| ==> IsPiece(c, x, chunks[k])
    ensures FirstOverlap(chunks, r) == None
  {
    FirstOverlapFinds(chunks, r);
    match FirstOverlap(chunks, r)
    case None =>
    case Some(f) =>
      var k :| 0 <= k < |chunks| && chunks[k] == f;
      assert IsPiece(c, x, chunks[k]);
      assert f.range != r;
      TilesDisjoint(x.tiles, f.range, r);
  }

  /** Writing one more piece of the content. */
  lemma PieceWritten(content: Bytes, rs: seq<ByteRange>, file: Bytes, r: ByteRange)
    requires 0 <= r.start <= r.end < |content| && |file| <= |content|
    requires forall o :: Covered(rs, o) ==> 0 <= o < |file| && file[o] == content[o]
    ensures
      var after := Spliced(file, r.start, Piece(content, r));
      |after| <= |content| && forall o :: Covered(rs + [r], o) ==> 0 <= o < |after| && after[o] == content[o]
  {
    var after := Spliced(file, r.start, Piece(content, r));
    forall o | Covered(rs + [r], o) ensures 0 <= o < |after| && after[o] == content[o] {
      if !r.Has(o) {
        var i :| 0 <= i < |rs + [r]| && (rs + [r])[i].Has(o);
        assert rs[i].Has(o);
        assert Covered(rs, o);
      }
    }
  }

  /** The session with one more chunk. */
  function Extended(u: SessionValue, r: ByteRange, d: Digest): SessionValue {
    u.(chunks := u.chunks + [Chunk(r, d)], reservedBytes := u.reservedBytes + r.Length(), version := u.version + 1)
  }

  /** The state after an accepted chunk. */
  function Accepted(c: Config, s: State, id: string, r: ByteRange, data: Bytes): State
    requires id in s.uploads && 0 <= r.start
  {
    s.(files := WrittenAt(s.files, TempKey(id), r.start, data),
      uploads := s.uploads[id := Extended(s.uploads[id], r, c.hash(data))])
  }

  lemma ChunkAccepted(c: Config, s: State, repo: string, id: string, token: string, r: ByteRange, data: Bytes, now: int)
    requires Addresses(s, repo, id, token) && s.uploads[id].id == id
    requires r.Valid() && |data| == r.Length() <= c.maxBlobSize
    requires s.uploads[id].state == Open && now <= s.uploads[id].expiresAt
    requires s.uploads[id].expectedSize.Some? ==> r.end < s.uploads[id].expectedSize.value
    requires Chunk(r, c.hash(data)) !in s.uploads[id].chunks && FirstOverlap(s.uploads[id].chunks, r) == None
    ensures ChunkUploaded(c, s, repo, id, token, r, data, now) ==
      (Accepted(c, s, id, r, data), Success(Extended(s.uploads[id], r, c.hash(data))))
  {
    var u := s.uploads[id];
    assert Recorded(u, r, c.hash(data), now) == (Extended(u, r, c.hash(data)), Pass);
    assert !HasExactChunk(u, r, c.hash(data));
  }

  lemma AcceptedReceives(c: Config, s: State, x: Sending, r: ByteRange)
    requires Sendable(c, x) && Receiving(c, s, x) && r in x.tiles && r.Valid() && r.end < |x.content|
    ensures Receiving(c, Accepted(c, s, x.id, r, Piece(x.content, r)), x)
  {
    var u, file := s.uploads[x.id], FileAt(s.files, TempKey(x.id));
    var v := Extended(u, r, PieceDigest(c, x, r));
    PieceWritten(x.content, RangesOf(u.chunks), file, r);
    assert RangesOf(v.chunks) == RangesOf(u.chunks) + [r];
  }

  lemma NewTileStep(c: Config, s: State, x: Sending, r: ByteRange, now: int)
    requires Kept(c, s) && Sendable(c, x) && Receiving(c, s, x) && r in x.tiles && now <= x.expiresAt
    requires Chunk(r, PieceDigest(c, x, r)) !in s.uploads[x.id].chunks
    ensures r.Valid()
    ensures
      var (t, o) := ChunkUploaded(c, s, x.repo, x.id, x.token, r, Piece(x.content, r), now);
      && o.Success? && Receiving(c, t, x)
      && t.uploads[x.id].chunks == s.uploads[x.id].chunks + [Chunk(r, PieceDigest(c, x, r))]
  {
    assert SessionKept(s, x.id);
    TileFits(c, x, r);
    NewTileIsFree(c, x, s.uploads[x.id].chunks, r);
    ChunkAccepted(c, s, x.repo, x.id, x.token, r, Piece(x.content, r), now);
    AcceptedReceives(c, s, x, r);
  }

  /** A tile is accepted; sending it again changes nothing. */
  lemma SendStep(c: Config, s: State, x: Sending, step: Step)
    requires Kept(c, s) && Sendable(c, x) && Receiving(c, s, x) && Sends(x, step)
    ensures step.range.Valid()
    ensures
      var (t, r) := ChunkUploaded(c, s, x.repo, x.id, x.token, step.range, step.data, step.now);
      && r.Success?
      && Receiving(c, t, x)
      && Chunk(step.range, PieceDigest(c, x, step.range)) in t.uploads[x.id].chunks
      && (forall k :: k in s.uploads[x.id].chunks ==> k in t.uploads[x.id].chunks)
  {
    var u, r := s.uploads[x.id], step.range;
    assert SessionKept(s, x.id);
    TileFits(c, x, r);
    if Chunk(r, PieceDigest(c, x, r)) in u.chunks {
      assert ChunkUploaded(c, s, x.repo, x.id, x.token, r, step.data, step.now) == (s, Success(u));
    } else {
      NewTileStep(c, s, x, r, step.now);
    }
  }

  lemma ReceivingUntouched(c: Config, s: State, t: State, x: Sending)
    requires Sendable(c, x) && Receiving(c, s, x) && Untouched(s, t, x.id)
    ensures Receiving(c, t, x)
  {
  }

  // ---------------------------------------------------------------- runs

  /** A call on this upload that is refused: under another repository or token, or a completion that the
      finalize guard stops. */
  predicate Refused(s: State, x: Sending, step: Step) {
    && (step.UploadChunk? || step.CompleteUpload? || step.AbortUpload?)
    && step.id == x.id
    && (step.repo != x.repo || step.token != x.token || (step.CompleteUpload? && !PassesGuard(s, x.id, step.now)))
  }

  lemma RefusedChangesNothing(c: Config, s: State, x: Sending, step: Step)
    requires Kept(c, s) && Addresses(s, x.repo, x.id, x.token) && Refused(s, x, step)
    ensures Apply(c, s, step) == s
  {
    assert SessionKept(s, x.id);
    if step.CompleteUpload? {
      CompleteEffect(c, s, step.repo, step.id, step.token, step.digest, step.now);
    }
  }

  predicate Admitted(s: State, x: Sending, step: Step) {
    Foreign(step, x.id, x.expiresAt) || Sends(x, step) || Refused(s, x, step)
  }

  /** Calls that send tiles, in any order and as often as they like, among refused calls and any calls on
      something else. */
  ghost predicate Delivers(c: Config, s: State, x: Sending, steps: seq<Step>)
    decreases |steps|
  {
    steps == [] ||
    (Delivers(c, s, x, steps[..|steps| - 1]) && Admitted(After(c, s, steps[..|steps| - 1]), x, steps[|steps| - 1]))
  }

  predicate SendsAll(x: Sending, steps: seq<Step>) {
    forall r :: r in x.tiles ==> exists i :: 0 <= i < |steps| && Sends(x, steps[i]) && steps[i].range == r
  }

  /** The session has recorded the tile. */
  ghost predicate Has(c: Config, s: State, x: Sending, r: ByteRange) {
    x.id in s.uploads && Chunk(r, PieceDigest(c, x, r)) in s.uploads[x.id].chunks
  }

  lemma StepReceives(c: Config, s: State, x: Sending, step: Step)
    requires Kept(c, s) && Sendable(c, x) && Receiving(c, s, x) && Admitted(s, x, step)
    ensures Receiving(c, Apply(c, s, step), x)
    ensures forall k :: k in s.uploads[x.id].chunks ==> k in Apply(c, s, step).uploads[x.id].chunks
  {
    if Sends(x, step) {
      SendStep(c, s, x, step);
    } else if Refused(s, x, step) {
      RefusedChangesNothing(c, s, x, step);
    } else {
      ForeignStep(c, s, step, x.id);
      ReceivingUntouched(c, s, Apply(c, s, step), x);
    }
  }

  lemma SentIsRecorded(c: Config, s: State, x: Sending, step: Step)
    requires Kept(c, s) && Sendable(c, x) && Receiving(c, s, x) && Sends(x, step)
    ensures Has(c, Apply(c, s, step), x, step.range)
  {
    SendStep(c, s, x, step);
  }

  lemma {:induction false} RunReceives(c: Config, s: State, x: Sending, steps: seq<Step>)
    requires 0 <= c.defaultQuota && Kept(c, s) && Sendable(c, x) && Receiving(c, s, x) && Delivers(c, s, x, steps)
    ensures Kept(c, After(c, s, steps)) && Receiving(c, After(c, s, steps), x)
    decreases |steps|
  {
    if steps != [] {
      var front, last := steps[..|steps| - 1], steps[|steps| - 1];
      RunReceives(c, s, x, front);
      StepReceives(c, After(c, s, front), x, last);
      StepKeeps(c, After(c, s, front), last);
    }
  }

  /** What was sent stays recorded. */
  lemma {:induction false} RunRecords(c: Config, s: State, x: Sending, steps: seq<Step>, i: nat)
    requires 0 <= c.defaultQuota && Kept(c, s) && Sendable(c, x) && Receiving(c, s, x) && Delivers(c, s, x, steps)
    requires i < |steps| && Sends(x, steps[i])
    ensures Has(c, After(c, s, steps), x, steps[i].range)
    decreases |steps|
  {
    var front, last := steps[..|steps| - 1], steps[|steps| - 1];
    RunReceives(c, s, x, front);
    if i == |front| {
      SentIsRecorded(c, After(c, s, front), x, last);
    } else {
      RunRecords(c, s, x, front, i);
      StepReceives(c, After(c, s, front), x, last);
    }
  }

  lemma {:induction false} PrefixDelivers(c: Config, s: State, x: Sending, steps: seq<Step>, i: nat)
    requires Delivers(c, s, x, steps) && i <= |steps|
    ensures Delivers(c, s, x, steps[..i])
    decreases |steps|
  {
    if i == |steps| {
      assert steps[..i] == steps;
    } else {
      PrefixDelivers(c, s, x, steps[..|steps| - 1], i);
      assert steps[..|steps| - 1][..i] == steps[..i];
    }
  }

  // ---------------------------------------------------------------- completing and reading back

  /** When every tile is there, the temp file is the content, and the finalize guard passes. */
  lemma AllReceived(c: Config, s: State, x: Sending, now: int)
    requires Kept(c, s) && Sendable(c, x) && Receiving(c, s, x) && now <= x.expiresAt
    requires forall r :: r in x.tiles ==> Has(c, s, x, r)
    ensures TempKey(x.id) in s.files && s.files[TempKey(x.id)] == x.content
    ensures PassesGuard(s, x.id, now)
  {
    var u, file := s.uploads[x.id], FileAt(s.files, TempKey(x.id));
    var rs := RangesOf(u.chunks);
    assert SessionKept(s, x.id);
    forall o | 0 <= o < |x.content| ensures Covered(rs, o) {
      assert Covered(x.tiles, o);
      var i :| 0 <= i < |x.tiles| && x.tiles[i].Has(o);
      assert Has(c, s, x, x.tiles[i]);
      var k :| 0 <= k < |u.chunks| && u.chunks[k] == Chunk(x.tiles[i], PieceDigest(c, x, x.tiles[i]));
      assert rs[k].Has(o);
    }
    assert Covered(rs, |x.content| - 1);
    assert file == x.content;
    CanFinalizeIffTiled(u, |file|, now);
  }

  /** No other bytes have the content's digest. */
  ghost predicate NoCollision(hash: Hash, content: Bytes) {
    forall x :: hash(x) == hash(content) ==> x == content
  }

  lemma StoringPasses(c: Config, s: State, u: SessionValue, content: Bytes)
    requires ContentKept(c.hash, s) && TempKey(u.id) in s.files && s.files[TempKey(u.id)] == content
    requires NoCollision(c.hash, content)
    ensures BlobStored(s, u, Blob(c.hash(content), |content|, 0, BlobKey(c.hash(content)))).1.Pass?
    ensures c.hash(content) in BlobStored(s, u, Blob(c.hash(content), |content|, 0, BlobKey(c.hash(content)))).0.blobs
  {
    var d := c.hash(content);
    StoredEffect(c.hash, s, u, d, content);
    if d in s.blobs { assert BlobHolds(c.hash, s, d); }
  }

  /** Completing gives a blob of the content's digest and size, and both the whole blob and its full range
      read back as the content. */
  ghost predicate CompletesAs(c: Config, s: State, x: Sending, now: int) {
    var d := c.hash(x.content);
    var (t, r) := UploadCompleted(c, s, x.repo, x.id, x.token, d, now);
    && r == Success(Blob(d, |x.content|, 0, BlobKey(d)))
    && BlobRead(t, x.repo, d, None) == Success(x.content)
    && BlobRead(t, x.repo, d, Some(ByteRange(0, |x.content| - 1))) == Success(x.content)
  }

  /** Completing succeeds, and the blob reads back as the content. */
  lemma CompletesAndReadsBack(c: Config, s: State, x: Sending, now: int)
    requires Kept(c, s) && Sendable(c, x) && Receiving(c, s, x) && now <= x.expiresAt
    requires forall r :: r in x.tiles ==> Has(c, s, x, r)
    requires NoCollision(c.hash, x.content)
    ensures CompletesAs(c, s, x, now)
  {
    var d, v := c.hash(x.content), Finalized(s.uploads[x.id]).0;
    var w, t := WithSession(s, x.id, v), UploadCompleted(c, s, x.repo, x.id, x.token, d, now).0;
    AllReceived(c, s, x, now);
    assert SessionKept(s, x.id);
    assert UpdatedUpload(s, v, s.uploads[x.id].version) == (w, Pass);
    FinalizingContent(c.hash, s, x.id, v);
    StoringPasses(c, w, v, x.content);
    CompleteEffect(c, s, x.repo, x.id, x.token, d, now);
    AfterGuardShape(c, w, x.id, d);
    CompleteKeeps(c, s, x.repo, x.id, x.token, d, now);
    assert BlobHolds(c.hash, t, d);
    ReadsOfBlob(c.hash, t, x.repo, d, t.files[BlobKey(d)]);
    assert x.content[0..|x.content|] == x.content;
  }

  lemma FreshReceives(c: Config, s: State, t: State, x: Sending)
    requires Kept(c, s) && Sendable(c, x) && x.id !in s.uploads && t.files == s.files
    requires x.repo in t.repos && Addresses(t, x.repo, x.id, x.token)
    requires var u := t.uploads[x.id];
      u.state == Open && u.expiresAt == x.expiresAt && u.chunks == [] &&
        (u.expectedSize.Some? ==> u.expectedSize.value == |x.content|)
    ensures Receiving(c, t, x)
  {
    assert TempKey(x.id) !in s.files;
  }

  /** A started upload is ready for any content of the announced size. */
  lemma StartedReceives(c: Config, s: State, repo: string, expected: Option<int>, id: string, token: string,
                        now: int, x: Sending)
    requires Kept(c, s) && UploadStarted(c, s, repo, expected, id, token, now).1.Success? && Sendable(c, x)
    requires x.repo == repo && x.id == id && x.token == token && x.expiresAt == now + c.uploadTTL
    requires expected.Some? ==> expected.value == |x.content|
    ensures Receiving(c, UploadStarted(c, s, repo, expected, id, token, now).0, x)
  {
    var t := UploadStarted(c, s, repo, expected, id, token, now).0;
    StartEffect(c, s, repo, expected, id, token, now);
    StartSuccess(c, s, repo, expected, id, token, now);
    FreshReceives(c, s, t, x);
  }

  /** Every tile that is sent is accepted. */
  lemma EverySendIsAccepted(c: Config, s: State, x: Sending, steps: seq<Step>, i: nat)
    requires 0 <= c.defaultQuota && Kept(c, s) && Sendable(c, x) && Receiving(c, s, x) && Delivers(c, s, x, steps)
    requires i < |steps| && Sends(x, steps[i])
    ensures steps[i].range.Valid()
    ensures ChunkUploaded(c, After(c, s, steps[..i]), x.repo, x.id, x.token, steps[i].range, steps[i].data,
                         steps[i].now).1.Success?
  {
    PrefixDelivers(c, s, x, steps, i);
    RunReceives(c, s, x, steps[..i]);
    SendStep(c, After(c, s, steps[..i]), x, steps[i]);
  }

  /** The upload round trip: once an upload is started, its tiles are sent in any order and any number of
      times, among any other calls; then it completes under the content's digest, and reading the blob
      returns the content. */
  lemma UploadRoundTrip(c: Config, s: State, x: Sending, steps: seq<Step>, now: int)
    requires 0 <= c.defaultQuota && Kept(c, s) && Sendable(c, x) && Receiving(c, s, x)
    requires Delivers(c, s, x, steps) && SendsAll(x, steps)
    requires now <= x.expiresAt && NoCollision(c.hash, x.content)
    ensures CompletesAs(c, After(c, s, steps), x, now)
  {
    RunReceives(c, s, x, steps);
    forall r | r in x.tiles ensures Has(c, After(c, s, steps), x, r) {
      var i :| 0 <= i < |steps| && Sends(x, steps[i]) && steps[i].range == r;
      RunRecords(c, s, x, steps, i);
    }
    CompletesAndReadsBack(c, After(c, s, steps), x, now);
  }

  // ---------------------------------------------------------------- completing too early

  /** With a tile missing, the finalize guard passes exactly when no size was announced and the tiles
      recorded so far cut all of the temp file into pieces; an upload with an announced size is never cut short. */
  lemma EarlyCompletionPassesIff(c: Config, s: State, x: Sending, r: ByteRange, now: int)
    requires Kept(c, s) && Sendable(c, x) && Receiving(c, s, x) && r in x.tiles && !Has(c, s, x, r)
    ensures PassesGuard(s, x.id, now) <==>
      && TempKey(x.id) in s.files && now <= x.expiresAt
      && s.uploads[x.id].expectedSize.None?
      && Tiles(RangesOf(s.uploads[x.id].chunks), |s.files[TempKey(x.id)]|)
  {
    assert SessionKept(s, x.id);
    if TempKey(x.id) in s.files {
      var u, file := s.uploads[x.id], s.files[TempKey(x.id)];
      CanFinalizeIffTiled(u, |file|, now);
      TileFits(c, x, r);
      MissingIsUncovered(c, x, u.chunks, r);
    }
  }

  /** The bytes of a tile that is not recorded are not covered by the others. */
  lemma MissingIsUncovered(c: Config, x: Sending, chunks: seq<Chunk>, r: ByteRange)
    requires Sendable(c, x) && r in x.tiles && Chunk(r, PieceDigest(c, x, r)) !in chunks
    requires forall k :: 0 <= k < |chunks| ==> IsPiece(c, x, chunks[k])
    ensures !Covered(RangesOf(chunks), r.start)
  {
    TileFits(c, x, r);
    forall k | 0 <= k < |chunks| ensures !RangesOf(chunks)[k].Has(r.start) {
      assert IsPiece(c, x, chunks[k]) && chunks[k].range != r;
      TilesDisjoint(x.tiles, chunks[k].range, r);
    }
  }

  /** Then completing under the content's digest ends the upload with a mismatch. */
  lemma EarlyCompletionMismatches(c: Config, s: State, x: Sending, r: ByteRange, now: int)
    requires Kept(c, s) && Sendable(c, x) && Receiving(c, s, x) && r in x.tiles && !Has(c, s, x, r)
    requires PassesGuard(s, x.id, now) && NoCollision(c.hash, x.content)
    ensures UploadCompleted(c, s, x.repo, x.id, x.token, c.hash(x.content), now).1 == Failure(DigestMismatch)
    ensures !Receiving(c, UploadCompleted(c, s, x.repo, x.id, x.token, c.hash(x.content), now).0, x)
  {
    assert SessionKept(s, x.id);
    var u, file := s.uploads[x.id], s.files[TempKey(x.id)];
    var v := Finalized(u).0;
    EarlyCompletionPassesIff(c, s, x, r, now);
    MissingIsUncovered(c, x, u.chunks, r);
    TileFits(c, x, r);
    assert Covered(RangesOf(u.chunks), r.start) <==> 0 <= r.start < |file|;
    assert file != x.content;
    assert UpdatedUpload(s, v, u.version) == (WithSession(s, x.id, v), Pass);
    CompleteEffect(c, s, x.repo, x.id, x.token, c.hash(x.content), now);
    AfterGuardShape(c, WithSession(s, x.id, v), x.id, c.hash(x.content));
  }

  lemma ChunksTakeRoom(u: SessionValue, size: int)
    requires SessionOk(u) && FitsIn(u, size)
    ensures u.chunks != [] ==> 0 < size
  {
    if u.chunks != [] { assert RangesOf(u.chunks)[0].Valid(); }
  }

  /** Nothing can be completed before something is written: with no temp object the call fails, so an empty
      blob cannot be uploaded although the finalize guard would let an empty session pass. */
  lemma NothingWrittenFails(c: Config, s: State, repo: string, id: string, token: string, d: Digest, now: int)
    requires Kept(c, s) && Addresses(s, repo, id, token) && TempKey(id) !in s.files
    ensures UploadCompleted(c, s, repo, id, token, d, now) == (s, Failure(NoSuchObject))
    ensures s.uploads[id].state == Open && s.uploads[id].expectedSize.None? && !IsExpired(s.uploads[id], now) ==>
      CanFinalize(s.uploads[id], 0, now).Pass?
  {
    assert SessionKept(s, id);
    if s.uploads[id].state == Open { ChunksTakeRoom(s.uploads[id], 0); }
  }
}
