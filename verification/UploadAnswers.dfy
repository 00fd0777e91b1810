/** When the upload calls and the read succeed, what they answer otherwise, and what they leave, in terms of the stored
    entries alone. */
module UploadAnswers {
  import opened Basics
  import opened Ranges
  import opened Artifacts
  import opened Upload
  import opened Objects
  import opened Policy
  import opened Store
  import opened Registry
  import opened Janitor
  import opened Effects
  import opened RunInvariants
  import opened RunLaws

  // ---------------------------------------------------------------- quotas

  /** The bytes still fit. */
  predicate Fits(s: State, tenant: string, n: int) {
    tenant in s.quotas && s.quotas[tenant].used + s.quotas[tenant].reserved + n <= s.quotas[tenant].limit
  }

  /** The quotas with n bytes of the tenant moved: `reserved` and `used` are the changes. */
  function Shifted(s: State, tenant: string, reserved: int, used: int): map<string, QuotaValue>
    requires tenant in s.quotas
  {
    var q := s.quotas[tenant];
    s.quotas[tenant := QuotaValue(q.limit, q.used + used, q.reserved + reserved, q.version + 1)]
  }

  /** n bytes given back, and `used` of them used up; nothing when fewer are reserved. */
  function Settled(s: State, tenant: string, n: Option<int>, used: int): map<string, QuotaValue> {
    if n.Some? && tenant in s.quotas && 0 <= n.value <= s.quotas[tenant].reserved
    then Shifted(s, tenant, -n.value, used)
    else s.quotas
  }

  lemma ReserveAnswers(s: State, tenant: string, n: int)
    ensures
      var (t, o) := Reserve(s, tenant, n);
      && (o.Pass? <==> 0 <= n && Fits(s, tenant, n))
      && (o.Pass? ==> t == s.(quotas := Shifted(s, tenant, n, 0)))
      && (o.Fail? ==> t == s)
      && (o.Fail? ==> o.error == if tenant !in s.quotas then ManifestNotFound
                                 else if n < 0 then Validation("reservation") else QuotaExceeded)
  {
    ReserveEffect(s, tenant, n);
  }

  lemma ReleaseAnswers(s: State, u: SessionValue)
    ensures ReleaseReservation(s, u) == s.(quotas := Settled(s, u.tenant, u.expectedSize, 0))
  {
    if u.expectedSize.Some? { ReleaseEffect(s, u.tenant, u.expectedSize.value); }
  }

  lemma CommitAnswers(s: State, u: SessionValue, actual: int)
    requires 0 <= actual
    ensures CommitReservation(s, u, actual) == s.(quotas := Settled(s, u.tenant, u.expectedSize, actual))
  {
    CommitEffect(s, u, actual);
  }

  // ---------------------------------------------------------------- starting

  /** The announced size, if there is one, is not negative, not too large for the registry, and fits. */
  predicate Admitted(c: Config, s: State, tenant: string, expected: Option<int>) {
    expected.Some? ==> 0 <= expected.value <= c.maxBlobSize && Fits(s, tenant, expected.value)
  }

  function StartError(c: Config, s: State, repo: string, expected: Option<int>): Error {
    if repo !in s.repos then ManifestNotFound
    else if expected.Some? && !(0 <= expected.value <= c.maxBlobSize) then Validation("expectedSize")
    else if expected.Some? && s.repos[repo].tenant !in s.quotas then ManifestNotFound
    else if !Admitted(c, s, s.repos[repo].tenant, expected) then QuotaExceeded
    else Conflict("upload")
  }

  /** A new session is open, holds nothing, and lives as long as the configuration says; its bytes are reserved. */
  ghost predicate IsStarted(c: Config, s: State, t: State, repo: string, expected: Option<int>, id: string,
                            token: string, now: int)
    requires repo in s.repos
  {
    var tenant := s.repos[repo].tenant;
    && Admitted(c, s, tenant, expected)
    && t == s.(
      uploads := s.uploads[id := SessionValue(id, repo, tenant, token, Open, [], expected, 0, now + c.uploadTTL, 1)],
      quotas := if expected.Some? then Shifted(s, tenant, expected.value, 0) else s.quotas)
  }

  /** The limits, the used and the reserved bytes are those of before. */
  ghost predicate SameQuotas(s: State, t: State) {
    && t.quotas.Keys == s.quotas.Keys
    && forall k :: k in s.quotas ==> t.quotas[k].(version := 0) == s.quotas[k].(version := 0)
  }

  lemma TakenIdGivesBack(s: State, tenant: string, n: int)
    requires 0 <= n && Fits(s, tenant, n) && QuotaOk(s.quotas[tenant])
    ensures
      var t := Release(Reserve(s, tenant, n).0, tenant, n);
      t == s.(quotas := t.quotas) && SameQuotas(s, t)
  {
    ReserveAnswers(s, tenant, n);
    ReleaseEffect(Reserve(s, tenant, n).0, tenant, n);
  }

  /** An upload is admitted exactly when its repository is stored, its id is free, and its announced size, if any,
      is one the registry takes and that fits the tenant's quota. */
  lemma StartUploadAnswers(c: Config, s: State, repo: string, expected: Option<int>, id: string, token: string,
                           now: int)
    requires QuotasKept(s)
    ensures
      var (t, r) := UploadStarted(c, s, repo, expected, id, token, now);
      && (r.Success? <==> repo in s.repos && id !in s.uploads && Admitted(c, s, s.repos[repo].tenant, expected))
      && (r.Success? ==> IsStarted(c, s, t, repo, expected, id, token, now) && r.value == t.uploads[id])
      && (r.Failure? ==> r.error == StartError(c, s, repo, expected))
      && (r.Failure? ==> t == s.(quotas := t.quotas) && SameQuotas(s, t))
  {
    if repo in s.repos && !RefusedSize(c, expected) {
      var tenant := s.repos[repo].tenant;
      if expected.Some? {
        ReserveAnswers(s, tenant, expected.value);
        if Fits(s, tenant, expected.value) { TakenIdGivesBack(s, tenant, expected.value); }
      }
    }
  }

  // ---------------------------------------------------------------- chunks

  predicate Known(s: State, repo: string, id: string, token: string) {
    id in s.uploads && s.uploads[id].repository == repo && s.uploads[id].token == token
  }

  /** The bytes come with the length of their range, which the registry takes. */
  predicate WellSized(c: Config, r: ByteRange, data: Bytes) {
    |data| == r.end - r.start + 1 <= c.maxBlobSize
  }

  /** The range lies before or behind every recorded chunk. */
  predicate Apart(u: SessionValue, r: ByteRange) {
    forall k :: k in u.chunks ==> r.end < k.range.start || k.range.end < r.start
  }

  predicate WasRecorded(s: State, id: string, k: Chunk) {
    id in s.uploads && k in s.uploads[id].chunks
  }

  predicate Taking(u: SessionValue, r: ByteRange, now: int) {
    && u.state == Open && now <= u.expiresAt && (u.expectedSize.Some? ==> r.end < u.expectedSize.value)
    && Apart(u, r)
  }

  function ChunkError(c: Config, s: State, repo: string, id: string, token: string, r: ByteRange, data: Bytes,
                      now: int): Error
  {
    if !Known(s, repo, id, token) then UploadNotFound
    else if c.maxBlobSize < r.end - r.start + 1 then Validation("chunk")
    else if |data| != r.end - r.start + 1 then Validation("Content-Range")
    else if r.start < 0 then NegativeOffset
    else if s.uploads[id].state != Open then UploadConflict
    else if s.uploads[id].expiresAt < now then UploadExpired
    else if s.uploads[id].expectedSize.Some? && s.uploads[id].expectedSize.value <= r.end then Validation("range")
    else UploadConflict
  }

  lemma RecordAnswers(u: SessionValue, r: ByteRange, d: Digest, now: int)
    requires Chunk(r, d) !in u.chunks
    ensures
      var (v, o) := Recorded(u, r, d, now);
      && (o.Pass? <==> Taking(u, r, now))
      && (o.Pass? ==> v == u.(chunks := u.chunks + [Chunk(r, d)], version := u.version + 1,
                              reservedBytes := u.reservedBytes + (r.end - r.start + 1)))
      && (o.Fail? ==> o.error == if u.state != Open then UploadConflict
                                 else if u.expiresAt < now then UploadExpired
                                 else if u.expectedSize.Some? && u.expectedSize.value <= r.end then Validation("range")
                                 else UploadConflict)
  {
    FirstOverlapFinds(u.chunks, r);
    if FirstOverlap(u.chunks, r).None? {
      forall k | k in u.chunks ensures r.end < k.range.start || k.range.end < r.start {
        var i :| 0 <= i < |u.chunks| && u.chunks[i] == k;
        assert !u.chunks[i].range.Overlaps(r);
      }
    }
  }

  /** A chunk is accepted exactly when it was recorded before, or its session is open, unexpired, not too small for it,
      and has nothing at its place. An accepted new chunk is appended; a refused one leaves every session as it was. */
  lemma UploadChunkAnswers(c: Config, s: State, repo: string, id: string, token: string, r: ByteRange, data: Bytes,
                           now: int)
    requires id in s.uploads ==> s.uploads[id].id == id
    ensures
      var (t, o) := ChunkUploaded(c, s, repo, id, token, r, data, now);
      var k := Chunk(r, c.hash(data));
      && (o.Success? <==>
            Known(s, repo, id, token) && WellSized(c, r, data)
            && (WasRecorded(s, id, k) || (0 <= r.start && Taking(s.uploads[id], r, now))))
      && (o.Failure? ==> o.error == ChunkError(c, s, repo, id, token, r, data, now) && t == s.(files := t.files))
      && (o.Success? ==> id in t.uploads && o.value == t.uploads[id])
      && (o.Success? ==> if WasRecorded(s, id, k) then t == s else ChunkAppended(s, t, id, k))
  {
    if Known(s, repo, id, token) && WellSized(c, r, data) && Chunk(r, c.hash(data)) !in s.uploads[id].chunks {
      var u := s.uploads[id];
      RecordAnswers(u, r, c.hash(data), now);
      var (v, o) := Recorded(u, r, c.hash(data), now);
      var w := s.(files := WrittenAt(s.files, TempKey(id), r.start, data));
      if o.Pass? { assert UpdatedUpload(w, v, u.version) == (w.(uploads := s.uploads[id := v]), Pass); }
    }
  }

  ghost predicate ChunkAppended(s: State, t: State, id: string, k: Chunk) {
    id in s.uploads &&
    var u := s.uploads[id];
    t == s.(files := t.files,
            uploads := s.uploads[id := u.(chunks := u.chunks + [k], version := u.version + 1,
                                          reservedBytes := u.reservedBytes + (k.range.end - k.range.start + 1))])
  }

  /** The bytes of a call that writes are in the temp object at their offsets; a hole in front of them reads as
      zeros, and all other bytes and objects are as before. */
  lemma ChunkBytesAreWritten(c: Config, s: State, repo: string, id: string, token: string, r: ByteRange, data: Bytes,
                             now: int)
    requires id in s.uploads ==> s.uploads[id].id == id
    requires 0 <= r.start <= r.end && Known(s, repo, id, token) && WellSized(c, r, data)
    requires Chunk(r, c.hash(data)) !in s.uploads[id].chunks
    ensures
      var t, before := ChunkUploaded(c, s, repo, id, token, r, data, now).0, FileAt(s.files, TempKey(id));
      && TempKey(id) in t.files && t.files - {TempKey(id)} == s.files - {TempKey(id)}
      && |t.files[TempKey(id)]| == Max(|before|, r.end + 1)
      && forall o :: 0 <= o < |t.files[TempKey(id)]| ==>
           t.files[TempKey(id)][o] ==
             if r.start <= o <= r.end then data[o - r.start] else if o < |before| then before[o] else 0
  {
    ChunkEffect(c, s, repo, id, token, r, data, now);
    assert Writes(c, s, repo, id, token, r, data);
    var file := Spliced(FileAt(s.files, TempKey(id)), r.start, data);
    assert ChunkUploaded(c, s, repo, id, token, r, data, now).0.files == s.files[TempKey(id) := file];
  }

  // ---------------------------------------------------------------- the states of a session

  /** Only an open session is finalized; a completed one is not aborted any more; each change raises the version. */
  lemma SessionStates(u: SessionValue)
    ensures Finalized(u).1 == (if u.state == Open then Pass else Fail(UploadConflict))
    ensures Finalized(u).0 ==
        if u.state == Open then u.(state := Finalizing, version := u.version + 1) else u
    ensures CompletedSession(u) == u.(state := Completed, version := u.version + 1)
    ensures AbortedSession(u) ==
        if u.state == Completed then u else u.(state := Aborted, version := u.version + 1)
  {
  }

  // ---------------------------------------------------------------- completing

  ghost predicate Holds(u: SessionValue, o: int) {
    exists k :: k in u.chunks && k.range.start <= o <= k.range.end
  }

  /** Every byte of the temp object was recorded by some chunk. */
  ghost predicate Whole(u: SessionValue, size: int) {
    forall o :: 0 <= o < size ==> Holds(u, o)
  }

  /** The session may be completed with the temp object as it is. */
  ghost predicate Finishable(s: State, id: string, now: int)
    requires id in s.uploads
  {
    var u := s.uploads[id];
    && TempKey(id) in s.files && u.state == Open && now <= u.expiresAt
    && (u.expectedSize.Some? ==> u.expectedSize.value == |s.files[TempKey(id)]|)
    && Whole(u, |s.files[TempKey(id)]|)
  }

  ghost function FinishError(s: State, id: string, now: int): Error
    requires id in s.uploads
  {
    var u := s.uploads[id];
    if TempKey(id) !in s.files then NoSuchObject
    else if u.state != Open then UploadConflict
    else if u.expiresAt < now then UploadExpired
    else if u.expectedSize.Some? && u.expectedSize.value != |s.files[TempKey(id)]| then Validation("size")
    else UploadOutOfOrder
  }

  lemma WholeIsCovered(u: SessionValue, o: int)
    ensures Covered(RangesOf(u.chunks), o) <==> Holds(u, o)
  {
    if k :| k in u.chunks && k.range.start <= o <= k.range.end {
      var i :| 0 <= i < |u.chunks| && u.chunks[i] == k;
      assert RangesOf(u.chunks)[i].Has(o);
    }
    if Covered(RangesOf(u.chunks), o) {
      var i :| 0 <= i < |RangesOf(u.chunks)| && RangesOf(u.chunks)[i].Has(o);
      assert u.chunks[i] in u.chunks;
    }
  }

  lemma WholeIsTiled(u: SessionValue, size: int)
    requires SessionOk(u) && FitsIn(u, size)
    ensures Tiles(RangesOf(u.chunks), size) <==> Whole(u, size)
  {
    var rs := RangesOf(u.chunks);
    forall o ensures Covered(rs, o) <==> Holds(u, o) {
      WholeIsCovered(u, o);
    }
    forall o | Covered(rs, o) ensures 0 <= o < size {
      var i :| 0 <= i < |rs| && rs[i].Has(o);
      assert rs[i].Valid() && u.chunks[i].range.end < size;
    }
  }

  /** The finalize guard, and why it refuses. */
  lemma GuardAnswers(c: Config, s: State, id: string, now: int)
    requires Kept(c, s) && id in s.uploads
    ensures PassesGuard(s, id, now) <==> Finishable(s, id, now)
    ensures TempKey(id) in s.files && !Finishable(s, id, now) ==>
        CanFinalize(s.uploads[id], |s.files[TempKey(id)]|, now) == Fail(FinishError(s, id, now))
  {
    assert SessionKept(s, id);
    if TempKey(id) in s.files && s.uploads[id].state == Open {
      CanFinalizeIffTiled(s.uploads[id], |s.files[TempKey(id)]|, now);
      WholeIsTiled(s.uploads[id], |s.files[TempKey(id)]|);
    }
  }

  /** The session ends in this state, two versions on, and its announced bytes are given back, `used` of them
      used up. */
  function Ended(s: State, id: string, state: UploadState, used: int): State
    requires id in s.uploads
  {
    var u := s.uploads[id];
    s.(uploads := s.uploads[id := u.(state := state, version := u.version + 2)],
       quotas := Settled(s, u.tenant, u.expectedSize, used))
  }

  /** The object moves to its blob's key and is catalogued, unless the digest is catalogued already. */
  function WithBlob(s: State, id: string, d: Digest, file: Bytes): State {
    s.(blobs := if d in s.blobs then s.blobs else s.blobs[d := Blob(d, |file|, 0, BlobKey(d))],
       files := if d in s.blobs then s.files else (s.files - {TempKey(id)})[BlobKey(d) := file])
  }

  /** A completion that the guard stops says why and changes nothing. */
  lemma StoppedCompletionAnswers(c: Config, s: State, repo: string, id: string, token: string, d: Digest, now: int)
    requires Kept(c, s) && (Known(s, repo, id, token) ==> !Finishable(s, id, now))
    ensures UploadCompleted(c, s, repo, id, token, d, now) ==
      (s, Failure(if Known(s, repo, id, token) then FinishError(s, id, now) else UploadNotFound))
  {
    if Known(s, repo, id, token) {
      assert SessionKept(s, id);
      GuardAnswers(c, s, id, now);
    }
  }

  /** One that passes finalizes the session, and goes on with the content. */
  lemma PassedCompletion(c: Config, s: State, repo: string, id: string, token: string, d: Digest, now: int)
    requires Kept(c, s) && Known(s, repo, id, token) && Finishable(s, id, now)
    ensures
      var v := s.uploads[id].(state := Finalizing, version := s.uploads[id].version + 1);
      UploadCompleted(c, s, repo, id, token, d, now) ==
        UploadFinished(c, WithSession(s, id, v), v, s.files[TempKey(id)], d)
  {
    assert SessionKept(s, id);
    GuardAnswers(c, s, id, now);
    var v := Finalized(s.uploads[id]).0;
    assert UpdatedUpload(s, v, s.uploads[id].version) == (WithSession(s, id, v), Pass);
  }

  /** Closing a finalizing session raises its version once more. */
  lemma Closed(s: State, t: State, id: string, v: SessionValue, state: UploadState, used: int)
    requires id in s.uploads && v == s.uploads[id].(state := Finalizing, version := s.uploads[id].version + 1)
    requires t.uploads == s.uploads[id := v] && t.quotas == s.quotas
    ensures
      var x := v.(state := state, version := v.version + 1);
      t.(uploads := t.uploads[id := x], quotas := Settled(t, x.tenant, x.expectedSize, used)) ==
        Ended(t.(uploads := s.uploads), id, state, used)
  {
    var x := v.(state := state, version := v.version + 1);
    assert s.uploads[id := v][id := x] == s.uploads[id := x];
  }

  lemma RejectedAnswers(c: Config, t: State, id: string, v: SessionValue, data: Bytes, d: Digest)
    requires id in t.uploads && t.uploads[id] == v && v.id == id && v.state == Finalizing && c.hash(data) != d
    ensures
      var x := v.(state := Aborted, version := v.version + 1);
      UploadFinished(c, t, v, data, d) ==
        (t.(uploads := t.uploads[id := x], quotas := Settled(t, x.tenant, x.expectedSize, 0)), Failure(DigestMismatch))
  {
    var x := AbortedSession(v);
    assert UpdatedUpload(t, x, v.version) == (WithSession(t, id, x), Pass);
    ReleaseAnswers(WithSession(t, id, x), x);
  }

  /** Other content than the expected ends the upload as aborted. */
  lemma MismatchedCompletionAnswers(c: Config, s: State, repo: string, id: string, token: string, d: Digest, now: int)
    requires Kept(c, s) && Known(s, repo, id, token) && Finishable(s, id, now)
    requires c.hash(s.files[TempKey(id)]) != d
    ensures UploadCompleted(c, s, repo, id, token, d, now) == (Ended(s, id, Aborted, 0), Failure(DigestMismatch))
  {
    var v := s.uploads[id].(state := Finalizing, version := s.uploads[id].version + 1);
    assert SessionKept(s, id);
    PassedCompletion(c, s, repo, id, token, d, now);
    RejectedAnswers(c, WithSession(s, id, v), id, v, s.files[TempKey(id)], d);
    Closed(s, WithSession(s, id, v), id, v, Aborted, 0);
  }

  /** The digest is catalogued with another size: the object is too short to read, or the sizes clash. */
  function SizeError(s: State, d: Digest, size: int): Error
    requires d in s.blobs
  {
    if s.blobs[d].size < size then InvalidRange else Conflict("blob")
  }

  lemma CompletedAnswers(w: State, id: string, v: SessionValue, size: nat)
    requires id in w.uploads && w.uploads[id] == v && v.id == id && v.state == Finalizing
    ensures
      var x := v.(state := Completed, version := v.version + 1);
      var y := CompletedSession(v);
      CommitReservation(UpdatedUpload(w, y, y.version - 1).0, y, size) ==
        w.(uploads := w.uploads[id := x], quotas := Settled(w, x.tenant, x.expectedSize, size))
  {
    var x := CompletedSession(v);
    assert UpdatedUpload(w, x, v.version) == (WithSession(w, id, x), Pass);
    CommitAnswers(WithSession(w, id, x), x, size);
  }

  lemma AcceptedAnswers(c: Config, t: State, id: string, v: SessionValue, data: Bytes, d: Digest)
    requires ContentKept(c.hash, t) && id in t.uploads && t.uploads[id] == v && v.id == id && v.state == Finalizing
    requires c.hash(data) == d && TempKey(id) in t.files && t.files[TempKey(id)] == data
    ensures
      var w, x := WithBlob(t, id, d, data), v.(state := Completed, version := v.version + 1);
      UploadFinished(c, t, v, data, d) ==
        if d in t.blobs && t.blobs[d].size != |data| then (t, Failure(SizeError(t, d, |data|)))
        else (w.(uploads := w.uploads[id := x], quotas := Settled(w, x.tenant, x.expectedSize, |data|)),
              Success(Blob(d, |data|, 0, BlobKey(d))))
  {
    StoredBlobAnswers(c.hash, t, v, d, data);
    if d in t.blobs && t.blobs[d].size != |data| {
      assert WithBlob(t, id, d, data) == t;
    } else {
      CompletedAnswers(WithBlob(t, id, d, data), id, v, |data|);
    }
  }

  /** The expected content is catalogued, and the upload completed, unless its digest is catalogued with
      another size. */
  lemma MatchedCompletionAnswers(c: Config, s: State, repo: string, id: string, token: string, d: Digest, now: int)
    requires Kept(c, s) && Known(s, repo, id, token) && Finishable(s, id, now)
    requires c.hash(s.files[TempKey(id)]) == d
    ensures
      var u, file := s.uploads[id], s.files[TempKey(id)];
      UploadCompleted(c, s, repo, id, token, d, now) ==
        if d in s.blobs && s.blobs[d].size != |file| then
          (WithSession(s, id, u.(state := Finalizing, version := u.version + 1)), Failure(SizeError(s, d, |file|)))
        else
          (Ended(WithBlob(s, id, d, file), id, Completed, |file|), Success(Blob(d, |file|, 0, BlobKey(d))))
  {
    var file, v := s.files[TempKey(id)], s.uploads[id].(state := Finalizing, version := s.uploads[id].version + 1);
    var w := WithSession(s, id, v);
    assert SessionKept(s, id);
    PassedCompletion(c, s, repo, id, token, d, now);
    FinalizingContent(c.hash, s, id, v);
    AcceptedAnswers(c, w, id, v, file, d);
    ClosedWithBlob(s, id, v, d, file);
  }

  lemma ClosedWithBlob(s: State, id: string, v: SessionValue, d: Digest, file: Bytes)
    requires id in s.uploads && v == s.uploads[id].(state := Finalizing, version := s.uploads[id].version + 1)
    ensures
      var w, x := WithBlob(WithSession(s, id, v), id, d, file), v.(state := Completed, version := v.version + 1);
      w.(uploads := w.uploads[id := x], quotas := Settled(w, x.tenant, x.expectedSize, |file|)) ==
        Ended(WithBlob(s, id, d, file), id, Completed, |file|)
  {
    var w := WithBlob(WithSession(s, id, v), id, d, file);
    BlobBesideSession(s, id, v, d, file);
    Closed(s, w, id, v, Completed, |file|);
  }

  lemma BlobBesideSession(s: State, id: string, v: SessionValue, d: Digest, file: Bytes)
    ensures
      var w := WithBlob(WithSession(s, id, v), id, d, file);
      && w.(uploads := s.uploads) == WithBlob(s, id, d, file)
      && w.uploads == s.uploads[id := v] && w.quotas == s.quotas
  {
  }

  lemma StoredBlobAnswers(hash: Hash, s: State, u: SessionValue, d: Digest, file: Bytes)
    requires ContentKept(hash, s) && TempKey(u.id) in s.files && s.files[TempKey(u.id)] == file && hash(file) == d
    ensures BlobStored(s, u, Blob(d, |file|, 0, BlobKey(d))) ==
      (WithBlob(s, u.id, d, file),
       if d in s.blobs && s.blobs[d].size != |file| then Fail(SizeError(s, d, |file|)) else Pass)
  {
    StoredEffect(hash, s, u, d, file);
    if d in s.blobs { assert BlobHolds(hash, s, d); }
  }

  // ---------------------------------------------------------------- aborting

  /** An upload is aborted exactly by its repository and token, in whatever state it is: it goes with its temp
      object, and its announced bytes are given back. */
  lemma AbortUploadAnswers(s: State, repo: string, id: string, token: string)
    requires id in s.uploads ==> s.uploads[id].id == id
    ensures
      var (t, o) := UploadAborted(s, repo, id, token);
      && (o.Pass? <==> Known(s, repo, id, token))
      && (o.Fail? ==> t == s && o.error == UploadNotFound)
      && (o.Pass? ==>
            t == s.(uploads := s.uploads - {id}, files := s.files - {TempKey(id)},
                    quotas := Settled(s, s.uploads[id].tenant, s.uploads[id].expectedSize, 0)))
  {
    if Known(s, repo, id, token) { ReleaseAnswers(s, AbortedSession(s.uploads[id])); }
  }

  /** The janitor removes a session exactly when it is past its time, with its temp object, and nothing else. */
  lemma CleanUpAnswers(s: State, now: int)
    ensures
      var t := Cleaned(s, now);
      && t == s.(uploads := t.uploads, files := t.files)
      && (forall id :: id in t.uploads <==> id in s.uploads && now <= s.uploads[id].expiresAt)
      && (forall id :: id in t.uploads ==> t.uploads[id] == s.uploads[id])
      && (forall k :: k in t.files <==>
            k in s.files && forall id :: id in s.uploads && s.uploads[id].expiresAt < now ==> k != TempKey(id))
      && (forall k :: k in t.files ==> t.files[k] == s.files[k])
  {
  }

  // ---------------------------------------------------------------- reading

  /** A read succeeds exactly when the repository and the blob are stored and the range, if any, lies in it; it returns
      the bytes of the range. An empty blob reads as empty whatever the range. */
  lemma GetBlobAnswers(c: Config, s: State, repo: string, d: Digest, r: Option<ByteRange>)
    requires Kept(c, s)
    ensures
      var o := BlobRead(s, repo, d, r);
      var stored := repo in s.repos && d in s.blobs;
      && (stored ==> BlobKey(d) in s.files && |s.files[BlobKey(d)]| == s.blobs[d].size)
      && (o.Success? <==>
            stored && (s.blobs[d].size == 0 || r.None? || 0 <= r.value.start <= r.value.end < s.blobs[d].size))
      && (o.Success? ==>
            o.value == if s.blobs[d].size == 0 || r.None? then s.files[BlobKey(d)]
                       else s.files[BlobKey(d)][r.value.start..r.value.end + 1])
      && (o.Failure? ==>
            o.error == if repo !in s.repos then ManifestNotFound
                       else if d !in s.blobs then BlobNotFound else InvalidRange)
  {
    if repo in s.repos && d in s.blobs {
      assert BlobHolds(c.hash, s, d);
      ReadsOfBlob(c.hash, s, repo, d, s.files[BlobKey(d)]);
    }
  }
}
