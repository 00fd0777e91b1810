/** What each upload call does to the state, by outcome. */
module Effects {
  import opened Basics
  import opened Ranges
  import opened Artifacts
  import opened Upload
  import opened Objects
  import opened Policy
  import opened Store
  import opened Registry

  lemma ReserveEffect(s: State, tenant: string, n: int)
    ensures
      var fits := tenant in s.quotas && Reserved(s.quotas[tenant], n).Success?;
      && Reserve(s, tenant, n).0 == (if fits then PutQuota(s, tenant, Reserved(s.quotas[tenant], n).value) else s)
      && (Reserve(s, tenant, n).1.Pass? <==> fits)
  {
    if tenant in s.quotas {
      match Reserved(s.quotas[tenant], n)
      case Failure(_) =>
      case Success(q) => assert UpdatedQuota(s, tenant, q, s.quotas[tenant].version) == (PutQuota(s, tenant, q), Pass);
    }
  }

  lemma ReleaseEffect(s: State, tenant: string, n: int)
    ensures Release(s, tenant, n) ==
      if tenant in s.quotas && Released(s.quotas[tenant], n).Success?
      then PutQuota(s, tenant, Released(s.quotas[tenant], n).value)
      else s
  {
    if tenant in s.quotas && Released(s.quotas[tenant], n).Success? {
      var q := Released(s.quotas[tenant], n).value;
      assert UpdatedQuota(s, tenant, q, s.quotas[tenant].version) == (PutQuota(s, tenant, q), Pass);
    }
  }

  lemma CommitEffect(s: State, u: SessionValue, actual: int)
    ensures CommitReservation(s, u, actual) ==
      if u.expectedSize.Some? && u.tenant in s.quotas &&
        Committed(s.quotas[u.tenant], u.expectedSize.value, actual).Success?
      then PutQuota(s, u.tenant, Committed(s.quotas[u.tenant], u.expectedSize.value, actual).value)
      else s
  {
    if u.expectedSize.Some? && u.tenant in s.quotas {
      match Committed(s.quotas[u.tenant], u.expectedSize.value, actual)
      case Failure(_) =>
      case Success(q) => assert UpdatedQuota(s, u.tenant, q, s.quotas[u.tenant].version) ==
        (PutQuota(s, u.tenant, q), Pass);
    }
  }

  lemma ReserveKeeps(s: State, tenant: string, n: int)
    ensures Reserve(s, tenant, n).0 == s.(quotas := Reserve(s, tenant, n).0.quotas)
  {
    ReserveEffect(s, tenant, n);
  }

  lemma ReleaseKeeps(s: State, tenant: string, n: int)
    ensures Release(s, tenant, n) == s.(quotas := Release(s, tenant, n).quotas)
  {
    ReleaseEffect(s, tenant, n);
  }

  /** The state once the new session is made. */
  function Started(s: State, u: SessionValue): State {
    if u.expectedSize.None? then (if u.id in s.uploads then s else WithSession(s, u.id, u))
    else
      var (r, o) := Reserve(s, u.tenant, u.expectedSize.value);
      if o.Fail? then r
      else if u.id in s.uploads then Release(r, u.tenant, u.expectedSize.value)
      else WithSession(r, u.id, u)
  }

  /** Sizes that are refused before a session is made. */
  predicate RefusedSize(c: Config, expected: Option<int>) {
    expected.Some? && (expected.value > c.maxBlobSize || expected.value < 0)
  }

  lemma StartCases(c: Config, s: State, repo: string, expected: Option<int>, id: string, token: string, now: int)
    ensures
      var t := UploadStarted(c, s, repo, expected, id, token, now).0;
      if repo !in s.repos || RefusedSize(c, expected) then t == s
      else
        var made := NewUploadSession(id, token, repo, s.repos[repo].tenant, expected, c.uploadTTL, now);
        made.Success? && t == Started(s, made.value)
  {
    if repo in s.repos && !RefusedSize(c, expected) {
      var u := NewUploadSession(id, token, repo, s.repos[repo].tenant, expected, c.uploadTTL, now).value;
      if expected.Some? {
        var (r, o) := Reserve(s, u.tenant, expected.value);
        ReserveKeeps(s, u.tenant, expected.value);
        assert o.Pass? ==> CreatedUpload(r, u).0 == if id in s.uploads then r else WithSession(r, id, u);
      }
    }
  }

  /** Nothing but this session and a quota change. */
  lemma StartedFrame(s: State, u: SessionValue)
    ensures
      var t := Started(s, u);
      && t == s.(uploads := t.uploads, quotas := t.quotas)
      && (t.uploads == s.uploads || (u.id !in s.uploads && t.uploads == s.uploads[u.id := u]))
  {
    if u.expectedSize.Some? {
      var n := u.expectedSize.value;
      ReserveEffect(s, u.tenant, n);
      var (r, o) := Reserve(s, u.tenant, n);
      if o.Pass? && u.id in s.uploads {
        ReleaseEffect(r, u.tenant, n);
      } else if o.Pass? {
        assert Started(s, u) == WithSession(r, u.id, u);
      }
    }
  }

  /** Starting an upload stores at most one new session, and touches nothing but that and a quota. */
  lemma StartEffect(c: Config, s: State, repo: string, expected: Option<int>, id: string, token: string, now: int)
    ensures
      var t := UploadStarted(c, s, repo, expected, id, token, now).0;
      && t == s.(uploads := t.uploads, quotas := t.quotas)
      && (t.uploads == s.uploads
          || (id !in s.uploads && repo in s.repos && id in t.uploads
              && t.uploads == s.uploads[id := t.uploads[id]]
              && NewUploadSession(id, token, repo, s.repos[repo].tenant, expected, c.uploadTTL, now) ==
                Success(t.uploads[id])))
  {
    StartCases(c, s, repo, expected, id, token, now);
    if repo in s.repos && !RefusedSize(c, expected) {
      StartedFrame(s, NewUploadSession(id, token, repo, s.repos[repo].tenant, expected, c.uploadTTL, now).value);
    }
  }

  /** A success stores the session under an id that was free. */
  lemma StartSuccess(c: Config, s: State, repo: string, expected: Option<int>, id: string, token: string, now: int)
    requires UploadStarted(c, s, repo, expected, id, token, now).1.Success?
    ensures id !in s.uploads && id in UploadStarted(c, s, repo, expected, id, token, now).0.uploads
  {
  }

  /** The call gets as far as writing its bytes. */
  predicate Writes(c: Config, s: State, repo: string, id: string, token: string, r: ByteRange, data: Bytes) {
    && Addresses(s, repo, id, token)
    && |data| == r.Length() <= c.maxBlobSize
    && !HasExactChunk(s.uploads[id], r, c.hash(data))
  }

  /** The state after a call that writes; the session may still refuse the chunk. */
  function Written(c: Config, s: State, id: string, r: ByteRange, data: Bytes, now: int): State
    requires id in s.uploads
  {
    var (v, o) := Recorded(s.uploads[id], r, c.hash(data), now);
    s.(files := WrittenAt(s.files, TempKey(id), r.start, data),
      uploads := if o.Pass? then s.uploads[id := v] else s.uploads)
  }

  /** A call that writes nothing changes nothing. */
  lemma ChunkEffect(c: Config, s: State, repo: string, id: string, token: string, r: ByteRange, data: Bytes, now: int)
    requires r.Valid() && (id in s.uploads ==> s.uploads[id].id == id)
    ensures ChunkUploaded(c, s, repo, id, token, r, data, now).0 ==
      if Writes(c, s, repo, id, token, r, data) then Written(c, s, id, r, data, now) else s
  {
    if Writes(c, s, repo, id, token, r, data) {
      var u := s.uploads[id];
      var (v, o) := Recorded(u, r, c.hash(data), now);
      var t := s.(files := WrittenAt(s.files, TempKey(id), r.start, data));
      assert v.id == id;
      if o.Pass? { assert UpdatedUpload(t, v, u.version) == (t.(uploads := s.uploads[id := v]), Pass); }
    }
  }

  /** The session passed the finalize guard, on what its temp file holds. */
  predicate PassesGuard(s: State, id: string, now: int) {
    && id in s.uploads && TempKey(id) in s.files
    && CanFinalize(s.uploads[id], |s.files[TempKey(id)]|, now).Pass?
  }

  /** The session with a new value. */
  function WithSession(s: State, id: string, v: SessionValue): State {
    s.(uploads := s.uploads[id := v])
  }

  lemma PutBlobKeeps(s: State, b: Blob, data: Bytes)
    ensures PutBlob(s, b, data).0 == s.(files := PutBlob(s, b, data).0.files, blobs := PutBlob(s, b, data).0.blobs)
  {
  }

  lemma BlobStoredKeeps(s: State, u: SessionValue, b: Blob)
    ensures BlobStored(s, u, b).0 == s.(files := BlobStored(s, u, b).0.files, blobs := BlobStored(s, u, b).0.blobs)
  {
    var t := if b.storageKey in s.files || TempKey(u.id) !in s.files then s
             else s.(files := Moved(s.files, TempKey(u.id), b.storageKey).value);
    if b.size == 0 {
      PutBlobKeeps(t, b, []);
    } else {
      match Opened(t.files, b.storageKey, ByteRange(0, b.size - 1))
      case Failure(_) =>
      case Success(data) => PutBlobKeeps(t, b, data);
    }
  }

  /** What CompleteUpload makes of the state with the finalizing session. */
  function AfterGuard(c: Config, s: State, id: string, d: Digest): State
    requires id in s.uploads && TempKey(id) in s.files
  {
    var data, v := s.files[TempKey(id)], s.uploads[id];
    if c.hash(data) != d then ReleaseReservation(WithSession(s, id, AbortedSession(v)), AbortedSession(v))
    else
      var (w, o) := BlobStored(s, v, Blob(d, |data|, 0, BlobKey(d)));
      if o.Fail? then w
      else CommitReservation(WithSession(w, id, CompletedSession(v)), CompletedSession(v), |data|)
  }

  lemma CommitKeeps(s: State, u: SessionValue, actual: int)
    ensures CommitReservation(s, u, actual) == s.(quotas := CommitReservation(s, u, actual).quotas)
  {
    CommitEffect(s, u, actual);
  }

  /** Where the objects and blobs of the state come from. */
  function ObjectsAfter(c: Config, s: State, id: string, d: Digest): State
    requires id in s.uploads && TempKey(id) in s.files
  {
    var data := s.files[TempKey(id)];
    if c.hash(data) != d then s else BlobStored(s, s.uploads[id], Blob(d, |data|, 0, BlobKey(d))).0
  }

  /** The session is closed, and its reservation given back. */
  lemma RejectedShape(s: State, id: string, u: SessionValue)
    ensures
      var t := ReleaseReservation(WithSession(s, id, u), u);
      t == s.(uploads := s.uploads[id := u], quotas := t.quotas)
  {
    if u.expectedSize.Some? { ReleaseKeeps(WithSession(s, id, u), u.tenant, u.expectedSize.value); }
  }

  /** The blob is stored, and the session closed if that went well. */
  lemma AcceptedShape(c: Config, s: State, id: string, d: Digest)
    requires id in s.uploads && TempKey(id) in s.files && c.hash(s.files[TempKey(id)]) == d
    ensures
      var t, w, v := AfterGuard(c, s, id, d), ObjectsAfter(c, s, id, d), s.uploads[id];
      && id in t.uploads
      && t == s.(files := w.files, blobs := w.blobs, uploads := s.uploads[id := t.uploads[id]], quotas := t.quotas)
      && (t.uploads[id] == v || t.uploads[id] == CompletedSession(v))
  {
    var data, v := s.files[TempKey(id)], s.uploads[id];
    var b := Blob(d, |data|, 0, BlobKey(d));
    var (w, o) := BlobStored(s, v, b);
    BlobStoredKeeps(s, v, b);
    if o.Fail? {
      assert s.uploads[id := v] == s.uploads;
    } else {
      CommitKeeps(WithSession(w, id, CompletedSession(v)), CompletedSession(v), |data|);
    }
  }

  /** Besides objects and blobs, only this session and a quota change. */
  lemma AfterGuardShape(c: Config, s: State, id: string, d: Digest)
    requires id in s.uploads && TempKey(id) in s.files
    ensures
      var t, w, v := AfterGuard(c, s, id, d), ObjectsAfter(c, s, id, d), s.uploads[id];
      && id in t.uploads
      && t == s.(files := w.files, blobs := w.blobs, uploads := s.uploads[id := t.uploads[id]], quotas := t.quotas)
      && (t.uploads[id] == v ||
        t.uploads[id] == if c.hash(s.files[TempKey(id)]) == d then CompletedSession(v) else AbortedSession(v))
  {
    if c.hash(s.files[TempKey(id)]) != d {
      RejectedShape(s, id, AbortedSession(s.uploads[id]));
    } else {
      AcceptedShape(c, s, id, d);
    }
  }

  lemma FinishEffect(c: Config, s: State, v: SessionValue, id: string, d: Digest)
    requires id in s.uploads && s.uploads[id] == v && v.id == id && v.state == Finalizing && TempKey(id) in s.files
    ensures UploadFinished(c, s, v, s.files[TempKey(id)], d).0 == AfterGuard(c, s, id, d)
  {
    var data := s.files[TempKey(id)];
    if c.hash(data) != d {
      assert UpdatedUpload(s, AbortedSession(v), v.version).0 == WithSession(s, id, AbortedSession(v));
    } else {
      var b := Blob(d, |data|, 0, BlobKey(d));
      BlobStoredKeeps(s, v, b);
      var (w, o) := BlobStored(s, v, b);
      assert UpdatedUpload(w, CompletedSession(v), v.version).0 == WithSession(w, id, CompletedSession(v));
    }
  }

  /** The state after a CompleteUpload that passed the guard. */
  function Completion(c: Config, s: State, id: string, d: Digest): State
    requires id in s.uploads && TempKey(id) in s.files
  {
    AfterGuard(c, WithSession(s, id, Finalized(s.uploads[id]).0), id, d)
  }

  /** A call that does not pass the guard changes nothing. */
  lemma CompleteEffect(c: Config, s: State, repo: string, id: string, token: string, d: Digest, now: int)
    requires id in s.uploads ==> s.uploads[id].id == id
    ensures UploadCompleted(c, s, repo, id, token, d, now).0 ==
      if Addresses(s, repo, id, token) && PassesGuard(s, id, now) then Completion(c, s, id, d) else s
  {
    if Addresses(s, repo, id, token) && TempKey(id) in s.files {
      var u, data := s.uploads[id], s.files[TempKey(id)];
      match CanFinalize(u, |data|, now)
      case Fail(_) =>
      case Pass =>
        var v := Finalized(u).0;
        assert UpdatedUpload(s, v, u.version) == (WithSession(s, id, v), Pass);
        FinishEffect(c, WithSession(s, id, v), v, id, d);
    }
  }

  lemma ReservationFrame(s: State, id: string)
    ensures id in s.uploads ==>
      var t := ReleaseReservation(s, AbortedSession(s.uploads[id]));
      t == s.(quotas := t.quotas)
  {
    if id in s.uploads && s.uploads[id].expectedSize.Some? {
      ReleaseKeeps(s, s.uploads[id].tenant, s.uploads[id].expectedSize.value);
    }
  }

  lemma AbortEffect(s: State, repo: string, id: string, token: string)
    requires id in s.uploads ==> s.uploads[id].id == id
    ensures
      var t := UploadAborted(s, repo, id, token).0;
      t == if !Addresses(s, repo, id, token) then s
           else ReleaseReservation(s, AbortedSession(s.uploads[id])).(uploads := s.uploads - {id},
             files := s.files - {TempKey(id)})
  {
  }
}
