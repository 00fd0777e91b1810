/** The registry service: repositories, resumable uploads, manifests and tags. */
module Registry {
  import opened Basics
  import opened Text
  import opened Ranges
  import opened Artifacts
  import opened Upload
  import opened Policy
  import opened Objects
  import opened Store
  import C = Catalog

  datatype Config = Config(hash: Hash, maxBlobSize: int, defaultQuota: int, uploadTTL: int)

  /** A manifest reference that parses as a digest, or any other text. */
  datatype Reference = ByDigest(digest: Digest) | ByTag(name: string)

  const MAX_MANIFEST_SIZE := 0x100_0000

  function BlobKey(d: Digest): string {
    "blobs/sha256/" + d.hex[..2] + "/" + d.hex
  }

  lemma BlobKeyInjective(a: Digest, b: Digest)
    requires BlobKey(a) == BlobKey(b)
    ensures a == b
  {
    var key := BlobKey(a);
    var n := |"blobs/sha256/"| + 3;
    assert key[n..] == a.hex;
    assert BlobKey(b)[n..] == b.hex;
  }

  lemma KeysDisjoint(id: string, d: Digest)
    ensures TempKey(id) != BlobKey(d)
  {
    assert TempKey(id)[0] == 'u' && BlobKey(d)[0] == 'b';
  }

  lemma TempKeyInjective(a: string, b: string)
    requires TempKey(a) == TempKey(b)
    ensures a == b
  {
    assert TempKey(a)[|"uploads/"|..] == a;
    assert TempKey(b)[|"uploads/"|..] == b;
  }

  // ---------------------------------------------------------------- quota bookkeeping

  function Reserve(s: State, tenant: string, n: int): (State, Outcome) {
    if tenant !in s.quotas then (s, Fail(ManifestNotFound))
    else
      match Reserved(s.quotas[tenant], n)
      case Failure(e) => (s, Fail(e))
      case Success(q) => UpdatedQuota(s, tenant, q, s.quotas[tenant].version)
  }

  /** Errors of a release are dropped. */
  function Release(s: State, tenant: string, n: int): State {
    if tenant !in s.quotas || Released(s.quotas[tenant], n).Failure? then s
    else UpdatedQuota(s, tenant, Released(s.quotas[tenant], n).value, s.quotas[tenant].version).0
  }

  function ReleaseReservation(s: State, u: SessionValue): State {
    if u.expectedSize.Some? then Release(s, u.tenant, u.expectedSize.value) else s
  }

  /** Errors of a commit are dropped. */
  function CommitReservation(s: State, u: SessionValue, actual: int): State {
    if u.expectedSize.None? || u.tenant !in s.quotas then s
    else
      match Committed(s.quotas[u.tenant], u.expectedSize.value, actual)
      case Failure(_) => s
      case Success(q) => UpdatedQuota(s, u.tenant, q, s.quotas[u.tenant].version).0
  }

  // ---------------------------------------------------------------- the calls as functions of the state

  function RepositoryCreated(c: Config, s: State, name: string, tenant: string, immutable: bool, quota: int)
    : (State, Outcome)
  {
    if TrimSpace(tenant) == "" then (s, Fail(Validation("tenant")))
    else
      var (t, o) := CreatedRepo(s, name, Repository(tenant, immutable, 1));
      if o.Fail? then (t, o)
      else (PutQuota(t, tenant, QuotaValue(if quota <= 0 then c.defaultQuota else quota, 0, 0, 1)), Pass)
  }

  function TagImmutabilitySet(s: State, name: string, value: bool, ifMatch: int): (State, Outcome) {
    if name !in s.repos then (s, Fail(ManifestNotFound))
    else if ifMatch > 0 && s.repos[name].version != ifMatch then (s, Fail(PreconditionFailed))
    else
      var r := s.repos[name];
      UpdatedRepo(s, name, r.(immutableTags := value, version := r.version + 1), r.version)
  }

  function UploadStarted(c: Config, s: State, repo: string, expected: Option<int>, id: string, token: string, now: int)
    : (State, Result<SessionValue>)
  {
    if repo !in s.repos then (s, Failure(ManifestNotFound))
    else if expected.Some? && expected.value > c.maxBlobSize then (s, Failure(Validation("expectedSize")))
    else
      var tenant := s.repos[repo].tenant;
      match NewUploadSession(id, token, repo, tenant, expected, c.uploadTTL, now)
      case Failure(e) => (s, Failure(e))
      case Success(u) =>
        var (t, o) := if expected.Some? then Reserve(s, tenant, expected.value) else (s, Pass);
        if o.Fail? then (t, Failure(o.error))
        else
          var (v, p) := CreatedUpload(t, u);
          if p.Fail? then (if expected.Some? then Release(v, tenant, expected.value) else v, Failure(p.error))
          else (v, Success(u))
  }

  predicate Addresses(s: State, repo: string, id: string, token: string) {
    id in s.uploads && s.uploads[id].repository == repo && s.uploads[id].token == token
  }

  /** The bytes are written before the session may refuse the chunk. */
  function ChunkUploaded(c: Config, s: State, repo: string, id: string, token: string, r: ByteRange, data: Bytes,
                         now: int)
    : (State, Result<SessionValue>)
  {
    if !Addresses(s, repo, id, token) then (s, Failure(UploadNotFound))
    else if r.Length() > c.maxBlobSize then (s, Failure(Validation("chunk")))
    else if |data| != r.Length() then (s, Failure(Validation("Content-Range")))
    else
      var u, digest := s.uploads[id], c.hash(data);
      if HasExactChunk(u, r, digest) then (s, Success(u))
      else
        var t := s.(files := WrittenAt(s.files, TempKey(u.id), r.start, data));
        var (v, o) := Recorded(u, r, digest, now);
        if r.start < 0 then (t, Failure(NegativeOffset))
        else if o.Fail? then (t, Failure(o.error))
        else
          var (w, p) := UpdatedUpload(t, v, u.version);
          if p.Fail? then (w, Failure(p.error)) else (w, Success(v))
  }

  /** The digest did not match: the session is aborted and its reservation released. */
  function UploadRejected(s: State, u: SessionValue): (State, Result<Blob>) {
    var v := AbortedSession(u);
    (ReleaseReservation(UpdatedUpload(s, v, v.version - 1).0, v), Failure(DigestMismatch))
  }

  /** The object moves to its blob key unless one is there, and the blob is catalogued. */
  function BlobStored(s: State, u: SessionValue, b: Blob): (State, Outcome) {
    var t := if b.storageKey in s.files || TempKey(u.id) !in s.files then s
             else s.(files := Moved(s.files, TempKey(u.id), b.storageKey).value);
    if b.size == 0 then PutBlob(t, b, [])
    else
      match Opened(t.files, b.storageKey, ByteRange(0, b.size - 1))
      case Failure(e) => (t, Fail(e))
      case Success(data) => PutBlob(t, b, data)
  }

  /** What CompleteUpload does once the session is finalizing. */
  function UploadFinished(c: Config, s: State, u: SessionValue, data: Bytes, expected: Digest): (State, Result<Blob>) {
    if c.hash(data) != expected then UploadRejected(s, u)
    else
      var b := Blob(expected, |data|, 0, BlobKey(expected));
      var (t, o) := BlobStored(s, u, b);
      if o.Fail? then (t, Failure(o.error))
      else
        var v := CompletedSession(u);
        (CommitReservation(UpdatedUpload(t, v, v.version - 1).0, v, |data|), Success(b))
  }

  function UploadCompleted(c: Config, s: State, repo: string, id: string, token: string, expected: Digest, now: int)
    : (State, Result<Blob>)
  {
    if !Addresses(s, repo, id, token) then (s, Failure(UploadNotFound))
    else
      var u := s.uploads[id];
      if TempKey(u.id) !in s.files then (s, Failure(NoSuchObject))
      else
        var data := s.files[TempKey(u.id)];
        match CanFinalize(u, |data|, now)
        case Fail(e) => (s, Failure(e))
        case Pass =>
          var v := Finalized(u).0;
          var (t, o) := UpdatedUpload(s, v, u.version);
          if o.Fail? then (t, Failure(o.error)) else UploadFinished(c, t, v, data, expected)
  }

  /** The reservation is released whatever state the session is in. */
  function UploadAborted(s: State, repo: string, id: string, token: string): (State, Outcome) {
    if !Addresses(s, repo, id, token) then (s, Fail(UploadNotFound))
    else DeletedUpload(ReleaseReservation(s, AbortedSession(s.uploads[id])), id)
  }

  function TagMoved(s: State, repo: string, name: string, d: Digest): (State, Outcome) {
    var t := if name in TagsOf(s, repo) then MovedTag(TagsOf(s, repo)[name], d)
             else MakeTag(name, d, repo in s.repos && s.repos[repo].immutableTags);
    match t
    case Failure(e) => (s, Fail(e))
    case Success(v) => (PutTag(s, repo, v), Pass)
  }

  /** The parsed manifest is stored before a mismatching digest reference is refused. */
  function ManifestPut(s: State, repo: string, ref: Reference, parsed: Manifest, now: int): (State, Outcome) {
    var m := parsed.(createdAt := now);
    if repo !in s.repos then (s, Fail(ManifestNotFound))
    else if m.size > MAX_MANIFEST_SIZE then (s, Fail(Validation("manifest")))
    else if exists i :: 0 <= i < |m.RefList()| && m.RefList()[i] !in s.blobs then (s, Fail(BlobNotFound))
    else
      var t := PutManifest(s, repo, m).0;
      match ref
      case ByDigest(d) => (t, if d != m.digest then Fail(DigestMismatch) else Pass)
      case ByTag(name) => TagMoved(t, repo, name, m.digest)
  }

  function ManifestDeleted(s: State, repo: string, d: Digest): (State, Outcome) {
    if repo !in s.repos then (s, Fail(ManifestNotFound)) else DeletedManifest(s, repo, d)
  }

  function BlobRead(s: State, repo: string, d: Digest, r: Option<ByteRange>): Result<Bytes> {
    if repo !in s.repos then Failure(ManifestNotFound)
    else if d !in s.blobs then Failure(BlobNotFound)
    else if s.blobs[d].size == 0 then Success([])
    else OpenedBlob(s, d, if r.Some? then r.value else ByteRange(0, s.blobs[d].size - 1))
  }

  // ---------------------------------------------------------------- the service

  class RegistryService {
    const catalog: C.Catalog
    const config: Config

    constructor (catalog: C.Catalog, config: Config)
      ensures this.catalog == catalog && this.config == config
    {
      this.catalog, this.config := catalog, config;
    }

    ghost function State(): State
      reads catalog, catalog.objects
    {
      catalog.Snapshot()
    }

    method CreateRepository(name: string, tenant: string, immutable: bool, quota: int) returns (o: Outcome)
      modifies catalog
      ensures (State(), o) == RepositoryCreated(config, old(State()), name, tenant, immutable, quota)
    {
      if TrimSpace(tenant) == "" { return Fail(Validation("tenant")); }
      o := catalog.Create(name, Repository(tenant, immutable, 1));
      if o.Fail? { return; }
      var limit := quota;
      if limit <= 0 { limit := config.defaultQuota; }
      catalog.PutQuota(tenant, QuotaValue(limit, 0, 0, 1));
      return Pass;
    }

    method SetTagImmutability(name: string, value: bool, ifMatch: int) returns (o: Outcome)
      modifies catalog
      ensures (State(), o) == TagImmutabilitySet(old(State()), name, value, ifMatch)
    {
      var found := catalog.Get(name);
      if found.Failure? { return Fail(found.error); }
      var repo := found.value;
      if ifMatch > 0 && repo.version != ifMatch { return Fail(PreconditionFailed); }
      o := catalog.Update(name, repo.(immutableTags := value, version := repo.version + 1), repo.version);
    }

    method ReserveQuota(tenant: string, n: int) returns (o: Outcome)
      modifies catalog
      ensures (State(), o) == Reserve(old(State()), tenant, n)
    {
      var q := catalog.GetQuota(tenant);
      if q.None? { return Fail(ManifestNotFound); }
      var before := q.value.version;
      o := q.value.Reserve(n);
      if o.Fail? { return; }
      o := catalog.UpdateQuota(q.value, before);
    }

    method ReleaseQuota(tenant: string, n: int)
      modifies catalog
      ensures State() == Release(old(State()), tenant, n)
    {
      var q := catalog.GetQuota(tenant);
      if q.Some? {
        var before := q.value.version;
        var o := q.value.Release(n);
        if o.Pass? { var _ := catalog.UpdateQuota(q.value, before); }
      }
    }

    method ReleaseSession(u: UploadSession)
      modifies catalog
      ensures State() == ReleaseReservation(old(State()), old(u.Value()))
    {
      if u.expectedSize.Some? { ReleaseQuota(u.tenant, u.expectedSize.value); }
    }

    method CommitSession(u: UploadSession, actual: int)
      modifies catalog
      ensures State() == CommitReservation(old(State()), old(u.Value()), actual)
    {
      if u.expectedSize.None? { return; }
      var q := catalog.GetQuota(u.tenant);
      if q.None? { return; }
      var before := q.value.version;
      var o := q.value.Commit(u.expectedSize.value, actual);
      if o.Pass? { var _ := catalog.UpdateQuota(q.value, before); }
    }

    /** `id` and `token` stand for the random tokens. */
    method StartUpload(repo: string, expected: Option<int>, id: string, token: string, now: int)
      returns (r: Result<SessionValue>)
      modifies catalog
      ensures (State(), r) == UploadStarted(config, old(State()), repo, expected, id, token, now)
    {
      var found := catalog.Get(repo);
      if found.Failure? { return Failure(found.error); }
      var tenant := found.value.tenant;
      if expected.Some? && expected.value > config.maxBlobSize { return Failure(Validation("expectedSize")); }
      var made := NewUploadSession(id, token, repo, tenant, expected, config.uploadTTL, now);
      if made.Failure? { return Failure(made.error); }
      var session := new UploadSession(made.value);
      if expected.Some? {
        var o := ReserveQuota(tenant, expected.value);
        if o.Fail? { return Failure(o.error); }
      }
      var created := catalog.CreateUpload(session);
      if created.Fail? {
        if expected.Some? { ReleaseQuota(tenant, expected.value); }
        return Failure(created.error);
      }
      return Success(session.Value());
    }

    /** `data` is the request body, read up to one byte past the range; a longer body fails like a shorter one. */
    method UploadChunk(repo: string, id: string, token: string, r: ByteRange, data: Bytes, now: int)
      returns (result: Result<SessionValue>)
      requires Keyed(State())
      modifies catalog, catalog.objects
      ensures (State(), result) == ChunkUploaded(config, old(State()), repo, id, token, r, data, now)
    {
      var found := catalog.GetUpload(id);
      if found.None? { return Failure(UploadNotFound); }
      var session := found.value;
      if session.repository != repo || session.token != token { return Failure(UploadNotFound); }
      if r.Length() > config.maxBlobSize { return Failure(Validation("chunk")); }
      if |data| != r.Length() { return Failure(Validation("Content-Range")); }
      var digest := config.hash(data);
      var known := session.HasExact(r, digest);
      if known { return Success(session.Value()); }
      var written := catalog.objects.WriteAt(TempKey(session.id), r.start, data);
      if written.Failure? { return Failure(written.error); }
      var before := session.version;
      var o := session.RecordChunk(r, digest, now);
      if o.Fail? { return Failure(o.error); }
      o := catalog.UpdateUpload(session, before);
      match o {
        case Fail(e) => return Failure(e);
        case Pass => return Success(session.Value());
      }
    }

    /** The part of CompleteUpload that moves the object and catalogues the blob. */
    method StoreBlob(session: UploadSession, b: Blob) returns (o: Outcome)
      requires TempKey(session.id) in catalog.objects.files
      modifies catalog, catalog.objects
      ensures (State(), o) == BlobStored(old(State()), old(session.Value()), b)
    {
      var present := catalog.objects.Exists(b.storageKey);
      if !present {
        var moved := catalog.objects.Move(TempKey(session.id), b.storageKey);
        if moved.Fail? { return moved; }
      }
      if b.size != 0 {
        var data := catalog.objects.Open(b.storageKey, ByteRange(0, b.size - 1));
        if data.Failure? { return Fail(data.error); }
        o := catalog.PutBlob(b, data.value);
      } else {
        o := catalog.PutBlob(b, []);
      }
    }

    /** The part of CompleteUpload after the finalize update. */
    method FinishUpload(session: UploadSession, data: Bytes, expected: Digest) returns (r: Result<Blob>)
      requires TempKey(session.id) in catalog.objects.files
      modifies catalog, catalog.objects, session
      ensures (State(), r) == UploadFinished(config, old(State()), old(session.Value()), data, expected)
    {
      if config.hash(data) != expected {
        session.Abort();
        var _ := catalog.UpdateUpload(session, session.version - 1);
        ReleaseSession(session);
        return Failure(DigestMismatch);
      }
      var b := Blob(expected, |data|, 0, BlobKey(expected));
      var o := StoreBlob(session, b);
      if o.Fail? { return Failure(o.error); }
      session.Complete();
      var _ := catalog.UpdateUpload(session, session.version - 1);
      CommitSession(session, |data|);
      return Success(b);
    }

    method CompleteUpload(repo: string, id: string, token: string, expected: Digest, now: int) returns (r: Result<Blob>)
      requires Keyed(State())
      modifies catalog, catalog.objects
      ensures (State(), r) == UploadCompleted(config, old(State()), repo, id, token, expected, now)
    {
      var found := catalog.GetUpload(id);
      if found.None? { return Failure(UploadNotFound); }
      var session := found.value;
      if session.repository != repo || session.token != token { return Failure(UploadNotFound); }
      var size := catalog.objects.Size(TempKey(session.id));
      if size.Failure? { return Failure(size.error); }
      var o := session.MayFinalize(size.value, now);
      if o.Fail? { return Failure(o.error); }
      var before := session.version;
      o := session.Finalize();
      o := catalog.UpdateUpload(session, before);
      match o {
        case Fail(e) => return Failure(e);
        case Pass =>
      }
      var data: Bytes := [];
      if size.value != 0 {
        var stream := catalog.objects.Open(TempKey(session.id), ByteRange(0, size.value - 1));
        data := stream.value;
      }
      assert data == old(catalog.objects.files[TempKey(id)]);
      r := FinishUpload(session, data, expected);
    }

    method AbortUpload(repo: string, id: string, token: string) returns (o: Outcome)
      requires Keyed(State())
      modifies catalog, catalog.objects
      ensures (State(), o) == UploadAborted(old(State()), repo, id, token)
    {
      var found := catalog.GetUpload(id);
      if found.None? { return Fail(UploadNotFound); }
      var u := found.value;
      if u.repository != repo || u.token != token { return Fail(UploadNotFound); }
      u.Abort();
      ReleaseSession(u);
      o := catalog.DeleteUpload(id);
    }

    method PutManifest(repo: string, ref: Reference, parsed: Manifest, now: int) returns (o: Outcome)
      modifies catalog
      ensures (State(), o) == ManifestPut(old(State()), repo, ref, parsed, now)
    {
      var found := catalog.Get(repo);
      if found.Failure? { return Fail(found.error); }
      var m := parsed.(createdAt := now);
      if m.size > MAX_MANIFEST_SIZE { return Fail(Validation("manifest")); }
      var refs := m.References();
      for i := 0 to |refs|
        invariant State() == old(State())
        invariant forall k :: 0 <= k < i ==> refs[k] in catalog.blobs
      {
        var b := catalog.GetBlob(refs[i]);
        if b.Failure? { return Fail(b.error); }
      }
      o := catalog.PutManifest(repo, m);
      if o.Fail? { return; }
      match ref {
        case ByDigest(d) =>
          if d != m.digest { return Fail(DigestMismatch); }
          return Pass;
        case ByTag(name) =>
          var tag := catalog.GetTag(repo, name);
          if tag.Some? {
            o := tag.value.Move(m.digest);
            if o.Fail? { return; }
            catalog.PutTag(repo, tag.value);
          } else {
            var made := MakeTag(name, m.digest, found.value.immutableTags);
            if made.Failure? { return Fail(made.error); }
            var created := new Tag(made.value);
            catalog.PutTag(repo, created);
          }
          return Pass;
      }
    }

    method DeleteManifest(repo: string, d: Digest) returns (o: Outcome)
      modifies catalog
      ensures (State(), o) == ManifestDeleted(old(State()), repo, d)
    {
      var found := catalog.Get(repo);
      if found.Failure? { return Fail(found.error); }
      o := catalog.DeleteManifest(repo, d);
    }

    method GetBlob(repo: string, d: Digest, r: Option<ByteRange>) returns (data: Result<Bytes>)
      ensures data == BlobRead(State(), repo, d, r)
    {
      var found := catalog.Get(repo);
      if found.Failure? { return Failure(found.error); }
      var b := catalog.GetBlob(d);
      if b.Failure? { return Failure(b.error); }
      var range := ByteRange(0, b.value.size - 1);
      if b.value.size == 0 { return Success([]); }
      if r.Some? { range := r.value; }
      data := catalog.OpenBlob(d, range);
    }
  }
}
