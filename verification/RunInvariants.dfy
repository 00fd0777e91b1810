/** What every run keeps. */
module RunInvariants {
  import opened Basics
  import opened Ranges
  import opened Artifacts
  import opened Upload
  import opened Objects
  import opened Policy
  import opened Store
  import opened Registry
  import opened Collection
  import opened CollectionLaws
  import opened Janitor
  import opened Lifecycle
  import opened Text
  import R = Replication

  import opened Runs
  import opened Effects

  // ---------------------------------------------------------------- sessions and their temp files

  /** A session is stored under its id, its chunks are in order, and while it is open they lie within its temp file. */
  ghost predicate SessionKept(s: State, id: string)
    requires id in s.uploads
  {
    && s.uploads[id].id == id
    && SessionOk(s.uploads[id])
    && (s.uploads[id].state == Open ==> FitsIn(s.uploads[id], |FileAt(s.files, TempKey(id))|))
  }

  ghost predicate SessionsKept(s: State) {
    forall id :: id in s.uploads ==> SessionKept(s, id)
  }

  lemma KeysAreApart()
    ensures forall id, d :: TempKey(id) != BlobKey(d)
    ensures forall a, b :: TempKey(a) == TempKey(b) ==> a == b
    ensures forall a, b :: BlobKey(a) == BlobKey(b) ==> a == b
  {
    forall id, d ensures TempKey(id) != BlobKey(d) { KeysDisjoint(id, d); }
    forall a, b | TempKey(a) == TempKey(b) ensures a == b { TempKeyInjective(a, b); }
    forall a, b | BlobKey(a) == BlobKey(b) ensures a == b { BlobKeyInjective(a, b); }
  }

  /** A call that leaves the other sessions, and their files, alone. */
  lemma OneSessionChanged(s: State, t: State, id: string)
    requires SessionsKept(s) && id in t.uploads && SessionKept(t, id)
    requires forall i :: i in t.uploads && i != id ==> i in s.uploads && t.uploads[i] == s.uploads[i]
    requires forall i :: i in t.uploads && i != id ==> FileAt(t.files, TempKey(i)) == FileAt(s.files, TempKey(i))
    ensures SessionsKept(t)
  {
    forall i | i in t.uploads ensures SessionKept(t, i) {
      if i != id { assert SessionKept(s, i); }
    }
  }

  lemma FewerSessions(s: State, t: State)
    requires SessionsKept(s)
    requires forall i :: i in t.uploads ==> i in s.uploads && t.uploads[i] == s.uploads[i]
    requires forall i :: i in t.uploads ==> FileAt(t.files, TempKey(i)) == FileAt(s.files, TempKey(i))
    ensures SessionsKept(t)
  {
    forall i | i in t.uploads ensures SessionKept(t, i) {
      assert SessionKept(s, i);
    }
  }

  lemma StartedSessions(c: Config, s: State, repo: string, expected: Option<int>, id: string, token: string, now: int)
    requires SessionsKept(s)
    ensures SessionsKept(UploadStarted(c, s, repo, expected, id, token, now).0)
  {
    var t := UploadStarted(c, s, repo, expected, id, token, now).0;
    StartEffect(c, s, repo, expected, id, token, now);
    if t.uploads == s.uploads {
      FewerSessions(s, t);
    } else {
      assert RangesOf(t.uploads[id].chunks) == [];
      OneSessionChanged(s, t, id);
    }
  }

  lemma SplicedFits(file: Bytes, r: ByteRange, data: Bytes)
    requires r.Valid() && |data| == r.Length()
    ensures |file| <= |Spliced(file, r.start, data)| && r.end < |Spliced(file, r.start, data)|
  {
  }

  lemma RecordedFits(u: SessionValue, r: ByteRange, d: Digest, now: int, size: int)
    requires FitsIn(u, size) && r.end < size
    ensures FitsIn(Recorded(u, r, d, now).0, size)
  {
  }

  lemma ChunkSessions(c: Config, s: State, repo: string, id: string, token: string, r: ByteRange, data: Bytes, now: int)
    requires SessionsKept(s) && r.Valid()
    ensures SessionsKept(ChunkUploaded(c, s, repo, id, token, r, data, now).0)
  {
    var t := ChunkUploaded(c, s, repo, id, token, r, data, now).0;
    assert id in s.uploads ==> SessionKept(s, id);
    ChunkEffect(c, s, repo, id, token, r, data, now);
    if t != s {
      WrittenSessionKept(s, t, id, r, data, c.hash(data), now);
      KeysAreApart();
      OneSessionChanged(s, t, id);
    }
  }

  lemma WrittenSessionKept(s: State, t: State, id: string, r: ByteRange, data: Bytes, d: Digest, now: int)
    requires id in s.uploads && SessionKept(s, id) && r.Valid() && |data| == r.Length()
    requires t.files == WrittenAt(s.files, TempKey(id), r.start, data) && id in t.uploads
    requires t.uploads[id] == s.uploads[id] || t.uploads[id] == Recorded(s.uploads[id], r, d, now).0
    ensures SessionKept(t, id)
  {
    var u, file := s.uploads[id], FileAt(s.files, TempKey(id));
    SplicedFits(file, r, data);
    RecordKeepsOk(u, r, d, now);
    if u.state == Open { RecordedFits(u, r, d, now, |Spliced(file, r.start, data)|); }
  }

  // ---------------------------------------------------------------- content addressing

  /** The blob's object exists under its key, has its size, and hashes to its digest; nothing counts references. */
  ghost predicate BlobHolds(hash: Hash, s: State, d: Digest)
    requires d in s.blobs
  {
    var b := s.blobs[d];
    && b == Blob(d, b.size, 0, BlobKey(d))
    && b.storageKey in s.files
    && |s.files[b.storageKey]| == b.size
    && hash(s.files[b.storageKey]) == d
  }

  ghost predicate ContentKept(hash: Hash, s: State) {
    && (forall d :: d in s.blobs ==> BlobHolds(hash, s, d))
    && (forall d :: BlobKey(d) in s.files ==> d in s.blobs)
    && (forall id :: TempKey(id) in s.files ==> id in s.uploads)
  }

  lemma ObjectsUntouched(hash: Hash, s: State, t: State)
    requires ContentKept(hash, s) && t.blobs == s.blobs
    requires forall d :: BlobKey(d) in t.files <==> BlobKey(d) in s.files
    requires forall d :: BlobKey(d) in s.files ==> t.files[BlobKey(d)] == s.files[BlobKey(d)]
    requires forall id :: TempKey(id) in t.files ==> id in t.uploads
    ensures ContentKept(hash, t)
  {
    forall d | d in t.blobs ensures BlobHolds(hash, t, d) {
      assert BlobHolds(hash, s, d);
    }
  }

  /** Where the object of a finished upload goes: nowhere when its blob is catalogued, else to its key. */
  lemma StoredEffect(hash: Hash, s: State, u: SessionValue, d: Digest, data: Bytes)
    requires ContentKept(hash, s) && TempKey(u.id) in s.files && s.files[TempKey(u.id)] == data && hash(data) == d
    ensures
      var b := Blob(d, |data|, 0, BlobKey(d));
      var (w, o) := BlobStored(s, u, b);
      if d in s.blobs then w == s
      else o.Pass? && w == s.(files := (s.files - {TempKey(u.id)})[BlobKey(d) := data], blobs := s.blobs[d := b])
  {
    var b := Blob(d, |data|, 0, BlobKey(d));
    if d in s.blobs {
      assert BlobHolds(hash, s, d);
    } else {
      var t := s.(files := Moved(s.files, TempKey(u.id), b.storageKey).value);
      assert t.files[BlobKey(d)] == data;
      assert data[0..|data|] == data;
      assert t.files[BlobKey(d) := data] == t.files;
    }
  }

  lemma StoredContent(hash: Hash, s: State, u: SessionValue, d: Digest, data: Bytes)
    requires ContentKept(hash, s) && TempKey(u.id) in s.files && s.files[TempKey(u.id)] == data && hash(data) == d
    ensures ContentKept(hash, BlobStored(s, u, Blob(d, |data|, 0, BlobKey(d))).0)
  {
    var t := BlobStored(s, u, Blob(d, |data|, 0, BlobKey(d))).0;
    StoredEffect(hash, s, u, d, data);
    if d !in s.blobs {
      KeysAreApart();
      forall e | e in t.blobs ensures BlobHolds(hash, t, e) {
        if e != d { assert BlobHolds(hash, s, e); }
      }
    }
  }

  lemma FinalizingContent(hash: Hash, s: State, id: string, v: SessionValue)
    requires ContentKept(hash, s) && id in s.uploads
    ensures ContentKept(hash, WithSession(s, id, v))
  {
    ObjectsUntouched(hash, s, WithSession(s, id, v));
  }

  lemma AfterGuardContent(c: Config, s: State, id: string, d: Digest)
    requires ContentKept(c.hash, s) && id in s.uploads && s.uploads[id].id == id && TempKey(id) in s.files
    ensures ContentKept(c.hash, AfterGuard(c, s, id, d))
  {
    var data, w := s.files[TempKey(id)], ObjectsAfter(c, s, id, d);
    if c.hash(data) == d {
      StoredContent(c.hash, s, s.uploads[id], d, data);
      BlobStoredKeeps(s, s.uploads[id], Blob(d, |data|, 0, BlobKey(d)));
    }
    AfterGuardShape(c, s, id, d);
    ObjectsUntouched(c.hash, w, AfterGuard(c, s, id, d));
  }

  lemma CompletionContent(c: Config, s: State, id: string, d: Digest)
    requires ContentKept(c.hash, s) && id in s.uploads && s.uploads[id].id == id && TempKey(id) in s.files
    ensures ContentKept(c.hash, Completion(c, s, id, d))
  {
    FinalizingContent(c.hash, s, id, Finalized(s.uploads[id]).0);
    AfterGuardContent(c, WithSession(s, id, Finalized(s.uploads[id]).0), id, d);
  }

  /** The other temp files stay while an object moves to its blob key. */
  lemma StoredLeavesTemps(hash: Hash, s: State, u: SessionValue, d: Digest, data: Bytes, i: string)
    requires ContentKept(hash, s) && TempKey(u.id) in s.files
    requires s.files[TempKey(u.id)] == data && hash(data) == d && i != u.id
    ensures
      var t := BlobStored(s, u, Blob(d, |data|, 0, BlobKey(d))).0;
      FileAt(t.files, TempKey(i)) == FileAt(s.files, TempKey(i)) && (TempKey(i) in t.files <==> TempKey(i) in s.files)
  {
    StoredEffect(hash, s, u, d, data);
    KeysDisjoint(i, d);
    if TempKey(i) == TempKey(u.id) { TempKeyInjective(i, u.id); }
  }

  lemma AfterGuardSessions(c: Config, s: State, id: string, d: Digest)
    requires ContentKept(c.hash, s) && SessionsKept(s) && id in s.uploads && TempKey(id) in s.files
    requires s.uploads[id].state == Finalizing
    ensures SessionsKept(AfterGuard(c, s, id, d))
  {
    var data, v, t := s.files[TempKey(id)], s.uploads[id], AfterGuard(c, s, id, d);
    assert SessionKept(s, id);
    StateChangesKeepOk(v);
    AfterGuardShape(c, s, id, d);
    if c.hash(data) == d {
      forall i | i != id ensures FileAt(t.files, TempKey(i)) == FileAt(s.files, TempKey(i)) {
        StoredLeavesTemps(c.hash, s, v, d, data, i);
      }
    }
    OneSessionChanged(s, t, id);
  }

  lemma CompletionSessions(c: Config, s: State, id: string, d: Digest)
    requires ContentKept(c.hash, s) && SessionsKept(s) && id in s.uploads && TempKey(id) in s.files
    requires s.uploads[id].state == Open
    ensures SessionsKept(Completion(c, s, id, d))
  {
    var v := Finalized(s.uploads[id]).0;
    assert SessionKept(s, id);
    StateChangesKeepOk(s.uploads[id]);
    OneSessionChanged(s, WithSession(s, id, v), id);
    FinalizingContent(c.hash, s, id, v);
    AfterGuardSessions(c, WithSession(s, id, v), id, d);
  }

  lemma StartContent(c: Config, s: State, repo: string, expected: Option<int>, id: string, token: string, now: int)
    requires ContentKept(c.hash, s)
    ensures ContentKept(c.hash, UploadStarted(c, s, repo, expected, id, token, now).0)
  {
    StartEffect(c, s, repo, expected, id, token, now);
    ObjectsUntouched(c.hash, s, UploadStarted(c, s, repo, expected, id, token, now).0);
  }

  lemma ChunkContent(c: Config, s: State, repo: string, id: string, token: string, r: ByteRange, data: Bytes, now: int)
    requires ContentKept(c.hash, s) && r.Valid() && (id in s.uploads ==> s.uploads[id].id == id)
    ensures ContentKept(c.hash, ChunkUploaded(c, s, repo, id, token, r, data, now).0)
  {
    ChunkEffect(c, s, repo, id, token, r, data, now);
    KeysAreApart();
    ObjectsUntouched(c.hash, s, ChunkUploaded(c, s, repo, id, token, r, data, now).0);
  }

  /** Sessions that go with their temp files leave everything else alone. */
  lemma RemovedSessions(c: Config, s: State, t: State, ids: set<string>)
    requires ContentKept(c.hash, s) && SessionsKept(s)
    requires t.blobs == s.blobs && t.uploads == s.uploads - ids && t.files == s.files - TempKeys(ids)
    ensures ContentKept(c.hash, t) && SessionsKept(t)
  {
    KeysAreApart();
    forall id | id in ids ensures TempKey(id) !in t.files {
      assert TempKey(id) in TempKeys(ids);
    }
    ObjectsUntouched(c.hash, s, t);
    FewerSessions(s, t);
  }

  lemma DroppedBlobContent(hash: Hash, s: State, d: Digest)
    requires ContentKept(hash, s)
    ensures ContentKept(hash, DeletedBlob(s, d).0)
  {
    var t := DeletedBlob(s, d).0;
    if d in s.blobs {
      assert BlobHolds(hash, s, d);
      KeysAreApart();
      forall e | e in t.blobs ensures BlobHolds(hash, t, e) {
        assert BlobHolds(hash, s, e);
      }
    }
  }

  lemma DroppedBlobSessions(hash: Hash, s: State, d: Digest)
    requires ContentKept(hash, s) && SessionsKept(s)
    ensures SessionsKept(DeletedBlob(s, d).0)
  {
    if d in s.blobs {
      assert BlobHolds(hash, s, d);
      KeysAreApart();
      FewerSessions(s, DeletedBlob(s, d).0);
    }
  }

  lemma {:induction false} SweptKept(c: Config, s: State, deletions: seq<Deletion>)
    requires ContentKept(c.hash, s) && SessionsKept(s)
    ensures ContentKept(c.hash, Swept(s, deletions)) && SessionsKept(Swept(s, deletions))
    decreases |deletions|
  {
    if deletions != [] {
      var before := Swept(s, deletions[..|deletions| - 1]);
      SweptKept(c, s, deletions[..|deletions| - 1]);
      match deletions[|deletions| - 1]
      case DropManifest(r, d) =>
        DropManifestEffect(before, r, d, Swept(s, deletions));
        ObjectsUntouched(c.hash, before, Swept(s, deletions));
        FewerSessions(before, Swept(s, deletions));
      case DropBlob(d) =>
        DroppedBlobContent(c.hash, before, d);
        DroppedBlobSessions(c.hash, before, d);
    }
  }

  // ---------------------------------------------------------------- quotas

  ghost predicate QuotasKept(s: State) {
    forall tenant :: tenant in s.quotas ==> QuotaOk(s.quotas[tenant])
  }

  lemma ReserveKeepsQuotas(s: State, tenant: string, n: int)
    requires QuotasKept(s)
    ensures QuotasKept(Reserve(s, tenant, n).0) && QuotasKept(Release(s, tenant, n))
  {
    ReserveEffect(s, tenant, n);
    ReleaseEffect(s, tenant, n);
    if tenant in s.quotas { QuotaCallsKeepBound(s.quotas[tenant], n, n); }
  }

  /** The registry commits exactly what it reserved. */
  lemma CommitKeepsQuotas(s: State, u: SessionValue, actual: int)
    requires QuotasKept(s) && (u.expectedSize.Some? ==> u.expectedSize.value == actual)
    ensures QuotasKept(CommitReservation(s, u, actual))
  {
    CommitEffect(s, u, actual);
    if u.tenant in s.quotas {
      assert QuotaOk(s.quotas[u.tenant]);
      QuotaCallsKeepBound(s.quotas[u.tenant], actual, actual);
    }
  }

  lemma StartedQuotas(s: State, u: SessionValue)
    requires QuotasKept(s)
    ensures QuotasKept(Started(s, u))
  {
    if u.expectedSize.Some? {
      ReserveKeepsQuotas(s, u.tenant, u.expectedSize.value);
      ReserveKeepsQuotas(Reserve(s, u.tenant, u.expectedSize.value).0, u.tenant, u.expectedSize.value);
    }
  }

  lemma StartQuotas(c: Config, s: State, repo: string, expected: Option<int>, id: string, token: string, now: int)
    requires QuotasKept(s)
    ensures QuotasKept(UploadStarted(c, s, repo, expected, id, token, now).0)
  {
    StartCases(c, s, repo, expected, id, token, now);
    if repo in s.repos && !RefusedSize(c, expected) {
      StartedQuotas(s, NewUploadSession(id, token, repo, s.repos[repo].tenant, expected, c.uploadTTL, now).value);
    }
  }

  lemma ReleasedQuotas(s: State, u: SessionValue)
    requires QuotasKept(s)
    ensures QuotasKept(ReleaseReservation(s, u))
  {
    if u.expectedSize.Some? { ReserveKeepsQuotas(s, u.tenant, u.expectedSize.value); }
  }

  lemma AfterGuardQuotas(c: Config, s: State, id: string, d: Digest)
    requires QuotasKept(s) && id in s.uploads && TempKey(id) in s.files
    requires s.uploads[id].expectedSize.Some? ==> s.uploads[id].expectedSize.value == |s.files[TempKey(id)]|
    ensures QuotasKept(AfterGuard(c, s, id, d))
  {
    var v, data := s.uploads[id], s.files[TempKey(id)];
    if c.hash(data) != d {
      ReleasedQuotas(WithSession(s, id, AbortedSession(v)), AbortedSession(v));
    } else {
      var b := Blob(d, |data|, 0, BlobKey(d));
      BlobStoredKeeps(s, v, b);
      CommitKeepsQuotas(WithSession(BlobStored(s, v, b).0, id, CompletedSession(v)), CompletedSession(v), |data|);
    }
  }

  lemma CompletionQuotas(c: Config, s: State, id: string, d: Digest, now: int)
    requires QuotasKept(s) && PassesGuard(s, id, now)
    ensures QuotasKept(Completion(c, s, id, d))
  {
    AfterGuardQuotas(c, WithSession(s, id, Finalized(s.uploads[id]).0), id, d);
  }

  // ---------------------------------------------------------------- manifests and tags

  predicate NamedTag(n: string, v: TagValue) { v.name == n && ValidTagName(n) }

  /** Manifests and tags are stored under their own keys, tag names are valid, and every tag
      points to a manifest of its repository. */
  ghost predicate NamesKept(s: State) {
    && KeyedManifests(s)
    && (forall r, n :: n in TagsOf(s, r) ==> NamedTag(n, TagsOf(s, r)[n]))
    && TagsStored(s)
  }

  lemma SameNames(s: State, t: State)
    requires NamesKept(s) && t.manifests == s.manifests && t.tags == s.tags
    ensures NamesKept(t)
  {
    assert forall r :: ManifestsOf(t, r) == ManifestsOf(s, r) && TagsOf(t, r) == TagsOf(s, r);
  }

  lemma PutManifestEffect(s: State, repo: string, m: Manifest)
    requires repo in s.repos
    ensures
      var t := Store.PutManifest(s, repo, m).0;
      && t == s.(manifests := t.manifests)
      && (forall r :: r != repo ==> ManifestsOf(t, r) == ManifestsOf(s, r))
      && ManifestsOf(t, repo) ==
           if m.digest in ManifestsOf(s, repo) then ManifestsOf(s, repo) else ManifestsOf(s, repo)[m.digest := m]
  {
  }

  lemma PutManifestNames(s: State, repo: string, m: Manifest)
    requires NamesKept(s) && repo in s.repos
    ensures NamesKept(Store.PutManifest(s, repo, m).0)
    ensures m.digest in ManifestsOf(Store.PutManifest(s, repo, m).0, repo)
  {
    PutManifestEffect(s, repo, m);
    var t := Store.PutManifest(s, repo, m).0;
    assert forall r :: TagsOf(t, r) == TagsOf(s, r);
  }

  lemma PutTagNames(s: State, repo: string, v: TagValue)
    requires NamesKept(s) && v.digest in ManifestsOf(s, repo) && ValidTagName(v.name)
    ensures NamesKept(PutTag(s, repo, v))
  {
    var t := PutTag(s, repo, v);
    assert forall r :: ManifestsOf(t, r) == ManifestsOf(s, r);
    assert forall r :: r != repo ==> TagsOf(t, r) == TagsOf(s, r);
    assert TagsOf(t, repo) == TagsOf(s, repo)[v.name := v];
  }

  lemma TagMovedNames(s: State, repo: string, name: string, d: Digest)
    requires NamesKept(s) && d in ManifestsOf(s, repo)
    ensures NamesKept(TagMoved(s, repo, name, d).0)
  {
    var moved := if name in TagsOf(s, repo) then MovedTag(TagsOf(s, repo)[name], d)
                 else MakeTag(name, d, repo in s.repos && s.repos[repo].immutableTags);
    if name in TagsOf(s, repo) { assert NamedTag(name, TagsOf(s, repo)[name]); }
    if moved.Success? { PutTagNames(s, repo, moved.value); }
  }

  lemma ManifestPutNames(s: State, repo: string, reference: Reference, parsed: Manifest, now: int)
    requires NamesKept(s)
    ensures NamesKept(ManifestPut(s, repo, reference, parsed, now).0)
  {
    var m := parsed.(createdAt := now);
    if repo in s.repos {
      PutManifestNames(s, repo, m);
      if reference.ByTag? { TagMovedNames(Store.PutManifest(s, repo, m).0, repo, reference.name, m.digest); }
    }
  }

  lemma {:induction false} SweptNames(s: State, deletions: seq<Deletion>)
    requires NamesKept(s)
    ensures NamesKept(Swept(s, deletions))
  {
    SweptLeaves(s, deletions);
    LeftIsKeyed(s, deletions, Swept(s, deletions));
    TagsStayStored(s, deletions);
  }

  lemma ManifestDeletedNames(s: State, repo: string, d: Digest)
    requires NamesKept(s)
    ensures NamesKept(ManifestDeleted(s, repo, d).0)
  {
    SweptNames(s, [DropManifest(repo, d)]);
    assert [DropManifest(repo, d)][..0] == [];
    assert Swept(s, [DropManifest(repo, d)]) == Deleted(s, DropManifest(repo, d));
  }

  // ---------------------------------------------------------------- all runs

  /** Policies are stored under their ids. */
  ghost predicate PoliciesKept(s: State) {
    forall id :: id in s.policies ==> s.policies[id].id == id
  }

  ghost predicate Kept(c: Config, s: State) {
    SessionsKept(s) && ContentKept(c.hash, s) && QuotasKept(s) && NamesKept(s) && PoliciesKept(s)
  }

  lemma OnlyNamesChanged(c: Config, s: State, t: State)
    requires Kept(c, s) && t.files == s.files && t.blobs == s.blobs && t.uploads == s.uploads && t.quotas == s.quotas
    requires NamesKept(t) && PoliciesKept(t)
    ensures Kept(c, t)
  {
    ObjectsUntouched(c.hash, s, t);
    FewerSessions(s, t);
  }

  lemma CreateEffect(c: Config, s: State, name: string, tenant: string, immutable: bool, quota: int)
    ensures RepositoryCreated(c, s, name, tenant, immutable, quota).0 ==
      if TrimSpace(tenant) == "" || name in s.repos then s
      else s.(repos := s.repos[name := Repository(tenant, immutable, 1)],
              quotas := s.quotas[tenant := QuotaValue(if quota <= 0 then c.defaultQuota else quota, 0, 0, 1)])
  {
    if TrimSpace(tenant) != "" && name !in s.repos {
      var r := Repository(tenant, immutable, 1);
      assert CreatedRepo(s, name, r) == (s.(repos := s.repos[name := r]), Pass);
    }
  }

  lemma CreateKeeps(c: Config, s: State, name: string, tenant: string, immutable: bool, quota: int)
    requires Kept(c, s) && 0 <= c.defaultQuota
    ensures Kept(c, RepositoryCreated(c, s, name, tenant, immutable, quota).0)
  {
    var t := RepositoryCreated(c, s, name, tenant, immutable, quota).0;
    CreateEffect(c, s, name, tenant, immutable, quota);
    ObjectsUntouched(c.hash, s, t);
    FewerSessions(s, t);
    SameNames(s, t);
  }

  lemma StartKeeps(c: Config, s: State, repo: string, expected: Option<int>, id: string, token: string, now: int)
    requires Kept(c, s)
    ensures Kept(c, UploadStarted(c, s, repo, expected, id, token, now).0)
  {
    StartEffect(c, s, repo, expected, id, token, now);
    StartedSessions(c, s, repo, expected, id, token, now);
    StartContent(c, s, repo, expected, id, token, now);
    StartQuotas(c, s, repo, expected, id, token, now);
    SameNames(s, UploadStarted(c, s, repo, expected, id, token, now).0);
  }

  lemma ChunkKeeps(c: Config, s: State, repo: string, id: string, token: string, r: ByteRange, data: Bytes, now: int)
    requires Kept(c, s) && r.Valid()
    ensures Kept(c, ChunkUploaded(c, s, repo, id, token, r, data, now).0)
  {
    assert id in s.uploads ==> SessionKept(s, id);
    ChunkEffect(c, s, repo, id, token, r, data, now);
    ChunkSessions(c, s, repo, id, token, r, data, now);
    ChunkContent(c, s, repo, id, token, r, data, now);
    SameNames(s, ChunkUploaded(c, s, repo, id, token, r, data, now).0);
  }

  lemma CompleteKeeps(c: Config, s: State, repo: string, id: string, token: string, d: Digest, now: int)
    requires Kept(c, s)
    ensures Kept(c, UploadCompleted(c, s, repo, id, token, d, now).0)
  {
    assert id in s.uploads ==> SessionKept(s, id);
    CompleteEffect(c, s, repo, id, token, d, now);
    if Addresses(s, repo, id, token) && PassesGuard(s, id, now) {
      CompletionSessions(c, s, id, d);
      CompletionContent(c, s, id, d);
      CompletionQuotas(c, s, id, d, now);
      AfterGuardShape(c, WithSession(s, id, Finalized(s.uploads[id]).0), id, d);
      SameNames(s, Completion(c, s, id, d));
    }
  }

  lemma AbortKeeps(c: Config, s: State, repo: string, id: string, token: string)
    requires Kept(c, s)
    ensures Kept(c, UploadAborted(s, repo, id, token).0)
  {
    var t := UploadAborted(s, repo, id, token).0;
    assert id in s.uploads ==> SessionKept(s, id);
    AbortEffect(s, repo, id, token);
    if Addresses(s, repo, id, token) {
      var u := AbortedSession(s.uploads[id]);
      if u.expectedSize.Some? {
        ReserveKeepsQuotas(s, u.tenant, u.expectedSize.value);
        ReleaseKeeps(s, u.tenant, u.expectedSize.value);
      }
      assert TempKeys({id}) == {TempKey(id)};
      RemovedSessions(c, s, t, {id});
      SameNames(s, t);
    }
  }

  lemma CleanKeeps(c: Config, s: State, now: int)
    requires Kept(c, s)
    ensures Kept(c, Cleaned(s, now))
  {
    RemovedSessions(c, s, Cleaned(s, now), ExpiredIds(s, now));
    SameNames(s, Cleaned(s, now));
  }

  lemma SweptKeeps(c: Config, s: State, deletions: seq<Deletion>)
    requires Kept(c, s)
    ensures Kept(c, Swept(s, deletions))
  {
    SweptKept(c, s, deletions);
    SweptNames(s, deletions);
    SweptLeaves(s, deletions);
  }

  lemma TagMovedFrame(s: State, repo: string, name: string, d: Digest)
    ensures TagMoved(s, repo, name, d).0 == s.(tags := TagMoved(s, repo, name, d).0.tags)
  {
  }

  /** Nothing but manifests and tags change. */
  lemma ManifestPutFrame(s: State, repo: string, reference: Reference, parsed: Manifest, now: int)
    ensures
      var t := ManifestPut(s, repo, reference, parsed, now).0;
      t == s.(manifests := t.manifests, tags := t.tags)
  {
    var m := parsed.(createdAt := now);
    if repo in s.repos {
      PutManifestEffect(s, repo, m);
      if reference.ByTag? { TagMovedFrame(Store.PutManifest(s, repo, m).0, repo, reference.name, m.digest); }
    }
  }

  lemma PutManifestKeeps(c: Config, s: State, repo: string, reference: Reference, parsed: Manifest, now: int)
    requires Kept(c, s)
    ensures Kept(c, ManifestPut(s, repo, reference, parsed, now).0)
  {
    ManifestPutNames(s, repo, reference, parsed, now);
    ManifestPutFrame(s, repo, reference, parsed, now);
    OnlyNamesChanged(c, s, ManifestPut(s, repo, reference, parsed, now).0);
  }

  lemma DeleteManifestKeeps(c: Config, s: State, repo: string, d: Digest)
    requires Kept(c, s)
    ensures Kept(c, ManifestDeleted(s, repo, d).0)
  {
    ManifestDeletedNames(s, repo, d);
    OnlyNamesChanged(c, s, ManifestDeleted(s, repo, d).0);
  }

  /** Calls that touch neither contents nor manifests, tags or quotas. */
  predicate IsSideStep(step: Step) {
    step.SetTagImmutability? || step.PutPolicy? || step.DeletePolicy? || step.CreateReplication? || step.RunReplication?
  }

  /** Nothing but repository settings, policies and replications change; tenants and policy ids stay. */
  ghost predicate OnlySide(s: State, t: State) {
    && t == s.(repos := t.repos, policies := t.policies, replications := t.replications)
    && t.repos.Keys == s.repos.Keys
    && (forall r :: r in s.repos ==> t.repos[r].tenant == s.repos[r].tenant)
    && (PoliciesKept(s) ==> PoliciesKept(t))
  }

  lemma RepoUpdateEffect(s: State, repo: string, r: Repository)
    requires repo in s.repos && r.tenant == s.repos[repo].tenant
    ensures OnlySide(s, UpdatedRepo(s, repo, r, s.repos[repo].version).0)
  {
    assert UpdatedRepo(s, repo, r, s.repos[repo].version).0 == s.(repos := s.repos[repo := r]);
  }

  lemma ImmutabilityEffect(s: State, repo: string, value: bool, ifMatch: int)
    ensures OnlySide(s, TagImmutabilitySet(s, repo, value, ifMatch).0)
  {
    if repo in s.repos && !(ifMatch > 0 && s.repos[repo].version != ifMatch) {
      var before, r := s.repos[repo], s.repos[repo].(immutableTags := value, version := s.repos[repo].version + 1);
      assert TagImmutabilitySet(s, repo, value, ifMatch) == UpdatedRepo(s, repo, r, before.version);
      RepoUpdateEffect(s, repo, r);
    } else {
      assert TagImmutabilitySet(s, repo, value, ifMatch).0 == s;
    }
  }

  lemma PutPolicyEffect(s: State, p: RetentionPolicy)
    ensures OnlySide(s, Store.PutPolicy(s, p).0)
  {
    match p.Validate()
    case Fail(_) => assert Store.PutPolicy(s, p).0 == s;
    case Pass => assert Store.PutPolicy(s, p).0 == s.(policies := s.policies[p.id := p]);
  }

  lemma DeletePolicyEffect(s: State, id: string)
    ensures OnlySide(s, DeletedPolicy(s, id).0)
  {
    if id in s.policies {
      assert DeletedPolicy(s, id).0 == s.(policies := s.policies - {id});
    } else {
      assert DeletedPolicy(s, id).0 == s;
    }
  }

  lemma CreateReplicationEffect(s: State, source: string, target: string, id: string, generated: string)
    ensures OnlySide(s, ReplicationCreated(s, source, target, id, generated).0)
  {
    if source in s.repos && TrimSpace(target) != "" {
      var name := if TrimSpace(id) == "" then generated else id;
      assert ReplicationCreated(s, source, target, id, generated).0 ==
        s.(replications := s.replications[name := R.NEW_TASK]);
    } else {
      assert ReplicationCreated(s, source, target, id, generated).0 == s;
    }
  }

  lemma RunReplicationEffect(s: State, id: string, now: int, result: R.CopyResult)
    ensures OnlySide(s, ReplicationRan(s, id, now, result).0)
  {
    if id in s.replications {
      match R.Claimed(s.replications[id], now + R.LEASE, now)
      case Failure(_) =>
      case Success(_) =>
    }
  }

  lemma SideEffect(c: Config, s: State, step: Step)
    requires IsSideStep(step)
    ensures OnlySide(s, Apply(c, s, step))
  {
    match step
    case SetTagImmutability(repo, value, ifMatch) => ImmutabilityEffect(s, repo, value, ifMatch);
    case PutPolicy(p) => PutPolicyEffect(s, p);
    case DeletePolicy(id) => DeletePolicyEffect(s, id);
    case CreateReplication(source, target, id, generated) => CreateReplicationEffect(s, source, target, id, generated);
    case RunReplication(id, now, result) => RunReplicationEffect(s, id, now, result);
  }

  lemma SideKeeps(c: Config, s: State, step: Step)
    requires Kept(c, s) && IsSideStep(step)
    ensures Kept(c, Apply(c, s, step))
  {
    SideEffect(c, s, step);
    SameNames(s, Apply(c, s, step));
    OnlyNamesChanged(c, s, Apply(c, s, step));
  }

  lemma StepKeeps(c: Config, s: State, step: Step)
    requires Kept(c, s) && 0 <= c.defaultQuota
    ensures Kept(c, Apply(c, s, step))
  {
    match step
    case CreateRepository(name, tenant, immutable, quota) => CreateKeeps(c, s, name, tenant, immutable, quota);
    case StartUpload(repo, expected, id, token, now) => StartKeeps(c, s, repo, expected, id, token, now);
    case UploadChunk(repo, id, token, r, data, now) =>
      if r.Valid() { ChunkKeeps(c, s, repo, id, token, r, data, now); }
    case CompleteUpload(repo, id, token, d, now) => CompleteKeeps(c, s, repo, id, token, d, now);
    case AbortUpload(repo, id, token) => AbortKeeps(c, s, repo, id, token);
    case PutManifest(repo, reference, parsed, now) => PutManifestKeeps(c, s, repo, reference, parsed, now);
    case DeleteManifest(repo, d) => DeleteManifestKeeps(c, s, repo, d);
    case CollectGarbage(_, deletions) => SweptKeeps(c, s, deletions);
    case CleanUp(now) => CleanKeeps(c, s, now);
    case _ => SideKeeps(c, s, step);
  }

  /** Every run keeps sessions, contents, quotas and names in order. */
  lemma {:induction false} RunsKeep(c: Config, steps: seq<Step>)
    requires 0 <= c.defaultQuota
    ensures Kept(c, Reached(c, steps))
    decreases |steps|
  {
    if steps != [] {
      RunsKeep(c, steps[..|steps| - 1]);
      StepKeeps(c, Reached(c, steps[..|steps| - 1]), steps[|steps| - 1]);
    }
  }

  /** What the service methods require holds in every reachable state. */
  lemma KeptIsKeyed(c: Config, s: State)
    requires Kept(c, s)
    ensures Keyed(s)
  {
    forall d | d in s.blobs ensures s.blobs[d].digest == d {
      assert BlobHolds(c.hash, s, d);
    }
    forall r, d | r in s.manifests && d in s.manifests[r] ensures s.manifests[r][d].digest == d {
      assert d in ManifestsOf(s, r);
    }
    forall r, n | r in s.tags && n in s.tags[r] ensures s.tags[r][n].name == n {
      assert n in TagsOf(s, r);
    }
    forall id | id in s.uploads ensures s.uploads[id].id == id {
      assert SessionKept(s, id);
    }
  }

  // ---------------------------------------------------------------- calls that leave manifests and tags alone

  /** Manifests and tags are as before, and no blob is gone. */
  ghost predicate NamesUntouched(s: State, t: State) {
    t.manifests == s.manifests && t.tags == s.tags && forall d :: d in s.blobs ==> d in t.blobs
  }

  predicate IsNameStep(step: Step) { step.PutManifest? || step.DeleteManifest? || step.CollectGarbage? }

  lemma CreateFrame(c: Config, s: State, name: string, tenant: string, immutable: bool, quota: int)
    ensures NamesUntouched(s, RepositoryCreated(c, s, name, tenant, immutable, quota).0)
  {
    CreateEffect(c, s, name, tenant, immutable, quota);
  }

  lemma StartFrame(c: Config, s: State, repo: string, expected: Option<int>, id: string, token: string, now: int)
    ensures NamesUntouched(s, UploadStarted(c, s, repo, expected, id, token, now).0)
  {
    StartEffect(c, s, repo, expected, id, token, now);
  }

  lemma WrittenFrame(c: Config, s: State, id: string, r: ByteRange, data: Bytes, now: int)
    requires id in s.uploads
    ensures NamesUntouched(s, Written(c, s, id, r, data, now))
  {
  }

  lemma ChunkFrame(c: Config, s: State, repo: string, id: string, token: string, r: ByteRange, data: Bytes, now: int)
    requires Kept(c, s) && r.Valid()
    ensures NamesUntouched(s, ChunkUploaded(c, s, repo, id, token, r, data, now).0)
  {
    assert id in s.uploads ==> SessionKept(s, id);
    ChunkEffect(c, s, repo, id, token, r, data, now);
    if Writes(c, s, repo, id, token, r, data) { WrittenFrame(c, s, id, r, data, now); }
  }

  lemma AfterGuardFrame(c: Config, s: State, id: string, d: Digest)
    requires ContentKept(c.hash, s) && id in s.uploads && s.uploads[id].id == id && TempKey(id) in s.files
    ensures NamesUntouched(s, AfterGuard(c, s, id, d))
  {
    var data := s.files[TempKey(id)];
    if c.hash(data) == d { StoredEffect(c.hash, s, s.uploads[id], d, data); }
    AfterGuardShape(c, s, id, d);
  }

  lemma CompletionFrame(c: Config, s: State, id: string, d: Digest)
    requires ContentKept(c.hash, s) && id in s.uploads && s.uploads[id].id == id && TempKey(id) in s.files
    ensures NamesUntouched(s, Completion(c, s, id, d))
  {
    var v := Finalized(s.uploads[id]).0;
    FinalizingContent(c.hash, s, id, v);
    AfterGuardFrame(c, WithSession(s, id, v), id, d);
  }

  lemma CompleteFrame(c: Config, s: State, repo: string, id: string, token: string, d: Digest, now: int)
    requires Kept(c, s)
    ensures NamesUntouched(s, UploadCompleted(c, s, repo, id, token, d, now).0)
  {
    assert id in s.uploads ==> SessionKept(s, id);
    CompleteEffect(c, s, repo, id, token, d, now);
    if Addresses(s, repo, id, token) && PassesGuard(s, id, now) { CompletionFrame(c, s, id, d); }
  }

  lemma AbortFrame(c: Config, s: State, repo: string, id: string, token: string)
    requires Kept(c, s)
    ensures NamesUntouched(s, UploadAborted(s, repo, id, token).0)
  {
    assert id in s.uploads ==> SessionKept(s, id);
    AbortEffect(s, repo, id, token);
    ReservationFrame(s, id);
  }

  lemma CleanFrame(s: State, now: int)
    ensures NamesUntouched(s, Cleaned(s, now))
  {
  }

  lemma SideFrame(c: Config, s: State, step: Step)
    requires IsSideStep(step)
    ensures NamesUntouched(s, Apply(c, s, step))
  {
    SideEffect(c, s, step);
  }

  lemma NamesFrame(c: Config, s: State, step: Step)
    requires Kept(c, s) && !IsNameStep(step)
    ensures NamesUntouched(s, Apply(c, s, step))
  {
    match step
    case CreateRepository(name, tenant, immutable, quota) => CreateFrame(c, s, name, tenant, immutable, quota);
    case StartUpload(repo, expected, id, token, now) => StartFrame(c, s, repo, expected, id, token, now);
    case UploadChunk(repo, id, token, r, data, now) =>
      if r.Valid() { ChunkFrame(c, s, repo, id, token, r, data, now); }
    case CompleteUpload(repo, id, token, d, now) => CompleteFrame(c, s, repo, id, token, d, now);
    case AbortUpload(repo, id, token) => AbortFrame(c, s, repo, id, token);
    case CleanUp(now) => CleanFrame(s, now);
    case _ => SideFrame(c, s, step);
  }
}
