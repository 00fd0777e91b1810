/** Calls that leave an upload session alone. */
module Interference {
  import opened Basics
  import opened Ranges
  import opened Text
  import opened Artifacts
  import opened Upload
  import opened Objects
  import opened Store
  import opened Registry
  import opened Collection
  import opened Janitor
  import opened Runs
  import opened Effects
  import opened RunInvariants

  /** A call on something else than this session, and no clean-up after it has expired. */
  predicate Foreign(step: Step, id: string, expiresAt: int) {
    && (step.UploadChunk? || step.CompleteUpload? || step.AbortUpload? ==> step.id != id)
    && (step.CleanUp? ==> step.now <= expiresAt)
  }

  /** The session, its temp file and its repository are as before. */
  ghost predicate Untouched(s: State, t: State, id: string) {
    && (id in s.uploads ==> id in t.uploads && t.uploads[id] == s.uploads[id])
    && (TempKey(id) in s.files <==> TempKey(id) in t.files)
    && FileAt(t.files, TempKey(id)) == FileAt(s.files, TempKey(id))
    && (forall r :: r in s.repos ==> r in t.repos)
  }

  lemma ForeignCompletion(c: Config, s: State, other: string, d: Digest, id: string)
    requires Kept(c, s) && other in s.uploads && TempKey(other) in s.files && id in s.uploads && id != other
    ensures Untouched(s, Completion(c, s, other, d), id)
  {
    assert SessionKept(s, other);
    var v, data := Finalized(s.uploads[other]).0, s.files[TempKey(other)];
    var w := WithSession(s, other, v);
    FinalizingContent(c.hash, s, other, v);
    AfterGuardShape(c, w, other, d);
    if c.hash(data) == d { StoredLeavesTemps(c.hash, w, v, d, data, id); }
  }

  lemma ForeignDrop(c: Config, s: State, x: Deletion, id: string)
    requires Kept(c, s)
    ensures Untouched(s, Deleted(s, x), id)
  {
    match x
    case DropManifest(r, d) => DropManifestEffect(s, r, d, Deleted(s, x));
    case DropBlob(d) =>
      if d in s.blobs {
        assert BlobHolds(c.hash, s, d);
        KeysDisjoint(id, d);
      }
  }

  lemma UntouchedTwice(s: State, t: State, u: State, id: string)
    requires Untouched(s, t, id) && Untouched(t, u, id)
    ensures Untouched(s, u, id)
  {
  }

  lemma {:induction false} ForeignSweep(c: Config, s: State, deletions: seq<Deletion>, id: string)
    requires Kept(c, s)
    ensures Untouched(s, Swept(s, deletions), id)
    decreases |deletions|
  {
    if deletions != [] {
      var before := Swept(s, deletions[..|deletions| - 1]);
      ForeignSweep(c, s, deletions[..|deletions| - 1], id);
      SweptKeeps(c, s, deletions[..|deletions| - 1]);
      ForeignDrop(c, before, deletions[|deletions| - 1], id);
      UntouchedTwice(s, before, Swept(s, deletions), id);
    }
  }

  lemma ForeignWrite(c: Config, s: State, other: string, r: ByteRange, data: Bytes, now: int, id: string)
    requires id in s.uploads && other in s.uploads && id != other
    ensures Untouched(s, Written(c, s, other, r, data, now), id)
  {
    if TempKey(id) == TempKey(other) { TempKeyInjective(id, other); }
  }

  lemma ForeignChunk(c: Config, s: State, step: Step, id: string)
    requires step.UploadChunk? && Kept(c, s) && id in s.uploads && id != step.id
    ensures Untouched(s, Apply(c, s, step), id)
  {
    assert step.id in s.uploads ==> SessionKept(s, step.id);
    if step.range.Valid() {
      ChunkEffect(c, s, step.repo, step.id, step.token, step.range, step.data, step.now);
      if Writes(c, s, step.repo, step.id, step.token, step.range, step.data) {
        ForeignWrite(c, s, step.id, step.range, step.data, step.now, id);
      }
    }
  }

  lemma ForeignComplete(c: Config, s: State, step: Step, id: string)
    requires step.CompleteUpload? && Kept(c, s) && id in s.uploads && id != step.id
    ensures Untouched(s, Apply(c, s, step), id)
  {
    assert step.id in s.uploads ==> SessionKept(s, step.id);
    CompleteEffect(c, s, step.repo, step.id, step.token, step.digest, step.now);
    if Addresses(s, step.repo, step.id, step.token) && PassesGuard(s, step.id, step.now) {
      ForeignCompletion(c, s, step.id, step.digest, id);
    }
  }

  lemma ForeignAbort(c: Config, s: State, step: Step, id: string)
    requires step.AbortUpload? && Kept(c, s) && id in s.uploads && id != step.id
    ensures Untouched(s, Apply(c, s, step), id)
  {
    assert step.id in s.uploads ==> SessionKept(s, step.id);
    AbortEffect(s, step.repo, step.id, step.token);
    ReservationFrame(s, step.id);
    if TempKey(id) == TempKey(step.id) { TempKeyInjective(id, step.id); }
  }

  lemma ForeignClean(c: Config, s: State, step: Step, id: string)
    requires step.CleanUp? && id in s.uploads && step.now <= s.uploads[id].expiresAt
    ensures Untouched(s, Apply(c, s, step), id)
  {
    var ids := ExpiredIds(s, step.now);
    KeysAreApart();
    assert TempKey(id) !in TempKeys(ids);
  }

  lemma ForeignCollect(c: Config, s: State, step: Step, id: string)
    requires step.CollectGarbage? && Kept(c, s)
    ensures Untouched(s, Apply(c, s, step), id)
  {
    ForeignSweep(c, s, step.deletions, id);
  }

  lemma CreatedUntouched(c: Config, s: State, name: string, tenant: string, immutable: bool, quota: int, id: string)
    ensures Untouched(s, RepositoryCreated(c, s, name, tenant, immutable, quota).0, id)
  {
    var t := RepositoryCreated(c, s, name, tenant, immutable, quota).0;
    CreateEffect(c, s, name, tenant, immutable, quota);
    if TrimSpace(tenant) == "" || name in s.repos {
      assert t == s;
    } else {
      assert t.uploads == s.uploads && t.files == s.files;
    }
  }

  lemma ForeignCreate(c: Config, s: State, step: Step, id: string)
    requires step.CreateRepository?
    ensures Untouched(s, Apply(c, s, step), id)
  {
    CreatedUntouched(c, s, step.name, step.tenant, step.immutable, step.quota, id);
  }

  lemma ForeignPut(c: Config, s: State, step: Step, id: string)
    requires step.PutManifest?
    ensures Untouched(s, Apply(c, s, step), id)
  {
    ManifestPutFrame(s, step.repo, step.reference, step.parsed, step.now);
  }

  lemma ForeignDelete(c: Config, s: State, step: Step, id: string)
    requires step.DeleteManifest?
    ensures Untouched(s, Apply(c, s, step), id)
  {
  }

  lemma ForeignSide(c: Config, s: State, step: Step, id: string)
    requires IsSideStep(step)
    ensures Untouched(s, Apply(c, s, step), id)
  {
    SideEffect(c, s, step);
  }

  lemma ForeignStart(c: Config, s: State, step: Step, id: string)
    requires step.StartUpload?
    ensures Untouched(s, Apply(c, s, step), id)
  {
    StartEffect(c, s, step.repo, step.expected, step.id, step.token, step.now);
  }

  lemma ForeignUpload(c: Config, s: State, step: Step, id: string)
    requires step.UploadChunk? || step.CompleteUpload? || step.AbortUpload?
    requires Kept(c, s) && id in s.uploads && id != step.id
    ensures Untouched(s, Apply(c, s, step), id)
  {
    match step
    case UploadChunk(_, _, _, _, _, _) => ForeignChunk(c, s, step, id);
    case CompleteUpload(_, _, _, _, _) => ForeignComplete(c, s, step, id);
    case AbortUpload(_, _, _) => ForeignAbort(c, s, step, id);
  }

  lemma ForeignName(c: Config, s: State, step: Step, id: string)
    requires IsNameStep(step) && Kept(c, s)
    ensures Untouched(s, Apply(c, s, step), id)
  {
    match step
    case PutManifest(_, _, _, _) => ForeignPut(c, s, step, id);
    case DeleteManifest(_, _) => ForeignDelete(c, s, step, id);
    case CollectGarbage(_, _) => ForeignCollect(c, s, step, id);
  }

  lemma ForeignStep(c: Config, s: State, step: Step, id: string)
    requires Kept(c, s) && id in s.uploads && Foreign(step, id, s.uploads[id].expiresAt)
    ensures Untouched(s, Apply(c, s, step), id)
  {
    if step.UploadChunk? || step.CompleteUpload? || step.AbortUpload? {
      ForeignUpload(c, s, step, id);
    } else if IsNameStep(step) {
      ForeignName(c, s, step, id);
    } else if IsSideStep(step) {
      ForeignSide(c, s, step, id);
    } else if step.CreateRepository? {
      ForeignCreate(c, s, step, id);
    } else if step.StartUpload? {
      ForeignStart(c, s, step, id);
    } else {
      ForeignClean(c, s, step, id);
    }
  }
}
