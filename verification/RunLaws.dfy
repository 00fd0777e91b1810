/** What holds in every state that a run reaches. */
module RunLaws {
  import opened Basics
  import opened Ranges
  import opened Artifacts
  import opened Upload
  import opened Objects
  import opened Store
  import opened Registry
  import opened Collection
  import opened CollectionLaws
  import opened Runs
  import opened Effects
  import opened RunInvariants

  // ---------------------------------------------------------------- uploads

  /** An upload can be finalized exactly when it is open, unexpired, of the announced size, and its recorded
      chunks cut the temp file into pieces; its reserved bytes are then the file's size. */
  lemma FinalizingMeansTiling(c: Config, steps: seq<Step>, id: string, now: int)
    requires 0 <= c.defaultQuota
    ensures
      var s := Reached(c, steps);
      id in s.uploads && TempKey(id) in s.files ==>
        var u, size := s.uploads[id], |s.files[TempKey(id)]|;
        && (PassesGuard(s, id, now) <==>
              && u.state == Open && now <= u.expiresAt
              && (u.expectedSize.Some? ==> size == u.expectedSize.value)
              && Tiles(RangesOf(u.chunks), size))
        && (PassesGuard(s, id, now) ==> u.reservedBytes == size)
  {
    RunsKeep(c, steps);
    var s := Reached(c, steps);
    if id in s.uploads && TempKey(id) in s.files {
      assert SessionKept(s, id);
      if s.uploads[id].state == Open { CanFinalizeIffTiled(s.uploads[id], |s.files[TempKey(id)]|, now); }
    }
  }

  /** A completed upload has catalogued the bytes its chunks wrote, all of them. */
  lemma CompletedUploadsAreTiled(c: Config, steps: seq<Step>, repo: string, id: string, token: string, d: Digest,
                                 now: int)
    requires 0 <= c.defaultQuota
    requires UploadCompleted(c, Reached(c, steps), repo, id, token, d, now).1.Success?
    ensures
      var s, r := Reached(c, steps), UploadCompleted(c, Reached(c, steps), repo, id, token, d, now);
      && id in s.uploads && TempKey(id) in s.files
      && c.hash(s.files[TempKey(id)]) == d
      && r.1.value == Blob(d, |s.files[TempKey(id)]|, 0, BlobKey(d))
      && Tiles(RangesOf(s.uploads[id].chunks), r.1.value.size)
      && d in r.0.blobs
  {
    var s := Reached(c, steps);
    RunsKeep(c, steps);
    assert SessionKept(s, id);
    FinalizingMeansTiling(c, steps, id, now);
    var u, data := s.uploads[id], s.files[TempKey(id)];
    var v := Finalized(u).0;
    assert UpdatedUpload(s, v, u.version) == (WithSession(s, id, v), Pass);
    CompleteEffect(c, s, repo, id, token, d, now);
    var b, w := Blob(d, |data|, 0, BlobKey(d)), WithSession(s, id, v);
    FinalizingContent(c.hash, s, id, v);
    StoredEffect(c.hash, w, v, d, data);
    AfterGuardShape(c, w, id, d);
  }

  /** The object of a catalogued blob, and what its reads return. */
  lemma ReadsOfBlob(hash: Hash, s: State, repo: string, d: Digest, file: Bytes)
    requires repo in s.repos && d in s.blobs && BlobHolds(hash, s, d) && file == s.files[BlobKey(d)]
    ensures BlobRead(s, repo, d, None) == Success(file) && hash(file) == d && |file| == s.blobs[d].size
    ensures file != [] ==> forall r: ByteRange :: BlobRead(s, repo, d, Some(r)) == Opened(s.files, BlobKey(d), r)
  {
    if file == [] {
      assert BlobRead(s, repo, d, None) == Success([]);
    } else {
      assert file[0..|file|] == file;
      assert Opened(s.files, BlobKey(d), ByteRange(0, |file| - 1)) == Success(file);
    }
  }

  /** Reading a catalogued blob returns bytes that hash to its digest; a range returns the bytes in it. */
  lemma ReadsAreAddressed(c: Config, steps: seq<Step>, repo: string, d: Digest) returns (whole: Bytes)
    requires 0 <= c.defaultQuota && repo in Reached(c, steps).repos && d in Reached(c, steps).blobs
    ensures c.hash(whole) == d && |whole| == Reached(c, steps).blobs[d].size
    ensures BlobRead(Reached(c, steps), repo, d, None) == Success(whole)
    ensures forall r: ByteRange :: whole != [] ==>
      BlobRead(Reached(c, steps), repo, d, Some(r)) ==
        if 0 <= r.start <= r.end < |whole| then Success(whole[r.start..r.end + 1]) else Failure(InvalidRange)
  {
    RunsKeep(c, steps);
    var s := Reached(c, steps);
    assert BlobHolds(c.hash, s, d);
    whole := s.files[BlobKey(d)];
    ReadsOfBlob(c.hash, s, repo, d, whole);
  }

  // ---------------------------------------------------------------- quotas

  /** No run drives a tenant's quota below zero or over its limit. */
  lemma QuotasStayWithinLimit(c: Config, steps: seq<Step>, tenant: string)
    requires 0 <= c.defaultQuota
    ensures
      var s := Reached(c, steps);
      tenant in s.quotas ==>
        0 <= s.quotas[tenant].used && 0 <= s.quotas[tenant].reserved
        && s.quotas[tenant].used + s.quotas[tenant].reserved <= s.quotas[tenant].limit
  {
    RunsKeep(c, steps);
  }

  // ---------------------------------------------------------------- referential integrity

  /** A collection that exposes no reference. */
  ghost predicate Safe(s: State, step: Step) {
    step.CollectGarbage? && step.deletions != [] ==> forall r, d, x :: !Exposed(s, step.gc, r, d, x)
  }

  ghost predicate IsSafeRun(c: Config, steps: seq<Step>) {
    steps == [] ||
    (&& IsSafeRun(c, steps[..|steps| - 1])
     && Enabled(Reached(c, steps[..|steps| - 1]), steps[|steps| - 1])
     && Safe(Reached(c, steps[..|steps| - 1]), steps[|steps| - 1]))
  }

  lemma MoreBlobs(s: State, t: State)
    requires ReferencesStored(s) && t.manifests == s.manifests && forall d :: d in s.blobs ==> d in t.blobs
    ensures ReferencesStored(t)
  {
    assert forall r :: ManifestsOf(t, r) == ManifestsOf(s, r);
  }

  lemma PutManifestReferences(s: State, repo: string, m: Manifest)
    requires ReferencesStored(s) && repo in s.repos && forall i :: 0 <= i < |m.RefList()| ==> m.RefList()[i] in s.blobs
    ensures ReferencesStored(Store.PutManifest(s, repo, m).0)
  {
    PutManifestEffect(s, repo, m);
  }

  lemma ManifestPutReferences(s: State, repo: string, reference: Reference, parsed: Manifest, now: int)
    requires ReferencesStored(s)
    ensures ReferencesStored(ManifestPut(s, repo, reference, parsed, now).0)
  {
    var m := parsed.(createdAt := now);
    if repo in s.repos && m.size <= MAX_MANIFEST_SIZE &&
       forall i :: 0 <= i < |m.RefList()| ==> m.RefList()[i] in s.blobs
    {
      var t := Store.PutManifest(s, repo, m).0;
      PutManifestReferences(s, repo, m);
      if reference.ByTag? {
        TagMovedFrame(t, repo, reference.name, m.digest);
        MoreBlobs(t, TagMoved(t, repo, reference.name, m.digest).0);
      }
    }
  }

  lemma ManifestDeletedReferences(s: State, repo: string, d: Digest)
    requires ReferencesStored(s)
    ensures ReferencesStored(ManifestDeleted(s, repo, d).0)
  {
    DropManifestEffect(s, repo, d, Deleted(s, DropManifest(repo, d)));
  }

  lemma PutReferences(c: Config, s: State, step: Step)
    requires step.PutManifest? && ReferencesStored(s)
    ensures ReferencesStored(Apply(c, s, step))
  {
    ManifestPutReferences(s, step.repo, step.reference, step.parsed, step.now);
  }

  lemma DeleteReferences(c: Config, s: State, step: Step)
    requires step.DeleteManifest? && ReferencesStored(s)
    ensures ReferencesStored(Apply(c, s, step))
  {
    ManifestDeletedReferences(s, step.repo, step.digest);
  }

  lemma CollectReferences(c: Config, s: State, step: Step)
    requires step.CollectGarbage? && Kept(c, s) && Integrity(s) && Enabled(s, step) && Safe(s, step)
    ensures ReferencesStored(Apply(c, s, step))
  {
    if step.deletions != [] {
      EveryDeletionIsSafe(s, step.gc, step.deletions, |step.deletions|);
      assert step.deletions[..|step.deletions|] == step.deletions;
    }
  }

  lemma OtherReferences(c: Config, s: State, step: Step)
    requires !IsNameStep(step) && Kept(c, s) && ReferencesStored(s)
    ensures ReferencesStored(Apply(c, s, step))
  {
    NamesFrame(c, s, step);
    MoreBlobs(s, Apply(c, s, step));
  }

  lemma StepReferences(c: Config, s: State, step: Step)
    requires Kept(c, s) && Integrity(s) && Enabled(s, step) && Safe(s, step)
    ensures ReferencesStored(Apply(c, s, step))
  {
    match step
    case PutManifest(_, _, _, _) => PutReferences(c, s, step);
    case DeleteManifest(_, _) => DeleteReferences(c, s, step);
    case CollectGarbage(_, _) => CollectReferences(c, s, step);
    case _ => OtherReferences(c, s, step);
  }

  /** Referential integrity holds in every state that a run reaches, if its collections expose nothing. */
  lemma {:induction false} SafeRunsKeepIntegrity(c: Config, steps: seq<Step>)
    requires 0 <= c.defaultQuota && IsSafeRun(c, steps)
    ensures Integrity(Reached(c, steps))
    decreases |steps|
  {
    RunsKeep(c, steps);
    if steps != [] {
      RunsKeep(c, steps[..|steps| - 1]);
      SafeRunsKeepIntegrity(c, steps[..|steps| - 1]);
      StepReferences(c, Reached(c, steps[..|steps| - 1]), steps[|steps| - 1]);
    }
  }

  /** And inside such a collection it holds after every single deletion. */
  lemma SafeCollectionsKeepIntegrity(c: Config, steps: seq<Step>, g: Gc, deletions: seq<Deletion>, k: nat)
    requires 0 <= c.defaultQuota && IsSafeRun(c, steps + [CollectGarbage(g, deletions)]) && k <= |deletions|
    ensures Integrity(Swept(Reached(c, steps), deletions[..k]))
  {
    var all := steps + [CollectGarbage(g, deletions)];
    assert all[..|all| - 1] == steps;
    RunsKeep(c, steps);
    SafeRunsKeepIntegrity(c, steps);
    if deletions != [] { EveryDeletionIsSafe(Reached(c, steps), g, deletions, k); }
  }

  /** Tags never dangle, whatever the collections expose. */
  lemma TagsNeverDangle(c: Config, steps: seq<Step>, repo: string, name: string)
    requires 0 <= c.defaultQuota
    ensures
      var s := Reached(c, steps);
      name in TagsOf(s, repo) ==> TagsOf(s, repo)[name].digest in ManifestsOf(s, repo)
  {
    RunsKeep(c, steps);
  }

  // ---------------------------------------------------------------- garbage collection in a run

  /** After any collection in any run, the janitor finds no orphan. */
  lemma NoOrphanAfterCollection(c: Config, steps: seq<Step>, g: Gc, deletions: seq<Deletion>, x: Digest)
    requires 0 <= c.defaultQuota
    requires OrdersOf(Reached(c, steps), g) && IsSweep(Reached(c, steps), g, deletions)
    ensures !Orphan(Swept(Reached(c, steps), deletions), x)
  {
    var s := Reached(c, steps);
    RunsKeep(c, steps);
    SweptKeeps(c, s, deletions);
    assert forall b :: b in Swept(s, deletions).blobs ==> BlobHolds(c.hash, Swept(s, deletions), b);
    if Orphan(Swept(s, deletions), x) { NoOrphanIsLeft(s, g, deletions, x); }
  }

  /** A collection right after another one, with the same clock reading and filter, deletes nothing. */
  lemma SecondCollectionIsEmpty(c: Config, steps: seq<Step>, g: Gc, deletions: seq<Deletion>, h: Gc,
                                more: seq<Deletion>)
    requires 0 <= c.defaultQuota
    requires OrdersOf(Reached(c, steps), g) && IsSweep(Reached(c, steps), g, deletions)
    requires OrdersOf(Swept(Reached(c, steps), deletions), h) && IsSweep(Swept(Reached(c, steps), deletions), h, more)
    requires h.filter == g.filter && h.now == g.now
    requires forall r :: InScope(g.filter, r) ==> DistinctTimes(ManifestsOf(Reached(c, steps), r))
    requires forall r :: InScope(g.filter, r) ==> |TagsOf(Reached(c, steps), r)| <= TAG_PAGE
    ensures more == []
  {
    var s := Reached(c, steps);
    RunsKeep(c, steps);
    forall r | InScope(g.filter, r) ensures FewTags(s, r) {
      forall n | n in TagsOf(s, r) ensures n != "" { assert NamedTag(n, TagsOf(s, r)[n]); }
    }
    forall b | b in s.blobs ensures s.blobs[b].references <= 0 {
      assert BlobHolds(c.hash, s, b);
    }
    SecondRunFindsNothing(s, g, deletions, Swept(s, deletions), h, more);
  }
}
