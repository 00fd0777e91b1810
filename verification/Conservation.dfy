/** Exact quota bookkeeping: reserved bytes are the announced sizes of the uploads under way. */
module Conservation {
  import opened Basics
  import opened Text
  import opened Ranges
  import opened Artifacts
  import opened Upload
  import opened Policy
  import opened Store
  import opened Registry
  import opened Collection
  import opened Janitor
  import opened Runs
  import opened Effects
  import opened RunInvariants

  predicate UnderWay(u: SessionValue) { u.state == Open || u.state == Finalizing }

  /** What the session holds of the tenant's quota. */
  function Owed(u: SessionValue, tenant: string): int {
    if u.tenant == tenant && UnderWay(u) && u.expectedSize.Some? then u.expectedSize.value else 0
  }

  ghost function Pending(uploads: map<string, SessionValue>, tenant: string): int
    decreases |uploads|
  {
    if uploads == map[] then 0
    else
      var id :| id in uploads;
      Owed(uploads[id], tenant) + Pending(uploads - {id}, tenant)
  }

  lemma {:induction false} PendingSplits(uploads: map<string, SessionValue>, tenant: string, id: string)
    requires id in uploads
    ensures Pending(uploads, tenant) == Owed(uploads[id], tenant) + Pending(uploads - {id}, tenant)
    decreases |uploads|
  {
    var first :| first in uploads &&
      Pending(uploads, tenant) == Owed(uploads[first], tenant) + Pending(uploads - {first}, tenant);
    if first != id {
      PendingSplits(uploads - {first}, tenant, id);
      PendingSplits(uploads - {id}, tenant, first);
      assert uploads - {first} - {id} == uploads - {id} - {first};
    }
  }

  /** The reserved bytes of every tenant are the sizes announced by its uploads under way. */
  ghost predicate Conserved(s: State) {
    && (forall r :: r in s.repos ==> s.repos[r].tenant in s.quotas)
    && (forall id :: id in s.uploads ==> s.uploads[id].tenant in s.quotas)
    && (forall tenant :: tenant in s.quotas ==> s.quotas[tenant].reserved == Pending(s.uploads, tenant))
  }

  lemma PendingUpdated(uploads: map<string, SessionValue>, tenant: string, id: string, u: SessionValue)
    ensures Pending(uploads[id := u], tenant) ==
      Pending(uploads, tenant) - (if id in uploads then Owed(uploads[id], tenant) else 0) + Owed(u, tenant)
  {
    PendingSplits(uploads[id := u], tenant, id);
    assert uploads[id := u] - {id} == uploads - {id};
    if id in uploads {
      PendingSplits(uploads, tenant, id);
    } else {
      assert uploads - {id} == uploads;
    }
  }

  ghost predicate SizesOk(uploads: map<string, SessionValue>) {
    forall id :: id in uploads && uploads[id].expectedSize.Some? ==> 0 <= uploads[id].expectedSize.value
  }

  lemma {:induction false} PendingIsNat(uploads: map<string, SessionValue>, tenant: string)
    requires SizesOk(uploads)
    ensures 0 <= Pending(uploads, tenant)
    ensures Pending(uploads, tenant) == 0 <==> forall id :: id in uploads ==> Owed(uploads[id], tenant) == 0
    decreases |uploads|
  {
    if uploads != map[] {
      var id :| id in uploads;
      PendingSplits(uploads, tenant, id);
      PendingIsNat(uploads - {id}, tenant);
      assert forall i :: i in uploads <==> i == id || i in uploads - {id};
    }
  }

  /** One upload's share is no more than the sum. */
  lemma PendingCovers(uploads: map<string, SessionValue>, tenant: string, id: string)
    requires SizesOk(uploads) && id in uploads
    ensures Owed(uploads[id], tenant) <= Pending(uploads, tenant)
  {
    PendingSplits(uploads, tenant, id);
    PendingIsNat(uploads - {id}, tenant);
  }

  /** Taking sessions away lowers the sum by what they hold, which is nothing only if none of them holds anything. */
  lemma {:induction false} PendingWithout(uploads: map<string, SessionValue>, tenant: string, ids: set<string>)
    requires SizesOk(uploads) && forall id :: id in ids ==> id in uploads
    ensures Pending(uploads - ids, tenant) <= Pending(uploads, tenant)
    ensures Pending(uploads - ids, tenant) == Pending(uploads, tenant) <==>
        forall id :: id in ids ==> Owed(uploads[id], tenant) == 0
    decreases ids
  {
    if ids == {} {
      assert uploads - ids == uploads;
    } else {
      var id :| id in ids;
      var rest := uploads - {id};
      PendingSplits(uploads, tenant, id);
      PendingWithout(rest, tenant, ids - {id});
      assert rest - (ids - {id}) == uploads - ids;
      assert forall i :: i in ids <==> i == id || i in ids - {id};
    }
  }

  lemma KeptSizesOk(c: Config, s: State)
    requires Kept(c, s)
    ensures SizesOk(s.uploads)
  {
    forall id | id in s.uploads && s.uploads[id].expectedSize.Some? ensures 0 <= s.uploads[id].expectedSize.value {
      assert SessionKept(s, id);
    }
  }

  // ---------------------------------------------------------------- the ignored errors never occur

  /** Releasing or committing what an upload under way announced never fails. */
  lemma BookkeepingNeverFails(c: Config, s: State, id: string)
    requires Kept(c, s) && Conserved(s) && id in s.uploads
    requires UnderWay(s.uploads[id]) && s.uploads[id].expectedSize.Some?
    ensures
      var u := s.uploads[id];
      && u.tenant in s.quotas
      && Released(s.quotas[u.tenant], u.expectedSize.value).Success?
      && Committed(s.quotas[u.tenant], u.expectedSize.value, u.expectedSize.value).Success?
  {
    KeptSizesOk(c, s);
    PendingCovers(s.uploads, s.uploads[id].tenant, id);
  }

  // ---------------------------------------------------------------- which calls keep the books

  /** The condition under which a call keeps the books: a repository is not created for a tenant with uploads
      under way, an upload that is aborted is under way or its release is refused, and no clean-up
      removes an upload under way. */
  ghost predicate Gentle(s: State, step: Step) {
    match step
    case CreateRepository(name, tenant, _, _) =>
      name in s.repos || TrimSpace(tenant) == "" || forall id :: id in s.uploads ==> Owed(s.uploads[id], tenant) == 0
    case AbortUpload(repo, id, token) =>
      Addresses(s, repo, id, token) ==> UnderWay(s.uploads[id]) || NothingToRelease(s, s.uploads[id])
    case CleanUp(now) =>
      forall id :: id in s.uploads && IsExpired(s.uploads[id], now) ==> Owed(s.uploads[id], s.uploads[id].tenant) == 0
    case _ => true
  }

  predicate NothingToRelease(s: State, u: SessionValue) {
    || u.expectedSize.None? || u.expectedSize.value == 0
    || (u.tenant in s.quotas && u.expectedSize.value > s.quotas[u.tenant].reserved)
  }

  lemma CreateConserves(c: Config, s: State, name: string, tenant: string, immutable: bool, quota: int)
    requires Kept(c, s) && Conserved(s)
    ensures Conserved(RepositoryCreated(c, s, name, tenant, immutable, quota).0) <==>
      Gentle(s, CreateRepository(name, tenant, immutable, quota))
  {
    var t := RepositoryCreated(c, s, name, tenant, immutable, quota).0;
    if TrimSpace(tenant) != "" && name !in s.repos {
      CreateEffect(c, s, name, tenant, immutable, quota);
      KeptSizesOk(c, s);
      PendingIsNat(s.uploads, tenant);
      assert t.quotas[tenant].reserved == 0;
      CreatedConserves(s, t, name, tenant);
    }
  }

  /** A fresh quota starts with nothing reserved. */
  lemma CreatedConserves(s: State, t: State, name: string, tenant: string)
    requires Conserved(s) && name !in s.repos && t.uploads == s.uploads
    requires exists r, q ::
        t.repos == s.repos[name := r] && r.tenant == tenant && t.quotas == s.quotas[tenant := q] && q.reserved == 0
    ensures Conserved(t) <==> Pending(s.uploads, tenant) == 0
  {
  }

  /** What a settled session held is taken out of the tenant's reserved bytes. */
  lemma Settled(s: State, t: State, id: string, u: SessionValue, q: QuotaValue)
    requires Conserved(s) && id in s.uploads && t.repos == s.repos && t.uploads == s.uploads[id := u]
    requires u.tenant == s.uploads[id].tenant
    requires t.quotas == s.quotas[u.tenant := q]
    requires q.reserved == s.quotas[u.tenant].reserved - Owed(s.uploads[id], u.tenant) + Owed(u, u.tenant)
    ensures Conserved(t)
  {
    forall tenant | tenant in t.quotas ensures t.quotas[tenant].reserved == Pending(t.uploads, tenant) {
      PendingUpdated(s.uploads, tenant, id, u);
    }
  }

  /** The same for a session that is stored for the first time. */
  lemma StartedShare(s: State, t: State, id: string, u: SessionValue)
    requires Conserved(s) && id !in s.uploads && t.repos == s.repos
    requires t.uploads == s.uploads[id := u] && u.tenant in s.quotas
    requires t.quotas.Keys == s.quotas.Keys
    requires forall tenant :: tenant in s.quotas ==>
      t.quotas[tenant].reserved == s.quotas[tenant].reserved + Owed(u, tenant)
    ensures Conserved(t)
  {
    forall tenant | tenant in t.quotas ensures t.quotas[tenant].reserved == Pending(t.uploads, tenant) {
      PendingUpdated(s.uploads, tenant, id, u);
    }
  }

  /** Only the versions of quotas change. */
  lemma SameBooks(s: State, t: State)
    requires Conserved(s) && t.repos == s.repos && t.uploads == s.uploads && t.quotas.Keys == s.quotas.Keys
    requires forall tenant :: tenant in s.quotas ==> t.quotas[tenant].reserved == s.quotas[tenant].reserved
    ensures Conserved(t)
  {
  }

  lemma TakenBack(c: Config, s: State, r: State, tenant: string, n: int)
    requires Kept(c, s) && Conserved(s) && r == s.(quotas := r.quotas)
    requires r.quotas.Keys == s.quotas.Keys && tenant in s.quotas
    requires 0 <= n
    requires forall x :: x in s.quotas ==> r.quotas[x].reserved == s.quotas[x].reserved + if x == tenant then n else 0
    ensures Conserved(Release(r, tenant, n))
  {
    ReleaseEffect(r, tenant, n);
    KeptSizesOk(c, s);
    PendingIsNat(s.uploads, tenant);
    SameBooks(s, Release(r, tenant, n));
  }

  lemma StartedWith(c: Config, s: State, r: State, id: string, u: SessionValue)
    requires Kept(c, s) && Conserved(s) && r == s.(quotas := r.quotas)
    requires r.quotas.Keys == s.quotas.Keys && u.tenant in s.quotas
    requires u.state == Open && (u.expectedSize.Some? ==> 0 <= u.expectedSize.value)
    requires forall tenant :: tenant in s.quotas ==>
        r.quotas[tenant].reserved == s.quotas[tenant].reserved + Owed(u, tenant)
    ensures id !in s.uploads ==> Conserved(r.(uploads := s.uploads[id := u]))
    ensures u.expectedSize.Some? ==> Conserved(Release(r, u.tenant, u.expectedSize.value))
  {
    if id !in s.uploads { StartedShare(s, r.(uploads := s.uploads[id := u]), id, u); }
    if u.expectedSize.Some? { TakenBack(c, s, r, u.tenant, u.expectedSize.value); }
  }

  lemma StartedConserves(c: Config, s: State, u: SessionValue)
    requires Kept(c, s) && Conserved(s) && u.tenant in s.quotas
    requires u.state == Open && (u.expectedSize.Some? ==> 0 <= u.expectedSize.value)
    ensures Conserved(Started(s, u))
  {
    if u.expectedSize.Some? {
      var n := u.expectedSize.value;
      ReserveEffect(s, u.tenant, n);
      if Reserved(s.quotas[u.tenant], n).Success? { StartedWith(c, s, Reserve(s, u.tenant, n).0, u.id, u); }
    } else {
      StartedWith(c, s, s, u.id, u);
    }
  }

  lemma StartConserves(c: Config, s: State, repo: string, expected: Option<int>, id: string, token: string, now: int)
    requires Kept(c, s) && Conserved(s)
    ensures Conserved(UploadStarted(c, s, repo, expected, id, token, now).0)
  {
    StartCases(c, s, repo, expected, id, token, now);
    if repo in s.repos && !RefusedSize(c, expected) {
      StartedConserves(c, s, NewUploadSession(id, token, repo, s.repos[repo].tenant, expected, c.uploadTTL, now).value);
    }
  }

  /** A change of a session that holds what it held. */
  lemma SameShare(s: State, t: State, id: string, u: SessionValue)
    requires Conserved(s) && id in s.uploads && t.repos == s.repos
    requires t.quotas == s.quotas && t.uploads == s.uploads[id := u]
    requires u.tenant == s.uploads[id].tenant && Owed(u, u.tenant) == Owed(s.uploads[id], u.tenant)
    ensures Conserved(t)
  {
    assert t.quotas == s.quotas[u.tenant := s.quotas[u.tenant]];
    Settled(s, t, id, u, s.quotas[u.tenant]);
  }

  lemma RecordedShare(u: SessionValue, r: ByteRange, d: Digest, now: int)
    ensures Recorded(u, r, d, now).1.Pass? ==>
        var v := Recorded(u, r, d, now).0;
        v.tenant == u.tenant && Owed(v, u.tenant) == Owed(u, u.tenant)
  {
  }

  lemma WrittenConserves(c: Config, s: State, id: string, r: ByteRange, data: Bytes, now: int)
    requires Conserved(s) && id in s.uploads
    ensures Conserved(Written(c, s, id, r, data, now))
  {
    var (v, o) := Recorded(s.uploads[id], r, c.hash(data), now);
    if o.Pass? {
      RecordedShare(s.uploads[id], r, c.hash(data), now);
      SameShare(s, Written(c, s, id, r, data, now), id, v);
    } else {
      SameBooks(s, Written(c, s, id, r, data, now));
    }
  }

  lemma ChunkConserves(c: Config, s: State, repo: string, id: string, token: string, r: ByteRange, data: Bytes,
                       now: int)
    requires Kept(c, s) && Conserved(s) && r.Valid()
    ensures Conserved(ChunkUploaded(c, s, repo, id, token, r, data, now).0)
  {
    assert id in s.uploads ==> SessionKept(s, id);
    ChunkEffect(c, s, repo, id, token, r, data, now);
    if Writes(c, s, repo, id, token, r, data) { WrittenConserves(c, s, id, r, data, now); }
  }

  /** A finalizing session that is aborted or completed gives back, or uses up, what it held. */
  lemma AfterGuardConserves(c: Config, s: State, id: string, d: Digest)
    requires Kept(c, s) && Conserved(s) && id in s.uploads
    requires TempKey(id) in s.files && s.uploads[id].state == Finalizing
    requires s.uploads[id].expectedSize.Some? ==> s.uploads[id].expectedSize.value == |s.files[TempKey(id)]|
    ensures Conserved(AfterGuard(c, s, id, d))
  {
    var data, v := s.files[TempKey(id)], s.uploads[id];
    if v.expectedSize.Some? { BookkeepingNeverFails(c, s, id); }
    if c.hash(data) != d {
      RejectedConserves(s, id);
    } else {
      var b := Blob(d, |data|, 0, BlobKey(d));
      var (w, o) := BlobStored(s, v, b);
      BlobStoredKeeps(s, v, b);
      if o.Fail? { SameBooks(s, w); } else { CommittedConserves(s, w, id, |data|); }
    }
  }

  lemma RejectedConserves(s: State, id: string)
    requires Conserved(s) && id in s.uploads && UnderWay(s.uploads[id])
    requires var u := s.uploads[id];
      u.expectedSize.Some? ==> u.tenant in s.quotas && Released(s.quotas[u.tenant], u.expectedSize.value).Success?
    ensures
      var u := AbortedSession(s.uploads[id]);
      Conserved(ReleaseReservation(WithSession(s, id, u), u))
  {
    var u := AbortedSession(s.uploads[id]);
    var w := WithSession(s, id, u);
    if u.expectedSize.Some? {
      var n := u.expectedSize.value;
      ReleaseEffect(w, u.tenant, n);
      Settled(s, Release(w, u.tenant, n), id, u, Released(s.quotas[u.tenant], n).value);
    } else {
      SameShare(s, w, id, u);
    }
  }

  lemma CommittedConserves(s: State, w: State, id: string, actual: int)
    requires Conserved(s) && id in s.uploads && UnderWay(s.uploads[id])
    requires w.repos == s.repos && w.quotas == s.quotas && w.uploads == s.uploads
    requires var u := s.uploads[id];
      u.expectedSize.Some? ==>
        u.tenant in s.quotas && Committed(s.quotas[u.tenant], u.expectedSize.value, actual).Success?
    ensures
      var u := CompletedSession(s.uploads[id]);
      Conserved(CommitReservation(WithSession(w, id, u), u, actual))
  {
    var u := CompletedSession(s.uploads[id]);
    var x := WithSession(w, id, u);
    if u.expectedSize.Some? {
      var q := Committed(s.quotas[u.tenant], u.expectedSize.value, actual).value;
      assert CommitReservation(x, u, actual) == x.(quotas := s.quotas[u.tenant := q]);
      Settled(s, x.(quotas := s.quotas[u.tenant := q]), id, u, q);
    } else {
      SameShare(s, x, id, u);
    }
  }

  lemma CompleteConserves(c: Config, s: State, repo: string, id: string, token: string, d: Digest, now: int)
    requires Kept(c, s) && Conserved(s)
    ensures Conserved(UploadCompleted(c, s, repo, id, token, d, now).0)
  {
    assert id in s.uploads ==> SessionKept(s, id);
    CompleteEffect(c, s, repo, id, token, d, now);
    if Addresses(s, repo, id, token) && PassesGuard(s, id, now) {
      var v := Finalized(s.uploads[id]).0;
      FinalizingKeeps(c, s, id);
      SameShare(s, WithSession(s, id, v), id, v);
      AfterGuardConserves(c, WithSession(s, id, v), id, d);
    }
  }

  lemma FinalizingKeeps(c: Config, s: State, id: string)
    requires Kept(c, s) && id in s.uploads
    ensures Kept(c, WithSession(s, id, Finalized(s.uploads[id]).0))
  {
    var v := Finalized(s.uploads[id]).0;
    assert SessionKept(s, id);
    StateChangesKeepOk(s.uploads[id]);
    OneSessionChanged(s, WithSession(s, id, v), id);
    FinalizingContent(c.hash, s, id, v);
    SameNames(s, WithSession(s, id, v));
  }

  /** Aborting an upload keeps the books exactly when it is under way or nothing is released. */
  lemma AbortConserves(c: Config, s: State, repo: string, id: string, token: string)
    requires Kept(c, s) && Conserved(s)
    ensures Conserved(UploadAborted(s, repo, id, token).0) <==> Gentle(s, AbortUpload(repo, id, token))
  {
    assert id in s.uploads ==> SessionKept(s, id);
    AbortEffect(s, repo, id, token);
    if Addresses(s, repo, id, token) {
      var u, t := s.uploads[id], UploadAborted(s, repo, id, token).0;
      assert t.uploads == s.uploads - {id};
      if u.expectedSize.Some? {
        ReleaseEffect(s, u.tenant, u.expectedSize.value);
        if UnderWay(u) { BookkeepingNeverFails(c, s, id); }
      }
      AbortedBooks(s, t, id);
    }
  }

  lemma AbortedBooks(s: State, t: State, id: string)
    requires Conserved(s) && id in s.uploads && t.uploads == s.uploads - {id} && t.repos == s.repos
    requires var u := s.uploads[id];
      t.quotas == if u.expectedSize.Some? && Released(s.quotas[u.tenant], u.expectedSize.value).Success?
                  then s.quotas[u.tenant := Released(s.quotas[u.tenant], u.expectedSize.value).value] else s.quotas
    requires var u := s.uploads[id]; u.expectedSize.Some? ==> 0 <= u.expectedSize.value
    requires var u := s.uploads[id];
      u.expectedSize.Some? && UnderWay(u) ==> Released(s.quotas[u.tenant], u.expectedSize.value).Success?
    ensures Conserved(t) <==> UnderWay(s.uploads[id]) || NothingToRelease(s, s.uploads[id])
  {
    var u := s.uploads[id];
    forall tenant ensures Pending(t.uploads, tenant) == Pending(s.uploads, tenant) - Owed(u, tenant) {
      PendingSplits(s.uploads, tenant, id);
    }
    if UnderWay(u) || NothingToRelease(s, u) {
      assert Conserved(t);
    } else {
      assert t.quotas[u.tenant].reserved != Pending(t.uploads, u.tenant);
    }
  }

  lemma CleanConserves(c: Config, s: State, now: int)
    requires Kept(c, s) && Conserved(s)
    ensures Conserved(Cleaned(s, now)) <==> Gentle(s, CleanUp(now))
  {
    KeptSizesOk(c, s);
    FewerUploadsConserve(s, Cleaned(s, now), ExpiredIds(s, now));
  }

  lemma FewerUploadsConserve(s: State, t: State, ids: set<string>)
    requires Conserved(s) && SizesOk(s.uploads) && forall id :: id in ids ==> id in s.uploads
    requires t.repos == s.repos && t.quotas == s.quotas && t.uploads == s.uploads - ids
    ensures Conserved(t) <==> forall id :: id in ids ==> Owed(s.uploads[id], s.uploads[id].tenant) == 0
  {
    forall tenant
      ensures Pending(t.uploads, tenant) == Pending(s.uploads, tenant) <==>
          forall id :: id in ids ==> Owed(s.uploads[id], tenant) == 0
    {
      PendingWithout(s.uploads, tenant, ids);
    }
    if Conserved(t) {
      forall id | id in ids ensures Owed(s.uploads[id], s.uploads[id].tenant) == 0 {
        assert s.uploads[id].tenant in t.quotas;
      }
    }
  }

  lemma SideBooks(s: State, t: State)
    requires Conserved(s) && t.uploads == s.uploads && t.quotas == s.quotas
    requires t.repos.Keys == s.repos.Keys && forall r :: r in s.repos ==> t.repos[r].tenant == s.repos[r].tenant
    ensures Conserved(t)
  {
  }

  /** Manifests, tags, policies and collections have nothing to do with quotas. */
  lemma OtherStepsConserve(c: Config, s: State, step: Step)
    requires Conserved(s)
    requires IsNameStep(step) || IsSideStep(step)
    ensures Conserved(Apply(c, s, step))
  {
    match step
    case PutManifest(repo, reference, parsed, now) =>
      ManifestPutFrame(s, repo, reference, parsed, now);
      SameBooks(s, ManifestPut(s, repo, reference, parsed, now).0);
    case DeleteManifest(repo, d) => SameBooks(s, ManifestDeleted(s, repo, d).0);
    case CollectGarbage(_, deletions) =>
      SweptLeaves(s, deletions);
      SameBooks(s, Swept(s, deletions));
    case _ =>
      SideEffect(c, s, step);
      SideBooks(s, Apply(c, s, step));
  }

  /** A call keeps the books exactly when it is gentle. */
  lemma StepConservesIffGentle(c: Config, s: State, step: Step)
    requires Kept(c, s) && Conserved(s)
    ensures Conserved(Apply(c, s, step)) <==> Gentle(s, step)
  {
    match step
    case CreateRepository(name, tenant, immutable, quota) => CreateConserves(c, s, name, tenant, immutable, quota);
    case StartUpload(repo, expected, id, token, now) => StartConserves(c, s, repo, expected, id, token, now);
    case UploadChunk(repo, id, token, r, data, now) =>
      if r.Valid() { ChunkConserves(c, s, repo, id, token, r, data, now); }
    case CompleteUpload(repo, id, token, d, now) => CompleteConserves(c, s, repo, id, token, d, now);
    case AbortUpload(repo, id, token) => AbortConserves(c, s, repo, id, token);
    case CleanUp(now) => CleanConserves(c, s, now);
    case _ => OtherStepsConserve(c, s, step);
  }

  ghost predicate IsGentleRun(c: Config, steps: seq<Step>) {
    steps == [] ||
    (IsGentleRun(c, steps[..|steps| - 1]) && Gentle(Reached(c, steps[..|steps| - 1]), steps[|steps| - 1]))
  }

  /** The first repository of a tenant is always gentle. */
  lemma FirstRepositoryIsGentle(s: State, name: string, tenant: string, immutable: bool, quota: int)
    requires Conserved(s) && tenant !in s.quotas
    ensures Gentle(s, CreateRepository(name, tenant, immutable, quota))
  {
    assert forall id :: id in s.uploads ==> s.uploads[id].tenant != tenant;
  }

  /** A run whose calls are all gentle keeps the books. */
  lemma {:induction false} GentleRunsConserve(c: Config, steps: seq<Step>)
    requires 0 <= c.defaultQuota && IsGentleRun(c, steps)
    ensures Conserved(Reached(c, steps))
    decreases |steps|
  {
    if steps != [] {
      GentleRunsConserve(c, steps[..|steps| - 1]);
      RunsKeep(c, steps[..|steps| - 1]);
      StepConservesIffGentle(c, Reached(c, steps[..|steps| - 1]), steps[|steps| - 1]);
    }
  }
}
