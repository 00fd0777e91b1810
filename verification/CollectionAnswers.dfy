/** What a collection deletes and what it leaves, in terms of the stored entries alone. */
module CollectionAnswers {
  import opened Ordering
  import opened Artifacts
  import opened Pages
  import opened Policy
  import opened Store
  import opened Collection
  import opened CollectionLaws

  /** A policy that is switched on and made for the repository keeps a manifest of this age at this place. */
  predicate PolicyKeeps(p: RetentionPolicy, repo: string, place: int, createdAt: int, now: int) {
    p.enabled && p.repositoryPrefix <= repo && (place < p.keepLast || (0 < p.maxAge && now < createdAt + p.maxAge))
  }

  ghost predicate SomePolicyKeeps(s: State, repo: string, place: int, createdAt: int, now: int) {
    exists id :: id in s.policies && PolicyKeeps(s.policies[id], repo, place, createdAt, now)
  }

  /** Among the sorted tag names, the one at this place points to the digest, and is not the last of a block of 1001. */
  ghost predicate CountedTag(s: State, repo: string, k: int, d: Digest) {
    var names := SortedNames(TagsOf(s, repo).Keys);
    0 <= k < |names| && k % 1001 != 1000 && names[k] in TagsOf(s, repo) && TagsOf(s, repo)[names[k]].digest == d
  }

  ghost predicate HasCountedTag(s: State, repo: string, d: Digest) {
    exists k :: CountedTag(s, repo, k, d)
  }

  lemma TaggedIffCounted(s: State, repo: string, d: Digest)
    requires "" !in TagsOf(s, repo)
    ensures Tagged(s, repo, d) <==> HasCountedTag(s, repo, d)
  {
    TaggedIffSeen(s, repo, d);
    var names := SortedNames(TagsOf(s, repo).Keys);
    forall k ensures SeenAt(s, repo, names, k, d) <==> CountedTag(s, repo, k, d) {
    }
    if Seen(s, repo, d) {
      var k :| SeenAt(s, repo, names, k, d);
      assert CountedTag(s, repo, k, d);
    }
    if HasCountedTag(s, repo, d) {
      var k :| CountedTag(s, repo, k, d);
      assert SeenAt(s, repo, names, k, d);
    }
  }

  lemma RetainedIffKept(s: State, repo: string, place: int, createdAt: int, now: int)
    ensures Retained(s, repo, place, createdAt, now) <==> SomePolicyKeeps(s, repo, place, createdAt, now)
  {
    forall id | id in s.policies
      ensures s.policies[id].Keeps(repo, place, createdAt, now) <==>
        PolicyKeeps(s.policies[id], repo, place, createdAt, now)
    {
    }
    if Retained(s, repo, place, createdAt, now) {
      var id :| id in s.policies && s.policies[id].Keeps(repo, place, createdAt, now);
      assert PolicyKeeps(s.policies[id], repo, place, createdAt, now);
    }
    if SomePolicyKeeps(s, repo, place, createdAt, now) {
      var id :| id in s.policies && PolicyKeeps(s.policies[id], repo, place, createdAt, now);
      assert s.policies[id].Keeps(repo, place, createdAt, now);
    }
  }

  // ---------------------------------------------------------------- manifests

  lemma NothingDropped(s: State, deletions: seq<Deletion>, t: State, r: string)
    requires Leaves(s, deletions, t) && forall d :: DropManifest(r, d) !in deletions
    ensures ManifestsOf(t, r) == ManifestsOf(s, r) && TagsOf(t, r) == TagsOf(s, r)
  {
    forall n | n in TagsOf(s, r) ensures TagLeft(s, deletions, r, n) {
    }
  }

  /** A run that names a repository touches no other one: neither its manifests nor its tags. */
  lemma OtherRepositoriesStay(s: State, g: Gc, deletions: seq<Deletion>, r: string)
    requires OrdersOf(s, g) && IsSweep(s, g, deletions) && g.filter != "" && r != g.filter
    ensures ManifestsOf(Swept(s, deletions), r) == ManifestsOf(s, r)
    ensures TagsOf(Swept(s, deletions), r) == TagsOf(s, r)
  {
    SweptLeaves(s, deletions);
    forall d ensures DropManifest(r, d) !in deletions {
      assert !Candidate(s, g, r, d);
    }
    NothingDropped(s, deletions, Swept(s, deletions), r);
  }

  /** The newest-first place at which the run saw the manifest. */
  ghost predicate SeenAtPlace(g: Gc, r: string, place: int, d: Digest) {
    r in g.orders && 0 <= place < |g.orders[r]| && g.orders[r][place].digest == d
  }

  lemma CandidateIff(s: State, g: Gc, r: string, place: int, d: Digest)
    requires OrdersOf(s, g) && SeenAtPlace(g, r, place, d) && "" !in TagsOf(s, r)
    ensures Candidate(s, g, r, d) <==>
      && (g.filter == "" || r == g.filter)
      && !HasCountedTag(s, r, d) && !SomePolicyKeeps(s, r, place, g.orders[r][place].createdAt, g.now)
  {
    TaggedIffCounted(s, r, d);
    RetainedIffKept(s, r, place, g.orders[r][place].createdAt, g.now);
    if Candidate(s, g, r, d) {
      var i :| 0 <= i < |g.orders[r]| && g.orders[r][i].digest == d && CandidateAt(s, r, g.orders[r], i, g.now);
      assert i == place;
    }
  }

  /** A manifest survives exactly when its repository is not the one the run names, or a tag that counts points to it,
      or an enabled policy for its repository keeps it by its place or by its age. */
  lemma ManifestSurvivesIff(s: State, g: Gc, deletions: seq<Deletion>, r: string, place: int, d: Digest)
    requires KeyedManifests(s) && OrdersOf(s, g) && IsSweep(s, g, deletions)
    requires SeenAtPlace(g, r, place, d) && "" !in TagsOf(s, r)
    ensures d in ManifestsOf(s, r)
    ensures d in ManifestsOf(Swept(s, deletions), r) <==>
      || (g.filter != "" && r != g.filter)
      || HasCountedTag(s, r, d) || SomePolicyKeeps(s, r, place, g.orders[r][place].createdAt, g.now)
  {
    SweptLeaves(s, deletions);
    CandidateIff(s, g, r, place, d);
  }

  // ---------------------------------------------------------------- blobs

  /** No repository loses a manifest of this digest. */
  ghost predicate KeptEverywhere(s: State, t: State, d: Digest) {
    forall q :: d in ManifestsOf(s, q) ==> d in ManifestsOf(t, q)
  }

  /** A manifest that is left protects the blob: in a repository that the run looks at by its own digest, and when no
      repository loses it also by what it references. */
  ghost predicate Protects(s: State, t: State, g: Gc, r: string, d: Digest, x: Digest) {
    d in ManifestsOf(t, r) &&
    (((g.filter == "" || r == g.filter) && d == x) ||
     (KeptEverywhere(s, t, d) && (d == x || x in ManifestsOf(t, r)[d].RefList())))
  }

  lemma KeptIffNowhereCandidate(s: State, g: Gc, deletions: seq<Deletion>, d: Digest)
    requires KeyedManifests(s) && OrdersOf(s, g) && IsSweep(s, g, deletions)
    ensures KeptEverywhere(s, Swept(s, deletions), d) <==> !CandidateSomewhere(s, g, d)
  {
    SweptLeaves(s, deletions);
    if q :| Candidate(s, g, q, d) {
      var i :| 0 <= i < |g.orders[q]| && g.orders[q][i].digest == d && CandidateAt(s, q, g.orders[q], i, g.now);
      assert d in ManifestsOf(s, q);
      assert DropManifest(q, d) in deletions;
    }
  }

  lemma ProtectedIsMarked(s: State, g: Gc, deletions: seq<Deletion>, r: string, d: Digest, x: Digest)
    requires KeyedManifests(s) && OrdersOf(s, g) && IsSweep(s, g, deletions)
    requires Protects(s, Swept(s, deletions), g, r, d, x)
    ensures Marked(s, g, x)
  {
    SweptLeaves(s, deletions);
    KeptIffNowhereCandidate(s, g, deletions, d);
    if CandidateSomewhere(s, g, d) {
      var i := StoredIsListed(s, g, r, d);
      assert DropManifest(r, d) !in deletions;
      assert !CandidateAt(s, r, g.orders[r], i, g.now);
      assert Tagged(s, r, d) || RetainedAt(s, r, g.orders[r], i, g.now);
      assert MarkedByScope(s, g, r, x);
    } else {
      LiveProtects(s, g, r, d, x);
    }
  }

  lemma ScopeProtects(s: State, g: Gc, deletions: seq<Deletion>, t: State, r: string, x: Digest)
    requires KeyedManifests(s) && TagsStored(s) && OrdersOf(s, g) && IsSweep(s, g, deletions)
    requires Leaves(s, deletions, t) && MarkedByScope(s, g, r, x)
    ensures Protects(s, t, g, r, x, x)
  {
    ScopeIsNoCandidate(s, g, r, x);
    assert x in ManifestsOf(s, r);
  }

  lemma LiveIsProtected(s: State, g: Gc, deletions: seq<Deletion>, r: string, i: int, x: Digest)
    requires KeyedManifests(s) && OrdersOf(s, g) && IsSweep(s, g, deletions)
    requires Live(s, g, r, i) && Mentions(g.orders[r][i], x)
    ensures Protects(s, Swept(s, deletions), g, r, g.orders[r][i].digest, x)
  {
    var d := g.orders[r][i].digest;
    SweptLeaves(s, deletions);
    KeptIffNowhereCandidate(s, g, deletions, d);
    assert DropManifest(r, d) !in deletions;
    assert ManifestsOf(s, r)[d] == g.orders[r][i];
  }

  lemma MarkedIsProtected(s: State, g: Gc, deletions: seq<Deletion>, x: Digest) returns (r: string, d: Digest)
    requires KeyedManifests(s) && TagsStored(s) && OrdersOf(s, g) && IsSweep(s, g, deletions) && Marked(s, g, x)
    ensures Protects(s, Swept(s, deletions), g, r, d, x)
  {
    r :| MarkedByScope(s, g, r, x) || MarkedByLive(s, g, r, x);
    if MarkedByScope(s, g, r, x) {
      d := x;
      SweptLeaves(s, deletions);
      ScopeProtects(s, g, deletions, Swept(s, deletions), r, x);
    } else {
      var i :| Live(s, g, r, i) && Mentions(g.orders[r][i], x);
      d := g.orders[r][i].digest;
      LiveIsProtected(s, g, deletions, r, i, x);
    }
  }

  /** A blob survives exactly when it counts as referenced or a manifest that is left protects it. */
  lemma BlobSurvivesIff(s: State, g: Gc, deletions: seq<Deletion>, x: Digest)
    requires KeyedManifests(s) && TagsStored(s) && OrdersOf(s, g) && IsSweep(s, g, deletions) && x in s.blobs
    ensures x in Swept(s, deletions).blobs <==>
      s.blobs[x].references > 0 || exists r, d :: Protects(s, Swept(s, deletions), g, r, d, x)
  {
    SweptLeaves(s, deletions);
    assert DropBlob(x) in deletions <==> !Marked(s, g, x);
    if Marked(s, g, x) {
      var r, d := MarkedIsProtected(s, g, deletions, x);
    }
    if r, d :| Protects(s, Swept(s, deletions), g, r, d, x) { ProtectedIsMarked(s, g, deletions, r, d, x); }
  }

  /** An orphan is a stored blob that no stored manifest of any repository is or names. */
  lemma OrphanIff(s: State, x: Digest)
    ensures Orphan(s, x) <==>
      x in s.blobs &&
      forall r, d :: d in ManifestsOf(s, r) ==> ManifestsOf(s, r)[d].digest != x && !ManifestsOf(s, r)[d].Names(x)
  {
    forall r, d | d in ManifestsOf(s, r)
      ensures Mentions(ManifestsOf(s, r)[d], x) <==>
        ManifestsOf(s, r)[d].digest == x || ManifestsOf(s, r)[d].Names(x)
    {
      ReferencesAreNames(ManifestsOf(s, r)[d]);
    }
  }
}
