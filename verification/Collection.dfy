/** Garbage collection: what a run may delete, and what its deletions leave behind. */
module Collection {
  import opened Artifacts
  import opened Pages
  import opened Store

  /** The page size of listAllTags. */
  const TAG_PAGE := 1000

  /** One run: the newest-first order it worked on in each repository, the repository filter ("" for none),
      and its clock reading. */
  datatype Gc = Gc(orders: map<string, seq<Manifest>>, filter: string, now: int)

  predicate InScope(filter: string, repo: string) { filter == "" || repo == filter }

  ghost predicate NewestFirst(order: seq<Manifest>, entries: Manifests) {
    && ListsAll(order, entries)
    && forall i, j :: 0 <= i < j < |order| ==> order[i].createdAt >= order[j].createdAt
  }

  /** The orders list every manifest of every repository that has any; those in scope are newest first,
      with equal times in any order. */
  ghost predicate OrdersOf(s: State, g: Gc) {
    && (forall r :: r in g.orders <==> r in s.manifests && s.manifests[r] != map[])
    && (forall r :: r in g.orders ==> ListsAll(g.orders[r], s.manifests[r]))
    && (forall r :: r in g.orders && InScope(g.filter, r) ==> NewestFirst(g.orders[r], s.manifests[r]))
  }

  // ---------------------------------------------------------------- mark

  /** The tag names that listAllTags returns. */
  ghost function CrawledTags(s: State, repo: string): seq<string> {
    Crawl(TagsOf(s, repo).Keys, "", TAG_PAGE)
  }

  ghost predicate Tagged(s: State, repo: string, d: Digest) {
    exists n :: n in CrawledTags(s, repo) && n in TagsOf(s, repo) && TagsOf(s, repo)[n].digest == d
  }

  /** Some policy keeps a manifest of this age at this position. */
  ghost predicate Retained(s: State, repo: string, index: int, createdAt: int, now: int) {
    exists id :: id in s.policies && s.policies[id].Keeps(repo, index, createdAt, now)
  }

  ghost predicate CandidateAt(s: State, repo: string, order: seq<Manifest>, i: int, now: int)
    requires 0 <= i < |order|
  {
    !Tagged(s, repo, order[i].digest) && !Retained(s, repo, i, order[i].createdAt, now)
  }

  ghost predicate RetainedAt(s: State, repo: string, order: seq<Manifest>, i: int, now: int)
    requires 0 <= i < |order|
  {
    !Tagged(s, repo, order[i].digest) && Retained(s, repo, i, order[i].createdAt, now)
  }

  /** The manifest is neither tagged nor retained in this repository. */
  ghost predicate Candidate(s: State, g: Gc, repo: string, d: Digest) {
    repo in g.orders && InScope(g.filter, repo) &&
    exists i :: 0 <= i < |g.orders[repo]| && g.orders[repo][i].digest == d &&
      CandidateAt(s, repo, g.orders[repo], i, g.now)
  }

  ghost predicate CandidateSomewhere(s: State, g: Gc, d: Digest) {
    exists r :: Candidate(s, g, r, d)
  }

  /** The manifest's references are followed: its digest is a candidate in no repository. */
  ghost predicate Live(s: State, g: Gc, repo: string, i: int) {
    repo in g.orders && 0 <= i < |g.orders[repo]| && !CandidateSomewhere(s, g, g.orders[repo][i].digest)
  }

  predicate Mentions(m: Manifest, d: Digest) { m.digest == d || d in m.RefList() }

  ghost predicate MarkedByScope(s: State, g: Gc, repo: string, d: Digest) {
    repo in g.orders && InScope(g.filter, repo) &&
    (Tagged(s, repo, d) ||
     exists i :: 0 <= i < |g.orders[repo]| && g.orders[repo][i].digest == d &&
       RetainedAt(s, repo, g.orders[repo], i, g.now))
  }

  ghost predicate MarkedByLive(s: State, g: Gc, repo: string, d: Digest) {
    exists i :: Live(s, g, repo, i) && Mentions(g.orders[repo][i], d)
  }

  /** The digests the run protects. */
  ghost predicate Marked(s: State, g: Gc, d: Digest) {
    exists r :: MarkedByScope(s, g, r, d) || MarkedByLive(s, g, r, d)
  }

  ghost predicate CandidateBlob(s: State, g: Gc, d: Digest) {
    d in s.blobs && !Marked(s, g, d)
  }

  // ---------------------------------------------------------------- sweep

  datatype Deletion = DropManifest(repo: string, digest: Digest) | DropBlob(digest: Digest)

  function Deleted(s: State, x: Deletion): State {
    match x
    case DropManifest(r, d) => DeletedManifest(s, r, d).0
    case DropBlob(d) => DeletedBlob(s, d).0
  }

  function Swept(s: State, deletions: seq<Deletion>): State {
    if deletions == [] then s
    else Deleted(Swept(s, deletions[..|deletions| - 1]), deletions[|deletions| - 1])
  }

  /** First all candidate manifests, then all candidate blobs, each once. */
  ghost predicate IsSweep(s: State, g: Gc, deletions: seq<Deletion>) {
    && (forall i, j :: 0 <= i < j < |deletions| ==>
      deletions[i] != deletions[j] && (deletions[i].DropBlob? ==> deletions[j].DropBlob?))
    && (forall r, d :: DropManifest(r, d) in deletions <==> Candidate(s, g, r, d))
    && (forall d :: DropBlob(d) in deletions <==> CandidateBlob(s, g, d))
  }

  ghost predicate LeavesManifests(s: State, deletions: seq<Deletion>, t: State) {
    && (forall r, d :: d in ManifestsOf(t, r) <==> d in ManifestsOf(s, r) && DropManifest(r, d) !in deletions)
    && (forall r, d :: d in ManifestsOf(t, r) ==> ManifestsOf(t, r)[d] == ManifestsOf(s, r)[d])
  }

  ghost predicate LeavesTags(s: State, deletions: seq<Deletion>, t: State) {
    && (forall r, n :: n in TagsOf(t, r) <==> n in TagsOf(s, r) && TagLeft(s, deletions, r, n))
    && (forall r, n :: n in TagsOf(t, r) ==> TagsOf(t, r)[n] == TagsOf(s, r)[n])
  }

  ghost predicate LeavesBlobs(s: State, deletions: seq<Deletion>, t: State) {
    && (forall d :: d in t.blobs <==> d in s.blobs && (DropBlob(d) in deletions ==> s.blobs[d].references > 0))
    && (forall d :: d in t.blobs ==> t.blobs[d] == s.blobs[d])
  }

  ghost predicate SameElsewhere(s: State, t: State) {
    t.repos == s.repos && t.uploads == s.uploads && t.quotas == s.quotas && t.policies == s.policies
  }

  /** What is left after the deletions, entry by entry. */
  ghost predicate Leaves(s: State, deletions: seq<Deletion>, t: State) {
    SameElsewhere(s, t) && LeavesManifests(s, deletions, t) && LeavesTags(s, deletions, t) &&
      LeavesBlobs(s, deletions, t)
  }

  /** A tag goes with the manifest it points to. */
  predicate TagLeft(s: State, deletions: seq<Deletion>, repo: string, n: string)
    requires n in TagsOf(s, repo)
  {
    var d := TagsOf(s, repo)[n].digest;
    DropManifest(repo, d) !in deletions || d !in ManifestsOf(s, repo)
  }

  lemma DropManifestEffect(t: State, repo: string, digest: Digest, u: State)
    requires u == Deleted(t, DropManifest(repo, digest))
    ensures SameElsewhere(t, u) && u.blobs == t.blobs && u.files == t.files
    ensures forall r :: ManifestsOf(u, r) == if r == repo then ManifestsOf(t, r) - {digest} else ManifestsOf(t, r)
  {
    assert digest !in ManifestsOf(t, repo) ==> ManifestsOf(t, repo) - {digest} == ManifestsOf(t, repo);
  }

  lemma DropManifestTags(t: State, repo: string, digest: Digest, u: State)
    requires u == Deleted(t, DropManifest(repo, digest))
    ensures forall r :: r != repo ==> TagsOf(u, r) == TagsOf(t, r)
    ensures TagsOf(u, repo) ==
        if digest in ManifestsOf(t, repo) then Untagged(TagsOf(t, repo), digest) else TagsOf(t, repo)
  {
    assert repo !in t.tags ==> Untagged(TagsOf(t, repo), digest) == map[];
  }

  lemma Appended(before: seq<Deletion>, x: Deletion)
    ensures forall y :: y in before + [x] <==> y in before || y == x
  {
  }

  lemma DropManifestLeaves(s: State, before: seq<Deletion>, t: State, repo: string, digest: Digest)
    requires Leaves(s, before, t)
    ensures SameElsewhere(s, Deleted(t, DropManifest(repo, digest)))
    ensures LeavesManifests(s, before + [DropManifest(repo, digest)], Deleted(t, DropManifest(repo, digest)))
    ensures LeavesBlobs(s, before + [DropManifest(repo, digest)], Deleted(t, DropManifest(repo, digest)))
  {
    Appended(before, DropManifest(repo, digest));
    DropManifestEffect(t, repo, digest, Deleted(t, DropManifest(repo, digest)));
  }

  lemma DropManifestLeavesTags(s: State, before: seq<Deletion>, t: State, repo: string, digest: Digest)
    requires LeavesManifests(s, before, t) && LeavesTags(s, before, t)
    ensures LeavesTags(s, before + [DropManifest(repo, digest)], Deleted(t, DropManifest(repo, digest)))
  {
    var after, u := before + [DropManifest(repo, digest)], Deleted(t, DropManifest(repo, digest));
    Appended(before, DropManifest(repo, digest));
    DropManifestTags(t, repo, digest, u);
    assert digest in ManifestsOf(t, repo) <==> digest in ManifestsOf(s, repo) && DropManifest(repo, digest) !in before;
    forall r, n ensures n in TagsOf(u, r) <==> n in TagsOf(s, r) && TagLeft(s, after, r, n) {
      if n in TagsOf(t, r) { assert TagsOf(t, r)[n] == TagsOf(s, r)[n]; }
    }
  }

  /** Manifests and tags do not depend on the blob deletions. */
  lemma DropBlobKeepsOthers(s: State, before: seq<Deletion>, t: State, digest: Digest, u: State)
    requires LeavesManifests(s, before, t) && LeavesTags(s, before, t)
    requires u.manifests == t.manifests && u.tags == t.tags
    ensures LeavesManifests(s, before + [DropBlob(digest)], u) && LeavesTags(s, before + [DropBlob(digest)], u)
  {
    var after := before + [DropBlob(digest)];
    Appended(before, DropBlob(digest));
    forall r ensures ManifestsOf(u, r) == ManifestsOf(t, r) && TagsOf(u, r) == TagsOf(t, r) {
    }
    forall r, n | n in TagsOf(s, r) ensures TagLeft(s, after, r, n) <==> TagLeft(s, before, r, n) {
    }
  }

  lemma DropBlobBlobs(t: State, digest: Digest)
    ensures
      var u := Deleted(t, DropBlob(digest));
      && SameElsewhere(t, u) && u.manifests == t.manifests && u.tags == t.tags
      && u.blobs == if digest in t.blobs && t.blobs[digest].references <= 0 then t.blobs - {digest} else t.blobs
  {
  }

  lemma DropBlobEffect(s: State, before: seq<Deletion>, t: State, digest: Digest)
    requires LeavesBlobs(s, before, t)
    ensures LeavesBlobs(s, before + [DropBlob(digest)], Deleted(t, DropBlob(digest)))
  {
    var after, u := before + [DropBlob(digest)], Deleted(t, DropBlob(digest));
    Appended(before, DropBlob(digest));
    DropBlobBlobs(t, digest);
    forall d ensures d in u.blobs <==> d in s.blobs && (DropBlob(d) in after ==> s.blobs[d].references > 0) {
      assert DropBlob(d) in after <==> DropBlob(d) in before || d == digest;
    }
  }

  lemma {:induction false} SweptLeaves(s: State, deletions: seq<Deletion>)
    ensures Leaves(s, deletions, Swept(s, deletions))
    decreases |deletions|
  {
    if deletions != [] {
      var before := deletions[..|deletions| - 1];
      SweptLeaves(s, before);
      assert deletions == before + [deletions[|deletions| - 1]];
      match deletions[|deletions| - 1]
      case DropManifest(r, d) =>
        DropManifestLeaves(s, before, Swept(s, before), r, d);
        DropManifestLeavesTags(s, before, Swept(s, before), r, d);
      case DropBlob(d) =>
        DropBlobBlobs(Swept(s, before), d);
        DropBlobKeepsOthers(s, before, Swept(s, before), d, Swept(s, deletions));
        DropBlobEffect(s, before, Swept(s, before), d);
    }
  }
}
