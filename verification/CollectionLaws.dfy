/** What garbage collection keeps, what it deletes, and that a second run finds nothing. */
module CollectionLaws {
  import opened Ordering
  import opened Artifacts
  import opened Pages
  import opened Store
  import opened Collection

  /** Manifests are stored under their own digests. */
  ghost predicate KeyedManifests(s: State) {
    forall r, d :: d in ManifestsOf(s, r) ==> ManifestsOf(s, r)[d].digest == d
  }

  lemma StoredIsListed(s: State, g: Gc, r: string, d: Digest) returns (i: int)
    requires KeyedManifests(s) && OrdersOf(s, g) && d in ManifestsOf(s, r)
    ensures r in g.orders && 0 <= i < |g.orders[r]| && g.orders[r][i] == ManifestsOf(s, r)[d] &&
        g.orders[r][i].digest == d
  {
    assert s.manifests[r] != map[];
    i :| 0 <= i < |g.orders[r]| && g.orders[r][i] == ManifestsOf(s, r)[d];
  }

  // ---------------------------------------------------------------- safety after every single deletion

  /** A manifest that is kept here, but whose digest is a candidate in another repository, names a blob
      that nothing else protects. */
  ghost predicate Exposed(s: State, g: Gc, r: string, d: Digest, x: Digest) {
    && d in ManifestsOf(s, r) && !Candidate(s, g, r, d) && CandidateSomewhere(s, g, d)
    && x in ManifestsOf(s, r)[d].RefList() && CandidateBlob(s, g, x) && s.blobs[x].references <= 0
  }

  /** No digest is a candidate in one repository and kept in another. */
  ghost predicate NoSplitDigest(s: State, g: Gc) {
    forall r, q, d :: Candidate(s, g, r, d) && d in ManifestsOf(s, q) ==> Candidate(s, g, q, d)
  }

  lemma NoSplitExposesNothing(s: State, g: Gc, r: string, d: Digest, x: Digest)
    requires NoSplitDigest(s, g)
    ensures !Exposed(s, g, r, d, x)
  {
  }

  /** A blob is only dropped when all candidate manifests are gone. */
  lemma ManifestsGoFirst(s: State, g: Gc, deletions: seq<Deletion>, k: nat, x: Digest, r: string, d: Digest)
    requires IsSweep(s, g, deletions) && k <= |deletions|
    requires DropBlob(x) in deletions[..k] && DropManifest(r, d) in deletions
    ensures DropManifest(r, d) in deletions[..k]
  {
    var i :| 0 <= i < k && deletions[i] == DropBlob(x);
    var j :| 0 <= j < |deletions| && deletions[j] == DropManifest(r, d);
    assert j < i;
    assert deletions[..k][j] == DropManifest(r, d);
  }

  /** A manifest that is a candidate nowhere protects what it mentions. */
  lemma LiveProtects(s: State, g: Gc, r: string, d: Digest, x: Digest)
    requires KeyedManifests(s) && OrdersOf(s, g) && d in ManifestsOf(s, r)
    requires !CandidateSomewhere(s, g, d) && Mentions(ManifestsOf(s, r)[d], x)
    ensures Marked(s, g, x)
  {
    var i := StoredIsListed(s, g, r, d);
    assert Live(s, g, r, i);
    assert MarkedByLive(s, g, r, x);
  }

  lemma KeptReferencesStay(s: State, g: Gc, deletions: seq<Deletion>, k: nat, t: State, r: string, d: Digest, x: Digest)
    requires KeyedManifests(s) && ReferencesStored(s) && OrdersOf(s, g) && IsSweep(s, g, deletions) && k <= |deletions|
    requires Leaves(s, deletions[..k], t)
    requires d in ManifestsOf(t, r) && x in ManifestsOf(t, r)[d].RefList()
    requires !Exposed(s, g, r, d, x)
    ensures x in t.blobs
  {
    assert x in s.blobs;
    KeptReferenceIsNotDropped(s, g, deletions, k, r, d, x);
  }

  lemma KeptReferenceIsNotDropped(s: State, g: Gc, deletions: seq<Deletion>, k: nat, r: string, d: Digest, x: Digest)
    requires KeyedManifests(s) && OrdersOf(s, g) && IsSweep(s, g, deletions) && k <= |deletions|
    requires d in ManifestsOf(s, r) && x in ManifestsOf(s, r)[d].RefList() && x in s.blobs
    requires DropManifest(r, d) !in deletions[..k] && !Exposed(s, g, r, d, x)
    ensures DropBlob(x) in deletions[..k] ==> s.blobs[x].references > 0
  {
    if Candidate(s, g, r, d) {
      if DropBlob(x) in deletions[..k] { ManifestsGoFirst(s, g, deletions, k, x, r, d); }
    } else {
      if !CandidateSomewhere(s, g, d) { LiveProtects(s, g, r, d, x); }
      assert DropBlob(x) in deletions ==> s.blobs[x].references > 0;
    }
  }

  lemma TagsStayStored(s: State, deletions: seq<Deletion>)
    requires TagsStored(s)
    ensures TagsStored(Swept(s, deletions))
  {
    SweptLeaves(s, deletions);
    var t := Swept(s, deletions);
    forall r, n | n in TagsOf(t, r) ensures TagsOf(t, r)[n].digest in ManifestsOf(t, r) {
      assert TagLeft(s, deletions, r, n);
    }
  }

  /** When nothing is exposed, referential integrity holds after every single deletion of the sweep. */
  lemma EveryDeletionIsSafe(s: State, g: Gc, deletions: seq<Deletion>, k: nat)
    requires KeyedManifests(s) && Integrity(s) && OrdersOf(s, g) && IsSweep(s, g, deletions) && k <= |deletions|
    requires forall r, d, x :: !Exposed(s, g, r, d, x)
    ensures Integrity(Swept(s, deletions[..k]))
  {
    var t := Swept(s, deletions[..k]);
    SweptLeaves(s, deletions[..k]);
    forall r, d, x | d in ManifestsOf(t, r) && x in ManifestsOf(t, r)[d].RefList() ensures x in t.blobs {
      KeptReferencesStay(s, g, deletions, k, t, r, d, x);
    }
    TagsStayStored(s, deletions[..k]);
  }

  /** An exposed reference dangles after the run. */
  lemma ExposedDangles(s: State, g: Gc, deletions: seq<Deletion>, r: string, d: Digest, x: Digest)
    requires IsSweep(s, g, deletions) && Exposed(s, g, r, d, x)
    ensures !ReferencesStored(Swept(s, deletions))
  {
    SweptLeaves(s, deletions);
    var t := Swept(s, deletions);
    assert DropManifest(r, d) !in deletions && DropBlob(x) in deletions;
    assert d in ManifestsOf(t, r) && x in ManifestsOf(t, r)[d].RefList() && x !in t.blobs;
  }

  /** A run keeps referential integrity exactly when it exposes no reference; and then it keeps it after
      every single deletion. */
  lemma SweepIsSafeIff(s: State, g: Gc, deletions: seq<Deletion>)
    requires KeyedManifests(s) && Integrity(s) && OrdersOf(s, g) && IsSweep(s, g, deletions)
    ensures Integrity(Swept(s, deletions)) <==> forall r, d, x :: !Exposed(s, g, r, d, x)
  {
    if r, d, x :| Exposed(s, g, r, d, x) {
      ExposedDangles(s, g, deletions, r, d, x);
    } else {
      EveryDeletionIsSafe(s, g, deletions, |deletions|);
      assert deletions[..|deletions|] == deletions;
    }
  }

  // ---------------------------------------------------------------- one manifest in two repositories

  /** One manifest in the repositories a and b, tagged only in b, names the one stored blob; no policy keeps it. */
  ghost predicate Shared(s: State, m: Manifest, x: Digest) {
    && s.manifests == map["a" := map[m.digest := m], "b" := map[m.digest := m]]
    && s.tags == map["b" := map["v1" := TagValue("v1", m.digest, 1, false)]]
    && s.policies == map[]
    && s.blobs.Keys == {x} && s.blobs[x].references == 0
    && m.RefList() == [x] && m.digest != x
  }

  function SharedRun(m: Manifest, now: int): Gc {
    Gc(map["a" := [m], "b" := [m]], "", now)
  }

  function SharedDeletions(m: Manifest, x: Digest): seq<Deletion> {
    [DropManifest("a", m.digest), DropBlob(x)]
  }

  lemma SharedTags(s: State, m: Manifest, x: Digest)
    requires Shared(s, m, x)
    ensures Tagged(s, "b", m.digest)
    ensures forall d :: !Tagged(s, "a", d)
    ensures forall r, d :: Tagged(s, r, d) ==> d == m.digest
  {
    var all := TagsOf(s, "b").Keys;
    assert all == {"v1"};
    OnePageIsComplete(all, TAG_PAGE);
    assert "v1" in SortedNames(all);
    assert "v1" in CrawledTags(s, "b");
  }

  lemma SharedOrders(s: State, m: Manifest, x: Digest, now: int)
    requires Shared(s, m, x)
    ensures OrdersOf(s, SharedRun(m, now))
  {
    var g := SharedRun(m, now);
    forall r | r in g.orders ensures NewestFirst(g.orders[r], s.manifests[r]) {
      assert s.manifests[r].Keys == {m.digest};
    }
    forall r | r in s.manifests ensures s.manifests[r] != map[] {
      assert m.digest in s.manifests[r];
    }
  }

  lemma SharedCandidates(s: State, m: Manifest, x: Digest, now: int)
    requires Shared(s, m, x)
    ensures forall r, d :: Candidate(s, SharedRun(m, now), r, d) <==> r == "a" && d == m.digest
  {
    var g := SharedRun(m, now);
    SharedTags(s, m, x);
    assert g.orders["a"][0].digest == g.orders["b"][0].digest == m.digest;
    assert !CandidateAt(s, "b", g.orders["b"], 0, now);
    assert CandidateAt(s, "a", g.orders["a"], 0, now);
  }

  lemma SharedUnmarked(s: State, m: Manifest, x: Digest, now: int)
    requires Shared(s, m, x)
    ensures !Marked(s, SharedRun(m, now), x)
  {
    var g := SharedRun(m, now);
    SharedCandidates(s, m, x, now);
    SharedTags(s, m, x);
    forall r ensures !MarkedByLive(s, g, r, x) {
      assert Candidate(s, g, "a", m.digest);
    }
    forall r ensures !MarkedByScope(s, g, r, x) {
      assert r in g.orders ==> g.orders[r][0].digest == m.digest && |g.orders[r]| == 1;
    }
  }

  /** The reference in b is exposed: its manifest is a candidate in a. */
  lemma SharedManifestLosesItsLayer(s: State, m: Manifest, x: Digest, now: int)
    requires Shared(s, m, x)
    ensures Exposed(s, SharedRun(m, now), "b", m.digest, x)
  {
    SharedCandidates(s, m, x, now);
    SharedUnmarked(s, m, x, now);
    assert Candidate(s, SharedRun(m, now), "a", m.digest);
  }

  lemma SharedDeletionsAreASweep(s: State, m: Manifest, x: Digest, now: int)
    requires Shared(s, m, x)
    ensures IsSweep(s, SharedRun(m, now), SharedDeletions(m, x))
  {
    SharedCandidates(s, m, x, now);
    SharedUnmarked(s, m, x, now);
    forall d ensures DropBlob(d) in SharedDeletions(m, x) <==> CandidateBlob(s, SharedRun(m, now), d) {
      assert d in s.blobs <==> d == x;
    }
  }

  /** The run leaves a dangling reference. */
  lemma SharedManifestDangles(s: State, m: Manifest, x: Digest, now: int)
    requires Shared(s, m, x)
    ensures !ReferencesStored(Swept(s, SharedDeletions(m, x)))
  {
    SharedDeletionsAreASweep(s, m, x, now);
    SharedManifestLosesItsLayer(s, m, x, now);
    ExposedDangles(s, SharedRun(m, now), SharedDeletions(m, x), "b", m.digest, x);
  }

  // ---------------------------------------------------------------- tags that the crawl skips

  /** The tag at this place among the sorted names points to the digest, and is not the last of a block of 1001. */
  ghost predicate SeenAt(s: State, r: string, names: seq<string>, i: int, d: Digest) {
    KeptAt(names, i, TAG_PAGE) && names[i] in TagsOf(s, r) && TagsOf(s, r)[names[i]].digest == d
  }

  ghost predicate Seen(s: State, r: string, d: Digest) {
    exists i :: SeenAt(s, r, SortedNames(TagsOf(s, r).Keys), i, d)
  }

  lemma CrawledIsKept(s: State, r: string, n: string)
    requires "" !in TagsOf(s, r)
    ensures n in CrawledTags(s, r) <==>
      exists i :: 0 <= i && KeptAt(SortedNames(TagsOf(s, r).Keys), i, TAG_PAGE) &&
        SortedNames(TagsOf(s, r).Keys)[i] == n
  {
    CrawlKeeps(TagsOf(s, r).Keys, TAG_PAGE);
    KeptFromHolds(SortedNames(TagsOf(s, r).Keys), 0, TAG_PAGE, n);
  }

  lemma TaggedIsSeen(s: State, r: string, d: Digest) returns (i: int)
    requires "" !in TagsOf(s, r) && Tagged(s, r, d)
    ensures SeenAt(s, r, SortedNames(TagsOf(s, r).Keys), i, d)
  {
    var n :| n in CrawledTags(s, r) && n in TagsOf(s, r) && TagsOf(s, r)[n].digest == d;
    CrawledIsKept(s, r, n);
    i :| 0 <= i && KeptAt(SortedNames(TagsOf(s, r).Keys), i, TAG_PAGE) && SortedNames(TagsOf(s, r).Keys)[i] == n;
  }

  lemma SeenIsTagged(s: State, r: string, d: Digest, i: int)
    requires "" !in TagsOf(s, r) && SeenAt(s, r, SortedNames(TagsOf(s, r).Keys), i, d)
    ensures Tagged(s, r, d)
  {
    var n := SortedNames(TagsOf(s, r).Keys)[i];
    CrawledIsKept(s, r, n);
    assert 0 <= i && KeptAt(SortedNames(TagsOf(s, r).Keys), i, TAG_PAGE) && SortedNames(TagsOf(s, r).Keys)[i] == n;
    assert n in CrawledTags(s, r);
  }

  /** A manifest counts as tagged exactly when one of its tags stands at a position that the crawl returns:
      of every 1001 names in order, the last is skipped. */
  lemma TaggedIffSeen(s: State, r: string, d: Digest)
    requires "" !in TagsOf(s, r)
    ensures Tagged(s, r, d) <==> Seen(s, r, d)
  {
    if Tagged(s, r, d) {
      var i := TaggedIsSeen(s, r, d);
    }
    if Seen(s, r, d) {
      var i :| SeenAt(s, r, SortedNames(TagsOf(s, r).Keys), i, d);
      SeenIsTagged(s, r, d, i);
    }
  }

  // ---------------------------------------------------------------- the newest-first index

  /** Manifests that are newer. */
  ghost function Newer(entries: Manifests, c: int): set<Digest> {
    set d | d in entries && entries[d].createdAt > c
  }

  ghost function NotOlder(entries: Manifests, c: int): set<Digest> {
    set d | d in entries && entries[d].createdAt >= c
  }

  function DigestsOfList(order: seq<Manifest>): set<Digest> {
    set i | 0 <= i < |order| :: order[i].digest
  }

  lemma DigestsOfExtended(front: seq<Manifest>, last: Manifest)
    ensures DigestsOfList(front + [last]) == DigestsOfList(front) + {last.digest}
  {
    var order := front + [last];
    forall d ensures d in DigestsOfList(order) <==> d in DigestsOfList(front) || d == last.digest {
      if d in DigestsOfList(front) {
        var i :| 0 <= i < |front| && front[i].digest == d;
        assert order[i].digest == d;
      }
      assert order[|front|].digest == last.digest;
    }
  }

  lemma {:induction false} DistinctListSize(order: seq<Manifest>)
    requires forall i, j :: 0 <= i < j < |order| ==> order[i].digest != order[j].digest
    ensures |DigestsOfList(order)| == |order|
    decreases |order|
  {
    if order != [] {
      var front, last := order[..|order| - 1], order[|order| - 1];
      DistinctListSize(front);
      assert order == front + [last];
      DigestsOfExtended(front, last);
    }
  }

  ghost predicate KeyedByDigest(entries: Manifests) {
    forall d :: d in entries ==> entries[d].digest == d
  }

  lemma IndexBounds(order: seq<Manifest>, entries: Manifests, i: nat)
    requires KeyedByDigest(entries) && NewestFirst(order, entries) && i < |order|
    ensures |Newer(entries, order[i].createdAt)| <= i < |NotOlder(entries, order[i].createdAt)|
  {
    NewerComeBefore(order, entries, i);
    NotOlderComeAfter(order, entries, i);
  }

  lemma NewerComeBefore(order: seq<Manifest>, entries: Manifests, i: nat)
    requires KeyedByDigest(entries) && NewestFirst(order, entries) && i < |order|
    ensures |Newer(entries, order[i].createdAt)| <= i
  {
    var c, before := order[i].createdAt, DigestsOfList(order[..i]);
    DistinctListSize(order[..i]);
    forall d | d in Newer(entries, c) ensures d in before {
      var j :| 0 <= j < |order| && order[j] == entries[d];
      assert j < i;
      assert order[..i][j].digest == order[j].digest == d;
    }
    SubsetSize(Newer(entries, c), before);
  }

  lemma NotOlderComeAfter(order: seq<Manifest>, entries: Manifests, i: nat)
    requires KeyedByDigest(entries) && NewestFirst(order, entries) && i < |order|
    ensures i < |NotOlder(entries, order[i].createdAt)|
  {
    var c, upto := order[i].createdAt, DigestsOfList(order[..i + 1]);
    DistinctListSize(order[..i + 1]);
    forall d | d in upto ensures d in NotOlder(entries, c) {
      var j :| 0 <= j < |order[..i + 1]| && order[..i + 1][j].digest == d;
      assert order[j].digest == d;
    }
    SubsetSize(upto, NotOlder(entries, c));
  }

  lemma {:induction false} SubsetSize<T>(a: set<T>, b: set<T>)
    requires a <= b
    ensures |a| <= |b|
    decreases a
  {
    if a != {} {
      var x :| x in a;
      SubsetSize(a - {x}, b - {x});
    }
  }

  ghost predicate DistinctTimes(entries: Manifests) {
    forall d, e :: d in entries && e in entries && entries[d].createdAt == entries[e].createdAt ==> d == e
  }

  /** With distinct times, a manifest's index never grows when other manifests are deleted. */
  lemma IndexNeverGrows(order: seq<Manifest>, entries: Manifests, i: nat, later: seq<Manifest>, left: Manifests, j: nat)
    requires KeyedByDigest(entries) && NewestFirst(order, entries) && DistinctTimes(entries) && i < |order|
    requires KeyedByDigest(left) && NewestFirst(later, left) && j < |later|
    requires forall d :: d in left ==> d in entries && left[d] == entries[d]
    requires later[j] == order[i]
    ensures j <= i
  {
    var c, m := order[i].createdAt, order[i].digest;
    IndexBounds(order, entries, i);
    IndexBounds(later, left, j);
    assert NotOlder(entries, c) == Newer(entries, c) + {m};
    SubsetSize(NotOlder(left, c), NotOlder(entries, c));
  }

  // ---------------------------------------------------------------- a second run

  /** What a survivor of the sweep was in the first run. */
  lemma SurvivorWasKept(s: State, g: Gc, deletions: seq<Deletion>, t: State, r: string, d: Digest) returns (i: int)
    requires KeyedManifests(s) && OrdersOf(s, g) && IsSweep(s, g, deletions) && Leaves(s, deletions, t)
    requires d in ManifestsOf(t, r)
    ensures d in ManifestsOf(s, r) && ManifestsOf(t, r)[d] == ManifestsOf(s, r)[d]
    ensures r in g.orders && 0 <= i < |g.orders[r]| && g.orders[r][i] == ManifestsOf(s, r)[d]
    ensures InScope(g.filter, r) ==> Tagged(s, r, d) || Retained(s, r, i, g.orders[r][i].createdAt, g.now)
  {
    i := StoredIsListed(s, g, r, d);
    assert DropManifest(r, d) !in deletions;
    assert InScope(g.filter, r) ==> !CandidateAt(s, r, g.orders[r], i, g.now);
  }

  /** At most one page of tags, so that no tag name is missed. */
  ghost predicate FewTags(s: State, repo: string) {
    "" !in TagsOf(s, repo) && |TagsOf(s, repo)| <= TAG_PAGE
  }

  lemma FewTagsAreCrawled(s: State, repo: string, n: string)
    requires FewTags(s, repo)
    ensures n in CrawledTags(s, repo) <==> n in TagsOf(s, repo)
  {
    OnePageIsComplete(TagsOf(s, repo).Keys, TAG_PAGE);
  }

  /** A survivor's tag survives, and is seen again. */
  lemma TaggedStaysTagged(s: State, g: Gc, deletions: seq<Deletion>, t: State, r: string, d: Digest)
    requires IsSweep(s, g, deletions) && Leaves(s, deletions, t) && FewTags(s, r)
    requires Tagged(s, r, d) && d in ManifestsOf(t, r)
    ensures Tagged(t, r, d)
  {
    var n :| n in CrawledTags(s, r) && n in TagsOf(s, r) && TagsOf(s, r)[n].digest == d;
    assert TagLeft(s, deletions, r, n);
    assert n in TagsOf(t, r);
    assert TagsOf(t, r).Keys <= TagsOf(s, r).Keys;
    SubsetSize(TagsOf(t, r).Keys, TagsOf(s, r).Keys);
    FewTagsAreCrawled(t, r, n);
  }

  lemma NothingRetainedIsLost(s: State, r: string, i: int, j: int, createdAt: int, now: int)
    requires Retained(s, r, i, createdAt, now) && j <= i
    ensures Retained(s, r, j, createdAt, now)
  {
    var id :| id in s.policies && s.policies[id].Keeps(r, i, createdAt, now);
    assert s.policies[id].Keeps(r, j, createdAt, now);
  }

  /** The later run that the laws below speak of: same filter and clock reading, on what the first one left. */
  ghost predicate SecondRun(s: State, g: Gc, deletions: seq<Deletion>, t: State, h: Gc) {
    && KeyedManifests(s) && OrdersOf(s, g) && IsSweep(s, g, deletions) && t == Swept(s, deletions)
    && OrdersOf(t, h) && h.filter == g.filter && h.now == g.now
  }

  lemma LeftIsKeyed(s: State, deletions: seq<Deletion>, t: State)
    requires KeyedManifests(s) && Leaves(s, deletions, t)
    ensures KeyedManifests(t)
  {
    forall r, d | d in ManifestsOf(t, r) ensures ManifestsOf(t, r)[d].digest == d {
      assert d in ManifestsOf(s, r);
    }
  }

  /** When no two manifests of a repository have the same time, and there is at most one page of tags, a
      second run finds no candidate manifest there. */
  lemma NoSecondCandidate(s: State, g: Gc, deletions: seq<Deletion>, t: State, h: Gc, r: string, d: Digest)
    requires SecondRun(s, g, deletions, t, h)
    requires InScope(g.filter, r) ==> DistinctTimes(ManifestsOf(s, r)) && FewTags(s, r)
    ensures !Candidate(t, h, r, d)
  {
    SweptLeaves(s, deletions);
    LeftIsKeyed(s, deletions, t);
    if r in h.orders && InScope(h.filter, r) {
      forall j | 0 <= j < |h.orders[r]| && h.orders[r][j].digest == d
        ensures !CandidateAt(t, r, h.orders[r], j, h.now)
      {
        var i := SurvivorWasKept(s, g, deletions, t, r, d);
        if Tagged(s, r, d) {
          TaggedStaysTagged(s, g, deletions, t, r, d);
        } else {
          IndexNeverGrows(g.orders[r], ManifestsOf(s, r), i, h.orders[r], ManifestsOf(t, r), j);
          NothingRetainedIsLost(t, r, i, j, h.orders[r][j].createdAt, h.now);
        }
      }
    }
  }

  // ---------------------------------------------------------------- completeness

  /** A blob that no stored manifest is or names. */
  ghost predicate Orphan(s: State, x: Digest) {
    x in s.blobs && forall r, d :: d in ManifestsOf(s, r) ==> !Mentions(ManifestsOf(s, r)[d], x)
  }

  /** What protects a digest is a stored manifest that is, or names, the digest, and is no candidate. */
  lemma MarkedIsMentioned(s: State, g: Gc, x: Digest) returns (r: string, d: Digest)
    requires KeyedManifests(s) && TagsStored(s) && OrdersOf(s, g) && Marked(s, g, x)
    ensures d in ManifestsOf(s, r) && Mentions(ManifestsOf(s, r)[d], x) && !Candidate(s, g, r, d)
  {
    r :| MarkedByScope(s, g, r, x) || MarkedByLive(s, g, r, x);
    if MarkedByLive(s, g, r, x) {
      var i :| Live(s, g, r, i) && Mentions(g.orders[r][i], x);
      d := g.orders[r][i].digest;
      assert !CandidateSomewhere(s, g, d);
    } else {
      d := x;
      ScopeIsNoCandidate(s, g, r, x);
    }
  }

  lemma MarkedSurvives(s: State, g: Gc, deletions: seq<Deletion>, t: State, x: Digest) returns (r: string, d: Digest)
    requires KeyedManifests(s) && TagsStored(s) && OrdersOf(s, g) && Marked(s, g, x)
    requires IsSweep(s, g, deletions) && LeavesManifests(s, deletions, t)
    ensures d in ManifestsOf(t, r) && Mentions(ManifestsOf(t, r)[d], x)
  {
    r, d := MarkedIsMentioned(s, g, x);
    assert DropManifest(r, d) !in deletions;
  }

  /** A tagged or retained manifest is no candidate in that repository. */
  lemma ScopeIsNoCandidate(s: State, g: Gc, r: string, x: Digest)
    requires OrdersOf(s, g) && MarkedByScope(s, g, r, x)
    ensures !Candidate(s, g, r, x)
  {
    if !Tagged(s, r, x) {
      var i :| 0 <= i < |g.orders[r]| && g.orders[r][i].digest == x && RetainedAt(s, r, g.orders[r], i, g.now);
      forall j | 0 <= j < |g.orders[r]| && g.orders[r][j].digest == x ensures j == i {
        assert !(j < i) && !(i < j);
      }
    }
  }

  /** Every orphan is a candidate blob. */
  lemma OrphansAreCandidates(s: State, g: Gc, x: Digest)
    requires KeyedManifests(s) && TagsStored(s) && OrdersOf(s, g) && Orphan(s, x)
    ensures CandidateBlob(s, g, x)
  {
    if Marked(s, g, x) {
      var r, d := MarkedIsMentioned(s, g, x);
    }
  }

  /** After a run, only blobs with a positive reference count can be orphans. */
  lemma NoOrphanIsLeft(s: State, g: Gc, deletions: seq<Deletion>, x: Digest)
    requires KeyedManifests(s) && TagsStored(s) && OrdersOf(s, g) && IsSweep(s, g, deletions)
    requires Orphan(Swept(s, deletions), x)
    ensures Swept(s, deletions).blobs[x].references > 0
  {
    SweptLeaves(s, deletions);
    if Marked(s, g, x) {
      var r, d := MarkedSurvives(s, g, deletions, Swept(s, deletions), x);
    } else {
      assert DropBlob(x) in deletions;
    }
  }

  /** When nothing is a candidate any more, a second run also finds no candidate blob. */
  lemma NoSecondBlob(s: State, g: Gc, deletions: seq<Deletion>, t: State, h: Gc, x: Digest)
    requires SecondRun(s, g, deletions, t, h) && TagsStored(s)
    requires forall r, d :: !Candidate(t, h, r, d)
    requires forall b :: b in s.blobs ==> s.blobs[b].references <= 0
    ensures !CandidateBlob(t, h, x)
  {
    SweptLeaves(s, deletions);
    LeftIsKeyed(s, deletions, t);
    if x in t.blobs {
      assert DropBlob(x) !in deletions && Marked(s, g, x);
      var r, d := MarkedSurvives(s, g, deletions, t, x);
      assert !CandidateSomewhere(t, h, d);
      LiveProtects(t, h, r, d, x);
    }
  }

  /** Garbage collection reaches a fixed point in one run: with pairwise distinct times per repository, at
      most one page of tags per repository, and no blob with a positive reference count, the second run has
      no candidates, and any sweep it makes is empty. */
  lemma SecondRunFindsNothing(s: State, g: Gc, deletions: seq<Deletion>, t: State, h: Gc, more: seq<Deletion>)
    requires SecondRun(s, g, deletions, t, h) && TagsStored(s)
    requires forall r :: InScope(g.filter, r) ==> DistinctTimes(ManifestsOf(s, r)) && FewTags(s, r)
    requires forall b :: b in s.blobs ==> s.blobs[b].references <= 0
    requires IsSweep(t, h, more)
    ensures more == [] && Swept(t, more) == t
  {
    if |more| > 0 {
      match more[0]
      case DropManifest(r, d) => assert DropManifest(r, d) in more;
      case DropBlob(x) => assert DropBlob(x) in more;
    }
    forall r, d ensures !Candidate(t, h, r, d) {
      NoSecondCandidate(s, g, deletions, t, h, r, d);
    }
    forall x ensures !CandidateBlob(t, h, x) {
      NoSecondBlob(s, g, deletions, t, h, x);
    }
  }

  // ---------------------------------------------------------------- retention

  /** A manifest survives every run when it is tagged by a name the crawl sees, when its repository is out
      of scope, when an enabled policy that applies keeps its age, or when it is among the newest `keepLast`
      whichever way equal times are ordered. */
  lemma RetainedSurvives(s: State, g: Gc, deletions: seq<Deletion>, r: string, d: Digest, id: string)
    requires KeyedManifests(s) && OrdersOf(s, g) && IsSweep(s, g, deletions) && d in ManifestsOf(s, r)
    requires
      || (g.filter != "" && r != g.filter)
      || Tagged(s, r, d)
      || (id in s.policies && s.policies[id].enabled && s.policies[id].repositoryPrefix <= r &&
          (|NotOlder(ManifestsOf(s, r), ManifestsOf(s, r)[d].createdAt)| <= s.policies[id].keepLast
           || (s.policies[id].maxAge > 0 && ManifestsOf(s, r)[d].createdAt > g.now - s.policies[id].maxAge)))
    ensures d in ManifestsOf(Swept(s, deletions), r)
  {
    SweptLeaves(s, deletions);
    if InScope(g.filter, r) && !Tagged(s, r, d) {
      var order := g.orders[r];
      forall i | 0 <= i < |order| && order[i].digest == d ensures !CandidateAt(s, r, order, i, g.now) {
        IndexBounds(order, s.manifests[r], i);
        assert s.policies[id].Keeps(r, i, order[i].createdAt, g.now);
      }
    }
  }

  /** And exactly the candidates do not: a manifest in scope that no policy keeps at its place is deleted. */
  lemma UnretainedIsDeleted(s: State, g: Gc, deletions: seq<Deletion>, r: string, i: nat)
    requires OrdersOf(s, g) && IsSweep(s, g, deletions) && r in g.orders && i < |g.orders[r]|
    requires g.filter == "" || r == g.filter
    requires CandidateAt(s, r, g.orders[r], i, g.now)
    ensures g.orders[r][i].digest !in ManifestsOf(Swept(s, deletions), r)
  {
    SweptLeaves(s, deletions);
    assert Candidate(s, g, r, g.orders[r][i].digest);
  }
}
