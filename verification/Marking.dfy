/** How far the loops of a garbage collection have come, and the deletions they make. */
module Marking {
  import opened Basics
  import opened Ordering
  import opened Artifacts
  import opened Pages
  import opened Store
  import opened Collection

  /** A manifest by its repository and digest. */
  datatype Located = Located(repo: string, digest: Digest) {
    function Text(): string { repo + "@sha256:" + digest.hex }
  }

  predicate LocatedNotAfter(a: Located, b: Located) { NotAfter(a.Text(), b.Text()) }

  lemma LocatedNotAfterIsTotal()
    ensures TotalPreorder(LocatedNotAfter)
  {
    NotAfterIsTotal();
    forall x, y ensures LocatedNotAfter(x, y) || LocatedNotAfter(y, x) {
      assert NotAfter(x.Text(), y.Text()) || NotAfter(y.Text(), x.Text());
    }
    forall x, y, z | LocatedNotAfter(x, y) && LocatedNotAfter(y, z) ensures LocatedNotAfter(x, z) {
      assert NotAfter(x.Text(), y.Text()) && NotAfter(y.Text(), z.Text());
    }
  }

  predicate NewerFirst(a: Manifest, b: Manifest) { a.createdAt >= b.createdAt }

  /** Digests in the order of their text. */
  predicate TextNotAfter(a: Digest, b: Digest) { NotAfter(a.hex, b.hex) }

  lemma TextNotAfterIsTotal()
    ensures TotalPreorder(TextNotAfter)
  {
    NotAfterIsTotal();
    forall x, y ensures TextNotAfter(x, y) || TextNotAfter(y, x) {
      assert NotAfter(x.hex, y.hex) || NotAfter(y.hex, x.hex);
    }
    forall x, y, z | TextNotAfter(x, y) && TextNotAfter(y, z) ensures TextNotAfter(x, z) {
      assert NotAfter(x.hex, y.hex) && NotAfter(y.hex, z.hex);
    }
  }

  lemma PermutationListsAll(a: seq<Manifest>, b: seq<Manifest>, entries: Manifests)
    requires ListsAll(a, entries) && multiset(a) == multiset(b)
    ensures ListsAll(b, entries)
  {
    SameElements(a, b);
    forall i | 0 <= i < |b| ensures b[i].digest in entries && entries[b[i].digest] == b[i] {
      assert b[i] in a;
    }
    forall i, j | 0 <= i < j < |a| ensures a[i] != a[j] {
      assert a[i].digest != a[j].digest;
    }
    PermutationKeepsDistinct(a, b);
    forall i, j | 0 <= i < j < |b| ensures b[i].digest != b[j].digest {
      assert b[i] != b[j];
    }
  }

  /** The list holds the candidates among the first n manifests of the order. */
  ghost predicate ListedUpTo(s: State, repo: string, order: seq<Manifest>, n: int, list: seq<Manifest>, now: int)
    requires 0 <= n <= |order|
  {
    && (forall m :: m in list <==> exists i :: 0 <= i < n && order[i] == m && CandidateAt(s, repo, order, i, now))
    && (forall i, j :: 0 <= i < j < |list| ==> list[i].digest != list[j].digest)
  }

  /** The digest is tagged, or one of the first n manifests that a policy retains. */
  ghost predicate ScopeMarks(s: State, repo: string, order: seq<Manifest>, n: int, d: Digest, now: int)
    requires 0 <= n <= |order|
  {
    Tagged(s, repo, d) || exists i :: 0 <= i < n && order[i].digest == d && RetainedAt(s, repo, order, i, now)
  }

  // ---------------------------------------------------------------- why a digest is protected

  const RETENTION := "retention policy"
  const LIVE := "live manifest"
  const REFERENCE := "manifest reference"

  function TagReason(t: TagValue): string { "tag:" + t.name }

  /** The tags that listAllTags returns. */
  ghost function CrawledValues(s: State, repo: string): seq<TagValue> {
    ValuesAt(CrawledTags(s, repo), TagsOf(s, repo))
  }

  /** The reason names the last of the tags that point to the digest. */
  predicate IsTagReason(tags: seq<TagValue>, d: Digest, why: string) {
    exists k :: 0 <= k < |tags| && tags[k].digest == d && why == TagReason(tags[k]) &&
      forall j :: k < j < |tags| ==> tags[j].digest != d
  }

  predicate Pointed(tags: seq<TagValue>, d: Digest) {
    exists k :: 0 <= k < |tags| && tags[k].digest == d
  }

  lemma CrawledIsTagged(s: State, repo: string, d: Digest)
    ensures Tagged(s, repo, d) <==> Pointed(CrawledValues(s, repo), d)
  {
    var tags := CrawledValues(s, repo);
    if k :| 0 <= k < |tags| && tags[k].digest == d {
      ValuesAtHolds(CrawledTags(s, repo), TagsOf(s, repo), tags[k]);
    }
    if Tagged(s, repo, d) {
      var n :| n in CrawledTags(s, repo) && n in TagsOf(s, repo) && TagsOf(s, repo)[n].digest == d;
      ValuesAtHolds(CrawledTags(s, repo), TagsOf(s, repo), TagsOf(s, repo)[n]);
    }
  }

  /** The digests that the tags point to, each with its reason. */
  ghost predicate TagReasons(tags: seq<TagValue>, tagged: map<Digest, string>) {
    && (forall d :: d in tagged <==> Pointed(tags, d))
    && (forall d :: d in tagged ==> IsTagReason(tags, d, tagged[d]))
  }

  lemma TagReasonStays(tags: seq<TagValue>, i: nat, d: Digest, why: string)
    requires i < |tags| && IsTagReason(tags[..i], d, why) && d != tags[i].digest
    ensures IsTagReason(tags[..i + 1], d, why)
  {
    var front, all := tags[..i], tags[..i + 1];
    var k :| 0 <= k < |front| && front[k].digest == d && why == TagReason(front[k]) &&
      forall j :: k < j < |front| ==> front[j].digest != d;
    assert all[k] == front[k];
    forall j | k < j < |all| ensures all[j].digest != d {
      if j < i { assert all[j] == front[j]; }
    }
  }

  lemma PointedStep(tags: seq<TagValue>, i: nat, d: Digest)
    requires i < |tags|
    ensures Pointed(tags[..i + 1], d) <==> Pointed(tags[..i], d) || d == tags[i].digest
  {
    assert tags[..i + 1][i] == tags[i];
    if Pointed(tags[..i], d) {
      var k :| 0 <= k < i && tags[..i][k].digest == d;
      assert tags[..i + 1][k].digest == d;
    }
    if Pointed(tags[..i + 1], d) {
      var k :| 0 <= k < i + 1 && tags[..i + 1][k].digest == d;
      assert k < i ==> tags[..i][k].digest == d;
    }
  }

  /** One more tag. */
  lemma TagReasonStep(tags: seq<TagValue>, i: nat, tagged: map<Digest, string>)
    requires i < |tags| && TagReasons(tags[..i], tagged)
    ensures TagReasons(tags[..i + 1], tagged[tags[i].digest := TagReason(tags[i])])
  {
    var more := tagged[tags[i].digest := TagReason(tags[i])];
    forall d ensures d in more <==> Pointed(tags[..i + 1], d) {
      PointedStep(tags, i, d);
    }
    forall d | d in more ensures IsTagReason(tags[..i + 1], d, more[d]) {
      if d == tags[i].digest {
        assert tags[..i + 1][i] == tags[i];
      } else {
        TagReasonStays(tags, i, d, tagged[d]);
      }
    }
  }

  ghost predicate RetainedUpTo(s: State, repo: string, order: seq<Manifest>, n: int, d: Digest, now: int)
    requires 0 <= n <= |order|
  {
    exists i :: 0 <= i < n && order[i].digest == d && RetainedAt(s, repo, order, i, now)
  }

  /** The first loop's reason in one repository. */
  ghost predicate ScopeWhy(s: State, repo: string, order: seq<Manifest>, n: int, d: Digest, why: string, now: int)
    requires 0 <= n <= |order|
  {
    IsTagReason(CrawledValues(s, repo), d, why) || (why == RETENTION && RetainedUpTo(s, repo, order, n, d, now))
  }

  lemma ScopeWhyStep(s: State, repo: string, order: seq<Manifest>, n: int, d: Digest, why: string, now: int)
    requires 0 <= n < |order|
    ensures ScopeWhy(s, repo, order, n, d, why, now) ==> ScopeWhy(s, repo, order, n + 1, d, why, now)
    ensures RetainedAt(s, repo, order, n, now) ==>
        ScopeWhy(s, repo, order, n + 1, order[n].digest, RETENTION, now)
  {
  }

  /** The first loop's reason in some repository. */
  ghost predicate WhyWithin(s: State, g: Gc, done: set<string>, d: Digest, why: string) {
    exists r :: r in done && r in g.orders && InScope(g.filter, r) &&
      ScopeWhy(s, r, g.orders[r], |g.orders[r]|, d, why, g.now)
  }

  ghost predicate ScopeReasons(s: State, g: Gc, done: set<string>, reasons: map<Digest, string>) {
    forall d :: d in reasons ==> WhyWithin(s, g, done, d, reasons[d])
  }

  lemma WhyWithinMore(s: State, g: Gc, done: set<string>, repo: string, order: seq<Manifest>, h: Gc, d: Digest,
                      why: string)
    requires repo !in done && repo in g.orders && InScope(g.filter, repo)
    requires h == g.(orders := g.orders[repo := order])
    requires WhyWithin(s, g, done, d, why) || ScopeWhy(s, repo, order, |order|, d, why, g.now)
    ensures WhyWithin(s, h, done + {repo}, d, why)
  {
    if WhyWithin(s, g, done, d, why) {
      var r :| r in done && r in g.orders && InScope(g.filter, r) &&
        ScopeWhy(s, r, g.orders[r], |g.orders[r]|, d, why, g.now);
      assert h.orders[r] == g.orders[r];
    } else {
      assert h.orders[repo] == order;
    }
  }

  /** One more repository's reasons replace earlier ones. */
  lemma ScopeReasonsMore(s: State, g: Gc, done: set<string>, reasons: map<Digest, string>, repo: string,
                         order: seq<Manifest>, more: map<Digest, string>)
    requires ScopeReasons(s, g, done, reasons) && repo !in done && repo in g.orders && InScope(g.filter, repo)
    requires forall d :: d in more ==> ScopeWhy(s, repo, order, |order|, d, more[d], g.now)
    ensures ScopeReasons(s, g.(orders := g.orders[repo := order]), done + {repo}, reasons + more)
  {
    var h := g.(orders := g.orders[repo := order]);
    forall d | d in reasons + more ensures WhyWithin(s, h, done + {repo}, d, (reasons + more)[d]) {
      WhyWithinMore(s, g, done, repo, order, h, d, (reasons + more)[d]);
    }
  }

  lemma ScopeReasonsSame(s: State, g: Gc, done: set<string>, reasons: map<Digest, string>, repo: string)
    requires ScopeReasons(s, g, done, reasons)
    ensures ScopeReasons(s, g, done + {repo}, reasons)
  {
    forall d | d in reasons ensures WhyWithin(s, g, done + {repo}, d, reasons[d]) {
      var r :| r in done && r in g.orders && InScope(g.filter, r) &&
        ScopeWhy(s, r, g.orders[r], |g.orders[r]|, d, reasons[d], g.now);
      assert r in done + {repo};
    }
  }

  /** A live manifest, or what it references. */
  predicate LiveReason(m: Manifest, d: Digest, why: string) {
    (why == LIVE && m.digest == d) || (why == REFERENCE && d in m.RefList())
  }

  /** The second loop's reason among the first n manifests of the repository. */
  ghost predicate LiveWhy(s: State, g: Gc, repo: string, n: int, d: Digest, why: string) {
    exists i :: 0 <= i < n && Live(s, g, repo, i) && LiveReason(g.orders[repo][i], d, why)
  }

  lemma LiveWhyStep(s: State, g: Gc, repo: string, n: int, d: Digest, why: string)
    requires 0 <= n
    ensures LiveWhy(s, g, repo, n, d, why) ==> LiveWhy(s, g, repo, n + 1, d, why)
    ensures Live(s, g, repo, n) && LiveReason(g.orders[repo][n], d, why) ==> LiveWhy(s, g, repo, n + 1, d, why)
  {
  }

  function WithReferences(marked: map<Digest, string>, refs: seq<Digest>): (more: map<Digest, string>)
    ensures more.Keys == marked.Keys + set d | d in refs
  {
    marked + map d | d in refs :: REFERENCE
  }

  lemma WithReferencesStep(marked: map<Digest, string>, refs: seq<Digest>, i: nat)
    requires i < |refs|
    ensures WithReferences(marked, refs[..i])[refs[i] := REFERENCE] == WithReferences(marked, refs[..i + 1])
  {
    assert refs[..i + 1] == refs[..i] + [refs[i]];
  }

  function WithLive(marked: map<Digest, string>, m: Manifest): (more: map<Digest, string>)
    ensures more.Keys == marked.Keys + {m.digest} + set d | d in m.RefList()
  {
    WithReferences(marked[m.digest := LIVE], m.RefList())
  }

  /** The reasons stay, and a live manifest adds its own. */
  lemma LiveReasonsStep(s: State, g: Gc, repo: string, k: nat, marked: map<Digest, string>)
    requires repo in g.orders && k < |g.orders[repo]|
    requires forall d :: d in marked ==> LiveWhy(s, g, repo, k, d, marked[d])
    ensures forall d :: d in marked ==> LiveWhy(s, g, repo, k + 1, d, marked[d])
    ensures Live(s, g, repo, k) ==>
        var more := WithLive(marked, g.orders[repo][k]);
        forall d :: d in more ==> LiveWhy(s, g, repo, k + 1, d, more[d])
  {
    var more := WithLive(marked, g.orders[repo][k]);
    forall d | d in marked ensures LiveWhy(s, g, repo, k + 1, d, marked[d]) {
      LiveWhyStep(s, g, repo, k, d, marked[d]);
    }
    if Live(s, g, repo, k) {
      forall d | d in more ensures LiveWhy(s, g, repo, k + 1, d, more[d]) {
        LiveWhyStep(s, g, repo, k, d, more[d]);
      }
    }
  }

  ghost predicate LiveSomewhere(s: State, g: Gc, d: Digest, why: string) {
    exists r :: r in g.orders && LiveWhy(s, g, r, |g.orders[r]|, d, why)
  }

  /** The second loop's reasons replace those of the first. */
  ghost predicate Explained(s: State, g: Gc, d: Digest, why: string) {
    if exists r :: MarkedByLive(s, g, r, d) then LiveSomewhere(s, g, d, why)
    else WhyWithin(s, g, g.orders.Keys, d, why)
  }

  /** How the reasons read. */
  lemma ReasonsAreSpelled(s: State, g: Gc, d: Digest, why: string)
    requires Explained(s, g, d, why)
    ensures
      || why == "live manifest" || why == "manifest reference" || why == "retention policy"
      || exists r, t: TagValue :: t in CrawledValues(s, r) && t.digest == d && why == "tag:" + t.name
  {
    if !(exists r :: MarkedByLive(s, g, r, d)) && why != RETENTION {
      var r :| r in g.orders.Keys && r in g.orders && InScope(g.filter, r) &&
        ScopeWhy(s, r, g.orders[r], |g.orders[r]|, d, why, g.now);
      var tags := CrawledValues(s, r);
      var k :| 0 <= k < |tags| && tags[k].digest == d && why == TagReason(tags[k]) &&
        forall j :: k < j < |tags| ==> tags[j].digest != d;
      assert tags[k] in CrawledValues(s, r);
    }
  }

  // ---------------------------------------------------------------- the steps of the loops

  lemma ListedStep(s: State, repo: string, order: seq<Manifest>, n: int, list: seq<Manifest>, now: int)
    requires 0 <= n < |order| && ListedUpTo(s, repo, order, n, list, now)
    requires forall i, j :: 0 <= i < j < |order| ==> order[i].digest != order[j].digest
    ensures CandidateAt(s, repo, order, n, now) ==> ListedUpTo(s, repo, order, n + 1, list + [order[n]], now)
    ensures !CandidateAt(s, repo, order, n, now) ==> ListedUpTo(s, repo, order, n + 1, list, now)
  {
    forall k | 0 <= k < |list| ensures list[k].digest != order[n].digest {
      assert list[k] in list;
    }
  }

  lemma MarksStep(s: State, repo: string, order: seq<Manifest>, n: int, marked: set<Digest>, now: int)
    requires 0 <= n < |order|
    requires forall d :: d in marked <==> ScopeMarks(s, repo, order, n, d, now)
    ensures RetainedAt(s, repo, order, n, now) ==>
      forall d :: d in marked + {order[n].digest} <==> ScopeMarks(s, repo, order, n + 1, d, now)
    ensures !RetainedAt(s, repo, order, n, now) ==>
        forall d :: d in marked <==> ScopeMarks(s, repo, order, n + 1, d, now)
  {
  }

  lemma JoinThree<T>(a: seq<T>, b: seq<T>, c: seq<T>)
    ensures a + (b + c) == (a + b) + c
    ensures a + b + [] == a + b
  {
  }

  /** What the crawl still has to return from `last` on. */
  ghost function StillToCome(entries: Tags, last: string): seq<TagValue> {
    ValuesAt(Crawl(entries.Keys, last, TAG_PAGE), entries)
  }

  /** The crawl's values come page by page. */
  lemma CrawlPageValues(entries: Tags, last: string, page: Page<TagValue>)
    requires page == PageWith(FirstPage(NamesAfter(entries.Keys, last), TAG_PAGE), entries)
    ensures page.next == "" ==> StillToCome(entries, last) == page.items
    ensures page.next != "" ==> StillToCome(entries, last) == page.items + StillToCome(entries, page.next)
    ensures page.next != "" ==> |NamesAfter(entries.Keys, page.next)| < |NamesAfter(entries.Keys, last)|
  {
    var names := FirstPage(NamesAfter(entries.Keys, last), TAG_PAGE);
    if names.next != "" {
      NextPageIsTail(entries.Keys, last, TAG_PAGE);
      ValuesAtJoined(names.items, Crawl(entries.Keys, names.next, TAG_PAGE), entries);
    }
  }

  lemma SweptStep(s: State, deletions: seq<Deletion>, x: Deletion)
    ensures Swept(s, deletions + [x]) == Deleted(Swept(s, deletions), x)
  {
    assert (deletions + [x])[..|deletions|] == deletions;
  }

  /** Dropping a manifest that is stored, and was not dropped yet, works. */
  lemma SweptNext(s: State, deletions: seq<Deletion>, repo: string, d: Digest)
    requires d in ManifestsOf(s, repo) && DropManifest(repo, d) !in deletions
    ensures DeletedManifest(Swept(s, deletions), repo, d) == (Swept(s, deletions + [DropManifest(repo, d)]), Pass)
  {
    SweptLeaves(s, deletions);
    SweptStep(s, deletions, DropManifest(repo, d));
  }

  /** Dropping a blob that is stored, and was not dropped yet, works unless it is referenced. */
  lemma SweptNextBlob(s: State, deletions: seq<Deletion>, d: Digest)
    requires d in s.blobs && DropBlob(d) !in deletions
    ensures DeletedBlob(Swept(s, deletions), d).0 == Swept(s, deletions + [DropBlob(d)])
    ensures DeletedBlob(Swept(s, deletions), d).1.Pass? <==> s.blobs[d].references <= 0
  {
    SweptLeaves(s, deletions);
    SweptStep(s, deletions, DropBlob(d));
  }

  function ManifestDrops(list: seq<Located>): seq<Deletion> {
    seq(|list|, i requires 0 <= i < |list| => DropManifest(list[i].repo, list[i].digest))
  }

  function BlobDrops(list: seq<Digest>): seq<Deletion> {
    seq(|list|, i requires 0 <= i < |list| => DropBlob(list[i]))
  }

  lemma ManifestDropsStep(list: seq<Located>, i: nat)
    requires i < |list|
    ensures ManifestDrops(list[..i]) + [DropManifest(list[i].repo, list[i].digest)] == ManifestDrops(list[..i + 1])
  {
  }

  lemma BlobDropsStep(before: seq<Deletion>, list: seq<Digest>, i: nat)
    requires i < |list|
    ensures before + BlobDrops(list[..i]) + [DropBlob(list[i])] == before + BlobDrops(list[..i + 1])
  {
  }

  lemma NotDroppedYet(before: seq<Deletion>, list: seq<Digest>, i: nat)
    requires i < |list| && Distinct(list) && forall x :: x in before ==> x.DropManifest?
    ensures DropBlob(list[i]) !in before + BlobDrops(list[..i])
  {
  }

  /** The deletions of a run, from the lists that its loops go through. */
  lemma DropsAreASweep(s: State, g: Gc, manifests: seq<Located>, blobs: seq<Digest>)
    requires Distinct(manifests) && forall r, d :: Located(r, d) in manifests <==> Candidate(s, g, r, d)
    requires Distinct(blobs) && forall d :: d in blobs <==> CandidateBlob(s, g, d)
    ensures IsSweep(s, g, ManifestDrops(manifests) + BlobDrops(blobs))
  {
    var deletions := ManifestDrops(manifests) + BlobDrops(blobs);
    forall r, d ensures DropManifest(r, d) in deletions <==> Candidate(s, g, r, d) {
      if Located(r, d) in manifests {
        var i :| 0 <= i < |manifests| && manifests[i] == Located(r, d);
        assert deletions[i] == DropManifest(r, d);
      }
      if DropManifest(r, d) in deletions {
        var i :| 0 <= i < |deletions| && deletions[i] == DropManifest(r, d);
        assert i < |manifests| && manifests[i] == Located(r, d);
      }
    }
    forall d ensures DropBlob(d) in deletions <==> CandidateBlob(s, g, d) {
      if d in blobs {
        var i :| 0 <= i < |blobs| && blobs[i] == d;
        assert deletions[|manifests| + i] == DropBlob(d);
      }
      if DropBlob(d) in deletions {
        var i :| 0 <= i < |deletions| && deletions[i] == DropBlob(d);
        assert i >= |manifests| && blobs[i - |manifests|] == d;
      }
    }
  }

  /** The candidate lists by repository, as the marking of all repositories in scope fills them. */
  ghost predicate CandidatesOf(s: State, g: Gc, candidates: map<string, seq<Manifest>>) {
    && (forall r :: r in candidates <==> r in g.orders && InScope(g.filter, r))
    && (forall r :: r in candidates ==> ListedUpTo(s, r, g.orders[r], |g.orders[r]|, candidates[r], g.now))
  }

  ghost predicate Holds(candidates: map<string, seq<Manifest>>, r: string, d: Digest) {
    r in candidates && exists k :: 0 <= k < |candidates[r]| && candidates[r][k].digest == d
  }

  lemma CandidatesAreListed(s: State, g: Gc, candidates: map<string, seq<Manifest>>, r: string, d: Digest)
    requires CandidatesOf(s, g, candidates)
    ensures Candidate(s, g, r, d) <==> Holds(candidates, r, d)
  {
    if Candidate(s, g, r, d) {
      var i :| 0 <= i < |g.orders[r]| && g.orders[r][i].digest == d && CandidateAt(s, r, g.orders[r], i, g.now);
      assert g.orders[r][i] in candidates[r];
      var k :| 0 <= k < |candidates[r]| && candidates[r][k] == g.orders[r][i];
      assert candidates[r][k].digest == d;
    }
    if Holds(candidates, r, d) {
      var k :| 0 <= k < |candidates[r]| && candidates[r][k].digest == d;
      assert candidates[r][k] in candidates[r];
    }
  }

  lemma SomewhereIsListed(s: State, g: Gc, candidates: map<string, seq<Manifest>>, d: Digest)
    requires CandidatesOf(s, g, candidates)
    ensures CandidateSomewhere(s, g, d) <==> exists r :: Holds(candidates, r, d)
  {
    forall r ensures Candidate(s, g, r, d) <==> Holds(candidates, r, d) {
      CandidatesAreListed(s, g, candidates, r, d);
    }
  }

  /** Some repository in `done` marks the digest. */
  ghost predicate MarkedWithin(s: State, g: Gc, done: set<string>, d: Digest) {
    exists r :: r in done && r in g.orders && InScope(g.filter, r) &&
      ScopeMarks(s, r, g.orders[r], |g.orders[r]|, d, g.now)
  }

  ghost predicate OrdersWithin(s: State, g: Gc, done: set<string>) {
    && (forall r :: r in g.orders ==> r in s.manifests && ListsAll(g.orders[r], s.manifests[r]))
    && (forall r :: r in g.orders && r in done && InScope(g.filter, r) ==> NewestFirst(g.orders[r], s.manifests[r]))
  }

  ghost predicate CandidatesWithin(s: State, g: Gc, done: set<string>, candidates: map<string, seq<Manifest>>) {
    && (forall r :: r in candidates <==> r in g.orders && r in done && InScope(g.filter, r))
    && (forall r :: r in candidates ==> ListedUpTo(s, r, g.orders[r], |g.orders[r]|, candidates[r], g.now))
  }

  /** What the first loop has established once it has seen the repositories in `done`. */
  ghost predicate Progress(s: State, g: Gc, done: set<string>, candidates: map<string, seq<Manifest>>,
                           reachable: set<Digest>) {
    && OrdersWithin(s, g, done)
    && CandidatesWithin(s, g, done, candidates)
    && (forall d :: d in reachable <==> MarkedWithin(s, g, done, d))
  }

  lemma MarkedWithinMore(s: State, g: Gc, done: set<string>, repo: string, order: seq<Manifest>, h: Gc, d: Digest)
    requires repo !in done && repo in g.orders && InScope(g.filter, repo)
    requires h == g.(orders := g.orders[repo := order])
    ensures MarkedWithin(s, h, done + {repo}, d) <==>
      MarkedWithin(s, g, done, d) || ScopeMarks(s, repo, order, |order|, d, g.now)
  {
    if MarkedWithin(s, g, done, d) {
      var r :| r in done && r in g.orders && InScope(g.filter, r) &&
        ScopeMarks(s, r, g.orders[r], |g.orders[r]|, d, g.now);
      assert h.orders[r] == g.orders[r];
    }
    if ScopeMarks(s, repo, order, |order|, d, g.now) {
      assert h.orders[repo] == order;
    }
    if MarkedWithin(s, h, done + {repo}, d) {
      var r :| r in done + {repo} && r in h.orders && InScope(h.filter, r) &&
        ScopeMarks(s, r, h.orders[r], |h.orders[r]|, d, h.now);
      assert r != repo ==> h.orders[r] == g.orders[r];
    }
  }

  lemma CandidatesWithinMore(s: State, g: Gc, done: set<string>, candidates: map<string, seq<Manifest>>,
                             repo: string, order: seq<Manifest>, listed: seq<Manifest>)
    requires CandidatesWithin(s, g, done, candidates) && repo in g.orders && InScope(g.filter, repo)
    requires repo !in done && ListedUpTo(s, repo, order, |order|, listed, g.now)
    ensures CandidatesWithin(s, g.(orders := g.orders[repo := order]), done + {repo}, candidates[repo := listed])
  {
  }

  /** One repository in scope was sorted and split. */
  lemma ProgressMore(s: State, g: Gc, done: set<string>, candidates: map<string, seq<Manifest>>, reachable: set<Digest>,
                     repo: string, order: seq<Manifest>, listed: seq<Manifest>, marked: set<Digest>)
    requires Progress(s, g, done, candidates, reachable)
    requires repo !in done && repo in g.orders && InScope(g.filter, repo)
    requires NewestFirst(order, s.manifests[repo]) && ListedUpTo(s, repo, order, |order|, listed, g.now)
    requires forall d :: d in marked <==> ScopeMarks(s, repo, order, |order|, d, g.now)
    ensures Progress(s, g.(orders := g.orders[repo := order]), done + {repo}, candidates[repo := listed],
        reachable + marked)
  {
    var h := g.(orders := g.orders[repo := order]);
    CandidatesWithinMore(s, g, done, candidates, repo, order, listed);
    assert OrdersWithin(s, h, done + {repo});
    forall d ensures d in reachable + marked <==> MarkedWithin(s, h, done + {repo}, d) {
      MarkedWithinMore(s, g, done, repo, order, h, d);
    }
  }

  lemma ProgressStart(s: State, g: Gc)
    requires forall r :: r in g.orders ==> r in s.manifests && ListsAll(g.orders[r], s.manifests[r])
    ensures Progress(s, g, {}, map[], {})
  {
  }

  /** The marking and the reasons of the first loop. */
  ghost predicate FirstLoop(s: State, g: Gc, done: set<string>, candidates: map<string, seq<Manifest>>,
                            reasons: map<Digest, string>) {
    Progress(s, g, done, candidates, reasons.Keys) && ScopeReasons(s, g, done, reasons)
  }

  lemma FirstLoopStarts(s: State, g: Gc)
    requires forall r :: r in g.orders ==> r in s.manifests && ListsAll(g.orders[r], s.manifests[r])
    ensures FirstLoop(s, g, {}, map[], map[])
  {
    ProgressStart(s, g);
    var none: map<Digest, string> := map[];
    assert none.Keys == {};
  }

  /** One repository out of scope was passed over. */
  lemma ProgressSame(s: State, g: Gc, done: set<string>, candidates: map<string, seq<Manifest>>,
                     reachable: set<Digest>, repo: string)
    requires Progress(s, g, done, candidates, reachable) && !InScope(g.filter, repo)
    ensures Progress(s, g, done + {repo}, candidates, reachable)
  {
    forall d ensures MarkedWithin(s, g, done + {repo}, d) <==> MarkedWithin(s, g, done, d) {
    }
  }

  /** The first loop is done. */
  lemma ProgressAll(s: State, g: Gc, candidates: map<string, seq<Manifest>>, reachable: set<Digest>)
    requires Progress(s, g, g.orders.Keys, candidates, reachable)
    requires forall r :: r in g.orders <==> r in s.manifests && s.manifests[r] != map[]
    ensures OrdersOf(s, g) && CandidatesOf(s, g, candidates)
    ensures forall d :: d in reachable <==> exists r :: MarkedByScope(s, g, r, d)
  {
    forall d ensures d in reachable <==> exists r :: MarkedByScope(s, g, r, d) {
      if d in reachable {
        var r :| r in g.orders && InScope(g.filter, r) && ScopeMarks(s, r, g.orders[r], |g.orders[r]|, d, g.now);
        assert MarkedByScope(s, g, r, d);
      }
      if r :| MarkedByScope(s, g, r, d) {
        assert ScopeMarks(s, r, g.orders[r], |g.orders[r]|, d, g.now);
      }
    }
  }

  lemma MarkedByEither(s: State, g: Gc, a: set<Digest>, b: set<Digest>)
    requires forall d :: d in a <==> exists r :: MarkedByScope(s, g, r, d)
    requires forall d :: d in b <==> exists r :: MarkedByLive(s, g, r, d)
    ensures forall d :: d in a + b <==> Marked(s, g, d)
  {
  }

  /** Among the first n manifests of the repository, a live one mentions the digest. */
  ghost predicate LiveUpTo(s: State, g: Gc, repo: string, n: int, d: Digest) {
    exists i :: 0 <= i < n && Live(s, g, repo, i) && Mentions(g.orders[repo][i], d)
  }

  lemma LiveStep(s: State, g: Gc, repo: string, k: nat, marked: set<Digest>)
    requires repo in g.orders && k < |g.orders[repo]|
    requires forall d :: d in marked <==> LiveUpTo(s, g, repo, k, d)
    ensures CandidateSomewhere(s, g, g.orders[repo][k].digest) ==>
        forall d :: d in marked <==> LiveUpTo(s, g, repo, k + 1, d)
    ensures !CandidateSomewhere(s, g, g.orders[repo][k].digest) ==>
      forall d :: d in marked || Mentions(g.orders[repo][k], d) <==> LiveUpTo(s, g, repo, k + 1, d)
  {
    forall d ensures LiveUpTo(s, g, repo, k + 1, d) <==>
      LiveUpTo(s, g, repo, k, d) || (Live(s, g, repo, k) && Mentions(g.orders[repo][k], d))
    {
      if LiveUpTo(s, g, repo, k + 1, d) && !LiveUpTo(s, g, repo, k, d) {
        var i :| 0 <= i < k + 1 && Live(s, g, repo, i) && Mentions(g.orders[repo][i], d);
        assert i == k;
      }
    }
  }

  /** What the second loop has found among the first k manifests of the repository. */
  ghost predicate LiveProgress(s: State, g: Gc, repo: string, k: int, marked: map<Digest, string>) {
    && (forall d :: d in marked <==> LiveUpTo(s, g, repo, k, d))
    && (forall d :: d in marked ==> LiveWhy(s, g, repo, k, d, marked[d]))
  }

  lemma LiveProgressStep(s: State, g: Gc, repo: string, k: nat, marked: map<Digest, string>)
    requires repo in g.orders && k < |g.orders[repo]| && LiveProgress(s, g, repo, k, marked)
    ensures CandidateSomewhere(s, g, g.orders[repo][k].digest) ==> LiveProgress(s, g, repo, k + 1, marked)
    ensures !CandidateSomewhere(s, g, g.orders[repo][k].digest) ==>
        LiveProgress(s, g, repo, k + 1, WithLive(marked, g.orders[repo][k]))
  {
    LiveStep(s, g, repo, k, marked.Keys);
    LiveReasonsStep(s, g, repo, k, marked);
  }

  lemma LiveProgressAll(s: State, g: Gc, repo: string, marked: map<Digest, string>)
    requires repo in g.orders && LiveProgress(s, g, repo, |g.orders[repo]|, marked)
    ensures forall d :: d in marked <==> MarkedByLive(s, g, repo, d)
    ensures forall d :: d in marked ==> LiveWhy(s, g, repo, |g.orders[repo]|, d, marked[d])
  {
    forall d ensures LiveUpTo(s, g, repo, |g.orders[repo]|, d) <==> MarkedByLive(s, g, repo, d) {
    }
  }
}
