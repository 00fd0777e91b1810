/** The lifecycle service's garbage collector. */
module Lifecycle {
  import opened Basics
  import opened Ordering
  import opened Artifacts
  import opened Policy
  import opened Pages
  import opened Store
  import opened Collection
  import opened Marking
  import opened Text
  import C = Catalog
  import R = Replication

  const CONFIRMATION := "delete-unreferenced-artifacts"

  datatype GcRequest = GcRequest(idempotencyKey: string, confirm: string, dryRun: bool, repository: string)

  datatype GcReport = GcReport(
    id: string,
    dryRun: bool,
    candidateManifests: seq<Located>,
    candidateBlobs: seq<Digest>,
    deletedManifests: seq<Located>,
    deletedBlobs: seq<Digest>,
    protectedBy: map<Digest, string>)

  /** The report's candidates and protected digests are those of the run, and the reasons are such as a loop over
      the repositories in some order leaves behind. */
  ghost predicate Reports(s: State, g: Gc, r: GcReport) {
    && Distinct(r.candidateManifests) && SortedBy(LocatedNotAfter, r.candidateManifests)
    && (forall repo, d :: Located(repo, d) in r.candidateManifests <==> Candidate(s, g, repo, d))
    && Distinct(r.candidateBlobs) && SortedBy(TextNotAfter, r.candidateBlobs)
    && (forall d :: d in r.candidateBlobs <==> CandidateBlob(s, g, d))
    && (forall d :: d in r.protectedBy <==> Marked(s, g, d))
    && (forall d :: d in r.protectedBy ==> Explained(s, g, d, r.protectedBy[d]))
  }

  /** All candidate manifests are reported as deleted, and the candidate blobs without references. */
  ghost predicate ReportsDeletions(s: State, g: Gc, r: GcReport) {
    && (forall repo, d :: Located(repo, d) in r.deletedManifests <==> Candidate(s, g, repo, d))
    && (forall d :: d in r.deletedBlobs <==> CandidateBlob(s, g, d) && s.blobs[d].references <= 0)
  }

  /** The blobs outside a set of digests, in the order of their digests' text. */
  method BlobsOutside(catalog: C.Catalog, reachable: set<Digest>) returns (list: seq<Digest>)
    requires Keyed(catalog.Snapshot())
    ensures Distinct(list)
    ensures forall d :: d in list <==> d in catalog.blobs && d !in reachable
    ensures SortedBy(TextNotAfter, list)
  {
    var blobs := catalog.ListBlobs();
    list := [];
    for i := 0 to |blobs|
      invariant Distinct(list)
      invariant forall d :: d in list <==> d !in reachable && exists k :: 0 <= k < i && blobs[k].digest == d
    {
      if blobs[i].digest !in reachable { list := list + [blobs[i].digest]; }
    }
    forall d | d in catalog.blobs ensures exists k :: 0 <= k < |blobs| && blobs[k].digest == d {
      assert catalog.blobs[d] in blobs;
    }
    ghost var unsorted := list;
    TextNotAfterIsTotal();
    list := SortSlice(list, TextNotAfter);
    SameElements(unsorted, list);
    PermutationKeepsDistinct(unsorted, list);
  }

  // ---------------------------------------------------------------- replication

  /** A blank id stands for a generated one. */
  function ReplicationCreated(s: State, source: string, target: string, id: string, generated: string)
    : (State, Outcome)
  {
    if source !in s.repos then (s, Fail(ManifestNotFound))
    else if TrimSpace(target) == "" then (s, Fail(Validation("target")))
    else (CreatedReplication(s, if TrimSpace(id) == "" then generated else id, R.NEW_TASK), Pass)
  }

  /** One RunReplication call that nobody interrupts. */
  function ReplicationRan(s: State, id: string, now: int, result: R.CopyResult): (State, Result<R.TaskValue>) {
    if id !in s.replications then (s, Failure(ManifestNotFound))
    else
      match R.Claimed(s.replications[id], now + R.LEASE, now)
      case Failure(e) => (s, Failure(e))
      case Success(t) =>
        var v := R.Finished(t, result);
        (s.(replications := s.replications[id := v]), Success(v))
  }

  /** The uninterrupted call is the five steps of one worker, run in a row. */
  lemma RunReplicationIsFiveSteps(s: State, id: string, p: R.System, w: nat, now: int, result: R.CopyResult)
    requires id in s.replications && p.stored == s.replications[id] && R.WorkerOf(p, w) == R.Idle
    ensures
      var claiming := R.Next(R.Next(p, R.Load(w)), R.Claim(w, now));
      var copied := R.Next(R.Next(claiming, R.ClaimUpdate(w)), R.Copy(w, result));
      ReplicationRan(s, id, now, result).0.replications[id] == R.Next(copied, R.FinishUpdate(w)).stored
  {
    var p1 := R.Next(p, R.Load(w));
    var p2 := R.Next(p1, R.Claim(w, now));
    var p3 := R.Next(p2, R.ClaimUpdate(w));
    if R.Claimed(p.stored, now + R.LEASE, now).Success? {
      var t := R.Claimed(p.stored, now + R.LEASE, now).value;
      assert p2 == R.Goes(p1, w, R.Claiming(t, now));
      assert R.WorkerOf(p3, w) == R.Copying(t);
    } else {
      assert R.WorkerOf(p3, w) == R.Idle;
    }
  }

  class LifecycleService {
    const catalog: C.Catalog

    constructor (catalog: C.Catalog)
      ensures this.catalog == catalog
    {
      this.catalog := catalog;
    }

    ghost function State(): State
      reads catalog, catalog.objects
    {
      catalog.Snapshot()
    }

    /** Follows the pages of tags until there is no next one. */
    method ListAllTags(repo: string) returns (out: seq<TagValue>)
      ensures out == ValuesAt(CrawledTags(State(), repo), TagsOf(State(), repo))
    {
      ghost var entries := TagsOf(State(), repo);
      out := [];
      var last := "";
      while true
        invariant out + StillToCome(entries, last) == StillToCome(entries, "")
        decreases |NamesAfter(entries.Keys, last)|
      {
        var p := catalog.ListTags(repo, PageRequest(1000, last));
        CrawlPageValues(entries, last, p);
        JoinThree(out, p.items, StillToCome(entries, p.next));
        out := out + p.items;
        if p.next == "" { return; }
        last := p.next;
      }
    }

    /** The digests that the repository's tags point to, with the reasons that protect them. */
    method TaggedDigests(repo: string) returns (tagged: map<Digest, string>)
      ensures forall d :: d in tagged <==> Tagged(State(), repo, d)
      ensures forall d :: d in tagged ==> IsTagReason(CrawledValues(State(), repo), d, tagged[d])
    {
      var tags := ListAllTags(repo);
      tagged := map[];
      for i := 0 to |tags|
        invariant TagReasons(tags[..i], tagged)
      {
        TagReasonStep(tags, i, tagged);
        tagged := tagged[tags[i].digest := TagReason(tags[i])];
      }
      assert tags[..|tags|] == tags;
      ghost var s := State();
      forall d ensures Tagged(s, repo, d) <==> Pointed(tags, d) {
        CrawledIsTagged(s, repo, d);
      }
    }

    /** Whether some policy keeps the manifest. */
    static method KeptByPolicy(ghost s: State, policies: seq<RetentionPolicy>, repo: string, index: int,
                               createdAt: int, now: int)
      returns (keep: bool)
      requires ListsPolicies(policies, s.policies)
      ensures keep <==> Retained(s, repo, index, createdAt, now)
    {
      keep := false;
      for i := 0 to |policies|
        invariant keep <==> exists k :: 0 <= k < i && policies[k].Keeps(repo, index, createdAt, now)
      {
        var p := policies[i];
        if p.Applies(repo) && (p.keepLast > index || (p.maxAge > 0 && createdAt > now - p.maxAge)) { keep := true; }
      }
      if keep {
        ghost var k :| 0 <= k < |policies| && policies[k].Keeps(repo, index, createdAt, now);
        assert IsStored(policies[k], s.policies);
      }
      if Retained(s, repo, index, createdAt, now) {
        ghost var id :| id in s.policies && s.policies[id].Keeps(repo, index, createdAt, now);
        assert IsStored(s.policies[id], s.policies);
      }
    }

    /** Sorts one repository's manifests, and splits them into tagged, retained and candidate ones. */
    method MarkRepository(ghost s: State, policies: seq<RetentionPolicy>, repo: string, manifests: seq<Manifest>,
                          now: int)
      returns (order: seq<Manifest>, candidates: seq<Manifest>, reachable: map<Digest, string>)
      requires s == State() && ListsPolicies(policies, s.policies)
      requires repo in s.manifests && ListsAll(manifests, s.manifests[repo])
      ensures NewestFirst(order, s.manifests[repo])
      ensures ListedUpTo(s, repo, order, |order|, candidates, now)
      ensures forall d :: d in reachable <==> ScopeMarks(s, repo, order, |order|, d, now)
      ensures forall d :: d in reachable ==> ScopeWhy(s, repo, order, |order|, d, reachable[d], now)
    {
      var tagged := TaggedDigests(repo);
      order := SortSlice(manifests, NewerFirst);
      PermutationListsAll(manifests, order, s.manifests[repo]);
      candidates, reachable := Split(s, policies, repo, order, tagged, now);
    }

    /** The loop over one repository's sorted manifests. */
    static method Split(ghost s: State, policies: seq<RetentionPolicy>, repo: string, order: seq<Manifest>,
                        tagged: map<Digest, string>, now: int)
      returns (candidates: seq<Manifest>, reachable: map<Digest, string>)
      requires ListsPolicies(policies, s.policies)
      requires forall d :: d in tagged <==> Tagged(s, repo, d)
      requires forall d :: d in tagged ==> IsTagReason(CrawledValues(s, repo), d, tagged[d])
      requires forall i, j :: 0 <= i < j < |order| ==> order[i].digest != order[j].digest
      ensures ListedUpTo(s, repo, order, |order|, candidates, now)
      ensures forall d :: d in reachable <==> ScopeMarks(s, repo, order, |order|, d, now)
      ensures forall d :: d in reachable ==> ScopeWhy(s, repo, order, |order|, d, reachable[d], now)
    {
      candidates, reachable := [], tagged;
      for index := 0 to |order|
        invariant ListedUpTo(s, repo, order, index, candidates, now)
        invariant forall d :: d in reachable <==> ScopeMarks(s, repo, order, index, d, now)
        invariant forall d :: d in reachable ==> ScopeWhy(s, repo, order, index, d, reachable[d], now)
      {
        var m := order[index];
        ListedStep(s, repo, order, index, candidates, now);
        MarksStep(s, repo, order, index, reachable.Keys, now);
        forall d, why { ScopeWhyStep(s, repo, order, index, d, why, now); }
        if m.digest in tagged { continue; }
        var keep := KeptByPolicy(s, policies, repo, index, m.createdAt, now);
        if keep {
          reachable := reachable[m.digest := RETENTION];
        } else {
          candidates := candidates + [m];
        }
      }
    }

    /** candidateContains: whether any repository's candidates hold the digest. */
    static method CandidateContains(candidates: map<string, seq<Manifest>>, d: Digest) returns (found: bool)
      ensures found <==> exists r :: Holds(candidates, r, d)
    {
      var rest := candidates.Keys;
      while rest != {}
        invariant rest <= candidates.Keys
        invariant forall r, i :: r in candidates && r !in rest && 0 <= i < |candidates[r]| ==>
            candidates[r][i].digest != d
        decreases rest
      {
        var r :| r in rest;
        rest := rest - {r};
        var items := candidates[r];
        for k := 0 to |items|
          invariant forall i :: 0 <= i < k ==> items[i].digest != d
        {
          if items[k].digest == d {
            assert Holds(candidates, r, d);
            return true;
          }
        }
      }
      return false;
    }

    /** The body of the first loop for one repository. */
    method MarkNext(ghost s: State, policies: seq<RetentionPolicy>, ghost done: set<string>, repo: string,
                    filter: string,
                    now: int, orders: map<string, seq<Manifest>>, candidates: map<string, seq<Manifest>>,
                    reachable: map<Digest, string>)
      returns (orders': map<string, seq<Manifest>>, candidates': map<string, seq<Manifest>>,
               reachable': map<Digest, string>)
      requires s == State() && ListsPolicies(policies, s.policies)
      requires FirstLoop(s, Gc(orders, filter, now), done, candidates, reachable)
      requires repo !in done && repo in orders
      ensures forall r :: r in orders' <==> r in orders
      ensures FirstLoop(s, Gc(orders', filter, now), done + {repo}, candidates', reachable')
    {
      orders', candidates', reachable' := orders, candidates, reachable;
      ghost var g := Gc(orders, filter, now);
      if filter != "" && repo != filter {
        ProgressSame(s, g, done, candidates, reachable.Keys, repo);
        ScopeReasonsSame(s, g, done, reachable, repo);
        return;
      }
      var order, listed, marked := MarkRepository(s, policies, repo, orders[repo], now);
      ProgressMore(s, g, done, candidates, reachable.Keys, repo, order, listed, marked.Keys);
      ScopeReasonsMore(s, g, done, reachable, repo, order, marked);
      assert (reachable + marked).Keys == reachable.Keys + marked.Keys;
      orders', candidates', reachable' := orders[repo := order], candidates[repo := listed], reachable + marked;
    }

    /** The first loop over the repositories: those in scope are sorted and split. */
    method MarkScope(ghost s: State, all: map<string, seq<Manifest>>, policies: seq<RetentionPolicy>, filter: string,
                     now: int)
      returns (orders: map<string, seq<Manifest>>, candidates: map<string, seq<Manifest>>,
               reachable: map<Digest, string>)
      requires s == State() && ListsPolicies(policies, s.policies)
      requires forall r :: r in all ==> r in s.manifests && ListsAll(all[r], s.manifests[r])
      ensures forall r :: r in orders <==> r in all
      ensures FirstLoop(s, Gc(orders, filter, now), all.Keys, candidates, reachable)
    {
      orders, candidates, reachable := all, map[], map[];
      var rest := all.Keys;
      ghost var done: set<string> := {};
      FirstLoopStarts(s, Gc(all, filter, now));
      while rest != {}
        invariant forall r :: r in all <==> r in done || r in rest
        invariant forall r :: r in done ==> r !in rest
        invariant forall r :: r in orders <==> r in all
        invariant FirstLoop(s, Gc(orders, filter, now), done, candidates, reachable)
        decreases rest
      {
        var repo :| repo in rest;
        rest := rest - {repo};
        orders, candidates, reachable :=
          MarkNext(s, policies, done, repo, filter, now, orders, candidates, reachable);
        done := done + {repo};
      }
      assert done == all.Keys;
    }

    /** Whether the digest is a candidate of any repository. */
    static method IsRemoved(ghost s: State, ghost g: Gc, candidates: map<string, seq<Manifest>>, d: Digest)
      returns (removed: bool)
      requires CandidatesOf(s, g, candidates)
      ensures removed <==> CandidateSomewhere(s, g, d)
    {
      removed := CandidateContains(candidates, d);
      SomewhereIsListed(s, g, candidates, d);
    }

    /** A live manifest and its references. */
    static method AddLive(marked: map<Digest, string>, m: Manifest) returns (more: map<Digest, string>)
      ensures more == WithLive(marked, m)
    {
      more := marked[m.digest := LIVE];
      ghost var live := more;
      var refs := m.References();
      assert WithReferences(live, refs[..0]) == live;
      for i := 0 to |refs|
        invariant more == WithReferences(live, refs[..i])
      {
        WithReferencesStep(live, refs, i);
        more := more[refs[i] := REFERENCE];
      }
      assert refs[..|refs|] == refs;
    }

    /** The body of the second loop. */
    static method MarkOne(ghost s: State, ghost g: Gc, repo: string, ghost k: nat, m: Manifest,
                          candidates: map<string, seq<Manifest>>, marked: map<Digest, string>)
      returns (more: map<Digest, string>)
      requires repo in g.orders && k < |g.orders[repo]| && g.orders[repo][k] == m
      requires CandidatesOf(s, g, candidates) && LiveProgress(s, g, repo, k, marked)
      ensures LiveProgress(s, g, repo, k + 1, more)
    {
      var removed := IsRemoved(s, g, candidates, m.digest);
      LiveProgressStep(s, g, repo, k, marked);
      if removed { return marked; }
      more := AddLive(marked, m);
    }

    /** The second loop: one repository's live manifests and their references. */
    static method MarkLiveIn(ghost s: State, ghost g: Gc, repo: string, list: seq<Manifest>,
                             candidates: map<string, seq<Manifest>>)
      returns (marked: map<Digest, string>)
      requires repo in g.orders && g.orders[repo] == list && CandidatesOf(s, g, candidates)
      ensures forall d :: d in marked <==> MarkedByLive(s, g, repo, d)
      ensures forall d :: d in marked ==> LiveWhy(s, g, repo, |list|, d, marked[d])
    {
      marked := map[];
      for k := 0 to |list|
        invariant LiveProgress(s, g, repo, k, marked)
      {
        var m := list[k];
        marked := MarkOne(s, g, repo, k, m, candidates, marked);
      }
      LiveProgressAll(s, g, repo, marked);
    }

    static method MarkLive(ghost s: State, ghost g: Gc, orders: map<string, seq<Manifest>>,
                           candidates: map<string, seq<Manifest>>)
      returns (marked: map<Digest, string>)
      requires g.orders == orders && CandidatesOf(s, g, candidates)
      ensures forall d :: d in marked <==> exists r :: MarkedByLive(s, g, r, d)
      ensures forall d :: d in marked ==> LiveSomewhere(s, g, d, marked[d])
    {
      marked := map[];
      var rest := orders.Keys;
      while rest != {}
        invariant rest <= orders.Keys
        invariant forall d :: d in marked <==> exists r :: r in orders && r !in rest && MarkedByLive(s, g, r, d)
        invariant forall d :: d in marked ==> LiveSomewhere(s, g, d, marked[d])
        decreases rest
      {
        var repo :| repo in rest;
        rest := rest - {repo};
        var more := MarkLiveIn(s, g, repo, orders[repo], candidates);
        marked := marked + more;
      }
      forall d ensures d in marked <==> exists r :: MarkedByLive(s, g, r, d) {
        if r :| MarkedByLive(s, g, r, d) {
          assert r in orders;
        }
      }
    }

    /** The manifests that a loop over the candidate map visits, in the order it does. */
    static method Visited(candidates: map<string, seq<Manifest>>) returns (list: seq<Located>)
      requires forall r, i, j :: r in candidates && 0 <= i < j < |candidates[r]| ==>
          candidates[r][i].digest != candidates[r][j].digest
      ensures Distinct(list)
      ensures forall r, d :: Located(r, d) in list <==> Holds(candidates, r, d)
    {
      list := [];
      var rest := candidates.Keys;
      while rest != {}
        invariant rest <= candidates.Keys
        invariant Distinct(list)
        invariant forall r, d :: Located(r, d) in list <==> r !in rest && Holds(candidates, r, d)
        decreases rest
      {
        var r :| r in rest;
        rest := rest - {r};
        var items := candidates[r];
        ghost var before := list;
        for k := 0 to |items|
          invariant Distinct(list)
          invariant forall q, d :: Located(q, d) in list <==>
            Located(q, d) in before || (q == r && exists i :: 0 <= i < k && items[i].digest == d)
        {
          assert Located(r, items[k].digest) !in before;
          list := list + [Located(r, items[k].digest)];
        }
      }
    }

    /** Deletes one candidate manifest; that never fails. */
    method DropOne(ghost s: State, ghost done: seq<Deletion>, repo: string, d: Digest)
      requires State() == Swept(s, done)
      requires d in ManifestsOf(s, repo) && DropManifest(repo, d) !in done
      modifies catalog
      ensures State() == Swept(s, done + [DropManifest(repo, d)])
    {
      SweptNext(s, done, repo, d);
      var o := catalog.DeleteManifest(repo, d);
      assert o.Pass?;
    }

    /** Deletes the candidate manifests. */
    method SweepManifests(ghost s: State, ghost g: Gc, candidates: map<string, seq<Manifest>>)
      returns (deleted: seq<Located>)
      requires s == State() && OrdersOf(s, g) && CandidatesOf(s, g, candidates)
      modifies catalog
      ensures State() == Swept(s, ManifestDrops(deleted))
      ensures Distinct(deleted) && forall r, d :: Located(r, d) in deleted <==> Candidate(s, g, r, d)
    {
      var list := Visited(candidates);
      forall r, d ensures Located(r, d) in list <==> Candidate(s, g, r, d) {
        CandidatesAreListed(s, g, candidates, r, d);
      }
      forall i | 0 <= i < |list| ensures list[i].digest in ManifestsOf(s, list[i].repo) {
        assert Located(list[i].repo, list[i].digest) in list;
      }
      deleted := DropAll(s, list);
    }

    /** The loop of the manifest deletions. */
    method DropAll(ghost s: State, list: seq<Located>) returns (deleted: seq<Located>)
      requires s == State() && Distinct(list)
      requires forall i :: 0 <= i < |list| ==> list[i].digest in ManifestsOf(s, list[i].repo)
      modifies catalog
      ensures deleted == list && State() == Swept(s, ManifestDrops(list))
    {
      deleted := [];
      for i := 0 to |list|
        invariant deleted == list[..i]
        invariant State() == Swept(s, ManifestDrops(list[..i]))
      {
        ManifestDropsStep(list, i);
        DropOne(s, ManifestDrops(list[..i]), list[i].repo, list[i].digest);
        deleted := deleted + [list[i]];
      }
      assert list[..|list|] == list;
    }

    /** Deletes one candidate blob, unless it has references. */
    method DropOneBlob(ghost s: State, ghost done: seq<Deletion>, d: Digest) returns (o: Outcome)
      requires State() == Swept(s, done) && d in s.blobs && DropBlob(d) !in done
      modifies catalog, catalog.objects
      ensures State() == Swept(s, done + [DropBlob(d)])
      ensures o.Pass? <==> s.blobs[d].references <= 0
    {
      SweptNextBlob(s, done, d);
      o := catalog.DeleteBlob(d);
    }

    /** Of the first i blobs, those without references are deleted. */
    ghost predicate SweptBlobs(s: State, list: seq<Digest>, i: int, deleted: seq<Digest>)
      requires 0 <= i <= |list| && forall d :: d in list ==> d in s.blobs
    {
      forall d :: d in deleted <==> d in list[..i] && s.blobs[d].references <= 0
    }

    method SweepBlob(ghost s: State, ghost before: seq<Deletion>, list: seq<Digest>, i: nat, deleted: seq<Digest>)
      returns (more: seq<Digest>)
      requires i < |list| && Distinct(list) && forall d :: d in list ==> d in s.blobs
      requires forall x :: x in before ==> x.DropManifest?
      requires State() == Swept(s, before + BlobDrops(list[..i])) && SweptBlobs(s, list, i, deleted)
      modifies catalog, catalog.objects
      ensures State() == Swept(s, before + BlobDrops(list[..i + 1])) && SweptBlobs(s, list, i + 1, more)
    {
      BlobDropsStep(before, list, i);
      NotDroppedYet(before, list, i);
      assert list[i] in list && list[..i + 1] == list[..i] + [list[i]];
      var o := DropOneBlob(s, before + BlobDrops(list[..i]), list[i]);
      more := if o.Pass? then deleted + [list[i]] else deleted;
    }

    /** Deletes the candidate blobs that have no references. */
    method SweepBlobs(ghost s: State, ghost before: seq<Deletion>, list: seq<Digest>) returns (deleted: seq<Digest>)
      requires State() == Swept(s, before)
      requires forall x :: x in before ==> x.DropManifest?
      requires Distinct(list) && forall d :: d in list ==> d in s.blobs
      modifies catalog, catalog.objects
      ensures State() == Swept(s, before + BlobDrops(list))
      ensures forall d :: d in deleted <==> d in list && s.blobs[d].references <= 0
    {
      deleted := [];
      assert before + BlobDrops(list[..0]) == before;
      for i := 0 to |list|
        invariant State() == Swept(s, before + BlobDrops(list[..i]))
        invariant SweptBlobs(s, list, i, deleted)
      {
        assert list[i] in list;
        deleted := SweepBlob(s, before, list, i, deleted);
      }
      assert list[..|list|] == list;
    }

    /** The first marking loop, on everything the catalog lists. */
    method MarkFirst(ghost s: State, filter: string, now: int)
      returns (orders: map<string, seq<Manifest>>, candidates: map<string, seq<Manifest>>,
               reachable: map<Digest, string>)
      requires s == State() && Keyed(s)
      ensures OrdersOf(s, Gc(orders, filter, now)) && CandidatesOf(s, Gc(orders, filter, now), candidates)
      ensures forall d :: d in reachable <==> exists r :: MarkedByScope(s, Gc(orders, filter, now), r, d)
      ensures ScopeReasons(s, Gc(orders, filter, now), orders.Keys, reachable)
    {
      var all := catalog.ListAllManifests();
      var policies := catalog.ListPolicies();
      orders, candidates, reachable := MarkScope(s, all, policies, filter, now);
      assert orders.Keys == all.Keys;
      ProgressAll(s, Gc(orders, filter, now), candidates, reachable.Keys);
    }

    /** Both marking loops. */
    method Mark(ghost s: State, filter: string, now: int)
      returns (ghost g: Gc, candidates: map<string, seq<Manifest>>, reachable: map<Digest, string>)
      requires s == State() && Keyed(s)
      ensures OrdersOf(s, g) && g.filter == filter && g.now == now && CandidatesOf(s, g, candidates)
      ensures forall d :: d in reachable <==> Marked(s, g, d)
      ensures forall d :: d in reachable ==> Explained(s, g, d, reachable[d])
    {
      var orders, scope;
      orders, candidates, scope := MarkFirst(s, filter, now);
      g := Gc(orders, filter, now);
      var live := MarkLive(s, g, orders, candidates);
      MarkedByEither(s, g, scope.Keys, live.Keys);
      reachable := scope + live;
    }

    /** The candidate manifests, sorted by their text. */
    static method SortedCandidates(ghost s: State, ghost g: Gc, candidates: map<string, seq<Manifest>>)
      returns (list: seq<Located>)
      requires CandidatesOf(s, g, candidates)
      ensures Distinct(list) && SortedBy(LocatedNotAfter, list)
      ensures forall r, d :: Located(r, d) in list <==> Candidate(s, g, r, d)
    {
      var visited := Visited(candidates);
      forall r, d ensures Located(r, d) in visited <==> Candidate(s, g, r, d) {
        CandidatesAreListed(s, g, candidates, r, d);
      }
      LocatedNotAfterIsTotal();
      list := SortSlice(visited, LocatedNotAfter);
      SameElements(visited, list);
      PermutationKeepsDistinct(visited, list);
    }

    /** The report of a run that deletes nothing. */
    method Report(ghost s: State, ghost g: Gc, id: string, candidates: map<string, seq<Manifest>>,
                  reachable: map<Digest, string>)
      returns (r: GcReport)
      requires s == State() && Keyed(s) && OrdersOf(s, g) && CandidatesOf(s, g, candidates)
      requires forall d :: d in reachable <==> Marked(s, g, d)
      requires forall d :: d in reachable ==> Explained(s, g, d, reachable[d])
      ensures r.id == id && r.dryRun && Reports(s, g, r) && r.deletedManifests == [] && r.deletedBlobs == []
    {
      var manifests := SortedCandidates(s, g, candidates);
      var blobs := BlobsOutside(catalog, reachable.Keys);
      return GcReport(id, true, manifests, blobs, [], [], reachable);
    }

    /** One run; `g` and `deletions` say in which order it saw the manifests and what it deleted. */
    method GarbageCollect(request: GcRequest, now: int)
      returns (r: Result<GcReport>, ghost g: Gc, ghost deletions: seq<Deletion>)
      requires Keyed(State())
      modifies catalog, catalog.objects
      ensures r.Failure? <==>
          request.idempotencyKey == "" || (!request.dryRun && request.confirm != "delete-unreferenced-artifacts")
      ensures r.Failure? ==>
          r.error == if request.idempotencyKey == "" then Validation("Idempotency-Key") else PreconditionFailed
      ensures r.Failure? || request.dryRun ==> deletions == []
      ensures State() == Swept(old(State()), deletions)
      ensures r.Success? ==> OrdersOf(old(State()), g) && g.filter == request.repository && g.now == now
      ensures r.Success? ==> r.value.id == "gc-" + request.idempotencyKey
      ensures r.Success? ==> r.value.dryRun == request.dryRun && Reports(old(State()), g, r.value)
      ensures r.Success? && request.dryRun ==> r.value.deletedManifests == [] && r.value.deletedBlobs == []
      ensures r.Success? && !request.dryRun ==>
          IsSweep(old(State()), g, deletions) && ReportsDeletions(old(State()), g, r.value)
      ensures r.Success? ==> forall x :: x in r.value.candidateManifests || x in r.value.deletedManifests ==>
          (request.repository == "" || x.repo == request.repository)
    {
      ghost var s := State();
      g, deletions := Gc(map[], "", 0), [];
      if request.idempotencyKey == "" { return Failure(Validation("Idempotency-Key")), g, []; }
      if !request.dryRun && request.confirm != CONFIRMATION { return Failure(PreconditionFailed), g, []; }
      var candidates, reachable;
      g, candidates, reachable := Mark(s, request.repository, now);
      var report := Report(s, g, "gc-" + request.idempotencyKey, candidates, reachable);
      if request.dryRun { return Success(report), g, []; }
      var manifests := SweepManifests(s, g, candidates);
      var blobs := SweepBlobs(s, ManifestDrops(manifests), report.candidateBlobs);
      deletions := ManifestDrops(manifests) + BlobDrops(report.candidateBlobs);
      DropsAreASweep(s, g, manifests, report.candidateBlobs);
      r := Success(report.(dryRun := false, deletedManifests := manifests, deletedBlobs := blobs));
    }

    /** `generated` stands for the id made from the clock. */
    method CreateReplication(source: string, target: string, id: string, generated: string) returns (o: Outcome)
      modifies catalog
      ensures (State(), o) == ReplicationCreated(old(State()), source, target, id, generated)
    {
      var found := catalog.Get(source);
      if found.Failure? { return Fail(found.error); }
      if TrimSpace(target) == "" { return Fail(Validation("target")); }
      var name := if TrimSpace(id) == "" then generated else id;
      var task := new R.ReplicationTask(name, R.NEW_TASK);
      catalog.CreateReplication(task);
      return Pass;
    }

    /** The part of RunReplication after the claim is stored: the result is stored unless the task was updated since. */
    method FinishReplication(task: R.ReplicationTask, result: R.CopyResult) returns (r: Result<R.TaskValue>)
      modifies catalog, task
      ensures
        var v := R.Finished(old(task.Value()), result);
        var (t, o) := UpdatedReplication(old(State()), task.id, v, v.version - 1);
        State() == t && r == match o { case Pass => Success(v) case Fail(e) => Failure(e) }
    {
      match result {
        case NoReplicator => task.Fail("capability not implemented");
        case CopyFailed(n, message) => task.bytesCopied := n; task.Fail(message);
        case Copied(n) => task.bytesCopied := n; task.Succeed();
      }
      var update := catalog.UpdateReplication(task, task.version - 1);
      match update {
        case Fail(e) => return Failure(e);
        case Pass => return Success(task.Value());
      }
    }

    /** `result` is what the replicator returns. */
    method RunReplication(id: string, now: int, result: R.CopyResult) returns (r: Result<R.TaskValue>)
      modifies catalog
      ensures (State(), r) == ReplicationRan(old(State()), id, now, result)
    {
      var found := catalog.GetReplication(id);
      if found.None? { return Failure(ManifestNotFound); }
      var task := found.value;
      var before := task.version;
      var claim := task.Claim(now + R.LEASE, now);
      if claim.Fail? { return Failure(claim.error); }
      var update := catalog.UpdateReplication(task, before);
      match update {
        case Fail(e) => return Failure(e);
        case Pass =>
      }
      ghost var claimed, v := task.Value(), R.Finished(task.Value(), result);
      assert State() == old(State()).(replications := old(catalog.replications)[id := claimed]);
      r := FinishReplication(task, result);
      assert r == Success(v);
      assert old(catalog.replications)[id := claimed][id := v] == old(catalog.replications)[id := v];
    }
  }
}
