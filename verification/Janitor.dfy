/** The janitor: cleaning up expired uploads, and finding blobs that no manifest mentions. */
module Janitor {
  import opened Basics
  import opened Ordering
  import opened Artifacts
  import opened Upload
  import opened Store
  import opened Collection
  import opened CollectionLaws
  import opened Lifecycle
  import opened Marking
  import C = Catalog

  ghost function ExpiredIds(s: State, now: int): set<string> {
    set id | id in s.uploads && IsExpired(s.uploads[id], now)
  }

  ghost function TempKeys(ids: set<string>): set<string> {
    set id | id in ids :: TempKey(id)
  }

  /** The sessions go with their temp objects. */
  ghost function WithoutUploads(s: State, ids: set<string>): State {
    s.(uploads := s.uploads - ids, files := s.files - TempKeys(ids))
  }

  ghost function Cleaned(s: State, now: int): State {
    WithoutUploads(s, ExpiredIds(s, now))
  }

  lemma OneMoreRemoved(s: State, ids: set<string>, id: string)
    requires id in s.uploads && s.uploads[id].id == id && id !in ids
    ensures DeletedUpload(WithoutUploads(s, ids), id) == (WithoutUploads(s, ids + {id}), Pass)
  {
    assert TempKeys(ids + {id}) == TempKeys(ids) + {TempKey(id)};
    assert s.files - TempKeys(ids + {id}) == s.files - TempKeys(ids) - {TempKey(id)};
    assert s.uploads - (ids + {id}) == s.uploads - ids - {id};
  }

  /** Among the first n manifests, one mentions the digest. */
  ghost predicate MentionedUpTo(list: seq<Manifest>, n: int, d: Digest)
    requires 0 <= n <= |list|
  {
    exists i :: 0 <= i < n && Mentions(list[i], d)
  }

  ghost predicate MentionedIn(s: State, repo: string, d: Digest) {
    exists e :: e in ManifestsOf(s, repo) && Mentions(ManifestsOf(s, repo)[e], d)
  }

  lemma MentionedStep(list: seq<Manifest>, n: nat, marked: set<Digest>)
    requires n < |list|
    requires forall d :: d in marked <==> MentionedUpTo(list, n, d)
    ensures forall d :: d in marked || Mentions(list[n], d) <==> MentionedUpTo(list, n + 1, d)
  {
  }

  lemma ListMentions(s: State, repo: string, list: seq<Manifest>, d: Digest)
    requires repo in s.manifests && ListsAll(list, s.manifests[repo])
    ensures MentionedUpTo(list, |list|, d) <==> MentionedIn(s, repo, d)
  {
    if MentionedIn(s, repo, d) {
      var e :| e in ManifestsOf(s, repo) && Mentions(ManifestsOf(s, repo)[e], d);
      assert s.manifests[repo][e] in list;
    }
    if MentionedUpTo(list, |list|, d) {
      var i :| 0 <= i < |list| && Mentions(list[i], d);
      assert list[i].digest in ManifestsOf(s, repo);
    }
  }

  lemma OrphanIsUnmentioned(s: State, d: Digest)
    ensures Orphan(s, d) <==> d in s.blobs && forall r :: !MentionedIn(s, r, d)
  {
    if d in s.blobs && !Orphan(s, d) {
      var r, e :| e in ManifestsOf(s, r) && Mentions(ManifestsOf(s, r)[e], d);
      assert MentionedIn(s, r, d);
    }
  }

  class Janitor {
    const catalog: C.Catalog

    constructor (catalog: C.Catalog)
      ensures this.catalog == catalog
    {
      this.catalog := catalog;
    }

    ghost function State(): State
      reads catalog, catalog.objects
    {
      catalog.Snapshot()
    }

    /** Deletes the expired uploads; no reservation is released. */
    method Run(now: int) returns (removed: seq<string>)
      requires Keyed(State())
      modifies catalog, catalog.objects
      ensures State() == Cleaned(old(State()), now)
      ensures Enumerates(removed, ExpiredIds(old(State()), now))
    {
      ghost var s := State();
      var list := catalog.ListExpiredUploads(now);
      removed := [];
      ghost var ids: set<string> := {};
      assert s == WithoutUploads(s, {});
      for i := 0 to |list|
        invariant State() == WithoutUploads(s, ids)
        invariant Distinct(removed)
        invariant forall id :: id in removed <==> id in ids
        invariant forall id :: id in ids <==> exists k :: 0 <= k < i && list[k].id == id
      {
        OneMoreRemoved(s, ids, list[i].id);
        var o := catalog.DeleteUpload(list[i].id);
        removed := removed + [list[i].id];
        ids := ids + {list[i].id};
      }
      forall id | id in ExpiredIds(s, now) ensures id in ids {
        assert s.uploads[id] in list;
      }
      assert ids == ExpiredIds(s, now);
      removed := SortNames(removed, ids);
    }

    /** What one repository's manifests mention. */
    static method Referenced(list: seq<Manifest>) returns (referenced: set<Digest>)
      ensures forall d :: d in referenced <==> MentionedUpTo(list, |list|, d)
    {
      referenced := {};
      for i := 0 to |list|
        invariant forall d :: d in referenced <==> MentionedUpTo(list, i, d)
      {
        MentionedStep(list, i, referenced);
        var refs := list[i].References();
        referenced := referenced + {list[i].digest} + (set d | d in refs);
      }
    }

    method ReferencedAnywhere(ghost s: State) returns (referenced: set<Digest>)
      requires s == State() && Keyed(s)
      ensures forall d :: d in referenced <==> exists r :: MentionedIn(s, r, d)
    {
      var all := catalog.ListAllManifests();
      referenced := CollectReferences(s, all);
      forall d, r | MentionedIn(s, r, d) ensures r in all {
        assert s.manifests[r] != map[];
      }
    }

    static method CollectReferences(ghost s: State, all: map<string, seq<Manifest>>) returns (referenced: set<Digest>)
      requires forall r :: r in all ==> r in s.manifests && ListsAll(all[r], s.manifests[r])
      ensures forall d :: d in referenced <==> exists r :: r in all && MentionedIn(s, r, d)
    {
      referenced := {};
      var rest := all.Keys;
      while rest != {}
        invariant rest <= all.Keys
        invariant forall d :: d in referenced <==> exists r :: r in all && r !in rest && MentionedIn(s, r, d)
        decreases rest
      {
        var r :| r in rest;
        rest := rest - {r};
        var more := Referenced(all[r]);
        forall d ensures MentionedUpTo(all[r], |all[r]|, d) <==> MentionedIn(s, r, d) {
          ListMentions(s, r, all[r], d);
        }
        referenced := referenced + more;
      }
    }

    /** Blobs that no manifest is or names, sorted by their digests. */
    method FindOrphans() returns (list: seq<Digest>)
      requires Keyed(State())
      ensures forall d :: d in list <==> Orphan(State(), d)
      ensures Distinct(list) && SortedBy(TextNotAfter, list)
    {
      ghost var s := State();
      var referenced := ReferencedAnywhere(s);
      list := BlobsOutside(catalog, referenced);
      forall d ensures d in s.blobs && d !in referenced <==> Orphan(s, d) {
        OrphanIsUnmentioned(s, d);
      }
    }
  }
}
