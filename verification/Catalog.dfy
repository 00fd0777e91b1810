/** The in-memory catalog. */
module Catalog {
  import opened Basics
  import opened Ordering
  import opened Ranges
  import opened Artifacts
  import opened Upload
  import opened Policy
  import opened Objects
  import opened Pages
  import opened Store
  import R = Replication

  predicate IdNotAfter(a: RetentionPolicy, b: RetentionPolicy) { NotAfter(a.id, b.id) }

  lemma IdNotAfterIsTotal()
    ensures TotalPreorder(IdNotAfter)
  {
    NotAfterIsTotal();
    forall x, y ensures IdNotAfter(x, y) || IdNotAfter(y, x) {
      assert NotAfter(x.id, y.id) || NotAfter(y.id, x.id);
    }
    forall x, y, z | IdNotAfter(x, y) && IdNotAfter(y, z) ensures IdNotAfter(x, z) {
      assert NotAfter(x.id, y.id) && NotAfter(y.id, z.id);
    }
  }

  lemma SortedPolicies(unsorted: seq<RetentionPolicy>, list: seq<RetentionPolicy>, policies: map<string,
                       RetentionPolicy>)
    requires multiset(list) == multiset(unsorted) && SortedBy(IdNotAfter, list)
    requires forall i :: 0 <= i < |unsorted| ==> unsorted[i].id in policies && policies[unsorted[i].id] == unsorted[i]
    requires forall i, j :: 0 <= i < j < |unsorted| ==> unsorted[i].id != unsorted[j].id
    requires forall id :: id in policies ==> policies[id] in unsorted
    ensures ListsPolicies(list, policies)
    ensures forall i, j :: 0 <= i < j < |list| ==> Less(list[i].id, list[j].id)
  {
    SameElements(unsorted, list);
    forall i, j | 0 <= i < j < |unsorted| ensures unsorted[i] != unsorted[j] {
      assert unsorted[i].id != unsorted[j].id;
    }
    PermutationKeepsDistinct(unsorted, list);
    forall i, j | 0 <= i < j < |list| ensures Less(list[i].id, list[j].id) {
      assert list[i] in unsorted && list[j] in unsorted && list[i] != list[j];
      assert IdNotAfter(list[i], list[j]);
    }
  }

  class Catalog {
    var repos: map<string, Repository>
    var blobs: map<Digest, Blob>
    var manifests: map<string, Manifests>
    var tags: map<string, Tags>
    var uploads: map<string, SessionValue>
    var quotas: map<string, QuotaValue>
    var policies: map<string, RetentionPolicy>
    var replications: map<string, R.TaskValue>
    const objects: LocalObjectStore

    constructor (objects: LocalObjectStore)
      requires objects.files == map[]
      ensures Snapshot() == EMPTY && this.objects == objects
    {
      repos, blobs, manifests, tags := map[], map[], map[], map[];
      uploads, quotas, policies, replications := map[], map[], map[], map[];
      this.objects := objects;
    }

    function Snapshot(): State
      reads this, objects
    {
      State(repos, blobs, manifests, tags, uploads, quotas, policies, replications, objects.files)
    }

    method Create(name: string, r: Repository) returns (o: Outcome)
      modifies this
      ensures (Snapshot(), o) == CreatedRepo(old(Snapshot()), name, r)
    {
      if name in repos { return Fail(Conflict("repository")); }
      repos := repos[name := r];
      return Pass;
    }

    method Get(name: string) returns (r: Result<Repository>)
      ensures r == if name in repos then Success(repos[name]) else Failure(ManifestNotFound)
    {
      if name !in repos { return Failure(ManifestNotFound); }
      return Success(repos[name]);
    }

    method Update(name: string, r: Repository, version: int) returns (o: Outcome)
      modifies this
      ensures (Snapshot(), o) == UpdatedRepo(old(Snapshot()), name, r, version)
    {
      if name !in repos { return Fail(ManifestNotFound); }
      if repos[name].version != version { return Fail(PreconditionFailed); }
      repos := repos[name := r];
      return Pass;
    }

    /** One page of the repositories whose names start with `prefix`. */
    method List(prefix: string, p: PageRequest) returns (page: Page<Repository>)
      ensures page ==
          PageWith(FirstPage(NamesAfter(WithPrefix(repos.Keys, prefix), p.last), p.Normalized().limit), repos)
    {
      var q := p.Normalized();
      var names := MatchingNames(repos.Keys, prefix, q.last);
      var items: seq<Repository> := [];
      for i := 0 to |names|
        invariant items == ValuesAt(names[..i], repos)
        invariant i <= q.limit
      {
        assert names[..i + 1][..i] == names[..i] && names[i] in names;
        if i == q.limit { return Page(items, names[i]); }
        items := items + [repos[names[i]]];
      }
      assert names[..|names|] == names;
      return Page(items, "");
    }

    /** The loop that collects the names after `last` with a prefix, and the sort. */
    static method MatchingNames(keys: set<string>, prefix: string, last: string) returns (names: seq<string>)
      ensures names == NamesAfter(WithPrefix(keys, prefix), last)
      ensures forall n :: n in names ==> n in keys
    {
      names := [];
      var rest := keys;
      while rest != {}
        invariant rest <= keys
        invariant forall n :: n in names <==> n in keys && n !in rest && prefix <= n && Less(last, n)
        invariant Distinct(names)
        decreases rest
      {
        var n :| n in rest;
        rest := rest - {n};
        if prefix <= n && Less(last, n) { names := names + [n]; }
      }
      ghost var after := After(WithPrefix(keys, prefix), last);
      names := SortNames(names, after);
      EnumerationUnique(names, SortedNames(after), after);
    }

    method GetBlob(d: Digest) returns (b: Result<Blob>)
      ensures b == if d in blobs then Success(blobs[d]) else Failure(BlobNotFound)
    {
      if d !in blobs { return Failure(BlobNotFound); }
      return Success(blobs[d]);
    }

    method PutBlob(b: Blob, data: Bytes) returns (o: Outcome)
      modifies this, objects
      ensures (Snapshot(), o) == Store.PutBlob(old(Snapshot()), b, data)
    {
      if b.digest in blobs {
        if blobs[b.digest].size != b.size { return Fail(Conflict("blob")); }
        return Pass;
      }
      objects.Put(b.storageKey, data);
      blobs := blobs[b.digest := b];
      return Pass;
    }

    method OpenBlob(d: Digest, r: ByteRange) returns (data: Result<Bytes>)
      ensures data == OpenedBlob(Snapshot(), d, r)
    {
      if d !in blobs { return Failure(BlobNotFound); }
      data := objects.Open(blobs[d].storageKey, r);
    }

    method DeleteBlob(d: Digest) returns (o: Outcome)
      modifies this, objects
      ensures (Snapshot(), o) == DeletedBlob(old(Snapshot()), d)
    {
      if d !in blobs { return Fail(BlobNotFound); }
      var b := blobs[d];
      if b.references > 0 { return Fail(Conflict("blob")); }
      blobs := blobs - {d};
      objects.Delete(b.storageKey);
      return Pass;
    }

    method ListBlobs() returns (list: seq<Blob>)
      requires Keyed(Snapshot())
      ensures forall i :: 0 <= i < |list| ==> list[i].digest in blobs && blobs[list[i].digest] == list[i]
      ensures forall i, j :: 0 <= i < j < |list| ==> list[i].digest != list[j].digest
      ensures forall d :: d in blobs ==> blobs[d] in list
    {
      list := [];
      var rest := blobs.Keys;
      while rest != {}
        invariant rest <= blobs.Keys
        invariant forall i :: 0 <= i < |list| ==>
          list[i].digest in blobs && list[i].digest !in rest && blobs[list[i].digest] == list[i]
        invariant forall i, j :: 0 <= i < j < |list| ==> list[i].digest != list[j].digest
        invariant forall d :: d in blobs ==> d in rest || blobs[d] in list
        decreases rest
      {
        var d :| d in rest;
        rest := rest - {d};
        list := list + [blobs[d]];
      }
    }

    method PutManifest(repo: string, m: Manifest) returns (o: Outcome)
      modifies this
      ensures (Snapshot(), o) == Store.PutManifest(old(Snapshot()), repo, m)
    {
      if repo !in repos { return Fail(ManifestNotFound); }
      if repo in manifests && m.digest in manifests[repo] { return Pass; }
      var entries: Manifests := if repo in manifests then manifests[repo] else map[];
      manifests := manifests[repo := entries[m.digest := m]];
      return Pass;
    }

    /** The inner loop of ListAllManifests. */
    static method ListManifests(entries: Manifests) returns (list: seq<Manifest>)
      requires forall d :: d in entries ==> entries[d].digest == d
      ensures ListsAll(list, entries)
    {
      list := [];
      var rest := entries.Keys;
      while rest != {}
        invariant rest <= entries.Keys
        invariant forall i :: 0 <= i < |list| ==>
          list[i].digest in entries && list[i].digest !in rest && entries[list[i].digest] == list[i]
        invariant forall i, j :: 0 <= i < j < |list| ==> list[i].digest != list[j].digest
        invariant forall d :: d in entries ==> d in rest || entries[d] in list
        decreases rest
      {
        var d :| d in rest;
        rest := rest - {d};
        list := list + [entries[d]];
      }
    }

    /** Every repository that has manifests, with all of them in some order. */
    method ListAllManifests() returns (all: map<string, seq<Manifest>>)
      requires Keyed(Snapshot())
      ensures forall r :: r in all <==> r in manifests && manifests[r] != map[]
      ensures forall r :: r in all ==> ListsAll(all[r], manifests[r])
    {
      all := map[];
      var rest := manifests.Keys;
      while rest != {}
        invariant rest <= manifests.Keys
        invariant forall r :: r in all <==> r in manifests && r !in rest && manifests[r] != map[]
        invariant forall r :: r in all ==> ListsAll(all[r], manifests[r])
        decreases rest
      {
        var r :| r in rest;
        rest := rest - {r};
        var list := ListManifests(manifests[r]);
        if list != [] {
          assert list[0].digest in manifests[r];
          all := all[r := list];
        } else {
          assert forall d :: d in manifests[r] ==> manifests[r][d] in list;
          assert manifests[r] == map[];
        }
      }
    }

    method DeleteManifest(repo: string, d: Digest) returns (o: Outcome)
      modifies this
      ensures (Snapshot(), o) == DeletedManifest(old(Snapshot()), repo, d)
    {
      if repo !in manifests || d !in manifests[repo] { return Fail(ManifestNotFound); }
      manifests := manifests[repo := manifests[repo] - {d}];
      if repo in tags {
        var rest, kept := tags[repo].Keys, tags[repo];
        while rest != {}
          invariant rest <= tags[repo].Keys
          invariant tags == old(tags)
          invariant forall n :: n in kept <==> n in tags[repo] && (n in rest || tags[repo][n].digest != d)
          invariant forall n :: n in kept ==> kept[n] == tags[repo][n]
          decreases rest
        {
          var n :| n in rest;
          rest := rest - {n};
          if tags[repo][n].digest == d { kept := kept - {n}; }
        }
        assert kept == Untagged(tags[repo], d);
        tags := tags[repo := kept];
      }
      return Pass;
    }

    method PutTag(repo: string, t: Tag)
      modifies this
      ensures Snapshot() == Store.PutTag(old(Snapshot()), repo, t.Value())
    {
      var entries: Tags := if repo in tags then tags[repo] else map[];
      tags := tags[repo := entries[t.name := t.Value()]];
    }

    /** A copy: changing it does not change the stored tag. */
    method GetTag(repo: string, name: string) returns (t: Option<Tag>)
      ensures t.Some? <==> name in TagsOf(Snapshot(), repo)
      ensures t.Some? ==> fresh(t.value) && t.value.Value() == TagsOf(Snapshot(), repo)[name]
    {
      if repo !in tags || name !in tags[repo] { return None; }
      var copy := new Tag(tags[repo][name]);
      return Some(copy);
    }

    method ListTags(repo: string, p: PageRequest) returns (page: Page<TagValue>)
      ensures page == TagPage(Snapshot(), repo, p)
    {
      var q := p.Normalized();
      var entries: Tags := if repo in tags then tags[repo] else map[];
      assert WithPrefix(entries.Keys, "") == entries.Keys;
      var names := MatchingNames(entries.Keys, "", q.last);
      var items: seq<TagValue> := [];
      for i := 0 to |names|
        invariant items == ValuesAt(names[..i], entries)
        invariant i <= q.limit
      {
        assert names[..i + 1][..i] == names[..i] && names[i] in names;
        if i >= q.limit { return Page(items, names[i]); }
        items := items + [entries[names[i]]];
      }
      assert names[..|names|] == names;
      return Page(items, "");
    }

    method CreateUpload(u: UploadSession) returns (o: Outcome)
      modifies this
      ensures (Snapshot(), o) == CreatedUpload(old(Snapshot()), u.Value())
    {
      if u.id in uploads { return Fail(Conflict("upload")); }
      uploads := uploads[u.id := u.Value()];
      return Pass;
    }

    /** A copy: changing it does not change the stored session. */
    method GetUpload(id: string) returns (u: Option<UploadSession>)
      ensures u.Some? <==> id in uploads
      ensures u.Some? ==> fresh(u.value) && u.value.Value() == uploads[id]
    {
      if id !in uploads { return None; }
      var copy := new UploadSession(uploads[id]);
      return Some(copy);
    }

    method UpdateUpload(u: UploadSession, version: int) returns (o: Outcome)
      modifies this
      ensures (Snapshot(), o) == UpdatedUpload(old(Snapshot()), u.Value(), version)
    {
      if u.id !in uploads { return Fail(UploadNotFound); }
      if uploads[u.id].version != version { return Fail(PreconditionFailed); }
      uploads := uploads[u.id := u.Value()];
      return Pass;
    }

    method DeleteUpload(id: string) returns (o: Outcome)
      modifies this, objects
      ensures (Snapshot(), o) == DeletedUpload(old(Snapshot()), id)
    {
      if id !in uploads { return Fail(UploadNotFound); }
      var u := uploads[id];
      uploads := uploads - {id};
      objects.Delete(TempKey(u.id));
      return Pass;
    }

    method ListExpiredUploads(now: int) returns (list: seq<SessionValue>)
      requires Keyed(Snapshot())
      ensures forall i :: 0 <= i < |list| ==>
        list[i].id in uploads && uploads[list[i].id] == list[i] && IsExpired(list[i], now)
      ensures forall i, j :: 0 <= i < j < |list| ==> list[i].id != list[j].id
      ensures forall id :: id in uploads && IsExpired(uploads[id], now) ==> uploads[id] in list
    {
      list := [];
      var rest := uploads.Keys;
      while rest != {}
        invariant rest <= uploads.Keys
        invariant forall i :: 0 <= i < |list| ==>
          list[i].id in uploads && list[i].id !in rest && uploads[list[i].id] == list[i] && IsExpired(list[i], now)
        invariant forall i, j :: 0 <= i < j < |list| ==> list[i].id != list[j].id
        invariant forall id :: id in uploads && IsExpired(uploads[id], now) ==> id in rest || uploads[id] in list
        decreases rest
      {
        var id :| id in rest;
        rest := rest - {id};
        if IsExpired(uploads[id], now) { list := list + [uploads[id]]; }
      }
    }

    method GetQuota(tenant: string) returns (q: Option<Quota>)
      ensures q.Some? <==> tenant in quotas
      ensures q.Some? ==> fresh(q.value) && q.value.tenant == tenant && q.value.Value() == quotas[tenant]
    {
      if tenant !in quotas { return None; }
      var copy := new Quota(tenant, quotas[tenant]);
      return Some(copy);
    }

    method PutQuota(tenant: string, q: QuotaValue)
      modifies this
      ensures Snapshot() == Store.PutQuota(old(Snapshot()), tenant, q)
    {
      quotas := quotas[tenant := q];
    }

    method UpdateQuota(q: Quota, version: int) returns (o: Outcome)
      modifies this
      ensures (Snapshot(), o) == UpdatedQuota(old(Snapshot()), q.tenant, q.Value(), version)
    {
      if q.tenant !in quotas { return Fail(ManifestNotFound); }
      if quotas[q.tenant].version != version { return Fail(PreconditionFailed); }
      quotas := quotas[q.tenant := q.Value()];
      return Pass;
    }

    method PutPolicy(p: RetentionPolicy) returns (o: Outcome)
      modifies this
      ensures (Snapshot(), o) == Store.PutPolicy(old(Snapshot()), p)
    {
      o := p.Validate();
      if o.Fail? { return; }
      policies := policies[p.id := p];
      return Pass;
    }

    /** All policies in the order of their ids. */
    method ListPolicies() returns (list: seq<RetentionPolicy>)
      requires Keyed(Snapshot())
      ensures ListsPolicies(list, policies)
      ensures forall i, j :: 0 <= i < j < |list| ==> Less(list[i].id, list[j].id)
    {
      list := [];
      var rest := policies.Keys;
      while rest != {}
        invariant rest <= policies.Keys
        invariant forall i :: 0 <= i < |list| ==>
            list[i].id in policies && list[i].id !in rest && policies[list[i].id] == list[i]
        invariant forall i, j :: 0 <= i < j < |list| ==> list[i].id != list[j].id
        invariant forall id :: id in policies ==> id in rest || policies[id] in list
        decreases rest
      {
        var id :| id in rest;
        rest := rest - {id};
        list := list + [policies[id]];
      }
      ghost var unsorted := list;
      IdNotAfterIsTotal();
      list := SortSlice(list, IdNotAfter);
      SortedPolicies(unsorted, list, policies);
    }

    method DeletePolicy(id: string) returns (o: Outcome)
      modifies this
      ensures (Snapshot(), o) == DeletedPolicy(old(Snapshot()), id)
    {
      if id !in policies { return Fail(ManifestNotFound); }
      policies := policies - {id};
      return Pass;
    }

    method CreateReplication(task: R.ReplicationTask)
      modifies this
      ensures Snapshot() == CreatedReplication(old(Snapshot()), task.id, task.Value())
    {
      replications := replications[task.id := task.Value()];
    }

    /** A copy: changing it does not change the stored task. */
    method GetReplication(id: string) returns (t: Option<R.ReplicationTask>)
      ensures t.Some? <==> id in replications
      ensures t.Some? ==> fresh(t.value) && t.value.id == id && t.value.Value() == replications[id]
    {
      if id !in replications { return None; }
      var copy := new R.ReplicationTask(id, replications[id]);
      return Some(copy);
    }

    method UpdateReplication(task: R.ReplicationTask, version: int) returns (o: Outcome)
      modifies this
      ensures (Snapshot(), o) == UpdatedReplication(old(Snapshot()), task.id, task.Value(), version)
    {
      if task.id !in replications { return Fail(ManifestNotFound); }
      if replications[task.id].version != version { return Fail(PreconditionFailed); }
      replications := replications[task.id := task.Value()];
      return Pass;
    }
  }
}
