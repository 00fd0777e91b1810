/** The registry's stored state as a value, and what each catalog call does to it. */
module Store {
  import opened Basics
  import opened Ranges
  import opened Artifacts
  import opened Upload
  import opened Policy
  import opened Objects
  import opened Pages
  import R = Replication

  datatype Repository = Repository(tenant: string, immutableTags: bool, version: int)

  type Manifests = map<Digest, Manifest>
  type Tags = map<string, TagValue>

  datatype State = State(
    repos: map<string, Repository>,
    blobs: map<Digest, Blob>,
    manifests: map<string, Manifests>,
    tags: map<string, Tags>,
    uploads: map<string, SessionValue>,
    quotas: map<string, QuotaValue>,
    policies: map<string, RetentionPolicy>,
    replications: map<string, R.TaskValue>,
    files: Files)

  const EMPTY := State(map[], map[], map[], map[], map[], map[], map[], map[], map[])

  /** Reading a nested Go map: a missing outer key reads as an empty map. */
  function ManifestsOf(s: State, repo: string): Manifests {
    if repo in s.manifests then s.manifests[repo] else map[]
  }

  function TagsOf(s: State, repo: string): Tags {
    if repo in s.tags then s.tags[repo] else map[]
  }

  /** Every entry is stored under its own key. */
  ghost predicate Keyed(s: State) {
    && (forall d :: d in s.blobs ==> s.blobs[d].digest == d)
    && (forall r, d :: r in s.manifests && d in s.manifests[r] ==> s.manifests[r][d].digest == d)
    && (forall r, n :: r in s.tags && n in s.tags[r] ==> s.tags[r][n].name == n)
    && (forall id :: id in s.uploads ==> s.uploads[id].id == id)
    && (forall id :: id in s.policies ==> s.policies[id].id == id)
  }

  /** Every reference of every stored manifest is a stored blob. */
  ghost predicate ReferencesStored(s: State) {
    forall r, d, x :: d in ManifestsOf(s, r) && x in ManifestsOf(s, r)[d].RefList() ==> x in s.blobs
  }

  /** Every tag points to a manifest stored in its repository. */
  ghost predicate TagsStored(s: State) {
    forall r, n :: n in TagsOf(s, r) ==> TagsOf(s, r)[n].digest in ManifestsOf(s, r)
  }

  ghost predicate Integrity(s: State) { ReferencesStored(s) && TagsStored(s) }

  // ---------------------------------------------------------------- the catalog's calls

  function CreatedRepo(s: State, name: string, r: Repository): (State, Outcome) {
    if name in s.repos then (s, Fail(Conflict("repository")))
    else (s.(repos := s.repos[name := r]), Pass)
  }

  /** Compare and set on the version. */
  function UpdatedRepo(s: State, name: string, r: Repository, version: int): (State, Outcome) {
    if name !in s.repos then (s, Fail(ManifestNotFound))
    else if s.repos[name].version != version then (s, Fail(PreconditionFailed))
    else (s.(repos := s.repos[name := r]), Pass)
  }

  /** A digest that is already stored keeps its blob; the object is written only for a new one. */
  function PutBlob(s: State, b: Blob, data: Bytes): (State, Outcome) {
    if b.digest in s.blobs then
      (s, if s.blobs[b.digest].size != b.size then Fail(Conflict("blob")) else Pass)
    else (s.(blobs := s.blobs[b.digest := b], files := s.files[b.storageKey := data]), Pass)
  }

  function OpenedBlob(s: State, d: Digest, r: ByteRange): Result<Bytes> {
    if d !in s.blobs then Failure(BlobNotFound) else Opened(s.files, s.blobs[d].storageKey, r)
  }

  function DeletedBlob(s: State, d: Digest): (State, Outcome) {
    if d !in s.blobs then (s, Fail(BlobNotFound))
    else if s.blobs[d].references > 0 then (s, Fail(Conflict("blob")))
    else (s.(blobs := s.blobs - {d}, files := s.files - {s.blobs[d].storageKey}), Pass)
  }

  /** A manifest that is already stored stays as it is. */
  function PutManifest(s: State, repo: string, m: Manifest): (State, Outcome) {
    if repo !in s.repos then (s, Fail(ManifestNotFound))
    else if m.digest in ManifestsOf(s, repo) then (s, Pass)
    else (s.(manifests := s.manifests[repo := ManifestsOf(s, repo)[m.digest := m]]), Pass)
  }

  /** The tags without those that point to the digest. */
  function Untagged(tags: Tags, d: Digest): Tags {
    map n | n in tags && tags[n].digest != d :: tags[n]
  }

  function DeletedManifest(s: State, repo: string, d: Digest): (State, Outcome) {
    if d !in ManifestsOf(s, repo) then (s, Fail(ManifestNotFound))
    else
      (s.(manifests := s.manifests[repo := s.manifests[repo] - {d}],
          tags := if repo in s.tags then s.tags[repo := Untagged(s.tags[repo], d)] else s.tags), Pass)
  }

  function PutTag(s: State, repo: string, t: TagValue): State {
    s.(tags := s.tags[repo := TagsOf(s, repo)[t.name := t]])
  }

  function CreatedUpload(s: State, u: SessionValue): (State, Outcome) {
    if u.id in s.uploads then (s, Fail(Conflict("upload")))
    else (s.(uploads := s.uploads[u.id := u]), Pass)
  }

  /** Compare and set on the version. */
  function UpdatedUpload(s: State, u: SessionValue, version: int): (State, Outcome) {
    if u.id !in s.uploads then (s, Fail(UploadNotFound))
    else if s.uploads[u.id].version != version then (s, Fail(PreconditionFailed))
    else (s.(uploads := s.uploads[u.id := u]), Pass)
  }

  function DeletedUpload(s: State, id: string): (State, Outcome) {
    if id !in s.uploads then (s, Fail(UploadNotFound))
    else (s.(uploads := s.uploads - {id}, files := s.files - {TempKey(s.uploads[id].id)}), Pass)
  }

  function PutQuota(s: State, tenant: string, q: QuotaValue): State {
    s.(quotas := s.quotas[tenant := q])
  }

  function UpdatedQuota(s: State, tenant: string, q: QuotaValue, version: int): (State, Outcome) {
    if tenant !in s.quotas then (s, Fail(ManifestNotFound))
    else if s.quotas[tenant].version != version then (s, Fail(PreconditionFailed))
    else (PutQuota(s, tenant, q), Pass)
  }

  function PutPolicy(s: State, p: RetentionPolicy): (State, Outcome) {
    match p.Validate()
    case Fail(e) => (s, Fail(e))
    case Pass => (s.(policies := s.policies[p.id := p]), Pass)
  }

  function DeletedPolicy(s: State, id: string): (State, Outcome) {
    if id !in s.policies then (s, Fail(ManifestNotFound)) else (s.(policies := s.policies - {id}), Pass)
  }

  /** A task under an id that exists is replaced. */
  function CreatedReplication(s: State, id: string, v: R.TaskValue): State {
    s.(replications := s.replications[id := v])
  }

  /** Compare and set on the version. */
  function UpdatedReplication(s: State, id: string, v: R.TaskValue, version: int): (State, Outcome) {
    if id !in s.replications then (s, Fail(ManifestNotFound))
    else if s.replications[id].version != version then (s, Fail(PreconditionFailed))
    else (s.(replications := s.replications[id := v]), Pass)
  }

  /** One page of a repository's tags. */
  ghost function TagPage(s: State, repo: string, p: PageRequest): Page<TagValue> {
    var tags := TagsOf(s, repo);
    PageWith(FirstPage(NamesAfter(tags.Keys, p.last), p.Normalized().limit), tags)
  }

  ghost function PageWith<T>(names: Page<string>, entries: map<string, T>): Page<T> {
    Page(ValuesAt(names.items, entries), names.next)
  }

  /** The entries under the names, skipping names without one. */
  function ValuesAt<T>(names: seq<string>, entries: map<string, T>): seq<T> {
    if names == [] then []
    else
      ValuesAt(names[..|names| - 1], entries) +
      (if names[|names| - 1] in entries then [entries[names[|names| - 1]]] else [])
  }

  lemma {:induction false} ValuesAtJoined<T>(a: seq<string>, b: seq<string>, entries: map<string, T>)
    ensures ValuesAt(a + b, entries) == ValuesAt(a, entries) + ValuesAt(b, entries)
    decreases |b|
  {
    if b == [] {
      assert a + b == a;
    } else {
      var ab := a + b;
      assert ab[..|ab| - 1] == a + b[..|b| - 1] && ab[|ab| - 1] == b[|b| - 1];
      ValuesAtJoined(a, b[..|b| - 1], entries);
    }
  }

  lemma {:induction false} ValuesAtHolds<T>(names: seq<string>, entries: map<string, T>, v: T)
    ensures v in ValuesAt(names, entries) <==> exists n :: n in names && n in entries && entries[n] == v
    decreases |names|
  {
    if names != [] {
      ValuesAtHolds(names[..|names| - 1], entries, v);
      assert names == names[..|names| - 1] + [names[|names| - 1]];
    }
  }

  /** When every name has an entry, the values are the entries, name by name. */
  lemma {:induction false} ValuesAtIndex<T>(names: seq<string>, entries: map<string, T>)
    requires forall n :: n in names ==> n in entries
    ensures |ValuesAt(names, entries)| == |names|
    ensures forall i :: 0 <= i < |names| ==> ValuesAt(names, entries)[i] == entries[names[i]]
    decreases |names|
  {
    if names != [] {
      var front := names[..|names| - 1];
      forall n | n in front ensures n in entries {
        assert n in names;
      }
      ValuesAtIndex(front, entries);
      assert names[|names| - 1] in names;
    }
  }

  /** A page of tags: the tags under the names of the page, in their order. */
  lemma TagPageAnswers(s: State, repo: string, p: PageRequest)
    ensures
      var names := FirstPage(NamesAfter(TagsOf(s, repo).Keys, p.last), p.Normalized().limit);
      && TagPage(s, repo, p).next == names.next
      && |TagPage(s, repo, p).items| == |names.items|
      && (forall i :: 0 <= i < |names.items| ==>
            names.items[i] in TagsOf(s, repo) && TagPage(s, repo, p).items[i] == TagsOf(s, repo)[names.items[i]])
  {
    var names := FirstPage(NamesAfter(TagsOf(s, repo).Keys, p.last), p.Normalized().limit);
    PageAnswers(TagsOf(s, repo).Keys, p, names);
    ValuesAtIndex(names.items, TagsOf(s, repo));
  }

  /** A list of all manifests of one repository, each once, in some order. */
  ghost predicate ListsAll(list: seq<Manifest>, entries: Manifests) {
    && (forall i :: 0 <= i < |list| ==> list[i].digest in entries && entries[list[i].digest] == list[i])
    && (forall i, j :: 0 <= i < j < |list| ==> list[i].digest != list[j].digest)
    && (forall d :: d in entries ==> entries[d] in list)
  }

  ghost predicate IsStored(p: RetentionPolicy, policies: map<string, RetentionPolicy>) {
    exists id :: id in policies && policies[id] == p
  }

  /** A list of all stored policies. */
  ghost predicate ListsPolicies(list: seq<RetentionPolicy>, policies: map<string, RetentionPolicy>) {
    forall p :: p in list <==> IsStored(p, policies)
  }
}
