/** When the calls on repositories, manifests, tags and policies succeed, what they answer otherwise, and what they
    leave, in terms of the stored entries alone. */
module NameAnswers {
  import opened Basics
  import opened Text
  import opened Artifacts
  import opened Policy
  import opened Store
  import opened Registry
  import opened Collection
  import opened RunInvariants

  // ---------------------------------------------------------------- repositories

  lemma {:induction false} BlankIsSpace(v: string)
    ensures TrimSpace(v) == "" <==> forall i :: 0 <= i < |v| ==> IsSpace(v[i])
    decreases |v|
  {
    if v != [] {
      if IsSpace(v[0]) {
        BlankIsSpace(v[1..]);
        assert v == [v[0]] + v[1..];
      } else if IsSpace(v[|v| - 1]) {
        assert v[..|v| - 1][0] == v[0];
        BlankIsSpace(v[..|v| - 1]);
        assert !IsSpace(v[..|v| - 1][0]);
      }
    }
  }

  /** A repository is created exactly under a free name and for a tenant that is not blank. */
  lemma CreateRepositoryAnswers(c: Config, s: State, name: string, tenant: string, immutable: bool, quota: int)
    ensures
      var (t, o) := RepositoryCreated(c, s, name, tenant, immutable, quota);
      var inked := exists i :: 0 <= i < |tenant| && !IsSpace(tenant[i]);
      && (o.Pass? <==> inked && name !in s.repos)
      && (o.Fail? ==> t == s && o.error == if inked then Conflict("repository") else Validation("tenant"))
      && (o.Pass? ==>
            t == s.(repos := s.repos[name := Repository(tenant, immutable, 1)],
                    quotas := s.quotas[tenant := QuotaValue(if 0 < quota then quota else c.defaultQuota, 0, 0, 1)]))
  {
    BlankIsSpace(tenant);
    CreateEffect(c, s, name, tenant, immutable, quota);
  }

  /** The flag is set exactly when the caller named no version or the stored one. */
  lemma SetTagImmutabilityAnswers(s: State, name: string, value: bool, ifMatch: int)
    ensures
      var (t, o) := TagImmutabilitySet(s, name, value, ifMatch);
      && (o.Pass? <==> name in s.repos && (ifMatch <= 0 || ifMatch == s.repos[name].version))
      && (o.Fail? ==> t == s && o.error == if name in s.repos then PreconditionFailed else ManifestNotFound)
      && (o.Pass? ==>
            t == s.(repos := s.repos[name := Repository(s.repos[name].tenant, value, s.repos[name].version + 1)]))
  {
    if name in s.repos && (ifMatch <= 0 || ifMatch == s.repos[name].version) {
      var r := Repository(s.repos[name].tenant, value, s.repos[name].version + 1);
      assert UpdatedRepo(s, name, r, s.repos[name].version) == (s.(repos := s.repos[name := r]), Pass);
    }
  }

  // ---------------------------------------------------------------- manifests and tags

  /** What a tag name consists of: 1 to 128 characters, letters, digits and '_', and after the first also '.'
      and '-'. */
  predicate TagPattern(name: string) {
    && 1 <= |name| <= 128
    && name[0] != '.' && name[0] != '-'
    && forall i :: 0 <= i < |name| ==>
         'a' <= name[i] <= 'z' || 'A' <= name[i] <= 'Z' || '0' <= name[i] <= '9' || name[i] in "_.-"
  }

  lemma TagPatternIsValid(name: string)
    ensures TagPattern(name) <==> ValidTagName(name)
  {
  }

  ghost predicate ReferencesThere(s: State, m: Manifest) {
    forall d :: m.Names(d) ==> d in s.blobs
  }

  /** The call gets as far as storing the manifest: at most 16 MiB, and every reference a stored blob. */
  ghost predicate Storable(s: State, repo: string, m: Manifest) {
    repo in s.repos && m.size <= 16_777_216 && ReferencesThere(s, m)
  }

  lemma {:induction false} ReferencesThereIff(s: State, m: Manifest)
    ensures ReferencesThere(s, m) <==> forall i :: 0 <= i < |m.RefList()| ==> m.RefList()[i] in s.blobs
  {
    ReferencesAreNames(m);
    if ReferencesThere(s, m) {
      forall i | 0 <= i < |m.RefList()| ensures m.RefList()[i] in s.blobs {
        assert m.RefList()[i] in m.RefList();
      }
    }
  }

  /** The tag may point to the digest from now on: it does already, it is not immutable, or it is new under a name that
      a tag can have. */
  ghost predicate TagTakes(s: State, repo: string, name: string, d: Digest) {
    if name in TagsOf(s, repo) then !TagsOf(s, repo)[name].immutable || TagsOf(s, repo)[name].digest == d
    else TagPattern(name)
  }

  /** The manifest is in the repository; one that was there before stays as it was; nothing else changed. */
  ghost predicate ManifestAdded(s: State, t: State, repo: string, m: Manifest) {
    && t == s.(manifests := t.manifests, tags := t.tags)
    && ManifestsOf(t, repo) == (if m.digest in ManifestsOf(s, repo) then ManifestsOf(s, repo)
                                else ManifestsOf(s, repo)[m.digest := m])
    && forall r :: r != repo ==> ManifestsOf(t, r) == ManifestsOf(s, r) && TagsOf(t, r) == TagsOf(s, r)
  }

  lemma PutEffect(s: State, repo: string, m: Manifest)
    requires repo in s.repos
    ensures
      var t := Store.PutManifest(s, repo, m).0;
      t == s.(manifests := t.manifests) && ManifestAdded(s, t, repo, m) && TagsOf(t, repo) == TagsOf(s, repo)
  {
    PutManifestEffect(s, repo, m);
  }

  function TagError(s: State, repo: string, name: string): Error {
    if name in TagsOf(s, repo) then TagImmutable else Validation("tag")
  }

  /** The tag points to the digest; a new one has the repository's flag; every other tag is as before. */
  ghost predicate PointsTo(s: State, t: State, repo: string, name: string, d: Digest) {
    && repo in s.repos && name in TagsOf(t, repo) && TagsOf(t, repo)[name].name == name
    && TagsOf(t, repo)[name].digest == d
    && TagsOf(t, repo)[name].immutable ==
         (if name in TagsOf(s, repo) then TagsOf(s, repo)[name].immutable else s.repos[repo].immutableTags)
    && TagsOf(t, repo)[name].version == (if name in TagsOf(s, repo) then TagsOf(s, repo)[name].version + 1 else 1)
    && TagsOf(t, repo).Keys == TagsOf(s, repo).Keys + {name}
    && forall n :: n in TagsOf(s, repo) && n != name ==> TagsOf(t, repo)[n] == TagsOf(s, repo)[n]
  }

  lemma PutTagEffect(s: State, repo: string, v: TagValue)
    ensures
      var t := PutTag(s, repo, v);
      && t == s.(tags := t.tags) && TagsOf(t, repo) == TagsOf(s, repo)[v.name := v]
      && forall r :: r != repo ==> TagsOf(t, r) == TagsOf(s, r)
  {
  }

  /** The tag as it is after the move. */
  ghost predicate IsMoved(s: State, repo: string, name: string, d: Digest, v: TagValue) {
    && repo in s.repos && v.name == name && v.digest == d
    && (if name in TagsOf(s, repo)
        then v.immutable == TagsOf(s, repo)[name].immutable && v.version == TagsOf(s, repo)[name].version + 1
        else v.immutable == s.repos[repo].immutableTags && v.version == 1)
  }

  lemma MovedPointsTo(s: State, repo: string, name: string, d: Digest, v: TagValue)
    requires IsMoved(s, repo, name, d, v)
    ensures PointsTo(s, PutTag(s, repo, v), repo, name, d)
  {
    PutTagEffect(s, repo, v);
  }

  lemma MoveEffect(s: State, repo: string, name: string, d: Digest)
    requires repo in s.repos && (name in TagsOf(s, repo) ==> TagsOf(s, repo)[name].name == name)
    ensures
      var (t, o) := TagMoved(s, repo, name, d);
      && (o.Pass? <==> TagTakes(s, repo, name, d))
      && t == s.(tags := t.tags)
      && (forall r :: r != repo ==> TagsOf(t, r) == TagsOf(s, r))
      && (o.Fail? ==> t == s && o.error == TagError(s, repo, name))
      && (o.Pass? ==> PointsTo(s, t, repo, name, d))
  {
    TagPatternIsValid(name);
    var moved := if name in TagsOf(s, repo) then MovedTag(TagsOf(s, repo)[name], d)
                 else MakeTag(name, d, s.repos[repo].immutableTags);
    match moved
    case Failure(e) => assert TagMoved(s, repo, name, d) == (s, Fail(e));
    case Success(v) =>
      assert TagMoved(s, repo, name, d) == (PutTag(s, repo, v), Pass);
      PutTagEffect(s, repo, v);
      MovedPointsTo(s, repo, name, d, v);
  }

  /** A push under a tag succeeds exactly when the manifest can be stored and the tag may point to it; then the
      tag does, and every other tag is as before. */
  lemma PushUnderTagAnswers(s: State, repo: string, name: string, parsed: Manifest, now: int)
    requires name in TagsOf(s, repo) ==> TagsOf(s, repo)[name].name == name
    ensures
      var (t, o) := ManifestPut(s, repo, ByTag(name), parsed, now);
      && (o.Pass? <==> Storable(s, repo, parsed) && TagTakes(s, repo, name, parsed.digest))
      && (o.Pass? ==> PushedUnderTag(s, t, repo, name, parsed.(createdAt := now)))
  {
    ReferencesThereIff(s, parsed);
    var m := parsed.(createdAt := now);
    assert m.RefList() == parsed.RefList();
    if Storable(s, repo, parsed) {
      var stored := Store.PutManifest(s, repo, m).0;
      PutEffect(s, repo, m);
      MoveEffect(stored, repo, name, m.digest);
      assert ManifestPut(s, repo, ByTag(name), parsed, now) == TagMoved(stored, repo, name, m.digest);
      if TagTakes(s, repo, name, m.digest) {
        StoredThenTagged(s, stored, TagMoved(stored, repo, name, m.digest).0, repo, name, m);
      }
    }
  }

  lemma StoredThenTagged(s: State, stored: State, t: State, repo: string, name: string, m: Manifest)
    requires ManifestAdded(s, stored, repo, m) && stored.tags == s.tags
    requires t == stored.(tags := t.tags) && PointsTo(stored, t, repo, name, m.digest)
    requires forall r :: r != repo ==> TagsOf(t, r) == TagsOf(stored, r)
    ensures PushedUnderTag(s, t, repo, name, m)
  {
    assert forall r :: ManifestsOf(t, r) == ManifestsOf(stored, r) && TagsOf(stored, r) == TagsOf(s, r);
  }

  ghost predicate PushedUnderTag(s: State, t: State, repo: string, name: string, m: Manifest) {
    ManifestAdded(s, t, repo, m) && m.digest in ManifestsOf(t, repo) && PointsTo(s, t, repo, name, m.digest)
  }

  /** A push that fails says why. A tag that cannot move fails after the manifest is stored, and stays. */
  lemma FailedPushUnderTag(s: State, repo: string, name: string, parsed: Manifest, now: int)
    requires name in TagsOf(s, repo) ==> TagsOf(s, repo)[name].name == name
    requires ManifestPut(s, repo, ByTag(name), parsed, now).1.Fail?
    ensures
      var (t, o) := ManifestPut(s, repo, ByTag(name), parsed, now);
      if Storable(s, repo, parsed) then
        && ManifestAdded(s, t, repo, parsed.(createdAt := now)) && TagsOf(t, repo) == TagsOf(s, repo)
        && o.error == TagError(s, repo, name)
      else t == s && o.error == NotStorable(s, repo, parsed)
  {
    ReferencesThereIff(s, parsed);
    var m := parsed.(createdAt := now);
    assert m.RefList() == parsed.RefList();
    if Storable(s, repo, parsed) {
      PutEffect(s, repo, m);
      MoveEffect(Store.PutManifest(s, repo, m).0, repo, name, m.digest);
    }
  }

  ghost function NotStorable(s: State, repo: string, m: Manifest): Error {
    if repo !in s.repos then ManifestNotFound
    else if 16_777_216 < m.size then Validation("manifest")
    else BlobNotFound
  }

  /** A push by digest succeeds exactly under the manifest's own digest; under another one the manifest is
      stored all the same. Tags stay. */
  lemma PushByDigestAnswers(s: State, repo: string, d: Digest, parsed: Manifest, now: int)
    ensures
      var (t, o) := ManifestPut(s, repo, ByDigest(d), parsed, now);
      && (o.Pass? <==> Storable(s, repo, parsed) && d == parsed.digest)
      && (if Storable(s, repo, parsed)
          then ManifestAdded(s, t, repo, parsed.(createdAt := now)) && TagsOf(t, repo) == TagsOf(s, repo)
          else t == s)
      && (o.Fail? ==>
            o.error == if Storable(s, repo, parsed) then DigestMismatch else NotStorable(s, repo, parsed))
  {
    ReferencesThereIff(s, parsed);
    var m := parsed.(createdAt := now);
    assert m.RefList() == parsed.RefList();
    if Storable(s, repo, parsed) { PutEffect(s, repo, m); }
  }

  /** A manifest is deleted exactly when it is there, and its tags go with it, and nothing else. */
  lemma DeleteManifestAnswers(s: State, repo: string, d: Digest)
    ensures
      var (t, o) := ManifestDeleted(s, repo, d);
      && (o.Pass? <==> repo in s.repos && d in ManifestsOf(s, repo))
      && (o.Fail? ==> t == s && o.error == ManifestNotFound)
      && (o.Pass? ==>
            && t == s.(manifests := t.manifests, tags := t.tags)
            && ManifestsOf(t, repo) == ManifestsOf(s, repo) - {d}
            && (forall n :: n in TagsOf(t, repo) <==> n in TagsOf(s, repo) && TagsOf(s, repo)[n].digest != d)
            && (forall n :: n in TagsOf(t, repo) ==> TagsOf(t, repo)[n] == TagsOf(s, repo)[n])
            && forall r :: r != repo ==> ManifestsOf(t, r) == ManifestsOf(s, r) && TagsOf(t, r) == TagsOf(s, r))
  {
    if repo in s.repos && d in ManifestsOf(s, repo) {
      var t := Deleted(s, DropManifest(repo, d));
      DropManifestEffect(s, repo, d, t);
      DropManifestTags(s, repo, d, t);
    }
  }

  // ---------------------------------------------------------------- policies

  /** A policy is stored exactly when it has an id and neither of its numbers is negative. */
  lemma PutPolicyAnswers(s: State, p: RetentionPolicy)
    ensures
      var (t, o) := Store.PutPolicy(s, p);
      && (o.Pass? <==> p.id != "" && 0 <= p.keepLast && 0 <= p.maxAge)
      && (o.Pass? ==> t == s.(policies := s.policies[p.id := p]))
      && (o.Fail? ==> t == s)
      && (o.Fail? ==>
            o.error == Validation(if p.id == "" then "policy.id"
                                  else if p.keepLast < 0 then "policy.keepLast" else "policy.maxAge"))
  {
  }

  lemma DeletePolicyAnswers(s: State, id: string)
    ensures
      var (t, o) := DeletedPolicy(s, id);
      && (o.Pass? <==> id in s.policies)
      && (o.Pass? ==> t == s.(policies := s.policies - {id}))
      && (o.Fail? ==> t == s && o.error == ManifestNotFound)
  {
  }
}
