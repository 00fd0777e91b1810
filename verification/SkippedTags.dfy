/** A run in which garbage collection deletes a tagged manifest: its tag is the last of 1001. */
module SkippedTags {
  import opened Basics
  import opened Ordering
  import opened Artifacts
  import opened Store
  import opened Registry
  import opened Collection
  import opened CollectionLaws
  import opened Runs
  import opened RunInvariants
  import opened Witnesses

  // ---------------------------------------------------------------- 1001 names in order

  function Letter(k: int): char
    requires 0 <= k < 62
  {
    if k < 10 then ('0' as int + k) as char
    else if k < 36 then ('A' as int + k - 10) as char
    else ('a' as int + k - 36) as char
  }

  /** The i-th two-letter name. */
  function Name(i: int): string
    requires 0 <= i <= TAG_PAGE
  {
    [Letter(i / 62), Letter(i % 62)]
  }

  lemma NamesAreOrdered(i: int, j: int)
    requires 0 <= i < j <= TAG_PAGE
    ensures Less(Name(i), Name(j))
  {
    var a, b := Name(i), Name(j);
    if i / 62 == j / 62 {
      assert i % 62 < j % 62;
      assert a[1..] == [Letter(i % 62)] && b[1..] == [Letter(j % 62)];
      assert Less(a[1..], b[1..]);
    } else {
      assert i / 62 < j / 62;
      assert a[0] < b[0];
    }
  }

  lemma NamesDiffer(i: int, j: int)
    requires 0 <= i <= TAG_PAGE && 0 <= j <= TAG_PAGE && i != j
    ensures Name(i) != Name(j)
  {
    if i < j { NamesAreOrdered(i, j); } else { NamesAreOrdered(j, i); }
    LessIrreflexive(Name(i));
  }

  lemma NamesAreValid(i: int)
    requires 0 <= i <= TAG_PAGE
    ensures ValidTagName(Name(i)) && Name(i) != ""
  {
  }

  // ---------------------------------------------------------------- the run

  function Plain(d: Digest, at: int): Manifest {
    Manifest(d, 1, None, [], [], None, at)
  }

  /** All names but the last tag the first manifest. */
  function Target(d: Digest, e: Digest, i: int): Digest {
    if i < TAG_PAGE then d else e
  }

  function Put(d: Digest, e: Digest, i: int): Step
    requires 0 <= i <= TAG_PAGE
  {
    PutManifest("a", ByTag(Name(i)), Plain(Target(d, e, i), 0), if i < TAG_PAGE then 0 else 1)
  }

  function Tagging(d: Digest, e: Digest, n: nat): seq<Step>
    requires n <= TAG_PAGE + 1
    decreases n
  {
    if n == 0 then [CreateRepository("a", "t", false, 10)] else Tagging(d, e, n - 1) + [Put(d, e, n - 1)]
  }

  function StoredManifests(d: Digest, e: Digest, n: nat): Manifests {
    if n == 0 then map[] else if n <= TAG_PAGE then map[d := Plain(d, 0)] else map[d := Plain(d, 0), e := Plain(e, 1)]
  }

  function StoredTag(d: Digest, e: Digest, i: int): TagValue
    requires 0 <= i <= TAG_PAGE
  {
    TagValue(Name(i), Target(d, e, i), 1, false)
  }

  function StoredTags(d: Digest, e: Digest, n: nat): Tags
    requires n <= TAG_PAGE + 1
    decreases n
  {
    if n == 0 then map[] else StoredTags(d, e, n - 1)[Name(n - 1) := StoredTag(d, e, n - 1)]
  }

  lemma {:induction false} StoredTagHolds(d: Digest, e: Digest, n: nat, i: nat)
    requires i < n <= TAG_PAGE + 1
    ensures Name(i) in StoredTags(d, e, n) && StoredTags(d, e, n)[Name(i)] == StoredTag(d, e, i)
    decreases n
  {
    if i < n - 1 {
      StoredTagHolds(d, e, n - 1, i);
      NamesDiffer(i, n - 1);
    }
  }

  lemma {:induction false} StoredTagIsNamed(d: Digest, e: Digest, n: nat, name: string) returns (i: int)
    requires n <= TAG_PAGE + 1 && name in StoredTags(d, e, n)
    ensures 0 <= i < n && name == Name(i)
    decreases n
  {
    i := n - 1;
    if name != Name(n - 1) { i := StoredTagIsNamed(d, e, n - 1, name); }
  }

  lemma StoredTagsHold(d: Digest, e: Digest, n: nat)
    requires n <= TAG_PAGE + 1
    ensures forall i :: 0 <= i < n ==>
        Name(i) in StoredTags(d, e, n) && StoredTags(d, e, n)[Name(i)] == StoredTag(d, e, i)
    ensures forall name :: name in StoredTags(d, e, n) ==> exists i :: 0 <= i < n && name == Name(i)
  {
    forall i | 0 <= i < n ensures Name(i) in StoredTags(d, e, n) && StoredTags(d, e, n)[Name(i)] == StoredTag(d, e, i) {
      StoredTagHolds(d, e, n, i);
    }
    forall name | name in StoredTags(d, e, n) ensures exists i :: 0 <= i < n && name == Name(i) {
      var i := StoredTagIsNamed(d, e, n, name);
    }
  }

  lemma NotYetStored(d: Digest, e: Digest, n: nat)
    requires n <= TAG_PAGE
    ensures Name(n) !in StoredTags(d, e, n)
  {
    if Name(n) in StoredTags(d, e, n) {
      var i := StoredTagIsNamed(d, e, n, Name(n));
      NamesDiffer(i, n);
    }
  }

  /** The first n names are tags, and the catalog holds nothing but the manifests they point to. */
  ghost predicate TaggedUpTo(s: State, d: Digest, e: Digest, n: nat)
    requires n <= TAG_PAGE + 1
  {
    && s.repos == map["a" := Repository("t", false, 1)] && s.blobs == map[] && s.policies == map[]
    && s.manifests == (if n == 0 then map[] else map["a" := StoredManifests(d, e, n)])
    && s.tags == (if n == 0 then map[] else map["a" := StoredTags(d, e, n)])
  }

  lemma PlainPut(s: State, d: Digest, e: Digest, n: nat)
    requires d != e && n <= TAG_PAGE && TaggedUpTo(s, d, e, n)
    ensures
      var m := Plain(Target(d, e, n), if n < TAG_PAGE then 0 else 1);
      Store.PutManifest(s, "a", m).0 == s.(manifests := map["a" := StoredManifests(d, e, n + 1)])
  {
    assert ManifestsOf(s, "a") == StoredManifests(d, e, n);
  }

  lemma FreshTag(s: State, name: string, d: Digest)
    requires "a" in s.repos && !s.repos["a"].immutableTags && name !in TagsOf(s, "a") && ValidTagName(name)
    ensures TagMoved(s, "a", name, d).0 == PutTag(s, "a", TagValue(name, d, 1, false))
  {
    assert MakeTag(name, d, false) == Success(TagValue(name, d, 1, false));
  }

  /** A manifest without references, put under a new tag name. */
  lemma PlainTagged(c: Config, s: State, m: Manifest, name: string, at: int)
    requires "a" in s.repos && !s.repos["a"].immutableTags && m.size <= MAX_MANIFEST_SIZE && m.RefList() == []
    requires name !in TagsOf(s, "a") && ValidTagName(name)
    ensures Apply(c, s, PutManifest("a", ByTag(name), m, at)) ==
      PutTag(Store.PutManifest(s, "a", m.(createdAt := at)).0, "a", TagValue(name, m.digest, 1, false))
  {
    var t := Store.PutManifest(s, "a", m.(createdAt := at)).0;
    assert m.(createdAt := at).RefList() == m.RefList();
    PutManifestEffect(s, "a", m.(createdAt := at));
    assert TagsOf(t, "a") == TagsOf(s, "a");
    assert ManifestPut(s, "a", ByTag(name), m, at) == TagMoved(t, "a", name, m.digest);
    FreshTag(t, name, m.digest);
  }

  lemma OneMoreTag(s: State, d: Digest, e: Digest, n: nat)
    requires n <= TAG_PAGE && TaggedUpTo(s, d, e, n)
    ensures TaggedUpTo(
        PutTag(s.(manifests := map["a" := StoredManifests(d, e, n + 1)]), "a", StoredTag(d, e, n)), d, e, n + 1)
  {
    assert TagsOf(s, "a") == StoredTags(d, e, n);
  }

  lemma PutReaches(c: Config, s: State, d: Digest, e: Digest, n: nat)
    requires d != e && n <= TAG_PAGE && TaggedUpTo(s, d, e, n)
    ensures TaggedUpTo(Apply(c, s, Put(d, e, n)), d, e, n + 1)
  {
    NamesAreValid(n);
    NotYetStored(d, e, n);
    var m, at := Plain(Target(d, e, n), 0), if n < TAG_PAGE then 0 else 1;
    PlainPut(s, d, e, n);
    PlainTagged(c, s, m, Name(n), at);
    assert m.(createdAt := at) == Plain(Target(d, e, n), at);
    OneMoreTag(s, d, e, n);
  }

  lemma PutNext(c: Config, steps: seq<Step>, all: seq<Step>, d: Digest, e: Digest, i: nat, n: nat)
    requires d != e && n == i + 1 <= TAG_PAGE + 1 && TaggedUpTo(Reached(c, steps), d, e, i)
    requires all == steps + [Put(d, e, i)]
    ensures TaggedUpTo(Reached(c, all), d, e, n)
  {
    ReachedNext(c, steps, Put(d, e, i));
    PutReaches(c, Reached(c, steps), d, e, i);
  }

  lemma NothingTagged(c: Config, d: Digest, e: Digest, steps: seq<Step>)
    requires steps == Tagging(d, e, 0)
    ensures TaggedUpTo(Reached(c, steps), d, e, 0)
  {
    CreateReaches(c);
  }

  lemma TaggingGrows(d: Digest, e: Digest, n: nat, front: seq<Step>)
    requires 0 < n <= TAG_PAGE + 1 && front == Tagging(d, e, n - 1)
    ensures Tagging(d, e, n) == front + [Put(d, e, n - 1)]
  {
  }

  /** The calls lead to the first n tags. */
  ghost predicate Leads(c: Config, steps: seq<Step>, d: Digest, e: Digest, n: nat)
    requires n <= TAG_PAGE + 1
  {
    TaggedUpTo(Reached(c, steps), d, e, n)
  }

  lemma NextLeads(c: Config, front: seq<Step>, steps: seq<Step>, d: Digest, e: Digest, i: nat, n: nat)
    requires d != e && n == i + 1 <= TAG_PAGE + 1 && steps == front + [Put(d, e, i)] && Leads(c, front, d, e, i)
    ensures Leads(c, steps, d, e, n)
  {
    PutNext(c, front, steps, d, e, i, n);
  }

  lemma {:induction false} TaggingReaches(c: Config, d: Digest, e: Digest, n: nat, steps: seq<Step>)
    requires d != e && n <= TAG_PAGE + 1 && steps == Tagging(d, e, n)
    ensures Leads(c, steps, d, e, n)
    decreases n
  {
    if n == 0 {
      NothingTagged(c, d, e, steps);
    } else {
      var front := Tagging(d, e, n - 1);
      TaggingReaches(c, d, e, n - 1, front);
      TaggingGrows(d, e, n, front);
      NextLeads(c, front, steps, d, e, n - 1, n);
    }
  }

  lemma {:induction false} TaggingIsARun(c: Config, d: Digest, e: Digest, n: nat)
    requires n <= TAG_PAGE + 1
    ensures IsRun(c, Tagging(d, e, n))
    decreases n
  {
    if n == 0 {
      OneMoreRun(c, [], CreateRepository("a", "t", false, 10));
      assert [] + [CreateRepository("a", "t", false, 10)] == Tagging(d, e, 0);
    } else {
      TaggingIsARun(c, d, e, n - 1);
      OneMoreRun(c, Tagging(d, e, n - 1), Put(d, e, n - 1));
    }
  }

  // ---------------------------------------------------------------- the collection

  lemma SortedTags(s: State, d: Digest, e: Digest, n: nat)
    requires n == TAG_PAGE + 1 && TaggedUpTo(s, d, e, n)
    ensures SortedNames(TagsOf(s, "a").Keys) == seq(TAG_PAGE + 1, i requires 0 <= i <= TAG_PAGE => Name(i))
    ensures "" !in TagsOf(s, "a")
  {
    var names := seq(TAG_PAGE + 1, i requires 0 <= i <= TAG_PAGE => Name(i));
    StoredTagsHold(d, e, n);
    forall i, j | 0 <= i < j < |names| ensures Less(names[i], names[j]) { NamesAreOrdered(i, j); }
    forall n ensures n in names <==> n in TagsOf(s, "a").Keys {
      if n in TagsOf(s, "a") {
        var i :| 0 <= i <= TAG_PAGE && n == Name(i);
        assert names[i] == n;
      }
    }
    EnumerationUnique(names, SortedNames(TagsOf(s, "a").Keys), TagsOf(s, "a").Keys);
    assert forall name :: name in TagsOf(s, "a") ==> |name| == 2;
  }

  /** The crawl sees the first manifest's tags, and not the last name. */
  lemma LastTagIsSkipped(s: State, d: Digest, e: Digest, n: nat)
    requires d != e && n == TAG_PAGE + 1 && TaggedUpTo(s, d, e, n)
    ensures Tagged(s, "a", d) && !Tagged(s, "a", e)
  {
    var names := SortedNames(TagsOf(s, "a").Keys);
    SortedTags(s, d, e, n);
    TaggedIffSeen(s, "a", d);
    TaggedIffSeen(s, "a", e);
    StoredTagsHold(d, e, n);
    assert names[0] == Name(0);
    assert SeenAt(s, "a", names, 0, d);
    if Seen(s, "a", e) {
      var i :| SeenAt(s, "a", SortedNames(TagsOf(s, "a").Keys), i, e);
      SeenIsFirst(s, d, e, n, names, i);
    }
  }

  lemma SeenIsFirst(s: State, d: Digest, e: Digest, n: nat, names: seq<string>, i: int)
    requires d != e && n == TAG_PAGE + 1 && TaggedUpTo(s, d, e, n)
    requires names == seq(TAG_PAGE + 1, k requires 0 <= k <= TAG_PAGE => Name(k))
    ensures !SeenAt(s, "a", names, i, e)
  {
    StoredTagsHold(d, e, n);
    if 0 <= i < TAG_PAGE { assert names[i] == Name(i); }
  }

  function SkippingRun(d: Digest, e: Digest): Gc {
    Gc(map["a" := [Plain(e, 1), Plain(d, 0)]], "", 2)
  }

  lemma SkippingOrders(s: State, d: Digest, e: Digest, n: nat)
    requires d != e && n == TAG_PAGE + 1 && TaggedUpTo(s, d, e, n)
    ensures OrdersOf(s, SkippingRun(d, e))
  {
    var order := SkippingRun(d, e).orders["a"];
    assert s.manifests["a"] == StoredManifests(d, e, n);
    assert order[0] in order && order[1] in order;
    assert d in s.manifests["a"];
  }

  lemma OnlyTheSkippedIsACandidate(s: State, d: Digest, e: Digest, n: nat)
    requires d != e && n == TAG_PAGE + 1 && TaggedUpTo(s, d, e, n)
    ensures forall r, x :: Candidate(s, SkippingRun(d, e), r, x) <==> r == "a" && x == e
    ensures IsSweep(s, SkippingRun(d, e), [DropManifest("a", e)])
  {
    var g := SkippingRun(d, e);
    LastTagIsSkipped(s, d, e, n);
    assert g.orders["a"][0].digest == e && g.orders["a"][1].digest == d;
    assert CandidateAt(s, "a", g.orders["a"], 0, g.now) && !CandidateAt(s, "a", g.orders["a"], 1, g.now);
  }

  function Skipping(d: Digest, e: Digest): Step {
    CollectGarbage(SkippingRun(d, e), [DropManifest("a", e)])
  }

  /** The last tag points to a stored manifest. */
  ghost predicate LastTagHolds(s: State, e: Digest) {
    Name(TAG_PAGE) in TagsOf(s, "a") && TagsOf(s, "a")[Name(TAG_PAGE)].digest == e && e in ManifestsOf(s, "a")
  }

  lemma LastTagHeld(s: State, d: Digest, e: Digest, n: nat)
    requires d != e && n == TAG_PAGE + 1 && TaggedUpTo(s, d, e, n)
    ensures LastTagHolds(s, e)
  {
    StoredTagsHold(d, e, n);
  }

  /** Neither the tag nor the manifest is there. */
  ghost predicate LastTagIsGone(s: State, e: Digest) {
    Name(TAG_PAGE) !in TagsOf(s, "a") && e !in ManifestsOf(s, "a")
  }

  lemma DroppedWithItsTag(s: State, e: Digest)
    requires LastTagHolds(s, e)
    ensures LastTagIsGone(Swept(s, [DropManifest("a", e)]), e)
  {
    assert [DropManifest("a", e)][..0] == [];
    assert Swept(s, [DropManifest("a", e)]) == Deleted(s, DropManifest("a", e));
    DropManifestEffect(s, "a", e, Deleted(s, DropManifest("a", e)));
    DropManifestTags(s, "a", e, Deleted(s, DropManifest("a", e)));
  }

  lemma SkippingIsEnabled(s: State, d: Digest, e: Digest, n: nat)
    requires d != e && n == TAG_PAGE + 1 && TaggedUpTo(s, d, e, n)
    ensures Enabled(s, Skipping(d, e))
  {
    SkippingOrders(s, d, e, n);
    OnlyTheSkippedIsACandidate(s, d, e, n);
  }

  lemma SkippingIsARun(c: Config, d: Digest, e: Digest, n: nat)
    requires d != e && n == TAG_PAGE + 1
    ensures IsRun(c, Tagging(d, e, n) + [Skipping(d, e)])
  {
    TaggingReaches(c, d, e, n, Tagging(d, e, n));
    TaggingIsARun(c, d, e, n);
    SkippingIsEnabled(Reached(c, Tagging(d, e, n)), d, e, n);
    OneMoreRun(c, Tagging(d, e, n), Skipping(d, e));
  }

  lemma LastTagIsPut(c: Config, d: Digest, e: Digest, n: nat)
    requires d != e && n == TAG_PAGE + 1
    ensures LastTagHolds(Reached(c, Tagging(d, e, n)), e)
  {
    TaggingReaches(c, d, e, n, Tagging(d, e, n));
    LastTagHeld(Reached(c, Tagging(d, e, n)), d, e, n);
  }

  lemma CollectionTakesTheTag(c: Config, steps: seq<Step>, d: Digest, e: Digest)
    requires LastTagHolds(Reached(c, steps), e)
    ensures LastTagIsGone(Reached(c, steps + [Skipping(d, e)]), e)
  {
    ReachedNext(c, steps, Skipping(d, e));
    DroppedWithItsTag(Reached(c, steps), e);
  }

  /** A run of the registry that puts 1001 tags, and ends with a collection over all repositories: the last tag's
      manifest was stored, and the collection deletes it together with the tag. */
  lemma TaggedManifestIsDeleted(c: Config, d: Digest, e: Digest, n: nat)
    requires d != e && n == TAG_PAGE + 1
    ensures IsRun(c, Tagging(d, e, n) + [Skipping(d, e)])
    ensures LastTagHolds(Reached(c, Tagging(d, e, n)), e)
    ensures LastTagIsGone(Reached(c, Tagging(d, e, n) + [Skipping(d, e)]), e)
  {
    SkippingIsARun(c, d, e, n);
    LastTagIsPut(c, d, e, n);
    CollectionTakesTheTag(c, Tagging(d, e, n), d, e);
  }
}
