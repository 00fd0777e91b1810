/** A manifest that is pushed while a collection is under way: the push checks one reference after the other and
    then stores the manifest; the collection marks, lists the blobs, and deletes one by one; and meanwhile uploads
    complete. */
module PushRace {
  import opened Basics
  import opened Artifacts
  import opened Store
  import opened Registry
  import opened Collection
  import opened CollectionLaws

  /** The state in which the collection marked, its run and its candidate manifests in the order of their deletion,
      and the manifest that is pushed. */
  datatype Setting = Setting(start: State, g: Gc, drops: seq<Deletion>, repo: string, m: Manifest)

  ghost predicate IsSetting(x: Setting) {
    && KeyedManifests(x.start) && ReferencesStored(x.start) && OrdersOf(x.start, x.g)
    && (forall d :: d in x.start.blobs ==> x.start.blobs[d].references == 0)
    && (forall i, j :: 0 <= i < j < |x.drops| ==> x.drops[i] != x.drops[j])
    && (forall y :: y in x.drops ==> y.DropManifest?)
    && (forall r, d :: DropManifest(r, d) in x.drops <==> Candidate(x.start, x.g, r, d))
  }

  /** How far the push has come; `isNew` says that the digest was not stored before. */
  datatype Push = Checking(k: nat) | Refused | Done(isNew: bool)

  /** `listed` are the candidate blobs once they are known, `done` counts the deletions, and `gone` are the blobs that
      were deleted and not uploaded again. */
  datatype World = World(s: State, push: Push, listed: Option<seq<Digest>>, done: nat, gone: set<Digest>)

  datatype Step = Check | Put | Upload(d: Digest, size: int, data: Bytes) | List(order: seq<Digest>) | Delete

  /** The blobs that are stored when the collection lists them, and that it has not marked, each once. */
  ghost predicate ListsUnmarked(x: Setting, s: State, order: seq<Digest>) {
    && (forall i, j :: 0 <= i < j < |order| ==> order[i] != order[j])
    && forall d :: d in order <==> d in s.blobs && !Marked(x.start, x.g, d)
  }

  function Deletions(x: Setting, listed: seq<Digest>): seq<Deletion> {
    x.drops + seq(|listed|, i requires 0 <= i < |listed| => DropBlob(listed[i]))
  }

  function NewBlob(d: Digest, size: int): Blob { Blob(d, size, 0, BlobKey(d)) }

  ghost function Next(x: Setting, w: World, step: Step): World {
    match step
    case Check =>
      if !w.push.Checking? || w.push.k >= |x.m.RefList()| then w
      else w.(push := if x.m.RefList()[w.push.k] in w.s.blobs then Checking(w.push.k + 1) else Refused)
    case Put =>
      if !w.push.Checking? || w.push.k < |x.m.RefList()| then w
      else
        var (t, o) := PutManifest(w.s, x.repo, x.m);
        w.(s := t, push := if o.Fail? then Refused else Done(x.m.digest !in ManifestsOf(w.s, x.repo)))
    case Upload(d, size, data) =>
      w.(s := PutBlob(w.s, NewBlob(d, size), data).0, gone := w.gone - {d})
    case List(order) =>
      if w.listed.Some? || !ListsUnmarked(x, w.s, order) then w else w.(listed := Some(order))
    case Delete =>
      if w.listed.None? || w.done >= |Deletions(x, w.listed.value)| then w
      else
        var y := Deletions(x, w.listed.value)[w.done];
        w.(s := Deleted(w.s, y), done := w.done + 1,
           gone := if y.DropBlob? && y.digest in w.s.blobs then w.gone + {y.digest} else w.gone)
  }

  ghost function Run(x: Setting, steps: seq<Step>): World {
    if steps == [] then World(x.start, Checking(0), None, 0, {})
    else Next(x, Run(x, steps[..|steps| - 1]), steps[|steps| - 1])
  }

  // ---------------------------------------------------------------- the invariant

  /** The manifest was stored by this push. */
  predicate Pushed(x: Setting, w: World, r: string, d: Digest) {
    w.push == Done(true) && r == x.repo && d == x.m.digest
  }

  /** The candidate manifests that are deleted so far. */
  function Dropped(x: Setting, w: World): seq<Deletion> {
    if w.done < |x.drops| then x.drops[..w.done] else x.drops
  }

  ghost predicate ManifestsOk(x: Setting, w: World) {
    && (forall r, d :: d in ManifestsOf(w.s, r) <==>
          Pushed(x, w, r, d) || (d in ManifestsOf(x.start, r) && DropManifest(r, d) !in Dropped(x, w)))
    && (forall r, d :: d in ManifestsOf(w.s, r) ==>
          ManifestsOf(w.s, r)[d] == if Pushed(x, w, r, d) then x.m else ManifestsOf(x.start, r)[d])
    && (w.push == Done(true) && x.m.digest in ManifestsOf(x.start, x.repo) ==>
          DropManifest(x.repo, x.m.digest) in Dropped(x, w))
  }

  /** The first k references were found, so that they are stored or gone again. */
  ghost predicate FoundOk(x: Setting, w: World) {
    var k := match w.push case Checking(k) => k case Refused => 0 case Done(_) => |x.m.RefList()|;
    k <= |x.m.RefList()| && forall i :: 0 <= i < k ==> x.m.RefList()[i] in w.s.blobs || x.m.RefList()[i] in w.gone
  }

  ghost predicate BlobsOk(x: Setting, w: World) {
    && (forall d :: d in w.s.blobs ==> w.s.blobs[d].references == 0 && d !in w.gone)
    && (forall d :: d in x.start.blobs ==> d in w.s.blobs || d in w.gone)
    && (forall d :: d in w.gone ==> !Marked(x.start, x.g, d) && |x.drops| <= w.done)
    && (w.listed.Some? ==> forall d :: d in w.listed.value ==> !Marked(x.start, x.g, d))
  }

  ghost predicate Inv(x: Setting, w: World) { ManifestsOk(x, w) && FoundOk(x, w) && BlobsOk(x, w) }

  lemma CandidateIsStored(x: Setting, r: string, d: Digest)
    requires IsSetting(x) && DropManifest(r, d) in x.drops
    ensures d in ManifestsOf(x.start, r)
  {
    assert Candidate(x.start, x.g, r, d);
  }

  lemma SameManifests(x: Setting, w: World, n: World)
    requires ManifestsOk(x, w) && n.s.manifests == w.s.manifests && Dropped(x, n) == Dropped(x, w)
    requires n.push == Done(true) <==> w.push == Done(true)
    ensures ManifestsOk(x, n)
  {
    forall r ensures ManifestsOf(n.s, r) == ManifestsOf(w.s, r) {
    }
  }

  lemma StillFound(x: Setting, w: World, n: World)
    requires FoundOk(x, w) && n.push == w.push
    requires forall d :: d in w.s.blobs || d in w.gone ==> d in n.s.blobs || d in n.gone
    ensures FoundOk(x, n)
  {
  }

  lemma CheckKeepsInv(x: Setting, w: World)
    requires Inv(x, w)
    ensures Inv(x, Next(x, w, Check))
  {
    SameManifests(x, w, Next(x, w, Check));
  }

  lemma ListKeepsInv(x: Setting, w: World, order: seq<Digest>)
    requires Inv(x, w)
    ensures Inv(x, Next(x, w, List(order)))
  {
    SameManifests(x, w, Next(x, w, List(order)));
  }

  /** Before the push is through, everything is from the start. */
  lemma NewManifest(x: Setting, w: World, n: World)
    requires ManifestsOk(x, w) && w.push.Checking? && n.push == Done(true) && Dropped(x, n) == Dropped(x, w)
    requires x.m.digest !in ManifestsOf(w.s, x.repo)
    requires n.s.manifests == w.s.manifests[x.repo := ManifestsOf(w.s, x.repo)[x.m.digest := x.m]]
    ensures ManifestsOk(x, n)
  {
    forall r, d
      ensures d in ManifestsOf(n.s, r) <==> Pushed(x, n, r, d) || d in ManifestsOf(w.s, r)
      ensures d in ManifestsOf(n.s, r) ==>
          ManifestsOf(n.s, r)[d] == if Pushed(x, n, r, d) then x.m else ManifestsOf(w.s, r)[d]
    {
    }
  }

  lemma PutKeepsInv(x: Setting, w: World)
    requires Inv(x, w)
    ensures Inv(x, Next(x, w, Put))
  {
    var n := Next(x, w, Put);
    if w.push.Checking? && w.push.k >= |x.m.RefList()| {
      assert n.s == w.s.(manifests := n.s.manifests);
      if n.push == Done(true) { NewManifest(x, w, n); } else { SameManifests(x, w, n); }
    }
  }

  lemma UploadEffect(s: State, b: Blob, data: Bytes)
    ensures
      var t := PutBlob(s, b, data).0;
      t.manifests == s.manifests && t.blobs == if b.digest in s.blobs then s.blobs else s.blobs[b.digest := b]
  {
  }

  lemma UploadKeepsInv(x: Setting, w: World, d: Digest, size: int, data: Bytes)
    requires Inv(x, w)
    ensures Inv(x, Next(x, w, Upload(d, size, data)))
  {
    var n := Next(x, w, Upload(d, size, data));
    UploadEffect(w.s, NewBlob(d, size), data);
    SameManifests(x, w, n);
    StillFound(x, w, n);
  }

  lemma NextDrop(drops: seq<Deletion>, k: nat, y: Deletion)
    requires k < |drops| && y == drops[k] && forall i, j :: 0 <= i < j < |drops| ==> drops[i] != drops[j]
    ensures drops[..k + 1] == drops[..k] + [y] && y !in drops[..k]
    ensures k + 1 == |drops| ==> drops == drops[..k] + [y]
  {
  }

  lemma DropManifestShape(x: Setting, w: World, y: Deletion)
    requires w.listed.Some? && w.done < |x.drops| && y == x.drops[w.done] && y.DropManifest?
    requires forall i, j :: 0 <= i < j < |x.drops| ==> x.drops[i] != x.drops[j]
    ensures
      var n := Next(x, w, Delete);
      && n == w.(s := Deleted(w.s, y), done := w.done + 1)
      && Dropped(x, n) == Dropped(x, w) + [y] && y !in Dropped(x, w)
  {
    assert Deletions(x, w.listed.value)[w.done] == y;
    NextDrop(x.drops, w.done, y);
  }

  lemma DropManifestKeepsManifests(x: Setting, w: World, n: World, y: Deletion)
    requires ManifestsOk(x, w) && y.DropManifest? && n.s == Deleted(w.s, y) && n.push == w.push
    requires Dropped(x, n) == Dropped(x, w) + [y] && y !in Dropped(x, w)
    requires DropManifest(y.repo, y.digest) == y && y.digest in ManifestsOf(x.start, y.repo)
    ensures ManifestsOk(x, n)
  {
    DropManifestEffect(w.s, y.repo, y.digest, n.s);
    Appended(Dropped(x, w), y);
  }

  lemma DropManifestKeepsInv(x: Setting, w: World)
    requires IsSetting(x) && Inv(x, w) && w.listed.Some? && w.done < |x.drops|
    ensures Inv(x, Next(x, w, Delete))
  {
    var y := x.drops[w.done];
    assert y in x.drops;
    DropManifestShape(x, w, y);
    DropManifestEffect(w.s, y.repo, y.digest, Next(x, w, Delete).s);
    CandidateIsStored(x, y.repo, y.digest);
    DropManifestKeepsManifests(x, w, Next(x, w, Delete), y);
    StillFound(x, w, Next(x, w, Delete));
  }

  lemma DropBlobShape(x: Setting, w: World, d: Digest)
    requires w.listed.Some? && |x.drops| <= w.done < |Deletions(x, w.listed.value)|
    requires d == w.listed.value[w.done - |x.drops|]
    ensures
      var n := Next(x, w, Delete);
      && n == w.(s := Deleted(w.s, DropBlob(d)), done := w.done + 1,
                 gone := if d in w.s.blobs then w.gone + {d} else w.gone)
      && Dropped(x, n) == Dropped(x, w)
  {
    assert Deletions(x, w.listed.value)[w.done] == DropBlob(d);
  }

  lemma DropBlobKeepsInv(x: Setting, w: World)
    requires Inv(x, w) && w.listed.Some? && |x.drops| <= w.done < |Deletions(x, w.listed.value)|
    ensures Inv(x, Next(x, w, Delete))
  {
    var n, d := Next(x, w, Delete), w.listed.value[w.done - |x.drops|];
    DropBlobShape(x, w, d);
    DropBlobBlobs(w.s, d);
    assert d in w.listed.value;
    SameManifests(x, w, n);
    StillFound(x, w, n);
  }

  lemma DeleteKeepsInv(x: Setting, w: World)
    requires IsSetting(x) && Inv(x, w)
    ensures Inv(x, Next(x, w, Delete))
  {
    if w.listed.None? || w.done >= |Deletions(x, w.listed.value)| {
      assert Next(x, w, Delete) == w;
    } else if w.done < |x.drops| {
      DropManifestKeepsInv(x, w);
    } else {
      DropBlobKeepsInv(x, w);
    }
  }

  lemma NextKeepsInv(x: Setting, w: World, step: Step)
    requires IsSetting(x) && Inv(x, w)
    ensures Inv(x, Next(x, w, step))
  {
    match step
    case Check => CheckKeepsInv(x, w);
    case Put => PutKeepsInv(x, w);
    case Upload(d, size, data) => UploadKeepsInv(x, w, d, size, data);
    case List(order) => ListKeepsInv(x, w, order);
    case Delete => DeleteKeepsInv(x, w);
  }

  lemma {:induction false} RunKeepsInv(x: Setting, steps: seq<Step>)
    requires IsSetting(x)
    ensures Inv(x, Run(x, steps))
    decreases |steps|
  {
    if steps != [] {
      RunKeepsInv(x, steps[..|steps| - 1]);
      NextKeepsInv(x, Run(x, steps[..|steps| - 1]), steps[|steps| - 1]);
    }
  }

  // ---------------------------------------------------------------- when a reference dangles

  /** A stored manifest that the push did not store loses a reference only when the reference was exposed. */
  lemma LostIsExposed(x: Setting, w: World, r: string, d: Digest, b: Digest)
    requires IsSetting(x) && Inv(x, w) && d in ManifestsOf(w.s, r) && !Pushed(x, w, r, d)
    requires b in ManifestsOf(w.s, r)[d].RefList() && b !in w.s.blobs
    ensures b in w.gone && Exposed(x.start, x.g, r, d, b)
  {
    assert b in x.start.blobs && b in w.gone;
    assert !Candidate(x.start, x.g, r, d);
    if !CandidateSomewhere(x.start, x.g, d) { LiveProtects(x.start, x.g, r, d, b); }
  }

  /** An exposed reference dangles once it is gone. */
  lemma ExposedIsLost(x: Setting, w: World, r: string, d: Digest, b: Digest)
    requires IsSetting(x) && Inv(x, w) && Exposed(x.start, x.g, r, d, b) && b in w.gone
    ensures !ReferencesStored(w.s)
  {
    assert DropManifest(r, d) !in x.drops;
    assert d in ManifestsOf(w.s, r) && !Pushed(x, w, r, d);
    assert ManifestsOf(w.s, r)[d] == ManifestsOf(x.start, r)[d];
  }

  /** No reference of the pushed manifest was deleted after it was checked. */
  ghost predicate PushIsWhole(x: Setting, w: World) {
    w.push == Done(true) ==> forall b :: b in x.m.RefList() ==> b !in w.gone
  }

  ghost predicate ExposedIsThere(x: Setting, w: World) {
    forall r, d, b :: Exposed(x.start, x.g, r, d, b) ==> b !in w.gone
  }

  lemma WholeStaysStored(x: Setting, w: World, r: string, d: Digest, b: Digest)
    requires IsSetting(x) && Inv(x, w) && PushIsWhole(x, w) && ExposedIsThere(x, w)
    requires d in ManifestsOf(w.s, r) && b in ManifestsOf(w.s, r)[d].RefList()
    ensures b in w.s.blobs
  {
    if Pushed(x, w, r, d) {
      assert b in x.m.RefList();
    } else if b !in w.s.blobs {
      LostIsExposed(x, w, r, d, b);
    }
  }

  lemma BrokenPushDangles(x: Setting, w: World)
    requires Inv(x, w) && !PushIsWhole(x, w)
    ensures !ReferencesStored(w.s)
  {
    assert Pushed(x, w, x.repo, x.m.digest);
    assert x.m.digest in ManifestsOf(w.s, x.repo) && ManifestsOf(w.s, x.repo)[x.m.digest] == x.m;
  }

  /** In every interleaving, at every moment: all references are stored exactly when the collection itself exposes
      none that is gone, and none of the pushed manifest's was deleted after its check and not uploaded again. */
  lemma ReferencesStoredIff(x: Setting, steps: seq<Step>, w: World)
    requires IsSetting(x) && w == Run(x, steps)
    ensures ReferencesStored(w.s) <==> PushIsWhole(x, w) && ExposedIsThere(x, w)
  {
    RunKeepsInv(x, steps);
    if !PushIsWhole(x, w) {
      BrokenPushDangles(x, w);
    } else if !ExposedIsThere(x, w) {
      var r, d, b :| Exposed(x.start, x.g, r, d, b) && b in w.gone;
      ExposedIsLost(x, w, r, d, b);
    } else {
      forall r, d, b | d in ManifestsOf(w.s, r) && b in ManifestsOf(w.s, r)[d].RefList() ensures b in w.s.blobs {
        WholeStaysStored(x, w, r, d, b);
      }
    }
  }

  /** Only blobs that the collection did not mark can go; a push that names others is safe. */
  lemma MarkedPushIsSafe(x: Setting, steps: seq<Step>)
    requires IsSetting(x) && NoSplitDigest(x.start, x.g)
    requires forall b :: b in x.m.RefList() ==> Marked(x.start, x.g, b)
    ensures ReferencesStored(Run(x, steps).s)
  {
    RunKeepsInv(x, steps);
    ReferencesStoredIff(x, steps, Run(x, steps));
  }

  // ---------------------------------------------------------------- without uploads in between

  predicate NoUpload(steps: seq<Step>) {
    forall i :: 0 <= i < |steps| ==> !steps[i].Upload?
  }

  /** Nothing comes back: the collection lists the candidates of the state in which it marked. */
  ghost predicate CalmInv(x: Setting, w: World) {
    && (w.listed.None? ==> w.gone == {} && w.s.blobs.Keys == x.start.blobs.Keys && w.done == 0)
    && (w.listed.Some? ==>
          && (forall d :: d in w.listed.value <==> CandidateBlob(x.start, x.g, d))
          && (forall i, j :: 0 <= i < j < |w.listed.value| ==> w.listed.value[i] != w.listed.value[j])
          && w.done <= |x.drops| + |w.listed.value|
          && (forall d :: d in w.gone <==> d in w.listed.value[..w.done - Min(w.done, |x.drops|)]))
  }

  lemma {:induction false} RunIsCalm(x: Setting, steps: seq<Step>)
    requires IsSetting(x) && NoUpload(steps)
    ensures CalmInv(x, Run(x, steps))
    decreases |steps|
  {
    if steps != [] {
      var w, step := Run(x, steps[..|steps| - 1]), steps[|steps| - 1];
      RunKeepsInv(x, steps[..|steps| - 1]);
      RunIsCalm(x, steps[..|steps| - 1]);
      NextIsCalm(x, w, step);
    }
  }

  lemma NextIsCalm(x: Setting, w: World, step: Step)
    requires IsSetting(x) && Inv(x, w) && CalmInv(x, w) && !step.Upload?
    ensures CalmInv(x, Next(x, w, step))
  {
    if step.Delete? && w.listed.Some? && w.done < |Deletions(x, w.listed.value)| {
      DeleteIsCalm(x, w, w.listed.value);
    }
  }

  lemma NextListed(listed: seq<Digest>, i: nat)
    requires i < |listed| && forall j, k :: 0 <= j < k < |listed| ==> listed[j] != listed[k]
    ensures listed[i] !in listed[..i] && listed[..i + 1] == listed[..i] + [listed[i]]
  {
  }

  lemma DropBlobIsCalm(x: Setting, w: World, listed: seq<Digest>, i: nat)
    requires Inv(x, w) && CalmInv(x, w) && w.listed == Some(listed) && w.done == |x.drops| + i && i < |listed|
    ensures CalmInv(x, Next(x, w, Delete))
  {
    DropBlobShape(x, w, listed[i]);
    NextListed(w.listed.value, i);
    assert listed[i] in w.listed.value;
    assert CandidateBlob(x.start, x.g, listed[i]);
    LateIsCalm(x, w, Next(x, w, Delete), listed, i);
  }

  lemma LateIsCalm(x: Setting, w: World, n: World, listed: seq<Digest>, i: nat)
    requires CalmInv(x, w) && w.listed == n.listed == Some(listed) && i < |listed|
    requires w.done == |x.drops| + i && n.done == w.done + 1 && n.gone == w.gone + {listed[i]}
    ensures CalmInv(x, n)
  {
    assert listed[..i + 1] == listed[..i] + [listed[i]];
  }

  lemma EarlyIsCalm(x: Setting, w: World, n: World)
    requires CalmInv(x, w) && w.listed.Some? && w.done < |x.drops|
    requires n.listed == w.listed && n.gone == w.gone && n.done == w.done + 1
    ensures CalmInv(x, n)
  {
  }

  lemma DeleteIsCalm(x: Setting, w: World, listed: seq<Digest>)
    requires IsSetting(x) && Inv(x, w) && CalmInv(x, w) && w.listed == Some(listed)
    requires w.done < |x.drops| + |listed|
    ensures CalmInv(x, Next(x, w, Delete))
  {
    if |x.drops| <= w.done {
      DropBlobIsCalm(x, w, listed, w.done - |x.drops|);
    } else {
      assert x.drops[w.done] in x.drops;
      DropManifestShape(x, w, x.drops[w.done]);
      EarlyIsCalm(x, w, Next(x, w, Delete));
    }
  }

  /** When the collection is through and nothing was uploaded meanwhile, all references are stored exactly when it
      exposed none, and the push, if it went through, named no blob that was a candidate when it marked. */
  lemma PushDuringCollectionIff(x: Setting, steps: seq<Step>, w: World)
    requires IsSetting(x) && NoUpload(steps) && w == Run(x, steps)
    requires w.listed.Some? && w.done == |Deletions(x, w.listed.value)|
    ensures ReferencesStored(w.s) <==>
      && (w.push == Done(true) ==> forall b :: b in x.m.RefList() ==> !CandidateBlob(x.start, x.g, b))
      && (forall r, d, b :: !Exposed(x.start, x.g, r, d, b))
  {
    RunIsCalm(x, steps);
    ReferencesStoredIff(x, steps, w);
    assert w.done - Min(w.done, |x.drops|) == |w.listed.value|;
    assert w.listed.value[..|w.listed.value|] == w.listed.value;
    assert forall b :: b in w.gone <==> CandidateBlob(x.start, x.g, b);
    assert forall r, d, b :: Exposed(x.start, x.g, r, d, b) ==> CandidateBlob(x.start, x.g, b);
  }

  // ---------------------------------------------------------------- the calls are runs of these steps

  ghost function Checked(x: Setting, w: World, n: nat): World {
    if n == 0 then w else Next(x, Checked(x, w, n - 1), Check)
  }

  /** The references are there up to k. */
  predicate AllThere(x: Setting, s: State, k: nat)
    requires k <= |x.m.RefList()|
  {
    forall i :: 0 <= i < k ==> x.m.RefList()[i] in s.blobs
  }

  lemma AllThereStep(x: Setting, s: State, k: nat, n: nat)
    requires n == k + 1 <= |x.m.RefList()|
    ensures AllThere(x, s, n) <==> AllThere(x, s, k) && x.m.RefList()[k] in s.blobs
  {
  }

  lemma CheckOnce(x: Setting, w: World, u: World, k: nat, n: nat)
    requires n == k + 1 <= |x.m.RefList()|
    requires u == w.(push := if AllThere(x, w.s, k) then Checking(k) else Refused)
    ensures Next(x, u, Check) == w.(push := if AllThere(x, w.s, n) then Checking(n) else Refused)
  {
    AllThereStep(x, w.s, k, n);
  }

  lemma {:induction false} ChecksDecide(x: Setting, w: World, n: nat)
    requires w.push == Checking(0) && n <= |x.m.RefList()|
    ensures Checked(x, w, n) == w.(push := if AllThere(x, w.s, n) then Checking(n) else Refused)
    decreases n
  {
    if n > 0 {
      ChecksDecide(x, w, n - 1);
      CheckOnce(x, w, Checked(x, w, n - 1), n - 1, n);
    }
  }

  /** A push that nothing interrupts checks every reference and then puts the manifest. */
  lemma PushIsChecksAndPut(x: Setting, w: World, parsed: Manifest, now: int)
    requires w.push == Checking(0) && x.repo in w.s.repos && x.m.size <= MAX_MANIFEST_SIZE
    requires x.m == parsed.(createdAt := now)
    ensures
      var t := Next(x, Checked(x, w, |x.m.RefList()|), Put);
      var (s, o) := ManifestPut(w.s, x.repo, ByDigest(x.m.digest), parsed, now);
      t.s == s && (t.push.Done? <==> o.Pass?)
  {
    ChecksDecide(x, w, |x.m.RefList()|);
  }

  lemma DeletionsHold(x: Setting, listed: seq<Digest>, y: Deletion)
    requires forall z :: z in x.drops ==> z.DropManifest?
    ensures y in Deletions(x, listed) <==> y in x.drops || (y.DropBlob? && y.digest in listed)
  {
    var all := Deletions(x, listed);
    if y.DropBlob? && y.digest in listed {
      var i :| 0 <= i < |listed| && listed[i] == y.digest;
      assert all[|x.drops| + i] == y;
    }
    if y in x.drops {
      var i :| 0 <= i < |x.drops| && x.drops[i] == y;
      assert all[i] == y;
    }
  }

  lemma DeletionsInOrder(x: Setting, listed: seq<Digest>, i: nat, j: nat)
    requires forall z :: z in x.drops ==> z.DropManifest?
    requires forall k, l :: 0 <= k < l < |x.drops| ==> x.drops[k] != x.drops[l]
    requires forall k, l :: 0 <= k < l < |listed| ==> listed[k] != listed[l]
    requires i < j < |Deletions(x, listed)|
    ensures Deletions(x, listed)[i] != Deletions(x, listed)[j]
    ensures Deletions(x, listed)[i].DropBlob? ==> Deletions(x, listed)[j].DropBlob?
  {
    if i < |x.drops| {
      assert x.drops[i] in x.drops;
    } else {
      assert listed[i - |x.drops|] != listed[j - |x.drops|];
    }
  }

  /** The deletions of a collection that lists its blobs at once are a sweep. */
  lemma DeletionsAreASweep(x: Setting, listed: seq<Digest>)
    requires IsSetting(x) && ListsUnmarked(x, x.start, listed)
    ensures IsSweep(x.start, x.g, Deletions(x, listed))
  {
    var all := Deletions(x, listed);
    forall y ensures y in all <==> y in x.drops || (y.DropBlob? && y.digest in listed) {
      DeletionsHold(x, listed, y);
    }
    forall i, j | 0 <= i < j < |all| ensures all[i] != all[j] && (all[i].DropBlob? ==> all[j].DropBlob?) {
      DeletionsInOrder(x, listed, i, j);
    }
  }

  // ---------------------------------------------------------------- a push that loses

  lemma RunGoesOn(x: Setting, steps: seq<Step>, step: Step)
    ensures Run(x, steps + [step]) == Next(x, Run(x, steps), step)
  {
    assert (steps + [step])[..|steps|] == steps;
  }

  /** The push checks its one reference, and stores the manifest before the collection deletes the blob. */
  function Losing(none: seq<Step>, b: Digest): seq<Step> { none + [Check] + [List([b])] + [Put] + [Delete] }

  /** Only the blob that the push names is stored, nothing has marked it, and no manifest is to be deleted. */
  ghost predicate NamesTheCandidate(x: Setting, b: Digest) {
    && IsSetting(x) && x.drops == [] && x.m.RefList() == [b] && ListsUnmarked(x, x.start, [b])
    && x.repo in x.start.repos && x.m.digest !in ManifestsOf(x.start, x.repo)
  }

  lemma LosingRun(x: Setting, none: seq<Step>, b: Digest)
    requires NamesTheCandidate(x, b) && none == []
    ensures
      var w := Run(x, Losing(none, b));
      w.push == Done(true) && w.listed == Some([b]) && w.done == |Deletions(x, [b])| == 1
  {
    var first := none + [Check];
    var second := first + [List([b])];
    var third := second + [Put];
    RunGoesOn(x, none, Check);
    RunGoesOn(x, first, List([b]));
    RunGoesOn(x, second, Put);
    RunGoesOn(x, third, Delete);
    assert b in [b];
    assert Run(x, first) == World(x.start, Checking(1), None, 0, {});
    assert Run(x, second) == World(x.start, Checking(1), Some([b]), 0, {});
    assert Run(x, third).push == Done(true);
  }

  lemma CheckedThenDeletedDangles(x: Setting, none: seq<Step>, b: Digest)
    requires NamesTheCandidate(x, b) && none == []
    ensures Run(x, Losing(none, b)).push == Done(true) && !ReferencesStored(Run(x, Losing(none, b)).s)
  {
    LosingRun(x, none, b);
    assert b in x.m.RefList() && b in [b];
    assert CandidateBlob(x.start, x.g, b);
    PushDuringCollectionIff(x, Losing(none, b), Run(x, Losing(none, b)));
  }
}
