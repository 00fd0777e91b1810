/** Immutable tags over whole runs. */
module TagLaws {
  import opened Basics
  import opened Artifacts
  import opened Store
  import opened Registry
  import opened Collection
  import opened Runs
  import opened RunInvariants

  /** The tag is there, immutable, and points to the digest. */
  ghost predicate Pinned(s: State, repo: string, name: string, d: Digest) {
    name in TagsOf(s, repo) && TagsOf(s, repo)[name].immutable && TagsOf(s, repo)[name].digest == d
  }

  lemma SameTags(s: State, t: State, repo: string, name: string, d: Digest)
    requires t.tags == s.tags
    ensures Pinned(t, repo, name, d) <==> Pinned(s, repo, name, d)
  {
  }

  lemma MovingIsRefused(s: State, repo: string, name: string, d: Digest, e: Digest)
    requires Pinned(s, repo, name, d) && TagsOf(s, repo)[name].name == name
    ensures e != d ==> TagMoved(s, repo, name, e) == (s, Fail(TagImmutable))
    ensures e == d ==> Pinned(TagMoved(s, repo, name, e).0, repo, name, d)
  {
  }

  lemma OtherTagPins(s: State, r: string, v: TagValue, repo: string, name: string, d: Digest)
    requires Pinned(s, repo, name, d) && (r != repo || v.name != name)
    ensures Pinned(PutTag(s, r, v), repo, name, d)
  {
  }

  lemma TagMovedPins(s: State, r: string, n: string, e: Digest, repo: string, name: string, d: Digest)
    requires NamesKept(s) && Pinned(s, repo, name, d)
    ensures Pinned(TagMoved(s, r, n, e).0, repo, name, d)
    ensures r == repo && n == name && e != d ==> TagMoved(s, r, n, e) == (s, Fail(TagImmutable))
  {
    if n in TagsOf(s, r) { assert NamedTag(n, TagsOf(s, r)[n]); }
    if r == repo && n == name {
      MovingIsRefused(s, repo, name, d, e);
    } else {
      var moved := if n in TagsOf(s, r) then MovedTag(TagsOf(s, r)[n], e)
                   else MakeTag(n, e, r in s.repos && s.repos[r].immutableTags);
      if moved.Success? { OtherTagPins(s, r, moved.value, repo, name, d); }
    }
  }

  lemma ManifestPutPins(s: State, r: string, reference: Reference, parsed: Manifest, now: int, repo: string,
                        name: string, d: Digest)
    requires NamesKept(s) && Pinned(s, repo, name, d)
    ensures Pinned(ManifestPut(s, r, reference, parsed, now).0, repo, name, d)
  {
    var m := parsed.(createdAt := now);
    if r in s.repos {
      var t := Store.PutManifest(s, r, m).0;
      PutManifestEffect(s, r, m);
      PutManifestNames(s, r, m);
      SameTags(s, t, repo, name, d);
      if reference.ByTag? { TagMovedPins(t, r, reference.name, m.digest, repo, name, d); }
    }
  }

  /** Whatever deletes manifests may take the tag away, but nothing makes it point elsewhere. */
  lemma DeletionPins(s: State, deletions: seq<Deletion>, repo: string, name: string, d: Digest)
    requires Pinned(s, repo, name, d)
    ensures name in TagsOf(Swept(s, deletions), repo) ==> Pinned(Swept(s, deletions), repo, name, d)
    ensures name in TagsOf(Swept(s, deletions), repo) <==>
        DropManifest(repo, d) !in deletions || d !in ManifestsOf(s, repo)
  {
    SweptLeaves(s, deletions);
  }

  /** A step that deletes the manifest the tag points to. */
  ghost predicate Drops(step: Step, repo: string, d: Digest) {
    || (step.DeleteManifest? && step.repo == repo && step.digest == d)
    || (step.CollectGarbage? && DropManifest(repo, d) in step.deletions)
  }

  lemma PutPins(c: Config, s: State, step: Step, repo: string, name: string, d: Digest)
    requires step.PutManifest? && Kept(c, s) && Pinned(s, repo, name, d)
    ensures Pinned(Apply(c, s, step), repo, name, d)
  {
    ManifestPutPins(s, step.repo, step.reference, step.parsed, step.now, repo, name, d);
  }

  lemma DeletePins(c: Config, s: State, step: Step, repo: string, name: string, d: Digest)
    requires step.DeleteManifest? && Pinned(s, repo, name, d) && !Drops(step, repo, d)
    ensures Pinned(Apply(c, s, step), repo, name, d)
  {
    if step.repo in s.repos {
      DropManifestTags(s, step.repo, step.digest, Deleted(s, DropManifest(step.repo, step.digest)));
    }
  }

  lemma CollectPins(c: Config, s: State, step: Step, repo: string, name: string, d: Digest)
    requires step.CollectGarbage? && Pinned(s, repo, name, d) && !Drops(step, repo, d)
    ensures Pinned(Apply(c, s, step), repo, name, d)
  {
    DeletionPins(s, step.deletions, repo, name, d);
  }

  lemma FramePins(c: Config, s: State, step: Step, repo: string, name: string, d: Digest)
    requires Kept(c, s) && Pinned(s, repo, name, d) && !IsNameStep(step)
    ensures Pinned(Apply(c, s, step), repo, name, d)
  {
    NamesFrame(c, s, step);
    SameTags(s, Apply(c, s, step), repo, name, d);
  }

  lemma StepPins(c: Config, s: State, step: Step, repo: string, name: string, d: Digest)
    requires Kept(c, s) && Pinned(s, repo, name, d) && !Drops(step, repo, d)
    ensures Pinned(Apply(c, s, step), repo, name, d)
  {
    if !IsNameStep(step) {
      FramePins(c, s, step, repo, name, d);
    } else if step.PutManifest? {
      PutPins(c, s, step, repo, name, d);
    } else if step.DeleteManifest? {
      DeletePins(c, s, step, repo, name, d);
    } else {
      CollectPins(c, s, step, repo, name, d);
    }
  }

  /** An immutable tag keeps its digest through every run of calls that does not delete the manifest. */
  lemma {:induction false} ImmutableTagsStay(c: Config, s: State, steps: seq<Step>, repo: string, name: string,
                                             d: Digest)
    requires 0 <= c.defaultQuota && Kept(c, s) && Pinned(s, repo, name, d)
    requires forall i :: 0 <= i < |steps| ==> !Drops(steps[i], repo, d)
    ensures Kept(c, After(c, s, steps)) && Pinned(After(c, s, steps), repo, name, d)
    decreases |steps|
  {
    if steps != [] {
      var front := steps[..|steps| - 1];
      ImmutableTagsStay(c, s, front, repo, name, d);
      StepPins(c, After(c, s, front), steps[|steps| - 1], repo, name, d);
      StepKeeps(c, After(c, s, front), steps[|steps| - 1]);
    }
  }
}
