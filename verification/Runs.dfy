/** Runs: any sequence of the registry's calls, garbage collections and clean-ups, from the empty state on. */
module Runs {
  import opened Basics
  import opened Ranges
  import opened Artifacts
  import opened Policy
  import opened Store
  import opened Registry
  import opened Collection
  import opened Janitor
  import opened Lifecycle
  import R = Replication

  datatype Step =
    | CreateRepository(name: string, tenant: string, immutable: bool, quota: int)
    | StartUpload(repo: string, expected: Option<int>, id: string, token: string, now: int)
    | UploadChunk(repo: string, id: string, token: string, range: ByteRange, data: Bytes, now: int)
    | CompleteUpload(repo: string, id: string, token: string, digest: Digest, now: int)
    | AbortUpload(repo: string, id: string, token: string)
    | PutManifest(repo: string, reference: Reference, parsed: Manifest, now: int)
    | DeleteManifest(repo: string, digest: Digest)
    | SetTagImmutability(repo: string, value: bool, ifMatch: int)
    | PutPolicy(policy: RetentionPolicy)
    | DeletePolicy(policyId: string)
    | CreateReplication(source: string, target: string, task: string, generated: string)
    | RunReplication(task: string, now: int, result: R.CopyResult)
    | CollectGarbage(gc: Gc, deletions: seq<Deletion>)
    | CleanUp(now: int)

  /** The state after a call, whether it succeeds or fails. A chunk's range has passed NewByteRange. */
  ghost function Apply(c: Config, s: State, step: Step): State {
    match step
    case CreateRepository(name, tenant, immutable, quota) => RepositoryCreated(c, s, name, tenant, immutable, quota).0
    case StartUpload(repo, expected, id, token, now) => UploadStarted(c, s, repo, expected, id, token, now).0
    case UploadChunk(repo, id, token, r, data, now) =>
      if r.Valid() then ChunkUploaded(c, s, repo, id, token, r, data, now).0 else s
    case CompleteUpload(repo, id, token, d, now) => UploadCompleted(c, s, repo, id, token, d, now).0
    case AbortUpload(repo, id, token) => UploadAborted(s, repo, id, token).0
    case PutManifest(repo, reference, parsed, now) => ManifestPut(s, repo, reference, parsed, now).0
    case DeleteManifest(repo, d) => ManifestDeleted(s, repo, d).0
    case SetTagImmutability(repo, value, ifMatch) => TagImmutabilitySet(s, repo, value, ifMatch).0
    case PutPolicy(p) => Store.PutPolicy(s, p).0
    case DeletePolicy(id) => DeletedPolicy(s, id).0
    case CreateReplication(source, target, id, generated) => ReplicationCreated(s, source, target, id, generated).0
    case RunReplication(id, now, result) => ReplicationRan(s, id, now, result).0
    case CollectGarbage(_, deletions) => Swept(s, deletions)
    case CleanUp(now) => Cleaned(s, now)
  }

  /** A collection deletes what its marking allows, or nothing at all. */
  ghost predicate Enabled(s: State, step: Step) {
    step.CollectGarbage? ==>
      OrdersOf(s, step.gc) && (step.deletions == [] || IsSweep(s, step.gc, step.deletions))
  }

  /** The state that the calls lead to. */
  ghost function After(c: Config, s: State, steps: seq<Step>): State {
    if steps == [] then s else Apply(c, After(c, s, steps[..|steps| - 1]), steps[|steps| - 1])
  }

  ghost function Reached(c: Config, steps: seq<Step>): State {
    After(c, EMPTY, steps)
  }

  ghost predicate IsRun(c: Config, steps: seq<Step>) {
    steps == [] ||
    (IsRun(c, steps[..|steps| - 1]) && Enabled(Reached(c, steps[..|steps| - 1]), steps[|steps| - 1]))
  }
}
