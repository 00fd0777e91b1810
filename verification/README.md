# Artifact registry: a verified model

A Dafny model of the core of a content-addressed artifact registry: repositories with manifests and tags,
resumable uploads, tenant quotas, replication under leases, and garbage collection.

## How the model is laid out

Services, catalog, object store and every entity whose fields change in place are classes. Each of their
methods is proved equal to a function of the old state; the laws are lemmas about these functions.

- `Store` is the registry's stored state as one value, with one function for each call of the catalog.
  `Catalog`, `Objects`, `Registry`, `Lifecycle` and `Janitor` hold the classes.
- `Upload`, `Ranges`, `Policy`, `Artifacts`, `Pages`, `Graph`, `Uploader`, `RateLimit`, `ContentRange` and
  `Cursors` model the domain types and the small algorithms.
- `Collection` says what one garbage collection may delete, `CollectionLaws` what that keeps and what it loses,
  `Marking` how far the collector's loops have come.
- `Runs` defines runs: any sequence of service calls, successful or failing, of collections and of clean-ups,
  starting empty. `Effects` says what each upload call does by outcome, `RunInvariants` what every call keeps,
  and `RunLaws` and `TagLaws` state the laws of all reachable states.
- `Conservation` is the exact bookkeeping of quotas, `RoundTrip` the path of a blob's bytes from the first chunk
  to the read, `Interference` what calls on other things leave alone meanwhile, and `TempFiles` says when the
  recorded chunks describe the bytes of the temp object.
- `UploadRace`, `ContentRace`, `QuotaRace`, `PushRace`, `Replication` and `WorkerPool` are step machines, one step
  for each access to shared state, in which any number of calls or workers interleave.
- `UploadAnswers`, `NameAnswers`, `ReplicationAnswers` and `CollectionAnswers` say of each call, in terms of the
  stored entries alone, exactly when it succeeds, what it answers otherwise, and what it leaves. `CompareAndSet` says
  it of the versioned updates, and that the update steps of the step machines are these calls.
- `Witnesses` and `SkippedTags` hold the runs, from the empty state, on which a law fails that one might expect.

Time is an integer, one reading per call. The digest function is left open; where two contents with one digest
would matter, `NoCollision` or `Unambiguous` says that it does not happen to the contents at hand. Session ids and
tokens are parameters. Sorting with `sort.Slice` is any sorted permutation, so nothing depends on the order of
equal elements. Ranging over a Go map is a choice of an arbitrary key among those left.

## Where the code does less than it seems to

- A manifest whose digest is a candidate in another repository does not get its references protected
  (internal/application/lifecycle.go:195-197). `SweepIsSafeIff` gives the exact condition under which a run keeps
  every reference, and `SharedManifestDanglesInARun` a run in which it does not.
- The page of tags after a full page starts behind the name that begins it, so the last of every 1001 names is
  never seen (internal/memory/catalog_more.go:36, 43-46). `CrawlKeeps` says which names are seen and
  `TaggedIffSeen` which manifests are thus not protected by their tags, and `TaggedManifestIsDeleted` is a run in
  which a collection deletes a manifest together with its tag.
- Creating another repository for a tenant resets its quota, aborting a closed upload may release bytes that
  another one reserved, and the janitor releases nothing. `StepConservesIffGentle` gives the exact conditions,
  `QuotaResetBreaksTheBooks`, `DoubleReleaseBreaksTheBooks` and `CleanUpBreaksTheBooks` are the runs;
  `QuotasStayWithinLimit` holds in spite of them.
- A chunk is written before the session can refuse it (internal/application/registry.go:129-135), so a refused
  chunk may overwrite a recorded one. `ChunkKeepsIntactIff` says exactly which chunk calls leave the recorded chunks
  true of the temp object. `OverwritingSpoilsTheUpload` is a run in which one does not; sending the recorded bytes
  again is then answered with success and repairs nothing, and completing fails. Between calls that do not
  interleave, the digest of the whole object decides: `CompletedUploadsAreTiled`, `ReadsAreAddressed`.
- A chunk call that is under way while its upload completes may write to bytes that were hashed already, before the
  move of the object or, through the file it has open, after it. `StoredBlobHoldsIff` says exactly when the stored
  blob is still what its digest says; `LateWriteBreaksTheBlob` and `OpenFileBreaksTheBlob` give two interleavings in
  which it is not, and `LateWriteInARun` a run that leads there.
- Releases and commits drop a lost compare-and-set (internal/application/registry.go:402, 421), so that calls at the
  same time leave bytes reserved for good: `QuotaIsExact`, `SettleIsLostIff`, `TwoReleasesLoseOne`. A quota reset
  starts versions over, so that a stale copy is taken for current: `ResetRevivesAStaleCopy`.
- A push checks its references before it stores the manifest (internal/application/registry.go:279-286), so a
  collection in between can delete them. `ReferencesStoredIff` and `PushDuringCollectionIff` say exactly when, and
  `PushedManifestDanglesInARun` is a run in which it does.
- An upload without an announced size can be completed before all its bytes arrived, when those that did leave no
  gap: `EarlyCompletionPassesIff`.
- The finalize guard lets an empty session of size zero pass, but without a written chunk there is no temp object
  and completing fails before the guard: `NothingWrittenFails`.
- The digit loop of `itoa` prints a bare minus sign for the least 64-bit integer: `PrintedIsFormatIntIff`.
- The rate limiter's bound over any interval of one window is 2*limit - 1, one less than the two windows it can
  touch would suggest: `RateBound`, `BoundIsMet`.

## Model

| member | source | states |
|---|---|---|
| CollectionLaws.EveryDeletionIsSafe | internal/application/lifecycle.go:219-233 | referential integrity (references are stored blobs, tags point to stored manifests) holds after every single deletion of a sweep, when no kept manifest's digest is a candidate elsewhere and names an otherwise unprotected blob |
| CollectionLaws.SweepIsSafeIff | internal/application/lifecycle.go:194-233 | a run keeps referential integrity if and only if it exposes no reference |
| CollectionLaws.ExposedDangles | internal/application/lifecycle.go:195-197 | each exposed reference dangles after the run |
| CollectionLaws.NoSplitExposesNothing | internal/application/lifecycle.go:195-197 | if no digest is a candidate in one repository and kept in another, nothing is exposed |
| CollectionLaws.SharedManifestLosesItsLayer | internal/application/lifecycle.go:195-197 | one manifest in two repositories, tagged in one of them, with no policy: its layer is exposed, whatever repositories, uploads and quotas there are |
| CollectionLaws.SharedManifestDangles | internal/application/lifecycle.go:195-233 | the run's own deletions then leave a tagged manifest whose layer is gone |
| CollectionLaws.IndexBounds | internal/application/lifecycle.go:175-177 | a manifest's place in any newest-first order lies between the number of newer manifests and the number of manifests not older |
| CollectionLaws.IndexNeverGrows | internal/application/lifecycle.go:175-177 | with distinct times, deleting other manifests never moves a manifest further back |
| CollectionLaws.SecondRunFindsNothing | internal/application/lifecycle.go:175-233 | one run reaches a fixed point: a second run with the same filter and clock deletes nothing (distinct times, at most one page of tags, no blob counted as referenced) |
| CollectionLaws.OrphansAreCandidates | internal/memory/janitor.go:67-87 | every blob FindOrphans would report is a candidate blob of any run over all repositories or one of them |
| CollectionLaws.NoOrphanIsLeft | internal/memory/janitor.go:67-87 | after a run only a blob with a positive reference count can still be an orphan |
| CollectionLaws.RetainedSurvives | internal/domain/policy.go:31-33 | a manifest survives if a seen tag, an applying policy's age, or an applying policy's KeepLast (counting every manifest not older) protects it, whichever way equal times are sorted |
| CollectionLaws.UnretainedIsDeleted | internal/application/lifecycle.go:177-191 | a manifest in scope that no tag and no policy keeps at its place is deleted |
| CollectionLaws.TaggedIffSeen | internal/application/lifecycle.go:170-174 | a manifest counts as tagged exactly when one of its tags stands, among the sorted names, at a place that is not the last of a block of 1001 |
| Collection.SweptLeaves | internal/memory/catalog.go:217-230 | what any sequence of manifest and blob deletions leaves, entry by entry: manifests, the tags that went with them, blobs |
| Lifecycle.LifecycleService.GarbageCollect | internal/application/lifecycle.go:144-237 | the confirmation and key checks; the report's id, candidates and protected digests are exactly those of the marking, each with a reason that the loops leave behind; a dry run changes nothing; an execution performs exactly the sweep, and no manifest deletion fails; with a repository named, every located candidate is in it |
| Lifecycle.LifecycleService.Mark | internal/application/lifecycle.go:151-203 | both marking loops find exactly the tagged, retained, live and referenced digests; a live or referenced one is reported as such, any other as the last of a repository's tags on it or as retained |
| Lifecycle.LifecycleService.MarkScope | internal/application/lifecycle.go:162-193 | the loop over repositories: newest-first order, candidates and protected digests of each repository in scope |
| Lifecycle.LifecycleService.Split | internal/application/lifecycle.go:177-192 | the loop over one sorted repository separates candidates from retained manifests |
| Lifecycle.LifecycleService.MarkRepository | internal/application/lifecycle.go:166-192 | one repository: crawl, sort, and split into tagged, retained and candidate manifests |
| Lifecycle.LifecycleService.MarkLive | internal/application/lifecycle.go:194-203 | the loop over all repositories, also those outside the filter |
| Lifecycle.LifecycleService.Report | internal/application/lifecycle.go:204-218 | the sorted candidate lists and the protected digests with their reasons, before anything is deleted |
| Lifecycle.LifecycleService.KeptByPolicy | internal/application/lifecycle.go:181-186 | the policy loop: some stored policy keeps a manifest of this age at this place |
| Lifecycle.LifecycleService.TaggedDigests | internal/application/lifecycle.go:166-174 | the digests of the crawled tags, each with the last tag that points to it |
| Lifecycle.LifecycleService.ListAllTags | internal/application/lifecycle.go:238-252 | the crawl over the tag pages terminates and returns the tags of the names the crawl keeps |
| Lifecycle.LifecycleService.CandidateContains | internal/application/lifecycle.go:253-262 | the digest is a candidate of any repository, not just the manifest's own |
| Lifecycle.LifecycleService.MarkLiveIn | internal/application/lifecycle.go:194-203 | one repository's manifests that are candidates nowhere, and what they name, with the reason |
| Lifecycle.LifecycleService.SweepManifests | internal/application/lifecycle.go:220-227 | deletes exactly the candidate manifests, each once, and never fails |
| Lifecycle.LifecycleService.SweepBlobs | internal/application/lifecycle.go:228-233 | deletes the candidate blobs in the report's order, skipping those that refuse |
| Lifecycle.BlobsOutside | internal/application/lifecycle.go:207-217 | the blobs outside a set of digests, each once, sorted |
| Janitor.Janitor.FindOrphans | internal/memory/janitor.go:67-87 | exactly the blobs that no stored manifest is or names, sorted |
| Janitor.Janitor.ReferencedAnywhere | internal/memory/janitor.go:70-78 | every digest that a stored manifest is or names |
| Janitor.Janitor.Run | internal/memory/janitor.go:23-41 | removes exactly the expired sessions and their temp objects, and reports their ids sorted; releases nothing |
| CollectionAnswers.OtherRepositoriesStay | internal/application/lifecycle.go:163-165 | a run that names a repository leaves the manifests and tags of every other one as they were |
| CollectionAnswers.ManifestSurvivesIff | internal/application/lifecycle.go:162-193 | a manifest survives if and only if its repository is not the one the run names, or a tag on it is not the last of a block of 1001, or an enabled policy whose prefix fits keeps its place (KeepLast) or its age (MaxAge) |
| CollectionAnswers.BlobSurvivesIff | internal/application/lifecycle.go:194-233 | a blob survives if and only if it counts as referenced or a manifest that is left protects it: by its own digest where the run looks, and by its references when no repository loses a manifest of its digest |
| CollectionAnswers.OrphanIff | internal/memory/janitor.go:67-87 | an orphan is a stored blob that no manifest of any repository is or names |
| Marking.ReasonsAreSpelled | internal/application/lifecycle.go:172-203 | the reasons a report can give, word for word |
| RunInvariants.RunsKeep | internal/application/registry.go:38-371 | every run of the calls, from the empty state, keeps sessions, contents, quotas, names and policies in order |
| RunInvariants.KeptIsKeyed | internal/memory/catalog.go:109-230 | in every reachable state entries are stored under their own keys, which is all the service methods require |
| RunInvariants.StepKeeps | internal/application/registry.go:38-371 | the same for one call from any state in order |
| RunLaws.SafeRunsKeepIntegrity | internal/application/registry.go:279-308 | referential integrity in every state of every run whose collections expose nothing |
| RunLaws.SafeCollectionsKeepIntegrity | internal/application/lifecycle.go:219-233 | and inside such a collection after every single deletion |
| RunInvariants.NamesFrame | internal/application/registry.go:38-371 | a call that neither puts nor deletes a manifest, nor collects, leaves manifests and tags alone |
| RunInvariants.SideEffect | internal/application/registry.go:64-79 | updates of tag immutability, policy changes and replication change repositories' flags, policies and replication tasks only |
| RunLaws.StepReferences | internal/application/registry.go:279-308 | one call or safe collection keeps every reference stored |
| RunLaws.TagsNeverDangle | internal/memory/catalog.go:217-230 | tags never dangle in any run, whatever the collections expose |
| RunLaws.NoOrphanAfterCollection | internal/memory/janitor.go:67-87 | after an executed collection in any run the janitor finds no orphan |
| RunLaws.SecondCollectionIsEmpty | internal/application/lifecycle.go:175-233 | in any run a collection right after another deletes nothing (distinct times, at most 1000 tags per repository) |
| RunLaws.FinalizingMeansTiling | internal/domain/upload.go:148-168 | in every reachable state the finalize guard passes exactly when the session is open, unexpired, of the announced size, and its chunks cut the temp file into disjoint pieces without a gap; ReservedBytes is then the size |
| RunLaws.CompletedUploadsAreTiled | internal/application/registry.go:142-222 | a completed upload catalogued exactly the bytes its tiling wrote, under their digest |
| RunLaws.ReadsAreAddressed | internal/application/registry.go:246-266 | in every reachable state a catalogued blob reads back as bytes of its size that hash to its digest; a range returns the bytes in it or InvalidRange |
| RunLaws.QuotasStayWithinLimit | internal/domain/policy.go:48-78 | in every run 0 <= Used, 0 <= Reserved and Used + Reserved <= Limit |
| TagLaws.ImmutableTagsStay | internal/domain/tag.go:24-35 | an immutable tag keeps its digest through every run of calls that does not delete the manifest it points to |
| TagLaws.DeletionPins | internal/memory/catalog.go:217-230 | a sweep takes a tag away exactly with its manifest, and never makes it point elsewhere |
| TagLaws.TagMovedPins | internal/application/registry.go:290-308 | putting another manifest under an immutable tag fails and changes no tag |
| Conservation.StepConservesIffGentle | internal/application/registry.go:361-423 | a call keeps 'Reserved = sum of the announced sizes of open and finalizing sessions' if and only if it is gentle |
| Conservation.GentleRunsConserve | internal/application/registry.go:361-423 | runs of gentle calls keep that equation for every tenant |
| Conservation.FirstRepositoryIsGentle | internal/application/registry.go:51-57 | creating a tenant's first repository is always gentle |
| Conservation.StartConserves | internal/application/registry.go:80-105 | starting keeps the books, also when the session cannot be stored |
| Conservation.ChunkConserves | internal/application/registry.go:106-141 | a chunk keeps the books |
| Conservation.CompleteConserves | internal/application/registry.go:142-222 | completing keeps the books on every way out: refused, digest mismatch, failing store, success |
| Conservation.BookkeepingNeverFails | internal/application/registry.go:397-423 | in such runs the dropped errors of release and commit never occur |
| Conservation.AbortConserves | internal/application/registry.go:361-372 | aborting keeps the books exactly when the upload is under way or nothing is released |
| Conservation.CleanConserves | internal/memory/janitor.go:23-41 | a clean-up keeps the books exactly when no expired session holds a reservation |
| Conservation.CreateConserves | internal/application/registry.go:51-57 | resetting a tenant's quota keeps the books exactly when the tenant has nothing under way |
| RoundTrip.UploadRoundTrip | internal/application/registry.go:106-222 | tiles sent in any order, retransmitted at will, among calls on anything else, calls under a wrong repository or token, and completions that the guard stops: completing under the content's digest then succeeds, and reading the blob, whole or by its full range, returns the content |
| RoundTrip.EverySendIsAccepted | internal/application/registry.go:106-141 | in such a run every tile that is sent is accepted |
| RoundTrip.CompletesAndReadsBack | internal/application/registry.go:142-266 | once every tile is recorded, completing succeeds and the blob reads back as the content |
| RoundTrip.AllReceived | internal/application/registry.go:154-160 | once every tile is recorded the temp file is the content and the finalize guard passes |
| RoundTrip.StartedReceives | internal/application/registry.go:80-105 | a freshly started upload is ready for any content of the announced size |
| RoundTrip.SendStep | internal/application/registry.go:106-141 | a tile is accepted, a retransmission changes nothing, and the temp file agrees with the content on everything sent |
| RoundTrip.RefusedChangesNothing | internal/application/registry.go:106-160 | a chunk, completion or abort under another repository or token, and a completion that the guard stops, change nothing |
| RoundTrip.EarlyCompletionPassesIff | internal/domain/upload.go:148-168 | with a tile missing, the finalize guard passes exactly when no size was announced and the recorded tiles cut all of the temp file into pieces |
| RoundTrip.EarlyCompletionMismatches | internal/application/registry.go:182-192 | such a completion under the content's digest ends the upload with a mismatch |
| Interference.ForeignStep | internal/application/registry.go:38-371 | no other call, collection or clean-up before the expiry touches the session or its temp file |
| RoundTrip.NothingWrittenFails | internal/application/registry.go:154-160 | completing before anything was written fails with a missing object, although the guard would let an empty session pass |
| UploadRace.NoUpdateIsLost | internal/memory/catalog_more.go:78-90 | in every interleaving the stored chunks are the initial ones followed by the acknowledged ones, disjoint, ReservedBytes is their total length, and at most one call gets past the finalize update |
| UploadRace.ChunksGrowAndFreeze | internal/domain/upload.go:123-190 | the chunk list only grows, and is frozen once the session is no longer open, which is never undone |
| UploadRace.RecordTakesEffectIff | internal/application/registry.go:132-138 | a chunk is acknowledged exactly when nobody updated the session since it was read |
| UploadRace.WinnerSettles | internal/application/registry.go:182-184 | the closing update of the call that finalized succeeds unless the session was deleted |
| UploadRace.ChunkIsThreeSteps | internal/application/registry.go:132-138 | an uninterrupted UploadChunk is a read, a record and an update of the step machine |
| UploadRace.CompleteIsFourSteps | internal/application/registry.go:161-218 | an uninterrupted CompleteUpload is four steps of the step machine, the last left out exactly when the guard and the digest check pass and the blob cannot be stored |
| TempFiles.ChunkKeepsIntactIff | internal/application/registry.go:126-138 | in every state of a run, a chunk call keeps 'each recorded chunk's digest is that of its bytes in the temp file' if and only if it writes nothing or its bytes are those of the file at every recorded offset in its range; the recorded digests stand for one content each |
| TempFiles.SparingKeepsIntact | internal/application/registry.go:126-138 | one direction of it for any digest function: such a call keeps it |
| TempFiles.AcceptedKeepsIntact | internal/application/registry.go:126-138 | a chunk call that succeeds keeps it, for any digest function |
| TempFiles.WriteKeepsChunksIff | internal/memory/object.go:51-68 | the same for one write at an offset and any list of chunks, overlapping or not |
| TempFiles.HarmlessRunKeepsIntact | internal/application/registry.go:106-141 | it is kept through every run of such chunk calls among any calls on something else, for any digest function |
| TempFiles.IntactIsTheContent | internal/application/registry.go:154-160 | when the chunks of an upload tile its temp file and describe it, the file is the only content they describe; their digests stand for one content each |
| Witnesses.OverwritingSpoilsTheUpload | internal/application/registry.go:126-138 | a run from the empty state in which a refused chunk overwrites a recorded one: sending the first bytes again succeeds without repair, and completing under their digest ends in DigestMismatch |
| Witnesses.QuotaResetBreaksTheBooks | internal/application/registry.go:51-57 | a run whose last call, a second repository for the tenant, forgets an open upload's reservation |
| Witnesses.CleanUpBreaksTheBooks | internal/memory/janitor.go:23-41 | a run whose last call, a clean-up, keeps the reservation of the upload it removes |
| Witnesses.DoubleReleaseBreaksTheBooks | internal/application/registry.go:361-372 | a run whose last call, aborting a rejected upload, releases what another upload has reserved |
| Witnesses.SharedManifestDanglesInARun | internal/application/lifecycle.go:195-233 | a run whose references are all stored before its last call, a collection, and not after it |
| SkippedTags.LastTagIsSkipped | internal/memory/catalog_more.go:36-46 | with 1001 tags the manifest of the last one does not count as tagged, and those of all others do |
| SkippedTags.TaggedManifestIsDeleted | internal/memory/catalog_more.go:36-46 | a run that puts 1001 tags and then collects: the last tag's manifest was stored and is deleted with its tag |
| ContentRace.StoredBlobHoldsIff | internal/application/registry.go:168-216 | in every interleaving of chunk writes with a completion, with writes, the digest's reads and the copy of the object cut into pieces and open files following the rename: the stored blob hashes to its digest if and only if the digest was catalogued before or the writes to bytes that were hashed and not yet copied left them as they were |
| ContentRace.StoredIsRewritten | internal/memory/catalog.go:109-128 | a newly stored blob is exactly what those writes, in their order, make of the hashed bytes |
| ContentRace.CataloguedStays | internal/memory/catalog.go:109-128 | a blob that was catalogued before is left alone by every interleaving |
| ContentRace.OneLateWriteIff | internal/application/registry.go:129-131 | one such write is harmless exactly when it repeats the hashed bytes |
| ContentRace.RepeatsAreHarmless | internal/application/registry.go:129-131 | any number of such writes is harmless when each repeats them |
| ContentRace.ClosedChunkIsAWrite | internal/memory/object.go:51-68 | a chunk call on a session that is no longer open is an opening and a write of the step machine, or nothing |
| ContentRace.StoringIsFiveSteps | internal/application/registry.go:168-216 | uninterrupted, the steps are what CompleteUpload does after its finalize update with content of the expected digest |
| ContentRace.LateWriteBreaksTheBlob | internal/application/registry.go:172-203 | in any state in order with a finalizing session: a chunk call after the digest check, and the blob is stored under a digest that it does not have |
| ContentRace.OpenFileBreaksTheBlob | internal/memory/object.go:51-68 | the same when the chunk call only has the object open at the move, and writes after it |
| Witnesses.LateWriteInARun | internal/application/registry.go:161-203 | a run from the empty state that leads there |
| Witnesses.FirstByteRoundTrip | internal/application/registry.go:106-266 | the round trip of one byte from the empty state |
| QuotaRace.QuotaIsExact | internal/application/registry.go:386-423 | in every interleaving of a tenant's reservations, releases and commits: Reserved is what was reserved at the start, what the uploads hold, and what was lost in dropped updates; Used is the sum of the committed sizes; and the bounds hold |
| QuotaRace.SettleIsLostIff | internal/application/registry.go:397-423 | a release or commit takes effect exactly when nobody updated the quota between its read and its update; otherwise its bytes stay reserved |
| QuotaRace.StuckIffLost | internal/application/registry.go:397-423 | once no upload is under way, Reserved is what it was at the start exactly when nothing was lost |
| QuotaRace.GiveIsRead | internal/domain/policy.go:58-78 | what an upload holds can always be released or committed on the quota as read: only the compare-and-set can lose it |
| QuotaRace.TwoReleasesLoseOne | internal/application/registry.go:397-405 | two aborts at the same time leave five bytes reserved that nobody holds |
| QuotaRace.ResetRevivesAStaleCopy | internal/application/registry.go:51-57 | a quota reset starts versions over, so that a release from before it is taken for current and another upload's reservation is forgotten |
| QuotaRace.ReserveIsTwoSteps | internal/application/registry.go:386-396 | an uninterrupted reservation is a read and an update of the step machine |
| QuotaRace.ReleaseIsTwoSteps | internal/application/registry.go:397-405 | an uninterrupted release is a read and an update of the step machine |
| QuotaRace.CommitIsTwoSteps | internal/application/registry.go:411-423 | an uninterrupted commit is a read and an update of the step machine |
| PushRace.ReferencesStoredIff | internal/application/registry.go:279-286 | in every interleaving of a push with a collection and with completing uploads, at every moment: all references are stored if and only if none of the pushed manifest's was deleted after its check and not uploaded again, and the collection itself exposed none that is gone |
| PushRace.PushDuringCollectionIff | internal/application/lifecycle.go:207-233 | without uploads meanwhile, when the collection is through: all references are stored if and only if it exposed none and the push, if it went through, named no blob that was a candidate when the collection marked |
| PushRace.MarkedPushIsSafe | internal/application/registry.go:279-286 | a push that names only blobs the collection has marked is safe at every moment |
| PushRace.CheckedThenDeletedDangles | internal/application/registry.go:279-286 | the interleaving in which an acknowledged push loses its one reference |
| PushRace.PushIsChecksAndPut | internal/application/registry.go:279-289 | an uninterrupted push is a check of each reference and a put of the manifest |
| PushRace.DeletionsAreASweep | internal/application/lifecycle.go:219-233 | the deletions of a collection that nobody interrupts between marking and listing are a sweep |
| Witnesses.PushedManifestDanglesInARun | internal/application/registry.go:279-286 | a run from the empty state that leads to that interleaving |
| NameAnswers.CreateRepositoryAnswers | internal/application/registry.go:38-60 | a repository is created if and only if its name is free and its tenant is not blank; the tenant's quota starts over at the given or the default limit; otherwise nothing changes and the error says which |
| NameAnswers.SetTagImmutabilityAnswers | internal/application/registry.go:64-79 | the flag is set, and the version raised, if and only if the repository is stored and the caller named no version or the stored one |
| NameAnswers.PushUnderTagAnswers | internal/application/registry.go:267-309 | a push under a tag succeeds if and only if the repository is stored, the manifest has at most 16 MiB, every reference is a stored blob, and the tag is new under a valid name, mutable, or on this digest already; the tag then points to the manifest, the manifest is stored, a new tag has the repository's flag, every other tag is as before |
| NameAnswers.FailedPushUnderTag | internal/application/registry.go:267-306 | why a push under a tag fails; when it is the tag that cannot move, the manifest is stored all the same |
| NameAnswers.PushByDigestAnswers | internal/application/registry.go:279-289 | a push by digest succeeds if and only if the manifest can be stored and the digest is its own; under another digest it is stored all the same |
| NameAnswers.DeleteManifestAnswers | internal/application/registry.go:347-360 | a manifest is deleted if and only if it is there; exactly its tags go with it; blobs and other repositories stay |
| NameAnswers.PutPolicyAnswers | internal/memory/catalog_more.go:254-262 | a policy is stored if and only if it has an id and no negative number; otherwise the error names the field |
| NameAnswers.DeletePolicyAnswers | internal/memory/catalog_more.go:273-281 | a policy is dropped if and only if it is there |
| UploadAnswers.StartUploadAnswers | internal/application/registry.go:80-105 | an upload is admitted if and only if its repository is stored, its id is free, and its announced size, if any, lies between 0 and the maximum and fits beside the used and reserved bytes; QuotaExceeded is the answer exactly when only the last fails; a refusal leaves every quota's numbers as they were |
| UploadAnswers.UploadChunkAnswers | internal/application/registry.go:106-141 | a chunk is accepted if and only if the session is addressed, the length fits, and the chunk was recorded before or the session is open, unexpired, large enough and has nothing at its place; the error otherwise; a refused chunk leaves every session as it was |
| UploadAnswers.ChunkBytesAreWritten | internal/application/registry.go:129-131 | the bytes of a call that writes are in the temp object at their offsets, a hole reads as zeros, all else is as before |
| UploadAnswers.GuardAnswers | internal/domain/upload.go:148-168 | in every state in order the finalize guard passes if and only if the temp object is there, the session is open and unexpired, the announced size is the object's, and every byte was recorded; the error otherwise |
| UploadAnswers.StoppedCompletionAnswers | internal/application/registry.go:142-160 | a completion that the guard stops says why and changes nothing |
| UploadAnswers.MismatchedCompletionAnswers | internal/application/registry.go:182-188 | with another digest the upload ends as aborted, its announced bytes are given back, and nothing is catalogued |
| UploadAnswers.MatchedCompletionAnswers | internal/application/registry.go:189-221 | with the expected digest the object moves to its blob's key and is catalogued, the upload ends as completed, and its announced bytes are used up; a digest catalogued with another size is refused, and the session then stays finalizing |
| UploadAnswers.AbortUploadAnswers | internal/application/registry.go:361-372 | an upload is aborted if and only if it is addressed; session and temp object go, and the announced bytes are given back whatever the state was |
| UploadAnswers.CleanUpAnswers | internal/memory/janitor.go:23-41 | a session is removed if and only if it is past its time, with its temp object and nothing else |
| UploadAnswers.GetBlobAnswers | internal/application/registry.go:246-266 | a read succeeds if and only if repository and blob are stored and the range, if any, lies in the blob; it returns the bytes of the range |
| UploadAnswers.SessionStates | internal/domain/upload.go:169-190 | only an open session is finalized, a completed one is not aborted, each change raises the version |
| UploadAnswers.RecordAnswers | internal/domain/upload.go:123-147 | when a chunk that was not recorded before is taken, what it adds, and why it is refused |
| ReplicationAnswers.CreateReplicationAnswers | internal/application/lifecycle.go:90-110 | a replication is queued if and only if its source is stored and its target not blank, under the given id or, when that is blank, the generated one |
| ReplicationAnswers.RunReplicationAnswers | internal/application/lifecycle.go:111-139 | a task is run if and only if it is there, neither done nor cancelled, and under no running lease; it ends two versions and one attempt on, without a lease, as the copy ended |
| ReplicationAnswers.LeaseLastsFiveMinutes | internal/domain/replication.go:30-43 | after a claim the next one is refused for exactly five minutes |
| CompareAndSet.UpdateUploadAnswers | internal/memory/catalog_more.go:78-90 | the update goes through if and only if the session is there in the version that the caller saw |
| CompareAndSet.UpdateQuotaAnswers | internal/memory/catalog_more.go:130-143 | the same for quotas |
| CompareAndSet.UpdateReplicationAnswers | internal/memory/catalog_more.go:241-253 | the same for replication tasks |
| CompareAndSet.UpdateRepositoryAnswers | internal/memory/catalog.go:87-99 | the same for repositories |
| CompareAndSet.RecordUpdateIsTheCall | internal/application/registry.go:132-138 | the update step of a chunk in the upload race is the catalog's versioned update |
| CompareAndSet.FinalizeUpdateIsTheCall | internal/application/registry.go:161-167 | so is the finalize update |
| CompareAndSet.SettleIsTheCall | internal/application/registry.go:182-220 | and the closing update |
| CompareAndSet.QuotaUpdateIsTheCall | internal/application/registry.go:386-423 | the update step of the quota race is the catalog's versioned update |
| CompareAndSet.ReplicationUpdateIsTheCall | internal/application/lifecycle.go:117-136 | so are both updates of a replication |
| Registry.RegistryService.CreateRepository | internal/application/registry.go:38-60 | refuses a blank tenant or a taken name; otherwise stores the repository and resets the tenant's quota |
| Registry.RegistryService.StartUpload | internal/application/registry.go:80-105 | size checks, reservation, and the reservation given back when the session cannot be stored |
| Registry.RegistryService.UploadChunk | internal/application/registry.go:106-141 | checks, early return on an exact retransmission, the write before the session may refuse, the versioned update; any range, also one that NewByteRange refuses |
| Registry.RegistryService.CompleteUpload | internal/application/registry.go:142-222 | the guard, the finalize update, the digest check with abort and release, the move, cataloguing, and the commit |
| Registry.RegistryService.AbortUpload | internal/application/registry.go:361-372 | releases whatever the state is, and deletes session and temp object |
| Registry.RegistryService.PutManifest | internal/application/registry.go:267-314 | all references must be stored; the manifest is kept even when the digest reference then mismatches; tags are moved or created |
| Registry.RegistryService.DeleteManifest | internal/application/registry.go:347-360 | deletes the manifest and every tag that points to it |
| Registry.RegistryService.GetBlob | internal/application/registry.go:246-266 | full or ranged read, empty blobs without touching the store |
| Registry.RegistryService.SetTagImmutability | internal/application/registry.go:64-79 | the version the caller saw, then the flag through a versioned update |
| Registry.RegistryService.FinishUpload | internal/application/registry.go:182-221 | what follows the finalize update, both outcomes of the digest check |
| Registry.RegistryService.StoreBlob | internal/application/registry.go:193-216 | move unless the object is there, then catalogue |
| Registry.RegistryService.ReserveQuota | internal/application/registry.go:386-396 | reserve through a versioned update |
| Registry.RegistryService.ReleaseQuota | internal/application/registry.go:397-405 | release, dropping errors |
| Registry.RegistryService.CommitSession | internal/application/registry.go:411-423 | commit the announced size, dropping errors |
| Registry.BlobKeyInjective | internal/application/registry.go:444 | two digests never share an object key |
| Registry.KeysDisjoint | internal/application/registry.go:444 | no temp object has a blob's key |
| Registry.RegistryService.ReleaseSession | internal/application/registry.go:406-410 | releases the announced size, if any |
| Catalog.Catalog.Create | internal/memory/catalog.go:48-56 | refuses a taken name |
| Catalog.Catalog.List | internal/memory/catalog.go:66-86 | one page of the names with a prefix, and the first name not returned |
| Catalog.Catalog.PutBlob | internal/memory/catalog.go:109-128 | keeps a stored blob, refuses another size, writes the object only for a new digest |
| Catalog.Catalog.OpenBlob | internal/memory/catalog.go:129-140 | the range of the blob's object |
| Catalog.Catalog.DeleteBlob | internal/memory/catalog.go:141-155 | refuses referenced blobs, else drops entry and object |
| Catalog.Catalog.ListBlobs | internal/memory/catalog.go:156-164 | every blob once |
| Catalog.Catalog.PutManifest | internal/memory/catalog.go:165-179 | keeps a manifest that is already stored |
| Catalog.Catalog.ListAllManifests | internal/memory/catalog.go:206-216 | every repository with manifests, each manifest once |
| Catalog.Catalog.DeleteManifest | internal/memory/catalog.go:217-230 | drops the manifest and its tags |
| Catalog.Catalog.PutTag | internal/memory/catalog_more.go:12-20 | stores a copy under the tag's name |
| Catalog.Catalog.GetTag | internal/memory/catalog_more.go:21-29 | hands out a copy |
| Catalog.Catalog.ListTags | internal/memory/catalog_more.go:30-50 | one page of the names after the last, and the first name not returned |
| Catalog.Catalog.CreateUpload | internal/memory/catalog_more.go:60-68 | refuses a taken id |
| Catalog.Catalog.GetUpload | internal/memory/catalog_more.go:69-77 | hands out a copy |
| Catalog.Catalog.UpdateUpload | internal/memory/catalog_more.go:78-90 | compare and set on the version |
| Catalog.Catalog.DeleteUpload | internal/memory/catalog_more.go:91-101 | drops the session and its temp object |
| Catalog.Catalog.ListExpiredUploads | internal/memory/catalog_more.go:102-112 | exactly the expired sessions |
| Catalog.Catalog.Get | internal/memory/catalog.go:57-65 | the repository, or not found |
| Catalog.Catalog.GetBlob | internal/memory/catalog.go:100-108 | the blob, or not found |
| Catalog.Catalog.GetQuota | internal/memory/catalog_more.go:113-122 | hands out a copy |
| Catalog.Catalog.PutQuota | internal/memory/catalog_more.go:123-129 | replaces the tenant's quota |
| Catalog.Catalog.UpdateQuota | internal/memory/catalog_more.go:130-143 | compare and set on the version |
| Catalog.Catalog.PutPolicy | internal/memory/catalog_more.go:254-262 | the validation error of an invalid policy, in the order of the checks, and otherwise the policy under its id |
| Catalog.Catalog.ListPolicies | internal/memory/catalog_more.go:263-272 | exactly the stored policies, strictly sorted by id |
| Catalog.Catalog.DeletePolicy | internal/memory/catalog_more.go:273-281 | drops the policy, or not found |
| Catalog.Catalog.Update | internal/memory/catalog.go:87-99 | compare and set on the version |
| Catalog.Catalog.CreateReplication | internal/memory/catalog_more.go:211-216 | stores the task, replacing one of the same id |
| Catalog.Catalog.GetReplication | internal/memory/catalog_more.go:217-225 | hands out a copy |
| Catalog.Catalog.UpdateReplication | internal/memory/catalog_more.go:241-253 | compare and set on the version |
| Upload.RecordAcceptsIff | internal/domain/upload.go:123-147 | a session accepts a range exactly when it is open and unexpired, the range lies within the announced size, and all its bytes are new or the same chunk was recorded; a retransmission changes nothing |
| Upload.RecordKeepsOk | internal/domain/upload.go:123-147 | recording keeps ranges disjoint and within the announced size, and ReservedBytes their total length |
| Upload.CanFinalizeIffTiled | internal/domain/upload.go:148-168 | the finalize guard is exactly the tiling of the file |
| Upload.UploadSession.ContiguousEnd | internal/domain/upload.go:91-106 | the end of the covered prefix, whatever order the sort leaves equal starts in |
| Upload.UploadSession.HasExact | internal/domain/upload.go:115-122 | the same range with the same digest was recorded |
| Upload.UploadSession.RecordChunk | internal/domain/upload.go:123-147 | state, expiry, size and overlap checks, then append; the expired state stays on the copy |
| Upload.UploadSession.MayFinalize | internal/domain/upload.go:148-168 | the guard's errors in their order |
| Upload.UploadSession.Finalize | internal/domain/upload.go:169-177 | only an open session; version plus one |
| Upload.UploadSession.Complete | internal/domain/upload.go:178-182 | state and version |
| Upload.UploadSession.Abort | internal/domain/upload.go:183-190 | a completed session stays completed |
| Ranges.OverlapsMeansSharedOffset | internal/domain/upload.go:22-27 | Overlaps is having an offset in common, Contains is having every offset |
| Ranges.MergeIsUnion | internal/domain/upload.go:31-43 | Merge returns the union, and fails exactly when the union has a hole |
| Ranges.ContiguousEndIsExact | internal/domain/upload.go:91-106 | the contiguous end is the one offset up to which all is covered and whose successor is not |
| Ranges.ContiguousEndIgnoresOrder | internal/domain/upload.go:91-114 | the contiguous end is the same for every order of the chunks |
| Ranges.ScanOfAnyOrder | internal/domain/upload.go:95-105 | scanning any sorted permutation finds it |
| Ranges.ReachesEndIffNoGap | internal/uploader/session.go:58-98 | the contiguous end is the last byte exactly when there is no gap |
| Ranges.TilingHasTotalLength | internal/domain/upload.go:142-143 | a tiling's lengths add up to the size |
| Uploader.SortChunks | internal/uploader/session.go:110-116 | in-place insertion sort: sorted by start, a permutation |
| Uploader.Session.ContiguousEnd | internal/uploader/session.go:58-74 | the one offset up to which all is covered and whose successor is not, with overlaps and ill-formed chunks allowed |
| Uploader.Session.EndOffset | internal/uploader/session.go:87-98 | one past the last byte of any chunk, or the empty-session error |
| Uploader.Session.HasExactChunk | internal/uploader/session.go:77-84 | a chunk with exactly these ends |
| Policy.Quota.Reserve | internal/domain/policy.go:48-59 | refuses negative amounts and more than what remains |
| Policy.Quota.Commit | internal/domain/policy.go:60-69 | moves the amount from reserved to used |
| Policy.Quota.Release | internal/domain/policy.go:70-78 | gives reserved bytes back, never below zero |
| Policy.QuotaAnswers | internal/domain/policy.go:47-78 | bytes are reserved if and only if they are not negative and fit beside the used and reserved ones; released or committed if and only if they are reserved; each call moves just these bytes |
| Policy.QuotaCallsKeepBound | internal/domain/policy.go:47-78 | reserve and release keep the bound; a commit does exactly when the actual size exceeds the reservation by no more than what remains |
| Objects.WrittenReadsBack | internal/memory/object.go:51-93 | what was written at an offset reads back, a hole in front of it reads as zeros, the rest is as before |
| Objects.OpenAnswers | internal/memory/object.go:69-93 | a read succeeds if and only if the object is there and the range lies in it, and returns the range's bytes |
| Objects.MoveAnswers | internal/memory/object.go:105-118 | a move takes the object, and only that, to its new key |
| Objects.LocalObjectStore.WriteAt | internal/memory/object.go:51-68 | refuses a negative offset; otherwise writes at it, extending the file and zero-filling a gap, and returns the number of bytes |
| Objects.LocalObjectStore.Open | internal/memory/object.go:69-93 | the bytes of an inclusive range inside the file, else the range error |
| Objects.LocalObjectStore.Size | internal/memory/object.go:94-104 | the length, or the missing-object error |
| Objects.LocalObjectStore.Move | internal/memory/object.go:105-118 | the object under its new key, nothing under the old one |
| Objects.LocalObjectStore.Put | internal/memory/object.go:27-50 | replaces the object |
| Objects.LocalObjectStore.Delete | internal/memory/object.go:119-128 | a missing object is no error |
| Objects.LocalObjectStore.Exists | internal/memory/object.go:129-139 | the key is there |
| Pages.CrawlKeeps | internal/memory/catalog_more.go:36-46 | the crawl returns exactly the sorted positions i with i mod (limit+1) different from limit |
| Pages.CrawlIsSorted | internal/application/lifecycle.go:238-252 | the crawl is strictly increasing and returns only existing names |
| Pages.OnePageIsComplete | internal/application/lifecycle.go:238-252 | with at most one page of names nothing is missed |
| Pages.PageAnswers | internal/domain/repository.go:67-75 | a page holds the least names after the last one, as many as its size allows (100 by default, at most 1000), and its next is the first name it leaves out |
| Store.TagPageAnswers | internal/memory/catalog_more.go:30-50 | a page of tags is the tags of such a page of names, in order |
| Pages.NextPageIsTail | internal/memory/catalog_more.go:36-46 | the next page starts after the name it is given, which was not returned |
| Ordering.LessIsLexicographic | internal/memory/catalog_more.go:38-40 | names are compared lexicographically |
| Ordering.EnumerationUnique | internal/memory/catalog_more.go:38-40 | there is one sorted list of a set of names |
| Replication.ReplicationTask.Claim | internal/domain/replication.go:30-43 | state and lease checks, then lease, attempts and version |
| Replication.ReplicationTask.Succeed | internal/domain/replication.go:44-49 | state, lease cleared, version |
| Replication.ReplicationTask.Fail | internal/domain/replication.go:50-56 | state, error, lease cleared, version |
| Lifecycle.LifecycleService.CreateReplication | internal/application/lifecycle.go:90-110 | the source repository must be stored and the target not blank; then a new queued task under the given or the generated id |
| Lifecycle.LifecycleService.FinishReplication | internal/application/lifecycle.go:129-138 | succeed or fail by the copy's result, then the versioned update, which is refused when the task was updated since the claim |
| Lifecycle.LifecycleService.RunReplication | internal/application/lifecycle.go:111-139 | claim, update, copy, finish, update |
| Replication.LeaseFencing | internal/application/lifecycle.go:111-139 | in every interleaving a finish follows directly its own claim by the same worker, no claim is finished twice, a reclaimed task's former worker never finishes, nothing follows a success |
| Replication.LeasesAreRespected | internal/domain/replication.go:30-43 | two claims with no finish between them: the later clock reading is at least five minutes after the earlier one |
| Replication.FinishTakesEffectIff | internal/application/lifecycle.go:129-138 | a finishing update takes effect exactly when its own claim is still the newest update |
| Replication.SucceededIsAbsorbing | internal/domain/replication.go:30-43 | once succeeded, no step changes the task |
| Lifecycle.RunReplicationIsFiveSteps | internal/application/lifecycle.go:111-139 | the uninterrupted call is five steps of the machine |
| Graph.ReferenceGraph.AddManifest | internal/domain/validation.go:124-136 | edges replaced, the digest appended under every reference |
| Graph.ReferenceGraph.Reachable | internal/domain/validation.go:137-153 | terminates on any graph and returns the least set that holds the roots and is closed under the edges |
| Graph.ReferenceGraph.Dependents | internal/domain/validation.go:154 | the reverse list |
| Graph.ReferenceGraph.Remove | internal/domain/validation.go:155-173 | the digest filtered out under every reference, its edges dropped |
| Graph.RunHolds | internal/domain/validation.go:124-173 | after every run the graph holds exactly the digests that were added and not removed since, and Dependents names exactly those of them that reference the digest |
| Graph.RunAgrees | internal/domain/validation.go:124-173 | reverse and forward index agree after every run in which a digest always comes with the same references |
| Graph.AddAgreesIff | internal/domain/validation.go:124-136 | adding keeps them in agreement exactly when it drops no edge of an earlier manifest with the same digest |
| Graph.RemoveUndoesAdd | internal/domain/validation.go:124-173 | removing a fresh digest restores edges and every Dependents answer, also with repeated references |
| Artifacts.Manifest.References | internal/domain/manifest.go:117-132 | config, layers, nested manifests and subject, in that order, and nothing else |
| Artifacts.Tag.Move | internal/domain/tag.go:24-35 | an immutable tag only moves to its own digest; version plus one |
| RateLimit.RateLimiter.Allow | internal/distribution/transport/http/middleware.go:33-46 | starts a window, counts within it, refuses at the limit |
| RateLimit.RateLimiter.Remaining | internal/distribution/transport/http/middleware.go:47-58 | what is left of the running window |
| RateLimit.RateLimiter.Reset | internal/distribution/transport/http/middleware.go:59-67 | drops exactly the entries two windows old |
| RateLimit.RemainingIsExact | internal/distribution/transport/http/middleware.go:33-57 | of any number of calls at one time exactly as many are granted as Remaining says |
| RateLimit.WindowsEnd | internal/distribution/transport/http/middleware.go:33-46 | a window ends after its length and no sooner |
| RateLimit.KeysAreApart | internal/distribution/transport/http/middleware.go:33-46 | a call counts for its own key only |
| RateLimit.ResetAnswers | internal/distribution/transport/http/middleware.go:59-67 | an entry is kept exactly for two windows from its start |
| RateLimit.PrunesAreInvisible | internal/distribution/transport/http/middleware.go:33-67 | inserting Reset calls anywhere changes no later answer of Allow or Remaining |
| RateLimit.AtMostLimitPerWindow | internal/distribution/transport/http/middleware.go:33-46 | at most limit calls between two window starts |
| RateLimit.RateBound | internal/distribution/transport/http/middleware.go:33-46 | at most 2*limit - 1 calls in any half-open interval of one window's length |
| RateLimit.BoundIsMet | internal/distribution/transport/http/middleware.go:33-46 | a run that is granted exactly that many |
| WorkerPool.Queue.Push | internal/replicationctl/queue.go:25-34 | refuses an id that is queued, else appends |
| WorkerPool.Queue.Pop | internal/replicationctl/queue.go:37-47 | the oldest task; its id may be queued again |
| WorkerPool.Queue.Len | internal/replicationctl/queue.go:50-54 | the number of queued tasks |
| WorkerPool.QueueIsFifo | internal/replicationctl/queue.go:24-47 | first in, first out: the popped tasks and then the queued ones are the pushed ones, in order |
| WorkerPool.ChannelIsFifo | internal/replicationctl/coordinator.go:45-92 | the channel holds the tasks accepted last, in their order, at most 64 |
| WorkerPool.SendTakesEffectIff | internal/replicationctl/coordinator.go:45-66 | a send is taken exactly while the channel has room |
| WorkerPool.StoppedAcceptsNothing | internal/replicationctl/coordinator.go:45-92 | once the pool is stopped and no call is about to send, nothing more is accepted |
| WorkerPool.PoolAccounting | internal/replicationctl/coordinator.go:45-116 | in every interleaving each accepted task is in exactly one of channel, a worker's hands, failed, succeeded; the reported failures and bytes are theirs; seen is the ids of the queued items |
| WorkerPool.NothingLeftOver | internal/replicationctl/coordinator.go:45-92 | when all workers left uncancelled, every accepted task failed or succeeded |
| WorkerPool.DrainedIsFinal | internal/replicationctl/coordinator.go:68-87 | and no later step changes that |
| ContentRange.Itoa | internal/distribution/transport/http/models.go:85-102 | the digit loop, with 64-bit negation |
| ContentRange.PrintedIsFormatIntIff | internal/distribution/transport/http/models.go:85-102 | it prints every 64-bit integer in decimal except the least one |
| ContentRange.RangeSpec.ContentRange | internal/distribution/transport/http/models.go:82-84 | the header value |
| ContentRange.HeaderExample | internal/distribution/transport/http/models.go:82-84 | bytes 0 to 499 of 1234, word for word |
| ContentRange.ParseUndoesPrint | internal/distribution/transport/http/management.go:178-197 | reading the printed header back is NewByteRange of its ends, for all 64-bit fields (section 14.4 of RFC 9110) |
| Cursors.DecodeCursorUndoesEncode | internal/domain/pagination.go:16-36 | a cursor decodes to itself exactly when neither text field holds a vertical bar |
| Cursors.LettersAreTheAlphabet | internal/domain/pagination.go:16-23 | the letters are the URL-safe alphabet (section 5 of RFC 4648) |
| Cursors.LongSextets | internal/domain/pagination.go:16-23 | three bytes and their four groups are one number, in base 256 and in base 64 |
| Cursors.ShortSextets | internal/domain/pagination.go:16-23 | one or two bytes that are left over are their number with zero bits behind it |
| Cursors.CursorExample | internal/domain/pagination.go:16-23 | the cursor text a\|7\|n, encoded |
| Cursors.DecodeUndoesEncode | internal/domain/pagination.go:16-23 | unpadded base64url decoding undoes encoding (section 5 of RFC 4648) |

## Left out

- HTTP routing, JSON, configuration, logging, audit entries, events, spans and metrics: plumbing around the calls.
- SHA-256, random tokens, parsing of repository names, digests and manifests: values arrive parsed, the digest
  function is a parameter.
- Media types, annotations, lifecycle states of manifests, scans, mounts and referrers: they touch none of the state
  that the laws speak of, except that a scan stores a manifest that is already there.
- Timestamps that nothing reads (created, updated, received, started and finished times).
- The file system: objects are a map from keys to bytes; a move or a put is atomic and no operation fails for
  reasons of the disk, so a missing object is the only error.
- Contexts that are cancelled inside a registry call, and interleavings of calls other than those of the six step
  machines: every other call is atomic.
- Data races and panics of the Go runtime; in the worker pool a send on a closed channel is ruled out by letting
  a close wait for pending sends.
- 64-bit overflow of sizes, versions and quota sums; the printers and parsers model it.
- Lifecycle.LifecycleService.GarbageCollect: the report's times are not modelled, and its lists hold values where the
  code holds their text.
- ContentRace.StoredBlobHoldsIff: the other calls that interleave are chunk calls; an abort or a clean-up that takes
  the temp object away, and a second completion, are not steps of that machine.
- QuotaRace.QuotaIsExact: quota resets are excluded there, with the failure in ResetRevivesAStaleCopy.
- PushRace.ReferencesStoredIff: the collection marks in one step; the tag that a push moves afterwards, other pushes
  and manifest deletions are not steps of that machine.
- Runs leave out the deletion of a single tag, which no handler exposes.
- Creating a replication under an id that exists replaces it, which the step machine of one task does not show.
- The replication coordinator's checkpoints, which re-read the task and do not fence, and the task's source,
  target and reference.
- The retention preview and the stand-alone quota service: they use other orders and amounts than the calls
  modelled here.
- The uploader's check for equal chunk starts and its writer.
