/** Short runs from the empty state on which a law fails that one might expect. */
module Witnesses {
  import opened Basics
  import opened Text
  import opened Ranges
  import opened Artifacts
  import opened Upload
  import opened Objects
  import opened Policy
  import opened Store
  import opened Registry
  import opened Collection
  import opened CollectionLaws
  import opened Conservation
  import opened Runs
  import opened Effects
  import opened RunInvariants
  import opened RunLaws
  import opened RoundTrip
  import opened TempFiles
  import ContentRace
  import PushRace

  const ONE: Bytes := [1]
  const TWO: Bytes := [2]
  const FIRST := ByteRange(0, 0)

  /** A configuration in which small uploads fit, do not expire at once, and the two bytes have two digests. */
  ghost predicate Usable(c: Config) {
    10 <= c.maxBlobSize && 0 <= c.uploadTTL && 0 <= c.defaultQuota && c.hash(ONE) != c.hash(TWO)
  }

  /** Some digest function tells the first byte from everything else, so that these laws speak of something. */
  lemma DigestsCanTell() returns (hash: Hash)
    ensures hash(ONE) != hash(TWO) && NoCollision(hash, ONE) && Unambiguous(hash, [Chunk(FIRST, hash(ONE))])
  {
    var zeros, ones := Sha256(seq(64, _ => '0')), Sha256(seq(64, _ => '1'));
    assert zeros.hex[0] != ones.hex[0];
    hash := x => if x == ONE then zeros else ones;
  }

  lemma ReachedNext(c: Config, steps: seq<Step>, step: Step)
    ensures Reached(c, steps + [step]) == Apply(c, Reached(c, steps), step)
  {
    assert (steps + [step])[..|steps|] == steps;
  }

  /** Tenant t gets its first repository, and starts an upload in it. */
  function Opening(expected: Option<int>): seq<Step> {
    [CreateRepository("a", "t", false, 10)] + [StartUpload("a", expected, "u", "k", 0)]
  }

  function FreshSession(c: Config, expected: Option<int>): SessionValue {
    SessionValue("u", "a", "t", "k", Open, [], expected, 0, c.uploadTTL, 1)
  }

  function AfterCreate(): State {
    EMPTY.(repos := map["a" := Repository("t", false, 1)], quotas := map["t" := QuotaValue(10, 0, 0, 1)])
  }

  lemma CreateReaches(c: Config)
    ensures Reached(c, [CreateRepository("a", "t", false, 10)]) == AfterCreate()
  {
    ReachedNext(c, [], CreateRepository("a", "t", false, 10));
    assert [] + [CreateRepository("a", "t", false, 10)] == [CreateRepository("a", "t", false, 10)];
    assert TrimSpace("t") == "t";
    CreateEffect(c, EMPTY, "a", "t", false, 10);
  }

  lemma OpeningReaches(c: Config, expected: Option<int>)
    requires Usable(c) && (expected.Some? ==> 0 <= expected.value <= 10)
    ensures
      var s := Reached(c, Opening(expected));
      && s == AfterCreate().(uploads := map["u" := FreshSession(c, expected)], quotas := s.quotas)
      && "t" in s.quotas && s.quotas["t"].limit == 10 && s.quotas["t"].used == 0
      && s.quotas["t"].reserved == if expected.Some? then expected.value else 0
  {
    CreateReaches(c);
    ReachedNext(c, [CreateRepository("a", "t", false, 10)], StartUpload("a", expected, "u", "k", 0));
    StartCases(c, AfterCreate(), "a", expected, "u", "k", 0);
    if expected.Some? { ReserveEffect(AfterCreate(), "t", expected.value); }
  }

  // ---------------------------------------------------------------- quotas

  lemma OneMoreGentle(c: Config, steps: seq<Step>, step: Step)
    requires IsGentleRun(c, steps) && Gentle(Reached(c, steps), step)
    ensures IsGentleRun(c, steps + [step])
  {
    assert (steps + [step])[..|steps|] == steps;
  }

  lemma OpeningIsGentle(c: Config, expected: Option<int>)
    requires Usable(c) && (expected.Some? ==> 0 <= expected.value <= 10)
    ensures IsGentleRun(c, Opening(expected))
  {
    var create := CreateRepository("a", "t", false, 10);
    OneMoreGentle(c, [], create);
    assert [] + [create] == [create];
    OneMoreGentle(c, [create], StartUpload("a", expected, "u", "k", 0));
  }

  /** A call that is not gentle breaks the books of the state it meets. */
  lemma UngentleBreaks(c: Config, steps: seq<Step>, step: Step)
    requires 0 <= c.defaultQuota && IsGentleRun(c, steps) && !Gentle(Reached(c, steps), step)
    ensures Conserved(Reached(c, steps)) && !Conserved(Reached(c, steps + [step]))
  {
    ReachedNext(c, steps, step);
    GentleRunsConserve(c, steps);
    RunsKeep(c, steps);
    StepConservesIffGentle(c, Reached(c, steps), step);
  }

  /** A second repository for the tenant forgets what an open upload has reserved. */
  lemma QuotaResetBreaksTheBooks(c: Config)
    requires Usable(c)
    ensures Conserved(Reached(c, Opening(Some(5))))
    ensures !Conserved(Reached(c, Opening(Some(5)) + [CreateRepository("b", "t", false, 10)]))
  {
    OpeningIsGentle(c, Some(5));
    OpeningReaches(c, Some(5));
    var s := Reached(c, Opening(Some(5)));
    assert TrimSpace("t") == "t";
    assert Owed(s.uploads["u"], "t") == 5;
    UngentleBreaks(c, Opening(Some(5)), CreateRepository("b", "t", false, 10));
  }

  /** The janitor removes an expired upload and keeps its reservation. */
  lemma CleanUpBreaksTheBooks(c: Config)
    requires Usable(c)
    ensures Conserved(Reached(c, Opening(Some(5))))
    ensures !Conserved(Reached(c, Opening(Some(5)) + [CleanUp(c.uploadTTL + 1)]))
  {
    OpeningIsGentle(c, Some(5));
    OpeningReaches(c, Some(5));
    var s := Reached(c, Opening(Some(5)));
    assert IsExpired(s.uploads["u"], c.uploadTTL + 1) && Owed(s.uploads["u"], "t") == 5;
    UngentleBreaks(c, Opening(Some(5)), CleanUp(c.uploadTTL + 1));
  }

  // ---------------------------------------------------------------- a first chunk

  function FirstChunk(): Step { UploadChunk("a", "u", "k", FIRST, ONE, 0) }

  predicate IsOpening(c: Config, u: SessionValue) {
    u.id == "u" && u.state == Open && u.expiresAt == c.uploadTTL && (u.expectedSize.Some? ==> 1 <= u.expectedSize.value)
  }

  /** The session has recorded the first byte, and its temp file holds it. */
  predicate HoldsOne(c: Config, s: State) {
    && Addresses(s, "a", "u", "k") && IsOpening(c, s.uploads["u"])
    && s.uploads["u"].chunks == [Chunk(FIRST, c.hash(ONE))]
    && TempKey("u") in s.files && s.files[TempKey("u")] == ONE
  }

  lemma FirstChunkHolds(c: Config, s: State)
    requires Usable(c) && Addresses(s, "a", "u", "k") && TempKey("u") !in s.files
    requires IsOpening(c, s.uploads["u"]) && s.uploads["u"].chunks == []
    ensures
      var t := Apply(c, s, FirstChunk());
      && HoldsOne(c, t)
      && t == s.(files := s.files[TempKey("u") := ONE], uploads := s.uploads["u" := t.uploads["u"]])
      && t.uploads["u"].tenant == s.uploads["u"].tenant && t.uploads["u"].expectedSize == s.uploads["u"].expectedSize
  {
    assert Spliced([], 0, ONE) == ONE;
    ChunkAccepted(c, s, "a", "u", "k", FIRST, ONE, 0);
  }

  // ---------------------------------------------------------------- a refused chunk overwrites a recorded one

  /** The first byte, another byte at the same place, and the first byte again. */
  function Overwriting(): seq<Step> {
    Opening(None) + [FirstChunk()] + [UploadChunk("a", "u", "k", FIRST, TWO, 0)] + [FirstChunk()]
  }

  lemma SecondByteIsRefused(c: Config, s: State)
    requires Usable(c) && HoldsOne(c, s)
    ensures ChunkUploaded(c, s, "a", "u", "k", FIRST, TWO, 0) ==
        (s.(files := s.files[TempKey("u") := TWO]), Failure(UploadConflict))
  {
    assert Spliced(ONE, 0, TWO) == TWO;
    assert s.uploads["u"].chunks[0].range.Overlaps(FIRST);
    assert Recorded(s.uploads["u"], FIRST, c.hash(TWO), 0) == (s.uploads["u"], Fail(UploadConflict));
  }

  /** The retransmission of a recorded chunk is not written again. */
  lemma FirstByteIsKnown(c: Config, s: State)
    requires Usable(c) && Addresses(s, "a", "u", "k") && Chunk(FIRST, c.hash(ONE)) in s.uploads["u"].chunks
    ensures ChunkUploaded(c, s, "a", "u", "k", FIRST, ONE, 0) == (s, Success(s.uploads["u"]))
  {
  }

  lemma FirstByteReaches(c: Config, steps: seq<Step>)
    requires Usable(c) && steps == Opening(None)
    ensures
      var s := Reached(c, steps + [FirstChunk()]);
      HoldsOne(c, s) && s.uploads["u"].expectedSize.None?
  {
    OpeningReaches(c, None);
    ReachedNext(c, steps, FirstChunk());
    FirstChunkHolds(c, Reached(c, steps));
  }

  /** What the first four calls of that run lead to. */
  lemma OverwritingReaches(c: Config)
    requires Usable(c)
    ensures
      var before, after := Reached(c, Overwriting()[..3]), Reached(c, Overwriting()[..4]);
      && HoldsOne(c, before) && before.uploads["u"].expectedSize.None?
      && after == before.(files := before.files[TempKey("u") := TWO])
      && Kept(c, after)
  {
    var third, fourth := Overwriting()[..3], Overwriting()[..4];
    assert third == Opening(None) + [FirstChunk()];
    assert fourth == third + [UploadChunk("a", "u", "k", FIRST, TWO, 0)];
    FirstByteReaches(c, Opening(None));
    ReachedNext(c, third, UploadChunk("a", "u", "k", FIRST, TWO, 0));
    SecondByteIsRefused(c, Reached(c, third));
    RunsKeep(c, fourth);
  }

  /** The recorded chunk and the file now tell different bytes, the upload cannot be repaired by sending the
      first byte again, and completing it under that byte's digest fails. */
  lemma OverwritingSpoilsTheUpload(c: Config)
    requires Usable(c)
    ensures
      var before, after := Reached(c, Overwriting()[..3]), Reached(c, Overwriting()[..4]);
      && "u" in before.uploads && Intact(c.hash, before, "u")
      && "u" in after.uploads && !Intact(c.hash, after, "u")
      && ChunkUploaded(c, before, "a", "u", "k", FIRST, TWO, 0).1 == Failure(UploadConflict)
      && ChunkUploaded(c, after, "a", "u", "k", FIRST, ONE, 0).1.Success?
      && Reached(c, Overwriting()) == after
      && UploadCompleted(c, after, "a", "u", "k", c.hash(ONE), 0).1 == Failure(DigestMismatch)
  {
    var before, after := Reached(c, Overwriting()[..3]), Reached(c, Overwriting()[..4]);
    OverwritingReaches(c);
    SecondByteIsRefused(c, before);
    FirstByteIsKnown(c, after);
    assert Overwriting() == Overwriting()[..4] + [FirstChunk()];
    ReachedNext(c, Overwriting()[..4], FirstChunk());
    HeldOneIsIntact(c, before, ONE);
    HeldOneIsIntact(c, after, TWO);
    SpoiledMismatches(c, after);
  }

  lemma HeldOneIsIntact(c: Config, s: State, file: Bytes)
    requires "u" in s.uploads && s.uploads["u"].chunks == [Chunk(FIRST, c.hash(ONE))]
    requires TempKey("u") in s.files && s.files[TempKey("u")] == file && |file| == 1
    ensures Intact(c.hash, s, "u") <==> c.hash(file) == c.hash(ONE)
  {
    assert Slice(file, FIRST) == file;
    assert Describes(c.hash, s.uploads["u"].chunks[0], file) <==> c.hash(file) == c.hash(ONE);
  }

  lemma SpoiledMismatches(c: Config, s: State)
    requires Usable(c) && Kept(c, s) && Addresses(s, "a", "u", "k") && IsOpening(c, s.uploads["u"])
    requires s.uploads["u"].expectedSize.None?
    requires s.uploads["u"].chunks == [Chunk(FIRST, c.hash(ONE))]
    requires TempKey("u") in s.files && s.files[TempKey("u")] == TWO
    ensures UploadCompleted(c, s, "a", "u", "k", c.hash(ONE), 0).1 == Failure(DigestMismatch)
  {
    FirstByteFinalizes(c, s);
    var v := Finalized(s.uploads["u"]).0;
    assert UpdatedUpload(s, v, s.uploads["u"].version) == (WithSession(s, "u", v), Pass);
  }

  lemma FirstByteFinalizes(c: Config, s: State)
    requires Usable(c) && Kept(c, s) && Addresses(s, "a", "u", "k") && IsOpening(c, s.uploads["u"])
    requires s.uploads["u"].expectedSize.Some? ==> s.uploads["u"].expectedSize.value == 1
    requires |s.uploads["u"].chunks| == 1 && s.uploads["u"].chunks[0].range == FIRST
    requires TempKey("u") in s.files && |s.files[TempKey("u")]| == 1
    ensures PassesGuard(s, "u", 0)
  {
    assert SessionKept(s, "u");
    var rs := RangesOf(s.uploads["u"].chunks);
    assert forall o :: Covered(rs, o) <==> rs[0].Has(o);
    CanFinalizeIffTiled(s.uploads["u"], 1, 0);
  }

  // ---------------------------------------------------------------- a chunk call while the upload completes

  /** The state in which a completion under the first byte's digest has stored its finalize update. */
  ghost function FinalizeStored(c: Config): State
    requires "u" in Reached(c, Opening(None) + [FirstChunk()]).uploads
  {
    var s := Reached(c, Opening(None) + [FirstChunk()]);
    WithSession(s, "u", Finalized(s.uploads["u"]).0)
  }

  lemma FirstChunkReaches(c: Config)
    requires Usable(c)
    ensures
      var s := Reached(c, Opening(None) + [FirstChunk()]);
      HoldsOne(c, s) && Kept(c, s) && s.uploads["u"].expectedSize.None? && s.blobs == map[] && PassesGuard(s, "u", 0)
  {
    var steps := Opening(None);
    OpeningReaches(c, None);
    ReachedNext(c, steps, FirstChunk());
    FirstChunkHolds(c, Reached(c, steps));
    RunsKeep(c, steps + [FirstChunk()]);
    FirstByteFinalizes(c, Reached(c, steps + [FirstChunk()]));
  }

  /** From there on other bytes can be stored under the digest: a chunk call writes after the digest was checked,
      or has the object open when it is moved. */
  lemma LateWriteInARun(c: Config, k: nat)
    requires Usable(c)
    ensures "u" in Reached(c, Opening(None) + [FirstChunk()]).uploads
    ensures PassesGuard(Reached(c, Opening(None) + [FirstChunk()]), "u", 0)
    ensures ContentRace.Overwritable(c, FinalizeStored(c), "a", "u", "k", ONE, TWO)
    ensures
      var d, steps := c.hash(ONE), ContentRace.ToTheEnd(ContentRace.CheckedThenWritten(k, ONE, TWO), 1);
      var w := ContentRace.Run(c, "u", d, FinalizeStored(c), 1, steps);
      w.phase == ContentRace.Stored(ONE) && d in w.s.blobs && !BlobHolds(c.hash, w.s, d)
  {
    FirstChunkReaches(c);
    FinalizingKeeps(c, Reached(c, Opening(None) + [FirstChunk()]), "u");
    ContentRace.LateWriteBreaksTheBlob(c, FinalizeStored(c), "a", "u", "k", ONE, TWO, k, 0);
  }

  // ---------------------------------------------------------------- the round trip of one byte

  /** The one tile is sent, completed and read back: what the round trip asks of its callers can be met. */
  lemma FirstByteRoundTrip(c: Config)
    requires Usable(c) && NoCollision(c.hash, ONE)
    ensures
      var x := Sending("a", "u", "k", ONE, [FIRST], c.uploadTTL);
      && Receiving(c, Reached(c, Opening(None)), x)
      && Delivers(c, Reached(c, Opening(None)), x, [FirstChunk()]) && SendsAll(x, [FirstChunk()])
      && CompletesAs(c, After(c, Reached(c, Opening(None)), [FirstChunk()]), x, 0)
  {
    var s, x, steps := Reached(c, Opening(None)), Sending("a", "u", "k", ONE, [FIRST], c.uploadTTL), [FirstChunk()];
    OpeningReaches(c, None);
    RunsKeep(c, Opening(None));
    assert Piece(ONE, FIRST) == ONE;
    forall o ensures Covered([FIRST], o) <==> 0 <= o < 1 {
      if o == 0 { assert [FIRST][0].Has(o); }
    }
    assert Sends(x, FirstChunk());
    assert steps[..0] == [] && steps[0] == FirstChunk();
    assert Delivers(c, s, x, []);
    UploadRoundTrip(c, s, x, steps, 0);
  }

  // ---------------------------------------------------------------- a double release

  /** A second upload, a byte, a completion under the wrong digest, and an abort of the closed upload. */
  function Rejection(c: Config): seq<Step> {
    Opening(Some(1)) + [StartUpload("a", Some(1), "v", "k", 0)] + [FirstChunk()] +
    [CompleteUpload("a", "u", "k", c.hash(TWO), 0)]
  }

  /** The rejected upload has given its byte back; the other one still holds one. */
  ghost predicate Rejected(s: State) {
    && Addresses(s, "a", "u", "k") && s.uploads["u"].state == Aborted && s.uploads["u"].expectedSize == Some(1)
    && s.uploads["u"].tenant == "t"
    && "v" in s.uploads && Owed(s.uploads["v"], "t") == 1
  }

  lemma SecondUploadStarts(c: Config, s: State)
    requires Usable(c) && s == Reached(c, Opening(Some(1)))
    ensures
      var t := Apply(c, s, StartUpload("a", Some(1), "v", "k", 0));
      && t == s.(uploads := t.uploads, quotas := t.quotas) && "u" in s.uploads && "u" in t.uploads
      && t.uploads["u"] == s.uploads["u"] == FreshSession(c, Some(1))
      && "v" in t.uploads && Owed(t.uploads["v"], "t") == 1
  {
    OpeningReaches(c, Some(1));
    StartCases(c, s, "a", Some(1), "v", "k", 0);
    ReserveEffect(s, "t", 1);
  }

  lemma WrongDigestAborts(c: Config, s: State)
    requires Usable(c) && Kept(c, s) && HoldsOne(c, s) && s.uploads["u"].expectedSize == Some(1)
    ensures
      var t := UploadCompleted(c, s, "a", "u", "k", c.hash(TWO), 0).0;
      t.uploads == s.uploads["u" := t.uploads["u"]] && t.uploads["u"] == AbortedSession(Finalized(s.uploads["u"]).0)
  {
    FirstByteFinalizes(c, s);
    CompleteEffect(c, s, "a", "u", "k", c.hash(TWO), 0);
    var v := Finalized(s.uploads["u"]).0;
    var w := WithSession(WithSession(s, "u", v), "u", AbortedSession(v));
    assert Completion(c, s, "u", c.hash(TWO)) == ReleaseReservation(w, AbortedSession(v));
    ReleaseKeeps(w, v.tenant, 1);
    assert s.uploads["u" := v]["u" := AbortedSession(v)] == s.uploads["u" := AbortedSession(v)];
  }

  lemma WrongDigestRejects(c: Config, s: State)
    requires Usable(c) && Kept(c, s) && HoldsOne(c, s) && s.uploads["u"].expectedSize == Some(1)
    ensures
      var t := Apply(c, s, CompleteUpload("a", "u", "k", c.hash(TWO), 0));
      t.uploads == s.uploads["u" := t.uploads["u"]] && t.uploads["u"] == AbortedSession(Finalized(s.uploads["u"]).0)
  {
    WrongDigestAborts(c, s);
  }

  lemma RejectionReaches(c: Config)
    requires Usable(c)
    ensures Rejected(Reached(c, Rejection(c)))
  {
    var first := Opening(Some(1));
    var second := first + [StartUpload("a", Some(1), "v", "k", 0)];
    var third := second + [FirstChunk()];
    OpeningReaches(c, Some(1));
    SecondUploadStarts(c, Reached(c, first));
    ReachedNext(c, first, StartUpload("a", Some(1), "v", "k", 0));
    FirstChunkHolds(c, Reached(c, second));
    ReachedNext(c, second, FirstChunk());
    RunsKeep(c, third);
    WrongDigestRejects(c, Reached(c, third));
    ReachedNext(c, third, CompleteUpload("a", "u", "k", c.hash(TWO), 0));
  }

  lemma RejectionIsGentle(c: Config)
    requires Usable(c)
    ensures IsGentleRun(c, Rejection(c))
  {
    var first := Opening(Some(1));
    var second := first + [StartUpload("a", Some(1), "v", "k", 0)];
    var third := second + [FirstChunk()];
    OpeningIsGentle(c, Some(1));
    OneMoreGentle(c, first, StartUpload("a", Some(1), "v", "k", 0));
    OneMoreGentle(c, second, FirstChunk());
    OneMoreGentle(c, third, CompleteUpload("a", "u", "k", c.hash(TWO), 0));
  }

  lemma RejectedIsUngentle(c: Config, s: State)
    requires Kept(c, s) && Conserved(s) && Rejected(s)
    ensures !Gentle(s, AbortUpload("a", "u", "k"))
  {
    KeptSizesOk(c, s);
    PendingCovers(s.uploads, "t", "v");
  }

  /** Aborting the rejected upload releases a byte that the other upload has reserved. */
  lemma DoubleReleaseBreaksTheBooks(c: Config)
    requires Usable(c)
    ensures Conserved(Reached(c, Rejection(c)))
    ensures !Conserved(Reached(c, Rejection(c) + [AbortUpload("a", "u", "k")]))
  {
    RejectionReaches(c);
    RejectionIsGentle(c);
    GentleRunsConserve(c, Rejection(c));
    RunsKeep(c, Rejection(c));
    RejectedIsUngentle(c, Reached(c, Rejection(c)));
    UngentleBreaks(c, Rejection(c), AbortUpload("a", "u", "k"));
  }

  // ---------------------------------------------------------------- one manifest in two repositories

  function Layered(d: Digest, x: Digest): Manifest {
    Manifest(d, 1, None, [Descriptor("layer", x, 1)], [], None, 0)
  }

  /** The layer is uploaded into a. */
  function Storing(c: Config): seq<Step> {
    Opening(None) + [CreateRepository("b", "t", false, 10)] + [FirstChunk()] +
    [CompleteUpload("a", "u", "k", c.hash(ONE), 0)]
  }

  /** The layer's manifest is pushed while a collection over all repositories is under way. */
  ghost function Pushing(c: Config, d: Digest, now: int): PushRace.Setting {
    PushRace.Setting(Reached(c, Storing(c)), Gc(map[], "", now), [], "a", Layered(d, c.hash(ONE)))
  }

  lemma NothingIsMarked(s: State, g: Gc, x: Digest)
    requires s.manifests == map[] && s.tags == map[] && g.orders == map[]
    ensures !Marked(s, g, x)
  {
  }

  /** The push finds its layer, is acknowledged, and the collection takes the layer. */
  lemma PushedManifestDanglesInARun(c: Config, d: Digest, now: int, none: seq<PushRace.Step>)
    requires Usable(c) && none == []
    ensures
      var w := PushRace.Run(Pushing(c, d, now), PushRace.Losing(none, c.hash(ONE)));
      w.push == PushRace.Done(true) && !ReferencesStored(w.s)
  {
    var x, b := Pushing(c, d, now), c.hash(ONE);
    StoringReaches(c);
    forall y ensures !Marked(x.start, x.g, y) { NothingIsMarked(x.start, x.g, y); }
    LayeredNames(d, b);
    PushRace.CheckedThenDeletedDangles(x, none, b);
  }

  /** Its manifest is put by digest into a, and by tag into b. */
  function Sharing(c: Config, d: Digest): seq<Step> {
    var m := Layered(d, c.hash(ONE));
    Storing(c) + [PutManifest("a", ByDigest(d), m, 0)] + [PutManifest("b", ByTag("v1"), m, 0)]
  }

  /** Both repositories, one blob, nothing else in the catalog. */
  ghost predicate OneBlob(s: State, x: Digest) {
    && s.repos == map["a" := Repository("t", false, 1), "b" := Repository("t", false, 1)]
    && s.blobs == map[x := Blob(x, 1, 0, BlobKey(x))]
    && s.manifests == map[] && s.tags == map[] && s.policies == map[]
  }

  lemma LayerIsCatalogued(c: Config, s: State)
    requires ContentKept(c.hash, s) && "u" in s.uploads && s.uploads["u"].id == "u" && s.blobs == map[]
    requires TempKey("u") in s.files && s.files[TempKey("u")] == ONE
    ensures ObjectsAfter(c, s, "u", c.hash(ONE)).blobs ==
        map[c.hash(ONE) := Blob(c.hash(ONE), 1, 0, BlobKey(c.hash(ONE)))]
  {
    StoredEffect(c.hash, s, s.uploads["u"], c.hash(ONE), ONE);
  }

  lemma LayerIsCompleted(c: Config, s: State)
    requires Usable(c) && Kept(c, s) && HoldsOne(c, s) && s.uploads["u"].expectedSize.None? && s.blobs == map[]
    ensures
      var t := UploadCompleted(c, s, "a", "u", "k", c.hash(ONE), 0).0;
      t == s.(blobs := map[c.hash(ONE) := Blob(c.hash(ONE), 1, 0, BlobKey(c.hash(ONE)))],
              files := t.files, uploads := t.uploads, quotas := t.quotas)
  {
    var x, v := c.hash(ONE), Finalized(s.uploads["u"]).0;
    var w := WithSession(s, "u", v);
    FirstByteFinalizes(c, s);
    CompleteEffect(c, s, "a", "u", "k", x, 0);
    FinalizingContent(c.hash, s, "u", v);
    LayerIsCatalogued(c, w);
    AfterGuardShape(c, w, "u", x);
  }

  lemma LayerIsStored(c: Config, s: State)
    requires Usable(c) && Kept(c, s) && HoldsOne(c, s) && s.uploads["u"].expectedSize.None? && s.blobs == map[]
    ensures
      var t := Apply(c, s, CompleteUpload("a", "u", "k", c.hash(ONE), 0));
      t == s.(blobs := map[c.hash(ONE) := Blob(c.hash(ONE), 1, 0, BlobKey(c.hash(ONE)))],
              files := t.files, uploads := t.uploads, quotas := t.quotas)
  {
    LayerIsCompleted(c, s);
  }

  lemma LayeredNames(d: Digest, x: Digest)
    ensures Layered(d, x).RefList() == [x]
  {
  }

  lemma PutByDigest(c: Config, s: State, d: Digest, x: Digest)
    requires OneBlob(s, x)
    ensures Apply(c, s, PutManifest("a", ByDigest(d), Layered(d, x), 0)) ==
        s.(manifests := map["a" := map[d := Layered(d, x)]])
  {
    LayeredNames(d, x);
    var m := Layered(d, x);
    assert m.(createdAt := 0) == m;
    assert Store.PutManifest(s, "a", m).0 == s.(manifests := map["a" := map[d := m]]);
  }

  lemma PutByTag(c: Config, s: State, d: Digest, x: Digest)
    requires s.repos == map["a" := Repository("t", false, 1), "b" := Repository("t", false, 1)] && x in s.blobs
    requires s.manifests == map["a" := map[d := Layered(d, x)]] && s.tags == map[]
    ensures
      var m := Layered(d, x);
      Apply(c, s, PutManifest("b", ByTag("v1"), m, 0)) ==
        s.(manifests := map["a" := map[d := m], "b" := map[d := m]],
          tags := map["b" := map["v1" := TagValue("v1", d, 1, false)]])
  {
    LayeredNames(d, x);
    var m := Layered(d, x);
    var t := s.(manifests := map["a" := map[d := m], "b" := map[d := m]]);
    assert m.(createdAt := 0) == m;
    assert Store.PutManifest(s, "b", m).0 == t;
    assert ValidTagName("v1");
    assert TagMoved(t, "b", "v1", d) == (PutTag(t, "b", TagValue("v1", d, 1, false)), Pass);
  }

  lemma StoringReaches(c: Config)
    requires Usable(c)
    ensures OneBlob(Reached(c, Storing(c)), c.hash(ONE))
  {
    var first := Opening(None);
    var second := first + [CreateRepository("b", "t", false, 10)];
    var third := second + [FirstChunk()];
    OpeningReaches(c, None);
    ReachedNext(c, first, CreateRepository("b", "t", false, 10));
    assert TrimSpace("t") == "t";
    CreateEffect(c, Reached(c, first), "b", "t", false, 10);
    ReachedNext(c, second, FirstChunk());
    FirstChunkHolds(c, Reached(c, second));
    RunsKeep(c, third);
    ReachedNext(c, third, CompleteUpload("a", "u", "k", c.hash(ONE), 0));
    LayerIsStored(c, Reached(c, third));
  }

  lemma SharingReaches(c: Config, d: Digest)
    requires Usable(c) && d != c.hash(ONE)
    ensures Shared(Reached(c, Sharing(c, d)), Layered(d, c.hash(ONE)), c.hash(ONE))
  {
    var x := c.hash(ONE);
    var m, before := Layered(d, x), Storing(c);
    var between := before + [PutManifest("a", ByDigest(d), m, 0)];
    StoringReaches(c);
    ReachedNext(c, before, PutManifest("a", ByDigest(d), m, 0));
    PutByDigest(c, Reached(c, before), d, x);
    ReachedNext(c, between, PutManifest("b", ByTag("v1"), m, 0));
    PutByTag(c, Reached(c, between), d, x);
    LayeredNames(d, x);
  }

  lemma OneMoreRun(c: Config, steps: seq<Step>, step: Step)
    requires IsRun(c, steps) && Enabled(Reached(c, steps), step)
    ensures IsRun(c, steps + [step])
  {
    assert (steps + [step])[..|steps|] == steps;
  }

  lemma {:induction false} CallsAreARun(c: Config, steps: seq<Step>)
    requires forall i :: 0 <= i < |steps| ==> !steps[i].CollectGarbage?
    ensures IsRun(c, steps) && IsSafeRun(c, steps)
    decreases |steps|
  {
    if steps != [] { CallsAreARun(c, steps[..|steps| - 1]); }
  }

  function SharedCollection(m: Manifest, x: Digest, now: int): Step {
    CollectGarbage(SharedRun(m, now), SharedDeletions(m, x))
  }

  lemma SharedCollectionIsEnabled(s: State, m: Manifest, x: Digest, now: int)
    requires Shared(s, m, x)
    ensures Enabled(s, SharedCollection(m, x, now))
  {
    SharedOrders(s, m, x, now);
    SharedDeletionsAreASweep(s, m, x, now);
  }

  lemma CollectionDangles(c: Config, s: State, g: Gc, deletions: seq<Deletion>)
    requires !ReferencesStored(Swept(s, deletions))
    ensures !ReferencesStored(Apply(c, s, CollectGarbage(g, deletions)))
  {
  }

  lemma SharedCollectionDangles(c: Config, s: State, m: Manifest, x: Digest, now: int)
    requires Shared(s, m, x)
    ensures !ReferencesStored(Apply(c, s, SharedCollection(m, x, now)))
  {
    SharedManifestDangles(s, m, x, now);
    CollectionDangles(c, s, SharedRun(m, now), SharedDeletions(m, x));
  }

  /** A run of the registry whose last call is a collection over all repositories: before it every reference is
      stored, and after it a tagged manifest's only layer is gone. */
  lemma SharedManifestDanglesInARun(c: Config, d: Digest, now: int)
    requires Usable(c) && d != c.hash(ONE)
    ensures
      var m, x := Layered(d, c.hash(ONE)), c.hash(ONE);
      && Integrity(Reached(c, Sharing(c, d)))
      && IsRun(c, Sharing(c, d) + [SharedCollection(m, x, now)])
      && !ReferencesStored(Reached(c, Sharing(c, d) + [SharedCollection(m, x, now)]))
  {
    var m, x, steps := Layered(d, c.hash(ONE)), c.hash(ONE), Sharing(c, d);
    SharingReaches(c, d);
    CallsAreARun(c, steps);
    SafeRunsKeepIntegrity(c, steps);
    SharedCollectionIsEnabled(Reached(c, steps), m, x, now);
    SharedCollectionDangles(c, Reached(c, steps), m, x, now);
    OneMoreRun(c, steps, SharedCollection(m, x, now));
    ReachedNext(c, steps, SharedCollection(m, x, now));
  }
}
