/** When the recorded chunks describe the bytes of an upload's temp file. */
module TempFiles {
  import opened Basics
  import opened Ranges
  import opened Artifacts
  import opened Upload
  import opened Objects
  import opened Store
  import opened Registry
  import opened Runs
  import opened Effects
  import opened RunInvariants
  import opened Interference

  function Slice(file: Bytes, r: ByteRange): Bytes
    requires 0 <= r.start <= r.end < |file|
  {
    file[r.start..r.end + 1]
  }

  /** The chunk lies in the file, and its digest is that of its bytes there. */
  predicate Describes(hash: Hash, chunk: Chunk, file: Bytes) {
    0 <= chunk.range.start <= chunk.range.end < |file| && hash(Slice(file, chunk.range)) == chunk.digest
  }

  /** Every recorded chunk describes the temp file. */
  predicate Intact(hash: Hash, s: State, id: string)
    requires id in s.uploads
  {
    forall i :: 0 <= i < |s.uploads[id].chunks| ==>
      Describes(hash, s.uploads[id].chunks[i], FileAt(s.files, TempKey(id)))
  }

  /** The bytes are what the file holds at every offset of the range that a chunk has recorded. */
  ghost predicate Agrees(chunks: seq<Chunk>, file: Bytes, r: ByteRange, data: Bytes)
    requires |data| == r.Length()
  {
    forall o :: r.Has(o) && Covered(RangesOf(chunks), o) ==> 0 <= o < |file| && data[o - r.start] == file[o]
  }

  /** No two contents have the digest of a recorded chunk. */
  ghost predicate Unambiguous(hash: Hash, chunks: seq<Chunk>) {
    forall i, a, b :: 0 <= i < |chunks| && hash(a) == chunks[i].digest && hash(b) == chunks[i].digest ==> a == b
  }

  // ---------------------------------------------------------------- one write

  lemma SplicedAt(file: Bytes, r: ByteRange, data: Bytes)
    requires r.Valid() && |data| == r.Length()
    ensures
      var after := Spliced(file, r.start, data);
      && |file| <= |after| && r.end < |after|
      && (forall o :: r.Has(o) ==> after[o] == data[o - r.start])
      && (forall o :: 0 <= o < |file| && !r.Has(o) ==> after[o] == file[o])
      && Slice(after, r) == data
  {
    assert Slice(Spliced(file, r.start, data), r) == data;
  }

  /** A write leaves the bytes of a range exactly when it agrees with the file there. */
  lemma WriteKeepsSliceIff(file: Bytes, k: ByteRange, r: ByteRange, data: Bytes)
    requires r.Valid() && |data| == r.Length() && 0 <= k.start <= k.end < |file|
    ensures k.end < |Spliced(file, r.start, data)|
    ensures Slice(Spliced(file, r.start, data), k) == Slice(file, k) <==>
      forall o :: r.Has(o) && k.Has(o) ==> data[o - r.start] == file[o]
  {
    var after := Spliced(file, r.start, data);
    SplicedAt(file, r, data);
    forall o | k.Has(o) ensures Slice(after, k)[o - k.start] == after[o] && Slice(file, k)[o - k.start] == file[o] {
    }
    if Slice(after, k) == Slice(file, k) {
      forall o | r.Has(o) && k.Has(o) ensures data[o - r.start] == file[o] {
        assert after[o] == file[o];
      }
    }
  }

  /** A write that agrees with the file on the recorded offsets leaves every chunk described. */
  lemma AgreeingWriteKeepsChunks(hash: Hash, chunks: seq<Chunk>, file: Bytes, r: ByteRange, data: Bytes)
    requires r.Valid() && |data| == r.Length() && Agrees(chunks, file, r, data)
    requires forall i :: 0 <= i < |chunks| ==> Describes(hash, chunks[i], file)
    ensures forall i :: 0 <= i < |chunks| ==> Describes(hash, chunks[i], Spliced(file, r.start, data))
  {
    forall i | 0 <= i < |chunks| ensures Describes(hash, chunks[i], Spliced(file, r.start, data)) {
      forall o | r.Has(o) && chunks[i].range.Has(o) ensures data[o - r.start] == file[o] {
        assert RangesOf(chunks)[i].Has(o);
      }
      WriteKeepsSliceIff(file, chunks[i].range, r, data);
    }
  }

  /** One that disagrees leaves some chunk undescribed, unless other bytes have the same digest. */
  lemma WriteKeepsChunksIff(hash: Hash, chunks: seq<Chunk>, file: Bytes, r: ByteRange, data: Bytes)
    requires Unambiguous(hash, chunks) && r.Valid() && |data| == r.Length()
    requires forall i :: 0 <= i < |chunks| ==> Describes(hash, chunks[i], file)
    ensures (forall i :: 0 <= i < |chunks| ==> Describes(hash, chunks[i], Spliced(file, r.start, data))) <==>
      Agrees(chunks, file, r, data)
  {
    var after := Spliced(file, r.start, data);
    if Agrees(chunks, file, r, data) { AgreeingWriteKeepsChunks(hash, chunks, file, r, data); }
    if forall i :: 0 <= i < |chunks| ==> Describes(hash, chunks[i], after) {
      forall o | r.Has(o) && Covered(RangesOf(chunks), o) ensures 0 <= o < |file| && data[o - r.start] == file[o] {
        var i :| 0 <= i < |RangesOf(chunks)| && RangesOf(chunks)[i].Has(o);
        assert Describes(hash, chunks[i], file) && Describes(hash, chunks[i], after);
        WriteKeepsSliceIff(file, chunks[i].range, r, data);
      }
    }
  }

  // ---------------------------------------------------------------- one call

  /** A chunk that the session takes shares no offset with the recorded ones. */
  lemma TakenMeetsNothing(u: SessionValue, r: ByteRange, d: Digest, now: int)
    requires !HasExactChunk(u, r, d) && Recorded(u, r, d, now).1.Pass?
    ensures Recorded(u, r, d, now).0.chunks == u.chunks + [Chunk(r, d)]
    ensures forall o :: r.Has(o) ==> !Covered(RangesOf(u.chunks), o)
  {
    FirstOverlapFinds(u.chunks, r);
    assert FirstOverlap(u.chunks, r) == None;
    forall o, i | r.Has(o) && 0 <= i < |u.chunks| ensures !RangesOf(u.chunks)[i].Has(o) {
      assert !u.chunks[i].range.Overlaps(r);
    }
  }

  /** After a write the chunks describe the file exactly when the chunks recorded before it do. */
  lemma WrittenIntactIff(c: Config, s: State, id: string, r: ByteRange, data: Bytes, now: int)
    requires r.Valid() && |data| == r.Length() && id in s.uploads
    requires !HasExactChunk(s.uploads[id], r, c.hash(data))
    ensures
      var chunks, after := s.uploads[id].chunks, Spliced(FileAt(s.files, TempKey(id)), r.start, data);
      Intact(c.hash, Written(c, s, id, r, data, now), id) <==>
        forall i :: 0 <= i < |chunks| ==> Describes(c.hash, chunks[i], after)
  {
    var u, t := s.uploads[id], Written(c, s, id, r, data, now);
    if Recorded(u, r, c.hash(data), now).1.Pass? {
      TakenMeetsNothing(u, r, c.hash(data), now);
      SplicedAt(FileAt(s.files, TempKey(id)), r, data);
      assert Describes(c.hash, Chunk(r, c.hash(data)), FileAt(t.files, TempKey(id)));
      assert forall i :: 0 <= i < |u.chunks| ==> t.uploads[id].chunks[i] == u.chunks[i];
    }
  }

  /** The call writes nothing, or what the file already holds at every recorded offset. */
  ghost predicate SparesRecorded(c: Config, s: State, repo: string, id: string, token: string, r: ByteRange,
                                 data: Bytes)
    requires id in s.uploads
  {
    Writes(c, s, repo, id, token, r, data) ==> Agrees(s.uploads[id].chunks, FileAt(s.files, TempKey(id)), r, data)
  }

  /** Such a call keeps the recorded chunks true of the temp file. */
  lemma SparingKeepsIntact(c: Config, s: State, repo: string, id: string, token: string, r: ByteRange, data: Bytes,
                          now: int)
    requires Kept(c, s) && r.Valid() && id in s.uploads && Intact(c.hash, s, id)
    requires SparesRecorded(c, s, repo, id, token, r, data)
    ensures id in ChunkUploaded(c, s, repo, id, token, r, data, now).0.uploads
    ensures Intact(c.hash, ChunkUploaded(c, s, repo, id, token, r, data, now).0, id)
  {
    assert SessionKept(s, id);
    ChunkEffect(c, s, repo, id, token, r, data, now);
    if Writes(c, s, repo, id, token, r, data) {
      WrittenIntactIff(c, s, id, r, data, now);
      AgreeingWriteKeepsChunks(c.hash, s.uploads[id].chunks, FileAt(s.files, TempKey(id)), r, data);
    }
  }

  /** And no other call does, when the recorded digests stand for one content each. */
  lemma ChunkKeepsIntactIff(c: Config, s: State, repo: string, id: string, token: string, r: ByteRange, data: Bytes,
                            now: int)
    requires Kept(c, s) && r.Valid() && id in s.uploads && Intact(c.hash, s, id)
    requires Unambiguous(c.hash, s.uploads[id].chunks)
    ensures id in ChunkUploaded(c, s, repo, id, token, r, data, now).0.uploads
    ensures Intact(c.hash, ChunkUploaded(c, s, repo, id, token, r, data, now).0, id) <==>
      SparesRecorded(c, s, repo, id, token, r, data)
  {
    assert SessionKept(s, id);
    ChunkEffect(c, s, repo, id, token, r, data, now);
    if Writes(c, s, repo, id, token, r, data) {
      WrittenIntactIff(c, s, id, r, data, now);
      WriteKeepsChunksIff(c.hash, s.uploads[id].chunks, FileAt(s.files, TempKey(id)), r, data);
    }
  }

  /** In particular a chunk that is accepted, or was recorded before, keeps them true. */
  lemma AcceptedKeepsIntact(c: Config, s: State, repo: string, id: string, token: string, r: ByteRange, data: Bytes,
                            now: int)
    requires Kept(c, s) && r.Valid() && id in s.uploads && Intact(c.hash, s, id)
    requires ChunkUploaded(c, s, repo, id, token, r, data, now).1.Success?
    ensures id in ChunkUploaded(c, s, repo, id, token, r, data, now).0.uploads
    ensures Intact(c.hash, ChunkUploaded(c, s, repo, id, token, r, data, now).0, id)
  {
    if Writes(c, s, repo, id, token, r, data) { TakenMeetsNothing(s.uploads[id], r, c.hash(data), now); }
    SparingKeepsIntact(c, s, repo, id, token, r, data, now);
  }

  // ---------------------------------------------------------------- runs

  /** A call on something else, or a chunk of this upload that writes nothing new over recorded offsets. */
  ghost predicate Harmless(c: Config, s: State, step: Step, id: string) {
    id in s.uploads &&
    (Foreign(step, id, s.uploads[id].expiresAt) ||
     (step.UploadChunk? && step.id == id &&
      (step.range.Valid() ==> SparesRecorded(c, s, step.repo, id, step.token, step.range, step.data))))
  }

  ghost predicate HarmlessRun(c: Config, s: State, steps: seq<Step>, id: string)
    decreases |steps|
  {
    steps == [] ||
    (HarmlessRun(c, s, steps[..|steps| - 1], id) &&
      Harmless(c, After(c, s, steps[..|steps| - 1]), steps[|steps| - 1], id))
  }

  lemma HarmlessStepKeepsIntact(c: Config, s: State, step: Step, id: string)
    requires Kept(c, s) && id in s.uploads && Intact(c.hash, s, id) && Harmless(c, s, step, id)
    ensures id in Apply(c, s, step).uploads && Intact(c.hash, Apply(c, s, step), id)
  {
    if Foreign(step, id, s.uploads[id].expiresAt) {
      ForeignStep(c, s, step, id);
    } else if step.range.Valid() {
      SparingKeepsIntact(c, s, step.repo, id, step.token, step.range, step.data, step.now);
    }
  }

  /** A fresh upload stays described through every run of harmless calls. */
  lemma {:induction false} HarmlessRunKeepsIntact(c: Config, s: State, steps: seq<Step>, id: string)
    requires 0 <= c.defaultQuota && Kept(c, s) && id in s.uploads && Intact(c.hash, s, id)
    requires HarmlessRun(c, s, steps, id)
    ensures Kept(c, After(c, s, steps))
    ensures id in After(c, s, steps).uploads && Intact(c.hash, After(c, s, steps), id)
    decreases |steps|
  {
    if steps != [] {
      var front, last := steps[..|steps| - 1], steps[|steps| - 1];
      HarmlessRunKeepsIntact(c, s, front, id);
      HarmlessStepKeepsIntact(c, After(c, s, front), last, id);
      StepKeeps(c, After(c, s, front), last);
    }
  }

  lemma SameByte(hash: Hash, chunks: seq<Chunk>, i: nat, a: Bytes, b: Bytes, o: int)
    requires Unambiguous(hash, chunks) && i < |chunks| && chunks[i].range.Has(o)
    requires Describes(hash, chunks[i], a) && Describes(hash, chunks[i], b)
    ensures a[o] == b[o]
  {
    var k := chunks[i].range;
    assert Slice(a, k)[o - k.start] == Slice(b, k)[o - k.start];
  }

  /** Described chunks that tile the file determine it: any content with these chunks is the file. */
  lemma IntactIsTheContent(c: Config, s: State, id: string, content: Bytes)
    requires id in s.uploads && Intact(c.hash, s, id) && Unambiguous(c.hash, s.uploads[id].chunks)
    requires Tiles(RangesOf(s.uploads[id].chunks), |FileAt(s.files, TempKey(id))|)
    requires |content| == |FileAt(s.files, TempKey(id))|
    requires forall i :: 0 <= i < |s.uploads[id].chunks| ==> Describes(c.hash, s.uploads[id].chunks[i], content)
    ensures FileAt(s.files, TempKey(id)) == content
  {
    var file, chunks := FileAt(s.files, TempKey(id)), s.uploads[id].chunks;
    forall o | 0 <= o < |file| ensures file[o] == content[o] {
      assert Covered(RangesOf(chunks), o);
      var i :| 0 <= i < |RangesOf(chunks)| && RangesOf(chunks)[i].Has(o);
      SameByte(c.hash, chunks, i, file, content, o);
    }
  }
}
