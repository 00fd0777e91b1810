/** Chunk calls that interleave with the completion of their upload. Files are read and written piece by piece, an
    open file keeps its content when it is renamed, and the blob's object is replaced by a copy of itself. */
module ContentRace {
  import opened Basics
  import opened Ranges
  import opened Artifacts
  import opened Upload
  import opened Objects
  import opened Store
  import opened Registry
  import opened Effects
  import opened RunInvariants
  import opened RoundTrip

  /** Some bytes at an offset. */
  datatype Patch = Patch(offset: nat, data: Bytes)

  /** How far the call has come that got past the finalize update: `size` is what its guard saw, `read` and `copied`
      what it has streamed so far, `hashed` the bytes whose digest it has checked. */
  datatype Phase =
    | Hashing(size: nat, read: Bytes)
    | Placing(hashed: Bytes)
    | Opening(hashed: Bytes)
    | Copying(hashed: Bytes, copied: Bytes)
    | Stored(hashed: Bytes)
    | Stopped

  /** `open` are the writers' open files, by the key that names the file now; a writer whose file has lost its name
      writes to nothing. `late` are the writes to bytes that were hashed and not yet copied. */
  datatype World = World(s: State, phase: Phase, open: map<nat, string>, late: seq<Patch>)

  datatype Step = Begin(w: nat) | Write(w: nat, x: Patch) | Hash(n: nat) | Place | Check | Copy(n: nat) | Replace

  function Rewritten(file: Bytes, writes: seq<Patch>): Bytes {
    if writes == [] then file
    else
      var last := writes[|writes| - 1];
      Spliced(Rewritten(file, writes[..|writes| - 1]), last.offset, last.data)
  }

  /** The part of a write between two offsets. */
  function Clipped(x: Patch, lo: nat, hi: nat): seq<Patch> {
    var from, to := Max(x.offset, lo), Min(x.offset + |x.data|, hi);
    if to <= from then [] else [Patch(from, x.data[from - x.offset..to - x.offset])]
  }

  /** The offsets that were hashed and not yet copied, in the file that the completion works on. */
  function Exposed(p: Phase, key: string, id: string, d: Digest): (nat, nat) {
    match p
    case Hashing(_, read) => if key == TempKey(id) then (0, |read|) else (0, 0)
    case Placing(h) => if key == TempKey(id) then (0, |h|) else (0, 0)
    case Opening(h) => if key == BlobKey(d) then (0, |h|) else (0, 0)
    case Copying(h, copied) => if key == BlobKey(d) then (|copied|, |h|) else (0, 0)
    case _ => (0, 0)
  }

  function NewBlob(d: Digest, size: int): Blob { Blob(d, size, 0, BlobKey(d)) }

  /** The next bytes of a stream that ends at `size`. */
  function Streamed(file: Bytes, read: Bytes, size: nat, n: nat): Bytes
    requires |read| <= size <= |file|
  {
    read + file[|read|..Min(|read| + n, size)]
  }

  function Moving(s: State, id: string, d: Digest): State {
    if BlobKey(d) in s.files || TempKey(id) !in s.files then s
    else s.(files := Moved(s.files, TempKey(id), BlobKey(d)).value)
  }

  /** Open files follow the move. */
  function Followed(w: World, id: string, d: Digest): map<nat, string> {
    if Moving(w.s, id, d) == w.s then w.open
    else map k | k in w.open :: if w.open[k] == TempKey(id) then BlobKey(d) else w.open[k]
  }

  /** The files that still have a name when the object is replaced. */
  function StillNamed(open: map<nat, string>, key: string): map<nat, string> {
    map k | k in open && open[k] != key :: open[k]
  }

  /** One access to the object store or the catalog; a step that is not due does nothing. */
  function Next(c: Config, id: string, d: Digest, w: World, step: Step): World {
    match step
    case Begin(k) =>
      w.(s := w.s.(files := w.s.files[TempKey(id) := FileAt(w.s.files, TempKey(id))]),
         open := w.open[k := TempKey(id)])
    case Write(k, x) =>
      if k !in w.open then w
      else
        var (lo, hi) := Exposed(w.phase, w.open[k], id, d);
        w.(s := w.s.(files := WrittenAt(w.s.files, w.open[k], x.offset, x.data)), late := w.late + Clipped(x, lo, hi))
    case Hash(n) => if w.phase.Hashing? then HashStep(c, id, d, w, n) else w
    case Place =>
      if !w.phase.Placing? then w
      else w.(s := Moving(w.s, id, d), open := Followed(w, id, d), phase := Opening(w.phase.hashed))
    case Check => if w.phase.Opening? then CheckStep(d, w) else w
    case Copy(n) => if w.phase.Copying? then CopyStep(d, w, n) else w
    case Replace =>
      if !w.phase.Copying? || |w.phase.copied| != |w.phase.hashed| then w
      else
        World(PutBlob(w.s, NewBlob(d, |w.phase.hashed|), w.phase.copied).0, Stored(w.phase.hashed),
              StillNamed(w.open, BlobKey(d)), w.late)
  }

  function HashStep(c: Config, id: string, d: Digest, w: World, n: nat): World
    requires w.phase.Hashing?
  {
    var size, read, file := w.phase.size, w.phase.read, FileAt(w.s.files, TempKey(id));
    if TempKey(id) !in w.s.files || |file| < size || size < |read| then w.(phase := Stopped)
    else
      var more := Streamed(file, read, size, n);
      w.(phase := if |more| < size then Hashing(size, more) else if c.hash(more) == d then Placing(more) else Stopped)
  }

  /** The object must be long enough; a digest that is catalogued keeps its blob. */
  function CheckStep(d: Digest, w: World): World
    requires w.phase.Opening?
  {
    var h := w.phase.hashed;
    if |h| > 0 && Opened(w.s.files, BlobKey(d), ByteRange(0, |h| - 1)).Failure? then w.(phase := Stopped)
    else if d !in w.s.blobs then w.(phase := Copying(h, []))
    else w.(phase := if w.s.blobs[d].size == |h| then Stored(h) else Stopped)
  }

  function CopyStep(d: Digest, w: World, n: nat): World
    requires w.phase.Copying?
  {
    var h, copied, file := w.phase.hashed, w.phase.copied, FileAt(w.s.files, BlobKey(d));
    if |file| < |h| || |h| < |copied| then w.(phase := Stopped)
    else w.(phase := Copying(h, Streamed(file, copied, |h|, n)))
  }

  function Run(c: Config, id: string, d: Digest, s: State, size: nat, steps: seq<Step>): World {
    if steps == [] then World(s, Hashing(size, []), map[], [])
    else Next(c, id, d, Run(c, id, d, s, size, steps[..|steps| - 1]), steps[|steps| - 1])
  }

  // ---------------------------------------------------------------- what the phases hold

  /** The writes lie within the first n bytes. */
  predicate Within(writes: seq<Patch>, n: nat) {
    forall i :: 0 <= i < |writes| ==> writes[i].data != [] && writes[i].offset + |writes[i].data| <= n
  }

  /** From offset `lo` on, the file holds what the late writes make of the bytes. */
  predicate Shows(file: Bytes, bytes: Bytes, late: seq<Patch>, lo: nat) {
    && lo <= |bytes| <= |file| && Within(late, |bytes|) && |Rewritten(bytes, late)| == |bytes|
    && forall o :: lo <= o < |bytes| ==> file[o] == Rewritten(bytes, late)[o]
  }

  lemma {:induction false} WithinKeepsLength(bytes: Bytes, late: seq<Patch>)
    requires Within(late, |bytes|)
    ensures |Rewritten(bytes, late)| == |bytes|
    decreases |late|
  {
    if late != [] {
      assert Within(late[..|late| - 1], |bytes|);
      WithinKeepsLength(bytes, late[..|late| - 1]);
    }
  }

  /** Bytes behind the writes do not matter to them. */
  lemma {:induction false} RewrittenExtends(bytes: Bytes, more: Bytes, late: seq<Patch>)
    requires Within(late, |bytes|)
    ensures |Rewritten(bytes, late)| == |bytes|
    ensures Rewritten(bytes + more, late) == Rewritten(bytes, late) + more
    decreases |late|
  {
    WithinKeepsLength(bytes, late);
    if late != [] {
      var front, last := late[..|late| - 1], late[|late| - 1];
      assert Within(front, |bytes|);
      RewrittenExtends(bytes, more, front);
      assert Spliced(Rewritten(bytes, front) + more, last.offset, last.data) ==
        Spliced(Rewritten(bytes, front), last.offset, last.data) + more;
    }
  }

  /** Streaming on shows the same writes. */
  lemma StreamedShows(file: Bytes, read: Bytes, late: seq<Patch>, size: nat, n: nat)
    requires |read| <= size <= |file| && Shows(file, read, late, 0)
    ensures Shows(file, Streamed(file, read, size, n), late, 0)
  {
    var more := file[|read|..Min(|read| + n, size)];
    RewrittenExtends(read, more, late);
  }

  function PatchedAt(file: Bytes, x: Patch, o: nat): byte
    requires o < |file|
  {
    if x.offset <= o < x.offset + |x.data| then x.data[o - x.offset] else file[o]
  }

  lemma SplicedIsPatched(file: Bytes, x: Patch, o: nat)
    requires o < |file|
    ensures |file| <= |Spliced(file, x.offset, x.data)| && Spliced(file, x.offset, x.data)[o] == PatchedAt(file, x, o)
  {
  }

  lemma ClippedIsPart(x: Patch, lo: nat, hi: nat, file: Bytes, o: nat)
    requires hi <= |file| && o < hi
    ensures Clipped(x, lo, hi) == [] ==> o < lo || PatchedAt(file, x, o) == file[o]
    ensures Clipped(x, lo, hi) != [] ==>
        var y := Clipped(x, lo, hi)[0];
        && y.data != [] && lo <= y.offset && y.offset + |y.data| <= hi
        && PatchedAt(file, y, o) == if o < lo then file[o] else PatchedAt(file, x, o)
  {
  }

  lemma RewrittenOnce(bytes: Bytes, late: seq<Patch>, x: Patch)
    ensures Rewritten(bytes, late + [x]) == Spliced(Rewritten(bytes, late), x.offset, x.data)
  {
    assert (late + [x])[..|late|] == late;
  }

  /** What the recorded part of one more write does. */
  lemma ClippedAt(bytes: Bytes, late: seq<Patch>, lo: nat, x: Patch, o: nat)
    requires Within(late, |bytes|) && o < |bytes|
    ensures
      var all := late + Clipped(x, lo, |bytes|);
      && Within(all, |bytes|) && |Rewritten(bytes, late)| == |Rewritten(bytes, all)| == |bytes|
      && Rewritten(bytes, all)[o] ==
           if o < lo then Rewritten(bytes, late)[o] else PatchedAt(Rewritten(bytes, late), x, o)
  {
    var clip, now := Clipped(x, lo, |bytes|), Rewritten(bytes, late);
    WithinKeepsLength(bytes, late);
    ClippedIsPart(x, lo, |bytes|, now, o);
    if clip == [] {
      assert late + clip == late;
    } else {
      var y := clip[0];
      assert clip == [y] && Within(late + [y], |bytes|);
      WithinKeepsLength(bytes, late + [y]);
      RewrittenOnce(bytes, late, y);
      SplicedIsPatched(now, y, o);
    }
  }

  /** A write to the file, of which only the exposed part is recorded. */
  lemma WriteShows(file: Bytes, bytes: Bytes, late: seq<Patch>, lo: nat, x: Patch)
    requires Shows(file, bytes, late, lo)
    ensures Shows(Spliced(file, x.offset, x.data), bytes, late + Clipped(x, lo, |bytes|), lo)
    ensures forall o :: 0 <= o < lo ==> Rewritten(bytes, late + Clipped(x, lo, |bytes|))[o] == Rewritten(bytes, late)[o]
  {
    var all := late + Clipped(x, lo, |bytes|);
    WithinKeepsLength(bytes, all);
    forall o | 0 <= o < |bytes|
      ensures Rewritten(bytes, all)[o] ==
        if o < lo then Rewritten(bytes, late)[o] else Spliced(file, x.offset, x.data)[o]
    {
      ClippedAt(bytes, late, lo, x, o);
      SplicedIsPatched(file, x, o);
    }
  }

  /** The files that writers have open. */
  predicate OpenOk(w: World, id: string, d: Digest) {
    forall k :: k in w.open ==>
      w.open[k] == TempKey(id) || (w.open[k] == BlobKey(d) && (w.phase.Opening? || w.phase.Copying?))
  }

  /** A digest that was not catalogued at the start. */
  predicate PhaseOk(c: Config, id: string, d: Digest, w: World) {
    match w.phase
    case Hashing(size, read) =>
      && d !in w.s.blobs && BlobKey(d) !in w.s.files && OpenOk(w, id, d)
      && |read| <= size && Shows(FileAt(w.s.files, TempKey(id)), read, w.late, 0)
    case Placing(h) =>
      && d !in w.s.blobs && BlobKey(d) !in w.s.files && OpenOk(w, id, d) && c.hash(h) == d
      && TempKey(id) in w.s.files && Shows(w.s.files[TempKey(id)], h, w.late, 0)
    case Opening(h) =>
      && d !in w.s.blobs && BlobKey(d) in w.s.files && OpenOk(w, id, d) && c.hash(h) == d
      && Shows(w.s.files[BlobKey(d)], h, w.late, 0)
    case Copying(h, copied) =>
      && d !in w.s.blobs && BlobKey(d) in w.s.files && OpenOk(w, id, d) && c.hash(h) == d
      && Shows(w.s.files[BlobKey(d)], h, w.late, |copied|) && copied == Rewritten(h, w.late)[..|copied|]
    case Stored(h) =>
      && d in w.s.blobs && w.s.blobs[d] == NewBlob(d, |h|) && OpenOk(w, id, d) && c.hash(h) == d
      && BlobKey(d) in w.s.files && w.s.files[BlobKey(d)] == Rewritten(h, w.late) && |Rewritten(h, w.late)| == |h|
    case Stopped => true
  }

  /** A write to a file that the completion is not reading changes nothing that it works on. */
  lemma SideWriteKeepsPhase(c: Config, id: string, d: Digest, w: World, k: nat, x: Patch)
    requires PhaseOk(c, id, d, w) && k in w.open && Exposed(w.phase, w.open[k], id, d) == (0, 0)
    requires w.phase.Hashing? ==> w.phase.read == []
    requires w.phase.Placing? ==> w.phase.hashed == []
    requires w.phase.Opening? || w.phase.Copying? ==> w.open[k] == TempKey(id)
    ensures PhaseOk(c, id, d, Next(c, id, d, w, Write(k, x)))
  {
    KeysDisjoint(id, d);
    assert w.late + Clipped(x, 0, 0) == w.late;
  }

  /** A write through a file that was opened before the move. */
  lemma ObjectWriteKeepsPhase(c: Config, id: string, d: Digest, w: World, k: nat, x: Patch)
    requires PhaseOk(c, id, d, w) && k in w.open && w.open[k] == BlobKey(d)
    requires w.phase.Opening? || w.phase.Copying?
    ensures PhaseOk(c, id, d, Next(c, id, d, w, Write(k, x)))
  {
    KeysDisjoint(id, d);
    var (lo, hi) := Exposed(w.phase, w.open[k], id, d);
    WriteShows(w.s.files[BlobKey(d)], w.phase.hashed, w.late, lo, x);
  }

  lemma WriteKeepsPhase(c: Config, id: string, d: Digest, w: World, k: nat, x: Patch)
    requires PhaseOk(c, id, d, w)
    ensures PhaseOk(c, id, d, Next(c, id, d, w, Write(k, x)))
  {
    if k in w.open && !w.phase.Stopped? {
      KeysDisjoint(id, d);
      if w.open[k] == BlobKey(d) {
        ObjectWriteKeepsPhase(c, id, d, w, k, x);
      } else if w.phase.Hashing? {
        WriteShows(FileAt(w.s.files, TempKey(id)), w.phase.read, w.late, 0, x);
      } else if w.phase.Placing? {
        WriteShows(FileAt(w.s.files, TempKey(id)), w.phase.hashed, w.late, 0, x);
      } else {
        SideWriteKeepsPhase(c, id, d, w, k, x);
      }
    }
  }

  lemma HashKeepsPhase(c: Config, id: string, d: Digest, w: World, n: nat)
    requires PhaseOk(c, id, d, w)
    ensures PhaseOk(c, id, d, Next(c, id, d, w, Hash(n)))
  {
    if w.phase.Hashing? && TempKey(id) in w.s.files && w.phase.size <= |w.s.files[TempKey(id)]| {
      StreamedShows(w.s.files[TempKey(id)], w.phase.read, w.late, w.phase.size, n);
    }
  }

  lemma CopyKeepsPhase(c: Config, id: string, d: Digest, w: World, n: nat)
    requires PhaseOk(c, id, d, w)
    ensures PhaseOk(c, id, d, Next(c, id, d, w, Copy(n)))
  {
    if w.phase.Copying? {
      var h, copied, file := w.phase.hashed, w.phase.copied, w.s.files[BlobKey(d)];
      var all := Rewritten(h, w.late);
      assert Streamed(file, copied, |h|, n) == all[..|Streamed(file, copied, |h|, n)|];
    }
  }

  lemma NextKeepsPhase(c: Config, id: string, d: Digest, w: World, step: Step)
    requires PhaseOk(c, id, d, w)
    ensures PhaseOk(c, id, d, Next(c, id, d, w, step))
  {
    KeysDisjoint(id, d);
    match step
    case Begin(_) =>
    case Write(k, x) => WriteKeepsPhase(c, id, d, w, k, x);
    case Hash(n) => HashKeepsPhase(c, id, d, w, n);
    case Place =>
    case Check =>
    case Copy(n) => CopyKeepsPhase(c, id, d, w, n);
    case Replace =>
  }

  lemma {:induction false} RunKeepsPhase(c: Config, id: string, d: Digest, s: State, size: nat, steps: seq<Step>)
    requires d !in s.blobs && BlobKey(d) !in s.files
    ensures PhaseOk(c, id, d, Run(c, id, d, s, size, steps))
    decreases |steps|
  {
    if steps != [] {
      RunKeepsPhase(c, id, d, s, size, steps[..|steps| - 1]);
      NextKeepsPhase(c, id, d, Run(c, id, d, s, size, steps[..|steps| - 1]), steps[|steps| - 1]);
    }
  }

  // ---------------------------------------------------------------- when the blob is what its digest says

  /** The digest was catalogued at the start: nobody has its object open for writing. */
  predicate Settled(c: Config, id: string, d: Digest, w: World) {
    && d in w.s.blobs && BlobKey(d) in w.s.files && !w.phase.Copying?
    && forall k :: k in w.open ==> w.open[k] == TempKey(id)
  }

  lemma {:induction false} CataloguedStays(c: Config, id: string, d: Digest, s: State, size: nat, steps: seq<Step>)
    requires d in s.blobs && BlobHolds(c.hash, s, d)
    ensures
      var w := Run(c, id, d, s, size, steps);
      Settled(c, id, d, w) && w.s.blobs[d] == s.blobs[d] && w.s.files[BlobKey(d)] == s.files[BlobKey(d)]
    decreases |steps|
  {
    if steps != [] {
      CataloguedStays(c, id, d, s, size, steps[..|steps| - 1]);
      KeysDisjoint(id, d);
    }
  }

  /** A newly stored blob is what the late writes make of the hashed bytes. */
  lemma StoredIsRewritten(c: Config, id: string, d: Digest, s: State, size: nat, steps: seq<Step>, w: World)
    requires ContentKept(c.hash, s) && w == Run(c, id, d, s, size, steps) && w.phase.Stored? && d !in s.blobs
    ensures d in w.s.blobs && w.s.blobs[d] == NewBlob(d, |w.phase.hashed|) && c.hash(w.phase.hashed) == d
    ensures BlobKey(d) in w.s.files && w.s.files[BlobKey(d)] == Rewritten(w.phase.hashed, w.late)
  {
    RunKeepsPhase(c, id, d, s, size, steps);
  }

  /** In every interleaving of chunk calls with the completion, however their writes and its reads are cut into
      pieces: once the blob is stored, it hashes to its digest exactly when the digest was catalogued before, or the
      writes to hashed bytes that were not yet copied left them as they were. */
  lemma StoredBlobHoldsIff(c: Config, id: string, d: Digest, s: State, size: nat, steps: seq<Step>, w: World)
    requires ContentKept(c.hash, s) && w == Run(c, id, d, s, size, steps) && w.phase.Stored?
    requires NoCollision(c.hash, w.phase.hashed)
    ensures d in w.s.blobs
    ensures BlobHolds(c.hash, w.s, d) <==> d in s.blobs || Rewritten(w.phase.hashed, w.late) == w.phase.hashed
  {
    if d in s.blobs {
      assert BlobHolds(c.hash, s, d);
      CataloguedStays(c, id, d, s, size, steps);
    } else {
      StoredIsRewritten(c, id, d, s, size, steps, w);
    }
  }

  /** The write brings, within the hashed bytes, what they hold already. */
  predicate Repeats(hashed: Bytes, x: Patch) {
    forall o :: x.offset <= o < x.offset + |x.data| && o < |hashed| ==> x.data[o - x.offset] == hashed[o]
  }

  lemma RepeatKeeps(hashed: Bytes, x: Patch)
    requires x.offset + |x.data| <= |hashed| && Repeats(hashed, x)
    ensures Spliced(hashed, x.offset, x.data) == hashed
  {
  }

  /** Writes that repeat the hashed bytes leave them as they were. */
  lemma {:induction false} RepeatsAreHarmless(hashed: Bytes, late: seq<Patch>)
    requires Within(late, |hashed|) && forall i :: 0 <= i < |late| ==> Repeats(hashed, late[i])
    ensures Rewritten(hashed, late) == hashed
    decreases |late|
  {
    if late != [] {
      var front, last := late[..|late| - 1], late[|late| - 1];
      assert Within(front, |hashed|);
      RepeatsAreHarmless(hashed, front);
      RepeatKeeps(hashed, last);
    }
  }

  /** A single write leaves them exactly when it repeats them. */
  lemma OneLateWriteIff(hashed: Bytes, x: Patch)
    requires Within([x], |hashed|)
    ensures Rewritten(hashed, [x]) == hashed <==> Repeats(hashed, x)
  {
    RewrittenOnce(hashed, [], x);
    assert [] + [x] == [x];
    if Rewritten(hashed, [x]) == hashed {
      forall o | x.offset <= o < x.offset + |x.data| && o < |hashed| ensures x.data[o - x.offset] == hashed[o] {
        assert Rewritten(hashed, [x])[o] == hashed[o];
      }
    } else if Repeats(hashed, x) {
      RepeatsAreHarmless(hashed, [x]);
    }
  }

  // ---------------------------------------------------------------- the calls are runs of these steps

  /** A chunk call on a session that is no longer open opens the temp object and writes, or does nothing. */
  lemma ClosedChunkIsAWrite(c: Config, repo: string, id: string, token: string, r: ByteRange, data: Bytes, now: int,
                            d: Digest, w: World, k: nat)
    requires r.Valid() && id in w.s.uploads && w.s.uploads[id].id == id && w.s.uploads[id].state != Open
    ensures ChunkUploaded(c, w.s, repo, id, token, r, data, now).0 ==
      if !Writes(c, w.s, repo, id, token, r, data) then w.s
      else Next(c, id, d, Next(c, id, d, w, Begin(k)), Write(k, Patch(r.start, data))).s
  {
    ChunkEffect(c, w.s, repo, id, token, r, data, now);
    if Writes(c, w.s, repo, id, token, r, data) {
      var key := TempKey(id);
      var files := w.s.files[key := FileAt(w.s.files, key)];
      assert files[key := Spliced(FileAt(files, key), r.start, data)] == WrittenAt(w.s.files, key, r.start, data);
    }
  }

  /** From the checked bytes on, with nobody else at work. */
  function Finished(c: Config, id: string, d: Digest, w: World, n: nat): World {
    Next(c, id, d, Next(c, id, d, Next(c, id, d, w, Check), Copy(n)), Replace)
  }

  lemma UnbrokenCopy(c: Config, id: string, d: Digest, w: World, h: Bytes, file: Bytes)
    requires w.phase == Opening(h) && d !in w.s.blobs && BlobKey(d) in w.s.files && w.s.files[BlobKey(d)] == file
    requires |file| == |h|
    ensures Finished(c, id, d, w, |h|) ==
      World(w.s.(blobs := w.s.blobs[d := NewBlob(d, |h|)]), Stored(h), StillNamed(w.open, BlobKey(d)), w.late)
  {
    var checked := Next(c, id, d, w, Check);
    if |h| > 0 { assert Opened(w.s.files, BlobKey(d), ByteRange(0, |h| - 1)) == Success(file[0..|h|]); }
    assert checked == w.(phase := Copying(h, []));
    assert Streamed(file, [], |h|, |h|) == file;
    assert w.s.files[BlobKey(d) := file] == w.s.files;
  }

  /** Uninterrupted, the steps are what CompleteUpload does after its finalize update with content of the
      expected digest. */
  lemma StoringIsFiveSteps(c: Config, s: State, u: SessionValue, d: Digest, file: Bytes)
    requires ContentKept(c.hash, s) && TempKey(u.id) in s.files && s.files[TempKey(u.id)] == file && c.hash(file) == d
    ensures
      var placed := Next(c, u.id, d, Next(c, u.id, d, World(s, Hashing(|file|, []), map[], []), Hash(|file|)), Place);
      var t := Finished(c, u.id, d, placed, |file|);
      var (stored, o) := BlobStored(s, u, NewBlob(d, |file|));
      t.s == stored && t.phase == if o.Pass? then Stored(file) else Stopped
  {
    var start := World(s, Hashing(|file|, []), map[], []);
    var hashed := Next(c, u.id, d, start, Hash(|file|));
    var placed := Next(c, u.id, d, hashed, Place);
    assert Streamed(file, [], |file|, |file|) == file;
    assert hashed == start.(phase := Placing(file));
    StoredEffect(c.hash, s, u, d, file);
    if d in s.blobs {
      assert BlobHolds(c.hash, s, d);
      assert placed.s == s;
    } else {
      KeysDisjoint(u.id, d);
      UnbrokenCopy(c, u.id, d, placed, file, file);
    }
  }

  // ---------------------------------------------------------------- two interleavings that store other bytes

  lemma RunGoesOn(c: Config, id: string, d: Digest, s: State, size: nat, steps: seq<Step>, step: Step)
    ensures Run(c, id, d, s, size, steps + [step]) == Next(c, id, d, Run(c, id, d, s, size, steps), step)
  {
    assert (steps + [step])[..|steps|] == steps;
  }

  lemma RunFinishes(c: Config, id: string, d: Digest, s: State, size: nat, steps: seq<Step>, n: nat)
    ensures Run(c, id, d, s, size, steps + [Check] + [Copy(n)] + [Replace]) ==
      Finished(c, id, d, Run(c, id, d, s, size, steps), n)
  {
    RunGoesOn(c, id, d, s, size, steps, Check);
    RunGoesOn(c, id, d, s, size, steps + [Check], Copy(n));
    RunGoesOn(c, id, d, s, size, steps + [Check] + [Copy(n)], Replace);
  }

  /** A session that is finalizing, and a chunk of its size with other bytes than its temp object holds. */
  ghost predicate Overwritable(c: Config, s: State, repo: string, id: string, token: string, a: Bytes, b: Bytes) {
    && Kept(c, s) && Addresses(s, repo, id, token) && s.uploads[id].state == Finalizing
    && TempKey(id) in s.files && s.files[TempKey(id)] == a && c.hash(a) !in s.blobs
    && c.hash(b) != c.hash(a) && 0 < |b| == |a| <= c.maxBlobSize
    && !HasExactChunk(s.uploads[id], ByteRange(0, |b| - 1), c.hash(b))
  }

  /** The digest is checked, a chunk call overwrites the bytes, and they are moved and catalogued. */
  function CheckedThenWritten(k: nat, a: Bytes, b: Bytes): seq<Step> {
    [Hash(|a|), Begin(k), Write(k, Patch(0, b)), Place]
  }

  /** The chunk call has the object open before it is moved, and writes afterwards. */
  function MovedThenWritten(k: nat, a: Bytes, b: Bytes): seq<Step> {
    [Begin(k), Hash(|a|), Place, Write(k, Patch(0, b))]
  }

  function ToTheEnd(steps: seq<Step>, n: nat): seq<Step> { steps + [Check] + [Copy(n)] + [Replace] }

  lemma OverwritingSplice(a: Bytes, b: Bytes)
    requires |a| == |b| > 0
    ensures Spliced(a, 0, b) == b && Streamed(a, [], |a|, |a|) == a
  {
  }

  /** However the overwriting came about, the blob is then catalogued under a digest that it does not have. */
  lemma OverwrittenBreaks(c: Config, id: string, d: Digest, s: State, steps: seq<Step>, a: Bytes, b: Bytes)
    requires
      var w := Run(c, id, d, s, |a|, steps);
      w.phase == Opening(a) && d !in w.s.blobs && BlobKey(d) in w.s.files && w.s.files[BlobKey(d)] == b
    requires |a| == |b| && c.hash(b) != d
    ensures
      var w := Run(c, id, d, s, |a|, ToTheEnd(steps, |a|));
      w.phase == Stored(a) && d in w.s.blobs && !BlobHolds(c.hash, w.s, d)
  {
    RunFinishes(c, id, d, s, |a|, steps, |a|);
    UnbrokenCopy(c, id, d, Run(c, id, d, s, |a|, steps), a, b);
  }

  lemma RunOfFour(c: Config, id: string, d: Digest, s: State, size: nat, steps: seq<Step>)
    requires |steps| == 4
    ensures Run(c, id, d, s, size, steps[..1]) == Next(c, id, d, World(s, Hashing(size, []), map[], []), steps[0])
    ensures Run(c, id, d, s, size, steps[..2]) == Next(c, id, d, Run(c, id, d, s, size, steps[..1]), steps[1])
    ensures Run(c, id, d, s, size, steps[..3]) == Next(c, id, d, Run(c, id, d, s, size, steps[..2]), steps[2])
    ensures Run(c, id, d, s, size, steps) == Next(c, id, d, Run(c, id, d, s, size, steps[..3]), steps[3])
  {
    assert steps[..1] == [] + [steps[0]] && steps[..2] == steps[..1] + [steps[1]];
    assert steps[..3] == steps[..2] + [steps[2]] && steps == steps[..3] + [steps[3]];
    RunGoesOn(c, id, d, s, size, [], steps[0]);
    RunGoesOn(c, id, d, s, size, steps[..1], steps[1]);
    RunGoesOn(c, id, d, s, size, steps[..2], steps[2]);
  }

  lemma HashesAtOnce(c: Config, id: string, d: Digest, w: World, a: Bytes)
    requires w.phase == Hashing(|a|, []) && TempKey(id) in w.s.files && w.s.files[TempKey(id)] == a && c.hash(a) == d
    ensures Next(c, id, d, w, Hash(|a|)) == w.(phase := Placing(a))
  {
    assert Streamed(a, [], |a|, |a|) == a;
  }

  lemma BeginsWriting(c: Config, id: string, d: Digest, w: World, k: nat)
    requires TempKey(id) in w.s.files
    ensures Next(c, id, d, w, Begin(k)) == w.(open := w.open[k := TempKey(id)])
  {
    assert w.s.files[TempKey(id) := FileAt(w.s.files, TempKey(id))] == w.s.files;
  }

  lemma Overwrites(c: Config, id: string, d: Digest, w: World, k: nat, a: Bytes, b: Bytes)
    requires k in w.open && w.open[k] in w.s.files && w.s.files[w.open[k]] == a && |a| == |b| > 0
    ensures
      var n := Next(c, id, d, w, Write(k, Patch(0, b)));
      n == w.(s := w.s.(files := w.s.files[w.open[k] := b]), late := n.late)
  {
    OverwritingSplice(a, b);
  }

  lemma PlacesTheFile(c: Config, id: string, d: Digest, w: World, file: Bytes)
    requires w.phase.Placing? && TempKey(id) in w.s.files && w.s.files[TempKey(id)] == file && BlobKey(d) !in w.s.files
    ensures
      var n := Next(c, id, d, w, Place);
      && n.phase == Opening(w.phase.hashed) && n.s.blobs == w.s.blobs
      && BlobKey(d) in n.s.files && n.s.files[BlobKey(d)] == file
      && (forall k :: k in w.open && w.open[k] == TempKey(id) ==> k in n.open && n.open[k] == BlobKey(d))
  {
    KeysDisjoint(id, d);
    assert Moving(w.s, id, d) != w.s;
  }

  /** The overwriting is a chunk call on the state in which the digest was checked. */
  lemma LateWriteBreaksTheBlob(c: Config, s: State, repo: string, id: string, token: string, a: Bytes, b: Bytes,
                               k: nat, now: int)
    requires Overwritable(c, s, repo, id, token, a, b)
    ensures
      var d, steps := c.hash(a), CheckedThenWritten(k, a, b);
      var w := Run(c, id, d, s, |a|, ToTheEnd(steps, |a|));
      && Run(c, id, d, s, |a|, steps[..1]) == World(s, Placing(a), map[], [])
      && Run(c, id, d, s, |a|, steps[..3]).s ==
           ChunkUploaded(c, s, repo, id, token, ByteRange(0, |b| - 1), b, now).0
      && w.phase == Stored(a) && d in w.s.blobs && !BlobHolds(c.hash, w.s, d)
  {
    var d, steps := c.hash(a), CheckedThenWritten(k, a, b);
    var start, checked := World(s, Hashing(|a|, []), map[], []), World(s, Placing(a), map[], []);
    assert SessionKept(s, id);
    RunOfFour(c, id, d, s, |a|, steps);
    HashesAtOnce(c, id, d, start, a);
    BeginsWriting(c, id, d, checked, k);
    Overwrites(c, id, d, Run(c, id, d, s, |a|, steps[..2]), k, a, b);
    ClosedChunkIsAWrite(c, repo, id, token, ByteRange(0, |b| - 1), b, now, d, checked, k);
    KeysDisjoint(id, d);
    PlacesTheFile(c, id, d, Run(c, id, d, s, |a|, steps[..3]), b);
    OverwrittenBreaks(c, id, d, s, steps, a, b);
  }

  /** Holding the object open over the move is enough: at the move no byte has been written yet. */
  lemma OpenFileBreaksTheBlob(c: Config, s: State, repo: string, id: string, token: string, a: Bytes, b: Bytes, k: nat)
    requires Overwritable(c, s, repo, id, token, a, b)
    ensures
      var d, steps := c.hash(a), MovedThenWritten(k, a, b);
      var w := Run(c, id, d, s, |a|, ToTheEnd(steps, |a|));
      && BlobKey(d) in Run(c, id, d, s, |a|, steps[..3]).s.files
      && Run(c, id, d, s, |a|, steps[..3]).s.files[BlobKey(d)] == a
      && w.phase == Stored(a) && d in w.s.blobs && !BlobHolds(c.hash, w.s, d)
  {
    var d, steps := c.hash(a), MovedThenWritten(k, a, b);
    var start := World(s, Hashing(|a|, []), map[], []);
    RunOfFour(c, id, d, s, |a|, steps);
    BeginsWriting(c, id, d, start, k);
    HashesAtOnce(c, id, d, Run(c, id, d, s, |a|, steps[..1]), a);
    PlacesTheFile(c, id, d, Run(c, id, d, s, |a|, steps[..2]), a);
    Overwrites(c, id, d, Run(c, id, d, s, |a|, steps[..3]), k, a, b);
    OverwrittenBreaks(c, id, d, s, steps, a, b);
  }
}
