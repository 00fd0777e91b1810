/** Any number of calls interleaving on one upload session: each reads the session, changes its copy, and
    writes it back with a compare-and-set on the version. */
module UploadRace {
  import opened Basics
  import opened Ranges
  import opened Artifacts
  import opened Upload
  import opened Store
  import opened Registry
  import opened Effects

  /** Where one call stands. */
  datatype Worker =
    | Idle
    | Loaded(session: SessionValue)
    | Recording(session: SessionValue)
    | Finalizer(session: SessionValue)
    | Won(session: SessionValue)

  /** The stored session, None once deleted; the calls under way; and the compare-and-sets that succeeded:
      the chunks recorded, oldest first, and the calls that got past the finalize update. */
  datatype Race = Race(stored: Option<SessionValue>, workers: map<nat, Worker>, acked: seq<Chunk>, winners: seq<nat>)

  datatype Step =
    | Load(w: nat)
    | Record(w: nat, range: ByteRange, digest: Digest, now: int)
    | RecordUpdate(w: nat)
    | Finalize(w: nat, size: int, now: int)
    | FinalizeUpdate(w: nat)
    | Settle(w: nat, matches: bool)
    | Stop(w: nat)
    | Delete

  function WorkerOf(s: Race, w: nat): Worker {
    if w in s.workers then s.workers[w] else Idle
  }

  function Goes(s: Race, w: nat, to: Worker): Race {
    s.(workers := s.workers[w := to])
  }

  /** The compare-and-set would succeed. */
  predicate Matches(s: Race, version: int) {
    s.stored.Some? && s.stored.value.version == version
  }

  function LastChunk(u: SessionValue): seq<Chunk> {
    if u.chunks == [] then [] else [u.chunks[|u.chunks| - 1]]
  }

  function Next(s: Race, step: Step): Race {
    match step
    case Load(w) =>
      if WorkerOf(s, w).Idle? && s.stored.Some? then Goes(s, w, Loaded(s.stored.value)) else s
    case Record(w, r, d, now) =>
      if !WorkerOf(s, w).Loaded? || !r.Valid() then s
      else
        var u := WorkerOf(s, w).session;
        var (v, o) := Recorded(u, r, d, now);
        if HasExactChunk(u, r, d) || o.Fail? then Goes(s, w, Idle) else Goes(s, w, Recording(v))
    case RecordUpdate(w) =>
      if !WorkerOf(s, w).Recording? then s
      else
        var v := WorkerOf(s, w).session;
        if !Matches(s, v.version - 1) then Goes(s, w, Idle)
        else Race(Some(v), s.workers[w := Idle], s.acked + LastChunk(v), s.winners)
    case Finalize(w, size, now) =>
      if !WorkerOf(s, w).Loaded? then s
      else
        var u := WorkerOf(s, w).session;
        if CanFinalize(u, size, now).Fail? then Goes(s, w, Idle) else Goes(s, w, Finalizer(Finalized(u).0))
    case FinalizeUpdate(w) =>
      if !WorkerOf(s, w).Finalizer? then s
      else
        var v := WorkerOf(s, w).session;
        if !Matches(s, v.version - 1) then Goes(s, w, Idle)
        else Race(Some(v), s.workers[w := Won(v)], s.acked, s.winners + [w])
    case Settle(w, matches) =>
      if !WorkerOf(s, w).Won? then s
      else
        var u := WorkerOf(s, w).session;
        var v := if matches then CompletedSession(u) else AbortedSession(u);
        if !Matches(s, v.version - 1) then Goes(s, w, Idle)
        else s.(stored := Some(v), workers := s.workers[w := Idle])
    case Stop(w) => Goes(s, w, Idle)
    case Delete => s.(stored := None)
  }

  function Run(init: SessionValue, steps: seq<Step>): Race {
    if steps == [] then Race(Some(init), map[], [], [])
    else Next(Run(init, steps[..|steps| - 1]), steps[|steps| - 1])
  }

  // ---------------------------------------------------------------- the invariant

  /** The stored session holds exactly the chunks it started with and those acknowledged. */
  ghost predicate StoredOk(s: Race, init: SessionValue) {
    s.stored.Some? ==>
      var x := s.stored.value;
      && x.chunks == init.chunks + s.acked
      && SessionOk(x)
      && (x.state == Open ==> s.winners == [])
  }

  /** `v` is what recording one more chunk makes of the open session `x`. */
  ghost predicate ExtendsByOne(x: SessionValue, v: SessionValue) {
    && x.state == Open && v.state == Open && SessionOk(v) && v.chunks != []
    && v.chunks == x.chunks + LastChunk(v)
  }

  ghost predicate WorkerOk(s: Race, w: nat) {
    var worker := WorkerOf(s, w);
    s.stored.Some? ==>
      var x := s.stored.value;
      && (worker.Loaded? ==>
            worker.session.version <= x.version && (worker.session.version == x.version ==> worker.session == x))
      && (worker.Recording? ==>
            worker.session.version <= x.version + 1 &&
              (worker.session.version == x.version + 1 ==> ExtendsByOne(x, worker.session)))
      && (worker.Finalizer? ==>
            && worker.session.version <= x.version + 1
            && (worker.session.version == x.version + 1 ==> x.state == Open && worker.session == Finalized(x).0))
      && (worker.Won? ==> worker.session == x && x.state == Finalizing)
  }

  ghost predicate Inv(s: Race, init: SessionValue) {
    && StoredOk(s, init)
    && |s.winners| <= 1
    && (forall w: nat :: WorkerOf(s, w).Won? ==> s.winners == [w])
    && forall w: nat :: WorkerOk(s, w)
  }

  lemma RecordedExtendsByOne(u: SessionValue, r: ByteRange, d: Digest, now: int)
    requires SessionOk(u) && r.Valid() && !HasExactChunk(u, r, d) && Recorded(u, r, d, now).1.Pass?
    ensures ExtendsByOne(u, Recorded(u, r, d, now).0) && Recorded(u, r, d, now).0.version == u.version + 1
  {
    RecordKeepsOk(u, r, d, now);
    FirstOverlapFinds(u.chunks, r);
  }

  /** Only one call changes place. */
  lemma OthersStay(s: Race, n: Race, w: nat, init: SessionValue)
    requires Inv(s, init) && n.stored == s.stored && n.acked == s.acked && n.winners == s.winners
    requires forall i: nat :: i != w ==> WorkerOf(n, i) == WorkerOf(s, i)
    requires WorkerOk(n, w) && !WorkerOf(n, w).Won?
    ensures Inv(n, init)
  {
    forall i: nat ensures WorkerOk(n, i) {
      assert WorkerOk(s, i);
    }
  }

  /** The stored session moves on by one version, so that no other call's copy is current any more. */
  lemma StoredMoves(s: Race, n: Race, w: nat, init: SessionValue)
    requires Inv(s, init) && s.stored.Some? && n.stored.Some? && n.stored.value.version == s.stored.value.version + 1
    requires forall i: nat :: i != w ==> WorkerOf(n, i) == WorkerOf(s, i) && !WorkerOf(s, i).Won?
    requires StoredOk(n, init) && |n.winners| <= 1
    requires WorkerOf(n, w).Idle? ||
        (WorkerOf(n, w).Won? && WorkerOf(n, w).session == n.stored.value && n.winners == [w])
    requires WorkerOf(n, w).Won? ==> n.stored.value.state == Finalizing
    ensures Inv(n, init)
  {
    forall i: nat ensures WorkerOk(n, i) {
      assert WorkerOk(s, i);
    }
  }

  /** A step that changes only its worker's place. */
  lemma LocalStepKeepsInv(s: Race, step: Step, init: SessionValue)
    requires Inv(s, init) && !step.Delete? && Next(s, step) != s
    requires Next(s, step).stored == s.stored && Next(s, step).winners == s.winners
    ensures Inv(Next(s, step), init)
  {
    var w, worker := step.w, WorkerOf(s, step.w);
    assert WorkerOk(s, w);
    if step.Record? && s.stored.Some? && worker.session == s.stored.value && WorkerOf(Next(s, step), w).Recording? {
      RecordedExtendsByOne(worker.session, step.range, step.digest, step.now);
    }
    OthersStay(s, Next(s, step), w, init);
  }

  lemma UpdateKeepsStored(s: Race, step: Step, init: SessionValue)
    requires Inv(s, init) && !step.Delete? && Next(s, step).stored != s.stored
    ensures StoredOk(Next(s, step), init) && |Next(s, step).winners| <= 1
  {
    assert WorkerOk(s, step.w);
    if step.Settle? { StateChangesKeepOk(WorkerOf(s, step.w).session); }
    if step.FinalizeUpdate? { StateChangesKeepOk(s.stored.value); }
  }

  /** A compare-and-set that succeeds. */
  lemma UpdateKeepsInv(s: Race, step: Step, init: SessionValue)
    requires Inv(s, init) && !step.Delete? && Next(s, step).stored != s.stored
    ensures Inv(Next(s, step), init)
  {
    assert WorkerOk(s, step.w);
    UpdateKeepsStored(s, step, init);
    forall i: nat | i != step.w ensures !WorkerOf(s, i).Won? {
      assert WorkerOk(s, i);
    }
    StoredMoves(s, Next(s, step), step.w, init);
  }

  lemma NextKeepsInv(s: Race, step: Step, init: SessionValue)
    requires Inv(s, init)
    ensures Inv(Next(s, step), init)
  {
    var n := Next(s, step);
    if !step.Delete? && n != s {
      assert WorkerOk(s, step.w);
      if n.stored == s.stored { LocalStepKeepsInv(s, step, init); } else { UpdateKeepsInv(s, step, init); }
    }
  }

  lemma {:induction false} RunKeepsInv(init: SessionValue, steps: seq<Step>)
    requires SessionOk(init)
    ensures Inv(Run(init, steps), init)
    decreases |steps|
  {
    if steps == [] {
      assert init.chunks + [] == init.chunks;
    } else {
      RunKeepsInv(init, steps[..|steps| - 1]);
      NextKeepsInv(Run(init, steps[..|steps| - 1]), steps[|steps| - 1], init);
    }
  }

  // ---------------------------------------------------------------- what every interleaving keeps

  /** No acknowledged chunk is lost: the stored chunks are those at the start and then the acknowledged ones,
      in that order; they are disjoint; the reserved bytes are the sum of their lengths; and at most one
      call got past the finalize update, none while the session is open. */
  lemma NoUpdateIsLost(init: SessionValue, steps: seq<Step>)
    requires SessionOk(init)
    ensures
      var s := Run(init, steps);
      && |s.winners| <= 1
      && (s.stored.Some? ==>
            var x := s.stored.value;
            && x.chunks == init.chunks + s.acked
            && PairwiseDisjoint(RangesOf(x.chunks))
            && x.reservedBytes == TotalLength(RangesOf(x.chunks))
            && (x.state == Open ==> s.winners == []))
  {
    RunKeepsInv(init, steps);
  }

  lemma StepGrows(s: Race, step: Step, init: SessionValue)
    requires Inv(s, init)
    ensures s.acked <= Next(s, step).acked && s.winners <= Next(s, step).winners
    ensures s.stored.None? ==> Next(s, step).stored.None?
    ensures s.stored.Some? && s.stored.value.state != Open ==>
      && Next(s, step).acked == s.acked
      && (Next(s, step).stored.Some? ==> Next(s, step).stored.value.state != Open)
  {
    if !step.Delete? { assert WorkerOk(s, step.w); }
  }

  /** From `s` on the chunks have only grown, and not at all if the session was no longer open. */
  ghost predicate Grown(s: Race, t: Race) {
    && s.acked <= t.acked
    && (t.stored.Some? ==> s.stored.Some?)
    && (s.stored.Some? && s.stored.value.state != Open ==>
          t.acked == s.acked && (t.stored.Some? ==> t.stored.value.state != Open))
  }

  lemma {:induction false} RunGrows(init: SessionValue, steps: seq<Step>, more: seq<Step>)
    requires SessionOk(init)
    ensures Grown(Run(init, steps), Run(init, steps + more))
    decreases |more|
  {
    if more == [] {
      assert steps + more == steps;
    } else {
      var front, all := more[..|more| - 1], steps + more;
      assert all[..|all| - 1] == steps + front && all[|all| - 1] == more[|more| - 1];
      RunGrows(init, steps, front);
      RunKeepsInv(init, steps + front);
      StepGrows(Run(init, steps + front), more[|more| - 1], init);
    }
  }

  /** The stored chunks only grow; a deleted session stays deleted; and once the session is no longer open it
      never is again, and its chunks stay as they are. */
  lemma ChunksGrowAndFreeze(init: SessionValue, steps: seq<Step>, more: seq<Step>)
    requires SessionOk(init)
    ensures
      var s, t := Run(init, steps), Run(init, steps + more);
      t.stored.Some? ==>
        && s.stored.Some?
        && s.stored.value.chunks <= t.stored.value.chunks
        && (s.stored.value.state != Open ==>
              t.stored.value.state != Open && t.stored.value.chunks == s.stored.value.chunks)
  {
    RunKeepsInv(init, steps);
    RunKeepsInv(init, steps + more);
    RunGrows(init, steps, more);
  }

  /** A chunk is acknowledged exactly when nobody changed the session since it was read; then it is stored. */
  lemma RecordTakesEffectIff(init: SessionValue, steps: seq<Step>, w: nat, v: SessionValue)
    requires SessionOk(init) && WorkerOf(Run(init, steps), w) == Recording(v)
    ensures
      var s, n := Run(init, steps), Next(Run(init, steps), RecordUpdate(w));
      if s.stored.Some? && s.stored.value.version == v.version - 1
      then n.stored == Some(v) && |v.chunks| == |s.stored.value.chunks| + 1 && s.stored.value.chunks <= v.chunks
      else n.stored == s.stored && n.acked == s.acked
  {
    RunKeepsInv(init, steps);
    var s := Run(init, steps);
    assert WorkerOk(s, w);
    if s.stored.Some? && s.stored.value.version == v.version - 1 {
      NextKeepsInv(s, RecordUpdate(w), init);
    }
  }

  /** The winner's closing update succeeds unless the session was deleted. */
  lemma WinnerSettles(init: SessionValue, steps: seq<Step>, w: nat, v: SessionValue, matches: bool)
    requires SessionOk(init) && WorkerOf(Run(init, steps), w) == Won(v)
    ensures Run(init, steps).stored.Some? ==>
      Next(Run(init, steps), Settle(w, matches)).stored ==
        Some(if matches then CompletedSession(v) else AbortedSession(v))
  {
    RunKeepsInv(init, steps);
    assert WorkerOk(Run(init, steps), w);
  }

  // ---------------------------------------------------------------- the calls are runs of these steps

  /** What three steps of one worker make of the session. */
  lemma ThreeSteps(race: Race, w: nat, u: SessionValue, r: ByteRange, d: Digest, now: int)
    requires race.stored == Some(u) && WorkerOf(race, w) == Idle && r.Valid()
    ensures
      var (v, o) := Recorded(u, r, d, now);
      Next(Next(Next(race, Load(w)), Record(w, r, d, now)), RecordUpdate(w)).stored ==
        Some(if !HasExactChunk(u, r, d) && o.Pass? then v else u)
  {
    var (v, o) := Recorded(u, r, d, now);
    var loaded := Next(race, Load(w));
    var ready := Next(loaded, Record(w, r, d, now));
    assert WorkerOf(loaded, w) == Loaded(u);
    if HasExactChunk(u, r, d) || o.Fail? {
      assert WorkerOf(ready, w) == Idle;
    } else {
      FirstOverlapFinds(u.chunks, r);
      assert WorkerOf(ready, w) == Recording(v) && v.version == u.version + 1;
    }
  }

  /** An UploadChunk call that nothing interrupts is three steps of one worker. */
  lemma ChunkIsThreeSteps(c: Config, s: State, repo: string, id: string, token: string, r: ByteRange, data: Bytes,
                          now: int, race: Race, w: nat)
    requires Addresses(s, repo, id, token) && s.uploads[id].id == id
    requires r.Valid() && r.Length() <= c.maxBlobSize && |data| == r.Length()
    requires race.stored == Some(s.uploads[id]) && WorkerOf(race, w) == Idle
    ensures
      var t := ChunkUploaded(c, s, repo, id, token, r, data, now).0;
      Next(Next(Next(race, Load(w)), Record(w, r, c.hash(data), now)), RecordUpdate(w)).stored == Some(t.uploads[id])
  {
    ChunkEffect(c, s, repo, id, token, r, data, now);
    ThreeSteps(race, w, s.uploads[id], r, c.hash(data), now);
  }

  /** The call passes the guard and the digest check, but the blob cannot be stored. */
  predicate StoreFails(c: Config, s: State, id: string, d: Digest, now: int)
    requires id in s.uploads && TempKey(id) in s.files
  {
    var v, data := Finalized(s.uploads[id]).0, s.files[TempKey(id)];
    PassesGuard(s, id, now) && c.hash(data) == d &&
      BlobStored(WithSession(s, id, v), v, Blob(d, |data|, 0, BlobKey(d))).1.Fail?
  }

  /** What four steps of one worker make of the session. */
  lemma FourSteps(race: Race, w: nat, u: SessionValue, size: int, now: int, matches: bool)
    requires race.stored == Some(u) && WorkerOf(race, w) == Idle
    ensures
      var won := Next(Next(Next(race, Load(w)), Finalize(w, size, now)), FinalizeUpdate(w));
      var v := Finalized(u).0;
      if CanFinalize(u, size, now).Pass?
      then won.stored == Some(v) &&
        Next(won, Settle(w, matches)).stored == Some(if matches then CompletedSession(v) else AbortedSession(v))
      else won.stored == Some(u) && Next(won, Settle(w, matches)).stored == Some(u)
  {
    var v := Finalized(u).0;
    var loaded := Next(race, Load(w));
    var ready := Next(loaded, Finalize(w, size, now));
    assert WorkerOf(loaded, w) == Loaded(u);
    if CanFinalize(u, size, now).Pass? {
      assert WorkerOf(ready, w) == Finalizer(v);
      assert WorkerOf(Next(ready, FinalizeUpdate(w)), w) == Won(v);
    } else {
      assert WorkerOf(ready, w) == Idle;
    }
  }

  lemma ReleasedSession(s: State, id: string, u: SessionValue)
    requires id in s.uploads
    ensures ReleaseReservation(s, u).uploads == s.uploads
  {
    if u.expectedSize.Some? { ReleaseKeeps(s, u.tenant, u.expectedSize.value); }
  }

  lemma CommittedSession(s: State, id: string, u: SessionValue, actual: int)
    requires id in s.uploads
    ensures CommitReservation(s, u, actual).uploads == s.uploads
  {
    CommitKeeps(s, u, actual);
  }

  /** What the guarded part of CompleteUpload makes of the session. */
  lemma GuardedSession(c: Config, s: State, id: string, d: Digest)
    requires id in s.uploads && TempKey(id) in s.files
    ensures
      var t, v, data := AfterGuard(c, s, id, d), s.uploads[id], s.files[TempKey(id)];
      && id in t.uploads
      && t.uploads[id] ==
           if c.hash(data) != d then AbortedSession(v)
           else if BlobStored(s, v, Blob(d, |data|, 0, BlobKey(d))).1.Fail? then v
           else CompletedSession(v)
  {
    var v, data := s.uploads[id], s.files[TempKey(id)];
    if c.hash(data) != d {
      ReleasedSession(WithSession(s, id, AbortedSession(v)), id, AbortedSession(v));
    } else {
      var b := Blob(d, |data|, 0, BlobKey(d));
      BlobStoredKeeps(s, v, b);
      CommittedSession(WithSession(BlobStored(s, v, b).0, id, CompletedSession(v)), id, CompletedSession(v), |data|);
    }
  }

  /** A CompleteUpload call that nothing interrupts is four steps, the last of them left out exactly when the
      blob cannot be stored. */
  lemma CompleteIsFourSteps(c: Config, s: State, repo: string, id: string, token: string, d: Digest, now: int,
                            race: Race, w: nat)
    requires Addresses(s, repo, id, token) && s.uploads[id].id == id && TempKey(id) in s.files
    requires race.stored == Some(s.uploads[id]) && WorkerOf(race, w) == Idle
    ensures
      var t := UploadCompleted(c, s, repo, id, token, d, now).0;
      var won := Next(Next(Next(race, Load(w)), Finalize(w, |s.files[TempKey(id)]|, now)), FinalizeUpdate(w));
      && id in t.uploads
      && Some(t.uploads[id]) ==
           if StoreFails(c, s, id, d, now) then won.stored
           else Next(won, Settle(w, c.hash(s.files[TempKey(id)]) == d)).stored
  {
    CompleteEffect(c, s, repo, id, token, d, now);
    FourSteps(race, w, s.uploads[id], |s.files[TempKey(id)]|, now, c.hash(s.files[TempKey(id)]) == d);
    if PassesGuard(s, id, now) { GuardedSession(c, WithSession(s, id, Finalized(s.uploads[id]).0), id, d); }
  }
}
