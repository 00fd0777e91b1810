/** The versioned updates of the catalog, and that the updates of the step machines are these calls. */
module CompareAndSet {
  import opened Basics
  import opened Upload
  import opened Policy
  import opened Store
  import U = UploadRace
  import Q = QuotaRace
  import R = Replication

  /** A versioned update goes through exactly when the entry is there in the version that the caller saw; otherwise
      nothing changes, and the error says which of the two it was. */
  lemma UpdateUploadAnswers(s: State, u: SessionValue, version: int)
    ensures
      var (t, o) := UpdatedUpload(s, u, version);
      && (o.Pass? <==> u.id in s.uploads && s.uploads[u.id].version == version)
      && t == (if o.Pass? then s.(uploads := s.uploads[u.id := u]) else s)
      && (o.Fail? ==> o.error == if u.id in s.uploads then PreconditionFailed else UploadNotFound)
  {
  }

  lemma UpdateQuotaAnswers(s: State, tenant: string, q: QuotaValue, version: int)
    ensures
      var (t, o) := UpdatedQuota(s, tenant, q, version);
      && (o.Pass? <==> tenant in s.quotas && s.quotas[tenant].version == version)
      && t == (if o.Pass? then s.(quotas := s.quotas[tenant := q]) else s)
      && (o.Fail? ==> o.error == if tenant in s.quotas then PreconditionFailed else ManifestNotFound)
  {
  }

  lemma UpdateReplicationAnswers(s: State, id: string, v: R.TaskValue, version: int)
    ensures
      var (t, o) := UpdatedReplication(s, id, v, version);
      && (o.Pass? <==> id in s.replications && s.replications[id].version == version)
      && t == (if o.Pass? then s.(replications := s.replications[id := v]) else s)
      && (o.Fail? ==> o.error == if id in s.replications then PreconditionFailed else ManifestNotFound)
  {
  }

  lemma UpdateRepositoryAnswers(s: State, name: string, r: Repository, version: int)
    ensures
      var (t, o) := UpdatedRepo(s, name, r, version);
      && (o.Pass? <==> name in s.repos && s.repos[name].version == version)
      && t == (if o.Pass? then s.(repos := s.repos[name := r]) else s)
      && (o.Fail? ==> o.error == if name in s.repos then PreconditionFailed else ManifestNotFound)
  {
  }

  // ---------------------------------------------------------------- sessions

  function SessionOf(s: State, id: string): Option<SessionValue> {
    if id in s.uploads then Some(s.uploads[id]) else None
  }

  /** Each update step of the upload race is the catalog's versioned update: it stores the same session, under the
      same condition. */
  lemma RecordUpdateIsTheCall(race: U.Race, s: State, w: nat, v: SessionValue)
    requires U.WorkerOf(race, w) == U.Recording(v) && race.stored == SessionOf(s, v.id)
    ensures
      var n, (t, o) := U.Next(race, U.RecordUpdate(w)), UpdatedUpload(s, v, v.version - 1);
      n.stored == SessionOf(t, v.id) && n.acked == if o.Pass? then race.acked + U.LastChunk(v) else race.acked
  {
  }

  lemma FinalizeUpdateIsTheCall(race: U.Race, s: State, w: nat, v: SessionValue)
    requires U.WorkerOf(race, w) == U.Finalizer(v) && race.stored == SessionOf(s, v.id)
    ensures
      var n, (t, o) := U.Next(race, U.FinalizeUpdate(w)), UpdatedUpload(s, v, v.version - 1);
      n.stored == SessionOf(t, v.id) && n.winners == if o.Pass? then race.winners + [w] else race.winners
  {
  }

  lemma SettleIsTheCall(race: U.Race, s: State, w: nat, u: SessionValue, matches: bool, v: SessionValue)
    requires U.WorkerOf(race, w) == U.Won(u) && race.stored == SessionOf(s, u.id)
    requires v == if matches then CompletedSession(u) else AbortedSession(u)
    ensures U.Next(race, U.Settle(w, matches)).stored == SessionOf(UpdatedUpload(s, v, v.version - 1).0, u.id)
  {
  }

  // ---------------------------------------------------------------- quotas

  /** So is the update step of the quota race. */
  lemma QuotaUpdateIsTheCall(p: Q.System, s: State, tenant: string, w: nat)
    requires tenant in s.quotas && p.stored == s.quotas[tenant]
    requires Q.WorkerOf(p, w).Reserving? || Q.WorkerOf(p, w).Settling?
    ensures
      var copy := Q.WorkerOf(p, w).copy;
      var n, (t, o) := Q.Next(p, Q.Update(w)), UpdatedQuota(s, tenant, copy, copy.version - 1);
      && tenant in t.quotas && n.stored == t.quotas[tenant]
      && (Q.WorkerOf(p, w).Reserving? ==> (o.Pass? <==> Q.WorkerOf(n, w).Holding?))
      && (Q.WorkerOf(p, w).Settling? ==> n.lost == if o.Pass? then p.lost else p.lost + Q.WorkerOf(p, w).n)
  {
  }

  // ---------------------------------------------------------------- replication

  /** And both updates of a replication. */
  lemma ReplicationUpdateIsTheCall(p: R.System, s: State, id: string, w: nat)
    requires id in s.replications && p.stored == s.replications[id]
    requires R.WorkerOf(p, w).Claiming? || R.WorkerOf(p, w).Finishing?
    ensures
      var task := R.WorkerOf(p, w).task;
      var step := if R.WorkerOf(p, w).Claiming? then R.ClaimUpdate(w) else R.FinishUpdate(w);
      var n, (t, o) := R.Next(p, step), UpdatedReplication(s, id, task, task.version - 1);
      && id in t.replications && n.stored == t.replications[id]
      && (o.Pass? <==> |n.log| == |p.log| + 1) && (o.Fail? ==> n.log == p.log)
  {
  }
}
