/** When the replication calls succeed, what they answer otherwise, and what they leave. */
module ReplicationAnswers {
  import opened Basics
  import opened Text
  import opened Store
  import opened Lifecycle
  import opened NameAnswers
  import R = Replication

  predicate Inked(v: string) {
    exists i :: 0 <= i < |v| && !IsSpace(v[i])
  }

  /** A replication is queued exactly for a stored repository and a target that is not blank, under the given id or,
      when that is blank, the generated one. Any worker may claim it at once. */
  lemma CreateReplicationAnswers(s: State, source: string, target: string, id: string, generated: string)
    ensures
      var (t, o) := ReplicationCreated(s, source, target, id, generated);
      var name := if Inked(id) then id else generated;
      && (o.Pass? <==> source in s.repos && Inked(target))
      && (o.Fail? ==> t == s)
      && (o.Fail? ==> o.error == if source in s.repos then Validation("target") else ManifestNotFound)
      && (o.Pass? ==>
            t == s.(replications :=
              s.replications[name := R.TaskValue(R.Queued, 0, 0, "", -62_135_596_800_000_000_000, 1)]))
  {
    BlankIsSpace(target);
    BlankIsSpace(id);
  }

  predicate Claimable(s: State, id: string, now: int) {
    && id in s.replications && s.replications[id].leaseUntil <= now
    && !s.replications[id].state.Succeeded? && !s.replications[id].state.Cancelled?
  }

  /** The task has been claimed and finished: two versions and one attempt on, without a lease. */
  predicate IsFinished(t: R.TaskValue, v: R.TaskValue, result: R.CopyResult) {
    && v.version == t.version + 2 && v.attempts == t.attempts + 1 && v.leaseUntil == -62_135_596_800_000_000_000
    && match result
       case Copied(n) => v.state == R.Succeeded && v.bytesCopied == n && v.lastError == t.lastError
       case CopyFailed(n, message) => v.state == R.Failed && v.bytesCopied == n && v.lastError == message
       case NoReplicator =>
         v.state == R.Failed && v.bytesCopied == t.bytesCopied && v.lastError == "capability not implemented"
  }

  /** A task is run exactly when it is there, neither done nor cancelled, and nobody's lease on it is running. */
  lemma RunReplicationAnswers(s: State, id: string, now: int, result: R.CopyResult)
    ensures
      var (t, r) := ReplicationRan(s, id, now, result);
      && (r.Success? <==> Claimable(s, id, now))
      && (r.Failure? ==> t == s)
      && (r.Failure? ==>
            r.error == if id !in s.replications then ManifestNotFound
                       else if s.replications[id].state.Succeeded? || s.replications[id].state.Cancelled?
                       then InvalidStateTransition else LeaseActive)
      && (r.Success? ==>
            t == s.(replications := s.replications[id := r.value]) && IsFinished(s.replications[id], r.value, result))
  {
  }

  /** A second claim within five minutes of a claim is refused, and from then on it is not. */
  lemma LeaseLastsFiveMinutes(t: R.TaskValue, w: nat, p: R.System, now: int, later: int)
    requires p.stored == t && R.WorkerOf(p, w) == R.Loaded(t) && R.Claimed(t, now + R.LEASE, now).Success?
    ensures
      var stored := R.Next(R.Next(p, R.Claim(w, now)), R.ClaimUpdate(w)).stored;
      R.Claimed(stored, later + R.LEASE, later).Success? <==> now + 300_000_000_000 <= later
    ensures
      var stored := R.Next(R.Next(p, R.Claim(w, now)), R.ClaimUpdate(w)).stored;
      later < now + 300_000_000_000 ==> R.Claimed(stored, later + R.LEASE, later) == Failure(LeaseActive)
  {
    var claimed := R.Claimed(t, now + R.LEASE, now).value;
    var claiming := R.Next(p, R.Claim(w, now));
    assert R.WorkerOf(claiming, w) == R.Claiming(claimed, now);
  }
}
