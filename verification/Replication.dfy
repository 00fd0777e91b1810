/** Replication tasks: a lease taken by claiming, a version that fences every write, and the protocol
    that any number of RunReplication calls make of them. */
module Replication {
  import opened Basics

  datatype TaskState = Queued | Running | Succeeded | Failed | Cancelled

  /** time.Time{}: the first instant of year 1, in nanoseconds since 1970. */
  const ZERO_TIME := -62_135_596_800_000_000_000

  /** The lease of one claim: five minutes, in nanoseconds. */
  const LEASE := 300_000_000_000

  datatype TaskValue = TaskValue(
    state: TaskState, bytesCopied: int, attempts: int, lastError: string, leaseUntil: int, version: int)

  function Claimed(t: TaskValue, until: int, now: int): Result<TaskValue> {
    if t.state.Succeeded? || t.state.Cancelled? then Failure(InvalidStateTransition)
    else if t.leaseUntil > now then Failure(LeaseActive)
    else Success(t.(state := Running, leaseUntil := until, attempts := t.attempts + 1, version := t.version + 1))
  }

  datatype CopyResult = NoReplicator | CopyFailed(n: int, message: string) | Copied(n: int)

  /** What RunReplication makes of the claimed task once the copy has ended. */
  function Finished(t: TaskValue, result: CopyResult): TaskValue {
    match result
    case NoReplicator =>
      t.(state := Failed, lastError := "capability not implemented", leaseUntil := ZERO_TIME, version := t.version + 1)
    case CopyFailed(n, message) =>
      t.(bytesCopied := n, state := Failed, lastError := message, leaseUntil := ZERO_TIME, version := t.version + 1)
    case Copied(n) => t.(bytesCopied := n, state := Succeeded, leaseUntil := ZERO_TIME, version := t.version + 1)
  }

  class ReplicationTask {
    const id: string
    var state: TaskState
    var bytesCopied: int
    var attempts: int
    var lastError: string
    var leaseUntil: int
    var version: int

    constructor (id: string, v: TaskValue)
      ensures Value() == v && this.id == id
    {
      this.id := id;
      state, bytesCopied, attempts := v.state, v.bytesCopied, v.attempts;
      lastError, leaseUntil, version := v.lastError, v.leaseUntil, v.version;
    }

    function Value(): TaskValue
      reads this
    {
      TaskValue(state, bytesCopied, attempts, lastError, leaseUntil, version)
    }

    method Claim(until: int, now: int) returns (r: Outcome)
      modifies this
      ensures match Claimed(old(Value()), until, now)
              case Success(v) => r.Pass? && Value() == v
              case Failure(e) => r == Outcome.Fail(e) && Value() == old(Value())
    {
      if state.Succeeded? || state.Cancelled? { return Outcome.Fail(InvalidStateTransition); }
      if leaseUntil > now { return Outcome.Fail(LeaseActive); }
      state := Running;
      leaseUntil := until;
      attempts := attempts + 1;
      version := version + 1;
      return Pass;
    }

    method Succeed()
      modifies this
      ensures Value() == Finished(old(Value()), Copied(old(bytesCopied)))
    {
      state := Succeeded;
      leaseUntil := ZERO_TIME;
      version := version + 1;
    }

    method Fail(message: string)
      modifies this
      ensures Value() == Finished(old(Value()), CopyFailed(old(bytesCopied), message))
    {
      state := Failed;
      lastError := message;
      leaseUntil := ZERO_TIME;
      version := version + 1;
    }
  }

  /** A task as it is created. */
  const NEW_TASK := TaskValue(Queued, 0, 0, "", ZERO_TIME, 1)

  // ---------------------------------------------------------------- the protocol

  /** Where one RunReplication call stands. */
  datatype Worker =
    | Idle
    | Loaded(task: TaskValue)
    | Claiming(task: TaskValue, at: int)
    | Copying(task: TaskValue)
    | Finishing(task: TaskValue, ok: bool)

  /** What the compare-and-sets that succeeded have done, oldest first. */
  datatype Entry =
    | ClaimEntry(worker: nat, version: int, at: int, lease: int)
    | FinishEntry(worker: nat, claim: int, ok: bool)

  datatype System = System(stored: TaskValue, workers: map<nat, Worker>, log: seq<Entry>)

  datatype Step =
    | Load(w: nat)
    | Claim(w: nat, now: int)
    | ClaimUpdate(w: nat)
    | Copy(w: nat, result: CopyResult)
    | FinishUpdate(w: nat)

  function WorkerOf(s: System, w: nat): Worker {
    if w in s.workers then s.workers[w] else Idle
  }

  function Goes(s: System, w: nat, to: Worker): System {
    s.(workers := s.workers[w := to])
  }

  function Next(s: System, step: Step): System {
    var worker := WorkerOf(s, step.w);
    match step
    case Load(w) => if worker.Idle? then Goes(s, w, Loaded(s.stored)) else s
    case Claim(w, now) =>
      if !worker.Loaded? then s
      else
        (match Claimed(worker.task, now + LEASE, now)
         case Success(v) => Goes(s, w, Claiming(v, now))
         case Failure(_) => Goes(s, w, Idle))
    case ClaimUpdate(w) =>
      if !worker.Claiming? then s
      else if s.stored.version != worker.task.version - 1 then Goes(s, w, Idle)
      else
        var t := worker.task;
        System(t, s.workers[w := Copying(t)], s.log + [ClaimEntry(w, t.version, worker.at, t.leaseUntil)])
    case Copy(w, result) =>
      if worker.Copying? then Goes(s, w, Finishing(Finished(worker.task, result), result.Copied?)) else s
    case FinishUpdate(w) =>
      if !worker.Finishing? then s
      else if s.stored.version != worker.task.version - 1 then Goes(s, w, Idle)
      else
        var t := worker.task;
        System(t, s.workers[w := Idle], s.log + [FinishEntry(w, t.version - 1, worker.ok)])
  }

  function Run(init: TaskValue, steps: seq<Step>): System {
    if steps == [] then System(init, map[], [])
    else Next(Run(init, steps[..|steps| - 1]), steps[|steps| - 1])
  }

  function Last(log: seq<Entry>): Entry
    requires log != []
  {
    log[|log| - 1]
  }

  /** The newest entry of the log is worker `w`'s claim of version `v`. */
  predicate Holds(s: System, w: nat, v: int) {
    s.log != [] && Last(s.log).ClaimEntry? && Last(s.log).worker == w && Last(s.log).version == v
  }

  /** The stored task is what the newest entry of the log made it. */
  ghost predicate StoredMatchesLog(s: System, base: int) {
    && s.stored.version == base + |s.log|
    && (s.log != [] ==>
          match Last(s.log)
          case ClaimEntry(_, version, _, lease) =>
            s.stored.state == Running && s.stored.leaseUntil == lease && s.stored.version == version
          case FinishEntry(_, _, ok) => s.stored.state == if ok then Succeeded else Failed)
  }

  ghost predicate WorkerOk(s: System, w: nat) {
    var worker, stored := WorkerOf(s, w), s.stored;
    && (worker.Loaded? ==>
          && worker.task.version <= stored.version
          && (worker.task.version == stored.version ==> worker.task == stored))
    && (worker.Claiming? ==>
          && worker.task.version <= stored.version + 1
          && (worker.task.version == stored.version + 1 ==>
                Claimed(stored, worker.at + LEASE, worker.at) == Success(worker.task)))
    && (worker.Copying? ==>
          && worker.task.version <= stored.version
          && (worker.task.version == stored.version ==> worker.task == stored && Holds(s, w, stored.version)))
    && (worker.Finishing? ==>
          && worker.task.version <= stored.version + 1
          && worker.task.state == (if worker.ok then Succeeded else Failed)
          && (worker.task.version == stored.version + 1 ==> Holds(s, w, stored.version)))
  }

  /** Entry i of the log in the light of the entry before it. */
  ghost predicate EntryOk(log: seq<Entry>, i: int, base: int)
    requires 0 <= i < |log|
  {
    match log[i]
    case ClaimEntry(_, version, at, lease) =>
      && version == base + i + 1
      && lease == at + LEASE
      && (i > 0 && log[i - 1].ClaimEntry? ==> at >= log[i - 1].lease)
      && (i > 0 && log[i - 1].FinishEntry? ==> !log[i - 1].ok)
    case FinishEntry(worker, claim, _) =>
      i > 0 && log[i - 1].ClaimEntry? && log[i - 1].worker == worker && log[i - 1].version == claim
  }

  ghost predicate LogOk(log: seq<Entry>, base: int) {
    forall i :: 0 <= i < |log| ==> EntryOk(log, i, base)
  }

  ghost predicate Inv(s: System, base: int) {
    && StoredMatchesLog(s, base)
    && LogOk(s.log, base)
    && forall w :: WorkerOk(s, w)
  }

  lemma NextKeepsInv(s: System, step: Step, base: int)
    requires Inv(s, base)
    ensures Inv(Next(s, step), base)
    ensures s.log <= Next(s, step).log
  {
    var n := Next(s, step);
    assert WorkerOk(s, step.w);
    forall i | 0 <= i < |n.log| ensures EntryOk(n.log, i, base) {
      if i < |s.log| { assert EntryOk(s.log, i, base); }
    }
    forall w ensures WorkerOk(n, w) {
      assert WorkerOk(s, w);
    }
  }

  lemma {:induction false} RunKeepsInv(init: TaskValue, steps: seq<Step>)
    ensures Inv(Run(init, steps), init.version)
    decreases |steps|
  {
    if steps != [] {
      RunKeepsInv(init, steps[..|steps| - 1]);
      NextKeepsInv(Run(init, steps[..|steps| - 1]), steps[|steps| - 1], init.version);
    }
  }

  /** What EntryOk says of entry i and of its two neighbours. */
  ghost predicate EntryFacts(log: seq<Entry>, i: int, base: int)
    requires 0 <= i < |log|
  {
    && (log[i].ClaimEntry? ==> log[i].version == base + i + 1 && log[i].lease == log[i].at + LEASE)
    && (log[i].ClaimEntry? && i + 1 < |log| && log[i + 1].ClaimEntry? ==> log[i + 1].at >= log[i].lease)
    && (log[i].FinishEntry? ==>
          && i > 0 && log[i - 1].ClaimEntry?
          && log[i - 1].worker == log[i].worker && log[i - 1].version == log[i].claim == base + i)
    && (log[i].FinishEntry? && log[i].ok ==> i == |log| - 1)
  }

  lemma EntriesAreFacts(init: TaskValue, steps: seq<Step>, log: seq<Entry>, i: nat)
    requires log == Run(init, steps).log && i < |log|
    ensures EntryFacts(log, i, init.version)
  {
    RunKeepsInv(init, steps);
    assert EntryOk(log, i, init.version);
    if i > 0 { assert EntryOk(log, i - 1, init.version); }
    if i + 1 < |log| { assert EntryOk(log, i + 1, init.version); }
  }

  /** In every interleaving: a finish follows directly the claim it finishes, by the same worker; no claim
      is finished twice; a claim that somebody else's claim followed is never finished; and nothing
      follows a success. */
  lemma LeaseFencing(init: TaskValue, steps: seq<Step>, log: seq<Entry>, i: nat, j: nat)
    requires log == Run(init, steps).log
    requires i < |log| && j < |log| && log[j].FinishEntry?
    ensures j > 0 && log[j - 1].ClaimEntry? && log[j - 1].worker == log[j].worker && log[j - 1].version == log[j].claim
    ensures log[i].FinishEntry? && i != j ==> log[i].claim != log[j].claim
    ensures log[i].ClaimEntry? && i + 1 < |log| && log[i + 1].ClaimEntry? ==> log[j].claim != log[i].version
    ensures log[j].ok ==> j == |log| - 1
  {
    EntriesAreFacts(init, steps, log, i);
    EntriesAreFacts(init, steps, log, j);
  }

  /** Two successful claims with no finish between them: the later one read a clock at or past the
      end of the earlier one's lease, however many claims lie between. */
  lemma {:induction false} LeasesAreRespected(init: TaskValue, steps: seq<Step>, log: seq<Entry>, i: nat, j: nat)
    requires log == Run(init, steps).log && i < j < |log|
    requires forall k :: i <= k <= j ==> log[k].ClaimEntry?
    ensures log[j].at >= log[i].lease && log[j].at >= log[i].at + 300_000_000_000
    decreases j - i
  {
    EntriesAreFacts(init, steps, log, j - 1);
    EntriesAreFacts(init, steps, log, i);
    assert log[j].at >= log[j - 1].lease == log[j - 1].at + LEASE;
    if i < j - 1 { LeasesAreRespected(init, steps, log, i, j - 1); }
  }

  /** A worker's finishing update takes effect exactly when its own claim is still the newest update. */
  lemma FinishTakesEffectIff(init: TaskValue, steps: seq<Step>, s: System, w: nat, t: TaskValue, ok: bool)
    requires s == Run(init, steps) && WorkerOf(s, w) == Finishing(t, ok)
    ensures Holds(s, w, t.version - 1) ==>
      Next(s, FinishUpdate(w)).stored == t &&
        Next(s, FinishUpdate(w)).log == s.log + [FinishEntry(w, t.version - 1, ok)]
    ensures !Holds(s, w, t.version - 1) ==>
      Next(s, FinishUpdate(w)).stored == s.stored && Next(s, FinishUpdate(w)).log == s.log
  {
    RunKeepsInv(init, steps);
    assert WorkerOk(s, w);
    if Holds(s, w, t.version - 1) {
      assert s.stored.version == Last(s.log).version;
    }
  }

  /** Once the stored task has succeeded, no step of any worker changes it. */
  lemma {:induction false} SucceededIsAbsorbing(init: TaskValue, steps: seq<Step>, more: seq<Step>)
    requires Run(init, steps).stored.state == Succeeded
    ensures Run(init, steps + more).stored == Run(init, steps).stored
    decreases |more|
  {
    if more == [] {
      assert steps + more == steps;
    } else {
      var front, all := more[..|more| - 1], steps + more;
      SucceededIsAbsorbing(init, steps, front);
      RunKeepsInv(init, steps + front);
      assert all[..|all| - 1] == steps + front && all[|all| - 1] == more[|more| - 1];
      assert WorkerOk(Run(init, steps + front), all[|all| - 1].w);
    }
  }
}
