/** Uploads of one tenant that interleave on its quota: each call reads the quota, changes its copy, and writes it
    back with a compare-and-set on the version. A reservation that loses is refused; a release or a commit that
    loses is dropped. */
module QuotaRace {
  import opened Basics
  import opened Upload
  import opened Policy
  import opened Store
  import opened Registry
  import opened Effects

  /** Where one upload stands: `copy` is what its call is about to store, `n` the announced size. */
  datatype Worker =
    | Idle
    | Reserving(copy: QuotaValue, n: int)
    | Holding(n: int)
    | Settling(copy: QuotaValue, n: int, commit: bool)

  /** The stored quota, the uploads, the bytes of dropped releases and commits, and the bytes that were committed. */
  datatype System = System(stored: QuotaValue, workers: map<nat, Worker>, lost: int, committed: int)

  /** Ask and Give read the quota; Update is the compare-and-set; Reset is what creating a repository does. */
  datatype Step = Ask(w: nat, n: int) | Give(w: nat, commit: bool) | Update(w: nat) | Reset(limit: int)

  function WorkerOf(s: System, w: nat): Worker {
    if w in s.workers then s.workers[w] else Idle
  }

  function Goes(s: System, w: nat, to: Worker): System {
    s.(workers := s.workers[w := to])
  }

  /** A completed upload commits what it announced, which the finalize guard makes its actual size. */
  function Settled(q: QuotaValue, n: int, commit: bool): Result<QuotaValue> {
    if commit then Committed(q, n, n) else Released(q, n)
  }

  function Next(s: System, step: Step): System {
    match step
    case Ask(w, n) =>
      if !WorkerOf(s, w).Idle? || Reserved(s.stored, n).Failure? then s
      else Goes(s, w, Reserving(Reserved(s.stored, n).value, n))
    case Give(w, commit) =>
      if !WorkerOf(s, w).Holding? then s
      else
        var n := WorkerOf(s, w).n;
        (match Settled(s.stored, n, commit)
         case Success(q) => Goes(s, w, Settling(q, n, commit))
         case Failure(_) => Goes(s, w, Idle).(lost := s.lost + n))
    case Update(w) =>
      (match WorkerOf(s, w)
       case Reserving(q, n) =>
         if s.stored.version == q.version - 1 then Goes(s, w, Holding(n)).(stored := q) else Goes(s, w, Idle)
       case Settling(q, n, commit) =>
         if s.stored.version == q.version - 1
         then Goes(s, w, Idle).(stored := q, committed := s.committed + if commit then n else 0)
         else Goes(s, w, Idle).(lost := s.lost + n)
       case _ => s)
    case Reset(limit) => s.(stored := QuotaValue(limit, 0, 0, 1))
  }

  function Run(init: QuotaValue, steps: seq<Step>): System {
    if steps == [] then System(init, map[], 0, 0)
    else Next(Run(init, steps[..|steps| - 1]), steps[|steps| - 1])
  }

  /** Nobody creates a repository for the tenant meanwhile. */
  predicate NoReset(steps: seq<Step>) {
    forall i :: 0 <= i < |steps| ==> !steps[i].Reset?
  }

  // ---------------------------------------------------------------- what the uploads hold

  function Share(worker: Worker): int {
    match worker
    case Holding(n) => n
    case Settling(_, n, _) => n
    case _ => 0
  }

  ghost function Held(workers: map<nat, Worker>): int
    decreases |workers|
  {
    if workers == map[] then 0
    else
      var w :| w in workers;
      Share(workers[w]) + Held(workers - {w})
  }

  lemma {:induction false} HeldSplits(workers: map<nat, Worker>, w: nat)
    requires w in workers
    ensures Held(workers) == Share(workers[w]) + Held(workers - {w})
    decreases |workers|
  {
    var first :| first in workers && Held(workers) == Share(workers[first]) + Held(workers - {first});
    if first != w {
      HeldSplits(workers - {first}, w);
      HeldSplits(workers - {w}, first);
      assert workers - {first} - {w} == workers - {w} - {first};
    }
  }

  lemma HeldMoves(s: System, w: nat, to: Worker)
    ensures Held(Goes(s, w, to).workers) == Held(s.workers) - Share(WorkerOf(s, w)) + Share(to)
  {
    var after := s.workers[w := to];
    HeldSplits(after, w);
    assert after - {w} == s.workers - {w};
    if w in s.workers { HeldSplits(s.workers, w); } else { assert s.workers - {w} == s.workers; }
  }

  ghost predicate SharesOk(workers: map<nat, Worker>) {
    forall w :: w in workers && !workers[w].Idle? ==> 0 <= workers[w].n
  }

  lemma {:induction false} HeldIsNat(workers: map<nat, Worker>)
    requires SharesOk(workers)
    ensures 0 <= Held(workers)
    decreases |workers|
  {
    if workers != map[] {
      var w :| w in workers;
      HeldSplits(workers, w);
      HeldIsNat(workers - {w});
    }
  }

  lemma HeldCovers(workers: map<nat, Worker>, w: nat)
    requires SharesOk(workers) && w in workers
    ensures Share(workers[w]) <= Held(workers)
  {
    HeldSplits(workers, w);
    HeldIsNat(workers - {w});
  }

  // ---------------------------------------------------------------- the invariant

  /** A copy is at most one version ahead, and then it is what the call makes of the stored quota. */
  ghost predicate WorkerOk(s: System, w: nat) {
    match WorkerOf(s, w)
    case Reserving(q, n) =>
      q.version <= s.stored.version + 1 && (q.version == s.stored.version + 1 ==> Reserved(s.stored, n) == Success(q))
    case Settling(q, n, commit) =>
      && q.version <= s.stored.version + 1
      && (q.version == s.stored.version + 1 ==> Settled(s.stored, n, commit) == Success(q))
    case _ => true
  }

  /** The reserved bytes are those of the start, those that uploads hold, and those that were lost. */
  ghost predicate Inv(s: System, init: QuotaValue) {
    && QuotaOk(s.stored) && s.stored.limit == init.limit
    && SharesOk(s.workers) && 0 <= s.lost && 0 <= s.committed
    && s.stored.reserved == init.reserved + Held(s.workers) + s.lost
    && s.stored.used == init.used + s.committed
    && forall w: nat :: WorkerOk(s, w)
  }

  /** Only the upload's own place changes. */
  lemma LocalKeepsInv(s: System, init: QuotaValue, w: nat, to: Worker, lost: int)
    requires Inv(s, init) && 0 <= lost && Share(WorkerOf(s, w)) == Share(to) + lost
    requires to.Idle? || 0 <= to.n
    requires WorkerOk(Goes(s, w, to), w)
    ensures Inv(Goes(s, w, to).(lost := s.lost + lost), init)
  {
    HeldMoves(s, w, to);
    var n := Goes(s, w, to).(lost := s.lost + lost);
    forall i: nat ensures WorkerOk(n, i) {
      assert WorkerOk(s, i);
    }
  }

  /** A compare-and-set that succeeds: no other copy is current any more. */
  lemma StoredKeepsInv(s: System, init: QuotaValue, w: nat, to: Worker, q: QuotaValue, committed: int)
    requires Inv(s, init) && QuotaOk(q) && q.limit == init.limit && q.version == s.stored.version + 1
    requires to.Idle? || (to.Holding? && 0 <= to.n)
    requires q.reserved == s.stored.reserved - Share(WorkerOf(s, w)) + Share(to)
    requires 0 <= committed && q.used == s.stored.used + committed
    ensures Inv(Goes(s, w, to).(stored := q, committed := s.committed + committed), init)
  {
    HeldMoves(s, w, to);
    var n := Goes(s, w, to).(stored := q, committed := s.committed + committed);
    forall i: nat ensures WorkerOk(n, i) {
      assert WorkerOk(s, i);
    }
  }

  lemma UpdateKeepsInv(s: System, init: QuotaValue, w: nat)
    requires Inv(s, init)
    ensures Inv(Next(s, Update(w)), init)
  {
    assert WorkerOk(s, w);
    match WorkerOf(s, w)
    case Reserving(q, n) =>
      if s.stored.version == q.version - 1 {
        StoredKeepsInv(s, init, w, Holding(n), q, 0);
      } else {
        LocalKeepsInv(s, init, w, Idle, 0);
      }
    case Settling(q, n, commit) =>
      if s.stored.version == q.version - 1 {
        StoredKeepsInv(s, init, w, Idle, q, if commit then n else 0);
      } else {
        LocalKeepsInv(s, init, w, Idle, n);
      }
    case _ =>
  }

  lemma AskKeepsInv(s: System, init: QuotaValue, w: nat, n: int)
    requires Inv(s, init)
    ensures Inv(Next(s, Ask(w, n)), init)
  {
    if WorkerOf(s, w).Idle? && Reserved(s.stored, n).Success? {
      LocalKeepsInv(s, init, w, Reserving(Reserved(s.stored, n).value, n), 0);
    }
  }

  /** What an upload holds can always be given back: only the compare-and-set can lose it. */
  lemma GiveIsRead(s: System, init: QuotaValue, w: nat, commit: bool)
    requires Inv(s, init) && 0 <= init.reserved && WorkerOf(s, w).Holding?
    ensures Settled(s.stored, WorkerOf(s, w).n, commit).Success?
  {
    HeldCovers(s.workers, w);
  }

  lemma GiveKeepsInv(s: System, init: QuotaValue, w: nat, commit: bool)
    requires Inv(s, init) && 0 <= init.reserved
    ensures Inv(Next(s, Give(w, commit)), init)
  {
    if WorkerOf(s, w).Holding? {
      var n := WorkerOf(s, w).n;
      GiveIsRead(s, init, w, commit);
      LocalKeepsInv(s, init, w, Settling(Settled(s.stored, n, commit).value, n, commit), 0);
    }
  }

  lemma NextKeepsInv(s: System, init: QuotaValue, step: Step)
    requires Inv(s, init) && 0 <= init.reserved && !step.Reset?
    ensures Inv(Next(s, step), init)
  {
    match step
    case Ask(w, n) => AskKeepsInv(s, init, w, n);
    case Give(w, commit) => GiveKeepsInv(s, init, w, commit);
    case Update(w) => UpdateKeepsInv(s, init, w);
  }

  lemma {:induction false} RunKeepsInv(init: QuotaValue, steps: seq<Step>)
    requires QuotaOk(init) && NoReset(steps)
    ensures Inv(Run(init, steps), init)
    decreases |steps|
  {
    if steps != [] {
      RunKeepsInv(init, steps[..|steps| - 1]);
      NextKeepsInv(Run(init, steps[..|steps| - 1]), init, steps[|steps| - 1]);
    }
  }

  // ---------------------------------------------------------------- what every interleaving keeps

  /** In every interleaving the stored quota is exact up to what was dropped: reserved are the bytes that were
      reserved at the start, those of the uploads under way, and the lost ones; used are those of the start and the
      committed ones; and the bounds hold. */
  lemma QuotaIsExact(init: QuotaValue, steps: seq<Step>)
    requires QuotaOk(init) && NoReset(steps)
    ensures
      var s := Run(init, steps);
      && s.stored.reserved == init.reserved + Held(s.workers) + s.lost
      && s.stored.used == init.used + s.committed
      && 0 <= s.lost && QuotaOk(s.stored) && s.stored.limit == init.limit
  {
    RunKeepsInv(init, steps);
  }

  /** Once no upload is under way, bytes are still reserved exactly as far as releases or commits were dropped. */
  lemma StuckIffLost(init: QuotaValue, steps: seq<Step>)
    requires QuotaOk(init) && NoReset(steps)
    requires forall w: nat :: Share(WorkerOf(Run(init, steps), w)) == 0
    ensures Run(init, steps).stored.reserved == init.reserved <==> Run(init, steps).lost == 0
    ensures Run(init, steps).stored.reserved >= init.reserved
  {
    RunKeepsInv(init, steps);
    var workers := Run(init, steps).workers;
    forall w | w in workers ensures Share(workers[w]) == 0 {
      assert Share(WorkerOf(Run(init, steps), w)) == 0;
    }
    NothingHeld(workers);
  }

  lemma {:induction false} NothingHeld(workers: map<nat, Worker>)
    requires forall w :: w in workers ==> Share(workers[w]) == 0
    ensures Held(workers) == 0
    decreases |workers|
  {
    if workers != map[] {
      var w :| w in workers;
      HeldSplits(workers, w);
      NothingHeld(workers - {w});
    }
  }

  /** None of the steps is the upload's. */
  predicate Elsewhere(steps: seq<Step>, w: nat) {
    forall i :: 0 <= i < |steps| ==> !steps[i].Reset? && steps[i].w != w
  }

  /** Without a reset the version tells whether the quota was updated, and an upload that does nothing stays. */
  lemma {:induction false} RunGoesOn(init: QuotaValue, steps: seq<Step>, more: seq<Step>, w: nat)
    requires QuotaOk(init) && NoReset(steps) && Elsewhere(more, w)
    ensures NoReset(steps + more)
    ensures
      var s, t := Run(init, steps), Run(init, steps + more);
      && WorkerOf(t, w) == WorkerOf(s, w)
      && s.stored.version <= t.stored.version && s.lost <= t.lost
      && (t.stored.version == s.stored.version <==> t.stored == s.stored)
    decreases |more|
  {
    var all := steps + more;
    if more == [] {
      assert all == steps;
    } else {
      var front, last := more[..|more| - 1], more[|more| - 1];
      RunGoesOn(init, steps, front, w);
      assert all[..|all| - 1] == steps + front && all[|all| - 1] == last;
      RunKeepsInv(init, steps + front);
      assert WorkerOk(Run(init, steps + front), last.w);
    }
  }

  /** A release or commit takes effect exactly when nobody updated the quota between its read and its
      compare-and-set; otherwise its bytes stay reserved for good. */
  lemma SettleIsLostIff(init: QuotaValue, steps: seq<Step>, w: nat, commit: bool, more: seq<Step>)
    requires QuotaOk(init) && NoReset(steps) && WorkerOf(Run(init, steps), w).Holding? && Elsewhere(more, w)
    ensures
      var n, s := WorkerOf(Run(init, steps), w).n, Run(init, steps);
      var t := Run(init, steps + [Give(w, commit)] + more);
      var u := Next(t, Update(w));
      && 0 <= n
      && (t.stored == s.stored ==> Success(u.stored) == Settled(s.stored, n, commit) && u.lost == t.lost)
      && (t.stored != s.stored ==> u.stored == t.stored && u.lost == t.lost + n)
  {
    var read := steps + [Give(w, commit)];
    assert read[..|read| - 1] == steps;
    RunKeepsInv(init, steps);
    GiveIsRead(Run(init, steps), init, w, commit);
    RunGoesOn(init, read, more, w);
  }

  // ---------------------------------------------------------------- the calls are runs of these steps

  /** An uninterrupted reservation is a read and an update. */
  lemma ReserveIsTwoSteps(s: State, tenant: string, n: int, p: System, w: nat)
    requires tenant in s.quotas && p.stored == s.quotas[tenant] && WorkerOf(p, w).Idle?
    ensures
      var t := Next(Next(p, Ask(w, n)), Update(w));
      && tenant in Reserve(s, tenant, n).0.quotas && t.stored == Reserve(s, tenant, n).0.quotas[tenant]
      && (WorkerOf(t, w) == Holding(n) <==> Reserve(s, tenant, n).1.Pass?)
  {
    ReserveEffect(s, tenant, n);
  }

  /** So is an uninterrupted release. */
  lemma ReleaseIsTwoSteps(s: State, u: SessionValue, p: System, w: nat)
    requires u.tenant in s.quotas && p.stored == s.quotas[u.tenant]
    requires u.expectedSize.Some? && WorkerOf(p, w) == Holding(u.expectedSize.value)
    ensures u.tenant in ReleaseReservation(s, u).quotas
    ensures Next(Next(p, Give(w, false)), Update(w)).stored == ReleaseReservation(s, u).quotas[u.tenant]
  {
    var n := u.expectedSize.value;
    ReleaseEffect(s, u.tenant, n);
    match Settled(p.stored, n, false)
    case Success(q) => assert WorkerOf(Next(p, Give(w, false)), w) == Settling(q, n, false);
    case Failure(_) => assert Next(p, Give(w, false)).stored == p.stored;
  }

  /** And an uninterrupted commit of what was announced. */
  lemma CommitIsTwoSteps(s: State, u: SessionValue, p: System, w: nat)
    requires u.tenant in s.quotas && p.stored == s.quotas[u.tenant]
    requires u.expectedSize.Some? && WorkerOf(p, w) == Holding(u.expectedSize.value)
    ensures u.tenant in CommitReservation(s, u, u.expectedSize.value).quotas
    ensures Next(Next(p, Give(w, true)), Update(w)).stored ==
        CommitReservation(s, u, u.expectedSize.value).quotas[u.tenant]
  {
    var n := u.expectedSize.value;
    CommitEffect(s, u, n);
    match Settled(p.stored, n, true)
    case Success(q) => assert WorkerOf(Next(p, Give(w, true)), w) == Settling(q, n, true);
    case Failure(_) => assert Next(p, Give(w, true)).stored == p.stored;
  }

  // ---------------------------------------------------------------- two interleavings

  lemma RunsNext(init: QuotaValue, steps: seq<Step>, step: Step)
    ensures Run(init, steps + [step]) == Next(Run(init, steps), step)
  {
    assert (steps + [step])[..|steps|] == steps;
  }

  lemma RunsFour(init: QuotaValue, steps: seq<Step>, a: Step, b: Step, c: Step, d: Step)
    ensures Run(init, steps + [a] + [b] + [c] + [d]) == Next(Next(Next(Next(Run(init, steps), a), b), c), d)
  {
    RunsNext(init, steps, a);
    RunsNext(init, steps + [a], b);
    RunsNext(init, steps + [a] + [b], c);
    RunsNext(init, steps + [a] + [b] + [c], d);
  }

  const FRESH := QuotaValue(10, 0, 0, 1)

  /** Two uploads of five bytes start, and are aborted at the same time. */
  function TwoStarts(none: seq<Step>): seq<Step> { none + [Ask(0, 5)] + [Update(0)] + [Ask(1, 5)] + [Update(1)] }

  function TwoAborts(started: seq<Step>): seq<Step> {
    started + [Give(0, false)] + [Give(1, false)] + [Update(0)] + [Update(1)]
  }

  /** The first of two uploads that start. */
  lemma OneStarts(p: System, w: nat, n: int)
    requires WorkerOf(p, w).Idle? && Reserved(p.stored, n).Success?
    ensures
      var s := Next(Next(p, Ask(w, n)), Update(w));
      && s == p.(stored := Reserved(p.stored, n).value, workers := s.workers) && WorkerOf(s, w) == Holding(n)
      && forall i: nat :: i != w ==> WorkerOf(s, i) == WorkerOf(p, i)
  {
    assert WorkerOf(Next(p, Ask(w, n)), w) == Reserving(Reserved(p.stored, n).value, n);
  }

  lemma BothHold(init: QuotaValue, none: seq<Step>)
    requires init == FRESH && none == []
    ensures
      var s := Run(init, TwoStarts(none));
      s.stored == QuotaValue(10, 0, 10, 3) && WorkerOf(s, 0) == WorkerOf(s, 1) == Holding(5) && s.lost == 0
  {
    var p := Run(init, none);
    OneStarts(p, 0, 5);
    OneStarts(Next(Next(p, Ask(0, 5)), Update(0)), 1, 5);
    RunsFour(init, none, Ask(0, 5), Update(0), Ask(1, 5), Update(1));
  }

  lemma AbortsCollide(p: System)
    requires p.stored == QuotaValue(10, 0, 10, 3) && WorkerOf(p, 0) == WorkerOf(p, 1) == Holding(5) && p.lost == 0
    ensures
      var s := Next(Next(Next(Next(p, Give(0, false)), Give(1, false)), Update(0)), Update(1));
      s.stored == QuotaValue(10, 0, 5, 4) && WorkerOf(s, 0) == WorkerOf(s, 1) == Idle && s.lost == 5
  {
    var a := Next(p, Give(0, false));
    var b := Next(a, Give(1, false));
    assert WorkerOf(a, 0) == Settling(QuotaValue(10, 0, 5, 4), 5, false) && WorkerOf(a, 1) == Holding(5);
    assert WorkerOf(b, 0) == WorkerOf(b, 1) == Settling(QuotaValue(10, 0, 5, 4), 5, false);
    var c := Next(b, Update(0));
    assert c.stored.version == 4 && WorkerOf(c, 0) == Idle && WorkerOf(c, 1) == WorkerOf(b, 1);
  }

  /** One of the releases is dropped: nothing is under way or used, and six bytes do not fit into ten. */
  lemma TwoReleasesLoseOne(init: QuotaValue, none: seq<Step>)
    requires init == FRESH && none == []
    ensures
      var s := Run(init, TwoAborts(TwoStarts(none)));
      && WorkerOf(s, 0).Idle? && WorkerOf(s, 1).Idle?
      && s.stored.reserved == s.lost == 5 && s.stored.used == 0 && Reserved(s.stored, 6).Failure?
  {
    var started := TwoStarts(none);
    BothHold(init, none);
    AbortsCollide(Run(init, started));
    RunsFour(init, started, Give(0, false), Give(1, false), Update(0), Update(1));
  }

  /** A release that is under way while a repository is created, and another upload starts. */
  function UntilReset(none: seq<Step>): seq<Step> {
    none + [Ask(0, 5)] + [Update(0)] + [Give(0, false)] + [Reset(10)]
  }

  function AbortOverReset(reset: seq<Step>): seq<Step> { reset + [Ask(1, 7)] + [Update(1)] + [Update(0)] }

  lemma ReadThenReset(p: System)
    requires p.stored == QuotaValue(10, 0, 5, 2) && WorkerOf(p, 0) == Holding(5) && WorkerOf(p, 1) == Idle
    ensures
      var s := Next(Next(p, Give(0, false)), Reset(10));
      && s.stored == FRESH && s.lost == p.lost && WorkerOf(s, 1) == Idle
      && WorkerOf(s, 0) == Settling(QuotaValue(10, 0, 0, 3), 5, false)
  {
    assert WorkerOf(Next(p, Give(0, false)), 0) == Settling(QuotaValue(10, 0, 0, 3), 5, false);
  }

  lemma ResetComesBetween(init: QuotaValue, none: seq<Step>)
    requires init == FRESH && none == []
    ensures
      var s := Run(init, UntilReset(none));
      && s.stored == FRESH && s.lost == 0 && WorkerOf(s, 1) == Idle
      && WorkerOf(s, 0) == Settling(QuotaValue(10, 0, 0, 3), 5, false)
  {
    var p := Run(init, none);
    OneStarts(p, 0, 5);
    ReadThenReset(Next(Next(p, Ask(0, 5)), Update(0)));
    RunsFour(init, none, Ask(0, 5), Update(0), Give(0, false), Reset(10));
  }

  lemma StaleCopyWins(p: System)
    requires p.stored == FRESH && p.lost == 0 && WorkerOf(p, 1) == Idle
    requires WorkerOf(p, 0) == Settling(QuotaValue(10, 0, 0, 3), 5, false)
    ensures
      var s := Next(Next(Next(p, Ask(1, 7)), Update(1)), Update(0));
      s.stored == QuotaValue(10, 0, 0, 3) && WorkerOf(s, 1) == Holding(7) && s.lost == 0
  {
    OneStarts(p, 1, 7);
  }

  /** Versions start over with the reset, so that the stale copy is taken for current: the quota forgets the
      seven bytes that the other upload holds. */
  lemma ResetRevivesAStaleCopy(init: QuotaValue, none: seq<Step>)
    requires init == FRESH && none == []
    ensures
      var s := Run(init, AbortOverReset(UntilReset(none)));
      WorkerOf(s, 1) == Holding(7) && s.stored.reserved == 0 && s.lost == 0 && Reserved(s.stored, 10).Success?
  {
    var reset := UntilReset(none);
    ResetComesBetween(init, none);
    StaleCopyWins(Run(init, reset));
    RunsNext(init, reset, Ask(1, 7));
    RunsNext(init, reset + [Ask(1, 7)], Update(1));
    RunsNext(init, reset + [Ask(1, 7)] + [Update(1)], Update(0));
  }
}
