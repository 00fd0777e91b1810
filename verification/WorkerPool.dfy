/** The in-memory queue and the worker pool of the replication coordinator. */
module WorkerPool {
  import opened Basics
  import opened Ordering
  import opened Text

  datatype Task = Task(id: string, artifact: string, target: string, attempts: int)

  // ---------------------------------------------------------------- the queue

  datatype QueueValue = QueueValue(items: seq<Task>, seen: set<string>)

  const EMPTY_QUEUE := QueueValue([], {})

  function Ids(items: seq<Task>): seq<string> {
    seq(|items|, i requires 0 <= i < |items| => items[i].id)
  }

  function Pushed(q: QueueValue, t: Task): QueueValue {
    if t.id in q.seen then q else QueueValue(q.items + [t], q.seen + {t.id})
  }

  function Popped(q: QueueValue): QueueValue
    requires q.items != []
  {
    QueueValue(q.items[1..], q.seen - {q.items[0].id})
  }

  /** The seen set holds the ids of the queued items, and these are distinct. */
  ghost predicate QueueOk(q: QueueValue) {
    && Distinct(Ids(q.items))
    && forall id :: id in q.seen <==> id in Ids(q.items)
  }

  lemma PushKeepsQueueOk(q: QueueValue, t: Task)
    requires QueueOk(q)
    ensures QueueOk(Pushed(q, t))
  {
    if t.id !in q.seen {
      assert Ids(Pushed(q, t).items) == Ids(q.items) + [t.id];
    }
  }

  lemma PopKeepsQueueOk(q: QueueValue)
    requires QueueOk(q) && q.items != []
    ensures QueueOk(Popped(q))
  {
    var ids := Ids(q.items);
    assert Ids(q.items[1..]) == ids[1..];
    assert ids == [ids[0]] + ids[1..];
    forall id ensures id in Popped(q).seen <==> id in ids[1..] {
      if id in ids[1..] {
        var i :| 0 <= i < |ids[1..]| && ids[1..][i] == id;
        assert ids[i + 1] == id && ids[0] != ids[i + 1];
      }
    }
    forall i, j | 0 <= i < j < |ids[1..]| ensures ids[1..][i] != ids[1..][j] {
      assert ids[i + 1] != ids[j + 1];
    }
  }

  class Queue {
    var items: seq<Task>
    var seen: set<string>

    constructor ()
      ensures Value() == EMPTY_QUEUE
    {
      items, seen := [], {};
    }

    function Value(): QueueValue
      reads this
    {
      QueueValue(items, seen)
    }

    method Push(t: Task) returns (ok: bool)
      requires QueueOk(Value())
      modifies this
      ensures ok <==> t.id !in old(Ids(items))
      ensures Value() == Pushed(old(Value()), t)
      ensures QueueOk(Value())
    {
      PushKeepsQueueOk(Value(), t);
      if t.id in seen { return false; }
      seen := seen + {t.id};
      items := items + [t];
      return true;
    }

    method Pop() returns (t: Option<Task>)
      requires QueueOk(Value())
      modifies this
      ensures t.None? ==> old(items) == [] && Value() == old(Value())
      ensures t.Some? ==> old(items) != [] && t.value == old(items)[0] && Value() == Popped(old(Value()))
      ensures QueueOk(Value())
    {
      if |items| == 0 { return None; }
      PopKeepsQueueOk(Value());
      t := Some(items[0]);
      items := items[1..];
      seen := seen - {t.value.id};
    }

    method Len() returns (n: nat)
      ensures n == |items|
    {
      return |items|;
    }
  }

  // ---------------------------------------------------------------- the pool as steps

  const CAPACITY := 64

  /** One caller of Enqueue or Drain. */
  datatype Sender = Resting | Taken(task: Task) | Sending(task: Task)

  datatype Worker = Receiving | Holding(task: Task) | Exited

  datatype Copy = Copy(task: Task, n: int)

  /** The coordinator, its callers and its workers; `accepted`, `lost` and `done` record whole tasks
      where the code keeps an id or a number of bytes. */
  datatype Pool = Pool(
    queue: QueueValue,
    channel: seq<Task>,
    stopped: bool,
    closed: bool,
    cancelled: bool,
    senders: map<nat, Sender>,
    workers: seq<Worker>,
    failed: seq<string>,
    copied: int,
    accepted: seq<Task>,
    lost: seq<Task>,
    done: seq<Copy>)

  datatype Step =
    | Offer(task: Task)                 // Queue.Push by anybody
    | Check(s: nat, task: Task)         // Enqueue reads `stopped`
    | Send(s: nat)                      // Enqueue sends on the channel
    | Take(s: nat)                      // Drain pops a task
    | CheckTaken(s: nat)                // Drain's Enqueue reads `stopped`, or Drain pushes the task back
    | Stop                              // Close sets `stopped`
    | CloseChannel                      // Close closes the channel
    | Cancel                            // the context is cancelled
    | Receive(w: nat)
    | LeaveClosed(w: nat)               // a worker finds the channel closed and empty
    | LeaveCancelled(w: nat)
    | Succeed(w: nat, n: int)
    | Fail(w: nat)

  function SenderOf(p: Pool, s: nat): Sender {
    if s in p.senders then p.senders[s] else Resting
  }

  /** Some call is between its check of `stopped` and its send. */
  predicate SendPending(p: Pool) {
    exists s :: s in p.senders && p.senders[s].Sending?
  }

  predicate WorkerIs(p: Pool, w: nat, state: Worker) {
    w < |p.workers| && p.workers[w] == state
  }

  predicate WorkerHolds(p: Pool, w: nat) {
    w < |p.workers| && p.workers[w].Holding?
  }

  /** One step; a step that is not enabled does nothing. Closing waits for pending sends: a send on a
      closed channel would panic. */
  function Next(p: Pool, step: Step): Pool {
    match step
    case Offer(task) => p.(queue := Pushed(p.queue, task))
    case Check(s, task) =>
      if SenderOf(p, s).Resting? && !p.stopped then p.(senders := p.senders[s := Sending(task)]) else p
    case Send(s) =>
      if SenderOf(p, s).Sending? && !p.closed && |p.channel| < CAPACITY then
        p.(senders := p.senders[s := Resting],
           channel := p.channel + [SenderOf(p, s).task],
           accepted := p.accepted + [SenderOf(p, s).task])
      else p
    case Take(s) =>
      if SenderOf(p, s).Resting? && p.queue.items != [] then
        p.(senders := p.senders[s := Taken(p.queue.items[0])], queue := Popped(p.queue))
      else p
    case CheckTaken(s) =>
      if !SenderOf(p, s).Taken? then p
      else if p.stopped then
        p.(senders := p.senders[s := Resting], queue := Pushed(p.queue, SenderOf(p, s).task))
      else p.(senders := p.senders[s := Sending(SenderOf(p, s).task)])
    case Stop => p.(stopped := true)
    case CloseChannel => if p.stopped && !SendPending(p) then p.(closed := true) else p
    case Cancel => p.(cancelled := true)
    case Receive(w) =>
      if WorkerIs(p, w, Receiving) && p.channel != [] then
        p.(channel := p.channel[1..], workers := p.workers[w := Holding(p.channel[0])])
      else p
    case LeaveClosed(w) =>
      if WorkerIs(p, w, Receiving) && p.closed && p.channel == [] then p.(workers := p.workers[w := Exited]) else p
    case LeaveCancelled(w) =>
      if WorkerIs(p, w, Receiving) && p.cancelled then p.(workers := p.workers[w := Exited]) else p
    case Succeed(w, n) =>
      if WorkerHolds(p, w) then
        p.(workers := p.workers[w := Receiving], copied := p.copied + n, done := p.done + [Copy(p.workers[w].task, n)])
      else p
    case Fail(w) =>
      if WorkerHolds(p, w) then
        p.(workers := p.workers[w := Receiving],
           failed := p.failed + [p.workers[w].task.id],
           lost := p.lost + [p.workers[w].task])
      else p
  }

  /** NewCoordinator starts at least one worker. */
  function Start(queue: QueueValue, workers: int): Pool {
    Pool(queue, [], false, false, false, map[], seq(Max(workers, 1), _ => Receiving), [], 0, [], [], [])
  }

  function Run(queue: QueueValue, workers: int, steps: seq<Step>): Pool {
    if steps == [] then Start(queue, workers)
    else Next(Run(queue, workers, steps[..|steps| - 1]), steps[|steps| - 1])
  }

  // ---------------------------------------------------------------- accounting

  function InHand(w: Worker, t: Task): nat {
    if w == Holding(t) then 1 else 0
  }

  /** How many workers have the task in their hands. */
  function Held(workers: seq<Worker>, t: Task): nat {
    if workers == [] then 0 else InHand(workers[0], t) + Held(workers[1..], t)
  }

  lemma {:induction false} HeldAfter(workers: seq<Worker>, w: nat, state: Worker, t: Task)
    requires w < |workers|
    ensures Held(workers[w := state], t) + InHand(workers[w], t) == Held(workers, t) + InHand(state, t)
    decreases |workers|
  {
    var changed := workers[w := state];
    if w == 0 {
      assert changed[1..] == workers[1..];
    } else {
      assert changed[1..] == workers[1..][w - 1 := state];
      HeldAfter(workers[1..], w - 1, state, t);
    }
  }

  lemma {:induction false} NothingHeld(workers: seq<Worker>, t: Task)
    requires forall w :: 0 <= w < |workers| ==> !workers[w].Holding?
    ensures Held(workers, t) == 0
    decreases |workers|
  {
    if workers != [] { NothingHeld(workers[1..], t); }
  }

  function TasksOf(done: seq<Copy>): seq<Task> {
    seq(|done|, i requires 0 <= i < |done| => done[i].task)
  }

  function BytesOf(done: seq<Copy>): int {
    if done == [] then 0 else BytesOf(done[..|done| - 1]) + done[|done| - 1].n
  }

  /** As often as the task was accepted, it is in exactly one place. */
  ghost predicate Accounted(p: Pool, t: Task) {
    Count(p.accepted, t) == Count(p.channel, t) + Held(p.workers, t) + Count(p.lost, t) + Count(TasksOf(p.done), t)
  }

  /** What Results reports is the failed and the copied tasks. */
  ghost predicate Reported(p: Pool) {
    p.failed == Ids(p.lost) && p.copied == BytesOf(p.done)
  }

  /** A closed channel gets no more tasks, and a worker leaves only on that or on cancellation. */
  ghost predicate Closing(p: Pool) {
    && |p.workers| >= 1
    && |p.channel| <= CAPACITY
    && (p.closed ==> p.stopped && !SendPending(p))
    && (forall w :: 0 <= w < |p.workers| && p.workers[w].Exited? ==> p.cancelled || (p.closed && p.channel == []))
  }

  ghost predicate Inv(p: Pool) {
    && QueueOk(p.queue)
    && (forall t :: Accounted(p, t))
    && Reported(p)
    && Closing(p)
  }

  lemma CountAppended(list: seq<Task>, x: Task, t: Task)
    ensures Count(list + [x], t) == Count(list, t) + if x == t then 1 else 0
  {
  }

  lemma CountTail(list: seq<Task>, t: Task)
    requires list != []
    ensures Count(list, t) == Count(list[1..], t) + if list[0] == t then 1 else 0
  {
    assert list == [list[0]] + list[1..];
  }

  lemma SendKeepsAccounted(p: Pool, s: nat, t: Task)
    requires Accounted(p, t)
    ensures Accounted(Next(p, Send(s)), t)
  {
    if SenderOf(p, s).Sending? {
      CountAppended(p.channel, SenderOf(p, s).task, t);
      CountAppended(p.accepted, SenderOf(p, s).task, t);
    }
  }

  lemma ReceiveKeepsAccounted(p: Pool, w: nat, t: Task)
    requires Accounted(p, t)
    ensures Accounted(Next(p, Receive(w)), t)
  {
    if WorkerIs(p, w, Receiving) && p.channel != [] {
      HeldAfter(p.workers, w, Holding(p.channel[0]), t);
      CountTail(p.channel, t);
    }
  }

  lemma SucceedKeepsAccounted(p: Pool, w: nat, n: int, t: Task)
    requires Accounted(p, t)
    ensures Accounted(Next(p, Succeed(w, n)), t)
  {
    if WorkerHolds(p, w) {
      HeldAfter(p.workers, w, Receiving, t);
      CountAppended(TasksOf(p.done), p.workers[w].task, t);
      assert TasksOf(p.done + [Copy(p.workers[w].task, n)]) == TasksOf(p.done) + [p.workers[w].task];
    }
  }

  lemma FailKeepsAccounted(p: Pool, w: nat, t: Task)
    requires Accounted(p, t)
    ensures Accounted(Next(p, Step.Fail(w)), t)
  {
    if WorkerHolds(p, w) {
      HeldAfter(p.workers, w, Receiving, t);
      CountAppended(p.lost, p.workers[w].task, t);
    }
  }

  lemma LeaveKeepsAccounted(p: Pool, w: nat, step: Step, t: Task)
    requires Accounted(p, t) && (step == LeaveClosed(w) || step == LeaveCancelled(w))
    ensures Accounted(Next(p, step), t)
  {
    if w < |p.workers| { HeldAfter(p.workers, w, Exited, t); }
  }

  /** Steps of callers and of the coordinator, other than a send. */
  predicate IsQuiet(step: Step) {
    step.Offer? || step.Check? || step.Take? || step.CheckTaken? || step.Stop? || step.CloseChannel? || step.Cancel?
  }

  /** They move no accepted task. */
  lemma QuietFrame(p: Pool, step: Step)
    requires IsQuiet(step)
    ensures
      var n := Next(p, step);
      && n.accepted == p.accepted && n.channel == p.channel && n.workers == p.workers
      && n.lost == p.lost && n.done == p.done && n.failed == p.failed && n.copied == p.copied
  {
  }

  lemma NextKeepsAccounted(p: Pool, step: Step, t: Task)
    requires Accounted(p, t)
    ensures Accounted(Next(p, step), t)
  {
    match step
    case Send(s) => SendKeepsAccounted(p, s, t);
    case Receive(w) => ReceiveKeepsAccounted(p, w, t);
    case Succeed(w, n) => SucceedKeepsAccounted(p, w, n, t);
    case Fail(w) => FailKeepsAccounted(p, w, t);
    case LeaveClosed(w) => LeaveKeepsAccounted(p, w, step, t);
    case LeaveCancelled(w) => LeaveKeepsAccounted(p, w, step, t);
    case _ => QuietFrame(p, step);
  }

  lemma SucceedKeepsReported(p: Pool, w: nat, n: int)
    requires Reported(p)
    ensures Reported(Next(p, Succeed(w, n)))
  {
    if WorkerHolds(p, w) {
      var done := p.done + [Copy(p.workers[w].task, n)];
      assert done[..|done| - 1] == p.done;
    }
  }

  lemma FailKeepsReported(p: Pool, w: nat)
    requires Reported(p)
    ensures Reported(Next(p, Step.Fail(w)))
  {
    if WorkerHolds(p, w) {
      assert Ids(p.lost + [p.workers[w].task]) == Ids(p.lost) + [p.workers[w].task.id];
    }
  }

  /** Sending, receiving and leaving report nothing. */
  lemma MoveFrame(p: Pool, step: Step)
    requires step.Send? || step.Receive? || step.LeaveClosed? || step.LeaveCancelled?
    ensures
      var n := Next(p, step);
      n.lost == p.lost && n.done == p.done && n.failed == p.failed && n.copied == p.copied
  {
  }

  lemma NextKeepsReported(p: Pool, step: Step)
    requires Reported(p)
    ensures Reported(Next(p, step))
  {
    match step
    case Succeed(w, n) => SucceedKeepsReported(p, w, n);
    case Fail(w) => FailKeepsReported(p, w);
    case _ => if IsQuiet(step) { QuietFrame(p, step); } else { MoveFrame(p, step); }
  }

  lemma NextKeepsQueueOk(p: Pool, step: Step)
    requires QueueOk(p.queue)
    ensures QueueOk(Next(p, step).queue)
  {
    match step
    case Offer(task) => PushKeepsQueueOk(p.queue, task);
    case Take(s) => if p.queue.items != [] { PopKeepsQueueOk(p.queue); }
    case CheckTaken(s) => if SenderOf(p, s).Taken? { PushKeepsQueueOk(p.queue, SenderOf(p, s).task); }
    case _ =>
  }

  lemma NextKeepsClosing(p: Pool, step: Step)
    requires Closing(p)
    ensures Closing(Next(p, step))
  {
  }

  lemma NextKeepsInv(p: Pool, step: Step)
    requires Inv(p)
    ensures Inv(Next(p, step))
  {
    NextKeepsQueueOk(p, step);
    NextKeepsReported(p, step);
    NextKeepsClosing(p, step);
    forall t ensures Accounted(Next(p, step), t) {
      NextKeepsAccounted(p, step, t);
    }
  }

  /** In every interleaving: each accepted task is in exactly one of the channel, a worker's hands, the
      failed and the succeeded tasks; the reported failures and bytes are those of these tasks; the
      queue's seen set is the ids of its items. */
  lemma {:induction false} PoolAccounting(queue: QueueValue, workers: int, steps: seq<Step>)
    requires QueueOk(queue)
    ensures Inv(Run(queue, workers, steps))
    decreases |steps|
  {
    if steps == [] {
      var p := Start(queue, workers);
      forall t ensures Accounted(p, t) {
        NothingHeld(p.workers, t);
      }
    } else {
      PoolAccounting(queue, workers, steps[..|steps| - 1]);
      NextKeepsInv(Run(queue, workers, steps[..|steps| - 1]), steps[|steps| - 1]);
    }
  }

  /** Every worker has left, and nobody cancelled. */
  ghost predicate Drained(p: Pool) {
    !p.cancelled && forall w :: 0 <= w < |p.workers| ==> p.workers[w].Exited?
  }

  /** When every worker has left and nobody cancelled, no accepted task is left over: each one failed or
      succeeded. */
  lemma NothingLeftOver(queue: QueueValue, workers: int, steps: seq<Step>, p: Pool, t: Task)
    requires QueueOk(queue) && p == Run(queue, workers, steps) && Drained(p)
    ensures p.channel == []
    ensures Count(p.accepted, t) == Count(p.lost, t) + Count(TasksOf(p.done), t)
  {
    PoolAccounting(queue, workers, steps);
    assert p.workers[0].Exited?;
    assert Accounted(p, t);
    NothingHeld(p.workers, t);
  }

  /** And it stays so: no later step accepts, fails or finishes a task. */
  lemma DrainedIsFinal(queue: QueueValue, workers: int, steps: seq<Step>, p: Pool, step: Step)
    requires QueueOk(queue) && p == Run(queue, workers, steps) && Drained(p)
    ensures Next(p, step).accepted == p.accepted && Next(p, step).channel == []
    ensures Next(p, step).lost == p.lost && Next(p, step).done == p.done
    ensures Next(p, step).workers == p.workers
  {
    PoolAccounting(queue, workers, steps);
    assert p.workers[0].Exited?;
  }

  // ---------------------------------------------------------------- order, capacity and closing

  datatype QueueCall = PushCall(task: Task) | PopCall

  /** A queue with the tasks that Push took and those that Pop returned, oldest first. */
  datatype History = History(queue: QueueValue, pushed: seq<Task>, popped: seq<Task>)

  function AfterCalls(calls: seq<QueueCall>): History {
    if calls == [] then History(EMPTY_QUEUE, [], [])
    else
      var h := AfterCalls(calls[..|calls| - 1]);
      match calls[|calls| - 1]
      case PushCall(t) =>
        History(Pushed(h.queue, t), if t.id in Ids(h.queue.items) then h.pushed else h.pushed + [t], h.popped)
      case PopCall =>
        if h.queue.items == [] then h else History(Popped(h.queue), h.pushed, h.popped + [h.queue.items[0]])
  }

  /** First in, first out: what was popped, and then what is queued, is what was pushed, in that order. */
  lemma {:induction false} QueueIsFifo(calls: seq<QueueCall>)
    ensures QueueOk(AfterCalls(calls).queue)
    ensures AfterCalls(calls).pushed == AfterCalls(calls).popped + AfterCalls(calls).queue.items
    decreases |calls|
  {
    if calls != [] {
      var h := AfterCalls(calls[..|calls| - 1]);
      QueueIsFifo(calls[..|calls| - 1]);
      match calls[|calls| - 1]
      case PushCall(t) => PushKeepsQueueOk(h.queue, t);
      case PopCall =>
        if h.queue.items != [] {
          PopKeepsQueueOk(h.queue);
          assert h.queue.items == [h.queue.items[0]] + h.queue.items[1..];
        }
    }
  }

  /** The channel holds the tasks that were accepted last, in their order, and at most 64 of them. */
  predicate IsFifo(p: Pool) {
    |p.channel| <= |p.accepted| && |p.channel| <= 64 && p.channel == p.accepted[|p.accepted| - |p.channel|..]
  }

  lemma {:induction false} ChannelIsFifo(queue: QueueValue, workers: int, steps: seq<Step>)
    ensures IsFifo(Run(queue, workers, steps))
    decreases |steps|
  {
    if steps != [] {
      ChannelIsFifo(queue, workers, steps[..|steps| - 1]);
      NextIsFifo(Run(queue, workers, steps[..|steps| - 1]), steps[|steps| - 1]);
    }
  }

  lemma SendIsFifo(p: Pool, s: nat)
    requires IsFifo(p)
    ensures IsFifo(Next(p, Send(s)))
  {
    if SenderOf(p, s).Sending? && !p.closed && |p.channel| < CAPACITY {
      var t := SenderOf(p, s).task;
      assert (p.accepted + [t])[|p.accepted| - |p.channel|..] == p.channel + [t];
    }
  }

  lemma ChannelFrame(p: Pool, step: Step)
    requires !step.Send?
    ensures Next(p, step).accepted == p.accepted
    ensures Next(p, step).channel == p.channel || (p.channel != [] && Next(p, step).channel == p.channel[1..])
  {
  }

  lemma ShorterIsFifo(p: Pool, n: Pool)
    requires IsFifo(p) && n.accepted == p.accepted
    requires n.channel == p.channel || (p.channel != [] && n.channel == p.channel[1..])
    ensures IsFifo(n)
  {
  }

  lemma NextIsFifo(p: Pool, step: Step)
    requires IsFifo(p)
    ensures IsFifo(Next(p, step))
  {
    if step.Send? {
      SendIsFifo(p, step.s);
    } else {
      ChannelFrame(p, step);
      ShorterIsFifo(p, Next(p, step));
    }
  }

  /** A call that has passed its check sends exactly while the channel has room. */
  lemma SendTakesEffectIff(p: Pool, s: nat, t: Task)
    requires SenderOf(p, s) == Sending(t) && !p.closed
    ensures |p.channel| < 64 ==> Next(p, Send(s)).accepted == p.accepted + [t]
    ensures 64 <= |p.channel| ==> Next(p, Send(s)) == p
  {
  }

  /** Once the pool is stopped and no call is about to send, nothing more is accepted, ever. */
  lemma {:induction false} StoppedAcceptsNothing(queue: QueueValue, workers: int, steps: seq<Step>, more: seq<Step>)
    requires Run(queue, workers, steps).stopped && !SendPending(Run(queue, workers, steps))
    ensures
      var p, q := Run(queue, workers, steps), Run(queue, workers, steps + more);
      q.stopped && !SendPending(q) && q.accepted == p.accepted
    decreases |more|
  {
    var all := steps + more;
    if more == [] {
      assert all == steps;
    } else {
      StoppedAcceptsNothing(queue, workers, steps, more[..|more| - 1]);
      assert all[..|all| - 1] == steps + more[..|more| - 1];
      StaysStopped(Run(queue, workers, all[..|all| - 1]), all[|all| - 1]);
    }
  }

  lemma StaysStopped(p: Pool, step: Step)
    requires p.stopped && !SendPending(p)
    ensures Next(p, step).stopped && !SendPending(Next(p, step)) && Next(p, step).accepted == p.accepted
  {
    forall s | s in p.senders ensures !p.senders[s].Sending? {
    }
  }
}
