/** The fixed-window rate limiter. */
module RateLimit {
  import opened Basics

  /** time.Minute, in nanoseconds. */
  const MINUTE := 60_000_000_000

  datatype Entry = Entry(count: int, start: int)
  type Entries = map<string, Entry>

  /** The limiter's settings, as its constructor leaves them. */
  datatype Limits = Limits(limit: int, window: int) {
    predicate Valid() { 1 <= limit && 1 <= window }
  }

  /** The entry of `key`, if its window is still running at `now`. */
  function View(l: Limits, entries: Entries, key: string, now: int): Option<Entry> {
    if key in entries && now - entries[key].start < l.window then Some(entries[key]) else None
  }

  function Granted(l: Limits, entries: Entries, key: string, now: int): bool {
    var e := View(l, entries, key, now);
    e.None? || e.value.count < l.limit
  }

  function AfterCall(l: Limits, entries: Entries, key: string, now: int): Entries {
    match View(l, entries, key, now)
    case None => entries[key := Entry(1, now)]
    case Some(e) => if e.count < l.limit then entries[key := Entry(e.count + 1, e.start)] else entries
  }

  function RemainingCalls(l: Limits, entries: Entries, key: string, now: int): int {
    match View(l, entries, key, now)
    case None => l.limit
    case Some(e) => Max(l.limit - e.count, 0)
  }

  /** What Reset leaves: entries whose start is less than two windows ago. */
  function Pruned(l: Limits, entries: Entries, now: int): Entries {
    map key | key in entries && now - entries[key].start < l.window * 2 :: entries[key]
  }

  class RateLimiter {
    var entries: Entries
    const limit: int
    const window: int

    constructor (limit: int, window: int)
      ensures Settings().Valid() && entries == map[]
      ensures Settings() == Limits(Max(limit, 1), if 0 < window then window else 60_000_000_000)
    {
      entries := map[];
      this.limit := if limit < 1 then 1 else limit;
      this.window := if window <= 0 then MINUTE else window;
    }

    function Settings(): Limits { Limits(limit, window) }

    method Allow(key: string, now: int) returns (ok: bool)
      modifies this
      ensures ok == Granted(Settings(), old(entries), key, now)
      ensures entries == AfterCall(Settings(), old(entries), key, now)
    {
      if key !in entries || now - entries[key].start >= window {
        entries := entries[key := Entry(1, now)];
        return true;
      }
      var e := entries[key];
      if e.count >= limit { return false; }
      entries := entries[key := e.(count := e.count + 1)];
      return true;
    }

    method Remaining(key: string, now: int) returns (n: int)
      ensures n == RemainingCalls(Settings(), entries, key, now)
    {
      if key !in entries || now - entries[key].start >= window { return limit; }
      if limit - entries[key].count < 0 { return 0; }
      return limit - entries[key].count;
    }

    method Reset(now: int)
      modifies this
      ensures entries == Pruned(Settings(), old(entries), now)
    {
      var keys := entries.Keys;
      while keys != {}
        invariant keys <= old(entries).Keys
        invariant forall k :: k in entries <==>
          k in old(entries) && (k in keys || now - old(entries)[k].start < window * 2)
        invariant forall k :: k in entries ==> entries[k] == old(entries)[k]
        decreases keys
      {
        var key :| key in keys;
        keys := keys - {key};
        if now - entries[key].start >= window * 2 { entries := entries - {key}; }
      }
    }
  }

  // ---------------------------------------------------------------- runs

  datatype Event = Call(key: string, at: int) | Ask(key: string, at: int) | Prune(at: int)

  datatype Answer = Verdict(ok: bool) | Left(n: int)

  ghost predicate Ordered(events: seq<Event>) {
    forall i, j :: 0 <= i < j < |events| ==> events[i].at <= events[j].at
  }

  function Step(l: Limits, entries: Entries, event: Event): Entries {
    match event
    case Call(key, at) => AfterCall(l, entries, key, at)
    case Ask(_, _) => entries
    case Prune(at) => Pruned(l, entries, at)
  }

  function After(l: Limits, entries: Entries, events: seq<Event>): Entries
    decreases |events|
  {
    if events == [] then entries else After(l, Step(l, entries, events[0]), events[1..])
  }

  function AnswerTo(l: Limits, entries: Entries, event: Event): seq<Answer> {
    match event
    case Call(key, at) => [Verdict(Granted(l, entries, key, at))]
    case Ask(key, at) => [Left(RemainingCalls(l, entries, key, at))]
    case Prune(_) => []
  }

  /** The answers of Allow and Remaining, in order. */
  function Answers(l: Limits, entries: Entries, events: seq<Event>): seq<Answer>
    decreases |events|
  {
    if events == [] then []
    else AnswerTo(l, entries, events[0]) + Answers(l, Step(l, entries, events[0]), events[1..])
  }

  function WithoutPrunes(events: seq<Event>): seq<Event> {
    if events == [] then []
    else (if events[0].Prune? then [] else [events[0]]) + WithoutPrunes(events[1..])
  }

  ghost predicate Alike(l: Limits, a: Entries, b: Entries, now: int) {
    forall key, t :: now <= t ==> View(l, a, key, t) == View(l, b, key, t)
  }

  lemma StepKeepsAlike(l: Limits, a: Entries, b: Entries, event: Event, now: int)
    requires l.Valid() && Alike(l, a, b, now) && now <= event.at
    ensures Alike(l, Step(l, a, event), Step(l, b, event), event.at)
    ensures Alike(l, Step(l, a, Prune(event.at)), b, event.at)
    ensures AnswerTo(l, a, event) == AnswerTo(l, b, event)
  {
    var a', b', p := Step(l, a, event), Step(l, b, event), Step(l, a, Prune(event.at));
    forall key, t | event.at <= t
      ensures View(l, a', key, t) == View(l, b', key, t)
      ensures View(l, p, key, t) == View(l, b, key, t)
    {
      assert View(l, a, key, t) == View(l, b, key, t);
      assert View(l, a, key, event.at) == View(l, b, key, event.at);
    }
    if !event.Prune? {
      assert View(l, a, event.key, event.at) == View(l, b, event.key, event.at);
    }
  }

  lemma {:induction false} PrunesAreInvisibleFrom(l: Limits, a: Entries, b: Entries, events: seq<Event>, now: int)
    requires l.Valid() && Ordered(events) && Alike(l, a, b, now)
    requires forall i :: 0 <= i < |events| ==> now <= events[i].at
    ensures Answers(l, a, events) == Answers(l, b, WithoutPrunes(events))
    decreases |events|
  {
    if events != [] {
      var e, rest := events[0], events[1..];
      StepKeepsAlike(l, a, b, e, now);
      if e.Prune? {
        PrunesAreInvisibleFrom(l, Step(l, a, e), b, rest, e.at);
        assert WithoutPrunes(events) == WithoutPrunes(rest);
        assert Answers(l, a, events) == Answers(l, Step(l, a, e), rest);
      } else {
        PrunesAreInvisibleFrom(l, Step(l, a, e), Step(l, b, e), rest, e.at);
        var kept := WithoutPrunes(events);
        assert kept == [e] + WithoutPrunes(rest);
        assert kept[0] == e && kept[1..] == WithoutPrunes(rest);
      }
    }
  }

  /** Reset calls, wherever they are put, change no answer of Allow or Remaining: runs that differ
      only in their Reset calls answer alike. */
  lemma PrunesAreInvisible(l: Limits, entries: Entries, with: seq<Event>, other: seq<Event>)
    requires l.Valid() && Ordered(with) && Ordered(other)
    requires WithoutPrunes(with) == WithoutPrunes(other)
    ensures Answers(l, entries, with) == Answers(l, entries, other)
  {
    if with != [] { PrunesAreInvisibleFrom(l, entries, entries, with, with[0].at); }
    if other != [] { PrunesAreInvisibleFrom(l, entries, entries, other, other[0].at); }
  }

  // ---------------------------------------------------------------- the bound

  ghost predicate Sane(l: Limits, entries: Entries) {
    forall key :: key in entries ==> 1 <= entries[key].count <= l.limit
  }

  function GrantAt(l: Limits, entries: Entries, event: Event, key: string, lo: int, hi: int): nat {
    if event.Call? && event.key == key && lo <= event.at < hi && Granted(l, entries, key, event.at) then 1 else 0
  }

  /** How many calls of `key` are granted at times in [lo, hi). */
  function Grants(l: Limits, entries: Entries, events: seq<Event>, key: string, lo: int, hi: int): nat
    decreases |events|
  {
    if events == [] then 0
    else GrantAt(l, entries, events[0], key, lo, hi) + Grants(l, Step(l, entries, events[0]), events[1..], key, lo, hi)
  }

  function Budget(l: Limits, entries: Entries, key: string, lo: int): int {
    if key !in entries then l.limit
    else if entries[key].start < lo then 2 * l.limit - entries[key].count
    else l.limit - entries[key].count
  }

  lemma {:induction false} NoGrantsOutside(l: Limits, entries: Entries, events: seq<Event>, key: string, lo: int,
                                           hi: int)
    requires forall i :: 0 <= i < |events| ==> hi <= events[i].at
    ensures Grants(l, entries, events, key, lo, hi) == 0
    decreases |events|
  {
    if events != [] {
      NoGrantsOutside(l, Step(l, entries, events[0]), events[1..], key, lo, hi);
    }
  }

  lemma {:induction false} GrantsWithinBudget(l: Limits, entries: Entries, events: seq<Event>, key: string, lo: int)
    requires l.Valid() && Sane(l, entries) && Ordered(events)
    requires forall i :: 0 <= i < |events| ==> lo <= events[i].at
    ensures Grants(l, entries, events, key, lo, lo + l.window) <= Budget(l, entries, key, lo)
    decreases |events|
  {
    if events != [] {
      var next := Step(l, entries, events[0]);
      if events[0].at >= lo + l.window {
        NoGrantsOutside(l, entries, events, key, lo, lo + l.window);
      } else {
        GrantsWithinBudget(l, next, events[1..], key, lo);
      }
    }
  }

  /** In any half-open interval as long as the window, a key is granted at most 2*limit - 1 calls. */
  lemma {:induction false} RateBound(l: Limits, entries: Entries, events: seq<Event>, key: string, lo: int)
    requires l.Valid() && Sane(l, entries) && Ordered(events)
    ensures Grants(l, entries, events, key, lo, lo + l.window) <= 2 * l.limit - 1
    decreases |events|
  {
    if events != [] {
      if events[0].at >= lo {
        GrantsWithinBudget(l, entries, events, key, lo);
      } else {
        RateBound(l, Step(l, entries, events[0]), events[1..], key, lo);
      }
    }
  }

  predicate StartsWindow(l: Limits, entries: Entries, event: Event, key: string) {
    event.Call? && event.key == key && View(l, entries, key, event.at).None?
  }

  predicate NoStart(l: Limits, entries: Entries, events: seq<Event>, key: string)
    decreases |events|
  {
    events == [] ||
    (!StartsWindow(l, entries, events[0], key) && NoStart(l, Step(l, entries, events[0]), events[1..], key))
  }

  lemma {:induction false} WindowHasRoom(l: Limits, entries: Entries, events: seq<Event>, key: string, lo: int, hi: int)
    requires l.Valid() && Sane(l, entries) && NoStart(l, entries, events, key)
    ensures Grants(l, entries, events, key, lo, hi) <= if key in entries then l.limit - entries[key].count else 0
    decreases |events|
  {
    if events != [] {
      WindowHasRoom(l, Step(l, entries, events[0]), events[1..], key, lo, hi);
    }
  }

  /** From the call that starts a window until the next one that does, at most `limit` calls are granted. */
  lemma AtMostLimitPerWindow(l: Limits, entries: Entries, events: seq<Event>, key: string, lo: int, hi: int)
    requires l.Valid() && Sane(l, entries)
    requires events != [] && StartsWindow(l, entries, events[0], key)
    requires NoStart(l, Step(l, entries, events[0]), events[1..], key)
    ensures Grants(l, entries, events, key, lo, hi) <= l.limit
  {
    WindowHasRoom(l, Step(l, entries, events[0]), events[1..], key, lo, hi);
  }

  // ---------------------------------------------------------------- the bound is met

  lemma {:induction false} GrantsOfJoined(l: Limits, entries: Entries, a: seq<Event>, b: seq<Event>, key: string,
                                          lo: int, hi: int)
    ensures Grants(l, entries, a + b, key, lo, hi) ==
            Grants(l, entries, a, key, lo, hi) + Grants(l, After(l, entries, a), b, key, lo, hi)
    decreases |a|
  {
    if a == [] {
      assert a + b == b;
    } else {
      assert (a + b)[0] == a[0] && (a + b)[1..] == a[1..] + b;
      GrantsOfJoined(l, Step(l, entries, a[0]), a[1..], b, key, lo, hi);
    }
  }

  function Calls(key: string, at: int, n: nat): seq<Event> {
    if n == 0 then [] else [Call(key, at)] + Calls(key, at, n - 1)
  }

  lemma {:induction false} CallsFillWindow(l: Limits, entries: Entries, key: string, at: int, n: nat, lo: int, hi: int)
    requires l.Valid() && lo <= at < hi
    requires key in entries && 0 <= at - entries[key].start < l.window && entries[key].count + n <= l.limit
    ensures Grants(l, entries, Calls(key, at, n), key, lo, hi) == n
    ensures After(l, entries, Calls(key, at, n)) == entries[key := Entry(entries[key].count + n, entries[key].start)]
    decreases n
  {
    if n > 0 {
      var next := AfterCall(l, entries, key, at);
      assert Calls(key, at, n)[1..] == Calls(key, at, n - 1);
      CallsFillWindow(l, next, key, at, n - 1, lo, hi);
    } else {
      assert entries[key := entries[key]] == entries;
    }
  }

  /** A call that starts a window at `at`, and as many more calls at `then` as the window has room for. */
  function FullWindow(l: Limits, key: string, at: int, later: int): seq<Event>
    requires l.Valid()
  {
    [Call(key, at)] + Calls(key, later, l.limit - 1)
  }

  lemma FullWindowGrants(l: Limits, entries: Entries, key: string, at: int, later: int, lo: int, hi: int)
    requires l.Valid() && View(l, entries, key, at).None? && at <= later < at + l.window && lo <= later < hi
    ensures Grants(l, entries, FullWindow(l, key, at, later), key, lo, hi) == l.limit - (if lo <= at then 0 else 1)
    ensures After(l, entries, FullWindow(l, key, at, later)) == entries[key := Entry(l.limit, at)]
  {
    var w, next := FullWindow(l, key, at, later), entries[key := Entry(1, at)];
    assert w[0] == Call(key, at) && w[1..] == Calls(key, later, l.limit - 1);
    CallsFillWindow(l, next, key, later, l.limit - 1, lo, hi);
    assert next[key := Entry(l.limit, at)] == entries[key := Entry(l.limit, at)];
  }

  /** The bound of RateBound cannot be lowered: this run, of one window filled at its very end and the
      next filled at once, is granted 2*limit - 1 calls within one window's length. */
  lemma BoundIsMet(l: Limits, key: string)
    requires l.Valid() && 2 <= l.window
    ensures Grants(l, map[], FullWindow(l, key, 0, l.window - 1) + FullWindow(l, key, l.window, l.window),
                   key, l.window - 1, l.window - 1 + l.window) == 2 * l.limit - 1
  {
    var lo, hi := l.window - 1, l.window - 1 + l.window;
    var first, second := FullWindow(l, key, 0, l.window - 1), FullWindow(l, key, l.window, l.window);
    FullWindowGrants(l, map[], key, 0, l.window - 1, lo, hi);
    FullWindowGrants(l, After(l, map[], first), key, l.window, l.window, lo, hi);
    GrantsOfJoined(l, map[], first, second, key, lo, hi);
  }

  // ---------------------------------------------------------------- what is left

  /** Remaining tells exactly how many more calls are granted: of any number of calls at that time, that many. */
  lemma {:induction false} RemainingIsExact(l: Limits, entries: Entries, key: string, now: int, n: nat)
    requires l.Valid()
    ensures Grants(l, entries, Calls(key, now, n), key, now, now + 1) == Min(n, RemainingCalls(l, entries, key, now))
    decreases n
  {
    if n > 0 {
      assert Calls(key, now, n)[1..] == Calls(key, now, n - 1);
      RemainingIsExact(l, AfterCall(l, entries, key, now), key, now, n - 1);
    }
  }

  /** A window ends after its length and no sooner: until then what is left does not grow, and from then on
      it is the limit again. */
  lemma WindowsEnd(l: Limits, entries: Entries, key: string, now: int, later: int)
    requires l.Valid() && key in entries && 1 <= entries[key].count <= l.limit && now <= later
    ensures later < entries[key].start + l.window ==>
        RemainingCalls(l, entries, key, later) == RemainingCalls(l, entries, key, now) == l.limit - entries[key].count
    ensures entries[key].start + l.window <= later ==> RemainingCalls(l, entries, key, later) == l.limit
  {
  }

  /** A call counts for its own key only. */
  lemma KeysAreApart(l: Limits, entries: Entries, key: string, other: string, now: int, later: int)
    requires other != key
    ensures RemainingCalls(l, AfterCall(l, entries, key, now), other, later) ==
        RemainingCalls(l, entries, other, later)
  {
  }

  /** Reset keeps an entry exactly for two windows from its start. */
  lemma ResetAnswers(l: Limits, entries: Entries, now: int, key: string)
    ensures key in Pruned(l, entries, now) <==> key in entries && now < entries[key].start + 2 * l.window
    ensures key in Pruned(l, entries, now) ==> Pruned(l, entries, now)[key] == entries[key]
  {
  }
}
