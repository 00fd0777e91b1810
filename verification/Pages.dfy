/** Paging through names, and what a crawl over the pages returns. */
module Pages {
  import opened Basics
  import opened Ordering

  datatype PageRequest = PageRequest(limit: int, last: string) {
    function Normalized(): PageRequest {
      PageRequest(if limit <= 0 then 100 else if limit > 1000 then 1000 else limit, last)
    }
  }

  datatype Page<+T> = Page(items: seq<T>, next: string)

  ghost function WithPrefix(names: set<string>, prefix: string): set<string> {
    set n | n in names && prefix <= n
  }

  ghost function After(all: set<string>, last: string): set<string> {
    set n | n in all && Less(last, n)
  }

  /** The names that come after `last`, in order. */
  ghost function NamesAfter(all: set<string>, last: string): seq<string> {
    SortedNames(After(all, last))
  }

  /** One page of sorted names: `next` is the first name not returned. */
  function FirstPage(names: seq<string>, limit: nat): Page<string> {
    if |names| <= limit then Page(names, "") else Page(names[..limit], names[limit])
  }

  /** The names from position k on, without those at positions that leave remainder `limit`
      when divided by limit + 1. */
  function KeptFrom(names: seq<string>, k: nat, limit: nat): seq<string>
    decreases |names| - k
  {
    if k >= |names| then []
    else if k % (limit + 1) == limit then KeptFrom(names, k + 1, limit)
    else [names[k]] + KeptFrom(names, k + 1, limit)
  }

  /** Following `next` until it is empty. */
  ghost function Crawl(all: set<string>, last: string, limit: nat): seq<string>
    decreases |NamesAfter(all, last)|
  {
    var page := FirstPage(NamesAfter(all, last), limit);
    if page.next == "" then page.items
    else
      NextPageIsTail(all, last, limit);
      page.items + Crawl(all, page.next, limit)
  }

  lemma NextPageIsTail(all: set<string>, last: string, limit: nat)
    requires FirstPage(NamesAfter(all, last), limit).next != ""
    ensures |NamesAfter(all, last)| > limit
    ensures NamesAfter(all, FirstPage(NamesAfter(all, last), limit).next) == NamesAfter(all, last)[limit + 1..]
  {
    var names := NamesAfter(all, last);
    var tail, next := names[limit + 1..], names[limit];
    var after := After(all, next);
    assert next in names;
    forall n ensures n in tail <==> n in after {
      if n in tail {
        var i :| 0 <= i < |tail| && tail[i] == n;
        assert Less(names[limit], names[limit + 1 + i]);
        assert n in names;
      }
      if n in after {
        LessTransitive(last, next, n);
        assert n in names;
        var i :| 0 <= i < |names| && names[i] == n;
        if i <= limit {
          if i < limit { LessAsymmetric(names[i], next); }
          LessIrreflexive(next);
        }
        assert tail[i - limit - 1] == n;
      }
    }
    EnumerationUnique(tail, NamesAfter(all, next), after);
  }

  lemma MultipleIsFar(k: int, m: int)
    requires 0 < m
    ensures k >= 1 ==> k * m >= m
    ensures k <= -1 ==> k * m <= -m
  {
  }

  lemma ModAdd(p: int, j: int, m: int)
    requires 0 <= j < m && 0 <= p && p % m == 0
    ensures (p + j) % m == j
    ensures (p + m) % m == 0
  {
    var k := p / m - (p + j) / m;
    assert p == m * (p / m);
    assert p + j == m * ((p + j) / m) + (p + j) % m;
    assert k * m == m * (p / m) - m * ((p + j) / m);
    MultipleIsFar(k, m);
    var l := p / m + 1 - (p + m) / m;
    assert p + m == m * ((p + m) / m) + (p + m) % m;
    assert l * m == m * (p / m) + m - m * ((p + m) / m);
    MultipleIsFar(l, m);
  }

  /** The same names, with the position inside the page counted along. */
  function KeptCounting(names: seq<string>, k: nat, limit: nat, c: nat): seq<string>
    decreases |names| - k
  {
    if k >= |names| then []
    else if c == limit then KeptCounting(names, k + 1, limit, 0)
    else [names[k]] + KeptCounting(names, k + 1, limit, c + 1)
  }

  lemma {:induction false} CountingIsRemainder(names: seq<string>, k: nat, limit: nat, c: nat)
    requires k % (limit + 1) == c
    ensures KeptCounting(names, k, limit, c) == KeptFrom(names, k, limit)
    decreases |names| - k
  {
    if k < |names| {
      NextRemainder(k, limit, c);
      CountingIsRemainder(names, k + 1, limit, if c == limit then 0 else c + 1);
    }
  }

  lemma RemainderOff(k: nat, m: nat, c: nat)
    requires 0 < m && k % m == c
    ensures c <= k && (k - c) % m == 0
  {
    assert k == m * (k / m) + c;
    var l := k / m - (k - c) / m;
    assert k - c == m * ((k - c) / m) + (k - c) % m;
    assert l * m == m * (k / m) - m * ((k - c) / m);
    MultipleIsFar(l, m);
  }

  lemma NextRemainder(k: nat, limit: nat, c: nat)
    requires k % (limit + 1) == c
    ensures (k + 1) % (limit + 1) == if c == limit then 0 else c + 1
  {
    RemainderOff(k, limit + 1, c);
    if c == limit { ModAdd(k - c, 0, limit + 1); } else { ModAdd(k - c, c + 1, limit + 1); }
  }

  /** From place c of a page to its end at position e, everything is kept; then one name is not. */
  lemma {:induction false} KeptPage(names: seq<string>, k: nat, limit: nat, c: nat, e: nat)
    requires c <= limit && k <= |names| && e == k + (limit - c)
    ensures |names| <= e ==> KeptCounting(names, k, limit, c) == names[k..]
    ensures |names| > e ==> KeptCounting(names, k, limit, c) == names[k..e] + KeptCounting(names, e + 1, limit, 0)
    decreases limit - c
  {
    if c < limit && k < |names| {
      KeptPage(names, k + 1, limit, c + 1, e);
      if |names| <= e {
        assert names[k..] == [names[k]] + names[k + 1..];
      } else {
        assert names[k..e] == [names[k]] + names[k + 1..e];
      }
    }
  }

  /** One page of the crawl, when the names still to come are the sorted names from position k on. */
  lemma CrawlStep(all: set<string>, last: string, limit: nat, names: seq<string>, k: nat, e: nat)
    requires k <= |names| && NamesAfter(all, last) == names[k..] && "" !in names && e == k + limit
    ensures |names| <= e ==> Crawl(all, last, limit) == names[k..]
    ensures |names| > e ==> NamesAfter(all, names[e]) == names[e + 1..]
    ensures |names| > e ==> Crawl(all, last, limit) == names[k..e] + Crawl(all, names[e], limit)
  {
    if |names| > e {
      TailSlices(names, k, limit, e);
      assert names[e] in names;
      NextPageIsTail(all, last, limit);
    }
  }

  lemma TailSlices(names: seq<string>, k: nat, limit: nat, e: nat)
    requires e == k + limit < |names|
    ensures names[k..][limit] == names[e]
    ensures names[k..][limit + 1..] == names[e + 1..]
    ensures names[k..][..limit] == names[k..e]
  {
  }

  lemma CrawlPage(all: set<string>, last: string, limit: nat, names: seq<string>, k: nat, e: nat)
    requires k <= |names| && NamesAfter(all, last) == names[k..] && "" !in names && e == k + limit
    requires |names| > e ==> Crawl(all, names[e], limit) == KeptCounting(names, e + 1, limit, 0)
    ensures Crawl(all, last, limit) == KeptCounting(names, k, limit, 0)
  {
    KeptPage(names, k, limit, 0, e);
    CrawlStep(all, last, limit, names, k, e);
  }

  lemma {:induction false} CrawlFrom(all: set<string>, last: string, limit: nat, names: seq<string>, k: nat)
    requires k <= |names| && NamesAfter(all, last) == names[k..] && "" !in names
    ensures Crawl(all, last, limit) == KeptCounting(names, k, limit, 0)
    decreases |names| - k
  {
    var e := k + limit;
    if |names| > e {
      CrawlStep(all, last, limit, names, k, e);
      CrawlFrom(all, names[e], limit, names, e + 1);
    }
    CrawlPage(all, last, limit, names, k, e);
  }

  /** The crawl over all pages returns exactly the names at the sorted positions i with
      i mod (limit + 1) != limit, in order. */
  lemma CrawlKeeps(all: set<string>, limit: nat)
    requires "" !in all
    ensures Crawl(all, "", limit) == KeptFrom(SortedNames(all), 0, limit)
  {
    assert After(all, "") == all;
    CrawlFrom(all, "", limit, SortedNames(all), 0);
    CountingIsRemainder(SortedNames(all), 0, limit, 0);
  }

  /** The name at this position is kept. */
  predicate KeptAt(names: seq<string>, i: int, limit: nat) {
    0 <= i < |names| && i % (limit + 1) != limit
  }

  lemma {:induction false} KeptFromHolds(names: seq<string>, k: nat, limit: nat, n: string)
    ensures n in KeptFrom(names, k, limit) <==> exists i :: k <= i && KeptAt(names, i, limit) && names[i] == n
    decreases |names| - k
  {
    if k < |names| {
      KeptFromHolds(names, k + 1, limit, n);
      KeptFromStep(names, k, limit, n);
      if i :| k <= i && KeptAt(names, i, limit) && names[i] == n {
        assert i == k || k + 1 <= i;
      }
    }
  }

  lemma KeptFromStep(names: seq<string>, k: nat, limit: nat, n: string)
    requires k < |names|
    ensures n in KeptFrom(names, k, limit) <==>
      n in KeptFrom(names, k + 1, limit) || (KeptAt(names, k, limit) && names[k] == n)
  {
  }

  /** The crawl returns existing names, in increasing order and so without repetition. */
  lemma CrawlIsSorted(all: set<string>, limit: nat)
    requires "" !in all
    ensures StrictlySorted(Crawl(all, "", limit))
    ensures forall n :: n in Crawl(all, "", limit) ==> n in all
  {
    CrawlKeeps(all, limit);
    KeptIsSorted(SortedNames(all), 0, limit);
  }

  lemma {:induction false} KeptIsSorted(names: seq<string>, k: nat, limit: nat)
    requires StrictlySorted(names)
    ensures StrictlySorted(KeptFrom(names, k, limit))
    ensures forall n :: n in KeptFrom(names, k, limit) ==>
        n in names && forall i :: 0 <= i < k && i < |names| ==> Less(names[i], n)
    decreases |names| - k
  {
    if k < |names| {
      KeptIsSorted(names, k + 1, limit);
      var rest := KeptFrom(names, k + 1, limit);
      forall i | 0 <= i < |rest| ensures Less(names[k], rest[i]) {
        assert rest[i] in rest;
      }
    }
  }

  /** With at most one page of names, nothing is missed. */
  lemma OnePageIsComplete(all: set<string>, limit: nat)
    requires "" !in all && |all| <= limit
    ensures Crawl(all, "", limit) == SortedNames(all)
  {
    assert After(all, "") == all;
    EnumerationSize(SortedNames(all), all);
  }

  lemma {:induction false} EnumerationSize(names: seq<string>, all: set<string>)
    requires Enumerates(names, all)
    ensures |names| == |all|
    decreases |names|
  {
    if names == [] {
      assert all == {};
    } else {
      TailEnumerates(names, all);
      assert names[0] in all;
      EnumerationSize(names[1..], all - {names[0]});
    }
  }

  // ---------------------------------------------------------------- one page

  /** The page size that a request gets: 100 when it asks for none, and never more than 1000. */
  function SizeOf(p: PageRequest): nat {
    if p.limit <= 0 then 100 else Min(p.limit, 1000)
  }

  /** A page holds the first names after `last`, as many as its size allows, in order; its `next` is the first name
      that it leaves out, or "" when it leaves none out. */
  lemma PageAnswers(all: set<string>, p: PageRequest, page: Page<string>)
    requires page == FirstPage(NamesAfter(all, p.last), p.Normalized().limit)
    ensures StrictlySorted(page.items) && |page.items| == Min(|After(all, p.last)|, SizeOf(p))
    ensures forall n :: n in page.items ==> n in all && Less(p.last, n)
    ensures forall n, m :: n in all && Less(p.last, n) && n !in page.items && m in page.items ==> Less(m, n)
    ensures |After(all, p.last)| <= SizeOf(p) ==> page.next == ""
    ensures SizeOf(p) < |After(all, p.last)| ==>
        page.next in all && Less(p.last, page.next) && page.next !in page.items &&
        forall n :: n in all && Less(p.last, n) && n !in page.items ==> n == page.next || Less(page.next, n)
  {
    var names, size := NamesAfter(all, p.last), SizeOf(p);
    EnumerationSize(names, After(all, p.last));
    assert page.items == names[..Min(|names|, size)];
    forall n | n in page.items ensures n in After(all, p.last) {
      assert n in names;
    }
    forall n, m | n in After(all, p.last) && n !in page.items && m in page.items ensures Less(m, n) {
      LaterComesLater(names, Min(|names|, size), n, m);
    }
    if size < |names| {
      assert names[size] in names;
      NotInFront(names, size);
      forall n | n in After(all, p.last) && n !in page.items ensures n == names[size] || Less(names[size], n) {
        var i := BehindFront(names, size, n);
      }
    }
  }

  lemma BehindFront(names: seq<string>, k: nat, n: string) returns (i: nat)
    requires k <= |names| && n in names && n !in names[..k]
    ensures k <= i < |names| && names[i] == n
  {
    i :| 0 <= i < |names| && names[i] == n;
    forall j | 0 <= j < k ensures names[j] != n {
      assert names[j] in names[..k];
    }
  }

  lemma LaterComesLater(names: seq<string>, k: nat, n: string, m: string)
    requires StrictlySorted(names) && k <= |names| && n in names && n !in names[..k] && m in names[..k]
    ensures Less(m, n)
  {
    var i := BehindFront(names, k, n);
    var j :| 0 <= j < k && names[..k][j] == m;
  }

  lemma NotInFront(names: seq<string>, k: nat)
    requires StrictlySorted(names) && k < |names|
    ensures names[k] !in names[..k]
  {
    forall i | 0 <= i < k ensures names[i] != names[k] {
      LessIrreflexive(names[i]);
    }
  }
}
