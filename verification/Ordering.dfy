/** The byte-wise order of strings, the sorting of lists, and the one sorted list of a set of names. */
module Ordering {

  /** Go's `a < b` on strings. */
  predicate Less(a: string, b: string) {
    b != [] && (a == [] || a[0] < b[0] || (a[0] == b[0] && Less(a[1..], b[1..])))
  }

  /** Up to place k the two are the same, and there `a` ends or has the smaller character. */
  predicate SmallerAt(a: string, b: string, k: int) {
    0 <= k < |b| && k <= |a| && a[..k] == b[..k] && (k == |a| || a[k] < b[k])
  }

  lemma HeadsAgree(a: string, b: string, k: nat)
    requires 0 < k <= |a| && k <= |b| && a[..k] == b[..k]
    ensures a[0] == b[0]
  {
    assert a[..k][0] == a[0] && b[..k][0] == b[0];
  }

  /** The order is the lexicographic one. */
  lemma {:induction false} LessIsLexicographic(a: string, b: string)
    ensures Less(a, b) <==> exists k :: SmallerAt(a, b, k)
    decreases |a|
  {
    if a == [] || b == [] || a[0] != b[0] {
      if Less(a, b) { assert SmallerAt(a, b, 0); }
      if k :| SmallerAt(a, b, k) && k > 0 { HeadsAgree(a, b, k); }
    } else {
      LessIsLexicographic(a[1..], b[1..]);
      if k :| SmallerAt(a[1..], b[1..], k) {
        assert a[..k + 1] == [a[0]] + a[1..][..k] && b[..k + 1] == [b[0]] + b[1..][..k];
        assert SmallerAt(a, b, k + 1);
      }
      if k :| SmallerAt(a, b, k) {
        assert a[1..][..k - 1] == a[..k][1..] && b[1..][..k - 1] == b[..k][1..];
        assert SmallerAt(a[1..], b[1..], k - 1);
      }
    }
  }

  lemma {:induction false} LessIrreflexive(a: string)
    ensures !Less(a, a)
  {
    if a != [] {
      LessIrreflexive(a[1..]);
    }
  }

  lemma {:induction false} LessTransitive(a: string, b: string, c: string)
    requires Less(a, b) && Less(b, c)
    ensures Less(a, c)
  {
    if a != [] && a[0] == b[0] && b[0] == c[0] {
      LessTransitive(a[1..], b[1..], c[1..]);
    }
  }

  lemma {:induction false} LessTotal(a: string, b: string)
    ensures Less(a, b) || a == b || Less(b, a)
  {
    if a != [] && b != [] && a[0] == b[0] {
      LessTotal(a[1..], b[1..]);
      assert a[1..] == b[1..] ==> [a[0]] + a[1..] == [b[0]] + b[1..];
      assert a == [a[0]] + a[1..] && b == [b[0]] + b[1..];
    }
  }

  lemma {:induction false} LessAsymmetric(a: string, b: string)
    requires Less(a, b)
    ensures !Less(b, a)
  {
    if Less(b, a) {
      LessTransitive(a, b, a);
      LessIrreflexive(a);
    }
  }

  ghost predicate StrictlySorted(names: seq<string>) {
    forall i, j :: 0 <= i < j < |names| ==> Less(names[i], names[j])
  }

  /** The list holds each name of the set once, in increasing order. */
  ghost predicate Enumerates(names: seq<string>, all: set<string>) {
    && StrictlySorted(names)
    && (forall x :: x in names <==> x in all)
  }

  lemma {:induction false} EnumerationUnique(a: seq<string>, b: seq<string>, all: set<string>)
    requires Enumerates(a, all) && Enumerates(b, all)
    ensures a == b
    decreases |a|
  {
    assert a != [] ==> a[0] in a && a[0] in b;
    assert b != [] ==> b[0] in b && b[0] in a;
    if a != [] {
      var i :| 0 <= i < |b| && b[i] == a[0];
      var j :| 0 <= j < |a| && a[j] == b[0];
      if i > 0 {
        assert Less(b[0], a[0]);
        if j > 0 { LessAsymmetric(a[0], b[0]); }
        LessIrreflexive(a[0]);
      }
      TailEnumerates(a, all);
      TailEnumerates(b, all);
      EnumerationUnique(a[1..], b[1..], all - {a[0]});
      assert a == [a[0]] + a[1..] && b == [b[0]] + b[1..];
    }
  }

  ghost predicate IsLeast(m: string, all: set<string>) {
    m in all && forall x :: x in all ==> NotAfter(m, x)
  }

  lemma {:induction false} LeastExists(all: set<string>)
    requires all != {}
    ensures exists m :: IsLeast(m, all)
    decreases |all|
  {
    var m :| m in all;
    var rest := all - {m};
    assert forall x :: x in all ==> x == m || x in rest;
    if rest == {} {
      assert IsLeast(m, all);
    } else {
      LeastExists(rest);
      var l :| IsLeast(l, rest);
      NotAfterIsTotal();
      assert IsLeast(if NotAfter(l, m) then l else m, all);
    }
  }

  lemma ConsEnumerates(m: string, rest: seq<string>, all: set<string>)
    requires IsLeast(m, all) && Enumerates(rest, all - {m})
    ensures Enumerates([m] + rest, all)
  {
    var names := [m] + rest;
    forall i, j | 0 <= i < j < |names| ensures Less(names[i], names[j]) {
      if i == 0 {
        assert names[j] == rest[j - 1] && rest[j - 1] in rest;
      }
    }
  }

  /** The names of a set in increasing order. */
  ghost function SortedNames(all: set<string>): (names: seq<string>)
    ensures Enumerates(names, all)
    decreases |all|
  {
    if all == {} then []
    else
      LeastExists(all);
      var m :| IsLeast(m, all);
      var rest := SortedNames(all - {m});
      ConsEnumerates(m, rest, all);
      [m] + rest
  }

  lemma {:induction false} TailEnumerates(a: seq<string>, all: set<string>)
    requires Enumerates(a, all) && a != []
    ensures Enumerates(a[1..], all - {a[0]})
  {
    forall x ensures x in a[1..] <==> x in all - {a[0]} {
      if x in a[1..] {
        var i :| 0 <= i < |a[1..]| && a[1..][i] == x;
        assert Less(a[0], a[i + 1]);
        LessIrreflexive(x);
        assert x in a;
      }
      if x in all - {a[0]} {
        assert x in a;
        var i :| 0 <= i < |a| && a[i] == x;
        assert a[1..][i - 1] == x;
      }
    }
  }

  /** `le` orders every two elements, and is transitive. */
  ghost predicate TotalPreorder<T(!new)>(le: (T, T) -> bool) {
    && (forall x, y :: le(x, y) || le(y, x))
    && (forall x, y, z :: le(x, y) && le(y, z) ==> le(x, z))
  }

  ghost predicate SortedBy<T>(le: (T, T) -> bool, s: seq<T>) {
    forall i, j :: 0 <= i < j < |s| ==> le(s[i], s[j])
  }

  lemma InsertedSorted<T(!new)>(le: (T, T) -> bool, r: seq<T>, k: nat, x: T, s: seq<T>)
    requires SortedBy(le, r) && k <= |r|
    requires forall i :: 0 <= i < k ==> le(r[i], x)
    requires forall i :: k <= i < |r| ==> le(x, r[i])
    requires s == r[..k] + [x] + r[k..]
    ensures SortedBy(le, s)
    ensures multiset(s) == multiset(r) + multiset{x}
  {
    assert r == r[..k] + r[k..];
  }

  /** Stands for Go's `sort.Slice` and `sort.Strings`: callers may rely on a sorted
      permutation and on nothing about the order of equal elements. */
  method SortSlice<T(!new)>(s: seq<T>, le: (T, T) -> bool) returns (r: seq<T>)
    requires TotalPreorder(le)
    ensures SortedBy(le, r)
    ensures multiset(r) == multiset(s)
  {
    r := [];
    for n := 0 to |s|
      invariant SortedBy(le, r)
      invariant multiset(r) == multiset(s[..n])
    {
      var x := s[n];
      var k := 0;
      while k < |r| && le(r[k], x)
        invariant 0 <= k <= |r|
        invariant forall i :: 0 <= i < k ==> le(r[i], x)
      {
        k := k + 1;
      }
      assert s[..n + 1] == s[..n] + [x];
      InsertedSorted(le, r, k, x, r[..k] + [x] + r[k..]);
      r := r[..k] + [x] + r[k..];
    }
    assert s[..|s|] == s;
  }

  predicate NotAfter(a: string, b: string) {
    a == b || Less(a, b)
  }

  lemma NotAfterIsTotal()
    ensures TotalPreorder(NotAfter)
  {
    forall x, y ensures NotAfter(x, y) || NotAfter(y, x) {
      LessTotal(x, y);
    }
    forall x, y, z | NotAfter(x, y) && NotAfter(y, z) ensures NotAfter(x, z) {
      if Less(x, y) && Less(y, z) { LessTransitive(x, y, z); }
    }
  }

  /** A list of names without repetition. */
  ghost predicate Distinct<T>(s: seq<T>) {
    forall i, j :: 0 <= i < j < |s| ==> s[i] != s[j]
  }

  lemma SameElements<T>(a: seq<T>, b: seq<T>)
    requires multiset(a) == multiset(b)
    ensures |a| == |b|
    ensures forall x :: x in a <==> x in b
  {
    assert |multiset(a)| == |a| && |multiset(b)| == |b|;
    forall x ensures x in a <==> x in b {
      assert x in multiset(a) <==> x in a;
      assert x in multiset(b) <==> x in b;
    }
  }

  lemma DistinctCountsOne<T>(s: seq<T>, x: T)
    requires Distinct(s) && x in s
    ensures multiset(s)[x] == 1
  {
    var i :| 0 <= i < |s| && s[i] == x;
    assert s == s[..i] + [x] + s[i + 1..];
    assert x !in s[..i] && x !in s[i + 1..];
  }

  lemma RepeatedCountsTwo<T>(s: seq<T>, i: nat, j: nat)
    requires i < j < |s| && s[i] == s[j]
    ensures multiset(s)[s[i]] >= 2
  {
    var tail := s[i + 1..];
    assert s == s[..i] + [s[i]] + tail;
    assert tail[j - i - 1] == s[i];
    assert s[i] in multiset(tail);
  }

  lemma PermutationKeepsDistinct<T>(a: seq<T>, b: seq<T>)
    requires multiset(a) == multiset(b) && Distinct(a)
    ensures Distinct(b)
  {
    SameElements(a, b);
    forall i: nat, j: nat | i < j < |b| ensures b[i] != b[j] {
      if b[i] == b[j] {
        RepeatedCountsTwo(b, i, j);
        DistinctCountsOne(a, b[i]);
      }
    }
  }

  /** Sorts names that do not repeat: the result is the one enumeration of their set. */
  method SortNames(names: seq<string>, ghost all: set<string>) returns (r: seq<string>)
    requires Distinct(names)
    requires forall x :: x in names <==> x in all
    ensures Enumerates(r, all)
  {
    NotAfterIsTotal();
    r := SortSlice(names, NotAfter);
    SameElements(names, r);
    PermutationKeepsDistinct(names, r);
  }
}
