/** The string operations that the printers and parsers use: trimming, cutting, splitting, decimal numbers. */
module Text {
  import opened Basics

  const MIN_INT64 := -0x8000_0000_0000_0000
  const MAX_INT64 := 0x7fff_ffff_ffff_ffff

  predicate IsInt64(v: int) { MIN_INT64 <= v <= MAX_INT64 }

  /** unicode.IsSpace. */
  predicate IsSpace(c: char) {
    var n := c as int;
    9 <= n <= 13 || n == 0x20 || n == 0x85 || n == 0xA0 || n == 0x1680 || 0x2000 <= n <= 0x200A
    || n == 0x2028 || n == 0x2029 || n == 0x202F || n == 0x205F || n == 0x3000
  }

  /** strings.TrimSpace. */
  function TrimSpace(s: string): string
    decreases |s|
  {
    if s == [] then s
    else if IsSpace(s[0]) then TrimSpace(s[1..])
    else if IsSpace(s[|s| - 1]) then TrimSpace(s[..|s| - 1])
    else s
  }

  /** The part before the first `sep`, or all of `s`. */
  function Before<T(==)>(s: seq<T>, sep: T): (r: seq<T>)
    ensures |r| <= |s| && r == s[..|r|] && sep !in r
    ensures sep in s ==> |r| < |s| && s[|r|] == sep
  {
    if s == [] || s[0] == sep then [] else [s[0]] + Before(s[1..], sep)
  }

  /** strings.Split with a one-element separator. */
  function Split<T(==)>(s: seq<T>, sep: T): seq<seq<T>>
    decreases |s|
  {
    if sep !in s then [s] else [Before(s, sep)] + Split(s[|Before(s, sep)| + 1..], sep)
  }

  lemma {:induction false} BeforeJoined<T>(a: seq<T>, sep: T, b: seq<T>)
    requires sep !in a
    ensures Before(a + [sep] + b, sep) == a
    ensures Before(a, sep) == a
  {
    if a == [] {
      assert a + [sep] + b == [sep] + b;
    } else {
      assert (a + [sep] + b)[1..] == a[1..] + [sep] + b;
      BeforeJoined(a[1..], sep, b);
    }
  }

  lemma SplitJoined<T>(a: seq<T>, sep: T, b: seq<T>)
    requires sep !in a
    ensures Split(a + [sep] + b, sep) == [a] + Split(b, sep)
  {
    BeforeJoined(a, sep, b);
    var s := a + [sep] + b;
    assert s[|a|] == sep;
    assert s[|a| + 1..] == b;
  }

  function Count<T(==)>(s: seq<T>, x: T): nat {
    multiset(s)[x]
  }

  lemma CountJoined<T>(a: seq<T>, x: T, b: seq<T>)
    ensures Count(a + [x] + b, x) == Count(a, x) + 1 + Count(b, x)
  {
  }

  /** There is one piece more than there are separators. */
  lemma {:induction false} SplitCount<T>(s: seq<T>, sep: T)
    ensures |Split(s, sep)| == 1 + Count(s, sep)
    decreases |s|
  {
    if sep in s {
      var n := |Before(s, sep)|;
      SplitCount(s[n + 1..], sep);
      assert s == s[..n] + [sep] + s[n + 1..];
      CountJoined(s[..n], sep, s[n + 1..]);
    }
  }

  // ---------------------------------------------------------------- decimal numbers

  function DigitChar(d: int): char
    requires 0 <= d < 10
  {
    '0' + d as char
  }

  predicate IsDigit(c: char) { '0' <= c <= '9' }

  /** The decimal digits of a positive number; nothing for other numbers. */
  function Digits(n: int): (s: string)
    ensures forall i :: 0 <= i < |s| ==> IsDigit(s[i])
    ensures n > 0 ==> s != []
  {
    if n <= 0 then [] else Digits(n / 10) + [DigitChar(n % 10)]
  }

  /** strconv.FormatInt in base 10. */
  function FormatInt(n: int): string {
    if n == 0 then "0" else if n < 0 then "-" + Digits(-n) else Digits(n)
  }

  /** The number a string of digits stands for. */
  function Number(s: string): int {
    if s == [] then 0 else Number(s[..|s| - 1]) * 10 + (s[|s| - 1] as int - '0' as int)
  }

  lemma {:induction false} NumberOfDigits(n: int)
    requires 0 <= n
    ensures Number(Digits(n)) == n
    decreases n
  {
    if n > 0 {
      NumberOfDigits(n / 10);
      assert Digits(n)[..|Digits(n)| - 1] == Digits(n / 10);
    }
  }

  /** strconv.ParseInt in base 10 for 64 bits: a sign, at least one digit, nothing else, no overflow. */
  function ParseInt(s: string): Option<int> {
    var negative := s != [] && s[0] == '-';
    var digits := if s != [] && (s[0] == '-' || s[0] == '+') then s[1..] else s;
    if digits == [] || exists i :: 0 <= i < |digits| && !IsDigit(digits[i]) then None
    else
      var v := if negative then -Number(digits) else Number(digits);
      if IsInt64(v) then Some(v) else None
  }

  lemma ParseDigits(ds: string, v: int)
    requires ds != [] && forall i :: 0 <= i < |ds| ==> IsDigit(ds[i])
    requires Number(ds) == v
    ensures IsInt64(v) ==> ParseInt(ds) == Some(v)
    ensures IsInt64(-v) ==> ParseInt(['-'] + ds) == Some(-v)
  {
    assert IsDigit(ds[0]);
    assert (['-'] + ds)[1..] == ds;
  }

  lemma ParseUndoesFormat(n: int)
    requires IsInt64(n)
    ensures ParseInt(FormatInt(n)) == Some(n)
  {
    if n == 0 {
      assert "0"[..|"0"| - 1] == [];
      assert Number("0") == 0;
      ParseDigits("0", 0);
    } else if n < 0 {
      NumberOfDigits(-n);
      ParseDigits(Digits(-n), -n);
    } else {
      NumberOfDigits(n);
      ParseDigits(Digits(n), n);
    }
  }
}
