/** The Content-Range header value: printed by RangeSpec, read back by parseContentRange
    (section 14.4 of RFC 9110). */
module ContentRange {
  import opened Basics
  import opened Ranges
  import opened Text

  /** Negation of a 64-bit integer: the least one stays itself. */
  function Negate(v: int): int {
    if v == MIN_INT64 then v else -v
  }

  /** What the digit loop below prints. */
  function Printed(v: int): string {
    if v == 0 then "0" else if v < 0 then "-" + Digits(Negate(v)) else Digits(v)
  }

  lemma OneDigitLess(n: int, s: string)
    requires n > 0
    ensures Digits(n) + s == Digits(n / 10) + ([DigitChar(n % 10)] + s)
  {
  }

  method Itoa(v: int) returns (s: string)
    requires IsInt64(v)
    ensures s == Printed(v)
    ensures v != MIN_INT64 ==> s == FormatInt(v)
  {
    if v == 0 { return "0"; }
    var n := v;
    var negative := n < 0;
    if negative { n := Negate(n); }
    ghost var all := Digits(n);
    s := "";
    while n > 0
      invariant Digits(n) + s == all
      decreases n
    {
      OneDigitLess(n, s);
      s := [DigitChar(n % 10)] + s;
      n := n / 10;
    }
    assert s == all;
    if negative { return "-" + s; }
  }

  /** The printer agrees with strconv.FormatInt on every 64-bit integer but the least, of which it prints
      the sign alone. */
  lemma PrintedIsFormatIntIff(v: int)
    requires IsInt64(v)
    ensures Printed(v) == FormatInt(v) <==> v != MIN_INT64
  {
    if v == MIN_INT64 {
      assert |FormatInt(v)| > 1 && |Printed(v)| == 1;
    }
  }

  datatype RangeSpec = RangeSpec(start: int, end: int, completeLength: int) {

    function Header(): string {
      "bytes " + (Printed(start) + ['-'] + Printed(end) + ['/'] + Printed(completeLength))
    }

    method ContentRange() returns (s: string)
      requires IsInt64(start) && IsInt64(end) && IsInt64(completeLength)
      ensures s == Header()
    {
      var a := Itoa(start);
      var b := Itoa(end);
      var c := Itoa(completeLength);
      return "bytes " + (a + ['-'] + b + ['/'] + c);
    }
  }

  function ParseContentRange(v: string): Result<ByteRange> {
    var t := TrimSpace(v);
    if !("bytes " <= t) then Failure(Validation("Content-Range"))
    else
      var pieces := Split(Before(t[|"bytes "|..], '/'), '-');
      if |pieces| != 2 then Failure(InvalidRange)
      else
        var a, b := ParseInt(pieces[0]), ParseInt(pieces[1]);
        if a.None? || b.None? then Failure(InvalidRange)
        else NewByteRange(a.value, b.value)
  }

  lemma PrintedHasNoSlash(v: int)
    requires IsInt64(v)
    ensures '/' !in Printed(v)
    ensures forall i :: 0 <= i < |Printed(v)| ==> !IsSpace(Printed(v)[i])
    ensures 0 <= v ==> '-' !in Printed(v)
    ensures Printed(v) != []
  {
  }

  lemma HeaderIsNotTrimmed(r: RangeSpec)
    requires IsInt64(r.start) && IsInt64(r.end) && IsInt64(r.completeLength)
    ensures TrimSpace(r.Header()) == r.Header()
  {
    PrintedHasNoSlash(r.completeLength);
    var h, last := r.Header(), Printed(r.completeLength);
    assert h[|h| - 1] == last[|last| - 1];
    assert h[0] == 'b';
  }

  /** What stands between "bytes " and '/' is the two numbers. */
  lemma HeaderParts(r: RangeSpec, part: string)
    requires IsInt64(r.start) && IsInt64(r.end) && IsInt64(r.completeLength)
    requires part == Printed(r.start) + ['-'] + Printed(r.end)
    ensures "bytes " <= r.Header()
    ensures Before(r.Header()[|"bytes "|..], '/') == part
  {
    PrintedHasNoSlash(r.start);
    PrintedHasNoSlash(r.end);
    var rest := part + ['/'] + Printed(r.completeLength);
    assert ("bytes " + rest)[|"bytes "|..] == rest;
    BeforeJoined(part, '/', Printed(r.completeLength));
  }

  lemma DashesPrinted(v: int)
    requires IsInt64(v)
    ensures Count(Printed(v), '-') == if v < 0 then 1 else 0
  {
    if v < 0 {
      assert Printed(v) == ['-'] + Digits(Negate(v));
    }
  }

  /** Two printed numbers come apart again exactly when neither is negative. */
  lemma SplitPair(a: int, b: int, part: string)
    requires IsInt64(a) && IsInt64(b) && part == Printed(a) + ['-'] + Printed(b)
    ensures 0 <= a && 0 <= b ==> Split(part, '-') == [Printed(a), Printed(b)]
    ensures a < 0 || b < 0 ==> |Split(part, '-')| > 2
  {
    DashesPrinted(a);
    DashesPrinted(b);
    SplitCount(part, '-');
    CountJoined(Printed(a), '-', Printed(b));
    if 0 <= a && 0 <= b {
      PrintedHasNoSlash(a);
      PrintedHasNoSlash(b);
      SplitJoined(Printed(a), '-', Printed(b));
      assert [Printed(a)] + [Printed(b)] == [Printed(a), Printed(b)];
    }
  }

  /** Reading the header back gives the range for exactly the ranges that NewByteRange accepts, and the
      same error for all others, whatever the complete length is. */
  lemma ParseUndoesPrint(r: RangeSpec)
    requires IsInt64(r.start) && IsInt64(r.end) && IsInt64(r.completeLength)
    ensures ParseContentRange(r.Header()) == NewByteRange(r.start, r.end)
  {
    var part := Printed(r.start) + ['-'] + Printed(r.end);
    HeaderIsNotTrimmed(r);
    HeaderParts(r, part);
    SplitPair(r.start, r.end, part);
    ParseUndoesFormat(r.start);
    ParseUndoesFormat(r.end);
    if 0 <= r.start && 0 <= r.end {
      PrintedIsFormatIntIff(r.start);
      PrintedIsFormatIntIff(r.end);
    }
  }

  /** The bytes 0 to 499 of 1234. */
  lemma HeaderExample()
    ensures RangeSpec(0, 499, 1234).Header() == "bytes 0-499/1234"
  {
    assert Digits(499) == Digits(4) + ['9'] + ['9'] && Digits(4) == Digits(0) + ['4'];
    assert Digits(1234) == Digits(12) + ['3'] + ['4'];
    assert Digits(12) == Digits(1) + ['2'] && Digits(1) == Digits(0) + ['1'];
  }
}
