/** Page cursors: three fields joined by '|', in unpadded base64url (section 5 of RFC 4648). */
module Cursors {
  import opened Basics
  import opened Text

  // ---------------------------------------------------------------- base64url

  function Letter(n: int): char
    requires 0 <= n < 64
  {
    if n < 26 then 'A' + n as char
    else if n < 52 then 'a' + (n - 26) as char
    else if n < 62 then '0' + (n - 52) as char
    else if n == 62 then '-' else '_'
  }

  /** The value of a letter of the alphabet, or -1. */
  function LetterValue(c: char): (n: int)
    ensures -1 <= n < 64
  {
    if 'A' <= c <= 'Z' then c as int - 'A' as int
    else if 'a' <= c <= 'z' then c as int - 'a' as int + 26
    else if '0' <= c <= '9' then c as int - '0' as int + 52
    else if c == '-' then 62 else if c == '_' then 63 else -1
  }

  /** Six-bit groups: four for three bytes, and two or three for what is left. */
  function Sextets(b: Bytes): (s: seq<int>)
    ensures forall i :: 0 <= i < |s| ==> 0 <= s[i] < 64
  {
    if |b| == 0 then []
    else if |b| == 1 then [b[0] / 4, b[0] % 4 * 16]
    else if |b| == 2 then [b[0] / 4, b[0] % 4 * 16 + b[1] / 16, b[1] % 16 * 4]
    else [b[0] / 4, b[0] % 4 * 16 + b[1] / 16, b[1] % 16 * 4 + b[2] / 64, b[2] % 64] + Sextets(b[3..])
  }

  /** base64.RawURLEncoding.EncodeToString. */
  function EncodeBase64(b: Bytes): string {
    seq(|Sextets(b)|, i requires 0 <= i < |Sextets(b)| => Letter(Sextets(b)[i]))
  }

  /** The decoder skips line ends. */
  function WithoutLineEnds(s: string): string {
    if s == [] then s
    else (if s[0] == '\n' || s[0] == '\r' then [] else [s[0]]) + WithoutLineEnds(s[1..])
  }

  /** The bytes of the groups; left-over bits of a last short group are dropped, one lone group is an error. */
  function Octuples(v: seq<int>): Option<Bytes>
    requires forall i :: 0 <= i < |v| ==> 0 <= v[i] < 64
  {
    if |v| == 0 then Some([])
    else if |v| == 1 then None
    else if |v| == 2 then Some([v[0] * 4 + v[1] / 16])
    else if |v| == 3 then Some([v[0] * 4 + v[1] / 16, v[1] % 16 * 16 + v[2] / 4])
    else
      match Octuples(v[4..])
      case None => None
      case Some(rest) => Some([v[0] * 4 + v[1] / 16, v[1] % 16 * 16 + v[2] / 4, v[2] % 4 * 64 + v[3]] + rest)
  }

  predicate InAlphabet(s: string) {
    forall i :: 0 <= i < |s| ==> LetterValue(s[i]) >= 0
  }

  /** base64.RawURLEncoding.DecodeString. */
  function DecodeBase64(s: string): Option<Bytes> {
    var t := WithoutLineEnds(s);
    if !InAlphabet(t) then None
    else Octuples(seq(|t|, i requires 0 <= i < |t| => LetterValue(t[i])))
  }

  lemma LetterHasItsValue(n: int)
    requires 0 <= n < 64
    ensures LetterValue(Letter(n)) == n
  {
  }

  lemma Regrouped(x: byte, y: byte, z: byte, a: int, b: int, c: int, d: int)
    requires a == x / 4 && b == x % 4 * 16 + y / 16
    ensures a * 4 + b / 16 == x
    ensures c == y % 16 * 4 + z / 64 ==> b % 16 * 16 + c / 4 == y
    ensures c == y % 16 * 4 + z / 64 && d == z % 64 ==> c % 4 * 64 + d == z
  {
    assert x == x / 4 * 4 + x % 4;
    assert y == y / 16 * 16 + y % 16;
    assert z == z / 64 * 64 + z % 64;
  }

  predicate IsSextets(v: seq<int>) {
    forall i :: 0 <= i < |v| ==> 0 <= v[i] < 64
  }

  lemma ShortOctuples(v: seq<int>, x: byte, y: byte)
    requires IsSextets(v)
    ensures |v| == 2 && v[0] * 4 + v[1] / 16 == x ==> Octuples(v) == Some([x])
    ensures |v| == 3 && v[0] * 4 + v[1] / 16 == x && v[1] % 16 * 16 + v[2] / 4 == y ==> Octuples(v) == Some([x, y])
  {
  }

  lemma LongOctuples(v: seq<int>, x: byte, y: byte, z: byte, rest: Bytes)
    requires IsSextets(v) && |v| >= 4 && Octuples(v[4..]) == Some(rest)
    requires v[0] * 4 + v[1] / 16 == x
    requires v[1] % 16 * 16 + v[2] / 4 == y
    requires v[2] % 4 * 64 + v[3] == z
    ensures Octuples(v) == Some([x, y, z] + rest)
  {
  }

  lemma SextetsOfOne(b: Bytes, v: seq<int>)
    requires |b| == 1 && v == Sextets(b)
    ensures v[0] * 4 + v[1] / 16 == b[0]
  {
    Regrouped(b[0], 0, 0, v[0], v[1], 0, 0);
  }

  lemma SextetsOfTwo(b: Bytes, v: seq<int>)
    requires |b| == 2 && v == Sextets(b)
    ensures v[0] * 4 + v[1] / 16 == b[0]
    ensures v[1] % 16 * 16 + v[2] / 4 == b[1]
  {
    Regrouped(b[0], b[1], 0, v[0], v[1], v[2], 0);
  }

  lemma SextetsOfMore(b: Bytes, v: seq<int>)
    requires |b| >= 3 && v == Sextets(b)
    ensures |v| >= 4 && v[4..] == Sextets(b[3..])
    ensures v[0] * 4 + v[1] / 16 == b[0]
    ensures v[1] % 16 * 16 + v[2] / 4 == b[1]
    ensures v[2] % 4 * 64 + v[3] == b[2]
  {
    Regrouped(b[0], b[1], b[2], v[0], v[1], v[2], v[3]);
  }

  lemma {:induction false} OctuplesUndoSextets(b: Bytes, v: seq<int>)
    requires v == Sextets(b)
    ensures Octuples(v) == Some(b)
    decreases |b|
  {
    if |b| == 1 {
      SextetsOfOne(b, v);
      ShortOctuples(v, b[0], 0);
      assert b == [b[0]];
    } else if |b| == 2 {
      SextetsOfTwo(b, v);
      ShortOctuples(v, b[0], b[1]);
      assert b == [b[0], b[1]];
    } else if |b| >= 3 {
      SextetsOfMore(b, v);
      OctuplesUndoSextets(b[3..], v[4..]);
      LongOctuples(v, b[0], b[1], b[2], b[3..]);
      assert b == [b[0], b[1], b[2]] + b[3..];
    }
  }

  lemma {:induction false} NoLineEndsInAlphabet(s: string)
    requires InAlphabet(s)
    ensures WithoutLineEnds(s) == s
  {
    if s != [] { NoLineEndsInAlphabet(s[1..]); }
  }

  lemma DecodeUndoesEncode(b: Bytes)
    ensures DecodeBase64(EncodeBase64(b)) == Some(b)
    ensures InAlphabet(EncodeBase64(b))
    ensures b != [] ==> EncodeBase64(b) != []
  {
    var e, v := EncodeBase64(b), Sextets(b);
    forall i | 0 <= i < |e| ensures LetterValue(e[i]) == v[i] {
      LetterHasItsValue(v[i]);
    }
    NoLineEndsInAlphabet(e);
    assert seq(|e|, i requires 0 <= i < |e| => LetterValue(e[i])) == v;
    OctuplesUndoSextets(b, v);
  }

  // ---------------------------------------------------------------- cursors

  const BAR: byte := 124

  /** Go strings are bytes; the two text fields may hold any. */
  datatype Cursor = Cursor(value: Bytes, version: int, direction: Bytes)

  function Octets(s: string): Bytes
    requires forall i :: 0 <= i < |s| ==> s[i] as int < 256
  {
    seq(|s|, i requires 0 <= i < |s| => s[i] as int)
  }

  function Chars(b: Bytes): string {
    seq(|b|, i requires 0 <= i < |b| => b[i] as char)
  }

  lemma FormatIsAscii(n: int)
    ensures forall i :: 0 <= i < |FormatInt(n)| ==> FormatInt(n)[i] as int < 124
  {
  }

  function Raw(c: Cursor): Bytes {
    FormatIsAscii(c.version);
    c.value + [BAR] + Octets(FormatInt(c.version)) + [BAR] + c.direction
  }

  function Encode(c: Cursor): string {
    EncodeBase64(Raw(c))
  }

  function DecodeCursor(v: string): Result<Cursor> {
    if TrimSpace(v) == "" then Success(Cursor([], 0, []))
    else match DecodeBase64(v)
      case None => Failure(Validation("cursor"))
      case Some(raw) =>
        var parts := Split(raw, BAR);
        if |parts| != 3 then Failure(Validation("cursor"))
        else match ParseInt(Chars(parts[1]))
          case None => Failure(Validation("cursor"))
          case Some(version) => Success(Cursor(parts[0], version, parts[2]))
  }

  /** What Split makes of the raw cursor. */
  lemma RawSplits(c: Cursor)
    requires BAR !in c.value && BAR !in c.direction
    ensures Split(Raw(c), BAR) == [c.value, Octets(FormatInt(c.version)), c.direction]
  {
    FormatIsAscii(c.version);
    var number := Octets(FormatInt(c.version));
    var tail := number + [BAR] + c.direction;
    assert Raw(c) == c.value + [BAR] + tail;
    SplitJoined(number, BAR, c.direction);
    SplitJoined(c.value, BAR, tail);
  }

  lemma RawSplitsInMore(c: Cursor)
    requires BAR in c.value || BAR in c.direction
    ensures |Split(Raw(c), BAR)| > 3
  {
    FormatIsAscii(c.version);
    var number := Octets(FormatInt(c.version));
    assert Raw(c) == c.value + [BAR] + (number + [BAR] + c.direction);
    SplitCount(Raw(c), BAR);
    CountJoined(c.value, BAR, number + [BAR] + c.direction);
    CountJoined(number, BAR, c.direction);
  }

  lemma EncodedIsInk(c: Cursor)
    ensures TrimSpace(Encode(c)) != ""
    ensures DecodeBase64(Encode(c)) == Some(Raw(c))
  {
    DecodeUndoesEncode(Raw(c));
    assert !IsSpace(Encode(c)[0]) && !IsSpace(Encode(c)[|Encode(c)| - 1]);
  }

  lemma NumberReadsBack(n: int)
    requires IsInt64(n)
    ensures forall i :: 0 <= i < |FormatInt(n)| ==> FormatInt(n)[i] as int < 124
    ensures ParseInt(Chars(Octets(FormatInt(n)))) == Some(n)
  {
    FormatIsAscii(n);
    assert Chars(Octets(FormatInt(n))) == FormatInt(n);
    ParseUndoesFormat(n);
  }

  /** A cursor decodes to itself exactly when neither text field holds a '|'; otherwise decoding reports
      an invalid cursor. */
  lemma DecodeCursorUndoesEncode(c: Cursor)
    requires IsInt64(c.version)
    ensures DecodeCursor(Encode(c)) ==
      if BAR in c.value || BAR in c.direction then Failure(Validation("cursor")) else Success(c)
  {
    EncodedIsInk(c);
    NumberReadsBack(c.version);
    if BAR in c.value || BAR in c.direction { RawSplitsInMore(c); } else { RawSplits(c); }
  }

  // ---------------------------------------------------------------- the text of a cursor

  /** The URL-safe alphabet: A to Z, a to z, 0 to 9, '-' and '_' (section 5 of RFC 4648). */
  lemma LettersAreTheAlphabet(n: int)
    requires 0 <= n < 64
    ensures n < 25 || 26 <= n < 51 || 52 <= n < 61 ==> Letter(n + 1) as int == Letter(n) as int + 1
    ensures Letter(0) == 'A' && Letter(25) == 'Z' && Letter(26) == 'a' && Letter(51) == 'z'
    ensures Letter(52) == '0' && Letter(61) == '9' && Letter(62) == '-' && Letter(63) == '_'
  {
  }

  lemma Divided(x: int, y: int, m: int)
    requires 0 < m && x == y
    ensures x == y / m * m + y % m
  {
  }

  /** One byte, and two, that are left over: their number with zero bits behind it. */
  lemma ShortSextets(b: Bytes, v: seq<int>)
    requires v == Sextets(b)
    ensures |b| == 1 ==> |v| == 2 && v[0] * 64 + v[1] == b[0] as int * 16
    ensures |b| == 2 ==> |v| == 3 && v[0] * 4096 + v[1] * 64 + v[2] == (b[0] as int * 256 + b[1] as int) * 4
  {
    if |b| > 0 { Divided(b[0], b[0], 4); }
    if |b| > 1 { Divided(b[1], b[1], 16); }
  }

  /** Three bytes and their four groups are one number, in base 256 and in base 64. */
  lemma LongSextets(b: Bytes, v: seq<int>)
    requires |b| >= 3 && v == Sextets(b)
    ensures |v| >= 4 && v[4..] == Sextets(b[3..])
    ensures v[0] * 262144 + v[1] * 4096 + v[2] * 64 + v[3] ==
        b[0] as int * 65536 + b[1] as int * 256 + b[2] as int
  {
    Divided(b[0], b[0], 4);
    Divided(b[1], b[1], 16);
    Divided(b[2], b[2], 64);
  }

  lemma ExampleRaw(raw: Bytes)
    requires raw == [97, 124, 55, 124, 110]
    ensures Raw(Cursor([97], 7, [110])) == raw
  {
    assert FormatInt(7) == Digits(7) == Digits(0) + ['7'];
    assert Octets("7") == [55];
  }

  /** The cursor with value "a", version 7 and direction "n" is the text "a|7|n", encoded. */
  lemma CursorExample(raw: Bytes)
    requires raw == [97, 124, 55, 124, 110]
    ensures Encode(Cursor([97], 7, [110])) == "YXw3fG4"
  {
    ExampleRaw(raw);
    assert raw[3..] == [124, 110];
    assert Sextets(raw[3..]) == [31, 6, 56];
    assert Sextets(raw) == [24, 23, 48, 55] + [31, 6, 56];
  }
}
