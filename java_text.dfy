/**
 * The pieces of the Java platform that the authentication code leans on for text:
 * `Character.isWhitespace`, Spring's `StringUtils.hasText`, `String.trim`,
 * `String.indexOf`, `String.startsWith`, `String.split` with a one-character separator,
 * and the decimal text of a `long` (`Long.toString`, `Long.parseLong`).
 */
module JavaText {
  import opened Wrappers

  const LONG_MIN: int := -0x8000_0000_0000_0000
  const LONG_MAX: int := 0x7FFF_FFFF_FFFF_FFFF

  /** A Java `long`. */
  type Long = n: int | LONG_MIN <= n <= LONG_MAX

  /** `Character.isWhitespace`: the ASCII separators and the Unicode space separators other than no-break spaces. */
  predicate IsWhitespace(c: char) {
    || c == ' '
    || ('\t' <= c <= '\r')
    || ('\U{1C}' <= c <= '\U{1F}')
    || c == '\U{1680}'
    || ('\U{2000}' <= c <= '\U{2006}')
    || ('\U{2008}' <= c <= '\U{200A}')
    || c == '\U{2028}' || c == '\U{2029}' || c == '\U{205F}' || c == '\U{3000}'
  }

  /** Some character of `s` is not whitespace. */
  predicate HasTextIn(s: string) {
    exists i | 0 <= i < |s| :: !IsWhitespace(s[i])
  }

  /** `StringUtils.hasText`: not null, and not only whitespace. */
  predicate HasText(s: Option<string>) {
    s.Some? && HasTextIn(s.value)
  }

  /** `String.startsWith`. */
  predicate StartsWith(s: string, prefix: string) {
    |prefix| <= |s| && s[..|prefix|] == prefix
  }

  /** `String.indexOf(char)`: the first position of `c`, or -1. */
  function IndexOf(s: string, c: char): (r: int)
    ensures -1 <= r < |s|
    ensures r == -1 <==> c !in s
    ensures 0 <= r ==> s[r] == c && c !in s[..r]
  {
    if s == [] then -1
    else if s[0] == c then 0
    else
      var k := IndexOf(s[1..], c);
      if k < 0 then -1
      else
        assert s[..k + 1] == [s[0]] + s[1..][..k];
        k + 1
  }

  /** Every character is one `String.trim` removes from an end: at or below U+0020. */
  predicate TrimmedAway(s: string) {
    forall k | 0 <= k < |s| :: s[k] <= ' '
  }

  /** The first index from `i` on whose character is above U+0020, or `|s|`. */
  function TrimStartIndex(s: string, i: nat): (st: nat)
    requires i <= |s|
    ensures i <= st <= |s| && TrimmedAway(s[i..st])
    ensures st == |s| || s[st] > ' '
    decreases |s| - i
  {
    if i < |s| && s[i] <= ' ' then
      var st := TrimStartIndex(s, i + 1);
      assert s[i..st] == [s[i]] + s[i + 1..st];
      st
    else i
  }

  /** The end of `s[st..len]` once its trailing characters at or below U+0020 are dropped. */
  function TrimEndIndex(s: string, st: nat, len: nat): (e: nat)
    requires st <= len <= |s|
    ensures st <= e <= len && TrimmedAway(s[e..len])
    ensures e == st || s[e - 1] > ' '
  {
    if st < len && s[len - 1] <= ' ' then
      var e := TrimEndIndex(s, st, len - 1);
      assert TrimmedAway(s[e..len]) by {
        forall k | 0 <= k < len - e
          ensures s[e..len][k] <= ' '
        {
          if k < len - 1 - e {
            assert s[e..len][k] == s[e..len - 1][k];
          }
        }
      }
      e
    else len
  }

  /**
   * `String.trim`: the input with every leading and trailing character at or below U+0020
   * removed, and nothing else: the result is a slice of the input, and what lies before and
   * after it is removable.
   */
  function Trim(s: string): (r: string)
    ensures |r| <= |s|
    ensures r == [] || (r[0] > ' ' && r[|r| - 1] > ' ')
    ensures var st := TrimStartIndex(s, 0);
      && st + |r| <= |s| && r == s[st..st + |r|]
      && TrimmedAway(s[..st]) && TrimmedAway(s[st + |r|..])
  {
    var st := TrimStartIndex(s, 0);
    var e := TrimEndIndex(s, st, |s|);
    assert s[..st] == s[0..st] && s[e..] == s[e..|s|];
    s[st..e]
  }

  /** `String.trim` adds no character: one missing from the input is missing from the result. */
  lemma TrimKeepsOut(s: string, c: char)
    requires c !in s
    ensures c !in Trim(s)
  {
    var st := TrimStartIndex(s, 0);
    var r := Trim(s);
    assert forall k | 0 <= k < |r| :: r[k] == s[st + k];
  }

  /** A string that `String.trim` leaves as it is. */
  predicate IsTrimmed(s: string) {
    s == [] || (s[0] > ' ' && s[|s| - 1] > ' ')
  }

  lemma TrimmedIsFixed(s: string)
    requires IsTrimmed(s)
    ensures Trim(s) == s
  {
  }

  /** Every piece of `s` between occurrences of `sep`, empty pieces included. */
  function SplitOn(s: string, sep: char): (parts: seq<string>)
    ensures |parts| >= 1
    decreases |s|
  {
    var i := IndexOf(s, sep);
    if i < 0 then [s] else [s[..i]] + SplitOn(s[i + 1..], sep)
  }

  /** No piece holds the separator. */
  lemma {:induction false} SplitOnPieces(s: string, sep: char)
    ensures forall i | 0 <= i < |SplitOn(s, sep)| :: sep !in SplitOn(s, sep)[i]
    decreases |s|
  {
    var i := IndexOf(s, sep);
    if i < 0 {
      assert SplitOn(s, sep) == [s];
    } else {
      var rest := SplitOn(s[i + 1..], sep);
      SplitOnPieces(s[i + 1..], sep);
      assert SplitOn(s, sep) == [s[..i]] + rest;
      SeparatorFreeCons(s[..i], rest, sep);
    }
  }

  /** A separator-free string put in front of separator-free strings. */
  lemma SeparatorFreeCons(head: string, rest: seq<string>, sep: char)
    requires sep !in head
    requires forall i | 0 <= i < |rest| :: sep !in rest[i]
    ensures forall i | 0 <= i < |[head] + rest| :: sep !in ([head] + rest)[i]
  {
    var r := [head] + rest;
    forall i | 0 <= i < |r|
      ensures sep !in r[i]
    {
      if i == 0 {
        assert r[i] == head;
      } else {
        assert r[i] == rest[i - 1];
      }
    }
  }

  /** `String.join`. */
  function Join(parts: seq<string>, sep: char): string {
    if |parts| == 0 then []
    else if |parts| == 1 then parts[0]
    else parts[0] + [sep] + Join(parts[1..], sep)
  }

  /** Trailing empty strings removed, as `String.split` with limit 0 does. */
  function DropTrailingEmpty(parts: seq<string>): (r: seq<string>)
    ensures |r| <= |parts| && r == parts[..|r|]
    ensures r == [] || r[|r| - 1] != []
    ensures forall k | |r| <= k < |parts| :: parts[k] == []
  {
    if parts != [] && parts[|parts| - 1] == [] then DropTrailingEmpty(parts[..|parts| - 1]) else parts
  }

  /** `String.split` on a one-character separator that is not a regular-expression metacharacter. */
  function JavaSplit(s: string, sep: char): (parts: seq<string>)
    ensures sep !in s ==> parts == [s]
    ensures sep in s ==> parts == [] || parts[|parts| - 1] != []
  {
    if sep !in s then [s] else DropTrailingEmpty(SplitOn(s, sep))
  }

  lemma JavaSplitPieces(s: string, sep: char)
    ensures forall i | 0 <= i < |JavaSplit(s, sep)| :: sep !in JavaSplit(s, sep)[i]
  {
    if sep in s {
      SplitOnPieces(s, sep);
      var parts := SplitOn(s, sep);
      var r := DropTrailingEmpty(parts);
      assert forall i | 0 <= i < |r| :: r[i] == parts[i];
    }
  }

  lemma {:induction false} IndexOfAfter(a: string, sep: char, b: string)
    requires sep !in a
    ensures IndexOf(a + [sep] + b, sep) == |a|
  {
    var s := a + [sep] + b;
    assert s[|a|] == sep;
    assert s[..|a|] == a;
    assert s[..|a| + 1] == a + [sep];
  }

  /** Splitting the joined text gives back the separator-free pieces, in order. */
  lemma {:induction false} SplitJoin(parts: seq<string>, sep: char)
    requires |parts| >= 1
    requires forall i | 0 <= i < |parts| :: sep !in parts[i]
    ensures SplitOn(Join(parts, sep), sep) == parts
  {
    if |parts| > 1 {
      var head, rest := parts[0], Join(parts[1..], sep);
      var s := head + [sep] + rest;
      assert Join(parts, sep) == s;
      IndexOfAfter(head, sep, rest);
      assert s[..|head|] == head;
      assert s[|head| + 1..] == rest;
      assert SplitOn(s, sep) == [head] + SplitOn(rest, sep);
      SplitJoin(parts[1..], sep);
      assert parts == [head] + parts[1..];
    }
  }

  /** A string is the part before position `i`, the character at `i`, and the part after. */
  lemma SliceAround(s: string, i: nat)
    requires i < |s|
    ensures s == s[..i] + [s[i]] + s[i + 1..]
  {
  }

  /** Joining a piece in front of a non-empty list puts one separator between them. */
  lemma JoinCons(head: string, rest: seq<string>, sep: char)
    requires |rest| >= 1
    ensures Join([head] + rest, sep) == head + [sep] + Join(rest, sep)
  {
    var parts := [head] + rest;
    assert |parts| >= 2 && parts[0] == head && parts[1..] == rest;
  }

  /** The pieces, joined again, are the original text: splitting loses nothing and keeps the order. */
  lemma {:induction false} JoinSplit(s: string, sep: char)
    ensures Join(SplitOn(s, sep), sep) == s
    decreases |s|
  {
    var i := IndexOf(s, sep);
    if i < 0 {
      assert SplitOn(s, sep) == [s];
    } else {
      var head, tail := s[..i], s[i + 1..];
      var rest := SplitOn(tail, sep);
      assert SplitOn(s, sep) == [head] + rest;
      JoinSplit(tail, sep);
      JoinCons(head, rest, sep);
      SliceAround(s, i);
    }
  }

  predicate IsDigit(c: char) {
    '0' <= c <= '9'
  }

  predicate AllDigits(s: string) {
    forall i | 0 <= i < |s| :: IsDigit(s[i])
  }

  function DigitChar(d: nat): (c: char)
    requires d < 10
    ensures IsDigit(c)
  {
    ('0' as int + d) as char
  }

  /** The decimal digits of `n`, most significant first, without leading zeros. */
  function DecimalDigits(n: nat): (s: string)
    ensures |s| >= 1 && AllDigits(s)
  {
    if n < 10 then [DigitChar(n)] else DecimalDigits(n / 10) + [DigitChar(n % 10)]
  }

  /** The number a string of decimal digits denotes. */
  function DigitsValue(s: string): nat
    requires AllDigits(s)
  {
    if s == [] then 0 else DigitsValue(s[..|s| - 1]) * 10 + (s[|s| - 1] as int - '0' as int)
  }

  lemma {:induction false} DigitsRoundTrip(n: nat)
    ensures DigitsValue(DecimalDigits(n)) == n
  {
    if n >= 10 {
      DigitsRoundTrip(n / 10);
      var s := DecimalDigits(n);
      assert s[..|s| - 1] == DecimalDigits(n / 10);
    }
  }

  /** `Long.toString`, which is also what string concatenation writes for a `long`. */
  function LongText(n: int): (s: string)
    ensures |s| >= 1 && (IsDigit(s[0]) || s[0] == '-')
    ensures forall i | 1 <= i < |s| :: IsDigit(s[i])
  {
    if n < 0 then "-" + DecimalDigits(-n) else DecimalDigits(n)
  }

  /** `Long.parseLong` over ASCII digits; `None` is the `NumberFormatException`. */
  function ParseLong(s: string): (r: Option<Long>)
    ensures r.Some? ==> |s| >= 1 && (IsDigit(s[0]) || s[0] == '-' || s[0] == '+')
    ensures r.Some? ==> forall i | 1 <= i < |s| :: IsDigit(s[i])
  {
    if |s| == 0 then None
    else
      var body := if s[0] == '-' || s[0] == '+' then s[1..] else s;
      if |body| == 0 || !AllDigits(body) then None
      else
        var v: int := if s[0] == '-' then -(DigitsValue(body) as int) else DigitsValue(body);
        if LONG_MIN <= v <= LONG_MAX then Some(v) else None
  }

  /** Every `long` reads back from its own decimal text. */
  lemma ParseLongText(n: Long)
    ensures ParseLong(LongText(n)) == Some(n)
  {
    var s := LongText(n);
    if n < 0 {
      var d := DecimalDigits(-(n as int));
      DigitsRoundTrip(-(n as int));
      assert s[0] == '-' && s[1..] == d;
    } else {
      var d := DecimalDigits(n);
      DigitsRoundTrip(n);
      assert s == d && IsDigit(s[0]);
    }
  }

  /** Two `long`s with the same decimal text are equal. */
  lemma LongTextInjective(a: Long, b: Long)
    requires LongText(a) == LongText(b)
    ensures a == b
  {
    ParseLongText(a);
    ParseLongText(b);
  }

  /** A decimal text holds no whitespace and no separator used by the model's key formats. */
  lemma LongTextIsPlain(n: int)
    ensures forall i | 0 <= i < |LongText(n)| :: !IsWhitespace(LongText(n)[i]) && LongText(n)[i] != ':' && LongText(n)[i] != ','
  {
  }
}
