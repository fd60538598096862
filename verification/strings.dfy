/** The handful of `str` operations from the Rust standard library that the
    client relies on, written out over `seq<char>`: prefix tests,
    `split_once`, `split`, `lines`, `trim`, `char::is_whitespace`,
    `str::len` (UTF-8 byte length), integer formatting and `u16` parsing. */
module Strings {
  import opened Wrappers

  predicate StartsWith(s: string, prefix: string) {
    |prefix| <= |s| && s[..|prefix|] == prefix
  }

  predicate EndsWith(s: string, suffix: string) {
    |suffix| <= |s| && s[|s| - |suffix|..] == suffix
  }

  /** Index of the first occurrence of `c` in `s`. */
  function IndexOf(s: string, c: char): (r: Option<nat>)
    ensures r.Some? ==> r.value < |s| && s[r.value] == c && c !in s[..r.value]
    ensures r.None? <==> c !in s
  {
    if |s| == 0 then None
    else if s[0] == c then Some(0)
    else match IndexOf(s[1..], c)
      case None => None
      case Some(i) => assert s[1..][..i] == s[1..i + 1]; Some(i + 1)
  }

  /** Regrouping a concatenation, stated once so that proofs about long
      literals need not rediscover it. */
  lemma ConcatAssociative<T>(a: seq<T>, b: seq<T>, c: seq<T>)
    ensures (a + b) + c == a + (b + c)
  {
  }

  /** `str::split_once(c)`: the text before and after the first `c`. */
  function SplitOnce(s: string, c: char): (r: Option<(string, string)>)
    ensures r.Some? ==> s == r.value.0 + [c] + r.value.1 && c !in r.value.0
    ensures r.None? <==> c !in s
  {
    match IndexOf(s, c)
    case None => None
    case Some(i) =>
      assert s == s[..i] + [c] + s[i + 1..];
      Some((s[..i], s[i + 1..]))
  }

  lemma {:induction false} IndexOfConcat(a: string, c: char, b: string)
    requires c !in a
    ensures IndexOf(a + [c] + b, c) == Some(|a|)
    decreases |a|
  {
    var s := a + [c] + b;
    if |a| > 0 {
      assert s[1..] == a[1..] + [c] + b;
      IndexOfConcat(a[1..], c, b);
    }
  }

  /** Splitting a concatenation at a separator absent from its first part
      recovers the two parts. */
  lemma SplitOnceOfConcat(a: string, c: char, b: string)
    requires c !in a
    ensures SplitOnce(a + [c] + b, c) == Some((a, b))
  {
    var s := a + [c] + b;
    IndexOfConcat(a, c, b);
    assert s[..|a|] == a && s[|a| + 1..] == b;
  }

  /** `str::split(c)`: every piece, including empty ones. */
  function Split(s: string, c: char): (parts: seq<string>)
    ensures |parts| >= 1
    ensures forall i :: 0 <= i < |parts| ==> c !in parts[i]
    ensures |parts| == 1 <==> c !in s
    decreases |s|
  {
    match SplitOnce(s, c)
    case None => [s]
    case Some((a, b)) => [a] + Split(b, c)
  }

  /** `[&str]::join(sep)`. */
  function Join(parts: seq<string>, sep: string): string
    decreases |parts|
  {
    if |parts| == 0 then ""
    else if |parts| == 1 then parts[0]
    else parts[0] + sep + Join(parts[1..], sep)
  }

  lemma {:induction false} SplitThenJoin(s: string, c: char)
    ensures Join(Split(s, c), [c]) == s
    decreases |s|
  {
    match SplitOnce(s, c)
    case None =>
    case Some((a, b)) =>
      SplitThenJoin(b, c);
      assert Split(s, c)[1..] == Split(b, c);
  }

  lemma {:induction false} JoinThenSplit(parts: seq<string>, c: char)
    requires |parts| >= 1
    requires forall i :: 0 <= i < |parts| ==> c !in parts[i]
    ensures Split(Join(parts, [c]), c) == parts
    decreases |parts|
  {
    if |parts| > 1 {
      JoinThenSplit(parts[1..], c);
      assert Join(parts, [c]) == parts[0] + [c] + Join(parts[1..], [c]);
      SplitOnceOfConcat(parts[0], c, Join(parts[1..], [c]));
    }
  }

  function StripCr(line: string): string {
    if |line| > 0 && line[|line| - 1] == '\r' then line[..|line| - 1] else line
  }

  /** `str::lines()`: split at each '\n', drop one '\r' directly before it,
      and produce no trailing empty line for a final '\n'. */
  function Lines(s: string): (ls: seq<string>)
    ensures forall i :: 0 <= i < |ls| ==> '\n' !in ls[i]
    decreases |s|
  {
    if |s| == 0 then []
    else match SplitOnce(s, '\n')
      case None => [s]
      case Some((a, b)) => [StripCr(a)] + Lines(b)
  }

  predicate EndsWithCr(line: string) {
    |line| > 0 && line[|line| - 1] == '\r'
  }

  /** Lines written out with "\n" are read back unchanged, as long as no
      line holds a line break, ends with '\r', and the last line is not
      empty (a final empty line is indistinguishable from a trailing '\n'). */
  lemma {:induction false} LinesOfJoin(ls: seq<string>)
    requires forall i :: 0 <= i < |ls| ==> '\n' !in ls[i] && !EndsWithCr(ls[i])
    requires |ls| > 0 ==> ls[|ls| - 1] != ""
    ensures Lines(Join(ls, "\n")) == ls
    decreases |ls|
  {
    if |ls| == 1 {
      assert '\n' !in ls[0];
    } else if |ls| > 1 {
      var rest := Join(ls[1..], "\n");
      assert Join(ls, "\n") == ls[0] + ['\n'] + rest;
      SplitOnceOfConcat(ls[0], '\n', rest);
      assert forall i :: 0 <= i < |ls| - 1 ==> ls[1..][i] == ls[i + 1];
      LinesOfJoin(ls[1..]);
      assert StripCr(ls[0]) == ls[0];
    }
  }

  /** `char::is_whitespace`: the Unicode White_Space property. */
  predicate IsWhitespace(c: char) {
    || '\U{9}' <= c <= '\U{D}'
    || c == ' '
    || c == '\U{85}'
    || c == '\U{A0}'
    || c == '\U{1680}'
    || '\U{2000}' <= c <= '\U{200A}'
    || c == '\U{2028}'
    || c == '\U{2029}'
    || c == '\U{202F}'
    || c == '\U{205F}'
    || c == '\U{3000}'
  }

  /** Number of whitespace characters at the start of `s`. */
  function LeadingWhitespace(s: string): (n: nat)
    ensures n <= |s|
    ensures forall i :: 0 <= i < n ==> IsWhitespace(s[i])
    ensures n < |s| ==> !IsWhitespace(s[n])
    decreases |s|
  {
    if |s| > 0 && IsWhitespace(s[0]) then 1 + LeadingWhitespace(s[1..]) else 0
  }

  /** Number of whitespace characters at the end of `s`. */
  function TrailingWhitespace(s: string): (n: nat)
    ensures n <= |s|
    ensures forall i :: |s| - n <= i < |s| ==> IsWhitespace(s[i])
    ensures n < |s| ==> !IsWhitespace(s[|s| - n - 1])
    decreases |s|
  {
    if |s| > 0 && IsWhitespace(s[|s| - 1]) then 1 + TrailingWhitespace(s[..|s| - 1]) else 0
  }

  /** `str::trim()`. */
  function Trim(s: string): (r: string)
    ensures |r| > 0 ==> !IsWhitespace(r[0]) && !IsWhitespace(r[|r| - 1])
  {
    var t := s[LeadingWhitespace(s)..];
    t[..|t| - TrailingWhitespace(t)]
  }

  /** Index of the first character satisfying `char::is_whitespace`. */
  function IndexOfWhitespace(s: string): (r: Option<nat>)
    ensures r.Some? ==> r.value < |s| && IsWhitespace(s[r.value])
    ensures r.Some? ==> forall i :: 0 <= i < r.value ==> !IsWhitespace(s[i])
    ensures r.None? ==> forall i :: 0 <= i < |s| ==> !IsWhitespace(s[i])
  {
    if |s| == 0 then None
    else if IsWhitespace(s[0]) then Some(0)
    else match IndexOfWhitespace(s[1..])
      case None => None
      case Some(i) => Some(i + 1)
  }

  /** Number of bytes `c` takes in UTF-8. */
  function Utf8Width(c: char): (w: nat)
    ensures 1 <= w <= 4
    ensures w == 1 <==> c as int < 0x80
  {
    if c as int < 0x80 then 1
    else if c as int < 0x800 then 2
    else if c as int < 0x10000 then 3
    else 4
  }

  /** `str::len()`: the UTF-8 byte length of `s`. */
  function Utf8Length(s: string): (n: nat)
    ensures |s| <= n <= 4 * |s|
  {
    if |s| == 0 then 0 else Utf8Width(s[0]) + Utf8Length(s[1..])
  }

  predicate IsDigit(c: char) {
    '0' <= c <= '9'
  }

  function DigitChar(d: nat): (c: char)
    requires d < 10
    ensures IsDigit(c) && c as int == '0' as int + d
  {
    ['0', '1', '2', '3', '4', '5', '6', '7', '8', '9'][d]
  }

  function DigitValue(c: char): (d: nat)
    requires IsDigit(c)
    ensures d < 10 && DigitChar(d) == c
  {
    c as int - '0' as int
  }

  /** `Display` for an unsigned integer: decimal digits, no sign, no
      leading zeros. */
  function Decimal(n: nat): (s: string)
    ensures |s| >= 1
    ensures forall i :: 0 <= i < |s| ==> IsDigit(s[i])
    ensures |s| > 1 ==> s[0] != '0'
  {
    if n < 10 then [DigitChar(n)] else Decimal(n / 10) + [DigitChar(n % 10)]
  }

  /** The value of a string of decimal digits. */
  function DigitsValue(s: string): nat
    requires forall i :: 0 <= i < |s| ==> IsDigit(s[i])
  {
    if |s| == 0 then 0 else 10 * DigitsValue(s[..|s| - 1]) + DigitValue(s[|s| - 1])
  }

  /** `str::parse::<u16>()`: an optional '+', then one or more decimal
      digits whose value fits in 16 bits. */
  function ParseU16(s: string): (r: Option<nat>)
    ensures r.Some? ==> r.value < 0x1_0000
    ensures r.Some? ==> |s| > 0
  {
    var digits := if |s| > 1 && s[0] == '+' then s[1..] else s;
    if |digits| == 0 || exists i :: 0 <= i < |digits| && !IsDigit(digits[i]) then None
    else
      var v := DigitsValue(digits);
      if v < 0x1_0000 then Some(v) else None
  }

  lemma {:induction false} DigitsValueOfDecimal(n: nat)
    ensures DigitsValue(Decimal(n)) == n
  {
    if n >= 10 {
      var s := Decimal(n);
      var init := Decimal(n / 10);
      assert s == init + [DigitChar(n % 10)];
      assert s[..|s| - 1] == init;
      DigitsValueOfDecimal(n / 10);
      assert DigitValue(s[|s| - 1]) == n % 10;
    }
  }

  /** Formatting a port and parsing it back is the identity. */
  lemma ParseU16OfDecimal(n: nat)
    requires n < 0x1_0000
    ensures ParseU16(Decimal(n)) == Some(n)
  {
    var s := Decimal(n);
    assert s[0] != '+' by { assert IsDigit(s[0]); }
    DigitsValueOfDecimal(n);
  }

  /** The lines that are not the end-of-body marker ".", in order. */
  function WithoutDots(ls: seq<string>): (r: seq<string>)
    ensures |r| <= |ls|
    ensures forall i :: 0 <= i < |r| ==> r[i] != "." && r[i] in ls
    ensures "." !in ls ==> r == ls
  {
    if |ls| == 0 then []
    else if ls[0] == "." then WithoutDots(ls[1..])
    else [ls[0]] + WithoutDots(ls[1..])
  }

  /** A single line is dropped exactly when it is ".". */
  lemma WithoutDotsSingle(x: string)
    ensures WithoutDots([x]) == (if x == "." then [] else [x])
  {
    assert [x][1..] == [];
  }

  /** Dropping the "." lines of a concatenation drops them from each part,
      keeping the order: with `WithoutDotsSingle` this says the result is
      the input with exactly its "." lines removed. */
  lemma {:induction false} WithoutDotsConcat(a: seq<string>, b: seq<string>)
    ensures WithoutDots(a + b) == WithoutDots(a) + WithoutDots(b)
    decreases |a|
  {
    if |a| > 0 {
      var ab := a + b;
      assert ab[0] == a[0];
      assert ab[1..] == a[1..] + b;
      WithoutDotsConcat(a[1..], b);
      if a[0] != "." {
        assert WithoutDots(ab) == [a[0]] + WithoutDots(a[1..] + b);
        assert WithoutDots(a) == [a[0]] + WithoutDots(a[1..]);
        ConcatAssociative([a[0]], WithoutDots(a[1..]), WithoutDots(b));
      }
    } else {
      assert a + b == b;
    }
  }

  /** Lines that can be written into a body and read back one for one,
      none of them the "." terminator. */
  predicate BodyLines(ls: seq<string>) {
    forall i :: 0 <= i < |ls| ==> '\n' !in ls[i] && !EndsWithCr(ls[i]) && ls[i] != "."
  }

  /** A body written as lines followed by a "." terminator reads back as
      those lines and the terminator, and dropping "." lines leaves the
      written lines. */
  lemma TerminatedLines(ls: seq<string>)
    requires BodyLines(ls)
    ensures Lines(Join(ls + ["."], "\n")) == ls + ["."]
    ensures WithoutDots(ls + ["."]) == ls
  {
    var all := ls + ["."];
    assert forall i :: 0 <= i < |all| ==> '\n' !in all[i] && !EndsWithCr(all[i]);
    LinesOfJoin(all);
    WithoutDotsConcat(ls, ["."]);
    WithoutDotsSingle(".");
    assert "." !in ls;
  }

  /** A join ends with its last part. */
  lemma {:induction false} JoinEndsWithLast(parts: seq<string>, sep: string)
    requires |parts| >= 1
    ensures EndsWith(Join(parts, sep), parts[|parts| - 1])
    decreases |parts|
  {
    if |parts| > 1 {
      var last := parts[|parts| - 1];
      var j := Join(parts[1..], sep);
      JoinEndsWithLast(parts[1..], sep);
      var whole := (parts[0] + sep) + j;
      assert Join(parts, sep) == whole;
      assert whole[|whole| - |last|..] == j[|j| - |last|..];
    }
  }

  /** A character that is in neither the parts nor the separator is not in
      their join. */
  lemma {:induction false} NotInJoin(parts: seq<string>, sep: string, c: char)
    requires c !in sep
    requires forall i :: 0 <= i < |parts| ==> c !in parts[i]
    ensures c !in Join(parts, sep)
    decreases |parts|
  {
    if |parts| > 1 {
      NotInJoin(parts[1..], sep, c);
    }
  }
}
