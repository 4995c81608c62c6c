/** The handful of C and GLib string primitives the library is built from:
    bounded concatenation into fixed buffers (`g_strlcat`), splitting at the
    first separator (`g_strsplit` with a limit of two), decimal formatting
    (`sprintf "%d"`), `atoi`, `strcmp`/`g_strcmp0` and ASCII case folding
    (`g_strcasecmp`). Strings are NUL-free character sequences. */
module CStrings {
  import opened Optional

  // ---------------------------------------------------------------------------
  // Bounded buffers
  // ---------------------------------------------------------------------------

  /** The first `n` characters of `s` (all of `s` when it is shorter). */
  function Truncate(s: string, n: nat): (r: string)
    ensures |r| <= n
    ensures r <= s
    ensures |s| <= n ==> r == s
    ensures |s| > n ==> |r| == n
  {
    if |s| <= n then s else s[..n]
  }

  /** Appending to an already truncated prefix and truncating again gives the
      same result as truncating the whole concatenation once. */
  lemma TruncateAppend(s: string, t: string, n: nat)
    ensures Truncate(Truncate(s, n) + t, n) == Truncate(s + t, n)
  {
    if |s| > n {
      assert Truncate(s, n) + t == s[..n] + t;
      assert (s[..n] + t)[..n] == s[..n];
      assert (s + t)[..n] == s[..n];
    }
  }

  /** `g_strlcat(dst, src, size)`: `dst` lives in a buffer of `size` bytes, so
      at most `size - 1` characters survive; whatever of `src` does not fit is
      dropped. */
  function StrlCat(dst: string, src: string, size: nat): (r: string)
    requires |dst| < size
    ensures r == Truncate(dst + src, size - 1)
    ensures |r| < size
  {
    if |dst| + |src| < size then dst + src
    else
      assert (dst + src)[..size - 1] == dst + src[..size - 1 - |dst|];
      dst + src[..size - 1 - |dst|]
  }

  /** Two successive `g_strlcat` calls into the same buffer behave like one
      concatenation followed by one truncation. */
  lemma {:induction false} StrlCatTwice(d: string, a: string, b: string, size: nat)
    requires |d| < size
    ensures StrlCat(StrlCat(d, a, size), b, size) == Truncate(d + a + b, size - 1)
  {
    TruncateAppend(d + a, b, size - 1);
  }

  /** Three successive `g_strlcat` calls into the same buffer. */
  lemma {:induction false} StrlCatThrice(d: string, a: string, b: string, c: string, size: nat)
    requires |d| < size
    ensures StrlCat(StrlCat(StrlCat(d, a, size), b, size), c, size) == Truncate(d + a + b + c, size - 1)
  {
    StrlCatTwice(d, a, b, size);
    TruncateAppend(d + a + b, c, size - 1);
  }

  // ---------------------------------------------------------------------------
  // Searching and splitting
  // ---------------------------------------------------------------------------

  /** Position of the first `c` in `s`, or `|s|` when `c` does not occur. */
  function IndexOf(s: string, c: char): (i: nat)
    ensures i <= |s|
    ensures c !in s[..i]
    ensures i < |s| ==> s[i] == c
    ensures i == |s| <==> c !in s
  {
    if |s| == 0 then 0
    else if s[0] == c then 0
    else
      var j := IndexOf(s[1..], c);
      assert s[..1 + j] == [s[0]] + s[1..][..j];
      1 + j
  }

  /** `g_strsplit(s, sep, 2)`: the empty string gives the empty vector; a string
      without `sep` gives itself; otherwise the text before the first `sep` and
      everything after it. */
  function SplitFirst(s: string, sep: char): (parts: seq<string>)
    ensures |parts| <= 2
    ensures |parts| == 0 <==> s == []
    ensures |parts| == 1 ==> parts[0] == s && sep !in s
    ensures |parts| == 2 ==> s == parts[0] + [sep] + parts[1] && sep !in parts[0]
    ensures s != [] && sep in s ==> |parts| == 2
  {
    if s == [] then []
    else
      var i := IndexOf(s, sep);
      if i == |s| then [s]
      else
        assert s == s[..i] + [sep] + s[i + 1..];
        [s[..i], s[i + 1..]]
  }

  /** The split point is the first separator: a prefix free of `sep` is
      recovered exactly. */
  lemma SplitFirstAt(a: string, sep: char, b: string)
    requires sep !in a
    ensures SplitFirst(a + [sep] + b, sep) == [a, b]
  {
    var s := a + [sep] + b;
    assert s[|a|] == sep;
    assert s[..|a|] == a;
    var i := IndexOf(s, sep);
    assert i == |a|;
    assert s[i + 1..] == b;
  }

  /** `g_strconcat` over a split vector: the parts glued back together, i.e.
      the string with its first separator removed. */
  function ConcatParts(parts: seq<string>): (r: string)
    requires |parts| <= 2
  {
    if |parts| == 0 then ""
    else if |parts| == 1 then parts[0]
    else parts[0] + parts[1]
  }

  /** Element 0 of a split vector, NULL when the vector is empty. */
  function Head(parts: seq<string>): Option<string> {
    if |parts| == 0 then None else Some(parts[0])
  }

  /** Element 1 of a split vector, NULL when there is none. */
  function Second(parts: seq<string>): Option<string> {
    if |parts| < 2 then None else Some(parts[1])
  }

  // ---------------------------------------------------------------------------
  // Comparison
  // ---------------------------------------------------------------------------

  /** `strcmp`: negative, zero or positive as `a` sorts before, equal to or after `b`. */
  function StrCmp(a: string, b: string): (r: int)
    ensures r == 0 <==> a == b
  {
    if a == [] && b == [] then 0
    else if a == [] then -1
    else if b == [] then 1
    else if a[0] < b[0] then -1
    else if a[0] > b[0] then 1
    else
      var r := StrCmp(a[1..], b[1..]);
      assert a == [a[0]] + a[1..] && b == [b[0]] + b[1..];
      r
  }

  /** `g_strcmp0`: `strcmp` that also accepts NULL, which sorts before every string. */
  function StrCmp0(a: Option<string>, b: Option<string>): (r: int)
    ensures r == 0 <==> a == b
  {
    match (a, b)
    case (None, None) => 0
    case (None, Some(_)) => -1
    case (Some(_), None) => 1
    case (Some(x), Some(y)) => StrCmp(x, y)
  }

  /** ASCII `tolower`. */
  function Lower(c: char): char {
    if 'A' <= c <= 'Z' then ((c as int) + 32) as char else c
  }

  /** `g_strcasecmp(a, b) == 0`: equal up to ASCII case. */
  predicate CaseEq(a: string, b: string) {
    |a| == |b| && forall i :: 0 <= i < |a| ==> Lower(a[i]) == Lower(b[i])
  }

  // ---------------------------------------------------------------------------
  // Decimal numbers
  // ---------------------------------------------------------------------------

  predicate IsDigit(c: char) {
    '0' <= c <= '9'
  }

  predicate AllDigits(s: string) {
    forall i :: 0 <= i < |s| ==> IsDigit(s[i])
  }

  function DigitChar(d: nat): (c: char)
    requires d < 10
    ensures IsDigit(c)
  {
    (48 + d) as char
  }

  function DigitValue(c: char): (d: nat)
    requires IsDigit(c)
    ensures d < 10
  {
    (c as int) - 48
  }

  /** Decimal digits of `n`, most significant first, without leading zeros. */
  function NatToDecimal(n: nat): (s: string)
    ensures |s| >= 1
    ensures AllDigits(s)
  {
    if n < 10 then [DigitChar(n)] else NatToDecimal(n / 10) + [DigitChar(n % 10)]
  }

  /** `sprintf(buf, "%d", n)`. */
  function IntToDecimal(n: int): (s: string)
    ensures |s| >= 1
    ensures forall i :: 0 <= i < |s| ==> IsDigit(s[i]) || (i == 0 && s[i] == '-')
  {
    if n < 0 then "-" + NatToDecimal(-n) else NatToDecimal(n)
  }

  /** A formatted number never contains a character that is not a digit or a
      sign, so in particular no ':' or '.' separator. */
  lemma DecimalHasNoSeparator(n: int, c: char)
    requires !IsDigit(c) && c != '-'
    ensures c !in IntToDecimal(n)
  {
  }

  /** Value of a string of digits, read most significant first. */
  function DigitsValue(s: string): nat
    requires AllDigits(s)
  {
    if s == [] then 0 else 10 * DigitsValue(s[..|s| - 1]) + DigitValue(s[|s| - 1])
  }

  /** The longest prefix of `s` made of digits. */
  function LeadingDigits(s: string): (r: string)
    ensures r <= s
    ensures AllDigits(r)
  {
    if s == [] || !IsDigit(s[0]) then [] else [s[0]] + LeadingDigits(s[1..])
  }

  /** `isspace` in the C locale. */
  predicate IsSpace(c: char) {
    c == ' ' || c == '\t' || c == '\n' || c == '\r' || c == (11 as char) || c == (12 as char)
  }

  function SkipSpaces(s: string): (r: string)
    ensures |r| <= |s|
  {
    if s != [] && IsSpace(s[0]) then SkipSpaces(s[1..]) else s
  }

  /** `atoi`: optional leading white space, an optional sign, then as many
      digits as follow; anything else ends the number. */
  function Atoi(s: string): int {
    var t := SkipSpaces(s);
    if t != [] && t[0] == '-' then 0 - DigitsValue(LeadingDigits(t[1..]))
    else if t != [] && t[0] == '+' then DigitsValue(LeadingDigits(t[1..]))
    else DigitsValue(LeadingDigits(t))
  }

  lemma {:induction false} LeadingDigitsOfDigits(s: string)
    requires AllDigits(s)
    ensures LeadingDigits(s) == s
  {
    if s != [] {
      LeadingDigitsOfDigits(s[1..]);
      assert [s[0]] + s[1..] == s;
    }
  }

  lemma {:induction false} DigitsValueOfDecimal(n: nat)
    ensures DigitsValue(NatToDecimal(n)) == n
  {
    if n >= 10 {
      var s := NatToDecimal(n);
      DigitsValueOfDecimal(n / 10);
      assert s[..|s| - 1] == NatToDecimal(n / 10);
      assert s[|s| - 1] == DigitChar(n % 10);
    }
  }

  /** `atoi` of a string of digits is its value. */
  lemma AtoiOfDigits(d: string)
    requires |d| >= 1 && AllDigits(d)
    ensures Atoi(d) == DigitsValue(d)
  {
    LeadingDigitsOfDigits(d);
    assert !IsSpace(d[0]) && d[0] != '-' && d[0] != '+';
    assert SkipSpaces(d) == d;
  }

  /** `atoi` of a minus sign followed by digits is the negated value. */
  lemma AtoiOfNegatedDigits(d: string)
    requires |d| >= 1 && AllDigits(d)
    ensures Atoi("-" + d) == 0 - DigitsValue(d)
  {
    var s := "-" + d;
    LeadingDigitsOfDigits(d);
    assert SkipSpaces(s) == s;
    assert s[1..] == d;
  }

  /** `atoi` reads back exactly the number `sprintf "%d"` wrote. */
  lemma {:induction false} AtoiOfDecimal(n: int)
    ensures Atoi(IntToDecimal(n)) == n
  {
    if n < 0 {
      DigitsValueOfDecimal(-n);
      AtoiOfNegatedDigits(NatToDecimal(-n));
    } else {
      DigitsValueOfDecimal(n);
      AtoiOfDigits(NatToDecimal(n));
    }
  }
}
