/** String operations the application relies on, with the semantics of the runtime that
    performs them: JavaScript's `trim`, `indexOf`, `replace` with a string pattern,
    `split`, `parseInt`, and Python's `str.strip`.  Strings are sequences of Unicode
    scalar values.
 */
module Text {
  import opened Wrappers

  // ---------------------------------------------------------------------------
  // White space

  /** White space and line terminators as JavaScript's `trim`, `\s` and `parseInt` see them. */
  predicate IsJsSpace(c: char) {
    c == ' ' || c == '\t' || c == '\n' || c == '\U{000B}' || c == '\U{000C}' || c == '\r'
    || c == '\U{00A0}' || c == '\U{1680}' || ('\U{2000}' <= c <= '\U{200A}')
    || c == '\U{2028}' || c == '\U{2029}' || c == '\U{202F}' || c == '\U{205F}'
    || c == '\U{3000}' || c == '\U{FEFF}'
  }

  /** The characters Python's `str.isspace` accepts, which `str.strip()` removes. */
  predicate IsPySpace(c: char) {
    ('\t' <= c <= '\r') || ('\U{001C}' <= c <= '\U{001F}') || c == ' ' || c == '\U{0085}'
    || c == '\U{00A0}' || c == '\U{1680}' || ('\U{2000}' <= c <= '\U{200A}')
    || c == '\U{2028}' || c == '\U{2029}' || c == '\U{202F}' || c == '\U{205F}' || c == '\U{3000}'
  }

  predicate AllSatisfy(s: string, p: char -> bool) {
    forall i :: 0 <= i < |s| ==> p(s[i])
  }

  /** The longest suffix of `s` that does not start with a `ws` character. */
  function DropLeading(s: string, ws: char -> bool): (r: string)
    ensures |r| <= |s| && r == s[|s| - |r|..]
    ensures AllSatisfy(s[..|s| - |r|], ws)
    ensures r == [] || !ws(r[0])
  {
    if |s| > 0 && ws(s[0]) then
      var r := DropLeading(s[1..], ws);
      assert s[..|s| - |r|] == [s[0]] + s[1..][..|s[1..]| - |r|];
      r
    else s
  }

  /** The longest prefix of `s` that does not end with a `ws` character. */
  function DropTrailing(s: string, ws: char -> bool): (r: string)
    ensures |r| <= |s| && r == s[..|r|]
    ensures AllSatisfy(s[|r|..], ws)
    ensures r == [] || !ws(r[|r| - 1])
  {
    if |s| > 0 && ws(s[|s| - 1]) then
      var r := DropTrailing(s[..|s| - 1], ws);
      assert s[|r|..] == s[..|s| - 1][|r|..] + [s[|s| - 1]];
      r
    else s
  }

  /** `r` is `s` with its leading and trailing `ws` characters removed, and nothing else. */
  ghost predicate IsStripOf(s: string, r: string, ws: char -> bool) {
    exists i :: StripAt(s, r, ws, i)
  }

  /** `r` sits at index `i` of `s` with only `ws` characters around it. */
  predicate StripAt(s: string, r: string, ws: char -> bool, i: int) {
    0 <= i <= |s| - |r| && s[i..i + |r|] == r
    && AllSatisfy(s[..i], ws) && AllSatisfy(s[i + |r|..], ws)
    && (r == [] || (!ws(r[0]) && !ws(r[|r| - 1])))
  }

  function Strip(s: string, ws: char -> bool): (r: string)
    ensures IsStripOf(s, r, ws)
  {
    var a := DropLeading(s, ws);
    var r := DropTrailing(a, ws);
    StripWitness(s, ws, a, r);
    r
  }

  lemma StripWitness(s: string, ws: char -> bool, a: string, r: string)
    requires a == DropLeading(s, ws) && r == DropTrailing(a, ws)
    ensures IsStripOf(s, r, ws)
  {
    var i := |s| - |a|;
    assert s[i..] == a;
    assert s[i..i + |r|] == r;
    assert s[i + |r|..] == a[|r|..];
    assert StripAt(s, r, ws, i);
  }

  /** JavaScript `s.trim()`. */
  function Trim(s: string): (r: string)
    ensures IsStripOf(s, r, IsJsSpace)
  {
    Strip(s, IsJsSpace)
  }

  /** Whether JavaScript stores the character as a surrogate pair: it lies outside the
      Basic Multilingual Plane. */
  predicate IsAstral(c: char) {
    c >= '\U{10000}'
  }

  /** JavaScript's `length` of a string: its UTF-16 code units, two for every character
      outside the Basic Multilingual Plane and one for every other. */
  function Utf16Length(s: string): (n: nat)
    ensures |s| <= n <= 2 * |s|
  {
    if s == [] then 0 else (if IsAstral(s[0]) then 2 else 1) + Utf16Length(s[1..])
  }

  /** Code units add up over concatenation. */
  lemma {:induction false} Utf16LengthAppend(a: string, b: string)
    ensures Utf16Length(a + b) == Utf16Length(a) + Utf16Length(b)
  {
    if a != [] {
      assert (a + b)[1..] == a[1..] + b;
      Utf16LengthAppend(a[1..], b);
    } else {
      assert a + b == b;
    }
  }

  /** The code units equal the characters exactly when no character is astral, and are
      twice them exactly when every character is. */
  lemma {:induction false} Utf16LengthCounts(s: string)
    ensures Utf16Length(s) == |s| <==> forall i :: 0 <= i < |s| ==> !IsAstral(s[i])
    ensures Utf16Length(s) == 2 * |s| <==> forall i :: 0 <= i < |s| ==> IsAstral(s[i])
  {
    if s != [] {
      Utf16LengthCounts(s[1..]);
      assert forall i :: 1 <= i < |s| ==> s[i] == s[1..][i - 1];
    }
  }

  /** A text that starts and ends with a non-space character is its own trim. */
  lemma TrimNoop(s: string)
    requires s != [] && !IsJsSpace(s[0]) && !IsJsSpace(s[|s| - 1])
    ensures Trim(s) == s
  {
    var r := Trim(s);
    var i :| 0 <= i <= |s| - |r| && s[i..i + |r|] == r
      && AllSatisfy(s[..i], IsJsSpace) && AllSatisfy(s[i + |r|..], IsJsSpace)
      && (r == [] || (!IsJsSpace(r[0]) && !IsJsSpace(r[|r| - 1])));
  }

  /** Python `s.strip()`. */
  function PyStrip(s: string): (r: string)
    ensures IsStripOf(s, r, IsPySpace)
  {
    Strip(s, IsPySpace)
  }

  /** A string whose trim is empty (JavaScript `!s.trim()`). */
  predicate IsBlank(s: string) {
    Trim(s) == []
  }

  lemma BlankIffAllSpace(s: string)
    ensures IsBlank(s) <==> AllSatisfy(s, IsJsSpace)
  {
    StripEmptyIffAll(s, Trim(s), IsJsSpace);
  }

  /** Stripping leaves nothing exactly when every character is stripped. */
  lemma StripEmptyIffAll(s: string, r: string, ws: char -> bool)
    requires IsStripOf(s, r, ws)
    ensures r == [] <==> AllSatisfy(s, ws)
  {
    var i :| StripAt(s, r, ws, i);
    if r == [] {
      forall k | 0 <= k < |s| ensures ws(s[k]) {
        if k < i { assert s[k] == s[..i][k]; } else { assert s[k] == s[i..][k - i]; }
      }
    } else {
      assert s[i] == r[0];
    }
  }

  // ---------------------------------------------------------------------------
  // Searching and replacing

  predicate OccursAt(s: string, pat: string, k: int) {
    0 <= k && k + |pat| <= |s| && s[k..k + |pat|] == pat
  }

  /** The leftmost occurrence of `pat` in `s` at or after `from`. */
  function IndexOfFrom(s: string, pat: string, from: nat): (r: Option<nat>)
    decreases |s| + 1 - from
    ensures r.Some? ==> from <= r.value && OccursAt(s, pat, r.value)
    ensures r.Some? ==> forall k :: from <= k < r.value ==> !OccursAt(s, pat, k)
    ensures r.None? ==> forall k :: from <= k ==> !OccursAt(s, pat, k)
  {
    if from + |pat| > |s| then None
    else if s[from..from + |pat|] == pat then Some(from)
    else IndexOfFrom(s, pat, from + 1)
  }

  /** JavaScript `s.indexOf(pat)`, None standing for -1. */
  function IndexOf(s: string, pat: string): (r: Option<nat>)
    ensures r.Some? ==> OccursAt(s, pat, r.value) && forall k :: 0 <= k < r.value ==> !OccursAt(s, pat, k)
    ensures r.None? <==> forall k :: !OccursAt(s, pat, k)
  {
    IndexOfFrom(s, pat, 0)
  }

  /** JavaScript `s.includes(pat)`. */
  predicate Contains(s: string, pat: string) {
    IndexOf(s, pat).Some?
  }

  predicate StartsWith(s: string, prefix: string) {
    |prefix| <= |s| && s[..|prefix|] == prefix
  }

  predicate EndsWith(s: string, suffix: string) {
    |suffix| <= |s| && s[|s| - |suffix|..] == suffix
  }

  /** JavaScript `s.replace(pat, rep)` with a string pattern: only the leftmost occurrence
      is replaced. */
  function ReplaceFirst(s: string, pat: string, rep: string): (r: string)
    ensures (forall k :: !OccursAt(s, pat, k)) ==> r == s
    ensures forall i :: OccursAt(s, pat, i) && (forall k :: 0 <= k < i ==> !OccursAt(s, pat, k))
              ==> r == s[..i] + rep + s[i + |pat|..]
  {
    match IndexOf(s, pat)
    case None => s
    case Some(i) => s[..i] + rep + s[i + |pat|..]
  }

  // ---------------------------------------------------------------------------
  // Splitting and joining on one separator character

  /** JavaScript `s.split(sep)` for a one-character separator. */
  function Split(s: string, sep: char): (parts: seq<string>)
    ensures |parts| >= 1
    ensures forall i :: 0 <= i < |parts| ==> sep !in parts[i]
  {
    if s == [] then [[]]
    else
      var rest := Split(s[1..], sep);
      if s[0] == sep then [[]] + rest
      else [[s[0]] + rest[0]] + rest[1..]
  }

  /** JavaScript `parts.join(sep)`. */
  function Join(parts: seq<string>, sep: string): string {
    if |parts| == 0 then []
    else if |parts| == 1 then parts[0]
    else parts[0] + sep + Join(parts[1..], sep)
  }

  lemma {:induction false} JoinSplit(s: string, sep: char)
    ensures Join(Split(s, sep), [sep]) == s
  {
    if s != [] {
      var rest := Split(s[1..], sep);
      JoinSplit(s[1..], sep);
      if s[0] == sep {
        assert Split(s, sep) == [[]] + rest;
        assert Join([[]] + rest, [sep]) == [] + [sep] + Join(rest, [sep]);
      } else {
        var parts := [[s[0]] + rest[0]] + rest[1..];
        if |rest| == 1 {
          assert Join(parts, [sep]) == [s[0]] + rest[0];
        } else {
          assert rest == [rest[0]] + rest[1..];
          assert Join(rest, [sep]) == rest[0] + [sep] + Join(rest[1..], [sep]);
          assert Join(parts, [sep]) == [s[0]] + rest[0] + [sep] + Join(rest[1..], [sep]);
        }
      }
    }
  }

  lemma {:induction false} SplitJoin(parts: seq<string>, sep: char)
    requires |parts| >= 1
    requires forall i :: 0 <= i < |parts| ==> sep !in parts[i]
    ensures Split(Join(parts, [sep]), sep) == parts
  {
    if |parts| == 1 {
      SplitNoSep(parts[0], sep);
    } else {
      SplitJoin(parts[1..], sep);
      SplitPrefix(parts[0], Join(parts[1..], [sep]), sep);
      assert Join(parts, [sep]) == parts[0] + ([sep] + Join(parts[1..], [sep]));
      assert [parts[0]] + parts[1..] == parts;
    }
  }

  lemma {:induction false} SplitNoSep(s: string, sep: char)
    requires sep !in s
    ensures Split(s, sep) == [s]
  {
    if s != [] {
      SplitNoSep(s[1..], sep);
      assert [s[0]] + s[1..] == s;
    }
  }

  /** Splitting `w + [sep] + t`, where `w` has no separator, yields `w` followed by the
      parts of `t`. */
  lemma {:induction false} SplitPrefix(w: string, t: string, sep: char)
    requires sep !in w
    ensures Split(w + ([sep] + t), sep) == [w] + Split(t, sep)
  {
    if w == [] {
      assert w + ([sep] + t) == [sep] + t;
      assert ([sep] + t)[1..] == t;
    } else {
      assert (w + ([sep] + t))[1..] == w[1..] + ([sep] + t);
      SplitPrefix(w[1..], t, sep);
      assert [w[0]] + w[1..] == w;
    }
  }

  // ---------------------------------------------------------------------------
  // Decimal numerals

  predicate IsDigit(c: char) {
    '0' <= c <= '9'
  }

  function DigitValue(c: char): nat
    requires IsDigit(c)
  {
    (c as int) - ('0' as int)
  }

  function DigitChar(d: nat): (c: char)
    requires d < 10
    ensures IsDigit(c) && DigitValue(c) == d
  {
    ('0' as int + d) as char
  }

  /** The number a run of decimal digits denotes. */
  function DigitsValue(s: string): nat
    requires AllSatisfy(s, IsDigit)
  {
    if s == [] then 0 else 10 * DigitsValue(s[..|s| - 1]) + DigitValue(s[|s| - 1])
  }

  /** A numeral without superfluous leading zeros. */
  predicate IsCanonicalNumeral(s: string) {
    |s| >= 1 && AllSatisfy(s, IsDigit) && (|s| > 1 ==> s[0] != '0')
  }

  /** The decimal numeral JavaScript's `String(n)` and Python's `str(n)` produce. */
  function NatToString(n: nat): (s: string)
    ensures IsCanonicalNumeral(s)
    ensures DigitsValue(s) == n
  {
    if n < 10 then [DigitChar(n)]
    else
      var s := NatToString(n / 10) + [DigitChar(n % 10)];
      assert s[..|s| - 1] == NatToString(n / 10);
      s
  }

  lemma {:induction false} NumeralUnique(s: string)
    requires IsCanonicalNumeral(s)
    ensures NatToString(DigitsValue(s)) == s
    decreases |s|
  {
    var n := DigitsValue(s);
    if |s| == 1 {
      assert s[..|s| - 1] == [];
      assert n == 10 * DigitsValue([]) + DigitValue(s[0]);
      assert s == [DigitChar(n)];
    } else {
      var p := s[..|s| - 1];
      assert IsCanonicalNumeral(p) by { assert p[0] == s[0]; }
      NumeralUnique(p);
      LeadingDigitPositive(s);
      assert n / 10 == DigitsValue(p) && n % 10 == DigitValue(s[|s| - 1]);
      assert s == p + [s[|s| - 1]];
    }
  }

  lemma {:induction false} LeadingDigitPositive(s: string)
    requires IsCanonicalNumeral(s) && |s| > 1
    ensures DigitsValue(s) >= 10
    decreases |s|
  {
    var p := s[..|s| - 1];
    if |p| > 1 {
      assert p[0] == s[0];
      LeadingDigitPositive(p);
    } else {
      assert p[..0] == [];
      assert p[0] == s[0] != '0';
    }
  }

  /** JavaScript `String(i)` for an integer. */
  function IntToString(i: int): string {
    if i < 0 then "-" + NatToString(-i) else NatToString(i)
  }

  /** The longest prefix of `s` made only of characters satisfying `p`. */
  function TakeWhile(s: string, p: char -> bool): (r: string)
    ensures |r| <= |s| && r == s[..|r|] && AllSatisfy(r, p)
    ensures |r| < |s| ==> !p(s[|r|])
  {
    if |s| > 0 && p(s[0]) then
      var r := TakeWhile(s[1..], p);
      assert [s[0]] + r == s[..1 + |r|];
      [s[0]] + r
    else []
  }

  predicate IsHexDigit(c: char) {
    IsDigit(c) || ('a' <= c <= 'f') || ('A' <= c <= 'F')
  }

  function HexDigitValue(c: char): nat
    requires IsHexDigit(c)
  {
    if IsDigit(c) then DigitValue(c)
    else if 'a' <= c <= 'f' then (c as int) - ('a' as int) + 10
    else (c as int) - ('A' as int) + 10
  }

  function HexValue(s: string): nat
    requires AllSatisfy(s, IsHexDigit)
  {
    if s == [] then 0 else 16 * HexValue(s[..|s| - 1]) + HexDigitValue(s[|s| - 1])
  }

  /** JavaScript `parseInt(s)` with no radix: leading white space and one sign are skipped,
      a `0x`/`0X` prefix selects hexadecimal, the longest run of digits is read, and
      None stands for NaN (no digit at all). */
  function ParseInt(s: string): (r: Option<int>)
    ensures r.None? <==> Magnitude(Unsigned(DropLeading(s, IsJsSpace))).None?
  {
    var t := DropLeading(s, IsJsSpace);
    var neg := |t| > 0 && t[0] == '-';
    match Magnitude(Unsigned(t))
    case None => None
    case Some(m) => Some(if neg then -(m as int) else m as int)
  }

  /** `t` without one leading sign character. */
  function Unsigned(t: string): (u: string)
    ensures u == t || (|t| > 0 && (t[0] == '-' || t[0] == '+') && u == t[1..])
  {
    if |t| > 0 && (t[0] == '-' || t[0] == '+') then t[1..] else t
  }

  /** The value of the digits at the start of `u`, hexadecimal after `0x`/`0X`. */
  function Magnitude(u: string): (m: Option<nat>)
    ensures m.None? <==> (if HasHexPrefix(u) then |u| == 2 || !IsHexDigit(u[2]) else |u| == 0 || !IsDigit(u[0]))
  {
    if HasHexPrefix(u) then
      var h := TakeWhile(u[2..], IsHexDigit);
      if h == [] then None else Some(HexValue(h))
    else
      var d := TakeWhile(u, IsDigit);
      if d == [] then None else Some(DigitsValue(d))
  }

  predicate HasHexPrefix(u: string) {
    |u| >= 2 && u[0] == '0' && (u[1] == 'x' || u[1] == 'X')
  }

  /** `parseInt` reads back every integer `String` wrote, whatever text follows it,
      provided that text does not continue the numeral (a digit, or an `x` after `0`). */
  lemma {:induction false} ParseIntOfIntToString(i: int, rest: string)
    requires rest == [] || (!IsDigit(rest[0]) && rest[0] != 'x' && rest[0] != 'X')
    ensures ParseInt(IntToString(i) + rest) == Some(i)
  {
    if i < 0 {
      ParseIntOfNegativeInt(i, rest);
    } else {
      ParseIntOfNonNegative(i, rest);
    }
  }

  lemma ParseIntOfNegativeInt(i: int, rest: string)
    requires i < 0
    requires rest == [] || (!IsDigit(rest[0]) && rest[0] != 'x' && rest[0] != 'X')
    ensures ParseInt(IntToString(i) + rest) == Some(i)
  {
    var n: nat := -i;
    assert IntToString(i) + rest == "-" + NatToString(n) + rest by {
      assert IntToString(i) == "-" + NatToString(n);
    }
    ParseIntOfNegative(n, rest);
  }

  lemma ParseIntOfNonNegative(n: nat, rest: string)
    requires rest == [] || (!IsDigit(rest[0]) && rest[0] != 'x' && rest[0] != 'X')
    ensures ParseInt(NatToString(n) + rest) == Some(n)
  {
    var d := NatToString(n);
    MagnitudeOfNumeral(d, rest);
    assert (d + rest)[0] == d[0];
    ParseIntUnsigned(d + rest, n);
  }

  lemma ParseIntOfNegative(n: nat, rest: string)
    requires rest == [] || (!IsDigit(rest[0]) && rest[0] != 'x' && rest[0] != 'X')
    ensures ParseInt("-" + NatToString(n) + rest) == Some(-(n as int))
  {
    var d := NatToString(n);
    var u := d + rest;
    assert "-" + d + rest == ['-'] + u;
    MagnitudeOfNumeral(d, rest);
    ParseIntSigned(u, n);
  }

  lemma ParseIntUnsigned(u: string, m: nat)
    requires |u| > 0 && IsDigit(u[0]) && Magnitude(u) == Some(m)
    ensures ParseInt(u) == Some(m)
  {
    assert !IsJsSpace(u[0]);
    assert DropLeading(u, IsJsSpace) == u;
    assert Unsigned(u) == u;
  }

  lemma ParseIntSigned(u: string, m: nat)
    requires Magnitude(u) == Some(m)
    ensures ParseInt(['-'] + u) == Some(-(m as int))
  {
    var t := ['-'] + u;
    assert t[0] == '-' && t[1..] == u;
    NoLeadingSpace(t);
    assert Unsigned(t) == u;
  }

  lemma NoLeadingSpace(t: string)
    requires |t| > 0 && t[0] == '-'
    ensures DropLeading(t, IsJsSpace) == t
  {
    assert !IsJsSpace(t[0]);
  }

  lemma MagnitudeOfNumeral(d: string, rest: string)
    requires IsCanonicalNumeral(d)
    requires rest == [] || (!IsDigit(rest[0]) && rest[0] != 'x' && rest[0] != 'X')
    ensures Magnitude(d + rest) == Some(DigitsValue(d))
  {
    TakeWhileDigits(d, rest);
    assert !HasHexPrefix(d + rest) by {
      if |d| == 1 && |rest| > 0 { assert (d + rest)[1] == rest[0]; }
      else if |d| > 1 { assert (d + rest)[1] == d[1]; }
    }
  }

  lemma {:induction false} TakeWhileDigits(d: string, rest: string)
    requires AllSatisfy(d, IsDigit)
    requires rest == [] || !IsDigit(rest[0])
    ensures TakeWhile(d + rest, IsDigit) == d
  {
    if d != [] {
      assert (d + rest)[1..] == d[1..] + rest;
      TakeWhileDigits(d[1..], rest);
      assert [d[0]] + d[1..] == d;
    } else {
      assert d + rest == rest;
    }
  }

  // ---------------------------------------------------------------------------
  // Case

  /** Lower-casing restricted to the ASCII letters A-Z. */
  function ToLowerAscii(s: string): (r: string)
    ensures |r| == |s|
    ensures forall i :: 0 <= i < |s| ==>
              r[i] == (if 'A' <= s[i] <= 'Z' then (s[i] as int + 32) as char else s[i])
  {
    if s == [] then []
    else [if 'A' <= s[0] <= 'Z' then (s[0] as int + 32) as char else s[0]] + ToLowerAscii(s[1..])
  }

  lemma ToLowerIdempotent(s: string)
    ensures ToLowerAscii(ToLowerAscii(s)) == ToLowerAscii(s)
  {
  }
}
