/** The JSON text exchanged on the worker's stdin/stdout, the download script's stdout
    and the settings table.

    The supervisor writes commands with JavaScript's `JSON.stringify` (no spaces); the
    Python programs write with `json.dumps(..., ensure_ascii=False)` (", " and ": "
    separators).  Both escape the same characters.  Both sides read with a strict
    parser (`JSON.parse`, `json.loads`); the parser here accepts the numbers the
    programs emit (an optional sign, an integer part and an optional fraction) and
    rejects exponents and surrogate escapes.
 */
module Json {
  import opened Wrappers
  import opened Text

  datatype Json =
    | Null
    | Bool(b: bool)
      /** A decimal number: sign, integer part and the digits after the point. */
    | Num(neg: bool, whole: nat, frac: string)
    | Str(s: string)
    | Arr(items: seq<Json>)
    | Obj(members: seq<Member>)

  datatype Member = Member(key: string, value: Json)

  /** `JSON.stringify` writes Compact text; Python's `json.dumps` writes Spaced text. */
  datatype Style = Compact | Spaced

  /** Every number's fraction is made of decimal digits. */
  predicate Valid(v: Json) {
    match v
    case Num(_, _, f) => AllSatisfy(f, IsDigit)
    case Arr(items) => forall i :: 0 <= i < |items| ==> Valid(items[i])
    case Obj(ms) => forall i :: 0 <= i < |ms| ==> Valid(ms[i].value)
    case _ => true
  }

  function Int(i: int): (v: Json)
    ensures Valid(v)
  {
    if i < 0 then Num(true, -i, []) else Num(false, i, [])
  }

  // ---------------------------------------------------------------------------
  // Reading fields

  /** The position of the LAST member named `key`. */
  function LastIndex(ms: seq<Member>, key: string): (r: Option<nat>)
    ensures r.None? ==> forall i :: 0 <= i < |ms| ==> ms[i].key != key
    ensures r.Some? ==> r.value < |ms| && ms[r.value].key == key
                        && forall j :: r.value < j < |ms| ==> ms[j].key != key
  {
    if |ms| == 0 then None
    else if ms[|ms| - 1].key == key then Some(|ms| - 1)
    else
      var r := LastIndex(ms[..|ms| - 1], key);
      assert forall i :: 0 <= i < |ms| - 1 ==> ms[..|ms| - 1][i] == ms[i];
      r
  }

  /** The value of the LAST member named `key`: both `JSON.parse` and `json.loads`
      keep the last of duplicated keys. */
  function Lookup(ms: seq<Member>, key: string): (r: Option<Json>)
    ensures r.None? <==> forall i :: 0 <= i < |ms| ==> ms[i].key != key
    ensures r.Some? ==> exists i :: 0 <= i < |ms| && ms[i].key == key && ms[i].value == r.value
                                    && forall j :: i < j < |ms| ==> ms[j].key != key
  {
    match LastIndex(ms, key)
    case None => None
    case Some(i) => Some(ms[i].value)
  }

  /** The text of an object starts with `{`, so trimming leaves it non-empty and
      starting with `{`. */
  lemma ObjectTextTrims(v: Json, st: Style)
    requires v.Obj?
    ensures var t := Trim(Serialize(v, st)); t != [] && t[0] == '{'
  {
    var t := Serialize(v, st);
    assert t[0] == '{';
    assert !IsJsSpace(t[0]);
    var d := DropLeading(t, IsJsSpace);
    assert d == t;
  }

  /** A key that occurs once is found at its only position. */
  lemma LookupUnique(ms: seq<Member>, i: nat)
    requires i < |ms| && forall j :: 0 <= j < |ms| && j != i ==> ms[j].key != ms[i].key
    ensures Lookup(ms, ms[i].key) == Some(ms[i].value)
  {
  }

  /** A key whose last occurrence is at `i` reads as the value there. */
  lemma LookupLast(ms: seq<Member>, i: nat)
    requires i < |ms| && forall j :: i < j < |ms| ==> ms[j].key != ms[i].key
    ensures Lookup(ms, ms[i].key) == Some(ms[i].value)
  {
    var r := Lookup(ms, ms[i].key);
    assert r.Some?;
    var k :| 0 <= k < |ms| && ms[k].key == ms[i].key && ms[k].value == r.value
             && forall j :: k < j < |ms| ==> ms[j].key != ms[i].key;
    assert k == i;
  }

  /** `v[key]`: absent (JavaScript undefined) when `v` is not an object or has no such member. */
  function Get(v: Json, key: string): Option<Json> {
    if v.Obj? then Lookup(v.members, key) else None
  }

  predicate IsZeroDigit(c: char) {
    c == '0'
  }

  /** JavaScript truthiness: null, false, 0, -0 and "" are falsy. */
  predicate JsTruthy(v: Json) {
    match v
    case Null => false
    case Bool(b) => b
    case Num(_, w, f) => w != 0 || !AllSatisfy(f, IsZeroDigit)
    case Str(s) => s != []
    case _ => true
  }

  /** `String(x)` for a JSON value.  Numbers drop trailing fraction zeros and the sign of
      zero; exponent notation is not modelled. */
  function JsText(v: Json): (r: string)
    ensures v.Num? && AllSatisfy(v.frac, IsZeroDigit) ==>
      r == IntToString(if v.neg then -(v.whole as int) else v.whole)
    ensures v.Num? && !AllSatisfy(v.frac, IsZeroDigit) ==>
      exists i :: 0 <= i < |r| && r[i] == '.' && r[i + 1..] == DropTrailing(v.frac, IsZeroDigit)
  {
    match v
    case Null => "null"
    case Bool(b) => if b then "true" else "false"
    case Num(neg, whole, frac) =>
      var f := DropTrailing(frac, IsZeroDigit);
      assert AllSatisfy(frac, IsZeroDigit) ==> f == [];
      assert f == [] ==> AllSatisfy(frac, IsZeroDigit);
      var head := (if neg && (whole != 0 || f != []) then "-" else "") + NatToString(whole);
      assert f != [] ==> (head + ("." + f))[|head|] == '.' && (head + ("." + f))[|head| + 1..] == f;
      head + (if f == [] then "" else "." + f)
    case Str(s) => s
    case Arr(items) => JoinItems(items)
    case Obj(_) => "[object Object]"
  }

  /** `Array.prototype.join(",")`, which writes `null` elements as empty text. */
  function JoinItems(items: seq<Json>): string
    decreases items
  {
    if items == [] then []
    else
      var head := if items[0].Null? then [] else JsText(items[0]);
      if |items| == 1 then head else head + "," + JoinItems(items[1..])
  }

  /** JavaScript truthiness of a possibly absent field (undefined is falsy). */
  predicate JsTruthyField(o: Option<Json>) {
    o.Some? && JsTruthy(o.value)
  }

  /** Python truthiness: additionally empty lists and empty dicts are falsy. */
  predicate PyTruthy(v: Json) {
    match v
    case Arr(items) => items != []
    case Obj(ms) => ms != []
    case _ => JsTruthy(v)
  }

  /** The string field `key`, when `v` has one. */
  function GetString(v: Json, key: string): (r: Option<string>)
    ensures r.Some? <==> (Get(v, key).Some? && Get(v, key).value.Str?)
  {
    match Get(v, key)
    case Some(Str(s)) => Some(s)
    case _ => None
  }

  // ---------------------------------------------------------------------------
  // Writing

  /** The space Python puts after separators. */
  function Pad(st: Style): string {
    if st.Compact? then "" else " "
  }

  function ItemSep(st: Style): string {
    [','] + Pad(st)
  }

  function KeySep(st: Style): string {
    [':'] + Pad(st)
  }

  function HexDigitChar(d: nat): (c: char)
    requires d < 16
    ensures IsHexDigit(c) && HexDigitValue(c) == d
  {
    if d < 10 then DigitChar(d) else ('a' as int + d - 10) as char
  }

  /** How one character is written inside a string literal. */
  function EscapeChar(c: char): string {
    if c == '"' then "\\\""
    else if c == '\\' then "\\\\"
    else if c == '\U{0008}' then "\\b"
    else if c == '\U{000C}' then "\\f"
    else if c == '\n' then "\\n"
    else if c == '\r' then "\\r"
    else if c == '\t' then "\\t"
    else if (c as int) < 0x20 then "\\u00" + [HexDigitChar(c as int / 16), HexDigitChar(c as int % 16)]
    else [c]
  }

  function Escape(s: string): string {
    if s == [] then [] else EscapeChar(s[0]) + Escape(s[1..])
  }

  function Quote(s: string): string {
    "\"" + Escape(s) + "\""
  }

  function NumberText(neg: bool, whole: nat, frac: string): string {
    (if neg then "-" else "") + NatToString(whole) + (if frac == [] then "" else "." + frac)
  }

  function Serialize(v: Json, st: Style): (r: string)
    ensures r != [] && !IsJsonWs(r[0]) && r[0] != ']' && r[0] != '}' && r[0] != ','
  {
    match v
    case Null => "null"
    case Bool(b) => if b then "true" else "false"
    case Num(neg, whole, frac) => NumberText(neg, whole, frac)
    case Str(s) => Quote(s)
    case Arr(items) => "[" + SerializeItems(items, st) + "]"
    case Obj(ms) => "{" + SerializeMembers(ms, st) + "}"
  }

  function SerializeItems(items: seq<Json>, st: Style): string {
    if |items| == 0 then ""
    else if |items| == 1 then Serialize(items[0], st)
    else Serialize(items[0], st) + ItemSep(st) + SerializeItems(items[1..], st)
  }

  function SerializeMember(m: Member, st: Style): string {
    Quote(m.key) + KeySep(st) + Serialize(m.value, st)
  }

  function SerializeMembers(ms: seq<Member>, st: Style): string {
    if |ms| == 0 then ""
    else if |ms| == 1 then SerializeMember(ms[0], st)
    else SerializeMember(ms[0], st) + ItemSep(st) + SerializeMembers(ms[1..], st)
  }

  // ---------------------------------------------------------------------------
  // Reading

  /** The insignificant white space of JSON text. */
  predicate IsJsonWs(c: char) {
    c == ' ' || c == '\t' || c == '\n' || c == '\r'
  }

  function SkipWs(s: string): (r: string)
    ensures |r| <= |s| && r == s[|s| - |r|..]
    ensures r == [] || !IsJsonWs(r[0])
  {
    if |s| > 0 && IsJsonWs(s[0]) then SkipWs(s[1..]) else s
  }

  /** The character a two-character escape `\e` stands for. */
  function Unescape(e: char): Option<char> {
    if e == '"' then Some('"')
    else if e == '\\' then Some('\\')
    else if e == '/' then Some('/')
    else if e == 'b' then Some('\U{0008}')
    else if e == 'f' then Some('\U{000C}')
    else if e == 'n' then Some('\n')
    else if e == 'r' then Some('\r')
    else if e == 't' then Some('\t')
    else None
  }

  /** The rest of a string literal after its opening quote: the characters it denotes,
      and the text after the closing quote. */
  function ParseStringBody(s: string): (r: Result<(string, string)>)
    ensures r.Success? ==> |r.value.1| < |s|
  {
    if s == [] then Failure("unterminated string")
    else if s[0] == '"' then Success(([], s[1..]))
    else if s[0] == '\\' then
      if |s| < 2 then Failure("unterminated escape")
      else if s[1] == 'u' then
        if |s| < 6 || !AllSatisfy(s[2..6], IsHexDigit) then Failure("bad unicode escape")
        else
          var code := HexValue(s[2..6]);
          if 0xD800 <= code < 0xE000 then Failure("surrogate escape")
          else
            assert code < 0x10000 by {
              HexValueBound(s[2..6]);
              assert Pow16(4) == 0x10000 by {
                assert Pow16(1) == 16;
                assert Pow16(2) == 256;
                assert Pow16(3) == 4096;
              }
            }
            var p :- ParseStringBody(s[6..]);
            Success(([code as char] + p.0, p.1))
      else
        match Unescape(s[1])
        case None => Failure("bad escape")
        case Some(c) =>
          var p :- ParseStringBody(s[2..]);
          Success(([c] + p.0, p.1))
    else if (s[0] as int) < 0x20 then Failure("control character in string")
    else
      var p :- ParseStringBody(s[1..]);
      Success(([s[0]] + p.0, p.1))
  }

  lemma {:induction false} HexValueBound(h: string)
    requires AllSatisfy(h, IsHexDigit)
    ensures HexValue(h) < Pow16(|h|)
  {
    if h != [] {
      HexValueBound(h[..|h| - 1]);
    }
  }

  function Pow16(n: nat): nat {
    if n == 0 then 1 else 16 * Pow16(n - 1)
  }

  function ParseNumber(s: string): (r: Result<(Json, string)>)
    ensures r.Success? ==> |r.value.1| < |s| && Valid(r.value.0)
  {
    if |s| > 0 && s[0] == '-' then ParseUnsigned(true, s[1..]) else ParseUnsigned(false, s)
  }

  /** An integer part without superfluous leading zeros, then an optional fraction. */
  function ParseUnsigned(neg: bool, t: string): (r: Result<(Json, string)>)
    ensures r.Success? ==> |r.value.1| < |t| && Valid(r.value.0)
  {
    var d := TakeWhile(t, IsDigit);
    if d == [] then Failure("invalid number")
    else
      var n := if d[0] == '0' then 1 else |d|;
      assert AllSatisfy(t[..n], IsDigit) by { assert t[..n] == d[..n]; }
      ParseFraction(neg, DigitsValue(t[..n]), t[n..])
  }

  function ParseFraction(neg: bool, whole: nat, rest: string): (r: Result<(Json, string)>)
    ensures r.Success? ==> |r.value.1| <= |rest| && Valid(r.value.0)
  {
    if |rest| > 0 && rest[0] == '.' then
      var f := TakeWhile(rest[1..], IsDigit);
      if f == [] then Failure("invalid number")
      else Success((Num(neg, whole, f), rest[1 + |f|..]))
    else Success((Num(neg, whole, []), rest))
  }

  function ParseValue(s: string): (r: Result<(Json, string)>)
    decreases |s|, 0
    ensures r.Success? ==> |r.value.1| < |s|
  {
    if s == [] then Failure("unexpected end of JSON input")
    else match s[0]
      case 'n' => ParseLiteral(s, "null", Null)
      case 't' => ParseLiteral(s, "true", Bool(true))
      case 'f' => ParseLiteral(s, "false", Bool(false))
      case '"' =>
        var p :- ParseStringBody(s[1..]);
        Success((Str(p.0), p.1))
      case '[' => ParseArray(SkipWs(s[1..]))
      case '{' => ParseObject(SkipWs(s[1..]))
      case _ => if s[0] == '-' || IsDigit(s[0]) then ParseNumber(s) else Failure("unexpected token")
  }

  function ParseLiteral(s: string, word: string, v: Json): (r: Result<(Json, string)>)
    requires |word| > 0
    ensures r.Success? ==> |r.value.1| < |s|
  {
    if StartsWith(s, word) then Success((v, s[|word|..])) else Failure("unexpected token")
  }

  /** The rest of an array after `[` and white space. */
  function ParseArray(s: string): (r: Result<(Json, string)>)
    decreases |s|, 2
    ensures r.Success? ==> |r.value.1| < |s|
  {
    if |s| > 0 && s[0] == ']' then Success((Arr([]), s[1..]))
    else
      var p :- ParseElements(s);
      Success((Arr(p.0), p.1))
  }

  function ParseElements(s: string): (r: Result<(seq<Json>, string)>)
    decreases |s|, 1
    ensures r.Success? ==> |r.value.1| < |s|
  {
    var p :- ParseValue(s);
    var t := SkipWs(p.1);
    if |t| > 0 && t[0] == ',' then
      var q :- ParseElements(SkipWs(t[1..]));
      Success(([p.0] + q.0, q.1))
    else if |t| > 0 && t[0] == ']' then Success(([p.0], t[1..]))
    else Failure("expected , or ]")
  }

  /** The rest of an object after `{` and white space. */
  function ParseObject(s: string): (r: Result<(Json, string)>)
    decreases |s|, 2
    ensures r.Success? ==> |r.value.1| < |s|
  {
    if |s| > 0 && s[0] == '}' then Success((Obj([]), s[1..]))
    else
      var p :- ParseMembers(s);
      Success((Obj(p.0), p.1))
  }

  function ParseMembers(s: string): (r: Result<(seq<Member>, string)>)
    decreases |s|, 1
    ensures r.Success? ==> |r.value.1| < |s|
  {
    if |s| == 0 || s[0] != '"' then Failure("expected property name")
    else
      var k :- ParseStringBody(s[1..]);
      var t := SkipWs(k.1);
      if |t| == 0 || t[0] != ':' then Failure("expected :")
      else
        var p :- ParseValue(SkipWs(t[1..]));
        var u := SkipWs(p.1);
        if |u| > 0 && u[0] == ',' then
          var q :- ParseMembers(SkipWs(u[1..]));
          Success(([Member(k.0, p.0)] + q.0, q.1))
        else if |u| > 0 && u[0] == '}' then Success(([Member(k.0, p.0)], u[1..]))
        else Failure("expected , or }")
  }

  /** `JSON.parse(s)` / `json.loads(s)`; None when the text is not one JSON value
      surrounded by white space. */
  function Parse(s: string): Option<Json> {
    match ParseValue(SkipWs(s))
    case Failure(_) => None
    case Success(p) => if SkipWs(p.1) == [] then Some(p.0) else None
  }

  // ---------------------------------------------------------------------------
  // Round trip

  /** What may follow a value in JSON text without changing how it reads. */
  predicate Delimits(rest: string) {
    rest == [] || rest[0] == ',' || rest[0] == ']' || rest[0] == '}' || IsJsonWs(rest[0])
  }

  /** Every text that either program writes reads back as the value written. */
  lemma ParseSerialize(v: Json, st: Style)
    requires Valid(v)
    ensures Parse(Serialize(v, st)) == Some(v)
  {
    var s := Serialize(v, st);
    SkipWsNoop(s);
    ParseValueSerialize(v, st, []);
    assert s + [] == s;
  }

  lemma SkipWsNoop(s: string)
    requires s == [] || !IsJsonWs(s[0])
    ensures SkipWs(s) == s
  {
  }

  lemma SkipOptionalSpace(sep: string, s: string)
    requires sep == "" || sep == " "
    requires s != [] && !IsJsonWs(s[0])
    ensures SkipWs(sep + s) == s
  {
    if sep == " " {
      assert (sep + s)[1..] == s;
    } else {
      assert sep + s == s;
    }
  }

  lemma {:induction false} ParseStringRoundTrip(str: string, rest: string)
    ensures ParseStringBody(Escape(str) + "\"" + rest) == Success((str, rest))
  {
    if str == [] {
      assert Escape(str) + "\"" + rest == "\"" + rest;
    } else {
      var c := str[0];
      var tail := Escape(str[1..]) + "\"" + rest;
      ParseStringRoundTrip(str[1..], rest);
      assert Escape(str) + "\"" + rest == EscapeChar(c) + tail;
      EscapeCharReads(c, tail);
      assert [c] + str[1..] == str;
    }
  }

  /** One escaped character is read back as that character, and reading resumes after it. */
  lemma EscapeCharReads(c: char, tail: string)
    ensures ParseStringBody(EscapeChar(c) + tail) ==
      (match ParseStringBody(tail)
       case Failure(e) => Failure(e)
       case Success(p) => Success(([c] + p.0, p.1)))
  {
    if c == '"' || c == '\\' || c == '\U{0008}' || c == '\U{000C}' || c == '\n' || c == '\r' || c == '\t' {
      ShortEscapeReads(c, tail);
    } else if (c as int) < 0x20 {
      HexEscapeReads(c, tail);
    } else {
      var s := EscapeChar(c) + tail;
      assert s[1..] == tail;
    }
  }

  lemma ShortEscapeReads(c: char, tail: string)
    requires c == '"' || c == '\\' || c == '\U{0008}' || c == '\U{000C}' || c == '\n' || c == '\r' || c == '\t'
    ensures ParseStringBody(EscapeChar(c) + tail) ==
      (match ParseStringBody(tail)
       case Failure(e) => Failure(e)
       case Success(p) => Success(([c] + p.0, p.1)))
  {
    var s := EscapeChar(c) + tail;
    assert s[2..] == tail;
  }

  lemma HexEscapeReads(c: char, tail: string)
    requires (c as int) < 0x20
    requires !(c == '"' || c == '\\' || c == '\U{0008}' || c == '\U{000C}' || c == '\n' || c == '\r' || c == '\t')
    ensures ParseStringBody(EscapeChar(c) + tail) ==
      (match ParseStringBody(tail)
       case Failure(e) => Failure(e)
       case Success(p) => Success(([c] + p.0, p.1)))
  {
    var s := EscapeChar(c) + tail;
    var hi := HexDigitChar(c as int / 16);
    var lo := HexDigitChar(c as int % 16);
    assert s[2..6] == ['0', '0', hi, lo];
    assert s[6..] == tail;
    var h := s[2..6];
    assert HexValue(['0']) == 0 by { assert ['0'][..0] == []; }
    assert HexValue(['0', '0']) == 0 by { assert ['0', '0'][..1] == ['0']; }
    assert HexValue(['0', '0', hi]) == c as int / 16 by { assert ['0', '0', hi][..2] == ['0', '0']; }
    assert h[..3] == ['0', '0', hi];
    assert HexValue(h) == 16 * (c as int / 16) + c as int % 16;
  }

  lemma FractionRoundTrip(neg: bool, whole: nat, frac: string, rest: string)
    requires AllSatisfy(frac, IsDigit)
    requires Delimits(rest)
    ensures ParseFraction(neg, whole, (if frac == [] then "" else "." + frac) + rest)
            == Success((Num(neg, whole, frac), rest))
  {
    if frac != [] {
      var tail := "." + frac + rest;
      assert tail[1..] == frac + rest;
      TakeWhileDigits(frac, rest);
      assert tail[1 + |frac|..] == rest;
    } else {
      assert "" + rest == rest;
      assert !(|rest| > 0 && rest[0] == '.');
      assert ParseFraction(neg, whole, rest) == Success((Num(neg, whole, []), rest));
    }
  }

  lemma UnsignedRoundTrip(neg: bool, whole: nat, tail: string)
    requires tail == [] || !IsDigit(tail[0])
    ensures ParseUnsigned(neg, NatToString(whole) + tail) == ParseFraction(neg, whole, tail)
  {
    var d := NatToString(whole);
    var t := d + tail;
    TakeWhileDigits(d, tail);
    var n := if d[0] == '0' then 1 else |d|;
    assert n == |d|;
    assert t[..n] == d && t[n..] == tail;
  }

  lemma NumberRoundTrip(neg: bool, whole: nat, frac: string, rest: string)
    requires AllSatisfy(frac, IsDigit)
    requires Delimits(rest)
    ensures ParseNumber(NumberText(neg, whole, frac) + rest) == Success((Num(neg, whole, frac), rest))
  {
    var d := NatToString(whole);
    var x := if frac == [] then "" else "." + frac;
    var t := d + (x + rest);
    UnsignedRoundTrip(neg, whole, x + rest);
    FractionRoundTrip(neg, whole, frac, rest);
    var sign := if neg then "-" else "";
    Assoc3(sign, d, x, rest);
    if neg {
      ParseNumberNegative(t);
    } else {
      assert sign + t == t;
      assert t[0] == d[0] && IsDigit(d[0]);
      ParseNumberDigit(t);
    }
  }

  lemma Assoc3(a: string, b: string, c: string, e: string)
    ensures a + b + c + e == a + (b + (c + e))
  {
  }

  lemma ParseNumberNegative(t: string)
    ensures ParseNumber("-" + t) == ParseUnsigned(true, t)
  {
    assert ("-" + t)[1..] == t;
  }

  lemma ParseNumberDigit(t: string)
    requires t != [] && IsDigit(t[0])
    ensures ParseNumber(t) == ParseUnsigned(false, t)
  {
  }

  lemma ParseValueOpenBracket(x: string)
    ensures ParseValue("[" + x) == ParseArray(SkipWs(x))
  {
    var s := "[" + x;
    assert s[0] == '[' && s[1..] == x;
    BracketAt(s);
  }

  lemma ParseValueOpenBrace(x: string)
    ensures ParseValue("{" + x) == ParseObject(SkipWs(x))
  {
    var s := "{" + x;
    assert s[0] == '{' && s[1..] == x;
    BraceAt(s);
  }

  lemma ParseValueQuote(x: string)
    ensures ParseValue("\"" + x) ==
      (match ParseStringBody(x)
       case Failure(e) => Failure(e)
       case Success(p) => Success((Str(p.0), p.1)))
  {
    var s := "\"" + x;
    assert s[0] == '"' && s[1..] == x;
    QuoteAt(s);
  }

  /** How a value starting with a bracket, a brace or a quote reads. */
  lemma BracketAt(s: string)
    requires s != [] && s[0] == '['
    ensures ParseValue(s) == ParseArray(SkipWs(s[1..]))
  {
  }

  lemma BraceAt(s: string)
    requires s != [] && s[0] == '{'
    ensures ParseValue(s) == ParseObject(SkipWs(s[1..]))
  {
  }

  lemma QuoteAt(s: string)
    requires s != [] && s[0] == '"'
    ensures ParseValue(s) ==
      (match ParseStringBody(s[1..])
       case Failure(e) => Failure(e)
       case Success(p) => Success((Str(p.0), p.1)))
  {
  }

  lemma ParseValueNumber(s: string)
    requires s != [] && (s[0] == '-' || IsDigit(s[0]))
    ensures ParseValue(s) == ParseNumber(s)
  {
    var c := s[0];
    assert c != 'n' && c != 't' && c != 'f' && c != '"' && c != '[' && c != '{';
  }

  lemma {:induction false} ParseValueSerialize(v: Json, st: Style, rest: string)
    requires Valid(v)
    requires Delimits(rest)
    ensures ParseValue(Serialize(v, st) + rest) == Success((v, rest))
    decreases v, 2
  {
    match v
    case Null => LiteralRoundTrip("null", Null, rest);
    case Bool(b) =>
      if b { LiteralRoundTrip("true", v, rest); } else { LiteralRoundTrip("false", v, rest); }
    case Num(neg, whole, frac) => NumRoundTrip(neg, whole, frac, rest);
    case Str(str) => StrRoundTrip(str, rest);
    case Arr(items) => ArrRoundTrip(items, st, rest);
    case Obj(ms) => ObjRoundTrip(ms, st, rest);
  }

  lemma LiteralRoundTrip(word: string, v: Json, rest: string)
    requires (word == "null" && v == Null) || (word == "true" && v == Bool(true))
             || (word == "false" && v == Bool(false))
    ensures ParseValue(word + rest) == Success((v, rest))
  {
    var s := word + rest;
    assert s[..|word|] == word && s[|word|..] == rest;
    assert s[0] == word[0];
  }

  lemma NumRoundTrip(neg: bool, whole: nat, frac: string, rest: string)
    requires AllSatisfy(frac, IsDigit)
    requires Delimits(rest)
    ensures ParseValue(NumberText(neg, whole, frac) + rest) == Success((Num(neg, whole, frac), rest))
  {
    var s := NumberText(neg, whole, frac) + rest;
    var d := NatToString(whole);
    if !neg { assert s[0] == d[0]; } else { assert s[0] == '-'; }
    ParseValueNumber(s);
    NumberRoundTrip(neg, whole, frac, rest);
  }

  lemma StrRoundTrip(str: string, rest: string)
    ensures ParseValue(Quote(str) + rest) == Success((Str(str), rest))
  {
    assert Quote(str) + rest == "\"" + (Escape(str) + "\"" + rest);
    ParseValueQuote(Escape(str) + "\"" + rest);
    ParseStringRoundTrip(str, rest);
  }

  lemma {:induction false} ArrRoundTrip(items: seq<Json>, st: Style, rest: string)
    requires forall i :: 0 <= i < |items| ==> Valid(items[i])
    requires Delimits(rest)
    ensures ParseValue(Serialize(Arr(items), st) + rest) == Success((Arr(items), rest))
    decreases items, 1
  {
    var inner := SerializeItems(items, st) + "]" + rest;
    assert Serialize(Arr(items), st) + rest == "[" + inner;
    if |items| == 0 {
      assert inner == "]" + rest;
      EmptyArrayReads(rest);
    } else {
      ItemsStart(items, st);
      assert inner[0] == SerializeItems(items, st)[0];
      ParseItemsSerialize(items, st, rest);
      ArrayFromElements(inner, items, rest);
    }
  }

  lemma EmptyArrayReads(rest: string)
    ensures ParseValue("[" + ("]" + rest)) == Success((Arr([]), rest))
  {
    ParseValueOpenBracket("]" + rest);
    SkipWsNoop("]" + rest);
    assert ("]" + rest)[1..] == rest;
  }

  lemma ArrayFromElements(inner: string, items: seq<Json>, rest: string)
    requires inner != [] && !IsJsonWs(inner[0]) && inner[0] != ']'
    ensures ParseElements(inner) == Success((items, rest)) ==>
      ParseValue("[" + inner) == Success((Arr(items), rest))
  {
    if ParseElements(inner) == Success((items, rest)) {
      ParseValueOpenBracket(inner);
      SkipWsNoop(inner);
      ArrayStep(inner);
    }
  }

  lemma ArrayStep(s: string)
    requires s != [] && s[0] != ']'
    ensures ParseArray(s) ==
      (match ParseElements(s)
       case Failure(e) => Failure(e)
       case Success(p) => Success((Arr(p.0), p.1)))
  {
  }

  lemma ObjectStep(s: string)
    requires s != [] && s[0] != '}'
    ensures ParseObject(s) ==
      (match ParseMembers(s)
       case Failure(e) => Failure(e)
       case Success(p) => Success((Obj(p.0), p.1)))
  {
  }

  lemma {:induction false} ObjRoundTrip(ms: seq<Member>, st: Style, rest: string)
    requires forall i :: 0 <= i < |ms| ==> Valid(ms[i].value)
    requires Delimits(rest)
    ensures ParseValue(Serialize(Obj(ms), st) + rest) == Success((Obj(ms), rest))
    decreases ms, 1
  {
    var inner := SerializeMembers(ms, st) + "}" + rest;
    assert Serialize(Obj(ms), st) + rest == "{" + inner;
    if |ms| == 0 {
      assert inner == "}" + rest;
      EmptyObjectReads(rest);
    } else {
      MembersStart(ms, st);
      assert inner[0] == SerializeMembers(ms, st)[0];
      ParseMembersSerialize(ms, st, rest);
      ObjectFromMembers(inner, ms, rest);
    }
  }

  lemma EmptyObjectReads(rest: string)
    ensures ParseValue("{" + ("}" + rest)) == Success((Obj([]), rest))
  {
    ParseValueOpenBrace("}" + rest);
    SkipWsNoop("}" + rest);
    assert ("}" + rest)[1..] == rest;
  }

  lemma ObjectFromMembers(inner: string, ms: seq<Member>, rest: string)
    requires inner != [] && inner[0] == '"'
    ensures ParseMembers(inner) == Success((ms, rest)) ==>
      ParseValue("{" + inner) == Success((Obj(ms), rest))
  {
    if ParseMembers(inner) == Success((ms, rest)) {
      ParseValueOpenBrace(inner);
      SkipWsNoop(inner);
      ObjectStep(inner);
    }
  }

  lemma ItemsStart(items: seq<Json>, st: Style)
    requires |items| > 0
    ensures var s := SerializeItems(items, st);
      s != [] && !IsJsonWs(s[0]) && s[0] != ']'
  {
    var s := SerializeItems(items, st);
    assert s[0] == Serialize(items[0], st)[0];
  }

  /** Reading array elements: an element followed by `,` and the remaining elements. */
  lemma ElementsMore(s: string, v: Json, pad: string, more: string, vs: seq<Json>, rest: string)
    requires pad == "" || pad == " "
    requires more != [] && !IsJsonWs(more[0])
    ensures ParseValue(s) == Success((v, [','] + (pad + more))) &&
            ParseElements(more) == Success((vs, rest)) ==>
      ParseElements(s) == Success(([v] + vs, rest))
  {
    if ParseValue(s) == Success((v, [','] + (pad + more))) && ParseElements(more) == Success((vs, rest)) {
      var r1 := [','] + (pad + more);
      assert SkipWs(r1) == r1;
      assert r1[1..] == pad + more;
      assert SkipWs(pad + more) == more by { SkipOptionalSpace(pad, more); }
    }
  }

  /** Reading array elements: the last element, followed by `]`. */
  lemma ElementsLast(s: string, v: Json, rest: string)
    ensures ParseValue(s) == Success((v, "]" + rest)) ==>
      ParseElements(s) == Success(([v], rest))
  {
    if ParseValue(s) == Success((v, "]" + rest)) {
      SkipWsNoop("]" + rest);
      assert ("]" + rest)[1..] == rest;
    }
  }

  lemma Assoc(a: string, b: string, c: string)
    ensures a + b + c == a + (b + c)
  {
  }

  lemma SepAssoc(a: string, sep: char, pad: string, b: string, c: string, d: string)
    ensures a + ([sep] + pad) + b + c + d == a + ([sep] + (pad + (b + c + d)))
  {
  }

  lemma ItemsConsText(items: seq<Json>, st: Style, rest: string)
    requires |items| > 1
    ensures SerializeItems(items, st) + "]" + rest
      == Serialize(items[0], st) + ([','] + (Pad(st) + (SerializeItems(items[1..], st) + "]" + rest)))
  {
    SepAssoc(Serialize(items[0], st), ',', Pad(st), SerializeItems(items[1..], st), "]", rest);
  }

  lemma MembersConsText(ms: seq<Member>, st: Style, rest: string)
    requires |ms| > 1
    ensures SerializeMembers(ms, st) + "}" + rest
      == SerializeMember(ms[0], st) + ([','] + (Pad(st) + (SerializeMembers(ms[1..], st) + "}" + rest)))
  {
    SepAssoc(SerializeMember(ms[0], st), ',', Pad(st), SerializeMembers(ms[1..], st), "}", rest);
  }

  lemma MembersStart(ms: seq<Member>, st: Style)
    requires |ms| > 0
    ensures SerializeMembers(ms, st) != [] && SerializeMembers(ms, st)[0] == '"'
  {
    var m := SerializeMember(ms[0], st);
    assert m[0] == '"';
    if |ms| > 1 {
      assert SerializeMembers(ms, st) == m + ItemSep(st) + SerializeMembers(ms[1..], st);
    }
  }

  lemma {:induction false} ParseItemsSerialize(items: seq<Json>, st: Style, rest: string)
    requires |items| > 0
    requires forall i :: 0 <= i < |items| ==> Valid(items[i])
    ensures ParseElements(SerializeItems(items, st) + "]" + rest) == Success((items, rest))
    decreases items, 0
  {
    if |items| == 1 {
      ParseValueSerialize(items[0], st, "]" + rest);
      ItemsLastStep(items, st, rest);
    } else {
      var more := SerializeItems(items[1..], st) + "]" + rest;
      ItemsStart(items[1..], st);
      assert more[0] == SerializeItems(items[1..], st)[0];
      ParseValueSerialize(items[0], st, [','] + (Pad(st) + more));
      ParseItemsSerialize(items[1..], st, rest);
      ItemsConsText(items, st, rest);
      ItemsMoreStep(SerializeItems(items, st) + "]" + rest, Pad(st), more, items, rest);
    }
  }

  /** The last array element: its text, then `]`. */
  lemma ItemsLastStep(items: seq<Json>, st: Style, rest: string)
    requires |items| == 1
    requires ParseValue(Serialize(items[0], st) + ("]" + rest)) == Success((items[0], "]" + rest))
    ensures ParseElements(SerializeItems(items, st) + "]" + rest) == Success((items, rest))
  {
    var first := Serialize(items[0], st);
    Assoc(first, "]", rest);
    ElementsLast(first + ("]" + rest), items[0], rest);
    assert items == [items[0]];
  }

  /** An array element followed by `,` and the remaining elements. */
  lemma ItemsMoreStep(whole: string, pad: string, more: string, items: seq<Json>, rest: string)
    requires |items| > 1 && (pad == "" || pad == " ")
    requires more != [] && !IsJsonWs(more[0])
    ensures ParseValue(whole) == Success((items[0], [','] + (pad + more))) &&
            ParseElements(more) == Success((items[1..], rest)) ==>
      ParseElements(whole) == Success((items, rest))
  {
    if ParseValue(whole) == Success((items[0], [','] + (pad + more))) &&
       ParseElements(more) == Success((items[1..], rest)) {
      var v, vs := items[0], items[1..];
      assert [v] + vs == items;
      ElementsMore(whole, v, pad, more, vs, rest);
    }
  }

  /** Reading object members: a key, `:`, a value and `,`, then the remaining members. */
  lemma MembersMore(s: string, key: string, pad: string, valueText: string, v: Json,
                    more: string, ms: seq<Member>, rest: string)
    requires pad == "" || pad == " "
    requires s != [] && s[0] == '"'
    requires ParseStringBody(s[1..]) == Success((key, [':'] + (pad + valueText)))
    requires valueText != [] && !IsJsonWs(valueText[0])
    requires ParseValue(valueText) == Success((v, [','] + (pad + more)))
    requires more != [] && !IsJsonWs(more[0])
    requires ParseMembers(more) == Success((ms, rest))
    ensures ParseMembers(s) == Success(([Member(key, v)] + ms, rest))
  {
    var afterKey := [':'] + (pad + valueText);
    assert SkipWs(afterKey) == afterKey;
    assert afterKey[1..] == pad + valueText;
    assert SkipWs(pad + valueText) == valueText by { SkipOptionalSpace(pad, valueText); }
    var r1 := [','] + (pad + more);
    assert SkipWs(r1) == r1;
    assert r1[1..] == pad + more;
    assert SkipWs(pad + more) == more by { SkipOptionalSpace(pad, more); }
  }

  lemma MemberCons(ms: seq<Member>)
    requires |ms| > 0
    ensures [Member(ms[0].key, ms[0].value)] + ms[1..] == ms
  {
  }

  /** Reading object members: the last key, `:` and value, followed by `}`. */
  lemma MembersLast(s: string, key: string, pad: string, valueText: string, v: Json, rest: string)
    requires pad == "" || pad == " "
    requires s != [] && s[0] == '"'
    requires ParseStringBody(s[1..]) == Success((key, [':'] + (pad + valueText)))
    requires valueText != [] && !IsJsonWs(valueText[0])
    requires ParseValue(valueText) == Success((v, "}" + rest))
    ensures ParseMembers(s) == Success(([Member(key, v)], rest))
  {
    var afterKey := [':'] + (pad + valueText);
    assert SkipWs(afterKey) == afterKey;
    assert afterKey[1..] == pad + valueText;
    assert SkipWs(pad + valueText) == valueText by { SkipOptionalSpace(pad, valueText); }
    SkipWsNoop("}" + rest);
    assert ("}" + rest)[1..] == rest;
  }

  /** The text of a member followed by `tail`, split at the key's opening quote. */
  lemma MemberText(m: Member, st: Style, tail: string)
    ensures var s := SerializeMember(m, st) + tail;
      s != [] && s[0] == '"'
      && s[1..] == Escape(m.key) + "\"" + ([':'] + (Pad(st) + (Serialize(m.value, st) + tail)))
  {
    QuoteAssoc(Escape(m.key), Pad(st), Serialize(m.value, st), tail);
  }

  lemma QuoteAssoc(e: string, pad: string, v: string, t: string)
    ensures var s := ("\"" + e + "\"") + ([':'] + pad) + v + t;
      s != [] && s[0] == '"' && s[1..] == e + "\"" + ([':'] + (pad + (v + t)))
  {
  }

  lemma {:induction false} ParseMembersSerialize(ms: seq<Member>, st: Style, rest: string)
    requires |ms| > 0
    requires forall i :: 0 <= i < |ms| ==> Valid(ms[i].value)
    ensures ParseMembers(SerializeMembers(ms, st) + "}" + rest) == Success((ms, rest))
    decreases ms, 0
  {
    var m := ms[0];
    if |ms| == 1 {
      ParseValueSerialize(m.value, st, "}" + rest);
      MembersLastStep(ms, st, rest);
    } else {
      var more := SerializeMembers(ms[1..], st) + "}" + rest;
      MembersStart(ms[1..], st);
      assert more[0] == SerializeMembers(ms[1..], st)[0];
      ParseValueSerialize(m.value, st, [','] + (Pad(st) + more));
      ParseMembersSerialize(ms[1..], st, rest);
      MembersMoreText(ms, st, rest);
    }
  }

  /** The last object member: its key, `:` and value, then `}`. */
  lemma MembersLastStep(ms: seq<Member>, st: Style, rest: string)
    requires |ms| == 1
    requires ParseValue(Serialize(ms[0].value, st) + ("}" + rest)) == Success((ms[0].value, "}" + rest))
    ensures ParseMembers(SerializeMembers(ms, st) + "}" + rest) == Success((ms, rest))
  {
    var m := ms[0];
    var first := SerializeMember(m, st);
    var valueText := Serialize(m.value, st);
    var tail := "}" + rest;
    Assoc(first, "}", rest);
    MemberText(m, st, tail);
    ParseStringRoundTrip(m.key, [':'] + (Pad(st) + (valueText + tail)));
    assert (valueText + tail)[0] == valueText[0];
    MembersLast(first + tail, m.key, Pad(st), valueText + tail, m.value, rest);
    assert ms == [m];
  }

  /** The text of an object member followed by `,` and the remaining members, read back
      piece by piece. */
  lemma MembersMoreText(ms: seq<Member>, st: Style, rest: string)
    requires |ms| > 1
    ensures var more := SerializeMembers(ms[1..], st) + "}" + rest;
      && ParseValue(Serialize(ms[0].value, st) + ([','] + (Pad(st) + more))) == Success((ms[0].value, [','] + (Pad(st) + more)))
      && ParseMembers(more) == Success((ms[1..], rest))
      ==> ParseMembers(SerializeMembers(ms, st) + "}" + rest) == Success((ms, rest))
  {
    var m := ms[0];
    var valueText := Serialize(m.value, st);
    var more := SerializeMembers(ms[1..], st) + "}" + rest;
    var tail := [','] + (Pad(st) + more);
    if ParseValue(valueText + tail) == Success((m.value, tail)) && ParseMembers(more) == Success((ms[1..], rest)) {
      var whole := SerializeMembers(ms, st) + "}" + rest;
      MembersConsText(ms, st, rest);
      MemberText(m, st, tail);
      ParseStringRoundTrip(m.key, [':'] + (Pad(st) + (valueText + tail)));
      assert (valueText + tail)[0] == valueText[0];
      MembersStart(ms[1..], st);
      assert more[0] == SerializeMembers(ms[1..], st)[0];
      MemberCons(ms);
      MembersMore(whole, m.key, Pad(st), valueText + tail, m.value, more, ms[1..], rest);
    }
  }

}
