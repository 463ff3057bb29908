/** Decoded JSON values as Python's `json` module delivers them, and the two
    Python built-ins the status normaliser applies to them: `str(...)` and
    `int(...)` (base 10). */
module PyValues {
  import opened Wrappers

  predicate IsDigit(c: char) { '0' <= c <= '9' }

  /** How `str()` of a float, list or dict begins: a digit or `-` for a
      number, `i` or `n` for inf and nan, `[` for a list, `{` for a dict. */
  predicate IsOtherText(t: string) {
    |t| > 0 && (IsDigit(t[0]) || t[0] in "-in[{")
  }

  type OtherText = t: string | IsOtherText(t) witness "0"

  /** A decoded JSON value. JSON numbers without a fraction become Python
      ints; floats, arrays and objects (`JOther`) are kept abstract: only the
      text `str()` gives for them and the outcome of `int()` on them
      (truncation for a float, TypeError for a list or dict). */
  datatype JsonValue =
    | JNull
    | JBool(b: bool)
    | JInt(i: int)
    | JStr(s: string)
    | JOther(text: OtherText, asInt: Option<int>)

  function DigitValue(c: char): (d: nat)
    requires IsDigit(c)
    ensures d < 10
  {
    c as int - '0' as int
  }

  function DigitChar(d: nat): (c: char)
    requires d < 10
    ensures IsDigit(c) && DigitValue(c) == d
  {
    ('0' as int + d) as char
  }

  /** The white space `int()` ignores at both ends of its argument: ASCII
      `\t` to `\r` and the space, plus the non-ASCII characters
      `str.isspace()` accepts. (U+001C to U+001F are `str.isspace()` but
      `int()` keeps them, so they make it raise.) */
  predicate IsSpace(c: char) {
    || c == ' '
    || '\t' <= c <= '\r'
    || c == '\U{85}' || c == '\U{a0}' || c == '\U{1680}'
    || '\U{2000}' <= c <= '\U{200a}'
    || c == '\U{2028}' || c == '\U{2029}' || c == '\U{202f}' || c == '\U{205f}'
    || c == '\U{3000}'
  }

  /** Every character `int()` may accept somewhere in a base-10 literal. */
  predicate IsIntChar(c: char) {
    IsDigit(c) || IsSpace(c) || c == '+' || c == '-' || c == '_'
  }

  /** Drops leading white space. */
  function TrimStart(s: string): (t: string)
    ensures |t| <= |s| && t == s[|s| - |t|..]
    ensures forall i :: 0 <= i < |s| - |t| ==> IsSpace(s[i])
    ensures t != [] ==> !IsSpace(t[0])
  {
    if |s| > 0 && IsSpace(s[0]) then TrimStart(s[1..]) else s
  }

  /** Drops trailing white space. */
  function TrimEnd(s: string): (t: string)
    ensures |t| <= |s| && t == s[..|t|]
    ensures forall i :: |t| <= i < |s| ==> IsSpace(s[i])
    ensures t != [] ==> !IsSpace(t[|t| - 1])
  {
    if |s| > 0 && IsSpace(s[|s| - 1]) then TrimEnd(s[..|s| - 1]) else s
  }

  predicate DigitsOrUnderscores(d: string) {
    forall i :: 0 <= i < |d| ==> IsDigit(d[i]) || d[i] == '_'
  }

  /** Python's digit part of a base-10 integer literal: digits, where one
      underscore may stand between two digits ("1_000"). */
  predicate IsDigitString(d: string) {
    && |d| > 0
    && IsDigit(d[0])
    && IsDigit(d[|d| - 1])
    && DigitsOrUnderscores(d)
    && forall i :: 0 < i < |d| - 1 ==> DigitAfterUnderscore(d, i)
  }

  /** An underscore at position `i` is followed by a digit. */
  predicate DigitAfterUnderscore(d: string, i: nat)
    requires i + 1 < |d|
  {
    d[i] == '_' ==> IsDigit(d[i + 1])
  }

  /** The number a digit string denotes; underscores carry no value. */
  function DigitsValue(d: string): nat
    requires DigitsOrUnderscores(d)
  {
    if d == [] then 0
    else if d[|d| - 1] == '_' then DigitsValue(d[..|d| - 1])
    else 10 * DigitsValue(d[..|d| - 1]) + DigitValue(d[|d| - 1])
  }

  /** The literal after stripping: an optional sign, then a digit string. */
  function ParseSigned(t: string): (r: Option<int>)
    ensures r.Some? ==> exists i :: 0 <= i < |t| && IsDigit(t[i])
    ensures r.Some? ==> forall i :: 0 <= i < |t| ==> IsIntChar(t[i])
  {
    if |t| > 0 && (t[0] == '+' || t[0] == '-') then
      var d := t[1..];
      if IsDigitString(d) then
        assert IsDigit(t[1]);
        var n: int := DigitsValue(d);
        Some(if t[0] == '-' then -n else n)
      else None
    else if IsDigitString(t) then
      assert IsDigit(t[0]);
      Some(DigitsValue(t))
    else None
  }

  /** `int(s)` for a `str` argument: `None` where Python raises ValueError.
      Only a string holding a digit converts; "" and blank strings raise. */
  function ParseIntLiteral(s: string): (r: Option<int>)
    ensures r.Some? ==> exists i :: 0 <= i < |s| && IsDigit(s[i])
  {
    var t := TrimEnd(TrimStart(s));
    var n := ParseSigned(t);
    if n.Some? then StrippedHasDigit(s); n else n
  }

  /** A digit of the stripped literal is a digit of the argument. */
  lemma {:induction false} StrippedHasDigit(s: string)
    requires exists k :: 0 <= k < |TrimEnd(TrimStart(s))| && IsDigit(TrimEnd(TrimStart(s))[k])
    ensures exists i :: 0 <= i < |s| && IsDigit(s[i])
  {
    var t0 := TrimStart(s);
    var t := TrimEnd(t0);
    var k :| 0 <= k < |t| && IsDigit(t[k]);
    StrippedHasDigitAt(s, k);
  }

  lemma {:induction false} StrippedHasDigitAt(s: string, k: nat)
    requires k < |TrimEnd(TrimStart(s))| && IsDigit(TrimEnd(TrimStart(s))[k])
    ensures exists i :: 0 <= i < |s| && IsDigit(s[i])
  {
    var t0 := TrimStart(s);
    var t := TrimEnd(t0);
    assert t0[k] == t[k];
    assert s[|s| - |t0| + k] == t0[k];
  }


  /** What `int()` accepts: at least one digit, and nothing but digits, white
      space, signs and underscores. */
  lemma {:induction false} ParsedLiteralShape(s: string)
    requires ParseIntLiteral(s).Some?
    ensures exists i :: 0 <= i < |s| && IsDigit(s[i])
    ensures forall i :: 0 <= i < |s| ==> IsIntChar(s[i])
  {
    var t0 := TrimStart(s);
    var t := TrimEnd(t0);
    assert ParseSigned(t).Some?;
    assert forall i :: 0 <= i < |t| ==> IsIntChar(t[i]);
    StrippedChars(s, t0, t);
  }

  /** Stripping only removes white space, so a stripped literal made of
      literal characters comes from an argument made of them. */
  lemma {:induction false} StrippedChars(s: string, t0: string, t: string)
    requires t0 == TrimStart(s) && t == TrimEnd(t0)
    requires forall i :: 0 <= i < |t| ==> IsIntChar(t[i])
    ensures forall i :: 0 <= i < |s| ==> IsIntChar(s[i])
  {
    TrimEndChars(t0, t);
    TrimStartChars(s, t0);
  }

  lemma {:induction false} TrimEndChars(t0: string, t: string)
    requires t == TrimEnd(t0)
    requires forall i :: 0 <= i < |t| ==> IsIntChar(t[i])
    ensures forall i :: 0 <= i < |t0| ==> IsIntChar(t0[i])
  {
    forall i | 0 <= i < |t0| ensures IsIntChar(t0[i]) {
      if i < |t| {
        assert t0[i] == t[i];
      }
    }
  }

  lemma {:induction false} TrimStartChars(s: string, t0: string)
    requires t0 == TrimStart(s)
    requires forall i :: 0 <= i < |t0| ==> IsIntChar(t0[i])
    ensures forall i :: 0 <= i < |s| ==> IsIntChar(s[i])
  {
    SpacePrefixChars(s, |s| - |t0|);
  }

  lemma {:induction false} SpacePrefixChars(s: string, k: nat)
    requires k <= |s|
    requires forall i :: 0 <= i < k ==> IsSpace(s[i])
    requires forall i :: 0 <= i < |s| - k ==> IsIntChar(s[k..][i])
    ensures forall i :: 0 <= i < |s| ==> IsIntChar(s[i])
  {
    forall i | k <= i < |s| ensures IsIntChar(s[i]) {
      assert s[i] == s[k..][i - k];
    }
  }

  /** `str(n)` for a non-negative int. */
  function NatToDecimal(n: nat): (s: string)
    ensures |s| > 0
    ensures forall i :: 0 <= i < |s| ==> IsDigit(s[i])
  {
    if n < 10 then [DigitChar(n)] else NatToDecimal(n / 10) + [DigitChar(n % 10)]
  }

  /** `str(n)` for an int. */
  function IntToDecimal(n: int): (s: string)
    ensures |s| > 0 && (IsDigit(s[0]) || s[0] == '-')
    ensures IsDigit(s[|s| - 1])
  {
    if n < 0 then "-" + NatToDecimal(-n) else NatToDecimal(n)
  }

  /** `str(v)`: empty only for the empty string; the text of an int converts
      back to it. */
  function PyStr(v: JsonValue): (s: string)
    ensures s == [] ==> v == JStr("")
    ensures v.JInt? ==> ParseIntLiteral(s) == Some(v.i)
  {
    match v
    case JNull => "None"
    case JBool(b) => if b then "True" else "False"
    case JInt(i) => IntDecimalRoundTrip(i); IntToDecimal(i)
    case JStr(s) => s
    case JOther(text, _) => text
  }

  /** `int(v)`: `None` where Python raises (ValueError for a bad string,
      TypeError for `None`, a list or a dict). A bool is an int in Python,
      and an int converts to what its text converts to. */
  function PyInt(v: JsonValue): (r: Option<int>)
    ensures v.JNull? ==> r.None?
    ensures v.JBool? || v.JInt? ==> r.Some?
    ensures v.JInt? ==> r == ParseIntLiteral(PyStr(v))
    ensures v.JStr? && r.Some? ==> exists i :: 0 <= i < |v.s| && IsDigit(v.s[i])
  {
    match v
    case JNull => None
    case JBool(b) => Some(if b then 1 else 0)
    case JInt(i) => Some(i)
    case JStr(s) => ParseIntLiteral(s)
    case JOther(_, n) => n
  }

  /** Reading back the decimal digits of a natural number gives that number. */
  lemma {:induction false} NatDecimalRoundTrip(n: nat)
    ensures IsDigitString(NatToDecimal(n))
    ensures DigitsValue(NatToDecimal(n)) == n
  {
    var s := NatToDecimal(n);
    if n >= 10 {
      var p := NatToDecimal(n / 10);
      NatDecimalRoundTrip(n / 10);
      assert s == p + [DigitChar(n % 10)];
      assert s[..|s| - 1] == p;
    }
  }

  /** `int(str(n)) == n` for every int `n`. */
  lemma {:induction false} IntDecimalRoundTrip(n: int)
    ensures ParseIntLiteral(IntToDecimal(n)) == Some(n)
  {
    if n < 0 {
      var m: nat := -n;
      assert IntToDecimal(n) == "-" + NatToDecimal(m);
      NegativeRoundTrip(m);
    } else {
      assert IntToDecimal(n) == NatToDecimal(n);
      NonNegativeRoundTrip(n);
    }
  }

  lemma {:induction false} NonNegativeRoundTrip(n: nat)
    ensures ParseIntLiteral(NatToDecimal(n)) == Some(n)
  {
    var d := NatToDecimal(n);
    NatDecimalRoundTrip(n);
    SignedDigitsParse(d);
    NothingToStrip(d);
    StrippedLiteral(d, d);
  }

  lemma {:induction false} NegativeRoundTrip(m: nat)
    requires m > 0
    ensures ParseIntLiteral("-" + NatToDecimal(m)) == Some(-(m as int))
  {
    NatDecimalRoundTrip(m);
    NegativeLiteral(NatToDecimal(m), m);
  }

  lemma {:induction false} NegativeLiteral(d: string, v: nat)
    requires IsDigitString(d) && DigitsValue(d) == v
    ensures ParseIntLiteral("-" + d) == Some(-(v as int))
  {
    var s := "-" + d;
    MinusDigitsParse(d, v);
    assert s[0] == '-' && s[|s| - 1] == d[|d| - 1];
    NothingToStrip(s);
    StrippedLiteral(s, s);
  }


  /** `int()` reads the sign and digits of what is left after stripping. */
  lemma {:induction false} StrippedLiteral(s: string, t: string)
    requires TrimEnd(TrimStart(s)) == t
    ensures ParseIntLiteral(s) == ParseSigned(t)
  {
  }

  /** `int()` also accepts the decimal text with a `+` sign and surrounding
      white space. */
  lemma {:induction false} PaddedDecimalParses(n: nat, pre: string, post: string)
    requires forall i :: 0 <= i < |pre| ==> IsSpace(pre[i])
    requires forall i :: 0 <= i < |post| ==> IsSpace(post[i])
    ensures ParseIntLiteral(pre + "+" + NatToDecimal(n) + post) == Some(n)
  {
    var d := NatToDecimal(n);
    var core := "+" + d;
    var rest := core + post;
    assert pre + "+" + d + post == pre + rest;
    assert rest[0] == '+' && core[|core| - 1] == d[|d| - 1];
    TrimStartSkipsSpace(pre, rest);
    assert TrimStart(pre + rest) == rest;
    TrimEndSkipsSpace(core, post);
    assert TrimEnd(rest) == core;
    NatDecimalRoundTrip(n);
    PlusDigitsParse(d, n);
    StrippedLiteral(pre + rest, core);
  }

  lemma {:induction false} SignedDigitsParse(d: string)
    requires IsDigitString(d)
    ensures ParseSigned(d) == Some(DigitsValue(d))
  {
  }

  lemma {:induction false} PlusDigitsParse(d: string, v: nat)
    requires IsDigitString(d) && DigitsValue(d) == v
    ensures ParseSigned("+" + d) == Some(v)
  {
    assert ("+" + d)[1..] == d;
  }

  lemma {:induction false} MinusDigitsParse(d: string, v: nat)
    requires IsDigitString(d) && DigitsValue(d) == v
    ensures ParseSigned("-" + d) == Some(-(v as int))
  {
    assert ("-" + d)[1..] == d;
  }

  lemma {:induction false} NothingToStrip(s: string)
    requires s != [] && !IsSpace(s[0]) && !IsSpace(s[|s| - 1])
    ensures TrimEnd(TrimStart(s)) == s
  {
  }

  lemma {:induction false} TrimStartSkipsSpace(pre: string, rest: string)
    requires forall i :: 0 <= i < |pre| ==> IsSpace(pre[i])
    requires rest != [] && !IsSpace(rest[0])
    ensures TrimStart(pre + rest) == rest
  {
    if pre != [] {
      assert (pre + rest)[1..] == pre[1..] + rest;
      TrimStartSkipsSpace(pre[1..], rest);
    } else {
      assert pre + rest == rest;
    }
  }

  lemma {:induction false} TrimEndSkipsSpace(core: string, post: string)
    requires forall i :: 0 <= i < |post| ==> IsSpace(post[i])
    requires core != [] && !IsSpace(core[|core| - 1])
    ensures TrimEnd(core + post) == core
  {
    if post != [] {
      assert (core + post)[..|core + post| - 1] == core + post[..|post| - 1];
      TrimEndSkipsSpace(core, post[..|post| - 1]);
    } else {
      assert core + post == core;
    }
  }

  /** The only JSON value whose `str()` is exactly "online" is that string
      itself: no int, bool, null, float, list or dict prints that way. */
  lemma {:induction false} StrOnline(v: JsonValue)
    ensures PyStr(v) == "online" <==> v == JStr("online")
  {
    if v.JInt? {
      assert IntToDecimal(v.i)[0] != 'o';
    }
    if v.JOther? {
      assert v.text[0] != 'o';
    }
  }

  /** `int()` raises on any string holding a character outside digits, white
      space, signs and underscores, such as a letter in "online" or the `/`
      in "n/a". (The empty string raises too; `ParseIntLiteral`'s own
      contract covers it.) */
  lemma {:induction false} NonNumericStringFails(s: string, i: nat)
    requires i < |s| && !IsIntChar(s[i])
    ensures PyInt(JStr(s)) == None
  {
    if ParseIntLiteral(s).Some? {
      ParsedLiteralShape(s);
    }
  }
}
