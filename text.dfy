/**
 * String helpers that both halves of the application rely on: splitting on a
 * separator and joining back, decimal printing of integers, Python's `int()`
 * and JavaScript's `Number()` and `parseInt()` on the decimal-integer subset
 * of strings (an optional sign and ASCII digits), white-space stripping and
 * ASCII lower-casing.
 */
module Text {
  import opened Common

  // ---------------------------------------------------------------- characters

  predicate IsDigit(c: char) { '0' <= c <= '9' }

  predicate AllDigits(s: string) { forall i :: 0 <= i < |s| ==> IsDigit(s[i]) }

  /** The ASCII white space that `str.strip()` and `String.prototype.trim()` remove. */
  predicate IsSpace(c: char) {
    c == ' ' || c == '\t' || c == '\n' || c == '\r' || c as int == 11 || c as int == 12
  }

  function DigitValue(c: char): (d: nat)
    requires IsDigit(c)
    ensures d < 10
  {
    (c as int) - ('0' as int)
  }

  function DigitChar(d: nat): (c: char)
    requires d < 10
    ensures IsDigit(c) && DigitValue(c) == d
  {
    (('0' as int) + d) as char
  }

  // ---------------------------------------------------------------- printing

  /** The decimal notation of `n`, as Python's `str()` and JavaScript's template literals print it. */
  function NatToString(n: nat): (s: string)
    ensures |s| >= 1 && AllDigits(s)
    ensures s[0] == '0' ==> n == 0 && |s| == 1
  {
    if n < 10 then [DigitChar(n)] else NatToString(n / 10) + [DigitChar(n % 10)]
  }

  function IntToString(n: int): (s: string)
    ensures |s| >= 1 && !IsSpace(s[0]) && IsDigit(s[|s| - 1])
    ensures forall i :: 0 <= i < |s| ==> IsDigit(s[i]) || s[i] == '-'
  {
    if n < 0 then "-" + NatToString(-n) else NatToString(n)
  }

  /** The value of a string of decimal digits (leading zeros allowed). */
  function DigitsValue(s: string): nat
    requires AllDigits(s)
  {
    if s == [] then 0 else DigitsValue(s[..|s| - 1]) * 10 + DigitValue(s[|s| - 1])
  }

  lemma {:induction false} NatToStringValue(n: nat)
    ensures DigitsValue(NatToString(n)) == n
  {
    if n >= 10 {
      var s := NatToString(n);
      assert s[..|s| - 1] == NatToString(n / 10);
      NatToStringValue(n / 10);
    }
  }

  /** Two-digit notation, as the validators of cron fields spell their numbers. */
  lemma NatToStringSmall(n: nat)
    requires n < 100
    ensures n < 10 ==> NatToString(n) == [DigitChar(n)]
    ensures 10 <= n ==> NatToString(n) == [DigitChar(n / 10), DigitChar(n % 10)]
  {
  }

  // ---------------------------------------------------------------- stripping

  function StripLeft(s: string): (r: string)
    ensures |r| <= |s| && r == s[|s| - |r|..]
    ensures |r| > 0 ==> !IsSpace(r[0])
  {
    if |s| > 0 && IsSpace(s[0]) then StripLeft(s[1..]) else s
  }

  function StripRight(s: string): (r: string)
    ensures |r| <= |s| && r == s[..|r|]
    ensures |r| > 0 ==> !IsSpace(r[|r| - 1])
  {
    if |s| > 0 && IsSpace(s[|s| - 1]) then StripRight(s[..|s| - 1]) else s
  }

  /** Python's `str.strip()` and JavaScript's `trim()`, on ASCII white space. */
  function Strip(s: string): string {
    StripRight(StripLeft(s))
  }

  lemma StripUnspaced(s: string)
    requires |s| > 0 && !IsSpace(s[0]) && !IsSpace(s[|s| - 1])
    ensures Strip(s) == s
  {
  }

  // ---------------------------------------------------------------- parsing

  function ParseDigits(s: string): (r: Option<nat>)
    ensures r.Some? <==> s != [] && AllDigits(s)
  {
    if s != [] && AllDigits(s) then Some(DigitsValue(s)) else None
  }

  /** An optional sign followed by one or more decimal digits. */
  function ParseSigned(s: string): Option<int> {
    if |s| > 0 && (s[0] == '-' || s[0] == '+') then
      match ParseDigits(s[1..])
      case None => None
      case Some(v) => Some(if s[0] == '-' then -(v as int) else v)
    else
      match ParseDigits(s)
      case None => None
      case Some(v) => Some(v)
  }

  /**
   * Python's `int(s)` on the decimal-integer subset: surrounding white space,
   * a sign and ASCII decimal digits. Underscores between digits and
   * non-ASCII digits, which `int()` also accepts, are refused here.
   */
  function PyInt(s: string): Option<int> {
    ParseSigned(Strip(s))
  }

  lemma ParseSignedOfIntToString(n: int)
    ensures ParseSigned(IntToString(n)) == Some(n)
  {
    NatToStringValue(if n < 0 then -n else n);
    if n < 0 {
      assert IntToString(n)[1..] == NatToString(-n);
    }
  }

  lemma PyIntOfIntToString(n: int)
    ensures PyInt(IntToString(n)) == Some(n)
  {
    StripUnspaced(IntToString(n));
    ParseSignedOfIntToString(n);
  }

  // ---------------------------------------------------------------- JavaScript numbers

  /**
   * The JavaScript numbers the front end handles: integers, NaN, and the
   * `undefined` that reading a missing field or array slot yields.
   */
  datatype JsNum = Num(n: int) | NaN | Undefined

  /**
   * JavaScript `Number(s)` on the decimal-integer subset: a blank text is 0,
   * a signed run of ASCII digits is its value, anything else is NaN (so
   * fractions, exponents and hexadecimal texts, which `Number()` reads, are NaN here).
   */
  function JsNumber(s: string): JsNum {
    var t := Strip(s);
    if t == "" then Num(0)
    else match ParseSigned(t)
      case Some(v) => Num(v)
      case None => NaN
  }

  /** The length of the longest prefix of `s` made of digits. */
  function DigitPrefix(s: string): (k: nat)
    ensures k <= |s| && AllDigits(s[..k])
    ensures k < |s| ==> !IsDigit(s[k])
  {
    if |s| > 0 && IsDigit(s[0]) then
      var k := 1 + DigitPrefix(s[1..]);
      assert forall i :: 1 <= i < k ==> s[..k][i] == s[1..][..k - 1][i - 1];
      k
    else 0
  }

  /**
   * JavaScript `parseInt(s)` in base 10: leading white space, a sign, then the
   * longest run of decimal digits. A "0x" prefix, which `parseInt` reads as
   * hexadecimal, is read here as the digit 0.
   */
  function JsParseInt(s: string): JsNum {
    var t := StripLeft(s);
    var neg := |t| > 0 && t[0] == '-';
    var body := if |t| > 0 && (t[0] == '-' || t[0] == '+') then t[1..] else t;
    var k := DigitPrefix(body);
    if k == 0 then NaN
    else Num(if neg then -(DigitsValue(body[..k]) as int) else DigitsValue(body[..k]))
  }

  /** How a template literal renders a number. */
  function JsNumToString(v: JsNum): string {
    match v
    case Num(n) => IntToString(n)
    case NaN => "NaN"
    case Undefined => "undefined"
  }

  /** JavaScript `v || 0` for a number: 0, NaN and undefined are falsy. */
  function OrZero(v: JsNum): int {
    match v
    case Num(n) => n
    case NaN => 0
    case Undefined => 0
  }

  lemma JsNumberOfIntToString(n: int)
    ensures JsNumber(IntToString(n)) == Num(n)
  {
    StripUnspaced(IntToString(n));
    ParseSignedOfIntToString(n);
  }

  lemma JsParseIntOfIntToString(n: int)
    ensures JsParseInt(IntToString(n)) == Num(n)
  {
    var s := IntToString(n);
    var m: nat := if n < 0 then -n else n;
    var digits := NatToString(m);
    assert StripLeft(s) == s;
    assert digits[..|digits|] == digits;
    DigitPrefixAll(digits);
    NatToStringValue(m);
    if n < 0 {
      assert s[1..] == digits;
    } else {
      assert s == digits;
    }
  }

  lemma {:induction false} DigitPrefixAll(s: string)
    requires AllDigits(s)
    ensures DigitPrefix(s) == |s|
  {
    if |s| > 0 {
      DigitPrefixAll(s[1..]);
    }
  }

  // ---------------------------------------------------------------- split and join

  function Count(s: string, c: char): nat {
    if s == [] then 0 else (if s[0] == c then 1 else 0) + Count(s[1..], c)
  }

  function IndexOf(s: string, c: char): (i: nat)
    requires c in s
    ensures i < |s| && s[i] == c && c !in s[..i]
  {
    if s[0] == c then 0
    else
      var j := IndexOf(s[1..], c);
      assert s[..j + 1] == [s[0]] + s[1..][..j];
      j + 1
  }

  /** `s.split(c)` in Python and JavaScript: the pieces between occurrences of `c`. */
  function Split(s: string, c: char): (parts: seq<string>)
    ensures |parts| >= 1
    ensures forall i :: 0 <= i < |parts| ==> c !in parts[i]
    decreases |s|
  {
    if c !in s then [s]
    else
      var i := IndexOf(s, c);
      [s[..i]] + Split(s[i + 1..], c)
  }

  /** `parts.join(c)`. */
  function Join(parts: seq<string>, c: char): string {
    if |parts| == 0 then ""
    else if |parts| == 1 then parts[0]
    else parts[0] + [c] + Join(parts[1..], c)
  }

  lemma {:induction false} JoinSplit(s: string, c: char)
    ensures Join(Split(s, c), c) == s
    decreases |s|
  {
    if c in s {
      var i := IndexOf(s, c);
      JoinSplit(s[i + 1..], c);
      assert s == s[..i] + [c] + s[i + 1..];
    }
  }

  lemma {:induction false} IndexOfAfter(a: string, c: char, b: string)
    requires c !in a
    ensures c in a + [c] + b && IndexOf(a + [c] + b, c) == |a|
  {
    var s := a + [c] + b;
    assert s[|a|] == c;
    if a != [] {
      assert s[1..] == a[1..] + [c] + b;
      IndexOfAfter(a[1..], c, b);
    }
  }

  lemma {:induction false} SplitJoin(parts: seq<string>, c: char)
    requires |parts| >= 1
    requires forall i :: 0 <= i < |parts| ==> c !in parts[i]
    ensures Split(Join(parts, c), c) == parts
  {
    if |parts| > 1 {
      var rest := Join(parts[1..], c);
      var s := parts[0] + [c] + rest;
      assert Join(parts, c) == s;
      IndexOfAfter(parts[0], c, rest);
      assert s[..|parts[0]|] == parts[0];
      assert s[|parts[0]| + 1..] == rest;
      SplitJoin(parts[1..], c);
    }
  }

  lemma {:induction false} CountAppend(a: string, b: string, c: char)
    ensures Count(a + b, c) == Count(a, c) + Count(b, c)
  {
    if a == [] {
      assert a + b == b;
    } else {
      assert (a + b)[1..] == a[1..] + b;
      CountAppend(a[1..], b, c);
    }
  }

  lemma {:induction false} CountAbsent(s: string, c: char)
    requires c !in s
    ensures Count(s, c) == 0
  {
    if s != [] {
      CountAbsent(s[1..], c);
    }
  }

  /** The number of pieces `split` gives is one more than the number of separators. */
  lemma {:induction false} SplitLength(s: string, c: char)
    ensures |Split(s, c)| == Count(s, c) + 1
    decreases |s|
  {
    if c !in s {
      CountAbsent(s, c);
    } else {
      var i := IndexOf(s, c);
      assert s == s[..i] + ([c] + s[i + 1..]);
      CountAppend(s[..i], [c] + s[i + 1..], c);
      CountAppend([c], s[i + 1..], c);
      CountAbsent(s[..i], c);
      SplitLength(s[i + 1..], c);
    }
  }

  // ---------------------------------------------------------------- case

  function LowerChar(c: char): char {
    if 'A' <= c <= 'Z' then ((c as int) + 32) as char else c
  }

  /** `s.toLowerCase()` on ASCII letters. */
  function ToLower(s: string): (r: string)
    ensures |r| == |s| && forall i :: 0 <= i < |s| ==> r[i] == LowerChar(s[i])
  {
    if s == [] then [] else [LowerChar(s[0])] + ToLower(s[1..])
  }

  lemma {:induction false} ToLowerJoin(parts: seq<string>, c: char)
    requires LowerChar(c) == c
    ensures ToLower(Join(parts, c)) == Join(seq(|parts|, i requires 0 <= i < |parts| => ToLower(parts[i])), c)
  {
    var lowered := seq(|parts|, i requires 0 <= i < |parts| => ToLower(parts[i]));
    if |parts| > 1 {
      ToLowerJoin(parts[1..], c);
      var tail := seq(|parts| - 1, i requires 0 <= i < |parts| - 1 => ToLower(parts[1..][i]));
      assert lowered[1..] == tail;
      var rest := Join(parts[1..], c);
      assert ToLower(parts[0] + [c] + rest) == ToLower(parts[0]) + [c] + ToLower(rest);
    }
  }
}
