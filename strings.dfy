/**
 * Character and number helpers the two CSV handlers rely on: "%d" printing,
 * FCString::Atoi, FString::IsNumeric, FString::ToBool, StartsWith and FindChar,
 * written out over `string` (a sequence of characters).
 */
module Strings {

  predicate IsDigit(c: char) { '0' <= c <= '9' }

  predicate AllDigits(s: string) { forall i :: 0 <= i < |s| ==> IsDigit(s[i]) }

  /** The characters C's isspace accepts, skipped by Atoi before the number. */
  predicate IsSpace(c: char) { c == ' ' || c == '\t' || c == '\n' || c == '\r' || c == '\U{B}' || c == '\U{C}' }

  function DigitChar(d: nat): (c: char)
    requires d < 10
    ensures IsDigit(c) && c as int - '0' as int == d
  {
    (d + '0' as int) as char
  }

  function DigitValue(c: char): nat
    requires IsDigit(c)
  {
    c as int - '0' as int
  }

  /** Decimal digits of a natural number, most significant first, as "%d" prints it. */
  function NatToString(n: nat): (s: string)
    ensures |s| > 0 && AllDigits(s)
    decreases n
  {
    if n < 10 then [DigitChar(n)] else NatToString(n / 10) + [DigitChar(n % 10)]
  }

  /** "%d" and "%lld": a leading '-' for negative numbers. */
  function IntToString(n: int): string
  {
    if n < 0 then "-" + NatToString(-n) else NatToString(n)
  }

  /** Value of a string of decimal digits, read most significant first. */
  function DigitsValue(s: string): nat
    requires AllDigits(s)
    decreases |s|
  {
    if s == [] then 0 else DigitsValue(s[..|s| - 1]) * 10 + DigitValue(s[|s| - 1])
  }

  /** The longest prefix of `s` made of digits. */
  function LeadingDigits(s: string): (d: string)
    ensures AllDigits(d) && d <= s
    ensures |d| < |s| ==> !IsDigit(s[|d|])
  {
    if s == [] || !IsDigit(s[0]) then [] else [s[0]] + LeadingDigits(s[1..])
  }

  function SkipSpaces(s: string): (t: string)
    ensures |t| <= |s| && t == s[|s| - |t|..]
  {
    if s != [] && IsSpace(s[0]) then SkipSpaces(s[1..]) else s
  }

  /**
   * FCString::Atoi / Atoi64 read as a mathematical integer: leading white space,
   * an optional sign, then the longest run of digits (no digits reads as 0).
   */
  function ParseInt(s: string): int
  {
    var t := SkipSpaces(s);
    if t != [] && t[0] == '-' then -(DigitsValue(LeadingDigits(t[1..])) as int)
    else if t != [] && t[0] == '+' then DigitsValue(LeadingDigits(t[1..]))
    else DigitsValue(LeadingDigits(t))
  }

  const MinInt32: int := -0x8000_0000
  const MaxInt32: int := 0x7FFF_FFFF
  const MinInt64: int := -0x8000_0000_0000_0000
  const MaxInt64: int := 0x7FFF_FFFF_FFFF_FFFF

  predicate IsInt32(n: int) { -0x8000_0000 <= n < 0x8000_0000 }
  predicate IsInt64(n: int) { -0x8000_0000_0000_0000 <= n < 0x8000_0000_0000_0000 }

  /** Saturation to the int32 range, as `_wtoi` does on overflow. */
  function Clamp32(n: int): (r: int)
    ensures IsInt32(r)
    ensures IsInt32(n) ==> r == n
    ensures n > MaxInt32 ==> r == MaxInt32
    ensures n < MinInt32 ==> r == MinInt32
  {
    if n > MaxInt32 then MaxInt32 else if n < MinInt32 then MinInt32 else n
  }

  /** Saturation to the int64 range, as `_wtoi64` and `wcstoll` do on overflow. */
  function Clamp64(n: int): (r: int)
    ensures IsInt64(r)
    ensures IsInt64(n) ==> r == n
    ensures n > MaxInt64 ==> r == MaxInt64
    ensures n < MinInt64 ==> r == MinInt64
  {
    if n > MaxInt64 then MaxInt64 else if n < MinInt64 then MinInt64 else n
  }

  /** FCString::Atoi: the parsed integer, saturated to int32. */
  function Atoi(s: string): (n: int)
    ensures IsInt32(n)
  {
    Clamp32(ParseInt(s))
  }

  /** FCString::Atoi64: the parsed integer, saturated to int64. */
  function Atoi64(s: string): (n: int)
    ensures IsInt64(n)
  {
    Clamp64(ParseInt(s))
  }

  lemma {:induction false} DigitsValueOfNat(n: nat)
    ensures DigitsValue(NatToString(n)) == n
    decreases n
  {
    var s := NatToString(n);
    if n >= 10 {
      DigitsValueOfNat(n / 10);
      assert s[..|s| - 1] == NatToString(n / 10);
    }
  }

  lemma {:induction false} LeadingDigitsOfAllDigits(s: string)
    requires AllDigits(s)
    ensures LeadingDigits(s) == s
    decreases |s|
  {
    if s != [] {
      LeadingDigitsOfAllDigits(s[1..]);
    }
  }

  lemma ParseNatToString(n: nat)
    ensures ParseInt(NatToString(n)) == n
  {
    var d := NatToString(n);
    DigitsValueOfNat(n);
    LeadingDigitsOfAllDigits(d);
    assert IsDigit(d[0]) && !IsSpace(d[0]) && d[0] != '-' && d[0] != '+';
    assert SkipSpaces(d) == d;
    assert ParseInt(d) == DigitsValue(LeadingDigits(d));
  }

  lemma ParseNegatedNatToString(n: nat)
    ensures ParseInt("-" + NatToString(n)) == -(n as int)
  {
    var d := NatToString(n);
    DigitsValueOfNat(n);
    LeadingDigitsOfAllDigits(d);
    assert SkipSpaces("-" + d) == "-" + d;
    assert ("-" + d)[1..] == d;
  }

  /** "%d" followed by Atoi gives back every int32 (and Atoi64 every int64). */
  lemma IntToStringRoundTrip(n: int)
    ensures ParseInt(IntToString(n)) == n
    ensures IsInt32(n) ==> Atoi(IntToString(n)) == n
    ensures IsInt64(n) ==> Atoi64(IntToString(n)) == n
  {
    ParseIntToString(n);
  }

  lemma ParseIntToString(n: int)
    ensures ParseInt(IntToString(n)) == n
  {
    if n < 0 {
      ParseNegatedNatToString(-n);
      assert IntToString(n) == "-" + NatToString(-n);
    } else {
      ParseNatToString(n);
    }
  }

  /**
   * FString::IsNumeric: non-empty, an optional leading sign, then only digits
   * and at most one '.'; so "-", "." and "1.5" count as numeric.
   */
  predicate IsNumeric(s: string)
  {
    s != [] &&
    var body := if s[0] == '-' || s[0] == '+' then s[1..] else s;
    (forall i :: 0 <= i < |body| ==> IsDigit(body[i]) || body[i] == '.') &&
    (forall i, j :: 0 <= i < j < |body| && body[i] == '.' ==> body[j] != '.')
  }

  lemma NatToStringIsNumeric(n: nat)
    ensures IsNumeric(NatToString(n))
  {
    var s := NatToString(n);
    assert IsDigit(s[0]);
  }

  function ToLowerAscii(c: char): char
  {
    if 'A' <= c <= 'Z' then (c as int + 32) as char else c
  }

  /** FCString::Stricmp(a, b) == 0 for ASCII text. */
  predicate EqualsIgnoreCase(a: string, b: string)
  {
    |a| == |b| && forall i :: 0 <= i < |a| ==> ToLowerAscii(a[i]) == ToLowerAscii(b[i])
  }

  /** FString::ToBool: true/yes/on, false/no/off (any case), otherwise Atoi != 0. */
  function ToBool(s: string): bool
  {
    if EqualsIgnoreCase(s, "true") || EqualsIgnoreCase(s, "yes") || EqualsIgnoreCase(s, "on") then true
    else if EqualsIgnoreCase(s, "false") || EqualsIgnoreCase(s, "no") || EqualsIgnoreCase(s, "off") then false
    else Atoi(s) != 0
  }

  function BoolToString(b: bool): string
  {
    if b then "true" else "false"
  }

  lemma BoolRoundTrip(b: bool)
    ensures ToBool(BoolToString(b)) == b
  {
    if !b {
      assert !EqualsIgnoreCase("false", "true");
      assert !EqualsIgnoreCase("false", "yes");
      assert !EqualsIgnoreCase("false", "on") by { assert |"false"| != |"on"|; }
      assert EqualsIgnoreCase("false", "false");
    } else {
      assert EqualsIgnoreCase("true", "true");
    }
  }

  predicate StartsWith(s: string, prefix: string)
  {
    prefix <= s
  }

  /** FString::FindChar: the index of the first occurrence of `c`, if any. */
  function FindChar(s: string, c: char): (r: Option<nat>)
    ensures r.None? <==> c !in s
    ensures r.Some? ==> r.value < |s| && s[r.value] == c && c !in s[..r.value]
  {
    if s == [] then None
    else if s[0] == c then Some(0)
    else match FindChar(s[1..], c)
      case None => None
      case Some(k) => assert s[..k + 1] == [s[0]] + s[1..][..k]; Some(k + 1)
  }

  datatype Option<+T> = None | Some(value: T)
}
