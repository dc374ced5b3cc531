/**
 * JavaScript's `parseInt(s)` (no radix argument) and the decimal rendering of
 * an integer in a template string, as the admin API routes and the CSV
 * export use them.
 */
module JsNumber {
  import opened Common

  /** The value of `c` as a digit of base 36 (0-9, then a-z or A-Z), if it is one. */
  function DigitValue(c: char): (v: Option<nat>)
    ensures v.Some? ==> v.value < 36
  {
    if '0' <= c <= '9' then Some(c as int - '0' as int)
    else if 'a' <= c <= 'z' then Some(c as int - 'a' as int + 10)
    else if 'A' <= c <= 'Z' then Some(c as int - 'A' as int + 10)
    else None
  }

  predicate IsDigitIn(c: char, radix: nat)
  {
    DigitValue(c).Some? && DigitValue(c).value < radix
  }

  /** The longest prefix of `s` made of digits of the given radix. */
  function DigitPrefix(s: string, radix: nat): (ds: string)
    ensures |ds| <= |s| && ds == s[..|ds|]
    ensures forall i :: 0 <= i < |ds| ==> IsDigitIn(ds[i], radix)
    ensures |ds| < |s| ==> !IsDigitIn(s[|ds|], radix)
  {
    if s == [] || !IsDigitIn(s[0], radix) then [] else [s[0]] + DigitPrefix(s[1..], radix)
  }

  /** The number a digit string denotes, most significant digit first. */
  function DigitsValue(ds: string, radix: nat): nat
    requires forall i :: 0 <= i < |ds| ==> IsDigitIn(ds[i], radix)
  {
    if ds == [] then 0
    else
      var init := ds[..|ds| - 1];
      InitDigits(ds, init, radix);
      var high := DigitsValue(init, radix);
      var low := DigitValue(ds[|ds| - 1]).value;
      ShiftDigit(high, radix, low);
      high * radix + low
  }

  lemma InitDigits(ds: string, init: string, radix: nat)
    requires ds != [] && init == ds[..|ds| - 1] && forall i :: 0 <= i < |ds| ==> IsDigitIn(ds[i], radix)
    ensures forall i :: 0 <= i < |init| ==> IsDigitIn(init[i], radix)
    ensures DigitValue(ds[|ds| - 1]).Some?
  {
  }

  lemma ShiftDigit(high: nat, radix: nat, low: nat)
    ensures high * radix + low >= 0
  {
  }

  /** Whether `u` starts with the `0x` or `0X` prefix of a hexadecimal literal. */
  predicate HasHexPrefix(u: string)
  {
    |u| >= 2 && u[0] == '0' && (u[1] == 'x' || u[1] == 'X')
  }

  /**
   * The unsigned part of `parseInt`: a `0x`/`0X` prefix selects base 16
   * (base 10 otherwise) and the longest run of digits that follows is the
   * number; without digits the result is NaN (`None`).
   */
  function ParseMagnitude(u: string): (r: Option<nat>)
  {
    var radix := if HasHexPrefix(u) then 16 else 10;
    var ds := DigitPrefix(if HasHexPrefix(u) then u[2..] else u, radix);
    if ds == [] then None else Some(DigitsValue(ds, radix))
  }

  /**
   * `parseInt(s)`; `None` stands for NaN. Leading whitespace is skipped and
   * one sign is read before the unsigned part.
   */
  function ParseInt(s: string): (r: Option<int>)
  {
    var t := TrimStart(s);
    var signed := t != [] && (t[0] == '-' || t[0] == '+');
    match ParseMagnitude(if signed then t[1..] else t)
    case None => None
    case Some(m) =>
      var v: int := m;
      Some(if signed && t[0] == '-' then -v else v)
  }

  /**
   * `parseInt(q) || fallback` for a query parameter that may be absent
   * (absent reads as the string "undefined", which has no digits). NaN and
   * zero are falsy, so both give the fallback; any other parsed value is kept.
   */
  function ParseIntOr(q: Option<string>, fallback: int): (r: int)
    ensures q.None? ==> r == fallback
    ensures q.Some? && ParseInt(q.value) in {None, Some(0)} ==> r == fallback
    ensures r != fallback ==> q.Some? && ParseInt(q.value) == Some(r) && r != 0
    ensures fallback != 0 ==> r != 0
  {
    if q.None? then fallback
    else match ParseInt(q.value)
      case None => fallback
      case Some(v) => if v == 0 then fallback else v
  }

  function DigitChar(d: nat): (c: char)
    requires d < 10
    ensures DigitValue(c) == Some(d)
  {
    ['0', '1', '2', '3', '4', '5', '6', '7', '8', '9'][d]
  }

  /** The decimal form of a natural number, as `${n}` prints it. */
  function NatToDecimal(n: nat): (s: string)
    ensures |s| >= 1
    ensures forall i :: 0 <= i < |s| ==> IsDigitIn(s[i], 10)
    ensures s[0] == '0' ==> n == 0
  {
    if n < 10 then [DigitChar(n)] else NatToDecimal(n / 10) + [DigitChar(n % 10)]
  }

  /** The decimal form of an integer, with a leading `-` when negative. */
  function IntToDecimal(n: int): (s: string)
  {
    if n < 0 then "-" + NatToDecimal(-n) else NatToDecimal(n)
  }

  /** Reading back a decimal rendering gives the number rendered. */
  lemma {:induction false} DecimalValue(n: nat)
    ensures DigitsValue(NatToDecimal(n), 10) == n
  {
    if n >= 10 {
      var s := NatToDecimal(n);
      assert s[..|s| - 1] == NatToDecimal(n / 10);
      DecimalValue(n / 10);
    }
  }

  /** A string made only of digits is its own longest digit prefix. */
  lemma {:induction false} AllDigitsPrefix(s: string, radix: nat)
    requires forall i :: 0 <= i < |s| ==> IsDigitIn(s[i], radix)
    ensures DigitPrefix(s, radix) == s
  {
    if s != [] {
      AllDigitsPrefix(s[1..], radix);
    }
  }

  /** A decimal digit is neither whitespace nor a sign. */
  lemma DigitIsNotSpace(c: char)
    requires IsDigitIn(c, 10)
    ensures !IsJsSpace(c) && c != '-' && c != '+'
  {
  }

  /** An unsigned decimal digit string that is not hex-prefixed reads as its value. */
  lemma MagnitudeOfDigits(ds: string)
    requires ds != [] && forall i :: 0 <= i < |ds| ==> IsDigitIn(ds[i], 10)
    ensures ParseMagnitude(ds) == Some(DigitsValue(ds, 10))
  {
    if |ds| >= 2 {
      assert IsDigitIn(ds[1], 10);
    }
    assert !HasHexPrefix(ds);
    AllDigitsPrefix(ds, 10);
  }

  /** The sign-reading step of `parseInt` on a string that starts with a digit. */
  lemma ParseIntUnsigned(t: string)
    requires t != [] && IsDigitIn(t[0], 10)
    requires ParseMagnitude(t).Some?
    ensures ParseInt(t) == Some(ParseMagnitude(t).value as int)
  {
    DigitIsNotSpace(t[0]);
    assert TrimStart(t) == t;
  }

  /** The sign-reading step of `parseInt` on a minus sign followed by a digit. */
  lemma ParseIntMinus(t: string)
    requires t != [] && IsDigitIn(t[0], 10)
    requires ParseMagnitude(t).Some?
    ensures ParseInt("-" + t) == Some(-(ParseMagnitude(t).value as int))
  {
    var s := "-" + t;
    assert s[1..] == t;
    assert TrimStart(s) == s;
  }

  /** Without a sign, `parseInt` reads a decimal digit string as its value. */
  lemma ParseIntOfDigits(ds: string)
    requires ds != [] && forall i :: 0 <= i < |ds| ==> IsDigitIn(ds[i], 10)
    ensures ParseInt(ds) == Some(DigitsValue(ds, 10))
  {
    MagnitudeOfDigits(ds);
    ParseIntUnsigned(ds);
  }

  /**
   * `parseInt` inverts the decimal rendering: for every integer `n`,
   * `parseInt(String(n)) == n`, so a non-zero query value survives the
   * `|| fallback` defaulting unchanged.
   */
  lemma ParseIntOfDecimal(n: int, fallback: int)
    ensures ParseInt(IntToDecimal(n)) == Some(n)
    ensures n != 0 ==> ParseIntOr(Some(IntToDecimal(n)), fallback) == n
  {
    var m: nat := if n < 0 then -n else n;
    DecimalValue(m);
    if n < 0 {
      MagnitudeOfDigits(NatToDecimal(m));
      ParseIntMinus(NatToDecimal(m));
    } else {
      ParseIntOfDigits(NatToDecimal(m));
    }
  }
}
