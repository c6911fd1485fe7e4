/**
 * JavaScript's `parseInt(string)` without a radix argument: leading
 * whitespace is skipped, one sign is read, a "0x"/"0X" prefix selects base 16,
 * and the longest run of digits that follows is converted. No digits at all
 * gives NaN, written here as None.
 */
module JsNumbers {
  import opened Common
  import opened Strings

  /** The value of `c` as a digit in base `radix`, if it is one. */
  function DigitValue(c: char, radix: nat): (r: Option<nat>)
    ensures r.Some? ==> r.value < radix
  {
    var v: int :=
      if '0' <= c <= '9' then c as int - '0' as int
      else if 'a' <= c <= 'z' then c as int - 'a' as int + 10
      else if 'A' <= c <= 'Z' then c as int - 'A' as int + 10
      else -1;
    if 0 <= v < radix then Some(v) else None
  }

  predicate AllDigits(s: string, radix: nat) {
    forall i :: 0 <= i < |s| ==> DigitValue(s[i], radix).Some?
  }

  /** The length of the longest prefix of `s` made of digits. */
  function DigitPrefixLen(s: string, radix: nat): (r: nat)
    decreases |s|
    ensures r <= |s| && AllDigits(s[..r], radix)
    ensures r < |s| ==> DigitValue(s[r], radix).None?
  {
    if |s| == 0 || DigitValue(s[0], radix).None? then 0
    else
      var k := DigitPrefixLen(s[1..], radix);
      assert s[..k + 1] == [s[0]] + s[1..][..k];
      k + 1
  }

  /** The number written by the digits `s`, most significant first. */
  function DigitsValue(s: string, radix: nat): nat
    requires AllDigits(s, radix)
    decreases |s|
  {
    if |s| == 0 then 0
    else DigitsValue(s[..|s| - 1], radix) * radix + DigitValue(s[|s| - 1], radix).value
  }

  /** `k` is the canonical decimal form of a natural number: digits only, no leading zero except in "0". */
  predicate CanonicalDigits(k: string) {
    |k| > 0 && AllDigits(k, 10) && (k[0] != '0' || k == "0")
  }

  /**
   * `k` is an array index in the sense of the ECMAScript property order: the
   * canonical decimal form of an integer below 2^32 - 1.
   */
  predicate IsArrayIndex(k: string) {
    CanonicalDigits(k) && DigitsValue(k, 10) < 0xFFFF_FFFF
  }

  /** `parseInt(s)`; None stands for NaN. */
  function ParseInt(s: string): (r: Option<int>)
    ensures r.None? <==> DigitPrefixLen(Unsigned(TrimStart(s)).1, Unsigned(TrimStart(s)).0) == 0
  {
    var t := TrimStart(s);
    var sign := if |t| > 0 && t[0] == '-' then -1 else 1;
    var (radix, v) := Unsigned(t);
    var k := DigitPrefixLen(v, radix);
    if k == 0 then None else Some(sign * DigitsValue(v[..k], radix))
  }

  /** The radix and the digits part of `t` after its sign and any "0x" prefix. */
  function Unsigned(t: string): (r: (nat, string))
    ensures r.0 == 10 || r.0 == 16
    ensures |r.1| <= |t|
  {
    var u := if |t| > 0 && (t[0] == '-' || t[0] == '+') then t[1..] else t;
    if |u| >= 2 && u[0] == '0' && (u[1] == 'x' || u[1] == 'X') then (16, u[2..]) else (10, u)
  }

  /** `parseInt(x) || 10`: NaN and zero both fall back to 10. */
  function ParseIntOr10(s: string): (r: int)
    ensures r != 0
    ensures ParseInt(s).None? ==> r == 10
    ensures ParseInt(s).Some? && ParseInt(s).value != 0 ==> r == ParseInt(s).value
  {
    match ParseInt(s)
    case None => 10
    case Some(v) => if v == 0 then 10 else v
  }

  /** `Math.min(Math.max(x, 1), 50)`. */
  function Clamp1To50(x: int): (r: int)
    ensures 1 <= r <= 50
    ensures 1 <= x <= 50 ==> r == x
    ensures x < 1 ==> r == 1
    ensures x > 50 ==> r == 50
  {
    if x < 1 then 1 else if x > 50 then 50 else x
  }

  /** The fireworks intensity `Math.min(Math.max(parseInt(s) || 10, 1), 50)`. */
  function Intensity(s: string): (r: nat)
    ensures 1 <= r <= 50
    ensures ParseInt(s).None? || ParseInt(s) == Some(0) ==> r == 10
    ensures ParseInt(s).Some? && ParseInt(s).value < 0 ==> r == 1
    ensures ParseInt(s).Some? && 1 <= ParseInt(s).value <= 50 ==> r == ParseInt(s).value
    ensures ParseInt(s).Some? && ParseInt(s).value > 50 ==> r == 50
  {
    Clamp1To50(ParseIntOr10(s))
  }

  /* ---------- round trip with decimal rendering ---------- */

  /** Rendering and reading back a natural number in decimal agree. */
  lemma {:induction false} DecimalDigits(n: nat)
    ensures AllDigits(NatToString(n), 10)
    ensures DigitsValue(NatToString(n), 10) == n
    decreases n
  {
    DigitCharValue(n % 10);
    if n < 10 {
      DigitsSnoc([], DigitChar(n), 10);
      assert NatToString(n) == [] + [DigitChar(n)];
    } else {
      DecimalDigits(n / 10);
      DigitsSnoc(NatToString(n / 10), DigitChar(n % 10), 10);
      assert NatToString(n) == NatToString(n / 10) + [DigitChar(n % 10)];
    }
  }

  /** The decimal rendering of a natural number is canonical and reads back as that number. */
  lemma RenderedCanonical(n: nat)
    ensures CanonicalDigits(NatToString(n)) && DigitsValue(NatToString(n), 10) == n
  {
    DecimalDigits(n);
    if n < 10 {
      assert NatToString(n) == [DigitChar(n)];
    }
  }

  /** The decimal rendering of every integer below 2^32 - 1 is an array index of that value. */
  lemma RenderedIndex(n: nat)
    requires n < 0xFFFF_FFFF
    ensures IsArrayIndex(NatToString(n)) && DigitsValue(NatToString(n), 10) == n
  {
    RenderedCanonical(n);
  }

  /** A digit appended at the end shifts the value one place. */
  lemma DigitsSnoc(init: string, c: char, radix: nat)
    requires AllDigits(init, radix) && DigitValue(c, radix).Some?
    ensures AllDigits(init + [c], radix)
    ensures DigitsValue(init + [c], radix) == DigitsValue(init, radix) * radix + DigitValue(c, radix).value
  {
    var s := init + [c];
    assert s[..|s| - 1] == init;
  }

  /** A decimal digit character reads back as its value. */
  lemma DigitCharValue(d: nat)
    requires d < 10
    ensures DigitValue(DigitChar(d), 10) == Some(d)
  {
  }

  /** A non-empty run of decimal digits parses to its value. */
  lemma ParseDecimal(s: string)
    requires |s| >= 1 && forall i :: 0 <= i < |s| ==> '0' <= s[i] <= '9'
    ensures AllDigits(s, 10)
    ensures ParseInt(s) == Some(DigitsValue(s, 10))
  {
    assert !IsJsSpace(s[0]);
    assert TrimStart(s) == s;
    assert s[0] != '-' && s[0] != '+';
    assert |s| >= 2 ==> s[1] != 'x' && s[1] != 'X';
    assert Unsigned(s) == (10, s);
    forall i | 0 <= i < |s|
      ensures DigitValue(s[i], 10).Some?
    {
      assert '0' <= s[i] <= '9';
    }
    LongestPrefixAll(s, 10);
    assert s[..|s|] == s;
  }

  /** Parsing the decimal rendering of a natural number gives the number back. */
  lemma ParseRendered(n: nat)
    ensures ParseInt(NatToString(n)) == Some(n)
  {
    DecimalDigits(n);
    ParseDecimal(NatToString(n));
  }

  /** A string of digits is its own longest digit prefix. */
  lemma {:induction false} LongestPrefixAll(s: string, radix: nat)
    requires AllDigits(s, radix)
    ensures DigitPrefixLen(s, radix) == |s|
    decreases |s|
  {
    if |s| > 0 {
      LongestPrefixAll(s[1..], radix);
    }
  }

  /** A decimal number from 1 to 50 is taken as the intensity unchanged. */
  lemma IntensityOfRendered(n: nat)
    requires 1 <= n <= 50
    ensures Intensity(NatToString(n)) == n
  {
    ParseRendered(n);
  }
}
