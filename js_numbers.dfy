/** The two number conversions the routes and the id generators rely on:
    `Number.prototype.toString()` on non-negative integers and the global `parseInt`. */
module JsNumbers {
  import opened JsValues

  /** A number produced by integer arithmetic on `parseInt` results: an integer, or NaN. */
  datatype JsNum = Finite(n: int) | NaN

  /** `a - b`; NaN stays NaN. */
  function Minus(a: JsNum, b: int): JsNum {
    match a
    case Finite(n) => Finite(n - b)
    case NaN => NaN
  }

  /** `a * b`; NaN on either side gives NaN. */
  function Times(a: JsNum, b: JsNum): JsNum {
    if a.Finite? && b.Finite? then Finite(a.n * b.n) else NaN
  }

  predicate IsDecimalDigit(c: char) {
    '0' <= c <= '9'
  }

  predicate AllDigits(s: string) {
    forall i :: 0 <= i < |s| ==> IsDecimalDigit(s[i])
  }

  /** The value of `c` as a digit of a radix up to 36, or 36 when it is no digit at all. */
  function RadixDigitValue(c: char): nat {
    if '0' <= c <= '9' then c as int - '0' as int
    else if 'a' <= c <= 'z' then c as int - 'a' as int + 10
    else if 'A' <= c <= 'Z' then c as int - 'A' as int + 10
    else 36
  }

  predicate IsRadixDigit(c: char, radix: nat) {
    RadixDigitValue(c) < radix
  }

  function DigitChar(d: nat): (c: char)
    requires d < 10
    ensures IsDecimalDigit(c) && RadixDigitValue(c) == d
  {
    ('0' as int + d) as char
  }

  /** The number written by the digit string `s` in base `radix`. */
  function Value(s: string, radix: nat): nat
    requires forall i :: 0 <= i < |s| ==> IsRadixDigit(s[i], radix)
  {
    if s == [] then 0
    else
      var high := Value(s[..|s| - 1], radix);
      NatProduct(high, radix);
      high * radix + RadixDigitValue(s[|s| - 1])
  }

  lemma NatProduct(a: nat, b: nat)
    ensures a * b >= 0
  {
  }

  function Pow10(k: nat): (p: nat)
    ensures p >= 1
  {
    if k == 0 then 1 else 10 * Pow10(k - 1)
  }

  /** `n.toString()` for a non-negative integer: its decimal digits, most significant first. */
  function DecimalText(n: nat): (s: string)
    ensures 1 <= |s| && AllDigits(s)
    ensures n < 10 <==> |s| == 1
  {
    if n < 10 then [DigitChar(n)] else DecimalText(n / 10) + [DigitChar(n % 10)]
  }

  /** Reading the decimal text back gives the number. */
  lemma {:induction false} DecimalRoundTrip(n: nat)
    ensures Value(DecimalText(n), 10) == n
  {
    if n >= 10 {
      DecimalRoundTrip(n / 10);
      var s := DecimalText(n);
      assert s[..|s| - 1] == DecimalText(n / 10);
    }
  }

  /** The decimal text of `n` has at most `k` digits exactly when `n < 10^k`. */
  lemma {:induction false} DecimalTextLength(n: nat, k: nat)
    requires 1 <= k
    ensures |DecimalText(n)| <= k <==> n < Pow10(k)
  {
    if n < 10 {
      PowMonotone(1, k);
    } else if k == 1 {
      assert |DecimalText(n)| == |DecimalText(n / 10)| + 1;
    } else {
      DecimalTextLength(n / 10, k - 1);
      assert |DecimalText(n)| == |DecimalText(n / 10)| + 1;
      assert n / 10 < Pow10(k - 1) <==> n < 10 * Pow10(k - 1);
    }
  }

  lemma {:induction false} PowMonotone(j: nat, k: nat)
    requires j <= k
    ensures Pow10(j) <= Pow10(k)
  {
    if j < k {
      PowMonotone(j, k - 1);
    }
  }

  /** Leading zeros do not change the value of a decimal digit string. */
  lemma {:induction false} LeadingZeroValue(s: string)
    requires AllDigits(s)
    ensures Value(['0'] + s, 10) == Value(s, 10)
  {
    if s != [] {
      var t := ['0'] + s;
      assert t[..|t| - 1] == ['0'] + s[..|s| - 1];
      LeadingZeroValue(s[..|s| - 1]);
    }
  }

  lemma OneDigit(c: char)
    requires IsDecimalDigit(c)
    ensures Value([c], 10) == RadixDigitValue(c) && DecimalText(RadixDigitValue(c)) == [c]
  {
    assert [c][..0] == [];
  }

  lemma TwoDigitValue(a: char, b: char)
    requires IsDecimalDigit(a) && IsDecimalDigit(b)
    ensures Value([a, b], 10) == 10 * RadixDigitValue(a) + RadixDigitValue(b)
  {
    OneDigit(a);
    assert [a, b][..1] == [a];
  }

  /** Two digits without a leading zero are the decimal text of their value. */
  lemma TwoDigits(a: char, b: char)
    requires '1' <= a <= '9' && IsDecimalDigit(b)
    ensures Value([a, b], 10) == 10 * RadixDigitValue(a) + RadixDigitValue(b)
    ensures DecimalText(Value([a, b], 10)) == [a, b]
  {
    OneDigit(a);
    assert [a, b][..1] == [a];
    var v := Value([a, b], 10);
    assert v / 10 == RadixDigitValue(a) && v % 10 == RadixDigitValue(b);
    assert DecimalText(v) == DecimalText(v / 10) + [DigitChar(v % 10)];
  }

  /** The string with its leading white space removed, as `parseInt` first does. */
  function TrimStart(s: string): (r: string)
    ensures |r| <= |s| && r == s[|s| - |r|..]
    ensures r != [] ==> !IsJsWhitespace(r[0])
  {
    if s != [] && IsJsWhitespace(s[0]) then TrimStart(s[1..]) else s
  }

  /** The longest prefix of `s` made of digits of the given radix. */
  function RadixPrefix(s: string, radix: nat): (r: string)
    ensures |r| <= |s| && r == s[..|r|]
    ensures forall i :: 0 <= i < |r| ==> IsRadixDigit(r[i], radix)
    ensures |r| < |s| ==> !IsRadixDigit(s[|r|], radix)
  {
    if s != [] && IsRadixDigit(s[0], radix) then [s[0]] + RadixPrefix(s[1..], radix) else []
  }

  /** What `parseInt` reads after the sign: a `0x` or `0X` prefix selects radix 16, radix 10
      otherwise, then the longest run of digits of that radix is read; None when there is
      no digit at all. */
  function ParseUnsigned(u: string): Option<nat> {
    var hex := |u| >= 2 && u[0] == '0' && (u[1] == 'x' || u[1] == 'X');
    var radix := if hex then 16 else 10;
    var digits := RadixPrefix(if hex then u[2..] else u, radix);
    if digits == [] then None else Some(Value(digits, radix))
  }

  /** The global `parseInt(s)` called without a radix, following the ECMAScript algorithm:
      skip leading white space, take an optional sign, then read the magnitude as
      ParseUnsigned does. None stands for NaN (no digit at all). The result is kept exact;
      see README for the float rounding that is not modelled. */
  function ParseInt(s: string): Option<int> {
    var t := TrimStart(s);
    var negative := t != [] && t[0] == '-';
    var unsigned := if t != [] && (t[0] == '-' || t[0] == '+') then t[1..] else t;
    match ParseUnsigned(unsigned)
    case None => None
    case Some(magnitude) => Some(if negative then -(magnitude as int) else magnitude as int)
  }

  /** `parseInt` as a JavaScript number. */
  function ParseIntNum(s: string): JsNum {
    match ParseInt(s)
    case Some(n) => Finite(n)
    case None => NaN
  }

  lemma {:induction false} RadixPrefixOfDigits(s: string, radix: nat)
    requires forall i :: 0 <= i < |s| ==> IsRadixDigit(s[i], radix)
    ensures RadixPrefix(s, radix) == s
  {
    if s != [] {
      RadixPrefixOfDigits(s[1..], radix);
    }
  }

  /** A non-empty run of decimal digits is read in radix 10: it cannot start with `0x`. */
  lemma ParseUnsignedOfDigits(s: string)
    requires s != [] && AllDigits(s)
    ensures ParseUnsigned(s) == Some(Value(s, 10))
  {
    assert |s| >= 2 ==> IsDecimalDigit(s[1]);
    assert forall i :: 0 <= i < |s| ==> IsRadixDigit(s[i], 10);
    RadixPrefixOfDigits(s, 10);
  }

  /** `parseInt` of a non-empty string of decimal digits (leading zeros allowed) is its value. */
  lemma ParseIntOfDigits(s: string)
    requires s != [] && AllDigits(s)
    ensures ParseInt(s) == Some(Value(s, 10))
  {
    assert IsDecimalDigit(s[0]) && !IsJsWhitespace(s[0]);
    assert TrimStart(s) == s;
    ParseUnsignedOfDigits(s);
  }

  /** `parseInt` of a minus sign followed by decimal digits is the negated value. */
  lemma ParseIntOfNegativeDigits(s: string)
    requires s != [] && AllDigits(s)
    ensures ParseInt("-" + s) == Some(-(Value(s, 10) as int))
  {
    var t := "-" + s;
    assert t[0] == '-' && !IsJsWhitespace(t[0]);
    assert TrimStart(t) == t;
    assert t[1..] == s;
    ParseUnsignedOfDigits(s);
  }

  /** `parseInt(String(n)) === n` for every non-negative integer. */
  lemma ParseIntOfDecimalText(n: nat)
    ensures ParseInt(DecimalText(n)) == Some(n)
  {
    ParseIntOfDigits(DecimalText(n));
    DecimalRoundTrip(n);
  }
}
