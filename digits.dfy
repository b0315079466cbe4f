/**
 * Decimal digits as PHP's string functions see them: the `(int)` cast of a
 * numeric prefix and the zero-padded `sprintf('%02d')` rendering.
 */
module Digits {

  predicate IsDigit(c: char) { '0' <= c <= '9' }

  predicate AllDigits(s: string) { forall i :: 0 <= i < |s| ==> IsDigit(s[i]) }

  function DigitValue(c: char): (d: nat)
    requires IsDigit(c)
    ensures d < 10
  {
    c as int - '0' as int
  }

  function DigitChar(d: nat): (c: char)
    requires d < 10
    ensures IsDigit(c) && DigitValue(c) == d
  {
    ('0' as int + d) as char
  }

  function Pow10(n: nat): (p: nat)
    ensures p >= 1
  {
    if n == 0 then 1 else 10 * Pow10(n - 1)
  }

  lemma {:induction false} Pow10Monotone(a: nat, b: nat)
    requires a <= b
    ensures Pow10(a) <= Pow10(b)
    decreases b
  {
    if a < b { Pow10Monotone(a, b - 1); }
  }

  /** The number a run of decimal digits writes, most significant digit first. */
  function Value(s: string): (v: nat)
    requires AllDigits(s)
    ensures v < Pow10(|s|)
  {
    if s == [] then 0
    else
      var init := s[..|s| - 1];
      assert AllDigits(init) by { assert forall i :: 0 <= i < |init| ==> init[i] == s[i]; }
      Value(init) * 10 + DigitValue(s[|s| - 1])
  }

  lemma AllDigitsAppend(a: string, b: string)
    requires AllDigits(a) && AllDigits(b)
    ensures AllDigits(a + b)
  {
    forall i | 0 <= i < |a + b| ensures IsDigit((a + b)[i]) {
      if i < |a| { assert (a + b)[i] == a[i]; } else { assert (a + b)[i] == b[i - |a|]; }
    }
  }

  /** Reading a concatenation: the left part is shifted by the width of the right part. */
  lemma {:induction false} ValueAppend(a: string, b: string)
    requires AllDigits(a) && AllDigits(b)
    ensures AllDigits(a + b)
    ensures Value(a + b) == Value(a) * Pow10(|b|) + Value(b)
    decreases |b|
  {
    AllDigitsAppend(a, b);
    if b == [] {
      assert a + b == a;
    } else {
      var b' := b[..|b| - 1];
      assert AllDigits(b') by { assert forall i :: 0 <= i < |b'| ==> b'[i] == b[i]; }
      assert (a + b)[..|a + b| - 1] == a + b';
      assert (a + b)[|a + b| - 1] == b[|b| - 1];
      ValueAppend(a, b');
      ShiftStep(Value(a + b), Value(a + b'), Value(a), Value(b), Value(b'),
                Pow10(|b|), Pow10(|b'|), DigitValue(b[|b| - 1]));
    }
  }

  lemma ShiftStep(vab: int, vab': int, va: int, vb: int, vb': int, p: int, p': int, last: int)
    requires vab == vab' * 10 + last && vab' == va * p' + vb'
    requires p == p' * 10 && vb == vb' * 10 + last
    ensures vab == va * p + vb
  {
    Distribute(va, p', vb', last);
  }

  lemma Distribute(x: int, p: int, y: int, d: int)
    ensures (x * p + y) * 10 + d == x * (p * 10) + (y * 10 + d)
  {
  }

  /** Two digit strings of the same length that write the same number are the same string. */
  lemma {:induction false} ValueInjective(a: string, b: string)
    requires AllDigits(a) && AllDigits(b) && |a| == |b|
    requires Value(a) == Value(b)
    ensures a == b
    decreases |a|
  {
    if a != [] {
      var a', b' := a[..|a| - 1], b[..|b| - 1];
      assert AllDigits(a') by { assert forall i :: 0 <= i < |a'| ==> a'[i] == a[i]; }
      assert AllDigits(b') by { assert forall i :: 0 <= i < |b'| ==> b'[i] == b[i]; }
      var ca, cb := a[|a| - 1], b[|b| - 1];
      assert Value(a) == Value(a') * 10 + DigitValue(ca);
      assert Value(b) == Value(b') * 10 + DigitValue(cb);
      LastDigit(Value(a'), Value(b'), DigitValue(ca), DigitValue(cb));
      ValueInjective(a', b');
      assert a == a' + [ca] && b == b' + [cb];
    }
  }

  /** A number written with one more digit determines that digit and the rest. */
  lemma LastDigit(x: int, y: int, dx: int, dy: int)
    requires 0 <= dx < 10 && 0 <= dy < 10 && x * 10 + dx == y * 10 + dy
    ensures x == y && dx == dy
  {
  }

  /** The shortest decimal numeral of n ("0" for zero). */
  function ToDecimal(n: nat): (s: string)
    ensures |s| >= 1 && AllDigits(s) && Value(s) == n
  {
    if n < 10 then [DigitChar(n)]
    else
      var high := ToDecimal(n / 10);
      var s := high + [DigitChar(n % 10)];
      assert AllDigits(s) by {
        forall i | 0 <= i < |s| ensures IsDigit(s[i]) {
          if i < |high| { assert s[i] == high[i]; }
        }
      }
      assert s[..|s| - 1] == high;
      s
  }

  lemma {:induction false} ToDecimalLength(n: nat, width: nat)
    requires width >= 1
    ensures |ToDecimal(n)| <= width <==> n < Pow10(width)
    decreases width
  {
    if n >= 10 {
      if width == 1 {
        assert |ToDecimal(n / 10)| >= 1;
      } else {
        ToDecimalLength(n / 10, width - 1);
      }
    }
  }

  /**
   * `sprintf('%0<width>d', n)`: the numeral of n, with zeros in front when it
   * is shorter than width; a numeral already wider is not cut.
   */
  function Pad(n: nat, width: nat): (s: string)
    ensures AllDigits(s) && Value(s) == n
    ensures |s| == if |ToDecimal(n)| < width then width else |ToDecimal(n)|
    decreases width
  {
    if width <= |ToDecimal(n)| then ToDecimal(n)
    else
      var rest := Pad(n, width - 1);
      assert Value("0") == 0 by { assert "0"[..0] == []; }
      ValueAppend("0", rest);
      "0" + rest
  }

  /** A number below 10^width is written in exactly width characters. */
  lemma PadWidth(n: nat, width: nat)
    requires width >= 1 && n < Pow10(width)
    ensures |Pad(n, width)| == width
  {
    ToDecimalLength(n, width);
  }

  /** Padding the value of a digit string to its own length gives the string back. */
  lemma PadOfDigits(s: string)
    requires |s| >= 1 && AllDigits(s)
    ensures Pad(Value(s), |s|) == s
  {
    PadWidth(Value(s), |s|);
    ValueInjective(Pad(Value(s), |s|), s);
  }

  /**
   * The number of digits at the front of s, reading at most max of them
   * (the digit run the library and the `(int)` cast consume).
   */
  function LeadingDigits(s: string, max: nat): (n: nat)
    ensures n <= max && n <= |s|
    ensures AllDigits(s[..n])
    ensures n < max && n < |s| ==> !IsDigit(s[n])
  {
    if max == 0 || s == [] || !IsDigit(s[0]) then 0
    else
      var m := LeadingDigits(s[1..], max - 1);
      assert forall i :: 1 <= i < 1 + m ==> s[i] == s[1..][i - 1];
      1 + m
  }

  /** A digit run followed by a non-digit (or cut by max) is read exactly. */
  lemma LeadingDigitsOfRun(a: string, b: string, max: nat)
    requires AllDigits(a) && |a| <= max
    requires |a| == max || b == [] || !IsDigit(b[0])
    ensures LeadingDigits(a + b, max) == |a|
  {
    var n := LeadingDigits(a + b, max);
    assert (a + b)[..|a|] == a;
    if |a| < max && |a| < |a + b| {
      assert (a + b)[|a|] == b[0];
    }
  }

  /**
   * PHP's `(int)` cast of a string, as used on the fields of a time: the value
   * of the run of digits it starts with, 0 when it starts with none.
   */
  function IntCast(s: string): (v: nat)
    ensures s == [] || !IsDigit(s[0]) ==> v == 0
  {
    Value(s[..LeadingDigits(s, |s|)])
  }

  lemma IntCastOfRun(a: string, b: string)
    requires AllDigits(a)
    requires b == [] || !IsDigit(b[0])
    ensures IntCast(a + b) == Value(a)
  {
    LeadingDigitsOfRun(a, b, |a + b|);
    assert (a + b)[..|a|] == a;
  }
}
