/**
 * Decimal text as JavaScript produces and reads it: `String(n)` / `${n}` for a
 * non-negative integer, `String.prototype.padStart` with a one-character fill,
 * and the numeric value of a run of ASCII digits.
 */
module Decimal {

  predicate IsDigit(c: char) { '0' <= c <= '9' }

  predicate AllDigits(s: string) { forall i :: 0 <= i < |s| ==> IsDigit(s[i]) }

  function DigitChar(n: nat): (c: char)
    requires n < 10
    ensures IsDigit(c)
  {
    ('0' as int + n) as char
  }

  function DigitValue(c: char): (n: nat)
    requires IsDigit(c)
    ensures n < 10 && DigitChar(n) == c
  {
    c as int - '0' as int
  }

  function Pow10(k: nat): (p: nat)
    ensures p >= 1
  {
    if k == 0 then 1 else 10 * Pow10(k - 1)
  }

  /** The value of a string of digits, most significant first; "" reads as 0. */
  function Value(s: string): (n: nat)
    requires AllDigits(s)
    ensures n < Pow10(|s|)
    decreases |s|
  {
    if s == [] then 0 else 10 * Value(s[..|s| - 1]) + DigitValue(s[|s| - 1])
  }

  /**
   * `${n}` for a non-negative integer: the shortest decimal numeral, so it is
   * never empty, has no leading zero unless it is "0", and reads back as n.
   */
  function Show(n: nat): (s: string)
    ensures |s| > 0 && AllDigits(s)
    ensures s[0] == '0' ==> n == 0 && s == "0"
    ensures n < 10 <==> |s| == 1
    ensures Value(s) == n
    decreases n
  {
    if n < 10 then [DigitChar(n)] else Show(n / 10) + [DigitChar(n % 10)]
  }

  /** Every numeral without a superfluous leading zero is what `Show` renders for its value. */
  lemma {:induction false} ShowValue(s: string)
    requires |s| > 0 && AllDigits(s)
    requires s[0] == '0' ==> |s| == 1
    ensures Show(Value(s)) == s
    decreases |s|
  {
    if |s| > 1 {
      var p, c := s[..|s| - 1], s[|s| - 1];
      assert p[0] == s[0];
      ShowValue(p);
      var v := Value(s);
      assert v == 10 * Value(p) + DigitValue(c);
      assert Value(p) > 0 by {
        assert Show(Value(p)) == p;
      }
      assert v / 10 == Value(p) && v % 10 == DigitValue(c);
      assert s == p + [c];
    } else {
      assert s[..0] == [];
    }
  }

  /** A zero in front does not change the value of a numeral. */
  lemma {:induction false} ValueLeadingZero(s: string)
    requires AllDigits(s)
    ensures AllDigits(['0'] + s) && Value(['0'] + s) == Value(s)
    decreases |s|
  {
    if s != [] {
      var p := s[..|s| - 1];
      ValueLeadingZero(p);
      assert (['0'] + s)[..|s|] == ['0'] + p;
    } else {
      assert (['0'] + s)[..0] == [];
    }
  }

  /**
   * `s.padStart(width, fill)`: fill characters in front of s up to the target
   * width; s unchanged when it is already at least that long.
   */
  function PadStart(s: string, width: nat, fill: char): (r: string)
    ensures |r| == if |s| < width then width else |s|
    ensures r[|r| - |s|..] == s
    ensures forall i :: 0 <= i < |r| - |s| ==> r[i] == fill
    decreases width
  {
    if |s| >= width then s else [fill] + PadStart(s, width - 1, fill)
  }

  /** Length of the longest run of digits at the start of s. */
  function LeadingDigits(s: string): (k: nat)
    ensures k <= |s| && AllDigits(s[..k])
    ensures k < |s| ==> !IsDigit(s[k])
    decreases |s|
  {
    if s == [] || !IsDigit(s[0]) then 0
    else
      var k := 1 + LeadingDigits(s[1..]);
      assert s[..k] == [s[0]] + s[1..][..k - 1];
      k
  }

  /** The run of leading digits ends where a numeral meets a non-digit. */
  lemma {:induction false} LeadingDigitsOfNumeral(a: string, b: string)
    requires AllDigits(a)
    requires b == [] || !IsDigit(b[0])
    ensures LeadingDigits(a + b) == |a|
    decreases |a|
  {
    if a == [] {
      assert a + b == b;
    } else {
      assert (a + b)[1..] == a[1..] + b;
      LeadingDigitsOfNumeral(a[1..], b);
    }
  }
}
