/**
 * The decimal rendering of a stored record version, as `String.valueOf(int)`
 * produces it for the non-negative versions the storage hands out, and its
 * inverse. The version check of every update compares the caller's version
 * string with this rendering, so what matters is that it is injective.
 */
module Decimal {
  import opened Wrappers

  function DigitChar(d: nat): (c: char)
    requires d < 10
    ensures '0' <= c <= '9'
  {
    (d + '0' as int) as char
  }

  function DigitValue(c: char): (r: Option<nat>)
    ensures r.Some? <==> '0' <= c <= '9'
    ensures r.Some? ==> r.value < 10 && DigitChar(r.value) == c
  {
    if '0' <= c <= '9' then Some(c as int - '0' as int) else None
  }

  /** `String.valueOf(n)` for n >= 0: the most significant digit first, no leading zero. */
  function DecimalString(n: nat): (s: string)
    ensures |s| >= 1 && (|s| == 1 <==> n < 10)
    ensures forall i :: 0 <= i < |s| ==> '0' <= s[i] <= '9'
    decreases n
  {
    if n < 10 then [DigitChar(n)] else DecimalString(n / 10) + [DigitChar(n % 10)]
  }

  /** Reads a non-empty string of decimal digits back into a number. */
  function ParseDecimal(s: string): Option<nat>
    decreases |s|
  {
    if |s| == 0 then None
    else
      var last := DigitValue(s[|s| - 1]);
      if last.None? then None
      else if |s| == 1 then Some(last.value)
      else
        match ParseDecimal(s[..|s| - 1])
        case None => None
        case Some(p) => Some(p * 10 + last.value)
  }

  lemma DigitRoundTrip(d: nat)
    requires d < 10
    ensures DigitValue(DigitChar(d)) == Some(d)
  {
  }

  /** Every rendering is a non-empty string of digits whose first digit is 0 only for 0 itself. */
  lemma {:induction false} DecimalStringShape(n: nat)
    ensures |DecimalString(n)| >= 1
    ensures forall i :: 0 <= i < |DecimalString(n)| ==> '0' <= DecimalString(n)[i] <= '9'
    ensures DecimalString(n)[0] == '0' <==> n == 0
    decreases n
  {
    if n >= 10 {
      DecimalStringShape(n / 10);
      var p := DecimalString(n / 10);
      assert DecimalString(n) == p + [DigitChar(n % 10)];
      assert DecimalString(n)[0] == p[0];
    }
  }

  /** Parsing undoes the rendering. */
  lemma {:induction false} ParseDecimalString(n: nat)
    ensures ParseDecimal(DecimalString(n)) == Some(n)
    decreases n
  {
    var s := DecimalString(n);
    if n < 10 {
      DigitRoundTrip(n);
    } else {
      ParseDecimalString(n / 10);
      DigitRoundTrip(n % 10);
      DecimalStringShape(n / 10);
      assert s[..|s| - 1] == DecimalString(n / 10);
      assert s[|s| - 1] == DigitChar(n % 10);
    }
  }

  /** Two versions render to the same string exactly when they are equal. */
  lemma DecimalStringInjective(a: nat, b: nat)
    ensures DecimalString(a) == DecimalString(b) <==> a == b
  {
    if DecimalString(a) == DecimalString(b) {
      ParseDecimalString(a);
      ParseDecimalString(b);
    }
  }
}
