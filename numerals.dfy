/** The values of the digit strings the scanner accumulates: decimal for
    numbers, binary (most significant bit first) for bit literals. */
module Numerals {
  import opened Chars

  function Pow(b: nat, n: nat): nat {
    if n == 0 then 1 else b * Pow(b, n - 1)
  }

  lemma PowValues()
    ensures Pow(10, 9) == 1_000_000_000
    ensures Pow(2, 32) == 0x1_0000_0000
  {
    assert Pow(10, 3) == 1000;
    assert Pow(10, 6) == 1000 * Pow(10, 3) by { PowAdd(10, 3, 3); }
    assert Pow(10, 9) == 1000 * Pow(10, 6) by { PowAdd(10, 3, 6); }
    assert Pow(2, 8) == 256;
    assert Pow(2, 16) == 256 * Pow(2, 8) by { PowAdd(2, 8, 8); }
    assert Pow(2, 32) == Pow(2, 16) * Pow(2, 16) by { PowAdd(2, 16, 16); }
  }

  lemma {:induction false} PowAdd(b: nat, m: nat, n: nat)
    ensures Pow(b, m + n) == Pow(b, m) * Pow(b, n)
    decreases m
  {
    if m > 0 {
      PowAdd(b, m - 1, n);
      calc {
        Pow(b, m + n);
        b * Pow(b, m - 1 + n);
        b * (Pow(b, m - 1) * Pow(b, n));
        { MulAssoc(b, Pow(b, m - 1), Pow(b, n)); }
        (b * Pow(b, m - 1)) * Pow(b, n);
      }
    }
  }

  lemma MulAssoc(x: nat, y: nat, z: nat)
    ensures x * (y * z) == (x * y) * z
  {
  }

  lemma {:induction false} PowMonotone(b: nat, m: nat, n: nat)
    requires 1 <= b && m <= n
    ensures Pow(b, m) <= Pow(b, n)
    decreases n
  {
    if m < n {
      PowMonotone(b, m, n - 1);
      PowStep(b, n);
    }
  }

  lemma PowStep(b: nat, n: nat)
    requires 1 <= b && 0 < n
    ensures Pow(b, n - 1) <= Pow(b, n)
  {
    assert Pow(b, n) == b * Pow(b, n - 1);
  }

  predicate AllDigits(ds: string) {
    forall k :: 0 <= k < |ds| ==> IsAsciiDigit(ds[k])
  }

  function DigitValue(c: char): nat
    requires IsAsciiDigit(c)
  {
    c as int - '0' as int
  }

  function DigitChar(d: nat): char
    requires d < 10
  {
    ('0' as int + d) as char
  }

  /** The value `str::parse::<u32>` reads from a decimal digit string, most
      significant digit first and before any range check. Leading zeros are
      accepted; a string of `n` digits is worth less than 10^n, so nine or
      fewer digits always fit in a `u32`. */
  function DecimalValue(ds: string): (v: nat)
    requires AllDigits(ds)
    ensures v < Pow(10, |ds|)
    decreases |ds|
  {
    if ds == [] then 0
    else 10 * DecimalValue(ds[..|ds| - 1]) + DigitValue(ds[|ds| - 1])
  }

  /** The shortest decimal rendering of `n`. */
  function DecimalString(n: nat): (ds: string)
    ensures AllDigits(ds) && ds != []
    decreases n
  {
    if n < 10 then [DigitChar(n)] else DecimalString(n / 10) + [DigitChar(n % 10)]
  }

  /** Reading back the rendering of `n` gives `n`. */
  lemma {:induction false} DecimalRoundTrip(n: nat)
    ensures DecimalValue(DecimalString(n)) == n
    decreases n
  {
    var ds := DecimalString(n);
    if n >= 10 {
      assert ds[..|ds| - 1] == DecimalString(n / 10);
      DecimalRoundTrip(n / 10);
    }
  }

  /** The bit of a '0'/'1' character. */
  function BitValue(c: char): nat {
    if c == '1' then 1 else 0
  }

  /** The value `u32::from_str_radix(_, 2)` reads from a bit string, most
      significant bit first and before any range check. A value of `n` bits
      is below 2^n, so a literal of at most 32 bits always fits in a `u32`. */
  function BinaryValue(bits: string): (v: nat)
    ensures v < Pow(2, |bits|)
    decreases |bits|
  {
    if bits == [] then 0
    else 2 * BinaryValue(bits[..|bits| - 1]) + BitValue(bits[|bits| - 1])
  }

  /** A leading zero bit adds nothing, so the width of a bit string alone does
      not decide whether its value fits. */
  lemma {:induction false} BinaryLeadingZero(bits: string)
    ensures BinaryValue("0" + bits) == BinaryValue(bits)
    decreases |bits|
  {
    if bits != [] {
      var longer := "0" + bits;
      assert longer[..|longer| - 1] == "0" + bits[..|bits| - 1];
      BinaryLeadingZero(bits[..|bits| - 1]);
    }
  }
}
