/** Integer text in AF-CANON, and the size guard that decides from the bit
    length, before any text exists, whether an integer may be written. */
module IntegerText {
  import opened Digits
  import opened Outcomes
  import opened DecimalText

  /** Python's `int.bit_length` of a magnitude. */
  function BitLength(n: nat): nat {
    if n == 0 then 0 else 1 + BitLength(n / 2)
  }

  function MaximumDecimalDigits(value: int): nat {
    var bits := BitLength(Magnitude(value));
    var bound := (bits * 30103 + 99999) / 100000;
    if bound > 1 then bound else 1
  }

  function IntegerTextOf(value: int): seq<Byte> {
    (if value < 0 then [MINUS] else []) + Ascii(DigitsOf(Magnitude(value)))
  }

  function NormalizedInteger(value: int): Result<seq<Byte>, Refusal> {
    if MaximumDecimalDigits(value) + (if value < 0 then 1 else 0) > MAX_SCALAR_TEXT_BYTES
    then Err(TooLong)
    else Ok(IntegerTextOf(value))
  }

  /** Integer text is unsigned fixed-point text of scale zero, with a sign. */
  lemma {:induction false} IntegerReadsBack(value: int)
    ensures ReadFixed(IntegerTextOf(value)) == Some(Fixed(value, 0))
  {
    hide ReadFixed, DigitsOf, Ascii;
    ReadsBack(Fixed(value, 0));
    assert IntegerTextOf(value) == FixedText(Fixed(value, 0));
  }

  lemma {:induction false} BitLengthBrackets(n: nat)
    ensures n < Pow(2, BitLength(n))
    ensures n > 0 ==> BitLength(n) >= 1 && Pow(2, BitLength(n) - 1) <= n
  {
    if n > 0 {
      BitLengthBrackets(n / 2);
    }
  }

  /** A magnitude has at most b bits exactly when it lies below 2^b. */
  lemma {:induction false} BitLengthIs(n: nat, b: nat)
    ensures BitLength(n) <= b <==> n < Pow(2, b)
  {
    BitLengthBrackets(n);
    if BitLength(n) <= b {
      PowMonotone(2, BitLength(n), b);
    } else {
      PowMonotone(2, b, BitLength(n) - 1);
    }
  }

  /** A magnitude has at most d digits, for d at least one, exactly when it lies below 10^d. */
  lemma {:induction false} DigitCountIs(n: nat, d: nat)
    requires d >= 1
    ensures |DigitsOf(n)| <= d <==> n < Pow(10, d)
  {
    hide DigitsOf;
    if n == 0 {
      assert |DigitsOf(0)| == 1 by { SmallDigits(); }
    } else {
      DigitCount(n);
      if |DigitsOf(n)| <= d {
        PowMonotone(10, |DigitsOf(n)|, d);
      } else {
        PowMonotone(10, d, |DigitsOf(n)| - 1);
      }
    }
  }

  lemma {:induction false} SmallDigits()
    ensures DigitsOf(0) == [0]
  {
  }

  // ---------------------------------------------------------------- 2^100000 < 10^30103

  /** Squares an upper bound on a power of two, rounding the factor up. */
  lemma {:induction false} Squared(k: nat, m: nat, e: nat, t: nat, scale: nat, n: nat)
    requires Pow(2, k) <= m * Pow(10, e)
    requires scale == Pow(10, t) && m * m <= n * scale
    ensures Pow(2, 2 * k) <= n * Pow(10, 2 * e + t)
  {
    hide Pow;
    var p, q := Pow(2, k), Pow(10, e);
    PowAdd(2, k, k);
    PowAdd(10, e, e);
    PowAdd(10, 2 * e, t);
    ProductOfBounds(p, m, q);
    assert (m * m) * (q * q) <= (n * scale) * (q * q) by { ScaleBoth(m * m, n * scale, q * q); }
    Regroup(n, scale, q * q);
  }

  lemma {:induction false} ProductOfBounds(p: nat, m: nat, q: nat)
    requires p <= m * q
    ensures p * p <= (m * m) * (q * q)
  {
    assert p * p <= (m * q) * (m * q);
    assert (m * q) * (m * q) == (m * m) * (q * q);
  }

  lemma {:induction false} ScaleBoth(a: nat, b: nat, c: nat)
    requires a <= b
    ensures a * c <= b * c
  {
  }

  lemma {:induction false} Regroup(n: nat, s: nat, q: nat)
    ensures (n * s) * q == n * (q * s)
  {
  }

  lemma {:induction false} Doubled(k: nat, m: nat, e: nat)
    requires Pow(2, k) <= m * Pow(10, e)
    ensures Pow(2, k + 1) <= (2 * m) * Pow(10, e)
  {
    MulAssociative(2, m, Pow(10, e));
  }

  lemma {:induction false} TensUpTo13()
    ensures Pow(10, 3) == 1_000 && Pow(10, 11) == 100_000_000_000
    ensures Pow(10, 12) == 1_000_000_000_000 && Pow(10, 13) == 10_000_000_000_000
    ensures Pow(10, 0) == 1 && Pow(2, 24) == 16_777_216
  {
    PowAdd(10, 3, 8);
    PowAdd(10, 4, 4);
    PowAdd(2, 12, 12);
    PowAdd(2, 6, 6);
  }

  /** Repeated squaring with twelve-digit factors keeps enough of the 0.1% of room. */
  lemma {:induction false} HundredThousandBits()
    ensures Pow(2, 100000) < Pow(10, 30103)
  {
    hide Pow;
    TensUpTo13();
    Squared(24, 16777216, 0, 3, 1_000, 281474976711);
    Squared(48, 281474976711, 3, 11, 100_000_000_000, 792281625145);
    Doubled(96, 792281625145, 17);
    Squared(97, 1584563250290, 17, 13, 10_000_000_000_000, 251084069417);
    Doubled(194, 251084069417, 47);
    Squared(195, 502168138834, 47, 12, 1_000_000_000_000, 252172839661);
    Squared(390, 252172839661, 106, 11, 100_000_000_000, 635911410627);
    Doubled(780, 635911410627, 223);
    Squared(781, 1271822821254, 223, 13, 10_000_000_000_000, 161753328867);
    Squared(1562, 161753328867, 459, 11, 100_000_000_000, 261641393996);
    Doubled(3124, 261641393996, 929);
    Squared(3125, 523282787992, 929, 12, 1_000_000_000_000, 273824876209);
    Squared(6250, 273824876209, 1870, 11, 100_000_000_000, 749800628309);
    Squared(12500, 749800628309, 3751, 12, 1_000_000_000_000, 562200982213);
    Squared(25000, 562200982213, 7514, 12, 1_000_000_000_000, 316069944402);
    Squared(50000, 316069944402, 15040, 11, 100_000_000_000, 999002097543);
    PowAdd(10, 30091, 12);
    MulStrict(999002097543, 1_000_000_000_000, Pow(10, 30091), Pow(10, 30091));
  }

  /** A power of ten with enough digits, by that rate, exceeds a power of two. */
  lemma {:induction false} BitsBelowDigitsAt(p: nat, q: nat, b: nat, c: nat)
    requires Pow(2, p) < Pow(10, q) && b * q <= c * p && b >= 1 && p >= 1
    ensures Pow(2, b) < Pow(10, c)
  {
    hide Pow;
    PowMul(2, p, b);
    PowMul(10, q, b);
    PowMul(2, b, p);
    PowMul(10, c, p);
    PowStrict(Pow(2, p), Pow(10, q), b);
    assert p * b == b * p && q * b == b * q;
    PowMonotone(10, q * b, c * p);
    assert Pow(Pow(2, b), p) < Pow(Pow(10, c), p);
    if Pow(10, c) <= Pow(2, b) { PowWeak(Pow(10, c), Pow(2, b), p); }
  }

  lemma {:induction false} PowWeak(a: nat, b: nat, e: nat)
    requires a <= b && e >= 1
    ensures Pow(a, e) <= Pow(b, e)
  {
    hide Pow;
    if a < b { PowStrict(a, b, e); }
  }

  lemma {:induction false} BitsBelowDigits(b: nat, c: nat)
    requires b * 30103 <= c * 100000 && b >= 1
    ensures Pow(2, b) < Pow(10, c)
  {
    hide Pow;
    HundredThousandBits();
    BitsBelowDigitsAt(100000, 30103, b, c);
  }

  // ---------------------------------------------------------------- the guard

  /** The estimate never under-counts the digits of any integer. */
  lemma {:induction false} NeverUnderCounts(value: int)
    ensures |DigitsOf(Magnitude(value))| <= MaximumDecimalDigits(value)
  {
    hide Pow, DigitsOf, BitLength;
    var n := Magnitude(value);
    var b, d := BitLength(n), MaximumDecimalDigits(value);
    BitLengthIs(n, b);
    DigitCountIs(n, d);
    if b >= 1 { BitsBelowDigits(b, d); } else { assert n < 1 by { OneIsPow0(); } PowMonotone(10, 0, d); OneIsPow0(); }
  }

  lemma {:induction false} OneIsPow0()
    ensures Pow(2, 0) == 1 && Pow(10, 0) == 1
  {
  }

  /** Every accepted integer is written in at most 4096 bytes. */
  lemma {:induction false} AcceptedIntegerFits(value: int)
    requires NormalizedInteger(value).Ok?
    ensures |NormalizedInteger(value).value| <= MAX_SCALAR_TEXT_BYTES
  {
    hide DigitsOf, Ascii, BitLength;
    NeverUnderCounts(value);
  }

  /** Exactly which integers the guard accepts. */
  lemma {:induction false} GuardAcceptsExactly(value: int)
    ensures NormalizedInteger(value).Ok? <==> -(Pow(2, 13603) as int) < value < Pow(2, 13606)
  {
    hide Pow, DigitsOf, Ascii, BitLength;
    var n := Magnitude(value);
    BitLengthIs(n, 13603);
    BitLengthIs(n, 13606);
  }

  /** The guard is conservative: exactly these integers have text that fits and
      are refused all the same. The two ranges hold the powers of two they start at. */
  lemma {:induction false} GuardRefusesThoughFitting(value: int)
    ensures |IntegerTextOf(value)| <= MAX_SCALAR_TEXT_BYTES && NormalizedInteger(value).Err?
       <==> Pow(2, 13606) <= value < Pow(10, 4096) || -(Pow(10, 4095) as int) < value <= -(Pow(2, 13603) as int)
    ensures Pow(2, 13606) < Pow(10, 4096) && Pow(2, 13603) < Pow(10, 4095)
  {
    hide Pow, DigitsOf, Ascii, NormalizedInteger;
    GuardAcceptsExactly(value);
    DigitCountIs(Magnitude(value), 4096);
    DigitCountIs(Magnitude(value), 4095);
    BitsBelowDigits(13606, 4096);
    BitsBelowDigits(13603, 4095);
  }
}
