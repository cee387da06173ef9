/** Decimal digits and powers: the arithmetic below integer and decimal text. */
module Digits {

  type Byte = i: int | 0 <= i < 256
  type Digit = i: int | 0 <= i < 10

  const ASCII_ZERO: Byte := 48

  function Pow(base: nat, exponent: nat): (r: nat)
    ensures base > 0 ==> r > 0
  {
    if exponent == 0 then 1 else base * Pow(base, exponent - 1)
  }

  lemma {:induction false} MulAssociative(a: int, b: int, c: int)
    ensures (a * b) * c == a * (b * c)
  {
  }

  lemma {:induction false} PowAdd(base: nat, a: nat, b: nat)
    ensures Pow(base, a + b) == Pow(base, a) * Pow(base, b)
  {
    if a > 0 {
      PowAdd(base, a - 1, b);
      MulAssociative(base, Pow(base, a - 1), Pow(base, b));
    }
  }

  lemma {:induction false} PowMul(base: nat, a: nat, b: nat)
    ensures Pow(base, a * b) == Pow(Pow(base, a), b)
  {
    if b > 0 {
      PowMul(base, a, b - 1);
      PowAdd(base, a, a * (b - 1));
      assert a * b == a + a * (b - 1);
    } else {
      assert a * b == 0;
    }
  }

  lemma {:induction false} PowMonotone(base: nat, a: nat, b: nat)
    requires base >= 1 && a <= b
    ensures Pow(base, a) <= Pow(base, b)
  {
    PowAdd(base, a, b - a);
    MulAtLeast(Pow(base, a), Pow(base, b - a));
  }

  lemma {:induction false} MulAtLeast(x: nat, y: nat)
    requires y >= 1
    ensures x * y >= x
  {
  }

  lemma {:induction false} MulStrict(a: nat, b: nat, c: nat, d: nat)
    requires a < b && c <= d && 0 < d
    ensures a * c < b * d
  {
    assert a * c <= a * d;
    assert a * d < b * d;
  }

  /** Raising to a positive power keeps a strict order. */
  lemma {:induction false} PowStrict(a: nat, b: nat, e: nat)
    requires a < b && e >= 1
    ensures Pow(a, e) < Pow(b, e)
  {
    if e == 1 {
      assert Pow(a, 1) == a * Pow(a, 0) && Pow(b, 1) == b * Pow(b, 0);
    } else {
      PowStrict(a, b, e - 1);
      MulStrict(a, b, Pow(a, e - 1), Pow(b, e - 1));
    }
  }

  /** The number a sequence of decimal digits denotes, most significant first. */
  function NumberOf(digits: seq<Digit>): nat {
    if digits == [] then 0 else NumberOf(digits[..|digits| - 1]) * 10 + digits[|digits| - 1]
  }

  lemma {:induction false} NumberBound(digits: seq<Digit>)
    ensures NumberOf(digits) < Pow(10, |digits|)
  {
    if digits != [] { NumberBound(digits[..|digits| - 1]); }
  }

  /** The shortest digits of a number; zero is written with one digit. */
  function DigitsOf(n: nat): (d: seq<Digit>)
    ensures |d| >= 1 && (|d| > 1 ==> d[0] != 0)
    ensures NumberOf(d) == n
  {
    if n < 10 then
      assert NumberOf([n]) == n by { assert [n][..0] == []; }
      [n]
    else
      var d := DigitsOf(n / 10) + [n % 10];
      assert d[..|d| - 1] == DigitsOf(n / 10);
      d
  }

  predicate NoLeadingZero(d: seq<Digit>) {
    |d| >= 1 && (|d| > 1 ==> d[0] != 0)
  }

  lemma {:induction false} NumberBelow(d: seq<Digit>)
    requires |d| >= 1 && d[0] != 0
    ensures Pow(10, |d| - 1) <= NumberOf(d)
  {
    if |d| > 1 {
      NumberBelow(d[..|d| - 1]);
    } else {
      assert d[..0] == [];
    }
  }

  /** Digits without a leading zero are the digits of the number they denote. */
  lemma {:induction false} ShortestDigits(d: seq<Digit>)
    requires NoLeadingZero(d)
    ensures DigitsOf(NumberOf(d)) == d
  {
    var front := d[..|d| - 1];
    if |d| == 1 {
      assert front == [];
      assert d == [d[0]];
    } else {
      ShortestDigits(front);
      if |front| == 1 { assert front[..0] == []; } else { NumberBelow(front); PowMonotone(10, 1, |front| - 1); }
      assert NumberOf(front) >= 1;
      assert d == front + [d[|d| - 1]];
    }
  }

  /** The number of digits brackets the number between powers of ten. */
  lemma {:induction false} DigitCount(n: nat)
    requires n > 0
    ensures Pow(10, |DigitsOf(n)| - 1) <= n < Pow(10, |DigitsOf(n)|)
  {
    var d := DigitsOf(n);
    NumberBelow(d);
    NumberBound(d);
  }

  lemma {:induction false} NumberOfConcat(a: seq<Digit>, b: seq<Digit>)
    ensures NumberOf(a + b) == NumberOf(a) * Pow(10, |b|) + NumberOf(b)
  {
    if b == [] {
      assert a + b == a;
    } else {
      var front := b[..|b| - 1];
      NumberOfConcat(a, front);
      assert (a + b)[..|a + b| - 1] == a + front;
      assert 10 * (NumberOf(a) * Pow(10, |front|)) == NumberOf(a) * (10 * Pow(10, |front|));
    }
  }

  function Zeros(n: nat): (z: seq<Digit>)
    ensures |z| == n && (forall i :: 0 <= i < n ==> z[i] == 0) && NumberOf(z) == 0
  {
    if n == 0 then [] else
      var z := Zeros(n - 1) + [0];
      assert z[..|z| - 1] == Zeros(n - 1);
      z
  }

  /** A number in exactly `width` digits, padded with zeros on the left. */
  function Padded(n: nat, width: nat): (d: seq<Digit>)
    requires n < Pow(10, width)
    ensures |d| == width && NumberOf(d) == n
  {
    if width == 0 then [] else
      var d := Padded(n / 10, width - 1) + [n % 10];
      assert d[..|d| - 1] == Padded(n / 10, width - 1);
      d
  }

  function Ascii(d: seq<Digit>): (t: seq<Byte>)
    ensures |t| == |d|
  {
    if d == [] then [] else [d[0] + ASCII_ZERO] + Ascii(d[1..])
  }

  lemma AsciiAt(d: seq<Digit>)
    ensures forall i :: 0 <= i < |d| ==> Ascii(d)[i] == d[i] + ASCII_ZERO
  {
  }

  predicate IsDigitText(t: seq<Byte>) {
    forall i :: 0 <= i < |t| ==> ASCII_ZERO <= t[i] < ASCII_ZERO + 10
  }

  function FromAscii(t: seq<Byte>): (d: seq<Digit>)
    requires IsDigitText(t)
    ensures |d| == |t|
  {
    if t == [] then [] else [t[0] - ASCII_ZERO] + FromAscii(t[1..])
  }

  lemma {:induction false} AsciiConcat(a: seq<Digit>, b: seq<Digit>)
    ensures Ascii(a + b) == Ascii(a) + Ascii(b)
  {
    if a == [] {
      assert a + b == b;
    } else {
      AsciiConcat(a[1..], b);
      assert (a + b)[1..] == a[1..] + b;
    }
  }

  /** Zeros in front do not change the number. */
  lemma {:induction false} LeadingZeros(n: nat, digits: seq<Digit>)
    ensures NumberOf(Zeros(n) + digits) == NumberOf(digits)
  {
    hide Pow, NumberOf, Zeros;
    NumberOfConcat(Zeros(n), digits);
    assert 0 * Pow(10, |digits|) == 0;
  }

  lemma {:induction false} AsciiRoundTrip(d: seq<Digit>)
    ensures IsDigitText(Ascii(d)) && FromAscii(Ascii(d)) == d
  {
    AsciiAt(d);
    if d != [] {
      AsciiRoundTrip(d[1..]);
      assert Ascii(d)[1..] == Ascii(d[1..]);
    }
  }
}
