/** The canonical text of a `Decimal`, as AF-CANON and the research report both
    render it, and the number that text denotes. */
module DecimalText {
  import opened Digits
  import opened Outcomes

  const MINUS: Byte := 45
  const DOT: Byte := 46
  const MAX_SCALAR_TEXT_BYTES: int := 4096

  datatype Refusal = NotFinite | TooLong

  /** Python's `Decimal`: a sign, a coefficient without leading zeros, a power of ten. */
  datatype RawDecimal =
    | Finite(negative: bool, digits: seq<Digit>, exponent: int)
    | Infinite(negative: bool)
    | NotANumber

  type Decimal = d: RawDecimal | d.Finite? ==> NoLeadingZero(d.digits) witness Finite(false, [0], 0)

  function Coefficient(d: Decimal): int
    requires d.Finite?
  {
    if d.negative then -(NumberOf(d.digits) as int) else NumberOf(d.digits)
  }

  /** `d` times 10^k, an integer once k clears the exponent. */
  function Scaled(d: Decimal, k: nat): int
    requires d.Finite? && d.exponent + k >= 0
  {
    Coefficient(d) * Pow(10, d.exponent + k)
  }

  function Clearing(d: Decimal): (k: nat)
    requires d.Finite?
    ensures d.exponent + k >= 0
  {
    if d.exponent < 0 then -d.exponent else 0
  }

  /** Numerical equality: both become the same integer under one power of ten. */
  predicate SameNumber(a: Decimal, b: Decimal)
    requires a.Finite? && b.Finite?
  {
    var k := if Clearing(a) < Clearing(b) then Clearing(b) else Clearing(a);
    Scaled(a, k) == Scaled(b, k)
  }

  /** The number units / 10^scale; reduced when no smaller scale denotes it. */
  datatype Fixed = Fixed(units: int, scale: nat) {
    predicate Reduced() { scale > 0 ==> units % 10 != 0 }
  }

  function Reduce(units: int, scale: nat): (f: Fixed)
    ensures f.Reduced() && f.scale <= scale
    decreases scale
  {
    if scale > 0 && units % 10 == 0 then Reduce(units / 10, scale - 1) else Fixed(units, scale)
  }

  /** The number a finite decimal denotes, in its one reduced fixed-point form. */
  function FixedOf(d: Decimal): (f: Fixed)
    requires d.Finite?
    ensures f.Reduced() && f.scale <= Clearing(d)
  {
    if d.exponent >= 0 then Fixed(Coefficient(d) * Pow(10, d.exponent), 0)
    else Reduce(Coefficient(d), -d.exponent)
  }

  lemma {:induction false} ReduceKeepsValue(units: int, scale: nat)
    ensures var f := Reduce(units, scale); f.units * Pow(10, scale - f.scale) == units
    decreases scale
  {
    if scale > 0 && units % 10 == 0 {
      ReduceKeepsValue(units / 10, scale - 1);
      var f := Reduce(units, scale);
      assert f.units * (10 * Pow(10, scale - 1 - f.scale)) == 10 * (f.units * Pow(10, scale - 1 - f.scale));
    }
  }

  lemma {:induction false} FixedScaled(d: Decimal, k: nat)
    requires d.Finite? && k >= Clearing(d)
    ensures FixedOf(d).units * Pow(10, k - FixedOf(d).scale) == Scaled(d, k)
  {
    var f := FixedOf(d);
    if d.exponent >= 0 {
      PowAdd(10, d.exponent, k);
      MulAssociative(Coefficient(d), Pow(10, d.exponent), Pow(10, k));
    } else {
      var s: nat := -d.exponent;
      ReduceKeepsValue(Coefficient(d), s);
      PowAdd(10, s - f.scale, k - s);
      MulAssociative(f.units, Pow(10, s - f.scale), Pow(10, k - s));
    }
  }

  lemma {:induction false} CancelFactor(a: int, b: int, c: int)
    requires c > 0 && a * c == b * c
    ensures a == b
  {
  }

  /** Two reduced forms that agree once scaled alike are the same form. */
  lemma {:induction false} ReducedUnique(f: Fixed, g: Fixed, k: nat)
    requires f.Reduced() && g.Reduced() && f.scale <= k && g.scale <= k
    requires f.units * Pow(10, k - f.scale) == g.units * Pow(10, k - g.scale)
    ensures f == g
  {
    if f.scale < g.scale {
      LowerScaleDivides(f, g, k);
    } else if g.scale < f.scale {
      LowerScaleDivides(g, f, k);
    } else {
      CancelFactor(f.units, g.units, Pow(10, k - f.scale));
    }
  }

  lemma {:induction false} LowerScaleDivides(f: Fixed, g: Fixed, k: nat)
    requires f.scale < g.scale <= k
    requires f.units * Pow(10, k - f.scale) == g.units * Pow(10, k - g.scale)
    ensures g.units % 10 == 0
  {
    var gap := g.scale - f.scale;
    PowAdd(10, gap, k - g.scale);
    MulAssociative(f.units, Pow(10, gap), Pow(10, k - g.scale));
    CancelFactor(f.units * Pow(10, gap), g.units, Pow(10, k - g.scale));
    assert f.units * (10 * Pow(10, gap - 1)) == 10 * (f.units * Pow(10, gap - 1));
    TenDivides(g.units, f.units * Pow(10, gap - 1));
  }

  lemma {:induction false} TenDivides(a: int, b: int)
    requires a == 10 * b
    ensures a % 10 == 0
  {
  }

  /** The reduced form is the number: equal forms are exactly equal numbers. */
  lemma {:induction false} FixedOfIsTheNumber(a: Decimal, b: Decimal)
    requires a.Finite? && b.Finite?
    ensures FixedOf(a) == FixedOf(b) <==> SameNumber(a, b)
  {
    var k := if Clearing(a) < Clearing(b) then Clearing(b) else Clearing(a);
    FixedScaled(a, k);
    FixedScaled(b, k);
    if SameNumber(a, b) { ReducedUnique(FixedOf(a), FixedOf(b), k); }
  }

  // ---------------------------------------------------------------- text of a number

  function Magnitude(n: int): nat { if n < 0 then -n else n }

  /** Fixed-point text with at least one digit before the point. */
  function FixedText(f: Fixed): seq<Byte> {
    (if f.units < 0 then [MINUS] else []) + MagnitudeText(DigitsOf(Magnitude(f.units)), f.scale)
  }

  function MagnitudeText(digits: seq<Digit>, scale: nat): (t: seq<Byte>)
    requires |digits| >= 1
    ensures |t| >= 1 && t[0] != MINUS
  {
    if scale == 0 then
      AsciiAt(digits);
      Ascii(digits)
    else
      var d := Widened(digits, scale);
      AsciiAt(d[..|d| - scale]);
      Ascii(d[..|d| - scale]) + [DOT] + Ascii(d[|d| - scale..])
  }

  /** Digits widened with zeros so that one of them stands before the point. */
  function Widened(digits: seq<Digit>, scale: nat): (d: seq<Digit>)
    ensures |d| > scale
  {
    if |digits| <= scale then Zeros(scale + 1 - |digits|) + digits else digits
  }

  function FindDot(t: seq<Byte>): (i: nat)
    ensures i <= |t| && (i < |t| ==> t[i] == DOT)
    ensures forall j :: 0 <= j < i ==> t[j] != DOT
  {
    if t == [] || t[0] == DOT then 0 else 1 + FindDot(t[1..])
  }

  lemma FindDotAt(t: seq<Byte>, i: nat)
    requires i < |t| && t[i] == DOT && forall j :: 0 <= j < i ==> t[j] != DOT
    ensures FindDot(t) == i
  {
  }

  /** Reads unsigned fixed-point text: its digits as one number, and its scale. */
  function ReadMagnitude(body: seq<Byte>): Option<(nat, nat)> {
    var dot := FindDot(body);
    var whole := body[..dot];
    var fraction := if dot < |body| then body[dot + 1..] else [];
    if !IsDigitText(whole) || !IsDigitText(fraction) then None
    else Some((NumberOf(FromAscii(whole) + FromAscii(fraction)), |fraction|))
  }

  /** Reads fixed-point text back to a number. */
  function ReadFixed(t: seq<Byte>): Option<Fixed> {
    var negative := t != [] && t[0] == MINUS;
    match ReadMagnitude(if negative then t[1..] else t)
    case None => None
    case Some((n, scale)) => Some(Fixed(if negative then -(n as int) else n, scale))
  }

  lemma {:induction false} WholeReadsBack(digits: seq<Digit>)
    ensures ReadMagnitude(Ascii(digits)) == Some((NumberOf(digits), 0))
  {
    hide NumberOf;
    var body := Ascii(digits);
    AsciiRoundTrip(digits);
    assert FindDot(body) == |body|;
    assert body[..|body|] == body;
    assert FromAscii(body) + FromAscii([]) == digits;
  }

  lemma {:induction false} FractionReadsBack(whole: seq<Digit>, fraction: seq<Digit>)
    ensures ReadMagnitude(Ascii(whole) + [DOT] + Ascii(fraction)) == Some((NumberOf(whole + fraction), |fraction|))
  {
    hide NumberOf;
    var body := Ascii(whole) + [DOT] + Ascii(fraction);
    AsciiRoundTrip(whole);
    AsciiAt(whole);
    AsciiRoundTrip(fraction);
    FindDotAt(body, |whole|);
    assert body[..|whole|] == Ascii(whole) && body[|whole| + 1..] == Ascii(fraction);
  }

  lemma {:induction false} MagnitudeReadsBack(digits: seq<Digit>, scale: nat)
    requires |digits| >= 1
    ensures ReadMagnitude(MagnitudeText(digits, scale)) == Some((NumberOf(digits), scale))
  {
    hide ReadMagnitude, Ascii, NumberOf, Widened;
    if scale == 0 {
      WholeReadsBack(digits);
    } else {
      var d := Widened(digits, scale);
      WidenedNumber(digits, scale);
      FractionReadsBack(d[..|d| - scale], d[|d| - scale..]);
      assert d[..|d| - scale] + d[|d| - scale..] == d;
    }
  }

  lemma {:induction false} WidenedNumber(digits: seq<Digit>, scale: nat)
    ensures NumberOf(Widened(digits, scale)) == NumberOf(digits)
  {
    hide NumberOf, Zeros;
    if |digits| <= scale { LeadingZeros(scale + 1 - |digits|, digits); }
  }

  lemma {:induction false} SignReadsBack(negative: bool, body: seq<Byte>)
    requires |body| >= 1 && body[0] != MINUS && ReadMagnitude(body).Some?
    ensures var (n, scale) := ReadMagnitude(body).value;
      ReadFixed((if negative then [MINUS] else []) + body) == Some(Fixed(if negative then -(n as int) else n, scale))
  {
    hide ReadMagnitude;
    if negative { assert ([MINUS] + body)[1..] == body; } else { assert [] + body == body; }
  }

  /** Text reads back to the number it renders. */
  lemma {:induction false} ReadsBack(f: Fixed)
    ensures ReadFixed(FixedText(f)) == Some(f)
  {
    hide ReadFixed, MagnitudeText, DigitsOf;
    var digits := DigitsOf(Magnitude(f.units));
    MagnitudeReadsBack(digits, f.scale);
    SignReadsBack(f.units < 0, MagnitudeText(digits, f.scale));
  }

  /** The canonical text of a finite decimal. */
  function CanonicalText(d: Decimal): seq<Byte>
    requires d.Finite?
  {
    FixedText(FixedOf(d))
  }

  /** Normal form: one text per number, and the text denotes the number. */
  lemma {:induction false} CanonicalTextIsNormalForm(a: Decimal, b: Decimal)
    requires a.Finite? && b.Finite?
    ensures CanonicalText(a) == CanonicalText(b) <==> SameNumber(a, b)
    ensures ReadFixed(CanonicalText(a)) == Some(FixedOf(a))
  {
    ReadsBack(FixedOf(a));
    ReadsBack(FixedOf(b));
    FixedOfIsTheNumber(a, b);
  }

  // ---------------------------------------------------------------- the renderers

  function Stripped(digits: seq<Digit>): (s: seq<Digit>)
    requires |digits| >= 1
    ensures 1 <= |s| <= |digits| && s == digits[..|s|]
    ensures |s| > 1 ==> s[|s| - 1] != 0
    ensures forall i :: |s| <= i < |digits| ==> digits[i] == 0
  {
    if |digits| > 1 && digits[|digits| - 1] == 0 then Stripped(digits[..|digits| - 1]) else digits
  }

  lemma {:induction false} StrippedIs(digits: seq<Digit>, end: nat)
    requires 1 <= end <= |digits| && (end > 1 ==> digits[end - 1] != 0)
    requires forall i :: end <= i < |digits| ==> digits[i] == 0
    ensures Stripped(digits) == digits[..end]
  {
    assert |Stripped(digits)| == end;
  }

  /** Positional text of digits times a power of ten. */
  function Positional(text: seq<Digit>, exponent: int): seq<Byte>
    requires |text| >= 1
  {
    if exponent >= 0 then Ascii(text + Zeros(exponent))
    else
      var point := |text| + exponent;
      if point > 0 then Ascii(text[..point]) + [DOT] + Ascii(text[point..])
      else [ASCII_ZERO, DOT] + Ascii(Zeros(-point) + text)
  }

  function PositionalLength(count: nat, exponent: int): int {
    if exponent >= 0 then count + exponent
    else if count + exponent > 0 then count + 1
    else 2 - (count + exponent) + count
  }

  predicate IsZero(d: Decimal)
    requires d.Finite?
  {
    forall i :: 0 <= i < |d.digits| ==> d.digits[i] == 0
  }

  lemma {:induction false} ZeroMeansOneZero(d: Decimal)
    requires d.Finite?
    ensures IsZero(d) <==> d.digits == [0]
    ensures IsZero(d) <==> NumberOf(d.digits) == 0
  {
    if d.digits[0] != 0 { NumberBelow(d.digits); }
    if d.digits == [0] { assert d.digits[..0] == []; }
  }

  lemma {:induction false} TrailingZeros(digits: seq<Digit>, n: nat)
    requires n <= |digits| && forall i :: n <= i < |digits| ==> digits[i] == 0
    ensures NumberOf(digits) == NumberOf(digits[..n]) * Pow(10, |digits| - n)
  {
    var tail := digits[n..];
    assert digits == digits[..n] + tail;
    NumberOfConcat(digits[..n], tail);
    assert tail == Zeros(|digits| - n);
  }

  /** The number left once trailing zeros moved into the exponent. */
  function StrippedFixed(negative: bool, s: seq<Digit>, e: int): Fixed {
    var n := if e >= 0 then NumberOf(s) * Pow(10, e) else NumberOf(s);
    Fixed(if negative then -(n as int) else n, if e >= 0 then 0 else -e)
  }

  /** Dropping trailing zeros and placing the point renders the number. */
  lemma {:induction false} PositionalIsCanonical(d: Decimal)
    requires d.Finite? && !IsZero(d)
    ensures var s := Stripped(d.digits);
      CanonicalText(d)
        == (if d.negative then [MINUS] else []) + Positional(s, d.exponent + |d.digits| - |s|)
  {
    hide Pow, NumberOf, FixedOf, DigitsOf, Ascii, Zeros, Positional, MagnitudeText;
    var s := Stripped(d.digits);
    var e := d.exponent + |d.digits| - |s|;
    ZeroMeansOneZero(d);
    TrailingZeros(d.digits, |s|);
    StrippedNonZero(d.digits);
    FixedOfStripped(d, s, e);
    StrippedText(d.negative, s, e);
  }

  lemma {:induction false} StrippedNonZero(digits: seq<Digit>)
    requires NoLeadingZero(digits) && NumberOf(digits) != 0
    ensures var s := Stripped(digits);
      NoLeadingZero(s) && s[|s| - 1] != 0 && NumberOf(s) > 0
  {
    var s := Stripped(digits);
    if digits[0] == 0 { OneZero(digits); }
    NumberBelow(s);
    MulAtLeast(1, Pow(10, |s| - 1));
  }

  lemma {:induction false} StrippedText(negative: bool, s: seq<Digit>, e: int)
    requires NoLeadingZero(s) && NumberOf(s) > 0
    ensures FixedText(StrippedFixed(negative, s, e)) == (if negative then [MINUS] else []) + Positional(s, e)
  {
    hide Pow, NumberOf, DigitsOf, Ascii, MagnitudeText, Positional;
    var n := if e >= 0 then NumberOf(s) * Pow(10, e) else NumberOf(s);
    if e >= 0 { MulAtLeast(NumberOf(s), Pow(10, e)); }
    assert FixedText(StrippedFixed(negative, s, e))
        == (if negative then [MINUS] else []) + MagnitudeText(DigitsOf(n), if e >= 0 then 0 else -e);
    if e >= 0 {
      ScaledUpText(s, e);
    } else {
      ShortestDigits(s);
      MagnitudeIsPositional(s, e);
    }
  }

  lemma {:induction false} ScaledUpText(s: seq<Digit>, e: nat)
    requires NoLeadingZero(s) && NumberOf(s) > 0
    ensures MagnitudeText(DigitsOf(NumberOf(s) * Pow(10, e)), 0) == Positional(s, e)
  {
    hide Pow, NumberOf, DigitsOf, Ascii, Zeros;
    NumberOfConcat(s, Zeros(e));
    assert NoLeadingZero(s + Zeros(e)) by {
      if s[0] == 0 { OneZero(s); }
    }
    ShortestDigits(s + Zeros(e));
  }

  lemma {:induction false} OneZero(s: seq<Digit>)
    requires NoLeadingZero(s) && s[0] == 0
    ensures NumberOf(s) == 0
  {
    assert s[..0] == [];
  }

  lemma {:induction false} LastDigit(s: seq<Digit>)
    requires |s| >= 1 && s[|s| - 1] != 0
    ensures NumberOf(s) % 10 != 0 && (-(NumberOf(s) as int)) % 10 != 0
  {
    ModDigit(NumberOf(s[..|s| - 1]), s[|s| - 1]);
  }

  lemma {:induction false} ModDigit(n: int, d: int)
    requires 0 < d < 10
    ensures (n * 10 + d) % 10 == d && (-(n * 10 + d)) % 10 == 10 - d
  {
    assert -(n * 10 + d) == (-n - 1) * 10 + (10 - d);
  }

  lemma {:induction false} FixedOfStripped(d: Decimal, s: seq<Digit>, e: int)
    requires d.Finite? && 1 <= |s| <= |d.digits| && e == d.exponent + |d.digits| - |s|
    requires NumberOf(d.digits) == NumberOf(s) * Pow(10, |d.digits| - |s|)
    requires s[|s| - 1] != 0
    ensures FixedOf(d) == StrippedFixed(d.negative, s, e)
  {
    hide Pow, NumberOf, FixedOf;
    var k, f := Clearing(d), StrippedFixed(d.negative, s, e);
    LastDigit(s);
    FixedScaled(d, k);
    ScaledStripped(d, s, e, k);
    StrippedScaled(d.negative, s, e, k);
    ReducedUnique(FixedOf(d), f, k);
  }

  lemma {:induction false} ScaledStripped(d: Decimal, s: seq<Digit>, e: int, k: nat)
    requires d.Finite? && |s| <= |d.digits| && e == d.exponent + |d.digits| - |s| && d.exponent + k >= 0
    requires NumberOf(d.digits) == NumberOf(s) * Pow(10, |d.digits| - |s|)
    ensures Scaled(d, k) == (if d.negative then -(NumberOf(s) as int) else NumberOf(s)) * Pow(10, e + k)
  {
    hide Pow, NumberOf;
    var gap := |d.digits| - |s|;
    var c := if d.negative then -(NumberOf(s) as int) else NumberOf(s);
    PowAdd(10, gap, d.exponent + k);
    NegatedProduct(NumberOf(s), Pow(10, gap));
    assert Coefficient(d) == c * Pow(10, gap);
    MulAssociative(c, Pow(10, gap), Pow(10, d.exponent + k));
  }

  lemma {:induction false} NegatedProduct(a: int, b: int)
    ensures -(a * b) == (-a) * b
  {
  }

  lemma {:induction false} StrippedScaled(negative: bool, s: seq<Digit>, e: int, k: nat)
    requires e + k >= 0
    ensures var f := StrippedFixed(negative, s, e);
      f.units * Pow(10, k - f.scale) == (if negative then -(NumberOf(s) as int) else NumberOf(s)) * Pow(10, e + k)
  {
    hide Pow, NumberOf;
    var c := if negative then -(NumberOf(s) as int) else NumberOf(s);
    if e >= 0 {
      PowAdd(10, e, k);
      NegatedProduct(NumberOf(s), Pow(10, e));
      MulAssociative(c, Pow(10, e), Pow(10, k));
    }
  }

  lemma {:induction false} MagnitudeIsPositional(s: seq<Digit>, e: int)
    requires |s| >= 1 && e < 0
    ensures MagnitudeText(s, -e) == Positional(s, e)
  {
    hide Ascii;
    var point := |s| + e;
    if point <= 0 {
      var d := Zeros(1 - point) + s;
      ZerosFront(-point);
      assert d[..|d| + e] == [0] && d[|d| + e..] == Zeros(-point) + s;
      OneZeroText();
    }
  }

  lemma {:induction false} ZerosFront(n: nat)
    ensures Zeros(n + 1) == [0] + Zeros(n)
  {
  }

  lemma {:induction false} OneZeroText()
    ensures Ascii([0]) == [ASCII_ZERO]
  {
  }

  lemma {:induction false} PositionalSize(text: seq<Digit>, exponent: int)
    requires |text| >= 1
    ensures |Positional(text, exponent)| == PositionalLength(|text|, exponent)
  {
  }

  /** The three shapes of positional text, as the renderers assemble them. */
  lemma {:induction false} PositionalParts(text: seq<Digit>, exponent: int)
    requires |text| >= 1
    ensures exponent >= 0 ==> Positional(text, exponent) == Ascii(text) + Ascii(Zeros(exponent))
    ensures exponent < 0 < |text| + exponent ==>
      Positional(text, exponent) == Ascii(text[..|text| + exponent]) + [DOT] + Ascii(text[|text| + exponent..])
    ensures exponent < 0 && |text| + exponent <= 0 ==>
      Positional(text, exponent) == [ASCII_ZERO, DOT] + Ascii(Zeros(-(|text| + exponent))) + Ascii(text)
  {
    hide Ascii, Zeros;
    if exponent >= 0 {
      AsciiConcat(text, Zeros(exponent));
    } else if |text| + exponent <= 0 {
      AsciiConcat(Zeros(-(|text| + exponent)), text);
    }
  }

  /** The canonical text, refused exactly when the value is not finite or its text is too long. */
  function DecimalScalar(value: Decimal): Result<seq<Byte>, Refusal> {
    if !value.Finite? then Err(NotFinite)
    else if |CanonicalText(value)| <= MAX_SCALAR_TEXT_BYTES then Ok(CanonicalText(value))
    else Err(TooLong)
  }

  /** The AF-CANON renderer: succeeds with the canonical text exactly when that
      text fits, although it decides from lengths before building anything. */
  method NormalizedDecimal(value: Decimal) returns (r: Result<seq<Byte>, Refusal>)
    ensures r == DecimalScalar(value)
  {
    hide Pow, NumberOf, DigitsOf, FixedOf, FixedText, CanonicalText, Ascii, Zeros, Positional, Stripped;
    if !value.Finite? {
      return Err(NotFinite);
    }
    ZeroMeansOneZero(value);
    if IsZero(value) {
      ZeroText(value);
      return Ok([ASCII_ZERO]);
    }
    PositionalIsCanonical(value);
    ghost var s := Stripped(value.digits);
    ghost var e := value.exponent + |value.digits| - |s|;
    PositionalSize(s, e);
    PositionalParts(s, e);
    var adjusted := value.exponent + |value.digits| - 1;
    if adjusted >= MAX_SCALAR_TEXT_BYTES || adjusted <= -MAX_SCALAR_TEXT_BYTES {
      return Err(TooLong);
    }
    var end, exponent := |value.digits|, value.exponent;
    while end > 1 && value.digits[end - 1] == 0
      invariant 1 <= end <= |value.digits|
      invariant exponent == value.exponent + |value.digits| - end
      invariant forall i :: end <= i < |value.digits| ==> value.digits[i] == 0
    {
      end := end - 1;
      exponent := exponent + 1;
    }
    StrippedIs(value.digits, end);
    var encodedLength: int;
    if exponent >= 0 {
      encodedLength := end + exponent;
    } else {
      var decimalPoint := end + exponent;
      encodedLength := if decimalPoint > 0 then end + 1 else 2 + (-decimalPoint) + end;
    }
    if encodedLength + (if value.negative then 1 else 0) > MAX_SCALAR_TEXT_BYTES {
      return Err(TooLong);
    }
    var text := value.digits[..end];
    var normalized: seq<Byte>;
    if exponent >= 0 {
      normalized := Ascii(text) + Ascii(Zeros(exponent));
    } else {
      var decimalPoint := |text| + exponent;
      if decimalPoint > 0 {
        normalized := Ascii(text[..decimalPoint]) + [DOT] + Ascii(text[decimalPoint..]);
      } else {
        normalized := [ASCII_ZERO, DOT] + Ascii(Zeros(-decimalPoint)) + Ascii(text);
      }
    }
    r := Ok((if value.negative then [MINUS] else []) + normalized);
  }

  lemma {:induction false} ZeroText(d: Decimal)
    requires d.Finite? && NumberOf(d.digits) == 0
    ensures CanonicalText(d) == [ASCII_ZERO]
  {
    if d.exponent < 0 { ReduceZero(-d.exponent); }
    assert FixedOf(d) == Fixed(0, 0);
    assert DigitsOf(0) == [0];
  }

  lemma ReduceZero(scale: nat)
    ensures Reduce(0, scale) == Fixed(0, 0)
  {
  }

  /** The research report's renderer: the canonical text with no size limit. */
  method ReportDecimal(value: Decimal) returns (r: Result<seq<Byte>, Refusal>)
    ensures r == if value.Finite? then Ok(CanonicalText(value)) else Err(NotFinite)
  {
    hide Pow, NumberOf, DigitsOf, FixedOf, FixedText, CanonicalText, Ascii, Zeros, Positional, Stripped;
    if !value.Finite? {
      return Err(NotFinite);
    }
    ZeroMeansOneZero(value);
    if IsZero(value) {
      ZeroText(value);
      return Ok([ASCII_ZERO]);
    }
    PositionalIsCanonical(value);
    ghost var s := Stripped(value.digits);
    PositionalParts(s, value.exponent + |value.digits| - |s|);
    var digits, exponent := value.digits, value.exponent;
    while digits[|digits| - 1] == 0
      invariant 1 <= |digits| <= |value.digits|
      invariant exponent == value.exponent + |value.digits| - |digits|
      invariant digits == value.digits[..|digits|]
      invariant forall i :: |digits| <= i < |value.digits| ==> value.digits[i] == 0
      decreases |digits|
    {
      digits := digits[..|digits| - 1];
      exponent := exponent + 1;
    }
    StrippedIs(value.digits, |digits|);
    var rendered: seq<Byte>;
    if exponent >= 0 {
      rendered := Ascii(digits) + Ascii(Zeros(exponent));
    } else {
      var decimalPoint := |digits| + exponent;
      if decimalPoint > 0 {
        rendered := Ascii(digits[..decimalPoint]) + [DOT] + Ascii(digits[decimalPoint..]);
      } else {
        rendered := [ASCII_ZERO, DOT] + Ascii(Zeros(-decimalPoint)) + Ascii(digits);
      }
    }
    assert [] + rendered == rendered;
    r := Ok(if value.negative then [MINUS] + rendered else rendered);
  }
}
