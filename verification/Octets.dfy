/** Fixed-width big-endian lengths, UTF-8, and fixed-width timestamps, each with
    the reader that undoes it. */
module Octets {
  import opened Digits
  import opened Outcomes

  /** A SHA-256 digest as the number its bytes spell; byte order is number order. */
  type Digest = nat

  type CodePoint = i: int | 0 <= i < 0x11_0000

  // ---------------------------------------------------------------- lengths

  function BigEndian(n: nat, width: nat): (bs: seq<Byte>)
    ensures |bs| == width
  {
    if width == 0 then [] else BigEndian(n / 256, width - 1) + [n % 256]
  }

  function FromBigEndian(bs: seq<Byte>): nat {
    if bs == [] then 0 else FromBigEndian(bs[..|bs| - 1]) * 256 + bs[|bs| - 1]
  }

  lemma {:induction false} BigEndianReadsBack(n: nat, width: nat)
    requires n < Pow(256, width)
    ensures FromBigEndian(BigEndian(n, width)) == n
  {
    if width > 0 {
      BigEndianReadsBack(n / 256, width - 1);
      assert BigEndian(n, width)[..width - 1] == BigEndian(n / 256, width - 1);
    }
  }

  // ---------------------------------------------------------------- UTF-8

  /** A Unicode scalar value: a code point that is not a surrogate. */
  predicate IsScalar(c: CodePoint) { !(0xD800 <= c < 0xE000) }

  predicate IsUnicode(s: seq<CodePoint>) { forall i :: 0 <= i < |s| ==> IsScalar(s[i]) }

  /** The low six bits as a continuation byte. */
  function Continuation(c: nat): (b: Byte)
    ensures 0x80 <= b < 0xC0 && b != 0
  {
    0x80 + c % 64
  }

  function EncodePoint(c: CodePoint): (bs: seq<Byte>)
    ensures 1 <= |bs| <= 4 && (c != 0 ==> 0 !in bs)
  {
    if c < 0x80 then [c]
    else if c < 0x800 then [0xC0 + c / 64, Continuation(c)]
    else if c < 0x1_0000 then [0xE0 + c / 64 / 64, Continuation(c / 64), Continuation(c)]
    else [0xF0 + c / 64 / 64 / 64, Continuation(c / 64 / 64), Continuation(c / 64), Continuation(c)]
  }

  function Utf8(s: seq<CodePoint>): seq<Byte> {
    if s == [] then [] else EncodePoint(s[0]) + Utf8(s[1..])
  }

  /** The length a lead byte announces; continuation bytes announce none. */
  function LeadLength(lead: Byte): nat {
    if lead < 0x80 then 1
    else if lead < 0xC0 then 0
    else if lead < 0xE0 then 2
    else if lead < 0xF0 then 3
    else 4
  }

  function PointOf(bs: seq<Byte>): int
    requires 1 <= |bs| <= 4
  {
    var lead := bs[0] as int;
    if |bs| == 1 then lead
    else if |bs| == 2 then (lead - 0xC0) * 64 + Trail(bs[1])
    else if |bs| == 3 then ((lead - 0xE0) * 64 + Trail(bs[1])) * 64 + Trail(bs[2])
    else (((lead - 0xF0) * 64 + Trail(bs[1])) * 64 + Trail(bs[2])) * 64 + Trail(bs[3])
  }

  function Trail(b: Byte): int { b as int - 0x80 }

  function DecodeUtf8(bs: seq<Byte>): Option<seq<CodePoint>> {
    if bs == [] then Some([])
    else
      var n := LeadLength(bs[0]);
      if n == 0 || |bs| < n || !(0 <= PointOf(bs[..n]) < 0x11_0000) then None
      else
        match DecodeUtf8(bs[n..])
        case None => None
        case Some(rest) => Some([PointOf(bs[..n])] + rest)
  }

  lemma {:induction false} PointReadsBack(c: CodePoint)
    ensures var bs := EncodePoint(c); LeadLength(bs[0]) == |bs| && PointOf(bs) == c
  {
    var q := c / 64;
    var r := q / 64;
    assert c == q * 64 + c % 64 && q == r * 64 + q % 64 && r == r / 64 * 64 + r % 64;
  }

  lemma {:induction false} Utf8ReadsBack(s: seq<CodePoint>)
    ensures DecodeUtf8(Utf8(s)) == Some(s)
  {
    if s != [] {
      hide EncodePoint, LeadLength, PointOf;
      var head, tail := EncodePoint(s[0]), Utf8(s[1..]);
      PointReadsBack(s[0]);
      Utf8ReadsBack(s[1..]);
      assert (head + tail)[..|head|] == head && (head + tail)[|head|..] == tail;
      assert s == [s[0]] + s[1..];
    }
  }

  lemma {:induction false} Utf8KeepsNulOut(s: seq<CodePoint>)
    requires 0 !in s
    ensures 0 !in Utf8(s)
  {
    if s != [] { Utf8KeepsNulOut(s[1..]); }
  }

  // ---------------------------------------------------------------- timestamps

  datatype RawUtc = RawUtc(year: nat, month: nat, day: nat, hour: nat, minute: nat, second: nat, microsecond: nat) {
    predicate InRange() {
      year < 10_000 && month < 100 && day < 100 && hour < 100 && minute < 100 && second < 100
      && microsecond < 1_000_000
    }
  }

  /** An instant converted to UTC; each field fits the width it is printed in. */
  type Utc = u: RawUtc | u.InRange() witness RawUtc(1, 1, 1, 0, 0, 0, 0)

  const HYPHEN: Byte := 45
  const LETTER_T: Byte := 84
  const COLON: Byte := 58
  const POINT: Byte := 46
  const LETTER_Z: Byte := 90

  lemma {:induction false} Widths()
    ensures Pow(10, 2) == 100 && Pow(10, 4) == 10_000 && Pow(10, 6) == 1_000_000
  {
    PowAdd(10, 2, 2);
    PowAdd(10, 4, 2);
  }

  function Fielded(n: nat, width: nat): (t: seq<Byte>)
    requires n < Pow(10, width)
    ensures |t| == width
  {
    Ascii(Padded(n, width))
  }

  function TimestampText(u: Utc): (t: seq<Byte>)
    ensures |t| == 27
  {
    Widths();
    Fielded(u.year, 4) + [HYPHEN] + Fielded(u.month, 2) + [HYPHEN] + Fielded(u.day, 2) + [LETTER_T]
    + Fielded(u.hour, 2) + [COLON] + Fielded(u.minute, 2) + [COLON] + Fielded(u.second, 2) + [POINT]
    + Fielded(u.microsecond, 6) + [LETTER_Z]
  }

  function ReadField(t: seq<Byte>): nat {
    if IsDigitText(t) then NumberOf(FromAscii(t)) else 0
  }

  function ReadTimestamp(t: seq<Byte>): Option<RawUtc> {
    if |t| != 27 then None
    else Some(RawUtc(ReadField(t[..4]), ReadField(t[5..7]), ReadField(t[8..10]), ReadField(t[11..13]),
                     ReadField(t[14..16]), ReadField(t[17..19]), ReadField(t[20..26])))
  }

  lemma {:induction false} FieldReadsBack(n: nat, width: nat)
    requires n < Pow(10, width)
    ensures ReadField(Fielded(n, width)) == n
  {
    hide Ascii, NumberOf, Padded;
    AsciiRoundTrip(Padded(n, width));
  }

  lemma {:induction false} TimestampReadsBack(u: Utc)
    ensures ReadTimestamp(TimestampText(u)) == Some(u)
  {
    hide Fielded, ReadField, Pow;
    Widths();
    var t := TimestampText(u);
    assert t[..4] == Fielded(u.year, 4) && t[5..7] == Fielded(u.month, 2) && t[8..10] == Fielded(u.day, 2);
    assert t[11..13] == Fielded(u.hour, 2) && t[14..16] == Fielded(u.minute, 2);
    assert t[17..19] == Fielded(u.second, 2) && t[20..26] == Fielded(u.microsecond, 6);
    FieldReadsBack(u.year, 4);
    FieldReadsBack(u.month, 2);
    FieldReadsBack(u.day, 2);
    FieldReadsBack(u.hour, 2);
    FieldReadsBack(u.minute, 2);
    FieldReadsBack(u.second, 2);
    FieldReadsBack(u.microsecond, 6);
  }
}
