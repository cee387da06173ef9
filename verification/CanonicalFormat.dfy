/** The bytes AF-CANON writes: type bytes, frames, field order, digest layout, and the text of numbers,
    strings and timestamps, each pinned down by its own laws. */
module CanonicalFormat {
  import opened Canonical
  import opened CanonicalIdentity
  import opened DecimalText
  import opened Digits
  import opened IntegerText
  import opened Octets
  import opened Ordering
  import opened Outcomes

  // ---------------------------------------------------------------- frames

  /** The first byte tells the type and the next eight the number of payload bytes. */
  lemma {:induction false} TypeAndLength(v: Value)
    requires EncodeValue(v).Ok?
    ensures var bytes := EncodeValue(v).value;
      && |bytes| >= 9 && FromBigEndian(bytes[1..9]) == |bytes| - 9
      && bytes[0] == match v
         case Null => 0
         case Boolean(b) => (if b then 2 else 1)
         case Text(_) => 3
         case Integer(_) => 4
         case Number(_) => 5
         case Binary(_) => 6
         case Sequence(_) => 7
         case Mapping(_) => 8
         case Instant(_) => 9
         case _ => bytes[0]
  {
    hide BigEndian, FromBigEndian, Pow, Utf8, TimestampText, NormalizedInteger, DecimalScalar, ObjectPayload, EncodeItems;
    var (tag, payload) := ValueParts(v).value;
    BigEndianReadsBack(|payload|, 8);
    var bytes := Frame(tag, payload);
    assert bytes[1..9] == BigEndian(|payload|, 8);
  }

  /** Text payloads are the UTF-8 bytes, binary ones the bytes themselves, list ones their items' encodings. */
  lemma {:induction false} Payloads(v: Value)
    requires EncodeValue(v).Ok?
    ensures var payload := EncodeValue(v).value[9..];
      match v
      case Null => payload == []
      case Boolean(_) => payload == []
      case Text(points) => payload == Utf8(points)
      case Binary(bs) => payload == bs
      case Integer(n) => payload == IntegerTextOf(n)
      case Number(d) => d.Finite? && payload == CanonicalText(d)
      case Instant(at) => at.Some? && payload == TimestampText(at.value)
      case Mapping(fields) => ObjectPayload(fields) == Ok(payload)
      case Sequence(items) => EncodeItems(items) == Ok(payload)
      case _ => true
  {
    hide BigEndian, Pow, Utf8, TimestampText, ObjectPayload, EncodeItems, CanonicalText, IntegerTextOf, MaximumDecimalDigits;
    var (tag, payload) := ValueParts(v).value;
    assert Frame(tag, payload)[9..] == payload;
  }

  /** A list's payload is its items' encodings one after another. */
  lemma {:induction false} ItemsFollow(items: seq<Value>, i: nat)
    requires EncodeItems(items).Ok? && i < |items|
    ensures EncodeItems(items[..i]).Ok? && EncodeValue(items[i]).Ok? && EncodeItems(items[i + 1..]).Ok?
    ensures EncodeItems(items).value == EncodeItems(items[..i]).value + EncodeValue(items[i]).value + EncodeItems(items[i + 1..]).value
  {
    hide EncodeValue;
    if i > 0 {
      ItemsFollow(items[1..], i - 1);
      assert items[1..][..i - 1] == items[..i][1..] && items[..i][0] == items[0];
      assert items[1..][i..] == items[i + 1..];
    }
  }

  /** Fields are written in ascending order of their names, no name twice. */
  lemma {:induction false} FieldsInNameOrder(fields: seq<Field>)
    requires ObjectPayload(fields).Ok?
    ensures DecodePayload(8, ObjectPayload(fields).value).Some?
    ensures var decoded := DecodePayload(8, ObjectPayload(fields).value).value;
      && decoded.CMapping? && |decoded.fields| == |fields|
      && forall i, j :: 0 <= i < j < |decoded.fields| ==>
           LexLe(decoded.fields[i].name, decoded.fields[j].name) && decoded.fields[i].name != decoded.fields[j].name
  {
    hide DecodePayload, NormalFields, EncodeFields, Sort, LexLe;
    var m := NormalFields(fields, {});
    MappingDecodes(fields);
    NamesAreDistinct(fields, {});
    CanonLeIsPreorder();
    SortSorts(m, CanonLe);
    SortKeeps(m, CanonLe);
    NormalCount(fields, {});
    DistinctStays(m, Sort(m, CanonLe));
  }

  lemma {:induction false} NormalCount(fields: seq<Field>, seen: set<seq<CodePoint>>)
    requires EncodeFields(fields, seen).Ok?
    ensures |NormalFields(fields, seen)| == |fields|
    decreases fields
  {
    hide EncodeField, NormalField;
    if fields != [] { NormalCount(fields[1..], seen + {fields[0].name.value}); }
  }

  lemma {:induction false} DistinctStays(a: seq<CanonField>, b: seq<CanonField>)
    requires FreshNames(a, {}) && multiset(a) == multiset(b)
    ensures forall i, j :: 0 <= i < j < |b| ==> b[i].name != b[j].name
  {
    assert NoDuplicates(a);
    NoDuplicatesByCount(a);
    NoDuplicatesByCount(b);
    forall x | x in b ensures multiset(b)[x] == 1 && x in a {
      assert x in multiset(b);
      assert x in multiset(a);
    }
    forall i, j | 0 <= i < j < |b| ensures b[i].name != b[j].name {
      assert b[i] in multiset(b) && b[j] in multiset(b);
      var k :| 0 <= k < |a| && a[k] == b[i];
      var l :| 0 <= l < |a| && a[l] == b[j];
    }
  }

  /** A digest preimage is the domain in UTF-8, one zero byte, and the object's payload. */
  lemma {:induction false} DigestLayout(domain: seq<CodePoint>, fields: seq<Field>)
    ensures var r := DigestInput(Some(domain), Mapping(fields));
      && (r.Ok? <==> domain != [] && IsUnicode(domain) && 0 !in domain && ObjectPayload(fields).Ok?)
      && (r.Ok? ==> r.value == Utf8(domain) + [0] + ObjectPayload(fields).value)
  {
    hide Utf8, ObjectPayload;
  }

  // ---------------------------------------------------------------- what is refused

  /** What becomes of a payload: it is framed if eight bytes can count it. */
  lemma {:induction false} FramedIfCountable(v: Value)
    ensures ValueParts(v).Err? ==> EncodeValue(v) == Err(ValueParts(v).error)
    ensures ValueParts(v).Ok? && |ValueParts(v).value.1| >= Pow(256, 8) ==> EncodeValue(v) == Err(LengthOverflow)
    ensures ValueParts(v).Ok? && |ValueParts(v).value.1| < Pow(256, 8) ==> EncodeValue(v).Ok?
  {
    hide ValueParts, Pow, Frame;
  }

  /** Which values have a payload, and why the others are refused. */
  lemma {:induction false} RefusedExactly(v: Value)
    ensures var parts := ValueParts(v);
      match v
      case BinaryFloat => parts == Err(FloatForbidden)
      case MutableBinary => parts == Err(MutableBytes)
      case Unsupported => parts == Err(UnsupportedType)
      case Integer(n) => (if NormalizedInteger(n).Ok? then parts.Ok? else parts == Err(Scalar(NormalizedInteger(n).error)))
      case Number(d) =>
        if !d.Finite? then parts == Err(Scalar(NotFinite)) else if |CanonicalText(d)| <= 4096 then parts.Ok? else parts == Err(Scalar(TooLong))
      case Instant(at) => (if at == None then parts == Err(NaiveTimestamp) else parts.Ok?)
      case Text(points) => (if exists p :: p in points && 0xD800 <= p <= 0xDFFF then parts == Err(BadUnicode) else parts.Ok?)
      case Mapping(fields) => (if ObjectPayload(fields).Ok? then parts.Ok? else parts == Err(ObjectPayload(fields).error))
      case Sequence(items) => (if EncodeItems(items).Ok? then parts.Ok? else parts == Err(EncodeItems(items).error))
      case _ => parts.Ok?
  {
    hide CanonicalText, NormalizedInteger, Utf8, TimestampText, ObjectPayload, EncodeItems;
    if v.Text? { Surrogates(v.points); }
  }

  lemma {:induction false} Surrogates(points: seq<CodePoint>)
    ensures IsUnicode(points) <==> !exists p :: p in points && 0xD800 <= p <= 0xDFFF
  {
    forall i | 0 <= i < |points| ensures points[i] in points { }
  }

  /** A field name must be a string of one to 65535 ASCII characters that no field before it has. */
  lemma {:induction false} NamesExactly(name: Option<seq<CodePoint>>, seen: set<seq<CodePoint>>)
    ensures NameError(name, seen)
         == match name
            case None => Some(NameNotText)
            case Some(text) =>
              if exists c :: c in text && c >= 128 then Some(NameNotAscii)
              else if |text| == 0 then Some(NameEmpty)
              else if text in seen then Some(NameRepeated)
              else if |text| >= 65536 then Some(NameTooLong)
              else None
  {
    if name.Some? {
      var text := name.value;
      forall i | 0 <= i < |text| ensures text[i] in text { }
    }
  }

  function NamesOf(fields: seq<Field>): set<seq<CodePoint>> { set f | f in fields && f.name.Some? :: f.name.value }

  /** The first field that is refused, by name or by value, decides what is reported. */
  lemma {:induction false} FirstRefusalDecides(fields: seq<Field>, seen: set<seq<CodePoint>>, i: nat)
    requires i < |fields| && EncodeFields(fields[..i], seen).Ok?
    ensures var error := NameError(fields[i].name, seen + NamesOf(fields[..i]));
      if error.Some? then EncodeFields(fields, seen) == Err(error.value)
      else EncodeValue(fields[i].value).Err? ==> EncodeFields(fields, seen) == Err(EncodeValue(fields[i].value).error)
    decreases i
  {
    hide EncodeValue, NameError, Pow;
    if i == 0 {
      assert seen + NamesOf(fields[..0]) == seen;
    } else {
      var head, tail := fields[0], fields[1..];
      assert fields[..i][0] == head && fields[..i][1..] == tail[..i - 1];
      FirstRefusalDecides(tail, seen + {head.name.value}, i - 1);
      assert fields[..i] == [head] + tail[..i - 1];
      assert (seen + {head.name.value}) + NamesOf(tail[..i - 1]) == seen + NamesOf(fields[..i]);
    }
  }

  /** Fields that are not refused one by one are refused together only when four bytes cannot count them. */
  lemma {:induction false} ObjectRefusedExactly(fields: seq<Field>)
    ensures EncodeFields(fields, {}).Err? ==> ObjectPayload(fields) == Err(EncodeFields(fields, {}).error)
    ensures EncodeFields(fields, {}).Ok? ==>
      (if |fields| < 0x1_0000_0000 then ObjectPayload(fields).Ok? else ObjectPayload(fields) == Err(TooManyFields))
  {
    hide EncodeFields, Sort, Body;
    if EncodeFields(fields, {}).Ok? { EncodedCount(fields, {}); }
  }

  // ---------------------------------------------------------------- order-preserving bytes

  lemma {:induction false} LexLast(a: seq<int>, b: seq<int>, x: int, y: int)
    requires |a| == |b|
    ensures LexLe(a + [x], b + [y]) <==> (a == b && x <= y) || (a != b && LexLe(a, b))
    decreases a
  {
    if a == [] {
      assert a + [x] == [x] && b + [y] == [y];
      assert [x][1..] == [] && [y][1..] == [];
    } else {
      assert (a + [x])[1..] == a[1..] + [x] && (b + [y])[1..] == b[1..] + [y];
      LexLast(a[1..], b[1..], x, y);
      assert a == b <==> a[0] == b[0] && a[1..] == b[1..] by {
        assert a == [a[0]] + a[1..] && b == [b[0]] + b[1..];
      }
    }
  }

  /** Big-endian bytes of one width compare as the numbers they denote. */
  lemma {:induction false} BigEndianOrders(m: nat, n: nat, width: nat)
    requires m < Pow(256, width) && n < Pow(256, width)
    ensures LexLe(BigEndian(m, width), BigEndian(n, width)) <==> m <= n
  {
    hide LexLe;
    if width == 0 {
      assert LexLe([], []) by { LexByFirstDifference([], [], 0); }
    } else {
      BigEndianOrders(m / 256, n / 256, width - 1);
      LexLast(BigEndian(m / 256, width - 1), BigEndian(n / 256, width - 1), m % 256, n % 256);
      BigEndianReadsBack(m / 256, width - 1);
      BigEndianReadsBack(n / 256, width - 1);
    }
  }

  /** UTF-8 leaves ASCII alone, and of two code points the smaller has the smaller bytes at the
      first place they differ, neither being a prefix of the other. */
  lemma {:induction false} PointsInOrder(c: CodePoint, d: CodePoint) returns (k: nat)
    requires c < d
    ensures c < 128 ==> EncodePoint(c) == [c]
    ensures k < |EncodePoint(c)| && k < |EncodePoint(d)| && EncodePoint(c)[..k] == EncodePoint(d)[..k]
    ensures EncodePoint(c)[k] < EncodePoint(d)[k]
  {
    if |EncodePoint(c)| == |EncodePoint(d)| {
      k := SameWidth(c, d);
    } else {
      k := 0;
      ShorterFirst(c, d);
    }
  }

  lemma {:induction false} ShorterFirst(c: CodePoint, d: CodePoint)
    requires c < d && |EncodePoint(c)| != |EncodePoint(d)|
    ensures EncodePoint(c)[0] < EncodePoint(d)[0]
  {
    hide PointOf;
    PointReadsBack(c);
    PointReadsBack(d);
  }

  lemma {:induction false} ByDigits(x: nat, y: nat)
    ensures x < y ==> x / 64 < y / 64 || (x / 64 == y / 64 && x % 64 < y % 64)
    ensures x == y ==> x / 64 == y / 64 && x % 64 == y % 64
  {
  }

  lemma {:induction false} SameWidth(c: CodePoint, d: CodePoint) returns (k: nat)
    requires c < d && |EncodePoint(c)| == |EncodePoint(d)|
    ensures k < |EncodePoint(c)| && EncodePoint(c)[..k] == EncodePoint(d)[..k] && EncodePoint(c)[k] < EncodePoint(d)[k]
  {
    ByDigits(c, d);
    ByDigits(c / 64, d / 64);
    ByDigits(c / 64 / 64, d / 64 / 64);
    var n := |EncodePoint(c)|;
    if n == 1 {
      k := 0;
    } else if c / 64 == d / 64 {
      k := n - 1;
    } else if c / 64 / 64 == d / 64 / 64 {
      k := n - 2;
    } else if c / 64 / 64 / 64 == d / 64 / 64 / 64 {
      k := n - 3;
    } else {
      k := 0;
    }
  }

  /** UTF-8 texts compare as their code points do. */
  lemma {:induction false} Utf8Orders(a: seq<CodePoint>, b: seq<CodePoint>)
    ensures LexLe(Utf8(a), Utf8(b)) <==> LexLe(a, b)
  {
    hide EncodePoint, LexLe;
    if a == [] {
      LexByFirstDifference([], Utf8(b), 0);
      LexByFirstDifference([], b, 0);
    } else if b == [] {
      LexByFirstDifference(Utf8(a), [], 0);
      LexByFirstDifference(a, [], 0);
    } else if a[0] == b[0] {
      Utf8Orders(a[1..], b[1..]);
      SameFront(EncodePoint(a[0]), Utf8(a[1..]), Utf8(b[1..]));
      SameFront([a[0]], a[1..], b[1..]);
      assert a == [a[0]] + a[1..] && b == [b[0]] + b[1..];
    } else {
      var k := PointsInOrder(if a[0] < b[0] then a[0] else b[0], if a[0] < b[0] then b[0] else a[0]);
      assert Utf8(a)[..k] == EncodePoint(a[0])[..k] && Utf8(b)[..k] == EncodePoint(b[0])[..k];
      LexByFirstDifference(Utf8(a), Utf8(b), k);
      LexByFirstDifference(a, b, 0);
    }
  }

  lemma {:induction false} SameFront(front: seq<int>, a: seq<int>, b: seq<int>)
    ensures LexLe(front + a, front + b) <==> LexLe(a, b)
    decreases front
  {
    if front == [] {
      assert front + a == a && front + b == b;
    } else {
      assert (front + a)[1..] == front[1..] + a && (front + b)[1..] == front[1..] + b;
      SameFront(front[1..], a, b);
    }
  }

  // ---------------------------------------------------------------- numbers and timestamps as text

  /** Decimal text grows digit by digit; a negative number has a minus in front. */
  lemma {:induction false} IntegerTextGrows(n: nat, digit: nat)
    requires digit < 10
    ensures IntegerTextOf(digit) == [48 + digit]
    ensures n > 0 ==> IntegerTextOf(10 * n + digit) == IntegerTextOf(n) + [48 + digit]
    ensures n > 0 ==> IntegerTextOf(-(n as int)) == [45] + IntegerTextOf(n)
  {
    assert Ascii([digit]) == [48 + digit] by { AsciiAt([digit]); }
    if n > 0 {
      assert (10 * n + digit) / 10 == n && (10 * n + digit) % 10 == digit;
      AsciiConcat(DigitsOf(n), [digit]);
    }
  }

  /** Fixed-point text is a minus for negatives, whole digits without a leading zero, and for a
      positive scale a point and exactly that many digits. */
  lemma {:induction false} FixedTextParts(f: Fixed) returns (whole: seq<Digit>, fraction: seq<Digit>)
    ensures |whole| >= 1 && (|whole| > 1 ==> whole[0] != 0) && |fraction| == f.scale
    ensures NumberOf(whole + fraction) == if f.units < 0 then -f.units else f.units
    ensures FixedText(f) == (if f.units < 0 then [45] else []) + Ascii(whole) + (if f.scale == 0 then [] else [46] + Ascii(fraction))
  {
    hide NumberOf, Ascii, Pow, DigitsOf;
    var digits := DigitsOf(Magnitude(f.units));
    if f.scale == 0 {
      whole, fraction := digits, [];
      assert whole + fraction == digits;
    } else {
      var d := Widened(digits, f.scale);
      WidenedNumber(digits, f.scale);
      whole, fraction := d[..|d| - f.scale], d[|d| - f.scale..];
      assert whole + fraction == d;
    }
  }

  /** Timestamp text is YYYY-MM-DDTHH:MM:SS.ffffffZ. */
  lemma {:induction false} TimestampLayout(u: Utc)
    ensures var t := TimestampText(u);
      && |t| == 27 && t[4] == t[7] == 45 && t[10] == 84 && t[13] == t[16] == 58 && t[19] == 46 && t[26] == 90
      && Reads(t[..4], u.year) && Reads(t[5..7], u.month) && Reads(t[8..10], u.day) && Reads(t[11..13], u.hour)
      && Reads(t[14..16], u.minute) && Reads(t[17..19], u.second) && Reads(t[20..26], u.microsecond)
  {
    hide Pow, Padded, Ascii, NumberOf, Reads;
    Widths();
    var t := TimestampText(u);
    FieldReads(u.year, 4);
    FieldReads(u.month, 2);
    FieldReads(u.day, 2);
    FieldReads(u.hour, 2);
    FieldReads(u.minute, 2);
    FieldReads(u.second, 2);
    FieldReads(u.microsecond, 6);
    assert t[..4] == Fielded(u.year, 4) && t[5..7] == Fielded(u.month, 2) && t[8..10] == Fielded(u.day, 2);
    assert t[11..13] == Fielded(u.hour, 2) && t[14..16] == Fielded(u.minute, 2) && t[17..19] == Fielded(u.second, 2);
    assert t[20..26] == Fielded(u.microsecond, 6);
  }

  /** ASCII digits that denote a number. */
  ghost predicate Reads(t: seq<Byte>, n: nat) {
    exists d: seq<Digit> :: |d| == |t| && NumberOf(d) == n && forall i :: 0 <= i < |d| ==> t[i] as int == 48 + d[i] as int
  }

  lemma {:induction false} FieldReads(n: nat, width: nat)
    requires n < Pow(10, width)
    ensures Reads(Fielded(n, width), n)
  {
    var d := Padded(n, width);
    AsciiAt(d);
    assert |d| == |Fielded(n, width)| && NumberOf(d) == n;
  }
}
