/** AF-CANON: the self-delimiting encoding of nested values, its decoder, and
    the identity of digest inputs. */
module Canonical {
  import opened Digits
  import opened DecimalText
  import opened IntegerText
  import opened Octets
  import opened Ordering
  import opened Outcomes

  /** Every value the encoder can be handed, including those it refuses. */
  datatype Value =
    | Null
    | Boolean(b: bool)
    | Integer(n: int)
    | Number(d: Decimal)
    | BinaryFloat
    | Instant(at: Option<Utc>)
    | Text(points: seq<CodePoint>)
    | Binary(bs: seq<Byte>)
    | Mapping(fields: seq<Field>)
    | Sequence(items: seq<Value>)
    | MutableBinary
    | Unsupported

  /** One mapping entry in iteration order; a key that is not a string has no name. */
  datatype Field = Field(name: Option<seq<CodePoint>>, value: Value)

  datatype CanonError =
    | Scalar(refusal: Refusal)
    | FloatForbidden
    | NaiveTimestamp
    | BadUnicode
    | MutableBytes
    | UnsupportedType
    | NameNotText
    | NameNotAscii
    | NameEmpty
    | NameRepeated
    | NameTooLong
    | TooManyFields
    | LengthOverflow
    | DomainNotText
    | DomainEmpty
    | DomainHasNul
    | NotAnObject

  const NULL: Byte := 0
  const FALSE: Byte := 1
  const TRUE: Byte := 2
  const STRING: Byte := 3
  const INTEGER: Byte := 4
  const DECIMAL: Byte := 5
  const BYTES: Byte := 6
  const LIST: Byte := 7
  const OBJECT: Byte := 8
  const TIMESTAMP_V1: Byte := 9

  // ---------------------------------------------------------------- the encoder

  function Frame(tag: Byte, payload: seq<Byte>): seq<Byte> {
    [tag] + BigEndian(|payload|, 8) + payload
  }

  function EncodeValue(v: Value): Result<seq<Byte>, CanonError>
    decreases v, 1
  {
    var (tag, payload) :- ValueParts(v);
    if |payload| >= Pow(256, 8) then Err(LengthOverflow) else Ok(Frame(tag, payload))
  }

  function ScalarParts(tag: Byte, text: Result<seq<Byte>, Refusal>): Result<(Byte, seq<Byte>), CanonError> {
    match text
    case Ok(t) => Ok((tag, t))
    case Err(refusal) => Err(Scalar(refusal))
  }

  function ValueParts(v: Value): Result<(Byte, seq<Byte>), CanonError>
    decreases v, 0
  {
    match v
    case Null => Ok((NULL, []))
    case Boolean(b) => Ok((if b then TRUE else FALSE, []))
    case Integer(n) => ScalarParts(INTEGER, NormalizedInteger(n))
    case Number(d) => ScalarParts(DECIMAL, DecimalScalar(d))
    case BinaryFloat => Err(FloatForbidden)
    case Instant(None) => Err(NaiveTimestamp)
    case Instant(Some(u)) => Ok((TIMESTAMP_V1, TimestampText(u)))
    case Text(points) => if IsUnicode(points) then Ok((STRING, Utf8(points))) else Err(BadUnicode)
    case Binary(bs) => Ok((BYTES, bs))
    case Mapping(fields) => (var payload :- ObjectPayload(fields); Ok((OBJECT, payload)))
    case Sequence(items) => (var payload :- EncodeItems(items); Ok((LIST, payload)))
    case MutableBinary => Err(MutableBytes)
    case Unsupported => Err(UnsupportedType)
  }

  function EncodeItems(items: seq<Value>): Result<seq<Byte>, CanonError>
    decreases items
  {
    if items == [] then Ok([])
    else
      var head :- EncodeValue(items[0]);
      var tail :- EncodeItems(items[1..]);
      Ok(head + tail)
  }

  datatype Encoded = Encoded(name: seq<Byte>, bytes: seq<Byte>)

  predicate IsAscii(name: seq<CodePoint>) { forall i :: 0 <= i < |name| ==> name[i] < 128 }

  function NameError(name: Option<seq<CodePoint>>, seen: set<seq<CodePoint>>): (r: Option<CanonError>)
    ensures r.None? ==> name.Some? && IsAscii(name.value) && |name.value| < Pow(256, 2)
  {
    if name.None? then Some(NameNotText)
    else if !IsAscii(name.value) then Some(NameNotAscii)
    else if name.value == [] then Some(NameEmpty)
    else if name.value in seen then Some(NameRepeated)
    else if |name.value| > 0xFFFF then Some(NameTooLong)
    else (TwoBytes(); None)
  }

  lemma {:induction false} TwoBytes()
    ensures Pow(256, 2) == 0x1_0000 && Pow(256, 4) == 0x1_0000_0000
  {
    PowAdd(256, 2, 2);
  }

  function EncodeFields(fields: seq<Field>, seen: set<seq<CodePoint>>): Result<seq<Encoded>, CanonError>
    decreases fields, 0
  {
    if fields == [] then Ok([])
    else
      match NameError(fields[0].name, seen)
      case Some(error) => Err(error)
      case None =>
        var name := fields[0].name.value;
        var bytes :- EncodeField(fields[0]);
        var rest :- EncodeFields(fields[1..], seen + {name});
        Ok([Encoded(name, bytes)] + rest)
  }

  function EncodeField(field: Field): Result<seq<Byte>, CanonError>
    decreases field, 0
  {
    EncodeValue(field.value)
  }

  predicate EncodedLe(a: Encoded, b: Encoded) { LexLe(a.name, b.name) }

  function ObjectPayload(fields: seq<Field>): Result<seq<Byte>, CanonError>
    decreases fields, 2
  {
    var pairs :- EncodeFields(fields, {});
    if |pairs| > 0xFFFF_FFFF then Err(TooManyFields) else Ok(Body(Sort(pairs, EncodedLe)))
  }

  function Body(pairs: seq<Encoded>): seq<Byte> {
    BigEndian(|pairs|, 4) + FieldBytes(pairs)
  }

  function FieldBytes(pairs: seq<Encoded>): seq<Byte> {
    if pairs == [] then []
    else BigEndian(|pairs[0].name|, 2) + pairs[0].name + pairs[0].bytes + FieldBytes(pairs[1..])
  }

  predicate Framed(bytes: seq<Byte>) {
    |bytes| >= 9 && bytes == Frame(bytes[0], bytes[9..])
  }

  lemma {:induction false} EncodedIsFramed(v: Value)
    requires EncodeValue(v).Ok?
    ensures Framed(EncodeValue(v).value)
  {
    hide ValueParts, BigEndian;
    var (tag, payload) := ValueParts(v).value;
    assert Frame(tag, payload)[9..] == payload;
  }

  function Prepended<T>(done: seq<T>, rest: Result<seq<T>, CanonError>): Result<seq<T>, CanonError> {
    match rest
    case Ok(r) => Ok(done + r)
    case Err(e) => Err(e)
  }

  lemma {:induction false} PrependedStep<T>(done: seq<T>, x: T, rest: Result<seq<T>, CanonError>)
    ensures Prepended(done + [x], rest) == match rest case Ok(r) => Ok(done + ([x] + r)) case Err(e) => Err(e)
  {
    if rest.Ok? { assert done + [x] + rest.value == done + ([x] + rest.value); }
  }

  lemma {:induction false} PrependedNothing<T>(rest: Result<seq<T>, CanonError>)
    ensures Prepended([], rest) == rest
  {
    if rest.Ok? { assert [] + rest.value == rest.value; }
  }

  lemma {:induction false} PrependedErr<T>(done: seq<T>, e: CanonError)
    ensures Prepended(done, Err(e)) == Err(e)
  {
  }

  lemma {:induction false} PrependedAll<T>(done: seq<T>)
    ensures Prepended(done, Ok([])) == Ok(done)
  {
    assert done + [] == done;
  }

  /** Re-framing an encoded field appends its own bytes. */
  lemma {:induction false} ReFramed(before: seq<Byte>, e: Encoded)
    requires Framed(e.bytes)
    ensures before + BigEndian(|e.name|, 2) + e.name + [e.bytes[0]] + BigEndian(|e.bytes[9..]|, 8) + e.bytes[9..]
         == before + (BigEndian(|e.name|, 2) + e.name + e.bytes)
  {
    hide BigEndian;
  }

  /** The object encoder as it runs: collect the fields in iteration order, sort
      them by name, then re-frame each one into the body. */
  method EncodeObjectPayload(fields: seq<Field>) returns (r: Result<seq<Byte>, CanonError>)
    ensures r == ObjectPayload(fields)
  {
    hide ValueParts, BigEndian, LexLe, Pow, EncodeValue, Sort, NameError;
    var encodedFields: seq<Encoded> := [];
    var seenNames: set<seq<CodePoint>> := {};
    assert fields[0..] == fields;
    PrependedNothing(EncodeFields(fields, {}));
    for i := 0 to |fields|
      invariant EncodeFields(fields, {}) == Prepended(encodedFields, EncodeFields(fields[i..], seenNames))
      invariant forall e :: e in encodedFields ==> Framed(e.bytes)
    {
      var error := NameError(fields[i].name, seenNames);
      if error.Some? {
        PrependedErr(encodedFields, error.value);
        return Err(error.value);
      }
      var name := fields[i].name.value;
      seenNames := seenNames + {name};
      var encodedValue := EncodeValue(fields[i].value);
      if encodedValue.Err? {
        PrependedErr(encodedFields, encodedValue.error);
        return Err(encodedValue.error);
      }
      EncodedIsFramed(fields[i].value);
      assert fields[i..][1..] == fields[i + 1..];
      PrependedStep(encodedFields, Encoded(name, encodedValue.value), EncodeFields(fields[i + 1..], seenNames));
      encodedFields := encodedFields + [Encoded(name, encodedValue.value)];
    }
    assert fields[|fields|..] == [] && encodedFields + [] == encodedFields;
    PrependedAll(encodedFields);
    SortMembers(encodedFields, EncodedLe);
    encodedFields := Sort(encodedFields, EncodedLe);
    if |encodedFields| > 0xFFFF_FFFF {
      return Err(TooManyFields);
    }
    var body := BigEndian(|encodedFields|, 4);
    assert encodedFields[0..] == encodedFields;
    for i := 0 to |encodedFields|
      invariant body + FieldBytes(encodedFields[i..]) == Body(encodedFields)
    {
      var encoded := encodedFields[i];
      assert Framed(encoded.bytes);
      var tag, payload := encoded.bytes[0], encoded.bytes[9..];
      ghost var before := body;
      body := body + BigEndian(|encoded.name|, 2);
      body := body + encoded.name;
      body := body + [tag];
      body := body + BigEndian(|payload|, 8);
      body := body + payload;
      assert encodedFields[i..][1..] == encodedFields[i + 1..];
      ReFramed(before, encoded);
    }
    assert encodedFields[|encodedFields|..] == [] && body + [] == body;
    r := Ok(body);
  }

  /** The bytes a digest is taken of: the domain, a NUL byte, and the fields of an
      object without the enclosing tag and length. */
  function DigestInput(domain: Option<seq<CodePoint>>, v: Value): Result<seq<Byte>, CanonError> {
    if domain.None? then Err(DomainNotText)
    else if !IsUnicode(domain.value) then Err(BadUnicode)
    else if domain.value == [] then Err(DomainEmpty)
    else if 0 in domain.value then Err(DomainHasNul)
    else if !v.Mapping? then Err(NotAnObject)
    else
      var payload :- ObjectPayload(v.fields);
      Ok(Utf8(domain.value) + [0] + payload)
  }
}
