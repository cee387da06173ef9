/** AF-CANON identity: a decoder that undoes the encoder, and what it follows
    from that two encodings or two digest inputs are equal. */
module CanonicalIdentity {
  import opened Canonical
  import opened Digits
  import opened DecimalText
  import opened IntegerText
  import opened Octets
  import opened Ordering
  import opened Outcomes

  /** What a value means once sign of zero, trailing zeros, time zones and the
      iteration order of mappings are gone. */
  datatype Canon =
    | CNull
    | CBoolean(b: bool)
    | CInteger(n: int)
    | CNumber(f: Fixed)
    | CInstant(u: Utc)
    | CText(points: seq<CodePoint>)
    | CBinary(bs: seq<Byte>)
    | CMapping(fields: seq<CanonField>)
    | CSequence(items: seq<Canon>)

  datatype CanonField = CanonField(name: seq<Byte>, value: Canon)

  predicate CanonLe(a: CanonField, b: CanonField) { LexLe(a.name, b.name) }

  function NormalForm(v: Value): Canon
    requires EncodeValue(v).Ok?
    decreases v, 1
  {
    assert ValueParts(v).Ok?;
    match v
    case Null => CNull
    case Boolean(b) => CBoolean(b)
    case Integer(n) => CInteger(n)
    case Number(d) => CNumber(FixedOf(d))
    case Instant(at) => CInstant(at.value)
    case Text(points) => CText(points)
    case Binary(bs) => CBinary(bs)
    case Mapping(fields) => assert ObjectPayload(fields).Ok?; CMapping(Sort(NormalFields(fields, {}), CanonLe))
    case Sequence(items) => CSequence(NormalItems(items))
  }

  function NormalItems(items: seq<Value>): (r: seq<Canon>)
    requires EncodeItems(items).Ok?
    ensures |r| == |items|
    decreases items
  {
    if items == [] then [] else [NormalForm(items[0])] + NormalItems(items[1..])
  }

  function NormalField(field: Field): CanonField
    requires field.name.Some? && IsAscii(field.name.value) && EncodeField(field).Ok?
    decreases field, 0
  {
    CanonField(field.name.value, NormalForm(field.value))
  }

  /** The fields in iteration order; `seen` holds the names before them. */
  function NormalFields(fields: seq<Field>, ghost seen: set<seq<CodePoint>>): (r: seq<CanonField>)
    requires EncodeFields(fields, seen).Ok?
    ensures |r| == |fields|
    decreases fields
  {
    if fields == [] then []
    else [NormalField(fields[0])] + NormalFields(fields[1..], seen + {fields[0].name.value})
  }

  // ---------------------------------------------------------------- the decoder

  function DecodeValue(bs: seq<Byte>): (r: Option<(Canon, seq<Byte>)>)
    ensures r.Some? ==> |r.value.1| < |bs|
    decreases |bs|, 2
  {
    if |bs| < 9 then None
    else
      var n := FromBigEndian(bs[1..9]);
      if |bs| < 9 + n then None
      else
        match DecodePayload(bs[0], bs[9..9 + n])
        case None => None
        case Some(c) => Some((c, bs[9 + n..]))
  }

  function DecodePayload(tag: Byte, payload: seq<Byte>): Option<Canon>
    decreases |payload|, 4
  {
    if tag == NULL then Some(CNull)
    else if tag == FALSE then Some(CBoolean(false))
    else if tag == TRUE then Some(CBoolean(true))
    else if tag == STRING then
      match DecodeUtf8(payload) { case None => None case Some(s) => Some(CText(s)) }
    else if tag == INTEGER then
      match ReadFixed(payload) { case None => None case Some(f) => Some(CInteger(f.units)) }
    else if tag == DECIMAL then
      match ReadFixed(payload) { case None => None case Some(f) => Some(CNumber(f)) }
    else if tag == BYTES then Some(CBinary(payload))
    else if tag == LIST then
      match DecodeItems(payload) { case None => None case Some(items) => Some(CSequence(items)) }
    else if tag == OBJECT then
      if |payload| < 4 then None
      else match DecodeFields(payload[4..], FromBigEndian(payload[..4])) {
        case None => None
        case Some(fields) => Some(CMapping(fields))
      }
    else if tag == TIMESTAMP_V1 then
      match ReadTimestamp(payload) { case None => None case Some(u) => if u.InRange() then Some(CInstant(u)) else None }
    else None
  }

  function DecodeItems(bs: seq<Byte>): Option<seq<Canon>>
    decreases |bs|, 3
  {
    if bs == [] then Some([])
    else
      match DecodeValue(bs)
      case None => None
      case Some((head, rest)) =>
        match DecodeItems(rest)
        case None => None
        case Some(tail) => Some([head] + tail)
  }

  function DecodeFields(bs: seq<Byte>, count: nat): Option<seq<CanonField>>
    decreases |bs|, 3
  {
    if count == 0 then (if bs == [] then Some([]) else None)
    else if |bs| < 2 || |bs| < 2 + FromBigEndian(bs[..2]) then None
    else
      var n := FromBigEndian(bs[..2]);
      match DecodeValue(bs[2 + n..])
      case None => None
      case Some((value, rest)) =>
        match DecodeFields(rest, count - 1)
        case None => None
        case Some(tail) => Some([CanonField(bs[2..2 + n], value)] + tail)
  }

  // ---------------------------------------------------------------- decoding undoes encoding

  /** However it continues, a byte string starting with `bytes` decodes to `c` and the rest. */
  ghost predicate Decodes(bytes: seq<Byte>, c: Canon) {
    forall rest :: DecodeValue(bytes + rest) == Some((c, rest))
  }

  lemma {:induction false} FrameDecodes(tag: Byte, payload: seq<Byte>, c: Canon, rest: seq<Byte>)
    requires |payload| < Pow(256, 8) && DecodePayload(tag, payload) == Some(c)
    ensures DecodeValue(Frame(tag, payload) + rest) == Some((c, rest))
  {
    hide DecodePayload, BigEndian, FromBigEndian, Pow;
    var bs := Frame(tag, payload) + rest;
    BigEndianReadsBack(|payload|, 8);
    assert bs[1..9] == BigEndian(|payload|, 8);
    assert bs[9..9 + |payload|] == payload && bs[9 + |payload|..] == rest;
  }

  /** The decoder recovers the normal form of any encodable value, however
      nested, and hands back untouched whatever follows it. */
  lemma {:induction false} DecodeUndoesEncode(v: Value, rest: seq<Byte>)
    requires EncodeValue(v).Ok?
    ensures DecodeValue(EncodeValue(v).value + rest) == Some((NormalForm(v), rest))
    decreases v, 2
  {
    hide DecodePayload, DecodeValue, NormalForm, ValueParts, BigEndian, Pow;
    PayloadDecodes(v);
    var (tag, payload) := ValueParts(v).value;
    FrameDecodes(tag, payload, NormalForm(v), rest);
  }

  lemma {:induction false} PayloadDecodes(v: Value)
    requires EncodeValue(v).Ok?
    ensures var (tag, payload) := ValueParts(v).value; DecodePayload(tag, payload) == Some(NormalForm(v))
    decreases v, 1
  {
    hide BigEndian, Pow, Utf8, DecodeUtf8, ReadFixed, TimestampText, ReadTimestamp, IntegerTextOf, FixedOf, FixedText,
      DecodeItems, DecodeFields, EncodeItems, EncodeFields, FieldBytes, Sort;
    match v
    case Null =>
    case Boolean(_) =>
    case Integer(n) => IntegerReadsBack(n);
    case Number(d) => ReadsBack(FixedOf(d));
    case Instant(at) => TimestampReadsBack(at.value);
    case Text(points) => Utf8ReadsBack(points);
    case Binary(_) =>
    case Mapping(fields) => MappingDecodes(fields);
    case Sequence(items) => ItemsDecode(items);
  }

  lemma {:induction false} ItemsDecode(items: seq<Value>)
    requires EncodeItems(items).Ok?
    ensures DecodeItems(EncodeItems(items).value) == Some(NormalItems(items))
    decreases items
  {
    hide EncodeValue, NormalForm, DecodeValue;
    if items != [] {
      var head, tail := EncodeValue(items[0]).value, EncodeItems(items[1..]).value;
      DecodeUndoesEncode(items[0], tail);
      ItemsDecode(items[1..]);
      assert |head| > 0 by { EncodedIsFramed(items[0]); }
    }
  }

  /** Encoded fields and their meanings, entry by entry. */
  ghost predicate Aligned(pairs: seq<Encoded>, meanings: seq<CanonField>) {
    |pairs| == |meanings| && forall i :: 0 <= i < |pairs| ==> AlignedAt(pairs[i], meanings[i])
  }

  ghost predicate AlignedAt(e: Encoded, m: CanonField) {
    e.name == m.name && |e.name| < Pow(256, 2) && Decodes(e.bytes, m.value)
  }

  lemma {:induction false} FieldDecodes(field: Field)
    requires field.name.Some? && IsAscii(field.name.value) && |field.name.value| < Pow(256, 2)
    requires EncodeField(field).Ok?
    ensures AlignedAt(Encoded(field.name.value, EncodeField(field).value), NormalField(field))
    decreases field, 3
  {
    hide EncodeValue, NormalForm, DecodeValue, Pow;
    forall rest ensures DecodeValue(EncodeValue(field.value).value + rest) == Some((NormalForm(field.value), rest)) {
      DecodeUndoesEncode(field.value, rest);
    }
  }

  lemma {:induction false} FieldsAlign(fields: seq<Field>, seen: set<seq<CodePoint>>)
    requires EncodeFields(fields, seen).Ok?
    ensures Aligned(EncodeFields(fields, seen).value, NormalFields(fields, seen))
    decreases fields, 0
  {
    hide EncodeField, NormalField, Pow, Decodes;
    if fields != [] {
      FieldDecodes(fields[0]);
      FieldsAlign(fields[1..], seen + {fields[0].name.value});
    }
  }

  lemma {:induction false} InsertAligns(e: Encoded, m: CanonField, pairs: seq<Encoded>, meanings: seq<CanonField>)
    requires AlignedAt(e, m) && Aligned(pairs, meanings)
    ensures Aligned(Insert(e, pairs, EncodedLe), Insert(m, meanings, CanonLe))
  {
    hide Decodes, Pow, LexLe;
    if pairs != [] && !EncodedLe(e, pairs[0]) {
      assert AlignedAt(pairs[0], meanings[0]);
      InsertAligns(e, m, pairs[1..], meanings[1..]);
    }
  }

  lemma {:induction false} SortAligns(pairs: seq<Encoded>, meanings: seq<CanonField>)
    requires Aligned(pairs, meanings)
    ensures Aligned(Sort(pairs, EncodedLe), Sort(meanings, CanonLe))
  {
    hide AlignedAt;
    if pairs != [] {
      SortAligns(pairs[1..], meanings[1..]);
      InsertAligns(pairs[0], meanings[0], Sort(pairs[1..], EncodedLe), Sort(meanings[1..], CanonLe));
    }
  }

  lemma {:induction false} FirstFieldBytes(size: seq<Byte>, name: seq<Byte>, bytes: seq<Byte>, tail: seq<Byte>)
    requires |size| == 2
    ensures var bs := size + name + bytes + tail;
      bs[..2] == size && bs[2..2 + |name|] == name && bs[2 + |name|..] == bytes + tail
  {
  }

  /** One field off the front of a payload. */
  lemma {:induction false} DecodeFirst(e: Encoded, m: CanonField, tail: seq<Byte>, count: nat)
    requires AlignedAt(e, m) && count > 0
    ensures var bs := BigEndian(|e.name|, 2) + e.name + e.bytes + tail;
      DecodeFields(bs, count) == match DecodeFields(tail, count - 1) case None => None case Some(more) => Some([m] + more)
  {
    hide DecodeValue, BigEndian, FromBigEndian, Pow;
    BigEndianReadsBack(|e.name|, 2);
    FirstFieldBytes(BigEndian(|e.name|, 2), e.name, e.bytes, tail);
  }

  lemma {:induction false} AlignedDecode(pairs: seq<Encoded>, meanings: seq<CanonField>)
    requires Aligned(pairs, meanings)
    ensures DecodeFields(FieldBytes(pairs), |pairs|) == Some(meanings)
  {
    hide DecodeValue, BigEndian, FromBigEndian, Pow, AlignedAt;
    if pairs != [] {
      assert Aligned(pairs[1..], meanings[1..]);
      AlignedDecode(pairs[1..], meanings[1..]);
      DecodeFirst(pairs[0], meanings[0], FieldBytes(pairs[1..]), |pairs|);
      assert meanings == [meanings[0]] + meanings[1..];
    }
  }

  lemma {:induction false} MappingDecodes(fields: seq<Field>)
    requires ObjectPayload(fields).Ok?
    ensures DecodePayload(OBJECT, ObjectPayload(fields).value) == Some(CMapping(Sort(NormalFields(fields, {}), CanonLe)))
    decreases fields, 1
  {
    hide BigEndian, FromBigEndian, Pow, FieldBytes, DecodeFields, Sort, EncodeFields, NormalFields;
    var pairs := EncodeFields(fields, {}).value;
    FieldsAlign(fields, {});
    SortAligns(pairs, NormalFields(fields, {}));
    var sorted := Sort(pairs, EncodedLe);
    AlignedDecode(sorted, Sort(NormalFields(fields, {}), CanonLe));
    TwoBytes();
    BigEndianReadsBack(|sorted|, 4);
    assert Body(sorted)[..4] == BigEndian(|sorted|, 4) && Body(sorted)[4..] == FieldBytes(sorted);
  }

  // ---------------------------------------------------------------- identity

  /** No encoding is a prefix of another: a common continuation forces the same
      meaning, the same bytes and the same remainder. */
  lemma {:induction false} UniquelyDecodable(a: Value, b: Value, restA: seq<Byte>, restB: seq<Byte>)
    requires EncodeValue(a).Ok? && EncodeValue(b).Ok?
    requires EncodeValue(a).value + restA == EncodeValue(b).value + restB
    ensures NormalForm(a) == NormalForm(b) && restA == restB && EncodeValue(a) == EncodeValue(b)
  {
    hide EncodeValue, NormalForm, DecodeValue;
    DecodeUndoesEncode(a, restA);
    DecodeUndoesEncode(b, restB);
    var ea, eb := EncodeValue(a).value, EncodeValue(b).value;
    assert ea == (ea + restA)[..|ea|] && eb == (eb + restB)[..|eb|];
  }

  /** The encoding as a function of the meaning alone. */
  function Render(c: Canon): seq<Byte>
    decreases c, 1
  {
    match c
    case CNull => Frame(NULL, [])
    case CBoolean(b) => Frame(if b then TRUE else FALSE, [])
    case CInteger(n) => Frame(INTEGER, IntegerTextOf(n))
    case CNumber(f) => Frame(DECIMAL, FixedText(f))
    case CInstant(u) => Frame(TIMESTAMP_V1, TimestampText(u))
    case CText(points) => Frame(STRING, Utf8(points))
    case CBinary(bs) => Frame(BYTES, bs)
    case CMapping(fields) => Frame(OBJECT, Body(RenderFields(fields)))
    case CSequence(items) => Frame(LIST, RenderItems(items))
  }

  function RenderItems(items: seq<Canon>): seq<Byte>
    decreases items
  {
    if items == [] then [] else Render(items[0]) + RenderItems(items[1..])
  }

  function RenderField(m: CanonField): Encoded
    decreases m, 0
  {
    Encoded(m.name, Render(m.value))
  }

  function RenderFields(fields: seq<CanonField>): (r: seq<Encoded>)
    ensures |r| == |fields|
    decreases fields
  {
    if fields == [] then [] else [RenderField(fields[0])] + RenderFields(fields[1..])
  }

  lemma {:induction false} RenderInsert(m: CanonField, s: seq<CanonField>)
    ensures RenderFields(Insert(m, s, CanonLe)) == Insert(RenderField(m), RenderFields(s), EncodedLe)
  {
    hide Render, LexLe;
    if s != [] && !CanonLe(m, s[0]) {
      RenderInsert(m, s[1..]);
      assert Insert(m, s, CanonLe)[1..] == Insert(m, s[1..], CanonLe);
    } else {
      assert ([m] + s)[1..] == s;
    }
  }

  lemma {:induction false} RenderSort(s: seq<CanonField>)
    ensures RenderFields(Sort(s, CanonLe)) == Sort(RenderFields(s), EncodedLe)
  {
    hide RenderField;
    if s != [] {
      RenderSort(s[1..]);
      RenderInsert(s[0], Sort(s[1..], CanonLe));
    }
  }

  lemma {:induction false} EncodeIsRender(v: Value)
    requires EncodeValue(v).Ok?
    ensures EncodeValue(v).value == Render(NormalForm(v))
    decreases v, 1
  {
    hide Frame, Pow, Utf8, TimestampText, IntegerTextOf, FixedOf, FixedText, EncodeItems, EncodeFields, Body, Sort, BigEndian;
    assert ValueParts(v).Ok?;
    match v
    case Null =>
    case Boolean(_) =>
    case Integer(_) =>
    case Number(_) =>
    case Instant(_) =>
    case Text(_) =>
    case Binary(_) =>
    case Mapping(fields) =>
      assert ObjectPayload(fields).Ok?;
      FieldsAreRender(fields, {});
      RenderSort(NormalFields(fields, {}));
    case Sequence(items) => ItemsAreRender(items);
  }

  lemma {:induction false} ItemsAreRender(items: seq<Value>)
    requires EncodeItems(items).Ok?
    ensures EncodeItems(items).value == RenderItems(NormalItems(items))
    decreases items
  {
    hide EncodeValue, NormalForm, Render;
    if items != [] {
      EncodeIsRender(items[0]);
      ItemsAreRender(items[1..]);
      assert NormalItems(items)[1..] == NormalItems(items[1..]);
    }
  }

  lemma {:induction false} FieldIsRender(field: Field)
    requires field.name.Some? && IsAscii(field.name.value) && EncodeField(field).Ok?
    ensures Encoded(field.name.value, EncodeField(field).value) == RenderField(NormalField(field))
    decreases field, 2
  {
    EncodeIsRender(field.value);
  }

  lemma {:induction false} FieldsAreRender(fields: seq<Field>, seen: set<seq<CodePoint>>)
    requires EncodeFields(fields, seen).Ok?
    ensures EncodeFields(fields, seen).value == RenderFields(NormalFields(fields, seen))
    decreases fields
  {
    hide EncodeField, NormalField, RenderField;
    if fields != [] {
      FieldIsRender(fields[0]);
      FieldsAreRender(fields[1..], seen + {fields[0].name.value});
      assert NormalFields(fields, seen)[1..] == NormalFields(fields[1..], seen + {fields[0].name.value});
    }
  }

  /** Two encodable values share their bytes exactly when they mean the same. */
  lemma {:induction false} IdentityIsMeaning(a: Value, b: Value)
    requires EncodeValue(a).Ok? && EncodeValue(b).Ok?
    ensures EncodeValue(a) == EncodeValue(b) <==> NormalForm(a) == NormalForm(b)
  {
    hide EncodeValue, NormalForm, Render;
    EncodeIsRender(a);
    EncodeIsRender(b);
    if EncodeValue(a) == EncodeValue(b) { UniquelyDecodable(a, b, [], []); }
  }

  // ---------------------------------------------------------------- mappings

  ghost function Entries(fields: seq<Field>): set<CanonField>
    requires EncodeFields(fields, {}).Ok?
  {
    set m | m in NormalFields(fields, {})
  }

  ghost predicate FreshNames(m: seq<CanonField>, seen: set<seq<CodePoint>>) {
    && (forall i :: 0 <= i < |m| ==> m[i].name !in seen)
    && (forall i, j :: 0 <= i < j < |m| ==> m[i].name != m[j].name)
  }

  lemma {:induction false} FreshNamesExtend(head: CanonField, tail: seq<CanonField>, seen: set<seq<CodePoint>>)
    requires head.name !in seen && FreshNames(tail, seen + {head.name})
    ensures FreshNames([head] + tail, seen)
  {
    var m := [head] + tail;
    forall i | 0 <= i < |m| ensures m[i].name !in seen {
      if i > 0 { assert m[i] == tail[i - 1]; assert tail[i - 1].name !in seen + {head.name}; }
    }
    forall i, j | 0 <= i < j < |m| ensures m[i].name != m[j].name {
      assert m[j] == tail[j - 1];
      assert tail[j - 1].name !in seen + {head.name};
      if i > 0 { assert m[i] == tail[i - 1]; }
    }
  }

  /** Names that survived the checks are new and pairwise different. */
  lemma {:induction false} NamesAreDistinct(fields: seq<Field>, seen: set<seq<CodePoint>>)
    requires EncodeFields(fields, seen).Ok?
    ensures FreshNames(NormalFields(fields, seen), seen)
    decreases fields
  {
    hide EncodeField, NormalForm, Pow, FreshNames;
    if fields != [] {
      var name := fields[0].name.value;
      NamesAreDistinct(fields[1..], seen + {name});
      FreshNamesExtend(NormalField(fields[0]), NormalFields(fields[1..], seen + {name}), seen);
    } else {
      NoNames(seen);
    }
  }

  lemma {:induction false} NoNames(seen: set<seq<CodePoint>>)
    ensures FreshNames([], seen)
  {
  }

  /** A mapping's identity is its finite map from names to meanings: neither more
      (iteration order) nor less. */
  lemma {:induction false} MappingIdentity(a: seq<Field>, b: seq<Field>)
    requires ObjectPayload(a).Ok? && ObjectPayload(b).Ok?
    ensures ObjectPayload(a) == ObjectPayload(b) <==> Entries(a) == Entries(b)
  {
    hide NormalFields, EncodeFields, RenderFields, Sort, Body, LexLe, DecodePayload;
    var ma, mb := NormalFields(a, {}), NormalFields(b, {});
    FieldsAreRender(a, {});
    FieldsAreRender(b, {});
    RenderSort(ma);
    RenderSort(mb);
    NamesAreDistinct(a, {});
    NamesAreDistinct(b, {});
    if ObjectPayload(a) == ObjectPayload(b) {
      MappingDecodes(a);
      MappingDecodes(b);
      SortMembers(ma, CanonLe);
      SortMembers(mb, CanonLe);
    }
    if Entries(a) == Entries(b) {
      forall m ensures m in ma <==> m in mb { assert m in Entries(a) <==> m in Entries(b); }
      SameSetSameSort(ma, mb);
    }
  }

  lemma {:induction false} SameSetSameSort(a: seq<CanonField>, b: seq<CanonField>)
    requires forall i, j :: 0 <= i < j < |a| ==> a[i].name != a[j].name
    requires forall i, j :: 0 <= i < j < |b| ==> b[i].name != b[j].name
    requires forall m :: m in a <==> m in b
    ensures Sort(a, CanonLe) == Sort(b, CanonLe)
  {
    hide Sort, LexLe;
    NoDuplicatesByCount(a);
    NoDuplicatesByCount(b);
    forall m ensures multiset(a)[m] == multiset(b)[m] {
      if m !in a { assert m !in multiset(a) && m !in multiset(b); }
    }
    assert multiset(a) == multiset(b);
    CanonLeIsPreorder();
    forall x, y | x in a && y in a && CanonLe(x, y) && CanonLe(y, x) ensures x == y {
      LexAntisymmetric(x.name, y.name);
    }
    SortForgetsOrder(a, b, CanonLe);
  }

  lemma {:induction false} CanonLeIsPreorder()
    ensures Preorder(CanonLe)
  {
    hide LexLe;
    forall x: CanonField, y: CanonField ensures CanonLe(x, y) || CanonLe(y, x) { LexConnected(x.name, y.name); }
    forall x: CanonField, y: CanonField, z: CanonField | CanonLe(x, y) && CanonLe(y, z) ensures CanonLe(x, z) {
      LexTransitive(x.name, y.name, z.name);
    }
  }

  // ---------------------------------------------------------------- iteration order

  predicate FieldFine(f: Field) {
    NameError(f.name, {}).None? && EncodeField(f).Ok?
  }

  /** What the checks accept, said of the fields as a whole. */
  ghost predicate Acceptable(fields: seq<Field>, seen: set<seq<CodePoint>>) {
    && (forall f :: f in fields ==> FieldFine(f) && f.name.value !in seen)
    && (forall i, j :: 0 <= i < j < |fields| ==> fields[i].name != fields[j].name)
  }

  lemma {:induction false} AcceptedExactly(fields: seq<Field>, seen: set<seq<CodePoint>>)
    ensures EncodeFields(fields, seen).Ok? <==> Acceptable(fields, seen)
    decreases fields
  {
    hide EncodeField, Pow, IsAscii;
    if fields != [] {
      var f, tail := fields[0], fields[1..];
      assert fields == [f] + tail;
      if FieldFine(f) && f.name.value !in seen {
        AcceptedExactly(tail, seen + {f.name.value});
        AcceptableSplits(f, tail, seen);
      } else {
        assert f in fields;
      }
    }
  }

  lemma {:induction false} AcceptableSplits(f: Field, tail: seq<Field>, seen: set<seq<CodePoint>>)
    requires FieldFine(f) && f.name.value !in seen
    ensures Acceptable([f] + tail, seen) <==> Acceptable(tail, seen + {f.name.value})
  {
    hide EncodeField, NameError;
    var fields := [f] + tail;
    if Acceptable(fields, seen) {
      forall g | g in tail ensures FieldFine(g) && g.name.value !in seen + {f.name.value} {
        assert g in fields;
        var j :| 0 <= j < |tail| && tail[j] == g;
        assert fields[j + 1] == g && fields[0] == f;
        SameName(f, g);
      }
      forall i, j | 0 <= i < j < |tail| ensures tail[i].name != tail[j].name {
        assert fields[i + 1] == tail[i] && fields[j + 1] == tail[j];
      }
    }
    if Acceptable(tail, seen + {f.name.value}) {
      forall i, j | 0 <= i < j < |fields| ensures fields[i].name != fields[j].name {
        assert fields[j] == tail[j - 1] && tail[j - 1] in tail;
        if i > 0 { assert fields[i] == tail[i - 1]; }
      }
    }
  }

  lemma {:induction false} SameName(f: Field, g: Field)
    requires FieldFine(f) && FieldFine(g) && f.name != g.name
    ensures f.name.value != g.name.value
  {
  }

  lemma {:induction false} NormalMembers(fields: seq<Field>, seen: set<seq<CodePoint>>)
    requires EncodeFields(fields, seen).Ok?
    ensures forall f :: f in fields ==> FieldFine(f) && NormalField(f) in NormalFields(fields, seen)
    ensures forall m :: m in NormalFields(fields, seen) ==> exists f :: f in fields && FieldFine(f) && m == NormalField(f)
    decreases fields
  {
    hide EncodeField, NormalForm, Pow, IsAscii, NormalField;
    if fields != [] {
      var name := fields[0].name.value;
      var m, tail := NormalFields(fields, seen), NormalFields(fields[1..], seen + {name});
      NormalMembers(fields[1..], seen + {name});
      assert m == [NormalField(fields[0])] + tail && fields == [fields[0]] + fields[1..];
      assert FieldFine(fields[0]);
    }
  }

  /** Rearranging the entries of a mapping changes neither whether it is accepted
      nor, then, a single byte of its encoding. */
  lemma {:induction false} FieldOrderIrrelevant(a: seq<Field>, b: seq<Field>)
    requires multiset(a) == multiset(b)
    ensures ObjectPayload(a).Ok? <==> ObjectPayload(b).Ok?
    ensures ObjectPayload(a).Ok? ==> ObjectPayload(a) == ObjectPayload(b)
  {
    hide EncodeFields, Sort, Body, Acceptable, NormalFields, FieldFine;
    AcceptedExactly(a, {});
    AcceptedExactly(b, {});
    if Acceptable(a, {}) { RearrangedAcceptable(a, b); } else if Acceptable(b, {}) { RearrangedAcceptable(b, a); }
    assert |multiset(a)| == |a| && |multiset(b)| == |b|;
    if Acceptable(a, {}) {
      EncodedCount(a, {});
      EncodedCount(b, {});
    }
    if ObjectPayload(a).Ok? {
      NormalMembers(a, {});
      NormalMembers(b, {});
      forall f ensures f in a <==> f in b { assert f in multiset(a) <==> f in multiset(b); }
      assert Entries(a) == Entries(b);
      MappingIdentity(a, b);
    }
  }

  lemma {:induction false} EncodedCount(fields: seq<Field>, seen: set<seq<CodePoint>>)
    requires EncodeFields(fields, seen).Ok?
    ensures |EncodeFields(fields, seen).value| == |fields|
    decreases fields
  {
    if fields != [] { EncodedCount(fields[1..], seen + {fields[0].name.value}); }
  }

  lemma {:induction false} RearrangedAcceptable(a: seq<Field>, b: seq<Field>)
    requires multiset(a) == multiset(b) && Acceptable(a, {})
    ensures Acceptable(b, {})
  {
    hide FieldFine;
    NoDuplicatesByCount(a);
    NoDuplicatesByCount(b);
    forall f | f in b ensures f in a { assert f in multiset(b); }
    forall f | f in b ensures multiset(b)[f] == 1 { assert f in a; }
    assert NoDuplicates(b);
    forall i, j | 0 <= i < j < |b| ensures b[i].name != b[j].name {
      var k :| 0 <= k < |a| && a[k] == b[i];
      var l :| 0 <= l < |a| && a[l] == b[j];
      if k < l { assert a[k].name != a[l].name; } else { assert k != l; assert a[l].name != a[k].name; }
    }
  }

  /** A digest input determines its domain and the meaning of its object, and is
      determined by them. */
  lemma {:induction false} DigestInputIdentity(da: Option<seq<CodePoint>>, a: Value, db: Option<seq<CodePoint>>, b: Value)
    requires DigestInput(da, a).Ok? && DigestInput(db, b).Ok?
    ensures DigestInput(da, a) == DigestInput(db, b) <==> da == db && Entries(a.fields) == Entries(b.fields)
  {
    hide ObjectPayload, Entries, Utf8;
    var pa, pb := ObjectPayload(a.fields).value, ObjectPayload(b.fields).value;
    var ua, ub := Utf8(da.value), Utf8(db.value);
    Utf8KeepsNulOut(da.value);
    Utf8KeepsNulOut(db.value);
    Utf8ReadsBack(da.value);
    Utf8ReadsBack(db.value);
    MappingIdentity(a.fields, b.fields);
    if DigestInput(da, a) == DigestInput(db, b) { SplitAtNul(ua, pa, ub, pb); }
  }

  lemma {:induction false} SplitAtNul(ua: seq<Byte>, pa: seq<Byte>, ub: seq<Byte>, pb: seq<Byte>)
    requires 0 !in ua && 0 !in ub && ua + [0] + pa == ub + [0] + pb
    ensures ua == ub && pa == pb
  {
    var s, t := ua + [0] + pa, ub + [0] + pb;
    assert s[|ua|] == 0 && t[|ub|] == 0;
    assert |ua| == |ub|;
    assert ua == s[..|ua|] && ub == t[..|ub|] && pa == s[|ua| + 1..] && pb == t[|ub| + 1..];
  }
}
