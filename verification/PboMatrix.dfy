/** Trial-by-fold score matrices and the digest that binds their content. */
module PboMatrix {
  import opened Canonical
  import opened CanonicalIdentity
  import opened Cscv
  import opened DecimalText
  import opened Digits
  import opened Octets
  import opened Ordering
  import opened Outcomes

  datatype Direction = Ascending | Descending

  /** A recorded score; only finite decimals are usable. */
  datatype Score = Exact(d: Decimal) | NotADecimal {
    predicate Usable() { Exact? && d.Finite? }
  }

  datatype ScoreRow = ScoreRow(trialId: Id, foldId: Id, score: Score)

  predicate PairLe(a: ScoreRow, b: ScoreRow) {
    if a.trialId == b.trialId then LexLe(a.foldId, b.foldId) else LexLe(a.trialId, b.trialId)
  }

  predicate AllUsable(rows: seq<ScoreRow>) {
    forall i :: 0 <= i < |rows| ==> rows[i].score.Usable()
  }

  function Points(s: string): (p: seq<CodePoint>)
    ensures |p| == |s|
  {
    if s == "" then [] else [s[0] as int] + Points(s[1..])
  }

  function Named(name: string, v: Value): Field { Field(Some(Points(name)), v) }

  function Texts(ids: seq<Id>): (r: seq<Value>)
    ensures |r| == |ids|
  {
    if ids == [] then [] else [Text(ids[0])] + Texts(ids[1..])
  }

  function RowValue(row: ScoreRow): Value {
    Mapping([Named("fold_id", Text(row.foldId)),
             Named("score", if row.score.Exact? then Number(row.score.d) else Unsupported),
             Named("trial_id", Text(row.trialId))])
  }

  function RowValues(rows: seq<ScoreRow>): (r: seq<Value>)
    ensures |r| == |rows|
    ensures forall i :: 0 <= i < |rows| ==> r[i] == RowValue(rows[i])
  {
    if rows == [] then [] else [RowValue(rows[0])] + RowValues(rows[1..])
  }

  function MatrixObject(profileHash: Digest, foldIds: seq<Id>, trialIds: seq<Id>, direction: Direction, rows: seq<ScoreRow>): Value {
    Mapping([Named("fold_ids", Sequence(Texts(foldIds))),
             Named("profile_hash", Binary(BigEndian(profileHash, 32))),
             Named("score_direction", Text(Points(if direction.Ascending? then "ASC" else "DESC"))),
             Named("scores", Sequence(RowValues(Sort(rows, PairLe)))),
             Named("trial_ids", Sequence(Texts(trialIds)))])
  }

  /** The bytes whose hash is the matrix digest; rows are sorted first, so their
      incoming order cannot matter. */
  function MatrixInput(profileHash: Digest, foldIds: seq<Id>, trialIds: seq<Id>, direction: Direction, rows: seq<ScoreRow>)
    : Result<seq<Byte>, CanonError>
  {
    if !AllUsable(rows) then Err(Scalar(NotFinite))
    else DigestInput(Some(Points("AF:PBO:MATRIX:1")), MatrixObject(profileHash, foldIds, trialIds, direction, rows))
  }

  // ---------------------------------------------------------------- row order

  ghost predicate DistinctPairs(rows: seq<ScoreRow>) {
    forall i, j :: 0 <= i < j < |rows| ==> (rows[i].trialId, rows[i].foldId) != (rows[j].trialId, rows[j].foldId)
  }

  lemma {:induction false} PairLeIsPreorder()
    ensures Preorder(PairLe)
  {
    hide LexLe;
    forall x: ScoreRow, y: ScoreRow ensures PairLe(x, y) || PairLe(y, x) {
      LexConnected(x.trialId, y.trialId);
      LexConnected(x.foldId, y.foldId);
    }
    forall x: ScoreRow, y: ScoreRow, z: ScoreRow | PairLe(x, y) && PairLe(y, z) ensures PairLe(x, z) {
      if x.trialId == y.trialId && y.trialId == z.trialId {
        LexTransitive(x.foldId, y.foldId, z.foldId);
      } else if x.trialId != y.trialId && y.trialId != z.trialId {
        LexTransitive(x.trialId, y.trialId, z.trialId);
        if x.trialId == z.trialId { LexAntisymmetric(x.trialId, y.trialId); }
      }
    }
  }

  lemma {:induction false} TiedPairs(rows: seq<ScoreRow>)
    requires DistinctPairs(rows)
    ensures forall x, y :: x in rows && y in rows && PairLe(x, y) && PairLe(y, x) ==> x == y
  {
    hide LexLe;
    forall x, y | x in rows && y in rows && PairLe(x, y) && PairLe(y, x) ensures x == y {
      if x.trialId != y.trialId { LexAntisymmetric(x.trialId, y.trialId); }
      LexAntisymmetric(x.foldId, y.foldId);
      var i :| 0 <= i < |rows| && rows[i] == x;
      var j :| 0 <= j < |rows| && rows[j] == y;
      SamePair(rows, i, j);
    }
  }

  lemma {:induction false} SamePair(rows: seq<ScoreRow>, i: nat, j: nat)
    requires DistinctPairs(rows) && i < |rows| && j < |rows|
    requires rows[i].trialId == rows[j].trialId && rows[i].foldId == rows[j].foldId
    ensures i == j
  {
  }

  /** Rearranging rows whose pairs are distinct leaves the digest input alone. */
  lemma {:induction false} RowOrderIrrelevant(profileHash: Digest, foldIds: seq<Id>, trialIds: seq<Id>, direction: Direction,
                                              a: seq<ScoreRow>, b: seq<ScoreRow>)
    requires DistinctPairs(a) && multiset(a) == multiset(b)
    ensures MatrixInput(profileHash, foldIds, trialIds, direction, a) == MatrixInput(profileHash, foldIds, trialIds, direction, b)
  {
    hide Sort, DigestInput, LexLe;
    TiedPairs(a);
    PairLeIsPreorder();
    SortForgetsOrder(a, b, PairLe);
    forall r ensures r in a <==> r in b { assert r in multiset(a) <==> r in multiset(b); }
    assert AllUsable(a) <==> AllUsable(b) by { UsableMembers(a); UsableMembers(b); }
  }

  lemma {:induction false} UsableMembers(rows: seq<ScoreRow>)
    ensures AllUsable(rows) <==> forall r :: r in rows ==> r.score.Usable()
  {
    if AllUsable(rows) {
    } else {
      var i :| 0 <= i < |rows| && !rows[i].score.Usable();
      assert rows[i] in rows;
    }
  }

  // ---------------------------------------------------------------- what the digest input determines

  /** Equal identity, entry by entry: same pairs, numerically equal scores. */
  ghost predicate SameRow(a: ScoreRow, b: ScoreRow)
    requires a.score.Usable() && b.score.Usable()
  {
    a.trialId == b.trialId && a.foldId == b.foldId && SameNumber(a.score.d, b.score.d)
  }

  ghost predicate SameRows(a: seq<ScoreRow>, b: seq<ScoreRow>)
    requires AllUsable(a) && AllUsable(b)
  {
    |a| == |b| && forall i :: 0 <= i < |a| ==> SameRow(a[i], b[i])
  }

  /** Fields of the same name in two mappings of one meaning mean the same. */
  lemma {:induction false} NamedFieldsAgree(a: seq<Field>, b: seq<Field>, i: nat, j: nat)
    requires EncodeFields(a, {}).Ok? && EncodeFields(b, {}).Ok?
    requires forall m :: m in NormalFields(a, {}) ==> m in NormalFields(b, {})
    requires i < |a| && j < |b| && a[i].name == b[j].name
    ensures EncodeValue(a[i].value).Ok? && EncodeValue(b[j].value).Ok?
    ensures NormalForm(a[i].value) == NormalForm(b[j].value)
  {
    hide EncodeFields, NormalFields, EncodeValue, NormalForm, NameError;
    NormalMembers(a, {});
    NormalMembers(b, {});
    assert a[i] in a && b[j] in b;
    assert FieldFine(a[i]) && FieldFine(b[j]);
    var m := NormalField(a[i]);
    assert m in NormalFields(b, {});
    NamesAreDistinct(b, {});
    var n := NormalField(b[j]);
    assert m.name == n.name;
    var fb := NormalFields(b, {});
    var p :| 0 <= p < |fb| && fb[p] == m;
    var q :| 0 <= q < |fb| && fb[q] == n;
    assert p == q;
  }

  lemma {:induction false} NormalFieldAt(fields: seq<Field>, seen: set<seq<CodePoint>>, i: nat)
    requires EncodeFields(fields, seen).Ok? && i < |fields|
    ensures FieldFine(fields[i]) && NormalFields(fields, seen)[i] == NormalField(fields[i])
    decreases fields
  {
    hide EncodeField, NormalField, Pow, IsAscii;
    if i > 0 {
      var later := seen + {fields[0].name.value};
      NormalFieldAt(fields[1..], later, i - 1);
      assert NormalFields(fields, seen) == [NormalField(fields[0])] + NormalFields(fields[1..], later);
    }
  }

  /** Mappings whose fields agree in name and meaning, place by place, mean the same. */
  lemma {:induction false} SameFieldsSameEntries(a: seq<Field>, b: seq<Field>)
    requires EncodeFields(a, {}).Ok? && EncodeFields(b, {}).Ok? && |a| == |b|
    requires forall i :: 0 <= i < |a| ==> a[i].name == b[i].name
    requires forall i :: 0 <= i < |a| ==> EncodeValue(a[i].value).Ok? && EncodeValue(b[i].value).Ok?
    requires forall i :: 0 <= i < |a| ==> NormalForm(a[i].value) == NormalForm(b[i].value)
    ensures Entries(a) == Entries(b)
  {
    hide EncodeFields, NormalFields, EncodeValue, NormalForm, NameError;
    forall i | 0 <= i < |a| ensures NormalFields(a, {})[i] == NormalFields(b, {})[i] {
      NormalFieldAt(a, {}, i);
      NormalFieldAt(b, {}, i);
    }
    assert NormalFields(a, {}) == NormalFields(b, {});
  }

  lemma {:induction false} MappingParts(fields: seq<Field>)
    requires EncodeValue(Mapping(fields)).Ok?
    ensures ObjectPayload(fields).Ok? && EncodeFields(fields, {}).Ok?
    ensures NormalForm(Mapping(fields)) == CMapping(Sort(NormalFields(fields, {}), CanonLe))
    ensures forall i :: 0 <= i < |fields| ==> fields[i].name.Some? && EncodeValue(fields[i].value).Ok?
  {
    hide EncodeFields, NormalFields, Pow, Frame, NameError;
    assert ValueParts(Mapping(fields)).Ok?;
    assert ObjectPayload(fields).Ok?;
    forall i | 0 <= i < |fields| ensures fields[i].name.Some? && EncodeValue(fields[i].value).Ok? {
      NormalFieldAt(fields, {}, i);
    }
  }

  lemma {:induction false} ScalarMeanings(row: ScoreRow)
    requires row.score.Usable()
    ensures EncodeValue(Text(row.trialId)).Ok? ==> NormalForm(Text(row.trialId)) == CText(row.trialId)
    ensures EncodeValue(Text(row.foldId)).Ok? ==> NormalForm(Text(row.foldId)) == CText(row.foldId)
    ensures EncodeValue(Number(row.score.d)).Ok? ==> NormalForm(Number(row.score.d)) == CNumber(FixedOf(row.score.d))
  {
    hide FixedOf, Utf8, FixedText, Pow, Frame;
  }

  /** A row's encoded meaning is its pair and the number it scores. */
  lemma {:induction false} RowMeaning(x: ScoreRow, y: ScoreRow)
    requires x.score.Usable() && y.score.Usable()
    requires EncodeValue(RowValue(x)).Ok? && EncodeValue(RowValue(y)).Ok?
    ensures NormalForm(RowValue(x)) == NormalForm(RowValue(y)) <==> SameRow(x, y)
  {
    hide EncodeValue, NormalForm, EncodeFields, NormalFields, Points, SameNumber, FixedOf, Sort, ObjectPayload;
    var fx, fy := RowValue(x).fields, RowValue(y).fields;
    MappingParts(fx);
    MappingParts(fy);
    ScalarMeanings(x);
    ScalarMeanings(y);
    FixedOfIsTheNumber(x.score.d, y.score.d);
    assert fx[0].value == Text(x.foldId) && fx[1].value == Number(x.score.d) && fx[2].value == Text(x.trialId);
    assert fy[0].value == Text(y.foldId) && fy[1].value == Number(y.score.d) && fy[2].value == Text(y.trialId);
    if NormalForm(RowValue(x)) == NormalForm(RowValue(y)) {
      SortMembers(NormalFields(fx, {}), CanonLe);
      SortMembers(NormalFields(fy, {}), CanonLe);
      NamedFieldsAgree(fx, fy, 0, 0);
      NamedFieldsAgree(fx, fy, 1, 1);
      NamedFieldsAgree(fx, fy, 2, 2);
    }
    if SameRow(x, y) {
      SameFieldsSameEntries(fx, fy);
      MappingIdentity(fx, fy);
      SameEntriesSameForm(fx, fy);
    }
  }

  lemma {:induction false} SameEntriesSameForm(a: seq<Field>, b: seq<Field>)
    requires EncodeValue(Mapping(a)).Ok? && EncodeValue(Mapping(b)).Ok?
    requires ObjectPayload(a).Ok? && ObjectPayload(a) == ObjectPayload(b)
    ensures NormalForm(Mapping(a)) == NormalForm(Mapping(b))
  {
    hide NormalForm, ObjectPayload, Pow, Frame;
    assert ValueParts(Mapping(a)) == ValueParts(Mapping(b));
    IdentityIsMeaning(Mapping(a), Mapping(b));
  }

  lemma {:induction false} ItemAt(items: seq<Value>, i: nat)
    requires EncodeItems(items).Ok? && i < |items|
    ensures EncodeValue(items[i]).Ok? && NormalItems(items)[i] == NormalForm(items[i])
    decreases items
  {
    hide EncodeValue, NormalForm;
    if i > 0 { ItemAt(items[1..], i - 1); }
  }

  lemma {:induction false} RowsMeaning(a: seq<ScoreRow>, b: seq<ScoreRow>)
    requires AllUsable(a) && AllUsable(b)
    requires EncodeItems(RowValues(a)).Ok? && EncodeItems(RowValues(b)).Ok?
    ensures NormalItems(RowValues(a)) == NormalItems(RowValues(b)) <==> SameRows(a, b)
  {
    hide EncodeItems, NormalItems, RowValue, EncodeValue, NormalForm, SameRow;
    var va, vb := RowValues(a), RowValues(b);
    if |a| == |b| {
      forall i | 0 <= i < |a| ensures NormalItems(va)[i] == NormalItems(vb)[i] <==> SameRow(a[i], b[i]) {
        ItemAt(va, i);
        ItemAt(vb, i);
        RowMeaning(a[i], b[i]);
      }
      if SameRows(a, b) { assert NormalItems(va) == NormalItems(vb); }
    }
  }

  lemma {:induction false} SequenceParts(items: seq<Value>)
    requires EncodeValue(Sequence(items)).Ok?
    ensures EncodeItems(items).Ok? && NormalForm(Sequence(items)) == CSequence(NormalItems(items))
  {
    hide EncodeItems, NormalItems, Pow, Frame;
    assert ValueParts(Sequence(items)).Ok?;
  }

  lemma {:induction false} DigestFields(domain: Option<seq<CodePoint>>, fields: seq<Field>)
    requires DigestInput(domain, Mapping(fields)).Ok?
    ensures ObjectPayload(fields).Ok? && EncodeFields(fields, {}).Ok?
    ensures forall i :: 0 <= i < |fields| ==> fields[i].name.Some? && EncodeValue(fields[i].value).Ok?
  {
    hide EncodeFields, NormalFields, EncodeValue, NameError;
    assert ObjectPayload(fields).Ok?;
    forall i | 0 <= i < |fields| ensures fields[i].name.Some? && EncodeValue(fields[i].value).Ok? {
      NormalFieldAt(fields, {}, i);
    }
  }

  lemma {:induction false} SortUsable(rows: seq<ScoreRow>)
    ensures AllUsable(Sort(rows, PairLe)) <==> AllUsable(rows)
  {
    SortMembers(rows, PairLe);
    UsableMembers(rows);
    UsableMembers(Sort(rows, PairLe));
  }

  /** Under fixed membership and direction, digest inputs are equal exactly when
      the sorted rows carry the same pairs and numerically the same scores. */
  lemma {:induction false} DigestInputIsRows(profileHash: Digest, foldIds: seq<Id>, trialIds: seq<Id>, direction: Direction,
                                             a: seq<ScoreRow>, b: seq<ScoreRow>)
    requires MatrixInput(profileHash, foldIds, trialIds, direction, a).Ok?
    requires MatrixInput(profileHash, foldIds, trialIds, direction, b).Ok?
    ensures AllUsable(Sort(a, PairLe)) && AllUsable(Sort(b, PairLe))
    ensures MatrixInput(profileHash, foldIds, trialIds, direction, a) == MatrixInput(profileHash, foldIds, trialIds, direction, b)
       <==> SameRows(Sort(a, PairLe), Sort(b, PairLe))
  {
    hide EncodeValue, NormalForm, EncodeFields, NormalFields, Points, Sort, DigestInput, RowValues, SameRows, ObjectPayload, Texts, BigEndian;
    SortUsable(a);
    SortUsable(b);
    var domain := Some(Points("AF:PBO:MATRIX:1"));
    var oa := MatrixObject(profileHash, foldIds, trialIds, direction, a);
    var ob := MatrixObject(profileHash, foldIds, trialIds, direction, b);
    DigestFields(domain, oa.fields);
    DigestFields(domain, ob.fields);
    DigestInputIdentity(domain, oa, domain, ob);
    var va, vb := RowValues(Sort(a, PairLe)), RowValues(Sort(b, PairLe));
    assert oa.fields[3].value == Sequence(va) && ob.fields[3].value == Sequence(vb);
    SequenceParts(va);
    SequenceParts(vb);
    RowsMeaning(Sort(a, PairLe), Sort(b, PairLe));
    if DigestInput(domain, oa) == DigestInput(domain, ob) {
      EntriesMembers(oa.fields, ob.fields);
      NamedFieldsAgree(oa.fields, ob.fields, 3, 3);
    }
    if SameRows(Sort(a, PairLe), Sort(b, PairLe)) {
      SameFieldsSameEntries(oa.fields, ob.fields);
    }
  }

  lemma {:induction false} EntriesMembers(a: seq<Field>, b: seq<Field>)
    requires EncodeFields(a, {}).Ok? && EncodeFields(b, {}).Ok? && Entries(a) == Entries(b)
    ensures forall m :: m in NormalFields(a, {}) ==> m in NormalFields(b, {})
  {
    hide EncodeFields, NormalFields;
    forall m | m in NormalFields(a, {}) ensures m in NormalFields(b, {}) {
      assert m in Entries(a);
      assert m in Entries(b);
    }
  }

  /** What the matrix digest covers: folds and trials as listed, the profile hash in 32 bytes, "ASC" or "DESC", and
      the rows in their order by trial and fold, each with its fold, score and trial. */
  lemma {:induction false} DigestedValues(profileHash: Digest, foldIds: seq<Id>, trialIds: seq<Id>, direction: Direction, rows: seq<ScoreRow>)
    returns (fields: seq<Field>)
    ensures MatrixObject(profileHash, foldIds, trialIds, direction, rows) == Mapping(fields) && |fields| == 5
    ensures fields[0].value == Sequence(Texts(foldIds)) && fields[1].value == Binary(BigEndian(profileHash, 32))
    ensures fields[2].value == Text(if direction == Ascending then [65, 83, 67] else [68, 69, 83, 67])
    ensures fields[3].value == Sequence(RowValues(Sort(rows, PairLe))) && fields[4].value == Sequence(Texts(trialIds))
  {
    hide Sort, BigEndian, PairLe, Points, RowValue;
    DirectionText();
    fields := MatrixObject(profileHash, foldIds, trialIds, direction, rows).fields;
  }

  lemma {:induction false} DigestedRow(row: ScoreRow) returns (fields: seq<Field>)
    ensures RowValue(row) == Mapping(fields) && |fields| == 3
    ensures fields[0].value == Text(row.foldId) && fields[2].value == Text(row.trialId)
    ensures fields[1].value == if row.score.Exact? then Number(row.score.d) else Unsupported
  {
    hide Points;
    fields := RowValue(row).fields;
  }

  lemma {:induction false} TextsAre(ids: seq<Id>)
    ensures Texts(ids) == seq(|ids|, k requires 0 <= k < |ids| => Text(ids[k]))
  {
    if ids != [] { TextsAre(ids[1..]); }
  }

  lemma {:induction false} DirectionText()
    ensures Points("ASC") == [65, 83, 67] && Points("DESC") == [68, 69, 83, 67]
  {
    assert "ASC"[1..] == "SC" && "SC"[1..] == "C" && "C"[1..] == "";
    assert "DESC"[1..] == "ESC" && "ESC"[1..] == "SC";
  }
}
