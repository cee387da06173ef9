/** Laws of the probability as a whole: what ties and dominance force, mirror
    symmetry, and that the certificate alone fixes the result. */
module PboSymmetry {
  import opened Cscv
  import opened DecimalText
  import opened Digits
  import opened Octets
  import opened Ordering
  import opened Pbo
  import opened PboCertificate
  import opened PboCertification
  import opened PboMatrix
  import opened PboMeaning
  import opened RealArithmetic

  // ---------------------------------------------------------------- results that rest on the cells alone

  function Signed(mirrored: bool, x: real): real { if mirrored then -x else x }

  function Facing(mirrored: bool, direction: Direction): Direction {
    if !mirrored then direction else if direction.Ascending? then Descending else Ascending
  }

  /** The second table holds the first one's numbers, all negated when mirrored. */
  ghost predicate SameCells(a: seq<ScoreRow>, b: seq<ScoreRow>, trialIds: seq<Id>, foldIds: seq<Id>, mirrored: bool) {
    forall t, f :: t in trialIds && f in foldIds ==> Cell(b, t, f) == Signed(mirrored, Cell(a, t, f))
  }

  lemma {:induction false} TotalsAgree(a: seq<ScoreRow>, b: seq<ScoreRow>, t: Id, foldIds: seq<Id>, mirrored: bool)
    requires forall f :: f in foldIds ==> Cell(b, t, f) == Signed(mirrored, Cell(a, t, f))
    ensures Total(b, t, foldIds) == Signed(mirrored, Total(a, t, foldIds))
  {
    hide Cell;
    if foldIds != [] {
      TotalsAgree(a, b, t, foldIds[1..], mirrored);
      assert foldIds[0] in foldIds;
    }
  }

  lemma {:induction false} NegatedQuotient(x: real, n: real)
    requires n > 0.0
    ensures (-x) / n == -(x / n)
  {
  }

  lemma {:induction false} MeansAgree(a: seq<ScoreRow>, b: seq<ScoreRow>, t: Id, foldIds: seq<Id>, mirrored: bool)
    requires foldIds != [] && forall f :: f in foldIds ==> Cell(b, t, f) == Signed(mirrored, Cell(a, t, f))
    ensures Mean(b, t, foldIds) == Signed(mirrored, Mean(a, t, foldIds))
  {
    hide Cell, Total;
    TotalsAgree(a, b, t, foldIds, mirrored);
    NegatedQuotient(Total(a, t, foldIds), |foldIds| as real);
  }

  lemma {:induction false} StandingsAgree(a: seq<ScoreRow>, b: seq<ScoreRow>, trialIds: seq<Id>, foldIds: seq<Id>, negated: bool, mirrored: bool)
    requires foldIds != [] && SameCells(a, b, trialIds, foldIds, mirrored)
    ensures Standings(b, trialIds, foldIds, if mirrored then !negated else negated) == Standings(a, trialIds, foldIds, negated)
  {
    hide Cell, Mean;
    forall i | 0 <= i < |trialIds| ensures Mean(b, trialIds[i], foldIds) == Signed(mirrored, Mean(a, trialIds[i], foldIds)) {
      MeansAgree(a, b, trialIds[i], foldIds, mirrored);
    }
  }

  /** Selection, rank and verdict of one partition are unmoved; the two means change sign with the table. */
  lemma {:induction false} OutcomesAgree(a: seq<ScoreRow>, b: seq<ScoreRow>, trialIds: seq<Id>, direction: Direction,
                                         p: Partition, mirrored: bool)
    requires trialIds != [] && p.inSample != [] && p.outOfSample != []
    requires SameCells(a, b, trialIds, p.inSample, mirrored) && SameCells(a, b, trialIds, p.outOfSample, mirrored)
    ensures var o := OutcomeOf(a, trialIds, direction, p);
      OutcomeOf(b, trialIds, Facing(mirrored, direction), p)
      == o.(inSample := Signed(mirrored, o.inSample), outOfSample := Signed(mirrored, o.outOfSample))
  {
    hide Cell, Mean, Sort, Least, PlaceOf, Standings;
    StandingsAgree(a, b, trialIds, p.inSample, direction.Descending?, mirrored);
    StandingsAgree(a, b, trialIds, p.outOfSample, direction.Ascending?, mirrored);
    var selected := BestTrial(a, trialIds, p.inSample, direction);
    MeansAgree(a, b, selected, p.inSample, mirrored);
    MeansAgree(a, b, selected, p.outOfSample, mirrored);
  }

  /** Two calculations side by side: the same selections, ranks, verdicts and probability. */
  ghost predicate SameResults(r: PboResult, q: PboResult, mirrored: bool) {
    && |r.outcomes| == |q.outcomes|
    && (forall i :: 0 <= i < |r.outcomes| ==>
          q.outcomes[i] == r.outcomes[i].(inSample := Signed(mirrored, r.outcomes[i].inSample),
                                         outOfSample := Signed(mirrored, r.outcomes[i].outOfSample)))
    && q.overfitCount == r.overfitCount && q.partitionCount == r.partitionCount && q.probability == r.probability
  }

  lemma {:induction false} CountsAgree(a: seq<Outcome>, b: seq<Outcome>)
    requires |a| == |b| && forall i :: 0 <= i < |a| ==> a[i].overfit == b[i].overfit
    ensures OverfitCount(a) == OverfitCount(b)
  {
    if a != [] { CountsAgree(a[..|a| - 1], b[..|b| - 1]); }
  }

  lemma {:induction false} SideCells(a: seq<ScoreRow>, b: seq<ScoreRow>, trialIds: seq<Id>, foldIds: seq<Id>, mirrored: bool, i: nat)
    requires Usable(foldIds) && i < |Halves(foldIds)| && SameCells(a, b, trialIds, foldIds, mirrored)
    ensures SameCells(a, b, trialIds, PartitionAt(foldIds, i).inSample, mirrored)
    ensures SameCells(a, b, trialIds, PartitionAt(foldIds, i).outOfSample, mirrored)
  {
    hide Cell, PartitionAt;
    SidesSplitFolds(foldIds, i);
    SidesOf(foldIds, i);
  }

  lemma {:induction false} OutcomeAgrees(x: Outcome, y: Outcome, a: seq<ScoreRow>, b: seq<ScoreRow>, trialIds: seq<Id>,
                                         foldIds: seq<Id>, direction: Direction, mirrored: bool, i: nat)
    requires Usable(foldIds) && trialIds != [] && i < |Halves(foldIds)| && SameCells(a, b, trialIds, foldIds, mirrored)
    requires OutcomeIs(x, a, trialIds, foldIds, direction, i)
    requires OutcomeIs(y, b, trialIds, foldIds, Facing(mirrored, direction), i)
    ensures y == x.(inSample := Signed(mirrored, x.inSample), outOfSample := Signed(mirrored, x.outOfSample))
  {
    hide SameCells, PartitionAt, OutcomeOf, Facing, Signed;
    SideCells(a, b, trialIds, foldIds, mirrored, i);
    SidesSplitFolds(foldIds, i);
    SidesOf(foldIds, i);
    OutcomesAgree(a, b, trialIds, direction, PartitionAt(foldIds, i), mirrored);
  }

  /** Negating every score and flipping the direction leaves every selection,
      rank, verdict and the probability alone; so does rewriting equal numbers. */
  lemma {:induction false} CellsDecide(r: PboResult, q: PboResult, a: seq<ScoreRow>, b: seq<ScoreRow>, trialIds: seq<Id>,
                                       foldIds: seq<Id>, direction: Direction, mirrored: bool)
    requires Usable(foldIds) && trialIds != [] && SameCells(a, b, trialIds, foldIds, mirrored)
    requires Calculated(r, a, trialIds, foldIds, direction)
    requires Calculated(q, b, trialIds, foldIds, Facing(mirrored, direction))
    ensures SameResults(r, q, mirrored)
  {
    hide SameCells, OutcomeIs, Facing, Signed, OverfitCount;
    forall i | 0 <= i < |r.outcomes|
      ensures q.outcomes[i] == r.outcomes[i].(inSample := Signed(mirrored, r.outcomes[i].inSample),
                                             outOfSample := Signed(mirrored, r.outcomes[i].outOfSample))
    {
      OutcomeAgrees(r.outcomes[i], q.outcomes[i], a, b, trialIds, foldIds, direction, mirrored, i);
    }
    CountsAgree(r.outcomes, q.outcomes);
  }

  // ---------------------------------------------------------------- ties and dominance

  lemma {:induction false} Shares(r: PboResult, rows: seq<ScoreRow>, trialIds: seq<Id>, foldIds: seq<Id>, direction: Direction, verdict: bool)
    requires Usable(foldIds) && trialIds != [] && Calculated(r, rows, trialIds, foldIds, direction)
    requires forall i :: 0 <= i < |r.outcomes| ==> r.outcomes[i].overfit == verdict
    ensures r.probability == if verdict then 1.0 else 0.0
  {
    hide OutcomeIs, OverfitCount;
    Uniform(r.outcomes, verdict);
    WholeShare(r.partitionCount);
  }

  lemma {:induction false} WholeShare(n: nat)
    requires n > 0
    ensures n as real / n as real == 1.0 && 0 as real / n as real == 0.0
  {
    var share := n as real / n as real;
    assert share * n as real == n as real;
  }

  lemma {:induction false} Uniform(outcomes: seq<Outcome>, verdict: bool)
    requires forall i :: 0 <= i < |outcomes| ==> outcomes[i].overfit == verdict
    ensures OverfitCount(outcomes) == if verdict then |outcomes| else 0
  {
    if outcomes != [] { Uniform(outcomes[..|outcomes| - 1], verdict); }
  }

  /** Every trial scores alike on every fold. */
  ghost predicate AllTied(rows: seq<ScoreRow>, trialIds: seq<Id>, foldIds: seq<Id>) {
    forall t, u, f :: t in trialIds && u in trialIds && f in foldIds ==> Cell(rows, t, f) == Cell(rows, u, f)
  }

  lemma {:induction false} TiedTotals(rows: seq<ScoreRow>, t: Id, u: Id, foldIds: seq<Id>)
    requires forall f :: f in foldIds ==> Cell(rows, t, f) == Cell(rows, u, f)
    ensures Total(rows, t, foldIds) == Total(rows, u, foldIds)
  {
    hide Cell;
    if foldIds != [] {
      TiedTotals(rows, t, u, foldIds[1..]);
      assert foldIds[0] in foldIds;
    }
  }

  /** Among tied trials the smallest identifier wins in sample and ranks last out of sample. */
  lemma {:induction false} TiedRank(rows: seq<ScoreRow>, trialIds: seq<Id>, direction: Direction, p: Partition)
    requires NoDuplicates(trialIds) && trialIds != [] && p.inSample != [] && p.outOfSample != []
    requires AllTied(rows, trialIds, p.inSample) && AllTied(rows, trialIds, p.outOfSample)
    ensures OutcomeOf(rows, trialIds, direction, p).rank == 1
  {
    hide Cell, IdLe, BestTrial, Rank, Total;
    var best := BestTrial(rows, trialIds, p.inSample, direction);
    var below := set x | x in trialIds && Below(rows, p.outOfSample, direction, x, best);
    RankCounts(rows, trialIds, p.outOfSample, direction, best);
    forall x | x in trialIds ensures !Below(rows, p.outOfSample, direction, x, best) {
      TiedTotals(rows, x, best, p.inSample);
      TiedTotals(rows, x, best, p.outOfSample);
      SelectedIsBest(rows, trialIds, p.inSample, direction, x);
      if IdLe(x, best) { IdsTie(x, best); }
    }
    assert below == {};
  }

  lemma {:induction false} IdsTie(a: Id, b: Id)
    requires IdLe(a, b) && IdLe(b, a)
    ensures a == b
  {
    LexAntisymmetric(a, b);
  }

  /** A matrix of ties is certain to be overfit, unless only one trial competes. */
  lemma {:induction false} TiesMeanCertainOverfit(r: PboResult, rows: seq<ScoreRow>, trialIds: seq<Id>, foldIds: seq<Id>, direction: Direction)
    requires Usable(foldIds) && NoDuplicates(trialIds) && trialIds != [] && AllTied(rows, trialIds, foldIds)
    requires Calculated(r, rows, trialIds, foldIds, direction)
    ensures r.probability == if |trialIds| >= 2 then 1.0 else 0.0
  {
    hide Cell, OutcomeOf, OverfitCount, PartitionAt;
    forall i | 0 <= i < |r.outcomes| ensures r.outcomes[i].overfit == (|trialIds| >= 2) {
      var p := PartitionAt(foldIds, i);
      SidesSplitFolds(foldIds, i);
      SidesOf(foldIds, i);
      TiedRank(rows, trialIds, direction, p);
      OverfitExactly(rows, trialIds, direction, p);
    }
    Shares(r, rows, trialIds, foldIds, direction, |trialIds| >= 2);
  }

  /** One trial beats every other on every fold. */
  ghost predicate Dominates(rows: seq<ScoreRow>, trialIds: seq<Id>, foldIds: seq<Id>, direction: Direction, d: Id) {
    d in trialIds && forall t, f :: t in trialIds && t != d && f in foldIds ==> Worse(Cell(rows, t, f), Cell(rows, d, f), direction)
  }

  lemma {:induction false} WorseTotals(rows: seq<ScoreRow>, t: Id, d: Id, foldIds: seq<Id>, direction: Direction)
    requires foldIds != [] && forall f :: f in foldIds ==> Worse(Cell(rows, t, f), Cell(rows, d, f), direction)
    ensures Worse(Total(rows, t, foldIds), Total(rows, d, foldIds), direction)
  {
    hide Cell;
    assert foldIds[0] in foldIds;
    if |foldIds| > 1 { WorseTotals(rows, t, d, foldIds[1..], direction); }
  }

  lemma {:induction false} WorseMeans(rows: seq<ScoreRow>, t: Id, d: Id, foldIds: seq<Id>, direction: Direction)
    requires foldIds != [] && forall f :: f in foldIds ==> Worse(Cell(rows, t, f), Cell(rows, d, f), direction)
    ensures Worse(Mean(rows, t, foldIds), Mean(rows, d, foldIds), direction)
  {
    hide Cell, Total;
    WorseTotals(rows, t, d, foldIds, direction);
    var n := |foldIds| as real;
    QuotientTimes(Total(rows, t, foldIds), n);
    QuotientTimes(Total(rows, d, foldIds), n);
    Scale(Mean(rows, t, foldIds), Mean(rows, d, foldIds), n);
    Scale(Mean(rows, d, foldIds), Mean(rows, t, foldIds), n);
  }

  /** A dominating trial is selected everywhere and ranks first everywhere. */
  lemma {:induction false} DominantRank(rows: seq<ScoreRow>, trialIds: seq<Id>, direction: Direction, p: Partition, d: Id)
    requires NoDuplicates(trialIds) && trialIds != [] && p.inSample != [] && p.outOfSample != []
    requires Dominates(rows, trialIds, p.inSample, direction, d) && Dominates(rows, trialIds, p.outOfSample, direction, d)
    ensures var o := OutcomeOf(rows, trialIds, direction, p); o.selected == d && o.rank == |trialIds|
  {
    hide Cell, IdLe, BestTrial, Rank, Mean;
    var best := BestTrial(rows, trialIds, p.inSample, direction);
    SelectedIsBest(rows, trialIds, p.inSample, direction, d);
    if best != d { WorseMeans(rows, best, d, p.inSample, direction); }
    RankCounts(rows, trialIds, p.outOfSample, direction, d);
    var below := set x | x in trialIds && Below(rows, p.outOfSample, direction, x, d);
    forall x | x in trialIds && x != d ensures Below(rows, p.outOfSample, direction, x, d) {
      WorseMeans(rows, x, d, p.outOfSample, direction);
    }
    assert below + {d} == SetOf(trialIds);
    DistinctSize(trialIds);
  }

  /** A trial that dominates on every fold makes overfitting impossible. */
  lemma {:induction false} DominanceMeansNoOverfit(r: PboResult, rows: seq<ScoreRow>, trialIds: seq<Id>, foldIds: seq<Id>,
                                                   direction: Direction, d: Id)
    requires Usable(foldIds) && NoDuplicates(trialIds) && trialIds != [] && Dominates(rows, trialIds, foldIds, direction, d)
    requires Calculated(r, rows, trialIds, foldIds, direction)
    ensures r.probability == 0.0
    ensures forall i :: 0 <= i < |r.outcomes| ==> r.outcomes[i].selected == d
  {
    hide Cell, OutcomeOf, OverfitCount, PartitionAt;
    forall i | 0 <= i < |r.outcomes| ensures r.outcomes[i].selected == d && !r.outcomes[i].overfit {
      var p := PartitionAt(foldIds, i);
      SidesSplitFolds(foldIds, i);
      SidesOf(foldIds, i);
      DominantRank(rows, trialIds, direction, p, d);
      OverfitExactly(rows, trialIds, direction, p);
    }
    Shares(r, rows, trialIds, foldIds, direction, false);
  }

  // ---------------------------------------------------------------- the certificate fixes the result

  lemma {:induction false} RealProduct(a: int, b: nat)
    ensures (a * b) as real == (a as real) * (b as real)
  {
    if b > 0 {
      RealProduct(a, b - 1);
      assert a * b == a * (b - 1) + a;
    }
  }

  lemma {:induction false} PowPositive(k: nat)
    ensures Pow(10, k) > 0
  {
    if k > 0 { PowPositive(k - 1); }
  }

  lemma {:induction false} RealTriple(x: real, y: real, z: real)
    ensures x * (y * z) == (x * y) * z
  {
  }

  /** A decimal's number, scaled by a power of ten that clears its exponent, is its scaled integer. */
  lemma {:induction false} RealScaled(d: Decimal, k: nat)
    requires d.Finite? && k >= Clearing(d)
    ensures RealOf(d) * (Pow(10, k) as real) == Scaled(d, k) as real
  {
    hide Pow, Coefficient;
    var c := Coefficient(d);
    if d.exponent >= 0 {
      PowAdd(10, d.exponent, k);
      MulAssociative(c, Pow(10, d.exponent), Pow(10, k));
      RealProduct(c * Pow(10, d.exponent), Pow(10, k));
    } else {
      var s: nat := -d.exponent;
      PowAdd(10, s, k - s);
      PowPositive(s);
      RealProduct(Pow(10, s), Pow(10, k - s));
      RealProduct(c, Pow(10, k - s));
      QuotientTimes(c as real, Pow(10, s) as real);
      RealTriple(RealOf(d), Pow(10, s) as real, Pow(10, k - s) as real);
    }
  }

  lemma {:induction false} CancelReal(a: real, b: real, y: real)
    requires y > 0.0 && a * y == b * y
    ensures a == b
  {
  }

  /** Decimals compare equal exactly when they denote the same real number. */
  lemma {:induction false} SameNumberSameReal(a: Decimal, b: Decimal)
    requires a.Finite? && b.Finite?
    ensures SameNumber(a, b) <==> RealOf(a) == RealOf(b)
  {
    hide Pow, RealOf, Scaled, Clearing;
    var k := if Clearing(a) < Clearing(b) then Clearing(b) else Clearing(a);
    RealScaled(a, k);
    RealScaled(b, k);
    PowPositive(k);
    if SameNumber(a, b) { CancelReal(RealOf(a), RealOf(b), Pow(10, k) as real); }
  }

  lemma {:induction false} SameRowsSameCell(a: seq<ScoreRow>, b: seq<ScoreRow>, t: Id, f: Id)
    requires AllUsable(a) && AllUsable(b) && SameRows(a, b)
    ensures Cell(a, t, f) == Cell(b, t, f)
  {
    hide RealOf, SameNumber;
    if a != [] {
      assert SameRow(a[0], b[0]);
      SameNumberSameReal(a[0].score.d, b[0].score.d);
      if !(a[0].trialId == t && a[0].foldId == f) { SameRowsSameCell(a[1..], b[1..], t, f); }
    }
  }

  /** A matrix of the full product lacks no cell. */
  lemma {:induction false} CellsPresent(m: Matrix, hash: seq<Byte> -> Digest, t: Id, f: Id)
    requires MatrixAccepted(m, hash) && t in m.trialIds && f in m.foldIds
    ensures var s := ScoreAt(m.scores, t, f); s.Some? && s.value.Usable()
  {
    hide MatrixHash, DigestOf, HasRepeats;
    assert (t, f) in Product(m.trialIds, m.foldIds);
    assert (t, f) in PairsOf(m.scores);
    var r :| r in m.scores && (r.trialId, r.foldId) == (t, f);
    ScoreFound(m.scores, r);
  }

  lemma {:induction false} ScoreFound(rows: seq<ScoreRow>, r: ScoreRow)
    requires AllUsable(rows) && r in rows
    ensures var s := ScoreAt(rows, r.trialId, r.foldId); s.Some? && s.value.Usable()
  {
    if !(rows[0].trialId == r.trialId && rows[0].foldId == r.foldId) { ScoreFound(rows[1..], r); }
  }

  /** Any two score lists that build against one certificate, in whatever order
      and notation, give the same probability, or exhibit a hash collision. */
  lemma {:induction false} CertificateFixesResult(c: Certificate, run: SearchRun, profile: Profile, policy: Policy,
                                                  rows: seq<ScoreRow>, offered: seq<ScoreRow>,
                                                  hash: seq<Byte> -> Digest, identity: Certificate -> Digest,
                                                  r: PboResult, q: PboResult)
    requires Certified(c, run, profile, policy, rows, hash)
    requires var m := BuildTrialFoldMatrix(c, rows, c.scoreDirection, hash, identity);
      m.Ok? && Usable(m.value.foldIds) && m.value.trialIds != []
      && Calculated(r, m.value.scores, m.value.trialIds, m.value.foldIds, m.value.direction)
    requires var m := BuildTrialFoldMatrix(c, offered, c.scoreDirection, hash, identity);
      m.Ok? && Usable(m.value.foldIds) && m.value.trialIds != []
      && Calculated(q, m.value.scores, m.value.trialIds, m.value.foldIds, m.value.direction)
    ensures SameResults(r, q, false)
         || (RowsInput(c, rows) != RowsInput(c, offered)
             && DigestOf(RowsInput(c, rows), hash) == DigestOf(RowsInput(c, offered), hash))
  {
    hide Sort, MatrixInput, PairLe, MatrixAccepted, Certified, SameRows, Cell, Calculated, SameResults, PairsOf, Product, AllUsable, Usable;
    OnlyCertifiedScoresBuild(c, run, profile, policy, rows, offered, c.scoreDirection, hash, identity);
    if SameRows(Sort(rows, PairLe), Sort(offered, PairLe)) {
      forall t, f ensures Cell(Sort(offered, PairLe), t, f) == Cell(Sort(rows, PairLe), t, f) {
        SameRowsSameCell(Sort(rows, PairLe), Sort(offered, PairLe), t, f);
      }
      CellsDecide(r, q, Sort(rows, PairLe), Sort(offered, PairLe), c.matrixIds, c.expectedFoldIds, c.scoreDirection, false);
    }
  }
}
