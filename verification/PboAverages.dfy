/** What the calculator averages, selects and counts, in terms of the scores themselves. */
module PboAverages {
  import opened Cscv
  import opened DecimalText
  import opened Digits
  import opened Ordering
  import opened Pbo
  import opened PboMatrix
  import opened PboMeaning
  import opened RealArithmetic

  // ---------------------------------------------------------------- the mean of some folds

  lemma {:induction false} TotalOfBoth(rows: seq<ScoreRow>, t: Id, a: seq<Id>, b: seq<Id>)
    ensures Total(rows, t, a + b) == Total(rows, t, a) + Total(rows, t, b)
  {
    hide Cell;
    if a == [] {
      assert a + b == b;
    } else {
      assert (a + b)[1..] == a[1..] + b;
      TotalOfBoth(rows, t, a[1..], b);
    }
  }

  lemma {:induction false} MeanTimesCount(rows: seq<ScoreRow>, t: Id, foldIds: seq<Id>)
    requires foldIds != []
    ensures |foldIds| as real * Mean(rows, t, foldIds) == Total(rows, t, foldIds)
  {
    hide Total;
    QuotientTimes(Total(rows, t, foldIds), |foldIds| as real);
  }

  /** The mean over one fold is its score, and over two groups of folds it weighs each
      group's mean by its size: together they determine every mean. */
  lemma {:induction false} MeanWeighsFolds(rows: seq<ScoreRow>, t: Id, a: seq<Id>, b: seq<Id>)
    requires a != [] && b != []
    ensures (|a| + |b|) as real * Mean(rows, t, a + b) == |a| as real * Mean(rows, t, a) + |b| as real * Mean(rows, t, b)
    ensures |a| == 1 ==> Mean(rows, t, a) == Cell(rows, t, a[0])
  {
    hide Mean, Cell;
    TotalOfBoth(rows, t, a, b);
    MeanTimesCount(rows, t, a);
    MeanTimesCount(rows, t, b);
    MeanTimesCount(rows, t, a + b);
  }

  /** The mean depends on which folds are averaged, not on their order. */
  lemma {:induction false} MeanIgnoresOrder(rows: seq<ScoreRow>, t: Id, a: seq<Id>, b: seq<Id>)
    requires a != [] && b != [] && multiset(a) == multiset(b)
    ensures Mean(rows, t, a) == Mean(rows, t, b)
  {
    hide Total, Cell;
    TotalIgnoresOrder(rows, t, a, b);
    assert |a| == |multiset(a)| == |multiset(b)| == |b|;
  }

  /** Where one arrangement has the other's first fold, and that the rest still match. */
  lemma {:induction false} FirstFold(a: seq<Id>, b: seq<Id>) returns (i: nat)
    requires a != [] && multiset(a) == multiset(b)
    ensures i < |b| && b[i] == a[0] && b == b[..i] + ([b[i]] + b[i + 1..])
    ensures multiset(a[1..]) == multiset(b[..i] + b[i + 1..])
  {
    assert a[0] in multiset(b);
    i :| 0 <= i < |b| && b[i] == a[0];
    assert a == [a[0]] + a[1..];
    assert b == b[..i] + [b[i]] + b[i + 1..];
    assert multiset(a) == multiset([a[0]]) + multiset(a[1..]);
    assert multiset(b) == multiset(b[..i]) + multiset([b[i]]) + multiset(b[i + 1..]);
    SameRest(multiset([a[0]]), multiset(a[1..]), multiset(b[..i] + b[i + 1..]));
  }

  lemma {:induction false} SameRest(first: multiset<Id>, a: multiset<Id>, b: multiset<Id>)
    requires first + a == first + b
    ensures a == b
  {
    assert a == first + a - first;
    assert b == first + b - first;
  }

  lemma {:induction false} TotalIgnoresOrder(rows: seq<ScoreRow>, t: Id, a: seq<Id>, b: seq<Id>)
    requires multiset(a) == multiset(b)
    ensures Total(rows, t, a) == Total(rows, t, b)
  {
    hide Cell;
    if a == [] {
      assert |b| == |multiset(b)| == 0;
    } else {
      var i := FirstFold(a, b);
      TotalIgnoresOrder(rows, t, a[1..], b[..i] + b[i + 1..]);
      TotalOfBoth(rows, t, b[..i], b[i + 1..]);
      TotalOfBoth(rows, t, b[..i], [b[i]] + b[i + 1..]);
      assert ([b[i]] + b[i + 1..])[1..] == b[i + 1..];
    }
  }

  /** A trial's score on a fold is the number its row carries. */
  lemma {:induction false} CellIsTheScore(rows: seq<ScoreRow>, i: nat)
    requires DistinctPairs(rows) && i < |rows| && rows[i].score.Usable()
    ensures Cell(rows, rows[i].trialId, rows[i].foldId) == RealOf(rows[i].score.d)
  {
    hide RealOf;
    if i > 0 {
      assert (rows[0].trialId, rows[0].foldId) != (rows[i].trialId, rows[i].foldId);
      CellIsTheScore(rows[1..], i - 1);
    }
  }

  /** A decimal denotes its signed digits, ten times as much for each step of its exponent. */
  lemma {:induction false} RealOfScales(d: Decimal)
    requires d.Finite?
    ensures RealOf(d.(exponent := 0)) == (if d.negative then -(NumberOf(d.digits) as real) else NumberOf(d.digits) as real)
    ensures RealOf(d.(exponent := d.exponent + 1)) == 10.0 * RealOf(d)
  {
    hide NumberOf;
    var c, e := Coefficient(d), d.exponent;
    assert Coefficient(d.(exponent := e + 1)) == c && Coefficient(d.(exponent := 0)) == c;
    assert Pow(10, 0) == 1;
    if e >= 0 {
      MoreTens(c, Pow(10, e));
    } else {
      assert Pow(10, -e) == 10 * Pow(10, -e - 1);
      FewerTens(c as real, Pow(10, -e - 1) as real);
    }
  }

  lemma {:induction false} MoreTens(c: int, power: nat)
    ensures (c * (10 * power)) as real == 10.0 * (c * power) as real
  {
    assert c * (10 * power) == 10 * (c * power);
  }

  lemma {:induction false} FewerTens(c: real, power: real)
    requires power > 0.0
    ensures c / power == 10.0 * (c / (10.0 * power))
  {
    var q := c / (10.0 * power);
    QuotientTimes(c, 10.0 * power);
    QuotientTimes(c, power);
    assert (10.0 * q) * power == q * (10.0 * power);
    SameQuotient(10.0 * q, c / power, power);
  }

  lemma {:induction false} SameQuotient(a: real, b: real, factor: real)
    requires factor > 0.0 && a * factor == b * factor
    ensures a == b
  {
    if a < b { Scale(a, b, factor); } else if b < a { Scale(b, a, factor); }
  }

  // ---------------------------------------------------------------- selection and rank by the numbers

  /** The selected trial has the highest mean where scores descend and the lowest where they
      ascend, and of several such trials the first identifier. */
  lemma {:induction false} SelectedByNumbers(rows: seq<ScoreRow>, trialIds: seq<Id>, foldIds: seq<Id>, direction: Direction, t: Id)
    requires trialIds != [] && foldIds != [] && t in trialIds
    ensures var best := BestTrial(rows, trialIds, foldIds, direction);
      && best in trialIds
      && (direction.Descending? ==> Mean(rows, best, foldIds) >= Mean(rows, t, foldIds))
      && (direction.Ascending? ==> Mean(rows, best, foldIds) <= Mean(rows, t, foldIds))
      && (Mean(rows, best, foldIds) == Mean(rows, t, foldIds) ==> LexLe(best, t))
  {
    hide Mean, BestTrial, LexLe;
    SelectedIsBest(rows, trialIds, foldIds, direction, t);
  }

  /** The trials that rank before another out of sample: those with the worse mean, and of
      equal means those with the earlier identifier. */
  ghost function Behind(rows: seq<ScoreRow>, trialIds: seq<Id>, foldIds: seq<Id>, direction: Direction, t: Id): set<Id>
    requires foldIds != []
  {
    var own := Mean(rows, t, foldIds);
    set x | x in trialIds
      && ((direction.Descending? && Mean(rows, x, foldIds) < own) || (direction.Ascending? && Mean(rows, x, foldIds) > own)
          || (Mean(rows, x, foldIds) == own && x != t && LexLe(x, t)))
  }

  /** Everything an outcome records, by the numbers. */
  lemma {:induction false} OutcomeByNumbers(rows: seq<ScoreRow>, trialIds: seq<Id>, direction: Direction, p: Partition)
    requires NoDuplicates(trialIds) && trialIds != [] && p.inSample != [] && p.outOfSample != []
    ensures var o := OutcomeOf(rows, trialIds, direction, p);
      && o.partition == p && o.selected == BestTrial(rows, trialIds, p.inSample, direction)
      && o.inSample == Mean(rows, o.selected, p.inSample) && o.outOfSample == Mean(rows, o.selected, p.outOfSample)
      && o.rank == 1 + |Behind(rows, trialIds, p.outOfSample, direction, o.selected)|
      && o.relativeRank * (|trialIds| + 1) as real == o.rank as real
      && (o.overfit <==> 2.0 * o.relativeRank < 1.0)
  {
    hide Mean, BestTrial, Rank, LexLe;
    var o := OutcomeOf(rows, trialIds, direction, p);
    RankCounts(rows, trialIds, p.outOfSample, direction, o.selected);
    QuotientTimes(o.rank as real, (|trialIds| + 1) as real);
    SameBelow(rows, trialIds, p.outOfSample, direction, o.selected);
  }

  lemma {:induction false} SameBelow(rows: seq<ScoreRow>, trialIds: seq<Id>, foldIds: seq<Id>, direction: Direction, t: Id)
    requires foldIds != []
    ensures (set x | x in trialIds && Below(rows, foldIds, direction, x, t)) == Behind(rows, trialIds, foldIds, direction, t)
  {
    hide Mean, LexLe;
  }

  /** The overfit count is the number of overfit partitions. */
  lemma {:induction false} OverfitCountIs(outcomes: seq<Outcome>)
    ensures OverfitCount(outcomes) == |set i | 0 <= i < |outcomes| && outcomes[i].overfit|
  {
    var n := |outcomes| - 1;
    var all := set i | 0 <= i < |outcomes| && outcomes[i].overfit;
    if outcomes == [] {
      assert all == {};
    } else {
      var front := outcomes[..n];
      OverfitCountIs(front);
      var fewer := set i | 0 <= i < |front| && front[i].overfit;
      assert all == fewer + (if outcomes[n].overfit then {n} else {});
      assert n !in fewer;
    }
  }
}
