/** What the calculated probability means: ranks as counts, ties, dominance,
    mirror symmetry, and independence of how the scores were written or ordered. */
module PboMeaning {
  import opened Cscv
  import opened Ordering
  import opened Pbo
  import opened PboMatrix
  import opened RealArithmetic

  ghost predicate Worse(a: real, b: real, direction: Direction) {
    if direction.Descending? then a < b else a > b
  }

  /** t stands below s: a worse mean, or an equal mean and a smaller identifier. */
  ghost predicate Below(rows: seq<ScoreRow>, foldIds: seq<Id>, direction: Direction, t: Id, s: Id)
    requires foldIds != []
  {
    var a, b := Mean(rows, t, foldIds), Mean(rows, s, foldIds);
    Worse(a, b, direction) || (a == b && t != s && IdLe(t, s))
  }

  lemma {:induction false} StandingLeIsPreorder()
    ensures Preorder(StandingLe)
  {
    hide LexLe;
    forall x: Standing, y: Standing ensures StandingLe(x, y) || StandingLe(y, x) { LexConnected(x.trialId, y.trialId); }
    forall x: Standing, y: Standing, z: Standing | StandingLe(x, y) && StandingLe(y, z) ensures StandingLe(x, z) {
      if x.key == y.key && y.key == z.key { LexTransitive(x.trialId, y.trialId, z.trialId); }
    }
  }

  lemma {:induction false} StandingTies(x: Standing, y: Standing)
    requires StandingLe(x, y) && StandingLe(y, x)
    ensures x == y
  {
    LexAntisymmetric(x.trialId, y.trialId);
  }

  lemma {:induction false} LeastIsLeast(s: seq<Standing>)
    requires s != []
    ensures forall x :: x in s ==> StandingLe(Least(s), x)
  {
    hide IdLe;
    StandingLeIsPreorder();
    if |s| > 1 {
      LeastIsLeast(s[1..]);
      assert s == [s[0]] + s[1..];
    } else {
      assert StandingLe(s[0], s[0]);
    }
  }

  /** The selected trial is best in sample, and the first by identifier among equals. */
  lemma {:induction false} SelectedIsBest(rows: seq<ScoreRow>, trialIds: seq<Id>, foldIds: seq<Id>, direction: Direction, t: Id)
    requires trialIds != [] && foldIds != [] && t in trialIds
    ensures var best := BestTrial(rows, trialIds, foldIds, direction);
      && !Worse(Mean(rows, best, foldIds), Mean(rows, t, foldIds), direction)
      && (Mean(rows, t, foldIds) == Mean(rows, best, foldIds) ==> IdLe(best, t))
  {
    hide IdLe, Mean;
    var s := Standings(rows, trialIds, foldIds, direction.Descending?);
    LeastIsLeast(s);
    var i :| 0 <= i < |trialIds| && trialIds[i] == t;
    assert s[i] in s;
    var j :| 0 <= j < |s| && s[j] == Least(s);
  }

  // ---------------------------------------------------------------- rank as a count

  lemma {:induction false} PlaceCounts(s: seq<Standing>, i: nat)
    requires Sorted(s, StandingLe) && NoDuplicates(s) && i < |s|
    ensures |set x | x in s && x != s[i] && StandingLe(x, s[i])| == i
  {
    hide IdLe, StandingLe;
    var below := set x | x in s && x != s[i] && StandingLe(x, s[i]);
    var front := Among(s[..i]);
    forall x ensures x in below <==> x in front {
      if x in front {
        var j :| 0 <= j < i && s[j] == x;
        assert s[j] in s;
      }
      if x in below {
        var j :| 0 <= j < |s| && s[j] == x;
        if j > i { StandingTies(s[i], s[j]); }
        assert s[j] == s[..i][j];
      }
    }
    assert below == front;
    FrontSize(s, i);
  }

  function Among(s: seq<Standing>): set<Standing> { set x | x in s }

  lemma {:induction false} FrontSize(s: seq<Standing>, i: nat)
    requires NoDuplicates(s) && i <= |s|
    ensures |Among(s[..i])| == i
  {
    if i > 0 {
      FrontSize(s, i - 1);
      assert s[..i] == s[..i - 1] + [s[i - 1]];
      assert Among(s[..i]) == Among(s[..i - 1]) + {s[i - 1]};
      assert s[i - 1] !in s[..i - 1];
    }
  }

  lemma {:induction false} PlaceIs(s: seq<Standing>, i: nat)
    requires i < |s| && IdsDistinct(s)
    ensures PlaceOf(s, s[i].trialId) == i
  {
    hide PlaceOf;
    var p := PlaceOf(s, s[i].trialId);
    assert p <= i;
    assert s[p].trialId == s[i].trialId;
    assert p == i;
  }

  ghost predicate IdsDistinct(s: seq<Standing>) {
    forall j, k :: 0 <= j < k < |s| ==> s[j].trialId != s[k].trialId
  }

  lemma {:induction false} SortKeepsIdsDistinct(s: seq<Standing>)
    requires IdsDistinct(s)
    ensures var r := Sort(s, StandingLe);
      IdsDistinct(r) && NoDuplicates(r) && Sorted(r, StandingLe) && forall x :: x in r <==> x in s
  {
    hide Sort, StandingLe;
    var r := Sort(s, StandingLe);
    StandingLeIsPreorder();
    SortSorts(s, StandingLe);
    SortMembers(s, StandingLe);
    assert NoDuplicates(s);
    SortKeepsDistinct(s, StandingLe);
    forall j, k | 0 <= j < k < |r| ensures r[j].trialId != r[k].trialId {
      assert r[j] in r && r[k] in r && r[j] != r[k];
      var p :| 0 <= p < |s| && s[p] == r[j];
      var q :| 0 <= q < |s| && s[q] == r[k];
      if p < q { assert s[p].trialId != s[q].trialId; } else { assert s[q].trialId != s[p].trialId; }
    }
  }

  function StandingOf(rows: seq<ScoreRow>, foldIds: seq<Id>, negated: bool, t: Id): Standing
    requires foldIds != []
  {
    Standing(t, if negated then -Mean(rows, t, foldIds) else Mean(rows, t, foldIds))
  }

  lemma {:induction false} BelowAsStandings(rows: seq<ScoreRow>, trialIds: seq<Id>, foldIds: seq<Id>, direction: Direction,
                                            t: Id, counted: set<Standing>, below: set<Id>)
    requires foldIds != []
    requires var negated := direction.Ascending?;
      var s := Standings(rows, trialIds, foldIds, negated);
      var own := StandingOf(rows, foldIds, negated, t);
      counted == set x | x in s && x != own && StandingLe(x, own)
    requires below == set x | x in trialIds && Below(rows, foldIds, direction, x, t)
    ensures |counted| == |below|
  {
    hide Mean, IdLe;
    var negated := direction.Ascending?;
    var s := Standings(rows, trialIds, foldIds, negated);
    var own := StandingOf(rows, foldIds, negated, t);
    var image := set x | x in below :: StandingOf(rows, foldIds, negated, x);
    forall y ensures y in counted <==> y in image {
      if y in counted {
        var i :| 0 <= i < |s| && s[i] == y;
        assert y == StandingOf(rows, foldIds, negated, trialIds[i]);
        assert trialIds[i] in trialIds && Below(rows, foldIds, direction, trialIds[i], t);
      }
      if y in image {
        var x :| x in below && y == StandingOf(rows, foldIds, negated, x);
        var i :| 0 <= i < |trialIds| && trialIds[i] == x;
        assert s[i] == y && s[i] in s;
      }
    }
    assert counted == image;
    ImageSize(rows, foldIds, negated, below);
  }

  lemma {:induction false} ImageSize(rows: seq<ScoreRow>, foldIds: seq<Id>, negated: bool, ids: set<Id>)
    requires foldIds != []
    ensures |set x | x in ids :: StandingOf(rows, foldIds, negated, x)| == |ids|
    decreases |ids|
  {
    hide Mean;
    var image := set x | x in ids :: StandingOf(rows, foldIds, negated, x);
    if ids == {} {
      assert image == {};
    } else {
      var x :| x in ids;
      var rest := ids - {x};
      ImageSize(rows, foldIds, negated, rest);
      var smaller := set y | y in rest :: StandingOf(rows, foldIds, negated, y);
      assert image == smaller + {StandingOf(rows, foldIds, negated, x)};
    }
  }

  lemma {:induction false} StandingsDistinct(rows: seq<ScoreRow>, trialIds: seq<Id>, foldIds: seq<Id>, negated: bool)
    requires NoDuplicates(trialIds) && foldIds != []
    ensures IdsDistinct(Standings(rows, trialIds, foldIds, negated))
  {
    hide Mean;
  }

  /** A trial's rank is one more than the number of trials standing below it. */
  lemma {:induction false} RankCounts(rows: seq<ScoreRow>, trialIds: seq<Id>, foldIds: seq<Id>, direction: Direction, t: Id)
    requires NoDuplicates(trialIds) && foldIds != [] && t in trialIds
    ensures Rank(rows, trialIds, foldIds, direction, t) == 1 + |set x | x in trialIds && Below(rows, foldIds, direction, x, t)|
  {
    hide Sort, Mean, StandingLe, Below, PlaceOf, IdsDistinct;
    var negated := direction.Ascending?;
    var s := Standings(rows, trialIds, foldIds, negated);
    var own := StandingOf(rows, foldIds, negated, t);
    StandingsDistinct(rows, trialIds, foldIds, negated);
    var p :| 0 <= p < |trialIds| && trialIds[p] == t;
    assert s[p] == own;
    PlaceInSorted(s, own);
    BelowAsStandings(rows, trialIds, foldIds, direction, t,
                     set x | x in s && x != own && StandingLe(x, own),
                     set x | x in trialIds && Below(rows, foldIds, direction, x, t));
  }

  /** After sorting, an element's place is the number of elements before it in the order. */
  lemma {:induction false} PlaceInSorted(s: seq<Standing>, own: Standing)
    requires IdsDistinct(s) && own in s
    ensures PlaceOf(Sort(s, StandingLe), own.trialId) == |set x | x in s && x != own && StandingLe(x, own)|
  {
    hide Sort, StandingLe, PlaceOf, IdsDistinct;
    var r := Sort(s, StandingLe);
    SortKeepsIdsDistinct(s);
    var i :| 0 <= i < |r| && r[i] == own;
    PlaceIs(r, i);
    PlaceCounts(r, i);
    assert (set x | x in r && x != own && StandingLe(x, own)) == (set x | x in s && x != own && StandingLe(x, own));
  }

  /** An outcome is overfit exactly when twice the rank is below trials plus one. */
  lemma {:induction false} OverfitExactly(rows: seq<ScoreRow>, trialIds: seq<Id>, direction: Direction, p: Partition)
    requires trialIds != [] && p.inSample != [] && p.outOfSample != []
    ensures var o := OutcomeOf(rows, trialIds, direction, p); o.overfit <==> 2 * o.rank < |trialIds| + 1
  {
    hide BestTrial, Rank, Mean;
    var o := OutcomeOf(rows, trialIds, direction, p);
    HalfOf(o.rank, |trialIds| + 1);
  }

  lemma {:induction false} HalfOf(rank: nat, n: nat)
    requires n > 0
    ensures rank as real / n as real < 1.0 - rank as real / n as real <==> 2 * rank < n
  {
    var x, y := rank as real, n as real;
    QuotientTimes(x, y);
    Scale(x / y + x / y, 1.0, y);
    Distribute(x / y, x / y, y);
  }

  lemma {:induction false} Scale(a: real, b: real, y: real)
    requires y > 0.0
    ensures a < b <==> a * y < b * y
  {
  }

  lemma {:induction false} Distribute(a: real, b: real, y: real)
    ensures (a + b) * y == a * y + b * y
  {
  }

  /** In counting terms: overfit when strictly more trials stand above the
      selected one out of sample than below it. */
  lemma {:induction false} OverfitMeansMoreAbove(rows: seq<ScoreRow>, trialIds: seq<Id>, direction: Direction, p: Partition)
    requires NoDuplicates(trialIds) && trialIds != [] && p.inSample != [] && p.outOfSample != []
    ensures var o := OutcomeOf(rows, trialIds, direction, p);
      var below := |set x | x in trialIds && Below(rows, p.outOfSample, direction, x, o.selected)|;
      o.rank == 1 + below && (o.overfit <==> below < |trialIds| - 1 - below)
  {
    hide BestTrial, Rank, Mean, Below;
    var o := OutcomeOf(rows, trialIds, direction, p);
    OverfitExactly(rows, trialIds, direction, p);
    RankCounts(rows, trialIds, p.outOfSample, direction, o.selected);
  }
}
