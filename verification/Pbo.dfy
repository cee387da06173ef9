/** The CSCV calculation in exact arithmetic: for each partition the trial that
    wins in sample, its rank out of sample, and the share of overfit partitions. */
module Pbo {
  import opened Cscv
  import opened DecimalText
  import opened Digits
  import opened Octets
  import opened Ordering
  import opened Outcomes
  import opened PboCertificate
  import opened PboCertification
  import opened PboMatrix

  const MAX_PRECISION: nat := 34

  /** The exact number a finite decimal denotes. */
  function RealOf(d: Decimal): real
    requires d.Finite?
  {
    if d.exponent >= 0 then (Coefficient(d) * Pow(10, d.exponent)) as real
    else Coefficient(d) as real / Pow(10, -d.exponent) as real
  }

  /** The first score recorded for a pair. */
  function ScoreAt(rows: seq<ScoreRow>, trialId: Id, foldId: Id): Option<Score> {
    if rows == [] then None
    else if rows[0].trialId == trialId && rows[0].foldId == foldId then Some(rows[0].score)
    else ScoreAt(rows[1..], trialId, foldId)
  }

  /** A pair's number; zero stands for what an accepted matrix never lacks (`CellsPresent`). */
  function Cell(rows: seq<ScoreRow>, trialId: Id, foldId: Id): real {
    match ScoreAt(rows, trialId, foldId)
    case Some(Exact(d)) => if d.Finite? then RealOf(d) else 0.0
    case _ => 0.0
  }

  function Total(rows: seq<ScoreRow>, trialId: Id, foldIds: seq<Id>): real {
    if foldIds == [] then 0.0 else Cell(rows, trialId, foldIds[0]) + Total(rows, trialId, foldIds[1..])
  }

  function Mean(rows: seq<ScoreRow>, trialId: Id, foldIds: seq<Id>): real
    requires foldIds != []
  {
    Total(rows, trialId, foldIds) / (|foldIds| as real)
  }

  // ---------------------------------------------------------------- selection and rank

  datatype Standing = Standing(trialId: Id, key: real)

  predicate StandingLe(a: Standing, b: Standing) {
    a.key < b.key || (a.key == b.key && IdLe(a.trialId, b.trialId))
  }

  /** Each trial with its mean over some folds, negated on demand, as a sort key. */
  function Standings(rows: seq<ScoreRow>, trialIds: seq<Id>, foldIds: seq<Id>, negated: bool): (r: seq<Standing>)
    requires foldIds != []
    ensures |r| == |trialIds|
    ensures forall i :: 0 <= i < |r| ==>
      r[i] == Standing(trialIds[i], if negated then -Mean(rows, trialIds[i], foldIds) else Mean(rows, trialIds[i], foldIds))
  {
    if trialIds == [] then []
    else
      var mean := Mean(rows, trialIds[0], foldIds);
      [Standing(trialIds[0], if negated then -mean else mean)] + Standings(rows, trialIds[1..], foldIds, negated)
  }

  function Least(s: seq<Standing>): (r: Standing)
    requires s != []
    ensures r in s
  {
    if |s| == 1 then s[0]
    else
      var rest := Least(s[1..]);
      if StandingLe(s[0], rest) then s[0] else rest
  }

  /** The winner: the best mean, the smallest identifier among equals. */
  function BestTrial(rows: seq<ScoreRow>, trialIds: seq<Id>, foldIds: seq<Id>, direction: Direction): (r: Id)
    requires trialIds != [] && foldIds != []
    ensures r in trialIds
  {
    Least(Standings(rows, trialIds, foldIds, direction.Descending?)).trialId
  }

  function WorstToBest(rows: seq<ScoreRow>, trialIds: seq<Id>, foldIds: seq<Id>, direction: Direction): seq<Standing>
    requires foldIds != []
  {
    Sort(Standings(rows, trialIds, foldIds, direction.Ascending?), StandingLe)
  }

  /** Python's `index` of a trial in the ranking. */
  function PlaceOf(s: seq<Standing>, trialId: Id): (i: nat)
    ensures i <= |s| && (i < |s| ==> s[i].trialId == trialId)
    ensures forall j :: 0 <= j < i ==> s[j].trialId != trialId
  {
    if s == [] || s[0].trialId == trialId then 0 else 1 + PlaceOf(s[1..], trialId)
  }

  function Rank(rows: seq<ScoreRow>, trialIds: seq<Id>, foldIds: seq<Id>, direction: Direction, trialId: Id): nat
    requires foldIds != []
  {
    PlaceOf(WorstToBest(rows, trialIds, foldIds, direction), trialId) + 1
  }

  datatype Outcome = Outcome(
    partition: Partition, selected: Id, inSample: real, outOfSample: real, rank: nat, relativeRank: real, overfit: bool)

  /** The outcome of one partition. The logit of the relative rank is negative
      exactly when the rank is below its complement to one. */
  function OutcomeOf(rows: seq<ScoreRow>, trialIds: seq<Id>, direction: Direction, p: Partition): Outcome
    requires trialIds != [] && p.inSample != [] && p.outOfSample != []
  {
    var selected := BestTrial(rows, trialIds, p.inSample, direction);
    var rank := Rank(rows, trialIds, p.outOfSample, direction, selected);
    var relative := rank as real / (|trialIds| + 1) as real;
    Outcome(p, selected, Mean(rows, selected, p.inSample), Mean(rows, selected, p.outOfSample), rank, relative,
            relative < 1.0 - relative)
  }

  function OverfitCount(outcomes: seq<Outcome>): (n: nat)
    ensures n <= |outcomes|
  {
    if outcomes == [] then 0
    else OverfitCount(outcomes[..|outcomes| - 1]) + (if outcomes[|outcomes| - 1].overfit then 1 else 0)
  }

  datatype PboResult = PboResult(outcomes: seq<Outcome>, overfitCount: nat, partitionCount: nat, probability: real)

  datatype PboError = BadPrecision | Incomplete | NotBound | BadFolds(reason: PartitionError)

  /** What a calculation returns, when it returns: every partition's outcome in
      enumeration order and the overfit share. */
  ghost predicate Calculated(r: PboResult, rows: seq<ScoreRow>, trialIds: seq<Id>, foldIds: seq<Id>, direction: Direction)
    requires Usable(foldIds) && trialIds != []
  {
    && |r.outcomes| == |Halves(foldIds)| == r.partitionCount
    && r.partitionCount > 0
    && (forall i :: 0 <= i < |r.outcomes| ==> OutcomeIs(r.outcomes[i], rows, trialIds, foldIds, direction, i))
    && r.overfitCount == OverfitCount(r.outcomes)
    && r.probability == r.overfitCount as real / r.partitionCount as real
  }

  ghost predicate OutcomeIs(o: Outcome, rows: seq<ScoreRow>, trialIds: seq<Id>, foldIds: seq<Id>, direction: Direction, i: nat)
    requires Usable(foldIds) && trialIds != [] && i < |Halves(foldIds)|
  {
    SidesSplitFolds(foldIds, i);
    SidesOf(foldIds, i);
    o == OutcomeOf(rows, trialIds, direction, PartitionAt(foldIds, i))
  }

  lemma {:induction false} SomePartition(foldIds: seq<Id>)
    requires Usable(foldIds)
    ensures |Halves(foldIds)| > 0
  {
    var t := FirstFolds(foldIds, |foldIds| / 2);
    var i := EveryHalfAppears(foldIds, t);
  }

  lemma {:induction false} FirstFolds(foldIds: seq<Id>, n: nat) returns (t: set<Id>)
    requires NoDuplicates(foldIds) && n <= |foldIds|
    ensures |t| == n && forall x :: x in t ==> x in foldIds
  {
    t := SetOf(foldIds[..n]);
    DistinctSize(foldIds[..n]);
  }

  method CalculatePbo(m: Matrix, c: Certificate, precision: int, hash: seq<Byte> -> Digest, identity: Certificate -> Digest)
    returns (r: Result<PboResult, PboError>)
    requires MatrixAccepted(m, hash)
    ensures r.Ok? <==> 1 <= precision <= 34 && c.passed && BoundTo(m, c, hash, identity) && [] !in m.foldIds
    ensures precision < 1 || (precision > 34 && c.passed && BoundTo(m, c, hash, identity) && [] !in m.foldIds) <==> r == Err(BadPrecision)
    ensures r == Err(Incomplete) <==> precision >= 1 && !c.passed
    ensures precision >= 1 && c.passed ==>
      (r == Err(NotBound) <==>
         m.profileHash != c.profileHash || m.foldIds != c.expectedFoldIds || m.trialIds != c.matrixIds || m.direction != c.scoreDirection
         || m.certificateHash != identity(c) || c.matrixDigest != Some(m.matrixDigest) || c.matrixDigest != DigestOf(MatrixHash(m), hash))
    ensures r == Err(BadFolds(BlankIdentifier)) <==> precision >= 1 && c.passed && BoundTo(m, c, hash, identity) && [] in m.foldIds
    ensures r.Ok? ==> Usable(m.foldIds) && m.trialIds != [] && Calculated(r.value, m.scores, m.trialIds, m.foldIds, m.direction)
  {
    hide OutcomeOf, MatrixHash, PairsOf, Product, OverfitCount, PartitionAt;
    if precision < 1 {
      return Err(BadPrecision);
    }
    if !c.passed {
      return Err(Incomplete);
    }
    if !BoundTo(m, c, hash, identity) {
      return Err(NotBound);
    }
    var partitions := ConstructCscvPartitions(m.foldIds);
    if partitions.Err? {
      return Err(BadFolds(partitions.error));
    }
    if precision > MAX_PRECISION {
      return Err(BadPrecision);
    }
    var outcomes: seq<Outcome> := [];
    for i := 0 to |partitions.value|
      invariant |outcomes| == i
      invariant forall k :: 0 <= k < i ==> OutcomeIs(outcomes[k], m.scores, m.trialIds, m.foldIds, m.direction, k)
    {
      SidesSplitFolds(m.foldIds, i);
      SidesOf(m.foldIds, i);
      outcomes := outcomes + [OutcomeOf(m.scores, m.trialIds, m.direction, partitions.value[i])];
    }
    SomePartition(m.foldIds);
    var overfitCount := OverfitCount(outcomes);
    r := Ok(PboResult(outcomes, overfitCount, |outcomes|, overfitCount as real / |outcomes| as real));
  }
}
