/** Profile-pinned ranking of trials by quantized scores. */
module SearchRanking {
  import opened Cscv
  import opened Octets
  import opened Ordering
  import opened Outcomes
  import opened PboMatrix
  import opened RealArithmetic
  import opened TrialEvidence

  datatype Rounding = HalfEven | HalfUp

  /** One ranking field. `unit` is the power of ten that Python's `quantize` takes
      from the rule's quantization. */
  datatype Rule = Rule(metricName: Id, direction: Direction, unit: real, rounding: Rounding)

  datatype RankingProfile = RankingProfile(hardGates: seq<Gate>, rules: seq<Rule>) {
    predicate Valid() { hardGates != [] && rules != [] && forall r :: r in rules ==> r.unit > 0.0 }
  }

  /** An evaluation with the error code its validator asks for. */
  datatype TrialEvaluation = TrialEvaluation(evidence: Evaluation, errorCode: Option<Id>)

  /** A recorded trial; its evaluation is always present once it is in the ledger. */
  datatype CandidateTrial = CandidateTrial(
    position: nat, candidateHash: Digest, generation: nat, slot: nat,
    operatorId: Option<Id>, parents: seq<Digest>, parameters: seq<nat>, evaluation: TrialEvaluation)

  // ---------------------------------------------------------------- quantization

  function RoundHalf(x: real, rounding: Rounding): int {
    var below := x.Floor;
    var rest := x - below as real;
    if rest < 0.5 then below
    else if rest > 0.5 then below + 1
    else match rounding
      case HalfEven => if below % 2 == 0 then below else below + 1
      case HalfUp => if x >= 0.0 then below + 1 else below
  }

  function Quantize(value: real, rule: Rule): real
    requires rule.unit > 0.0
  {
    RoundHalf(value / rule.unit, rule.rounding) as real * rule.unit
  }

  lemma {:induction false} RoundsWithinHalf(x: real, rounding: Rounding)
    ensures -0.5 <= RoundHalf(x, rounding) as real - x <= 0.5
  {
  }

  lemma {:induction false} WholeRounds(n: int, rounding: Rounding)
    ensures RoundHalf(n as real, rounding) == n
  {
  }

  lemma {:induction false} WholeQuotient(n: int, unit: real)
    requires unit > 0.0
    ensures (n as real * unit) / unit == n as real
  {
  }

  lemma {:induction false} ScaleHalf(d: real, unit: real)
    requires unit > 0.0 && -0.5 <= d <= 0.5
    ensures -unit <= 2.0 * (d * unit) <= unit
  {
  }

  lemma {:induction false} SubtractTimes(a: real, b: real, unit: real)
    ensures (a - b) * unit == a * unit - b * unit
  {
  }

  /** A quantized score is at most half a unit away and quantizing again changes
      nothing, so the comparison's own re-check of its inputs cannot fail. */
  lemma {:induction false} QuantizeSettles(value: real, rule: Rule)
    requires rule.unit > 0.0
    ensures var q := Quantize(value, rule); Quantize(q, rule) == q && -rule.unit <= 2.0 * (q - value) <= rule.unit
  {
    hide RoundHalf;
    var x := value / rule.unit;
    var n := RoundHalf(x, rule.rounding);
    RoundsWithinHalf(x, rule.rounding);
    WholeQuotient(n, rule.unit);
    WholeRounds(n, rule.rounding);
    var q := Quantize(value, rule);
    assert q == n as real * rule.unit && q / rule.unit == n as real;
    QuotientTimes(value, rule.unit);
    ScaleHalf(n as real - x, rule.unit);
    SubtractTimes(n as real, x, rule.unit);
    assert q - value == (n as real - x) * rule.unit;
  }

  // ---------------------------------------------------------------- eligibility and score vectors

  predicate PassesFrozenGates(profile: RankingProfile, e: Evaluation) {
    && |e.gateResults| == |profile.hardGates|
    && forall k :: 0 <= k < |e.gateResults| ==>
        var gate, result, metric := profile.hardGates[k], e.gateResults[k], MetricValue(e.metrics, profile.hardGates[k].metricName);
        && metric.Some? && result.decision.Pass?
        && result.gateId == gate.gateId && result.metricName == gate.metricName && result.comparison == gate.comparison
        && result.threshold == gate.threshold && result.observed == metric.value
        && Passes(gate.comparison, metric.value, gate.threshold)
  }

  function Scores(rules: seq<Rule>, metrics: seq<Metric>): (r: Option<seq<real>>)
    requires forall x :: x in rules ==> x.unit > 0.0
    ensures r.Some? ==> |r.value| == |rules|
  {
    if rules == [] then Some([])
    else
      var front, last := rules[..|rules| - 1], rules[|rules| - 1];
      var before, value := Scores(front, metrics), MetricValue(metrics, last.metricName);
      if before.None? || value.None? then None else Some(before.value + [Quantize(value.value, last)])
  }

  function ScoreVector(profile: RankingProfile, trial: CandidateTrial): (r: Option<seq<real>>)
    requires profile.Valid()
    ensures r.Some? ==> |r.value| == |profile.rules|
  {
    var e := trial.evaluation.evidence;
    if !e.terminal.Evaluated? || !e.complete || RepeatsMetric(e.metrics) || !PassesFrozenGates(profile, e) then None
    else Scores(profile.rules, e.metrics)
  }

  method QuantizedScoreVector(profile: RankingProfile, trial: CandidateTrial) returns (r: Option<seq<real>>)
    requires profile.Valid()
    ensures r == ScoreVector(profile, trial)
  {
    hide Quantize;
    var e := trial.evaluation.evidence;
    if !e.terminal.Evaluated? || !e.complete {
      return None;
    }
    if RepeatsMetric(e.metrics) || !PassesFrozenGates(profile, e) {
      return None;
    }
    var values: seq<real> := [];
    for i := 0 to |profile.rules|
      invariant Scores(profile.rules[..i], e.metrics) == Some(values)
    {
      assert profile.rules[..i + 1][..i] == profile.rules[..i];
      var value := MetricValue(e.metrics, profile.rules[i].metricName);
      if value.None? {
        NoScores(profile.rules, e.metrics, i);
        return None;
      }
      values := values + [Quantize(value.value, profile.rules[i])];
    }
    assert profile.rules[..|profile.rules|] == profile.rules;
    r := Some(values);
  }

  lemma {:induction false} NoScores(rules: seq<Rule>, metrics: seq<Metric>, i: nat)
    requires forall x :: x in rules ==> x.unit > 0.0
    requires i < |rules| && MetricValue(metrics, rules[i].metricName).None?
    ensures Scores(rules, metrics).None?
  {
    if i < |rules| - 1 { NoScores(rules[..|rules| - 1], metrics, i); }
  }

  /** A rankable trial passes every frozen gate on its own metrics. */
  lemma {:induction false} RankableMeetsGates(profile: RankingProfile, trial: CandidateTrial, gate: Gate)
    requires profile.Valid() && ScoreVector(profile, trial).Some? && gate in profile.hardGates
    ensures exists m :: m in trial.evaluation.evidence.metrics && m.name == gate.metricName && Passes(gate.comparison, m.value, gate.threshold)
  {
    hide Scores;
    var k :| 0 <= k < |profile.hardGates| && profile.hardGates[k] == gate;
    var m := MetricFound(trial.evaluation.evidence.metrics, gate.metricName);
  }

  // ---------------------------------------------------------------- comparing vectors

  datatype ScoreError = WrongLength | NotQuantized

  predicate Quantized(rules: seq<Rule>, scores: seq<real>)
    requires forall x :: x in rules ==> x.unit > 0.0
  {
    |scores| == |rules| && forall i :: 0 <= i < |rules| ==> Quantize(scores[i], rules[i]) == scores[i]
  }

  /** The first field that differs decides, in the rule's direction. Vectors of
      rankable trials have one entry a rule; lengths settle any other pair. */
  function Lead(rules: seq<Rule>, left: seq<real>, right: seq<real>): int {
    if rules == [] || left == [] || right == [] then |left| - |right|
    else if left[0] == right[0] then Lead(rules[1..], left[1..], right[1..])
    else if rules[0].direction.Descending? then (if left[0] > right[0] then 1 else -1)
    else (if left[0] < right[0] then 1 else -1)
  }

  /** Positive when the left vector ranks better. */
  function CompareScoreVectors(profile: RankingProfile, left: seq<real>, right: seq<real>): Result<int, ScoreError>
    requires profile.Valid()
  {
    if |left| != |profile.rules| || |right| != |profile.rules| then Err(WrongLength)
    else if !Quantized(profile.rules, left) || !Quantized(profile.rules, right) then Err(NotQuantized)
    else Ok(Lead(profile.rules, left, right))
  }

  lemma {:induction false} ScoresAreQuantized(rules: seq<Rule>, metrics: seq<Metric>)
    requires forall x :: x in rules ==> x.unit > 0.0
    requires Scores(rules, metrics).Some?
    ensures Quantized(rules, Scores(rules, metrics).value)
  {
    hide Quantize;
    if rules != [] {
      var front, last := rules[..|rules| - 1], rules[|rules| - 1];
      ScoresAreQuantized(front, metrics);
      QuantizeSettles(MetricValue(metrics, last.metricName).value, last);
    }
  }

  lemma {:induction false} LeadMirrors(rules: seq<Rule>, a: seq<real>, b: seq<real>)
    ensures Lead(rules, a, b) == -Lead(rules, b, a)
  {
    if rules != [] && a != [] && b != [] && a[0] == b[0] { LeadMirrors(rules[1..], a[1..], b[1..]); }
  }

  lemma {:induction false} LeadTransitive(rules: seq<Rule>, a: seq<real>, b: seq<real>, c: seq<real>)
    requires Lead(rules, a, b) >= 0 && Lead(rules, b, c) >= 0
    ensures Lead(rules, a, c) >= 0
    ensures Lead(rules, a, b) > 0 || Lead(rules, b, c) > 0 ==> Lead(rules, a, c) > 0
  {
    if rules != [] && a != [] && b != [] && c != [] {
      if a[0] == b[0] && b[0] == c[0] { LeadTransitive(rules[1..], a[1..], b[1..], c[1..]); }
    }
  }

  lemma {:induction false} LeadTies(rules: seq<Rule>, a: seq<real>, b: seq<real>)
    requires |a| == |b| == |rules|
    ensures Lead(rules, a, b) == 0 <==> a == b
  {
    if rules != [] {
      if a[0] == b[0] {
        LeadTies(rules[1..], a[1..], b[1..]);
        assert a == [a[0]] + a[1..] && b == [b[0]] + b[1..];
      }
    }
  }

  // ---------------------------------------------------------------- ranking

  datatype Ranked = Ranked(trial: CandidateTrial, scores: seq<real>)

  predicate RankedLe(rules: seq<Rule>, a: Ranked, b: Ranked) {
    var lead := Lead(rules, a.scores, b.scores);
    lead > 0 || (lead == 0 && a.trial.candidateHash <= b.trial.candidateHash)
  }

  function Eligible(profile: RankingProfile, trials: seq<CandidateTrial>): (r: seq<Ranked>)
    requires profile.Valid()
  {
    if trials == [] then []
    else
      var last := trials[|trials| - 1];
      var scores := ScoreVector(profile, last);
      Eligible(profile, trials[..|trials| - 1]) + if scores.Some? then [Ranked(last, scores.value)] else []
  }

  function Ranking(profile: RankingProfile, trials: seq<CandidateTrial>): seq<Ranked>
    requires profile.Valid()
  {
    Sort(Eligible(profile, trials), (a, b) => RankedLe(profile.rules, a, b))
  }

  method RankTrials(profile: RankingProfile, trials: seq<CandidateTrial>) returns (r: seq<Ranked>)
    requires profile.Valid()
    ensures r == Ranking(profile, trials)
  {
    hide ScoreVector, Sort;
    var eligible: seq<Ranked> := [];
    for i := 0 to |trials|
      invariant eligible == Eligible(profile, trials[..i])
    {
      assert trials[..i + 1][..i] == trials[..i];
      var scores := QuantizedScoreVector(profile, trials[i]);
      if scores.Some? {
        eligible := eligible + [Ranked(trials[i], scores.value)];
      }
    }
    assert trials[..|trials|] == trials;
    r := Sort(eligible, (a, b) => RankedLe(profile.rules, a, b));
  }

  lemma {:induction false} RankedLeIsPreorder(rules: seq<Rule>)
    ensures Preorder((a: Ranked, b: Ranked) => RankedLe(rules, a, b))
  {
    hide Lead;
    var le := (a: Ranked, b: Ranked) => RankedLe(rules, a, b);
    forall x: Ranked, y: Ranked ensures le(x, y) || le(y, x) { LeadMirrors(rules, x.scores, y.scores); }
    forall x: Ranked, y: Ranked, z: Ranked | le(x, y) && le(y, z) ensures le(x, z) { LeadTransitive(rules, x.scores, y.scores, z.scores); }
  }

  lemma {:induction false} EligibleMembers(profile: RankingProfile, trials: seq<CandidateTrial>, x: Ranked)
    requires profile.Valid()
    ensures x in Eligible(profile, trials) <==> x.trial in trials && ScoreVector(profile, x.trial) == Some(x.scores)
  {
    hide ScoreVector;
    if trials != [] {
      EligibleMembers(profile, trials[..|trials| - 1], x);
      assert trials == trials[..|trials| - 1] + [trials[|trials| - 1]];
    }
  }

  /** The best of some trials by score, the smallest hash among equals. */
  ghost predicate IsBest(profile: RankingProfile, trials: seq<CandidateTrial>, x: Ranked)
    requires profile.Valid()
  {
    && x.trial in trials && ScoreVector(profile, x.trial) == Some(x.scores)
    && forall t :: t in trials && ScoreVector(profile, t).Some? ==> RankedLe(profile.rules, x, Ranked(t, ScoreVector(profile, t).value))
  }

  /** A ranking lists exactly the rankable trials, best first. */
  lemma {:induction false} RankingMeans(profile: RankingProfile, trials: seq<CandidateTrial>)
    requires profile.Valid()
    ensures var r := Ranking(profile, trials);
      && (forall x :: x in r <==> x.trial in trials && ScoreVector(profile, x.trial) == Some(x.scores))
      && (forall i, j :: 0 <= i < j < |r| ==> RankedLe(profile.rules, r[i], r[j]))
  {
    hide ScoreVector, Sort, RankedLe;
    var le := (a: Ranked, b: Ranked) => RankedLe(profile.rules, a, b);
    var e := Eligible(profile, trials);
    var r := Ranking(profile, trials);
    RankedLeIsPreorder(profile.rules);
    SortSorts(e, le);
    SortMembers(e, le);
    forall x ensures x in r <==> x.trial in trials && ScoreVector(profile, x.trial) == Some(x.scores) { EligibleMembers(profile, trials, x); }
    forall i, j | 0 <= i < j < |r| ensures RankedLe(profile.rules, r[i], r[j]) { assert le(r[i], r[j]); }
  }

  lemma {:induction false} RankedLeReflexive(rules: seq<Rule>, x: Ranked)
    ensures RankedLe(rules, x, x)
  {
    LeadMirrors(rules, x.scores, x.scores);
  }

  /** The head of a ranking is the best trial; there is none exactly when nothing is rankable. */
  lemma {:induction false} HeadIsBest(profile: RankingProfile, trials: seq<CandidateTrial>)
    requires profile.Valid()
    ensures var r := Ranking(profile, trials);
      && (r == [] <==> forall t :: t in trials ==> ScoreVector(profile, t).None?)
      && (r != [] ==> IsBest(profile, trials, r[0]))
  {
    hide ScoreVector, Ranking, RankedLe;
    RankingMeans(profile, trials);
    var r := Ranking(profile, trials);
    if t :| t in trials && ScoreVector(profile, t).Some? {
      assert Ranked(t, ScoreVector(profile, t).value) in r;
    }
    if r != [] {
      assert r[0] in r;
      forall t | t in trials && ScoreVector(profile, t).Some?
        ensures RankedLe(profile.rules, r[0], Ranked(t, ScoreVector(profile, t).value))
      {
        var x := Ranked(t, ScoreVector(profile, t).value);
        var i :| 0 <= i < |r| && r[i] == x;
        RankedLeReflexive(profile.rules, x);
      }
    }
  }

  /** Two best trials share their scores and their hash. */
  lemma {:induction false} BestIsUnique(profile: RankingProfile, trials: seq<CandidateTrial>, x: Ranked, y: Ranked)
    requires profile.Valid() && IsBest(profile, trials, x) && IsBest(profile, trials, y)
    ensures x.scores == y.scores && x.trial.candidateHash == y.trial.candidateHash
  {
    hide Lead, ScoreVector;
    LeadMirrors(profile.rules, x.scores, y.scores);
    LeadTies(profile.rules, x.scores, y.scores);
  }

  /** Of two batches' best trials the better one is the best of both batches. */
  lemma {:induction false} BestOfBoth(profile: RankingProfile, a: seq<CandidateTrial>, b: seq<CandidateTrial>, x: Ranked, y: Ranked)
    requires profile.Valid() && IsBest(profile, a, x) && IsBest(profile, b, y)
    ensures IsBest(profile, a + b, if RankedLe(profile.rules, x, y) then x else y)
  {
    hide RankedLe, ScoreVector;
    var best := if RankedLe(profile.rules, x, y) then x else y;
    RankedLeIsPreorder(profile.rules);
    var le := (a: Ranked, b: Ranked) => RankedLe(profile.rules, a, b);
    assert le(x, y) || le(y, x);
    forall t | t in a + b && ScoreVector(profile, t).Some?
      ensures RankedLe(profile.rules, best, Ranked(t, ScoreVector(profile, t).value))
    {
      var z := Ranked(t, ScoreVector(profile, t).value);
      assert t in a || t in b;
      assert le(x, z) || le(y, z);
      assert le(best, z);
    }
  }

  lemma {:induction false} BestOfOne(profile: RankingProfile, a: seq<CandidateTrial>, b: seq<CandidateTrial>, x: Ranked)
    requires profile.Valid() && IsBest(profile, a, x) && forall t :: t in b ==> ScoreVector(profile, t).None?
    ensures IsBest(profile, a + b, x) && IsBest(profile, b + a, x)
  {
    hide RankedLe, ScoreVector;
  }

  /** Comparing two rankable trials never raises. */
  lemma {:induction false} RankableCompares(profile: RankingProfile, s: CandidateTrial, t: CandidateTrial)
    requires profile.Valid() && ScoreVector(profile, s).Some? && ScoreVector(profile, t).Some?
    ensures CompareScoreVectors(profile, ScoreVector(profile, s).value, ScoreVector(profile, t).value)
         == Ok(Lead(profile.rules, ScoreVector(profile, s).value, ScoreVector(profile, t).value))
  {
    hide Quantized, Lead, Scores, PassesFrozenGates;
    ScoresAreQuantized(profile.rules, s.evaluation.evidence.metrics);
    ScoresAreQuantized(profile.rules, t.evaluation.evidence.metrics);
  }
}
