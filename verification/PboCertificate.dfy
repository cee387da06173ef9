/** Certification of a PBO input: the certifier that collects violations, the
    certificate constructor that re-checks completeness, and the matrix builder
    that checks it a third time. */
module PboCertificate {
  import opened Canonical
  import opened Cscv
  import opened Digits
  import opened Octets
  import opened Ordering
  import opened Outcomes
  import opened PboMatrix
  import opened TrialEvidence

  datatype Trial = Trial(trialId: Id, terminal: Option<Terminal>, evaluation: Option<Evaluation>)

  datatype Profile = Profile(
    profileHash: Digest, hardGates: seq<Gate>, direction: Direction, foldIds: seq<Id>, minimumEligible: nat)

  /** The exception letting chosen hard-gate rejections into the matrix. */
  datatype Policy = Policy(profileHash: Digest, eligibleGateIds: seq<Id>)

  /** A completed search; `ledgerValid` is the verdict of its own result model. */
  datatype SearchRun = SearchRun(
    ledgerValid: bool, profileHash: Digest, runHash: Digest, trials: seq<Trial>, stopped: bool, failed: bool)

  // ---------------------------------------------------------------- eligibility

  /** A result names the gate it is about, with the gate's own metric, threshold and comparison. */
  predicate SameGate(gate: Gate, result: GateResult) {
    result.gateId == gate.gateId && result.metricName == gate.metricName && result.threshold == gate.threshold && result.comparison == gate.comparison
  }

  /** One result exactly proves its frozen gate's decision. */
  predicate ProvesGate(gate: Gate, result: GateResult) {
    && SameGate(gate, result)
    && (result.decision.Pass? <==> Passes(gate.comparison, result.observed, gate.threshold))
    && (result.decision.Fail? <==> result.hasReason)
  }

  predicate GateEvidenceMatches(profile: Profile, trial: Trial) {
    trial.evaluation.Some? &&
    var e := trial.evaluation.value;
    && trial.terminal == Some(e.terminal)
    && !RepeatsMetric(e.metrics)
    && match e.terminal
       case Evaluated =>
         && |e.gateResults| == |profile.hardGates|
         && (forall k :: 0 <= k < |e.gateResults| ==>
              && ProvesGate(profile.hardGates[k], e.gateResults[k])
              && e.gateResults[k].decision.Pass?
              && MetricValue(e.metrics, profile.hardGates[k].metricName) == Some(e.gateResults[k].observed))
       case RejectedHardGate =>
         && 0 < |e.gateResults| <= |profile.hardGates|
         && (forall k :: 0 <= k < |e.gateResults| ==>
              && ProvesGate(profile.hardGates[k], e.gateResults[k])
              && (e.gateResults[k].decision.Fail? <==> k == |e.gateResults| - 1))
       case _ => true
  }

  predicate Permits(policy: Policy, profile: Profile, trial: Trial) {
    && policy.profileHash == profile.profileHash
    && trial.evaluation.Some?
    && trial.terminal == Some(trial.evaluation.value.terminal)
    && trial.evaluation.value.complete
    && GateEvidenceMatches(profile, trial)
    && match trial.evaluation.value.terminal
       case Evaluated => true
       case RejectedHardGate =>
         var results := trial.evaluation.value.gateResults;
         results[|results| - 1].gateId in policy.eligibleGateIds
       case _ => false
  }

  /** What a permitted trial guarantees: every frozen gate passes on the trial's
      own metric, or the gates before one excepted gate pass and that one fails. */
  lemma {:induction false} PermittedMeetsGates(policy: Policy, profile: Profile, trial: Trial)
    requires Permits(policy, profile, trial)
    ensures var e := trial.evaluation.value; e.complete && (e.terminal.Evaluated? || e.terminal.RejectedHardGate?)
    ensures trial.evaluation.value.terminal.Evaluated? ==>
      forall gate :: gate in profile.hardGates ==>
        exists m :: m in trial.evaluation.value.metrics && m.name == gate.metricName && Passes(gate.comparison, m.value, gate.threshold)
    ensures trial.evaluation.value.terminal.RejectedHardGate? ==>
      var gates, results := profile.hardGates, trial.evaluation.value.gateResults;
      && 0 < |results| <= |gates| && gates[|results| - 1].gateId in policy.eligibleGateIds
      && forall k :: 0 <= k < |results| ==>
           SameGate(gates[k], results[k]) && (Passes(gates[k].comparison, results[k].observed, gates[k].threshold) <==> k < |results| - 1)
  {
    var e := trial.evaluation.value;
    if e.terminal.Evaluated? {
      forall gate | gate in profile.hardGates
        ensures exists m :: m in e.metrics && m.name == gate.metricName && Passes(gate.comparison, m.value, gate.threshold)
      {
        var k :| 0 <= k < |profile.hardGates| && profile.hardGates[k] == gate;
        assert ProvesGate(profile.hardGates[k], e.gateResults[k]);
        var m := MetricFound(e.metrics, gate.metricName);
      }
    } else {
      forall k | 0 <= k < |e.gateResults|
        ensures SameGate(profile.hardGates[k], e.gateResults[k])
        ensures Passes(profile.hardGates[k].comparison, e.gateResults[k].observed, profile.hardGates[k].threshold) <==> k < |e.gateResults| - 1
      {
        assert ProvesGate(profile.hardGates[k], e.gateResults[k]);
      }
    }
  }

  // ---------------------------------------------------------------- violations

  datatype Violation =
    | LedgerInvalid | NoTerminalEvidence | GateEvidence(trialId: Id) | BlankStarted | BlankTerminal
    | RepeatedStarted | RepeatedTerminal | RepeatedFolds | FoldCount | RunProfile | PolicyProfile | UnknownGate
    | StartedNotTerminal | RepeatedScore | EligibleNotMatrix | RowFolds(rowId: Id) | UnusableScore
    | IneligibleScore | ForeignFold | NotNormallyStopped | TooFewEligible

  function TrialIds(trials: seq<Trial>): (r: seq<Id>)
    ensures |r| == |trials| && forall i :: 0 <= i < |trials| ==> r[i] == trials[i].trialId
  {
    if trials == [] then [] else [trials[0].trialId] + TrialIds(trials[1..])
  }

  predicate Terminated(trial: Trial) { trial.terminal.Some? && trial.evaluation.Some? }

  /** The terminal trials, in ledger order. */
  function TerminalIds(trials: seq<Trial>): seq<Id> {
    if trials == [] then []
    else
      var last := trials[|trials| - 1];
      TerminalIds(trials[..|trials| - 1]) + (if Terminated(last) then [last.trialId] else [])
  }

  predicate IsEligible(profile: Profile, policy: Policy, trial: Trial) {
    Terminated(trial) && GateEvidenceMatches(profile, trial) && Permits(policy, profile, trial)
  }

  /** The trials whose evidence admits them, in ledger order. */
  function EligibleIds(profile: Profile, policy: Policy, trials: seq<Trial>): seq<Id> {
    if trials == [] then []
    else
      var last := trials[|trials| - 1];
      EligibleIds(profile, policy, trials[..|trials| - 1]) + (if IsEligible(profile, policy, last) then [last.trialId] else [])
  }

  function TrialViolations(profile: Profile, trials: seq<Trial>): seq<Violation> {
    if trials == [] then []
    else
      var last := trials[|trials| - 1];
      TrialViolations(profile, trials[..|trials| - 1])
      + (if !Terminated(last) then [NoTerminalEvidence]
         else if !GateEvidenceMatches(profile, last) then [GateEvidence(last.trialId)] else [])
  }

  function When(condition: bool, violation: Violation): seq<Violation> {
    if condition then [violation] else []
  }

  function SetOf(ids: seq<Id>): set<Id> { set x | x in ids }

  // ---------------------------------------------------------------- coverage

  ghost predicate HasRow(rows: seq<ScoreRow>, trialId: Id, foldId: Id) {
    exists i :: 0 <= i < |rows| && rows[i].trialId == trialId && rows[i].foldId == foldId
  }

  /** The trials with a score, in order of first appearance. */
  function Seen(rows: seq<ScoreRow>): seq<Id> {
    if rows == [] then []
    else
      var before := Seen(rows[..|rows| - 1]);
      var t := rows[|rows| - 1].trialId;
      if t in before then before else before + [t]
  }

  /** The folds a trial has a score for, each once, in order of appearance. */
  function Observed(rows: seq<ScoreRow>, trialId: Id): seq<Id> {
    if rows == [] then []
    else
      var before := Observed(rows[..|rows| - 1], trialId);
      var last := rows[|rows| - 1];
      if last.trialId == trialId && last.foldId !in before then before + [last.foldId] else before
  }

  function RepeatViolations(rows: seq<ScoreRow>): seq<Violation> {
    if rows == [] then []
    else
      var front, last := rows[..|rows| - 1], rows[|rows| - 1];
      RepeatViolations(front) + When(last.foldId in Observed(front, last.trialId), RepeatedScore)
  }

  datatype FoldCoverage = FoldCoverage(trialId: Id, observed: seq<Id>)

  function CoverageOf(rows: seq<ScoreRow>, trialIds: seq<Id>): (r: seq<FoldCoverage>)
    ensures |r| == |trialIds|
    ensures forall i :: 0 <= i < |r| ==> r[i] == FoldCoverage(trialIds[i], Sort(Observed(rows, trialIds[i]), IdLe))
  {
    if trialIds == [] then []
    else CoverageOf(rows, trialIds[..|trialIds| - 1])
         + [FoldCoverage(trialIds[|trialIds| - 1], Sort(Observed(rows, trialIds[|trialIds| - 1]), IdLe))]
  }

  function MatrixIds(rows: seq<ScoreRow>): seq<Id> { Sort(Seen(rows), IdLe) }

  lemma {:induction false} ObservedAre(rows: seq<ScoreRow>, t: Id)
    ensures NoDuplicates(Observed(rows, t))
    ensures forall f :: f in Observed(rows, t) <==> HasRow(rows, t, f)
  {
    if rows != [] {
      var front, last := rows[..|rows| - 1], rows[|rows| - 1];
      ObservedAre(front, t);
      forall f ensures f in Observed(rows, t) <==> HasRow(rows, t, f) {
        RowOfExtended(front, last, t, f);
        assert rows == front + [last];
      }
    }
  }

  lemma {:induction false} RowOfExtended(front: seq<ScoreRow>, last: ScoreRow, t: Id, f: Id)
    ensures HasRow(front + [last], t, f) <==> HasRow(front, t, f) || (last.trialId == t && last.foldId == f)
  {
    var rows := front + [last];
    assert rows[|front|] == last;
    if HasRow(front, t, f) {
      var i :| 0 <= i < |front| && front[i].trialId == t && front[i].foldId == f;
      assert rows[i] == front[i];
    }
  }

  lemma {:induction false} SeenAre(rows: seq<ScoreRow>)
    ensures NoDuplicates(Seen(rows))
    ensures forall t :: t in Seen(rows) <==> exists r :: r in rows && r.trialId == t
  {
    if rows != [] {
      var front, last := rows[..|rows| - 1], rows[|rows| - 1];
      SeenAre(front);
      assert rows == front + [last];
      forall t ensures t in Seen(rows) <==> exists r :: r in rows && r.trialId == t {
        if t in Seen(front) { var r :| r in front && r.trialId == t; assert r in rows; }
        if t == last.trialId { assert last in rows; }
      }
    }
  }

  lemma {:induction false} RepeatsExactly(rows: seq<ScoreRow>)
    ensures RepeatViolations(rows) == [] <==> DistinctPairs(rows)
  {
    if rows != [] {
      var front, last := rows[..|rows| - 1], rows[|rows| - 1];
      RepeatsExactly(front);
      ObservedAre(front, last.trialId);
      assert rows == front + [last];
      if HasRow(front, last.trialId, last.foldId) {
        var i :| 0 <= i < |front| && front[i].trialId == last.trialId && front[i].foldId == last.foldId;
        assert rows[i] == front[i] && rows[|front|] == last;
      }
    }
  }

  function ObservedAfter(before: seq<Id>, row: ScoreRow, t: Id): seq<Id> {
    if row.trialId == t && row.foldId !in before then before + [row.foldId] else before
  }

  lemma {:induction false} CoverageStep(rows: seq<ScoreRow>, i: nat)
    requires i < |rows|
    ensures var row := rows[i];
      && Seen(rows[..i + 1]) == (if row.trialId in Seen(rows[..i]) then Seen(rows[..i]) else Seen(rows[..i]) + [row.trialId])
      && RepeatViolations(rows[..i + 1])
         == RepeatViolations(rows[..i]) + When(row.foldId in Observed(rows[..i], row.trialId), RepeatedScore)
      && forall t :: Observed(rows[..i + 1], t) == ObservedAfter(Observed(rows[..i], t), row, t)
  {
    assert rows[..i + 1][..i] == rows[..i] && rows[..i + 1][i] == rows[i];
  }

  /** The coverage scan as it runs, over a dictionary of fold lists and a set of pairs. */
  method MatrixCoverage(scores: seq<ScoreRow>) returns (matrixIds: seq<Id>, coverage: seq<FoldCoverage>, violations: seq<Violation>)
    ensures matrixIds == MatrixIds(scores)
    ensures coverage == CoverageOf(scores, MatrixIds(scores))
    ensures violations == RepeatViolations(scores)
  {
    hide IdLe, LexLe, Sort, Seen, Observed, RepeatViolations, CoverageOf;
    NothingSeen(scores);
    var order: seq<Id> := [];
    var foldsByTrial: map<Id, seq<Id>> := map[];
    var pairs: set<(Id, Id)> := {};
    violations := [];
    for i := 0 to |scores|
      invariant order == Seen(scores[..i]) && violations == RepeatViolations(scores[..i])
      invariant forall t :: t in foldsByTrial <==> t in order
      invariant forall t :: t in foldsByTrial ==> foldsByTrial[t] == Observed(scores[..i], t)
      invariant forall t, f :: (t, f) in pairs <==> f in Observed(scores[..i], t)
    {
      var score := scores[i];
      CoverageStep(scores, i);
      var pair := (score.trialId, score.foldId);
      NothingObservedUnseen(scores[..i], score.trialId);
      SeenWhenObserved(scores[..i], score.trialId, score.foldId);
      if pair in pairs {
        violations := violations + [RepeatedScore];
        continue;
      }
      pairs := pairs + {pair};
      if score.trialId !in foldsByTrial {
        foldsByTrial := foldsByTrial[score.trialId := []];
        order := order + [score.trialId];
      }
      foldsByTrial := foldsByTrial[score.trialId := foldsByTrial[score.trialId] + [score.foldId]];
    }
    assert scores[..|scores|] == scores;
    matrixIds := Sort(order, IdLe);
    SortMembers(order, IdLe);
    coverage := [];
    for i := 0 to |matrixIds|
      invariant coverage == CoverageOf(scores, matrixIds[..i])
    {
      assert matrixIds[i] in matrixIds;
      CoverageExtends(scores, matrixIds, i);
      coverage := coverage + [FoldCoverage(matrixIds[i], Sort(foldsByTrial[matrixIds[i]], IdLe))];
    }
    assert matrixIds[..|matrixIds|] == matrixIds;
  }

  lemma {:induction false} NothingSeen(rows: seq<ScoreRow>)
    ensures Seen(rows[..0]) == [] && RepeatViolations(rows[..0]) == [] && forall t :: Observed(rows[..0], t) == []
    ensures CoverageOf(rows, []) == []
  {
  }

  lemma {:induction false} CoverageExtends(rows: seq<ScoreRow>, ids: seq<Id>, i: nat)
    requires i < |ids|
    ensures CoverageOf(rows, ids[..i + 1]) == CoverageOf(rows, ids[..i]) + [FoldCoverage(ids[i], Sort(Observed(rows, ids[i]), IdLe))]
  {
    assert ids[..i + 1][..i] == ids[..i];
  }

  lemma {:induction false} NothingObservedUnseen(rows: seq<ScoreRow>, t: Id)
    ensures t !in Seen(rows) ==> Observed(rows, t) == []
  {
    if rows != [] { NothingObservedUnseen(rows[..|rows| - 1], t); }
  }

  lemma {:induction false} SeenWhenObserved(rows: seq<ScoreRow>, t: Id, f: Id)
    ensures f in Observed(rows, t) ==> t in Seen(rows)
  {
    if rows != [] { SeenWhenObserved(rows[..|rows| - 1], t, f); }
  }

  // ---------------------------------------------------------------- the certificate

  datatype Certificate = Certificate(
    lineageId: Id, validationId: Id, profileHash: Digest, searchRunHash: Digest, scoreDirection: Direction,
    matrixDigest: Option<Digest>, passed: bool, startedIds: seq<Id>, terminalIds: seq<Id>, eligibleIds: seq<Id>,
    matrixIds: seq<Id>, expectedFoldIds: seq<Id>, coverage: seq<FoldCoverage>, normalStop: bool, minimumEligible: nat)

  function CoverageTrials(coverage: seq<FoldCoverage>): (r: seq<Id>)
    ensures |r| == |coverage| && forall i :: 0 <= i < |r| ==> r[i] == coverage[i].trialId
  {
    if coverage == [] then [] else [coverage[0].trialId] + CoverageTrials(coverage[1..])
  }

  predicate Identifiers(ids: seq<Id>) { !HasRepeats(ids) && [] !in ids }

  /** The certificate constructor's own, independent completeness checks. */
  predicate CertificateAccepted(c: Certificate) {
    && c.lineageId != [] && c.validationId != [] && c.minimumEligible >= 1
    && (c.passed ==>
      && c.matrixDigest.Some?
      && Identifiers(c.startedIds) && Identifiers(c.terminalIds) && Identifiers(c.eligibleIds)
      && Identifiers(c.matrixIds) && Identifiers(c.expectedFoldIds)
      && !HasRepeats(CoverageTrials(c.coverage))
      && |c.expectedFoldIds| >= 2 && |c.expectedFoldIds| % 2 == 0
      && SetOf(c.startedIds) == SetOf(c.terminalIds)
      && SetOf(c.eligibleIds) == SetOf(c.matrixIds)
      && SetOf(CoverageTrials(c.coverage)) == SetOf(c.matrixIds)
      && (forall i :: 0 <= i < |c.coverage| ==> SetOf(c.coverage[i].observed) == SetOf(c.expectedFoldIds))
      && c.normalStop
      && |c.eligibleIds| >= c.minimumEligible)
  }

  predicate CoversWrongly(item: FoldCoverage, foldIds: seq<Id>) {
    SetOf(item.observed) != SetOf(foldIds) || |item.observed| != |foldIds|
  }

  function CoverageViolations(coverage: seq<FoldCoverage>, foldIds: seq<Id>): seq<Violation> {
    if coverage == [] then []
    else
      var last := coverage[|coverage| - 1];
      CoverageViolations(coverage[..|coverage| - 1], foldIds) + When(CoversWrongly(last, foldIds), RowFolds(last.trialId))
  }

  function RowViolation(row: ScoreRow, eligible: seq<Id>, foldIds: seq<Id>): seq<Violation> {
    if !row.score.Usable() then [UnusableScore]
    else if row.trialId !in eligible then [IneligibleScore]
    else if row.foldId !in foldIds then [ForeignFold]
    else []
  }

  /** The first row that is unusable, ineligible or outside the profile. */
  function FirstRowViolation(rows: seq<ScoreRow>, eligible: seq<Id>, foldIds: seq<Id>): seq<Violation> {
    if rows == [] then []
    else
      var v := RowViolation(rows[0], eligible, foldIds);
      if v != [] then v else FirstRowViolation(rows[1..], eligible, foldIds)
  }

  predicate UnknownGateNamed(policy: Policy, profile: Profile) {
    exists g :: g in policy.eligibleGateIds && forall k :: 0 <= k < |profile.hardGates| ==> profile.hardGates[k].gateId != g
  }

  function LedgerViolations(run: SearchRun, profile: Profile, policy: Policy): seq<Violation> {
    var started, terminal := TrialIds(run.trials), TerminalIds(run.trials);
    When(!run.ledgerValid, LedgerInvalid)
    + TrialViolations(profile, run.trials)
    + When([] in started, BlankStarted)
    + When([] in terminal, BlankTerminal)
    + When(HasRepeats(started), RepeatedStarted)
    + When(HasRepeats(terminal), RepeatedTerminal)
    + When(HasRepeats(profile.foldIds), RepeatedFolds)
    + When(|profile.foldIds| < 2 || |profile.foldIds| % 2 != 0, FoldCount)
    + When(run.profileHash != profile.profileHash, RunProfile)
    + When(policy.profileHash != profile.profileHash, PolicyProfile)
    + When(UnknownGateNamed(policy, profile), UnknownGate)
    + When(SetOf(started) != SetOf(terminal) || |started| != |terminal|, StartedNotTerminal)
  }

  function ScoreViolations(profile: Profile, eligible: seq<Id>, rows: seq<ScoreRow>): seq<Violation> {
    RepeatViolations(rows)
    + When(SetOf(eligible) != SetOf(MatrixIds(rows)) || |eligible| != |MatrixIds(rows)|, EligibleNotMatrix)
    + CoverageViolations(CoverageOf(rows, MatrixIds(rows)), profile.foldIds)
    + FirstRowViolation(rows, eligible, profile.foldIds)
  }

  function SortedEligible(run: SearchRun, profile: Profile, policy: Policy): seq<Id> {
    Sort(EligibleIds(profile, policy, run.trials), IdLe)
  }

  /** Every violation the certifier records, in the order it records them. */
  function AllViolations(run: SearchRun, profile: Profile, policy: Policy, rows: seq<ScoreRow>): seq<Violation> {
    var eligible := SortedEligible(run, profile, policy);
    LedgerViolations(run, profile, policy)
    + ScoreViolations(profile, eligible, rows)
    + When(!(run.stopped && !run.failed), NotNormallyStopped)
    + When(|eligible| < profile.minimumEligible, TooFewEligible)
  }

  datatype CertifyError = BlankIdentity | DirectionMismatch | ConstructorRefused

  function DigestOf(input: Result<seq<Byte>, CanonError>, hash: seq<Byte> -> Digest): Option<Digest> {
    match input
    case Ok(bytes) => Some(hash(bytes))
    case Err(_) => None
  }

  /** The certificate assembled from the run and the recorded violations. */
  function Assembled(lineageId: Id, validationId: Id, run: SearchRun, profile: Profile, policy: Policy,
                     rows: seq<ScoreRow>, hash: seq<Byte> -> Digest): Certificate
  {
    var eligible := SortedEligible(run, profile, policy);
    Certificate(
      lineageId, validationId, profile.profileHash, run.runHash, profile.direction,
      DigestOf(MatrixInput(profile.profileHash, profile.foldIds, eligible, profile.direction, rows), hash),
      AllViolations(run, profile, policy, rows) == [],
      Sort(TrialIds(run.trials), IdLe), Sort(TerminalIds(run.trials), IdLe), Sort(eligible, IdLe),
      MatrixIds(rows), profile.foldIds, CoverageOf(rows, MatrixIds(rows)),
      run.stopped && !run.failed, profile.minimumEligible)
  }

  /** The certifier as it runs: scan the ledger, scan the scores, then let the
      certificate constructor have the last word. */
  method CertifyPboInput(lineageId: Id, validationId: Id, run: SearchRun, profile: Profile, policy: Policy,
                         rows: seq<ScoreRow>, direction: Direction, hash: seq<Byte> -> Digest)
    returns (r: Result<Certificate, CertifyError>)
    ensures lineageId == [] || validationId == [] ==> r == Err(BlankIdentity)
    ensures lineageId != [] && validationId != [] && direction != profile.direction ==> r == Err(DirectionMismatch)
    ensures lineageId != [] && validationId != [] && direction == profile.direction ==>
      var c := Assembled(lineageId, validationId, run, profile, policy, rows, hash);
      r == if CertificateAccepted(c) then Ok(c) else Err(ConstructorRefused)
  {
    hide IdLe, LexLe, Sort, CertificateAccepted, MatrixInput, CoverageOf, HasRepeats, MatrixIds, TerminalIds, EligibleIds, TrialViolations, ScoreViolations, UnknownGateNamed;
    if lineageId == [] || validationId == [] {
      return Err(BlankIdentity);
    }
    if direction != profile.direction {
      return Err(DirectionMismatch);
    }
    var started := TrialIds(run.trials);
    var terminalIds, derivedEligible, trialViolations := ScanTrials(run.trials, profile, policy);
    var violations := When(!run.ledgerValid, LedgerInvalid) + trialViolations;
    var eligible := Sort(derivedEligible, IdLe);
    violations := violations + When([] in started, BlankStarted);
    violations := violations + When([] in terminalIds, BlankTerminal);
    violations := violations + When(HasRepeats(started), RepeatedStarted);
    violations := violations + When(HasRepeats(terminalIds), RepeatedTerminal);
    violations := violations + When(HasRepeats(profile.foldIds), RepeatedFolds);
    violations := violations + When(|profile.foldIds| < 2 || |profile.foldIds| % 2 != 0, FoldCount);
    violations := violations + When(run.profileHash != profile.profileHash, RunProfile);
    violations := violations + When(policy.profileHash != profile.profileHash, PolicyProfile);
    violations := violations + When(UnknownGateNamed(policy, profile), UnknownGate);
    violations := violations + When(SetOf(started) != SetOf(terminalIds) || |started| != |terminalIds|, StartedNotTerminal);
    assert violations == LedgerViolations(run, profile, policy);
    var matrixIds, coverage, repeats := MatrixCoverage(rows);
    var scoreViolations := CheckScores(profile, eligible, rows, matrixIds, coverage, repeats);
    violations := violations + scoreViolations;
    var normalStop := run.stopped && !run.failed;
    violations := violations + When(!normalStop, NotNormallyStopped);
    violations := violations + When(|eligible| < profile.minimumEligible, TooFewEligible);
    var input := MatrixInput(profile.profileHash, profile.foldIds, eligible, direction, rows);
    var certificate := Certificate(
      lineageId, validationId, profile.profileHash, run.runHash, direction, DigestOf(input, hash), violations == [],
      Sort(started, IdLe), Sort(terminalIds, IdLe), Sort(eligible, IdLe), matrixIds, profile.foldIds, coverage,
      normalStop, profile.minimumEligible);
    r := if CertificateAccepted(certificate) then Ok(certificate) else Err(ConstructorRefused);
  }

  method ScanTrials(trials: seq<Trial>, profile: Profile, policy: Policy)
    returns (terminalIds: seq<Id>, derivedEligible: seq<Id>, violations: seq<Violation>)
    ensures terminalIds == TerminalIds(trials)
    ensures derivedEligible == EligibleIds(profile, policy, trials)
    ensures violations == TrialViolations(profile, trials)
  {
    hide GateEvidenceMatches, Permits;
    terminalIds, derivedEligible, violations := [], [], [];
    for i := 0 to |trials|
      invariant terminalIds == TerminalIds(trials[..i])
      invariant derivedEligible == EligibleIds(profile, policy, trials[..i])
      invariant violations == TrialViolations(profile, trials[..i])
    {
      var trial := trials[i];
      assert trials[..i + 1][..i] == trials[..i] && trials[..i + 1][i] == trial;
      if !Terminated(trial) {
        violations := violations + [NoTerminalEvidence];
        continue;
      }
      terminalIds := terminalIds + [trial.trialId];
      if !GateEvidenceMatches(profile, trial) {
        violations := violations + [GateEvidence(trial.trialId)];
        continue;
      }
      if Permits(policy, profile, trial) {
        derivedEligible := derivedEligible + [trial.trialId];
      }
    }
    assert trials[..|trials|] == trials;
  }

  method CheckScores(profile: Profile, eligible: seq<Id>, rows: seq<ScoreRow>, matrixIds: seq<Id>,
                     coverage: seq<FoldCoverage>, repeats: seq<Violation>)
    returns (violations: seq<Violation>)
    requires matrixIds == MatrixIds(rows) && coverage == CoverageOf(rows, matrixIds) && repeats == RepeatViolations(rows)
    ensures violations == ScoreViolations(profile, eligible, rows)
  {
    hide IdLe, LexLe, Sort, CoverageOf, MatrixIds, Observed;
    violations := repeats + When(SetOf(eligible) != SetOf(matrixIds) || |eligible| != |matrixIds|, EligibleNotMatrix);
    ghost var before := violations;
    for i := 0 to |coverage|
      invariant violations == before + CoverageViolations(coverage[..i], profile.foldIds)
    {
      assert coverage[..i + 1][..i] == coverage[..i];
      if CoversWrongly(coverage[i], profile.foldIds) {
        violations := violations + [RowFolds(coverage[i].trialId)];
      }
    }
    assert coverage[..|coverage|] == coverage;
    ghost var covered := violations;
    assert rows[0..] == rows;
    for i := 0 to |rows|
      invariant violations == covered
      invariant FirstRowViolation(rows, eligible, profile.foldIds) == FirstRowViolation(rows[i..], eligible, profile.foldIds)
    {
      var found := RowViolation(rows[i], eligible, profile.foldIds);
      assert rows[i..][1..] == rows[i + 1..];
      if found != [] {
        return violations + found;
      }
    }
    assert rows[|rows|..] == [];
  }
}
