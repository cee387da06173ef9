/** What makes a trial's gate evidence match its profile, what makes a trial eligible, what the
    certificate records and what its constructor accepts, each from the fields themselves. */
module PboEvidence {
  import opened Cscv
  import opened Digits
  import opened Octets
  import opened Ordering
  import opened Outcomes
  import opened PboCertificate
  import opened PboCertification
  import opened PboMatrix
  import opened TrialEvidence

  // ---------------------------------------------------------------- gate evidence

  /** A result is about its gate, word for word, and shows the expected decision: the observed value
      passes or fails, the decision says so, and exactly a failure carries a reason. */
  ghost predicate Shows(gate: Gate, result: GateResult, pass: bool) {
    && result.gateId == gate.gateId && result.metricName == gate.metricName
    && result.threshold == gate.threshold && result.comparison == gate.comparison
    && (Passes(gate.comparison, result.observed, gate.threshold) <==> pass)
    && (result.decision.Pass? <==> pass) && (result.hasReason <==> !pass)
  }

  lemma {:induction false} ShowsItsDecision(gate: Gate, result: GateResult)
    ensures ProvesGate(gate, result) <==> Shows(gate, result, result.decision.Pass?)
    ensures forall pass :: Shows(gate, result, pass) ==> (pass <==> result.decision.Pass?)
  {
  }

  lemma {:induction false} MetricHas(metrics: seq<Metric>, name: Id, value: real)
    requires forall i, j :: 0 <= i < j < |metrics| ==> metrics[i].name != metrics[j].name
    ensures MetricValue(metrics, name) == Some(value) <==> Metric(name, value) in metrics
  {
    if metrics != [] {
      var rest := metrics[1..];
      assert metrics == [metrics[0]] + rest;
      MetricHas(rest, name, value);
      if metrics[0].name == name {
        forall m | m in rest ensures m.name != name {
          var j :| 0 <= j < |rest| && rest[j] == m;
          assert metrics[j + 1] == m;
        }
      }
    }
  }

  /** The evidence of an evaluated trial passes every gate of the profile on the trial's own metrics; that of
      a rejected one passes the profile's first gates in order and fails at the last one it reports. */
  ghost predicate Evidenced(profile: Profile, e: Evaluation) {
    var gates, results := profile.hardGates, e.gateResults;
    && (forall i, j :: 0 <= i < j < |e.metrics| ==> e.metrics[i].name != e.metrics[j].name)
    && (e.terminal.Evaluated? ==> |results| == |gates| && forall k :: 0 <= k < |results| ==>
         Shows(gates[k], results[k], true) && Metric(gates[k].metricName, results[k].observed) in e.metrics)
    && (e.terminal.RejectedHardGate? ==> 0 < |results| <= |gates| && forall k :: 0 <= k < |results| ==>
         Shows(gates[k], results[k], k < |results| - 1))
  }

  lemma {:induction false} EvidenceExactly(profile: Profile, trial: Trial)
    ensures GateEvidenceMatches(profile, trial)
       <==> trial.evaluation.Some? && trial.terminal == Some(trial.evaluation.value.terminal) && Evidenced(profile, trial.evaluation.value)
  {
    hide Shows, ProvesGate, MetricValue, Passes;
    if trial.evaluation.Some? {
      var e := trial.evaluation.value;
      var gates, results := profile.hardGates, e.gateResults;
      forall k | 0 <= k < |results| && k < |gates|
        ensures ProvesGate(gates[k], results[k]) <==> Shows(gates[k], results[k], results[k].decision.Pass?)
        ensures forall pass :: Shows(gates[k], results[k], pass) ==> (pass <==> results[k].decision.Pass?)
      {
        ShowsItsDecision(gates[k], results[k]);
      }
      if !RepeatsMetric(e.metrics) {
        forall k | 0 <= k < |results| && k < |gates|
          ensures MetricValue(e.metrics, gates[k].metricName) == Some(results[k].observed)
             <==> Metric(gates[k].metricName, results[k].observed) in e.metrics
        {
          MetricHas(e.metrics, gates[k].metricName, results[k].observed);
        }
      }
    }
  }

  /** A trial is eligible exactly when it is complete, its evidence matches, the policy is for this profile,
      and it was evaluated or failed at a gate the policy excepts. */
  lemma {:induction false} EligibleExactly(profile: Profile, policy: Policy, trial: Trial)
    ensures IsEligible(profile, policy, trial)
       <==> && policy.profileHash == profile.profileHash && trial.evaluation.Some?
            && trial.terminal == Some(trial.evaluation.value.terminal) && Evidenced(profile, trial.evaluation.value)
            && trial.evaluation.value.complete
            && (trial.terminal == Some(Evaluated)
                || (trial.terminal == Some(RejectedHardGate)
                    && trial.evaluation.value.gateResults[|trial.evaluation.value.gateResults| - 1].gateId in policy.eligibleGateIds))
  {
    hide ProvesGate, Shows;
    EvidenceExactly(profile, trial);
  }

  /** A policy names no unknown gate exactly when each gate it names is one of the profile's. */
  lemma {:induction false} UnknownGateExactly(policy: Policy, profile: Profile)
    ensures !UnknownGateNamed(policy, profile)
       <==> forall g :: g in policy.eligibleGateIds ==> exists gate :: gate in profile.hardGates && gate.gateId == g
  {
    if UnknownGateNamed(policy, profile) {
      var g :| g in policy.eligibleGateIds && forall k :: 0 <= k < |profile.hardGates| ==> profile.hardGates[k].gateId != g;
      assert !exists gate :: gate in profile.hardGates && gate.gateId == g;
    } else {
      forall g | g in policy.eligibleGateIds ensures exists gate :: gate in profile.hardGates && gate.gateId == g {
        var k :| 0 <= k < |profile.hardGates| && profile.hardGates[k].gateId == g;
        assert profile.hardGates[k] in profile.hardGates;
      }
    }
  }

  // ---------------------------------------------------------------- what the ledger scan keeps

  ghost predicate Kept(trials: seq<Trial>, at: seq<nat>, ids: seq<Id>) {
    && |at| == |ids|
    && (forall i, j :: 0 <= i < j < |at| ==> at[i] < at[j])
    && (forall i :: 0 <= i < |at| ==> at[i] < |trials| && ids[i] == trials[at[i]].trialId)
  }

  lemma {:induction false} KeptFurther(front: seq<Trial>, last: Trial, at: seq<nat>, ids: seq<Id>)
    requires Kept(front, at, ids)
    ensures Kept(front + [last], at, ids) && Kept(front + [last], at + [|front|], ids + [last.trialId])
  {
  }

  /** The terminal trials are those with a terminal and an evaluation, each in its ledger place. */
  lemma {:induction false} TerminalsListed(trials: seq<Trial>) returns (at: seq<nat>)
    ensures Kept(trials, at, TerminalIds(trials))
    ensures forall k :: k in at <==> 0 <= k < |trials| && trials[k].terminal.Some? && trials[k].evaluation.Some?
  {
    if trials == [] {
      at := [];
    } else {
      var front, last := trials[..|trials| - 1], trials[|trials| - 1];
      assert trials == front + [last];
      at := TerminalsListed(front);
      KeptFurther(front, last, at, TerminalIds(front));
      if last.terminal.Some? && last.evaluation.Some? { at := at + [|front|]; } else { assert TerminalIds(trials) == TerminalIds(front); }
    }
  }

  /** So are the eligible ones. */
  lemma {:induction false} EligiblesListed(profile: Profile, policy: Policy, trials: seq<Trial>) returns (at: seq<nat>)
    ensures Kept(trials, at, EligibleIds(profile, policy, trials))
    ensures forall k :: k in at <==> 0 <= k < |trials| && IsEligible(profile, policy, trials[k])
  {
    hide IsEligible;
    if trials == [] {
      at := [];
    } else {
      var front, last := trials[..|trials| - 1], trials[|trials| - 1];
      assert trials == front + [last];
      at := EligiblesListed(profile, policy, front);
      KeptFurther(front, last, at, EligibleIds(profile, policy, front));
      if IsEligible(profile, policy, last) { at := at + [|front|]; } else { assert EligibleIds(profile, policy, trials) == EligibleIds(profile, policy, front); }
    }
  }

  // ---------------------------------------------------------------- the certificate

  /** A list in identifier order with the same entries. */
  ghost predicate InOrder(sorted: seq<Id>, ids: seq<Id>) {
    multiset(sorted) == multiset(ids) && forall i, j :: 0 <= i < j < |sorted| ==> LexLe(sorted[i], sorted[j])
  }

  lemma {:induction false} SortedInOrder(ids: seq<Id>)
    ensures InOrder(Sort(ids, IdLe), ids)
  {
    hide Sort, LexLe;
    IdLeIsPreorder();
    SortKeeps(ids, IdLe);
    SortSorts(ids, IdLe);
    forall i, j | 0 <= i < j < |ids| ensures LexLe(Sort(ids, IdLe)[i], Sort(ids, IdLe)[j]) {
      assert IdLe(Sort(ids, IdLe)[i], Sort(ids, IdLe)[j]);
    }
  }

  /** The certificate lists every started, terminal and eligible trial of the ledger in identifier order, passed
      or not, and names the run, the profile and the stop; it passed exactly when the input was complete. */
  lemma {:induction false} CertificateLists(lineageId: Id, validationId: Id, run: SearchRun, profile: Profile, policy: Policy,
                                            rows: seq<ScoreRow>, hash: seq<Byte> -> Digest)
    ensures var c := Assembled(lineageId, validationId, run, profile, policy, rows, hash);
      && c.lineageId == lineageId && c.validationId == validationId
      && c.profileHash == profile.profileHash && c.searchRunHash == run.runHash && c.scoreDirection == profile.direction
      && c.expectedFoldIds == profile.foldIds && c.minimumEligible == profile.minimumEligible
      && (c.normalStop <==> run.stopped && !run.failed)
      && (c.passed <==> CompleteInput(run, profile, policy, rows))
      && InOrder(c.startedIds, TrialIds(run.trials)) && InOrder(c.terminalIds, TerminalIds(run.trials))
      && InOrder(c.eligibleIds, EligibleIds(profile, policy, run.trials))
  {
    hide CompleteInput, TrialIds, TerminalIds, EligibleIds, AllViolations, MatrixInput, MatrixIds, CoverageOf, InOrder, Sort;
    NoViolationExactly(run, profile, policy, rows);
    var eligible := EligibleIds(profile, policy, run.trials);
    SortedInOrder(TrialIds(run.trials));
    SortedInOrder(TerminalIds(run.trials));
    SortedInOrder(eligible);
    SortedInOrder(Sort(eligible, IdLe));
    SameEntries(Sort(Sort(eligible, IdLe), IdLe), Sort(eligible, IdLe), eligible);
  }

  lemma {:induction false} SameEntries(a: seq<Id>, b: seq<Id>, c: seq<Id>)
    requires InOrder(a, b) && InOrder(b, c)
    ensures InOrder(a, c)
  {
  }

  /** It lists each scored trial once, in identifier order, with each fold it was scored on once, in order. */
  lemma {:induction false} CertificateCovers(lineageId: Id, validationId: Id, run: SearchRun, profile: Profile, policy: Policy,
                                             rows: seq<ScoreRow>, hash: seq<Byte> -> Digest)
    ensures var c := Assembled(lineageId, validationId, run, profile, policy, rows, hash);
      && NoDuplicates(c.matrixIds) && InOrder(c.matrixIds, c.matrixIds)
      && (forall t :: t in c.matrixIds <==> exists r :: r in rows && r.trialId == t)
      && |c.coverage| == |c.matrixIds|
      && forall i :: 0 <= i < |c.coverage| ==>
           && c.coverage[i].trialId == c.matrixIds[i]
           && NoDuplicates(c.coverage[i].observed) && InOrder(c.coverage[i].observed, c.coverage[i].observed)
           && forall f :: f in c.coverage[i].observed <==> exists r :: r in rows && r.trialId == c.matrixIds[i] && r.foldId == f
  {
    hide Assembled, Seen, Observed, Sort, HasRow, LexLe, InOrder;
    var c := Assembled(lineageId, validationId, run, profile, policy, rows, hash);
    AssembledScores(lineageId, validationId, run, profile, policy, rows, hash);
    MatrixIdsAre(rows);
    SortedInOrder(Seen(rows));
    Ordered(c.matrixIds, Seen(rows));
    HasRowMembers(rows);
    forall i | 0 <= i < |c.coverage|
      ensures NoDuplicates(c.coverage[i].observed) && InOrder(c.coverage[i].observed, c.coverage[i].observed)
      ensures forall f :: f in c.coverage[i].observed <==> exists r :: r in rows && r.trialId == c.matrixIds[i] && r.foldId == f
    {
      SortedObserved(rows, c.matrixIds[i]);
      SortedInOrder(Observed(rows, c.matrixIds[i]));
      Ordered(c.coverage[i].observed, Observed(rows, c.matrixIds[i]));
    }
  }

  lemma {:induction false} Ordered(sorted: seq<Id>, ids: seq<Id>)
    requires InOrder(sorted, ids)
    ensures InOrder(sorted, sorted)
  {
  }

  lemma {:induction false} AssembledScores(lineageId: Id, validationId: Id, run: SearchRun, profile: Profile, policy: Policy,
                                           rows: seq<ScoreRow>, hash: seq<Byte> -> Digest)
    ensures var c := Assembled(lineageId, validationId, run, profile, policy, rows, hash);
      c.matrixIds == Sort(Seen(rows), IdLe) && c.coverage == CoverageOf(rows, c.matrixIds)
  {
    hide AllViolations, MatrixInput, Sort, Seen, CoverageOf;
  }

  /** A failed certificate needs only its identity. A passed one is accepted exactly when nothing in its lists
      repeats or is blank, started and terminal trials are the same, eligible, matrix and covered trials are
      the same, each covered trial has exactly the expected folds, of which there is an even number of at
      least two, the search stopped normally with enough eligible trials, and the matrix has a digest. */
  lemma {:induction false} ConstructorAcceptsExactly(c: Certificate)
    ensures !c.passed ==> (CertificateAccepted(c) <==> c.lineageId != [] && c.validationId != [] && c.minimumEligible >= 1)
    ensures c.passed ==> (CertificateAccepted(c) <==>
      && c.lineageId != [] && c.validationId != [] && c.minimumEligible >= 1
      && c.matrixDigest.Some? && c.normalStop && |c.eligibleIds| >= c.minimumEligible
      && (forall ids :: ids in [c.startedIds, c.terminalIds, c.eligibleIds, c.matrixIds, c.expectedFoldIds] ==> NoDuplicates(ids) && [] !in ids)
      && (forall t :: t in c.startedIds <==> t in c.terminalIds)
      && (forall t :: t in c.eligibleIds <==> t in c.matrixIds)
      && (forall t :: t in c.matrixIds <==> exists i :: 0 <= i < |c.coverage| && c.coverage[i].trialId == t)
      && (forall i, j :: 0 <= i < j < |c.coverage| ==> c.coverage[i].trialId != c.coverage[j].trialId)
      && (forall i :: 0 <= i < |c.coverage| ==> forall f :: f in c.coverage[i].observed <==> f in c.expectedFoldIds)
      && |c.expectedFoldIds| >= 2 && |c.expectedFoldIds| % 2 == 0)
  {
    hide SetOf, CoverageTrials;
    SameSet(c.startedIds, c.terminalIds);
    SameSet(c.eligibleIds, c.matrixIds);
    SameSet(CoverageTrials(c.coverage), c.matrixIds);
    assert |CoverageTrials(c.coverage)| == |c.coverage|;
    forall i | 0 <= i < |c.coverage|
      ensures SetOf(c.coverage[i].observed) == SetOf(c.expectedFoldIds) <==> forall f :: f in c.coverage[i].observed <==> f in c.expectedFoldIds
    {
      SameSet(c.coverage[i].observed, c.expectedFoldIds);
    }
    forall t ensures t in CoverageTrials(c.coverage) <==> exists i :: 0 <= i < |c.coverage| && c.coverage[i].trialId == t { }
    var lists := [c.startedIds, c.terminalIds, c.eligibleIds, c.matrixIds, c.expectedFoldIds];
    assert forall ids :: ids in lists <==>
      ids == c.startedIds || ids == c.terminalIds || ids == c.eligibleIds || ids == c.matrixIds || ids == c.expectedFoldIds;
  }

  lemma {:induction false} SameSet(a: seq<Id>, b: seq<Id>)
    ensures SetOf(a) == SetOf(b) <==> forall x :: x in a <==> x in b
  {
    if SetOf(a) == SetOf(b) {
      forall x ensures x in a <==> x in b { assert x in SetOf(a) <==> x in SetOf(b); }
    }
  }

  // ---------------------------------------------------------------- the builder's refusals

  /** Why the builder refuses, in its order: no passed certificate, another direction, scores that are not one for
      each certified trial and fold, an unusable score; only then does the digest come into it. */
  lemma {:induction false} BuilderRefusesExactly(c: Certificate, rows: seq<ScoreRow>, direction: Direction,
                                                 hash: seq<Byte> -> Digest, identity: Certificate -> Digest)
    ensures var r := BuildTrialFoldMatrix(c, rows, direction, hash, identity);
      var exact := ExactProduct(rows, c.matrixIds, c.expectedFoldIds);
      && (r == Err(CertificateIncomplete) <==> !c.passed)
      && (r == Err(WrongDirection) <==> c.passed && direction != c.scoreDirection)
      && (r == Err(NotTheCertifiedPairs) <==> c.passed && direction == c.scoreDirection && !exact)
      && (r == Err(NotFiniteScore) <==> c.passed && direction == c.scoreDirection && exact && !AllUsable(rows))
  {
    hide Sort, MatrixInput, MatrixAccepted, PairsOf, Product, ExactProduct, AllUsable;
    BuilderPairsExactly(rows, c.matrixIds, c.expectedFoldIds);
  }
}
