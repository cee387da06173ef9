/** The three completeness checks agree: what the certifier lets pass, the
    certificate constructor accepts, the matrix builder accepts in any row order,
    and the calculator finds bound; and the builder accepts nothing else. */
module PboCertification {
  import opened Canonical
  import opened Cscv
  import opened Digits
  import opened Octets
  import opened Ordering
  import opened Outcomes
  import opened PboCertificate
  import opened PboMatrix

  // ---------------------------------------------------------------- what no violation means

  /** One score for each trial and fold, and no other score. */
  ghost predicate ExactProduct(rows: seq<ScoreRow>, trialIds: seq<Id>, foldIds: seq<Id>) {
    DistinctPairs(rows) && forall t, f :: HasRow(rows, t, f) <==> t in trialIds && f in foldIds
  }

  ghost predicate CompleteLedger(run: SearchRun, profile: Profile, policy: Policy) {
    && run.ledgerValid
    && (forall i :: 0 <= i < |run.trials| ==> Terminated(run.trials[i]) && GateEvidenceMatches(profile, run.trials[i]))
    && NoDuplicates(TrialIds(run.trials)) && [] !in TrialIds(run.trials)
    && NoDuplicates(profile.foldIds) && |profile.foldIds| >= 2 && |profile.foldIds| % 2 == 0
    && run.profileHash == profile.profileHash == policy.profileHash
    && !UnknownGateNamed(policy, profile)
  }

  ghost predicate CompleteInput(run: SearchRun, profile: Profile, policy: Policy, rows: seq<ScoreRow>) {
    var eligible := EligibleIds(profile, policy, run.trials);
    && CompleteLedger(run, profile, policy)
    && ExactProduct(rows, eligible, profile.foldIds) && AllUsable(rows)
    && run.stopped && !run.failed
    && |eligible| >= profile.minimumEligible
  }

  lemma {:induction false} TrialViolationsExactly(profile: Profile, trials: seq<Trial>)
    ensures TrialViolations(profile, trials) == []
       <==> forall i :: 0 <= i < |trials| ==> Terminated(trials[i]) && GateEvidenceMatches(profile, trials[i])
    ensures TrialViolations(profile, trials) == [] ==> TerminalIds(trials) == TrialIds(trials)
  {
    hide GateEvidenceMatches;
    if trials != [] {
      var front, last := trials[..|trials| - 1], trials[|trials| - 1];
      TrialViolationsExactly(profile, front);
      assert trials == front + [last];
      assert forall i :: 0 <= i < |front| ==> front[i] == trials[i];
      if TrialViolations(profile, trials) == [] {
        assert TrialIds(trials) == TrialIds(front) + [last.trialId];
      }
    }
  }

  lemma {:induction false} EligibleMembers(profile: Profile, policy: Policy, trials: seq<Trial>, x: Id)
    ensures x in EligibleIds(profile, policy, trials) <==> exists t :: t in trials && IsEligible(profile, policy, t) && t.trialId == x
  {
    hide IsEligible;
    if trials != [] {
      var front, last := trials[..|trials| - 1], trials[|trials| - 1];
      EligibleMembers(profile, policy, front, x);
      assert trials == front + [last];
      if x in EligibleIds(profile, policy, front) {
        var t :| t in front && IsEligible(profile, policy, t) && t.trialId == x;
        assert t in trials;
      }
    }
  }

  lemma {:induction false} EligibleDistinct(profile: Profile, policy: Policy, trials: seq<Trial>)
    requires NoDuplicates(TrialIds(trials)) && [] !in TrialIds(trials)
    ensures NoDuplicates(EligibleIds(profile, policy, trials)) && [] !in EligibleIds(profile, policy, trials)
  {
    hide IsEligible, TrialIds;
    if trials != [] {
      var front, last := trials[..|trials| - 1], trials[|trials| - 1];
      var ids := TrialIds(trials);
      assert TrialIds(front) == ids[..|front|];
      assert ids[|front|] == last.trialId && ids[|front|] in ids;
      EligibleDistinct(profile, policy, front);
      EligibleMembers(profile, policy, front, last.trialId);
    }
  }

  lemma {:induction false} LedgerExactly(run: SearchRun, profile: Profile, policy: Policy)
    ensures LedgerViolations(run, profile, policy) == [] <==> CompleteLedger(run, profile, policy)
  {
    hide GateEvidenceMatches, TrialViolations, UnknownGateNamed, TerminalIds;
    TrialViolationsExactly(profile, run.trials);
  }

  lemma {:induction false} DistinctSize(s: seq<Id>)
    ensures NoDuplicates(s) ==> |SetOf(s)| == |s|
  {
    if s != [] {
      var front, last := s[..|s| - 1], s[|s| - 1];
      DistinctSize(front);
      assert s == front + [last];
      assert SetOf(s) == SetOf(front) + {last};
      if NoDuplicates(s) {
        assert NoDuplicates(front);
        assert last !in front;
      }
    }
  }

  lemma {:induction false} SameMembersSameSize(a: seq<Id>, b: seq<Id>)
    requires NoDuplicates(a) && NoDuplicates(b) && SetOf(a) == SetOf(b)
    ensures |a| == |b|
  {
    DistinctSize(a);
    DistinctSize(b);
  }

  lemma {:induction false} SortSetOf(s: seq<Id>)
    ensures SetOf(Sort(s, IdLe)) == SetOf(s)
    ensures NoDuplicates(s) ==> NoDuplicates(Sort(s, IdLe))
    ensures [] !in s ==> [] !in Sort(s, IdLe)
  {
    SortMembers(s, IdLe);
    if NoDuplicates(s) { SortKeepsDistinct(s, IdLe); }
  }

  lemma {:induction false} MatrixIdsAre(rows: seq<ScoreRow>)
    ensures NoDuplicates(MatrixIds(rows))
    ensures forall t :: t in MatrixIds(rows) <==> exists r :: r in rows && r.trialId == t
  {
    hide Sort, Seen;
    SeenAre(rows);
    SortSetOf(Seen(rows));
    SortMembers(Seen(rows), IdLe);
  }

  lemma {:induction false} SortedObserved(rows: seq<ScoreRow>, t: Id)
    ensures var s := Sort(Observed(rows, t), IdLe); NoDuplicates(s) && forall f :: f in s <==> HasRow(rows, t, f)
  {
    hide Sort;
    ObservedAre(rows, t);
    SortSetOf(Observed(rows, t));
    SortMembers(Observed(rows, t), IdLe);
  }

  lemma {:induction false} CoverageExactly(coverage: seq<FoldCoverage>, foldIds: seq<Id>)
    ensures CoverageViolations(coverage, foldIds) == []
       <==> forall i :: 0 <= i < |coverage| ==> !CoversWrongly(coverage[i], foldIds)
  {
    hide CoversWrongly;
    if coverage != [] {
      var front := coverage[..|coverage| - 1];
      CoverageExactly(front, foldIds);
      assert coverage == front + [coverage[|front|]];
      assert forall i :: 0 <= i < |front| ==> front[i] == coverage[i];
    }
  }

  lemma {:induction false} RowsExactly(rows: seq<ScoreRow>, eligible: seq<Id>, foldIds: seq<Id>)
    ensures FirstRowViolation(rows, eligible, foldIds) == []
       <==> forall r :: r in rows ==> r.score.Usable() && r.trialId in eligible && r.foldId in foldIds
  {
    if rows != [] {
      RowsExactly(rows[1..], eligible, foldIds);
      assert rows == [rows[0]] + rows[1..];
    }
  }

  lemma {:induction false} HasRowMembers(rows: seq<ScoreRow>)
    ensures forall r :: r in rows ==> HasRow(rows, r.trialId, r.foldId)
    ensures forall t, f :: HasRow(rows, t, f) ==> exists r :: r in rows && r.trialId == t && r.foldId == f
  {
    forall r | r in rows ensures HasRow(rows, r.trialId, r.foldId) {
      var i :| 0 <= i < |rows| && rows[i] == r;
    }
  }

  ghost predicate CoveredEachWay(rows: seq<ScoreRow>, eligible: seq<Id>, foldIds: seq<Id>) {
    && SetOf(eligible) == SetOf(MatrixIds(rows))
    && (forall t :: t in MatrixIds(rows) ==> forall f :: HasRow(rows, t, f) <==> f in foldIds)
    && (forall r :: r in rows ==> r.trialId in eligible && r.foldId in foldIds)
  }

  lemma {:induction false} ScoresExactly(profile: Profile, eligible: seq<Id>, rows: seq<ScoreRow>)
    requires NoDuplicates(eligible) && NoDuplicates(profile.foldIds)
    ensures ScoreViolations(profile, eligible, rows) == []
       <==> DistinctPairs(rows) && AllUsable(rows) && CoveredEachWay(rows, eligible, profile.foldIds)
  {
    hide Sort, Observed, MatrixIds, RepeatViolations, DistinctPairs, HasRow, IdLe;
    var ids := MatrixIds(rows);
    RepeatsExactly(rows);
    CoverageExactly(CoverageOf(rows, ids), profile.foldIds);
    RowsExactly(rows, eligible, profile.foldIds);
    UsableMembers(rows);
    MatrixIdsAre(rows);
    if SetOf(eligible) == SetOf(ids) { SameMembersSameSize(eligible, ids); }
    forall i | 0 <= i < |ids|
      ensures CoversWrongly(CoverageOf(rows, ids)[i], profile.foldIds) <==> !(forall f :: HasRow(rows, ids[i], f) <==> f in profile.foldIds)
    {
      CoverageMeans(rows, ids[i], profile.foldIds);
    }
    if CoverageViolations(CoverageOf(rows, ids), profile.foldIds) == [] {
      forall t | t in ids ensures forall f :: HasRow(rows, t, f) <==> f in profile.foldIds {
        var i :| 0 <= i < |ids| && ids[i] == t;
        assert !CoversWrongly(CoverageOf(rows, ids)[i], profile.foldIds);
      }
    }
    if forall t :: t in ids ==> forall f :: HasRow(rows, t, f) <==> f in profile.foldIds {
      forall i | 0 <= i < |ids| ensures !CoversWrongly(CoverageOf(rows, ids)[i], profile.foldIds) {
        assert ids[i] in ids;
      }
    }
  }

  lemma {:induction false} CoverageMeans(rows: seq<ScoreRow>, t: Id, foldIds: seq<Id>)
    requires NoDuplicates(foldIds)
    ensures CoversWrongly(FoldCoverage(t, Sort(Observed(rows, t), IdLe)), foldIds)
       <==> !(forall f :: HasRow(rows, t, f) <==> f in foldIds)
  {
    hide Sort, Observed, HasRow, IdLe;
    SortedObserved(rows, t);
    var s := Sort(Observed(rows, t), IdLe);
    if forall f :: HasRow(rows, t, f) <==> f in foldIds {
      assert SetOf(s) == SetOf(foldIds);
      SameMembersSameSize(s, foldIds);
    } else {
      var f :| HasRow(rows, t, f) <==> f !in foldIds;
      assert f in SetOf(s) <==> f !in SetOf(foldIds);
    }
  }

  lemma {:induction false} CoveredIsProduct(rows: seq<ScoreRow>, eligible: seq<Id>, foldIds: seq<Id>)
    requires foldIds != []
    ensures CoveredEachWay(rows, eligible, foldIds) && DistinctPairs(rows) <==> ExactProduct(rows, eligible, foldIds)
  {
    hide MatrixIds, DistinctPairs, HasRow;
    MatrixIdsAre(rows);
    HasRowMembers(rows);
    if CoveredEachWay(rows, eligible, foldIds) {
      forall t, f ensures HasRow(rows, t, f) <==> t in eligible && f in foldIds {
        if t in eligible { assert t in SetOf(eligible); assert t in SetOf(MatrixIds(rows)); }
        if HasRow(rows, t, f) { var r :| r in rows && r.trialId == t && r.foldId == f; }
      }
    }
    if ExactProduct(rows, eligible, foldIds) {
      forall t ensures t in SetOf(eligible) <==> t in SetOf(MatrixIds(rows)) {
        if t in eligible { assert HasRow(rows, t, foldIds[0]); }
        if t in MatrixIds(rows) {
          var r :| r in rows && r.trialId == t;
          assert HasRow(rows, r.trialId, r.foldId);
        }
      }
      assert SetOf(eligible) == SetOf(MatrixIds(rows));
      forall t | t in MatrixIds(rows) ensures forall f :: HasRow(rows, t, f) <==> f in foldIds {
        assert t in SetOf(MatrixIds(rows));
      }
    }
  }

  /** The certifier records no violation exactly when the ledger is complete, the
      scores are the full product of eligible trials and profile folds with no
      repeats, every score is usable, and the search stopped normally with enough
      eligible trials. */
  lemma {:induction false} NoViolationExactly(run: SearchRun, profile: Profile, policy: Policy, rows: seq<ScoreRow>)
    ensures AllViolations(run, profile, policy, rows) == [] <==> CompleteInput(run, profile, policy, rows)
  {
    hide Sort, LedgerViolations, ScoreViolations, CompleteLedger, ExactProduct, CoveredEachWay, DistinctPairs, EligibleIds;
    LedgerExactly(run, profile, policy);
    if CompleteLedger(run, profile, policy) {
      var eligible, sorted := EligibleIds(profile, policy, run.trials), SortedEligible(run, profile, policy);
      LedgerFacts(run, profile, policy);
      EligibleDistinct(profile, policy, run.trials);
      SortSetOf(eligible);
      SortMembers(eligible, IdLe);
      ScoresExactly(profile, sorted, rows);
      CoveredIsProduct(rows, sorted, profile.foldIds);
      ProductOfSame(rows, eligible, sorted, profile.foldIds);
    }
  }

  lemma {:induction false} LedgerFacts(run: SearchRun, profile: Profile, policy: Policy)
    requires CompleteLedger(run, profile, policy)
    ensures NoDuplicates(TrialIds(run.trials)) && [] !in TrialIds(run.trials) && NoDuplicates(profile.foldIds) && |profile.foldIds| >= 2
  {
  }

  lemma {:induction false} ProductOfSame(rows: seq<ScoreRow>, a: seq<Id>, b: seq<Id>, foldIds: seq<Id>)
    requires forall x :: x in a <==> x in b
    ensures ExactProduct(rows, a, foldIds) <==> ExactProduct(rows, b, foldIds)
  {
  }

  // ---------------------------------------------------------------- the constructor agrees

  lemma {:induction false} CoverageTrialsAre(rows: seq<ScoreRow>, ids: seq<Id>)
    ensures CoverageTrials(CoverageOf(rows, ids)) == ids
  {
    hide Sort, Observed;
    var c := CoverageOf(rows, ids);
    assert |CoverageTrials(c)| == |ids|;
  }

  /** A complete input makes a certificate the constructor accepts exactly when
      the matrix has a digest: what is left to fail is only its encoding. */
  lemma {:induction false} CompleteInputIsAccepted(lineageId: Id, validationId: Id, run: SearchRun, profile: Profile,
                                                   policy: Policy, rows: seq<ScoreRow>, hash: seq<Byte> -> Digest)
    requires CompleteInput(run, profile, policy, rows)
    requires lineageId != [] && validationId != [] && profile.minimumEligible >= 1 && [] !in profile.foldIds
    ensures var c := Assembled(lineageId, validationId, run, profile, policy, rows, hash);
      c.passed && (CertificateAccepted(c)
        <==> MatrixInput(profile.profileHash, profile.foldIds, SortedEligible(run, profile, policy), profile.direction, rows).Ok?)
  {
    hide Sort, IdLe, CompleteLedger, ExactProduct, MatrixInput, Observed, EligibleIds, MatrixIds, TerminalIds;
    NoViolationExactly(run, profile, policy, rows);
    var eligible, sorted, ids := EligibleIds(profile, policy, run.trials), SortedEligible(run, profile, policy), MatrixIds(rows);
    LedgerFacts(run, profile, policy);
    EligibleDistinct(profile, policy, run.trials);
    TerminalIsStarted(run, profile, policy);
    SortSetOf(TrialIds(run.trials));
    SortSetOf(eligible);
    SortSetOf(sorted);
    ProductSides(rows, eligible, profile.foldIds);
    CoverageTrialsAre(rows, ids);
    forall i | 0 <= i < |ids| ensures SetOf(CoverageOf(rows, ids)[i].observed) == SetOf(profile.foldIds) {
      assert ids[i] in ids;
      SortedObserved(rows, ids[i]);
    }
  }

  lemma {:induction false} TerminalIsStarted(run: SearchRun, profile: Profile, policy: Policy)
    requires CompleteLedger(run, profile, policy)
    ensures TerminalIds(run.trials) == TrialIds(run.trials)
  {
    hide GateEvidenceMatches, TrialViolations, TerminalIds, TrialIds;
    TrialViolationsExactly(profile, run.trials);
  }

  lemma {:induction false} ProductSides(rows: seq<ScoreRow>, eligible: seq<Id>, foldIds: seq<Id>)
    requires ExactProduct(rows, eligible, foldIds) && foldIds != []
    ensures NoDuplicates(MatrixIds(rows)) && SetOf(MatrixIds(rows)) == SetOf(eligible)
    ensures [] !in eligible ==> [] !in MatrixIds(rows)
    ensures forall t :: t in MatrixIds(rows) ==> forall f :: HasRow(rows, t, f) <==> f in foldIds
  {
    hide MatrixIds, HasRow, DistinctPairs;
    MatrixIdsAre(rows);
    CoveredIsProduct(rows, eligible, foldIds);
    assert [] in MatrixIds(rows) <==> [] in SetOf(MatrixIds(rows));
  }

  // ---------------------------------------------------------------- the matrix builder

  datatype Matrix = Matrix(
    profileHash: Digest, foldIds: seq<Id>, trialIds: seq<Id>, direction: Direction, scores: seq<ScoreRow>,
    certificateHash: Digest, matrixDigest: Digest)

  function PairsOf(rows: seq<ScoreRow>): set<(Id, Id)> { set r | r in rows :: (r.trialId, r.foldId) }

  function Product(trialIds: seq<Id>, foldIds: seq<Id>): set<(Id, Id)> { set t, f | t in trialIds && f in foldIds :: (t, f) }

  function MatrixHash(m: Matrix): Result<seq<Byte>, CanonError> {
    MatrixInput(m.profileHash, m.foldIds, m.trialIds, m.direction, m.scores)
  }

  /** The matrix constructor's checks. */
  predicate MatrixAccepted(m: Matrix, hash: seq<Byte> -> Digest) {
    && !HasRepeats(m.foldIds) && !HasRepeats(m.trialIds)
    && |m.foldIds| >= 2 && |m.foldIds| % 2 == 0 && m.trialIds != []
    && |PairsOf(m.scores)| == |m.scores| && PairsOf(m.scores) == Product(m.trialIds, m.foldIds)
    && AllUsable(m.scores)
    && DigestOf(MatrixHash(m), hash) == Some(m.matrixDigest)
  }

  datatype BuildError =
    | CertificateIncomplete | WrongDirection | NotTheCertifiedPairs | NotFiniteScore | NotEncodable | DigestMismatch | MatrixRefused

  function BuildTrialFoldMatrix(c: Certificate, rows: seq<ScoreRow>, direction: Direction, hash: seq<Byte> -> Digest,
                                identity: Certificate -> Digest): Result<Matrix, BuildError>
  {
    if !c.passed then Err(CertificateIncomplete)
    else if direction != c.scoreDirection then Err(WrongDirection)
    else if PairsOf(rows) != Product(c.matrixIds, c.expectedFoldIds) || |PairsOf(rows)| != |rows| then Err(NotTheCertifiedPairs)
    else if !AllUsable(rows) then Err(NotFiniteScore)
    else
      var ordered := Sort(rows, PairLe);
      var digest := DigestOf(MatrixInput(c.profileHash, c.expectedFoldIds, c.matrixIds, direction, ordered), hash);
      if digest.None? then Err(NotEncodable)
      else if c.matrixDigest != digest then Err(DigestMismatch)
      else
        var m := Matrix(c.profileHash, c.expectedFoldIds, c.matrixIds, direction, ordered, identity(c), digest.value);
        if MatrixAccepted(m, hash) then Ok(m) else Err(MatrixRefused)
  }

  /** The binding the calculator insists on before it computes anything. */
  predicate BoundTo(m: Matrix, c: Certificate, hash: seq<Byte> -> Digest, identity: Certificate -> Digest) {
    && m.profileHash == c.profileHash && m.foldIds == c.expectedFoldIds && m.trialIds == c.matrixIds
    && m.direction == c.scoreDirection && m.certificateHash == identity(c)
    && Some(m.matrixDigest) == c.matrixDigest && DigestOf(MatrixHash(m), hash) == c.matrixDigest
  }

  lemma {:induction false} PairCount(rows: seq<ScoreRow>)
    ensures |PairsOf(rows)| <= |rows|
    ensures |PairsOf(rows)| == |rows| <==> DistinctPairs(rows)
  {
    if rows != [] {
      var front, last := rows[..|rows| - 1], rows[|rows| - 1];
      PairCount(front);
      LastPair(front, last);
      assert rows == front + [last];
      assert PairsOf(rows) == PairsOf(front) + {(last.trialId, last.foldId)};
    }
  }

  lemma {:induction false} LastPair(front: seq<ScoreRow>, last: ScoreRow)
    ensures DistinctPairs(front + [last]) <==> DistinctPairs(front) && (last.trialId, last.foldId) !in PairsOf(front)
  {
    var rows, pair := front + [last], (last.trialId, last.foldId);
    if pair in PairsOf(front) {
      var i :| 0 <= i < |front| && (front[i].trialId, front[i].foldId) == pair;
      assert rows[i] == front[i] && rows[|front|] == last;
    } else {
      forall i | 0 <= i < |front| ensures (rows[i].trialId, rows[i].foldId) != pair { assert front[i] in front; }
    }
    assert forall i :: 0 <= i < |front| ==> rows[i] == front[i];
  }

  /** The builder's pair comparison says: exactly the certified product, no repeats. */
  lemma {:induction false} BuilderPairsExactly(rows: seq<ScoreRow>, trialIds: seq<Id>, foldIds: seq<Id>)
    ensures PairsOf(rows) == Product(trialIds, foldIds) && |PairsOf(rows)| == |rows| <==> ExactProduct(rows, trialIds, foldIds)
  {
    hide DistinctPairs, HasRow;
    PairCount(rows);
    HasRowMembers(rows);
    forall t, f ensures (t, f) in PairsOf(rows) <==> HasRow(rows, t, f) { }
    forall t, f ensures (t, f) in Product(trialIds, foldIds) <==> t in trialIds && f in foldIds { }
    if forall t, f :: HasRow(rows, t, f) <==> t in trialIds && f in foldIds {
      forall p ensures p in PairsOf(rows) <==> p in Product(trialIds, foldIds) {
        assert p == (p.0, p.1);
      }
    }
    if PairsOf(rows) == Product(trialIds, foldIds) {
      forall t, f ensures HasRow(rows, t, f) <==> t in trialIds && f in foldIds {
        assert (t, f) in PairsOf(rows) <==> (t, f) in Product(trialIds, foldIds);
      }
    }
  }

  /** A certificate the certifier returned, and what it was computed from. */
  ghost predicate Certified(c: Certificate, run: SearchRun, profile: Profile, policy: Policy, rows: seq<ScoreRow>,
                            hash: seq<Byte> -> Digest)
  {
    && c == Assembled(c.lineageId, c.validationId, run, profile, policy, rows, hash)
    && c.passed && CertificateAccepted(c)
  }

  /** The digest input the builder recomputes for some rows. */
  function RowsInput(c: Certificate, rows: seq<ScoreRow>): Result<seq<Byte>, CanonError> {
    MatrixInput(c.profileHash, c.expectedFoldIds, c.matrixIds, c.scoreDirection, rows)
  }

  lemma {:induction false} CertifiedFacts(c: Certificate, run: SearchRun, profile: Profile, policy: Policy,
                                          rows: seq<ScoreRow>, hash: seq<Byte> -> Digest)
    requires Certified(c, run, profile, policy, rows, hash)
    ensures ExactProduct(rows, c.matrixIds, c.expectedFoldIds) && AllUsable(rows)
    ensures RowsInput(c, rows).Ok? && c.matrixDigest == DigestOf(RowsInput(c, rows), hash)
    ensures NoDuplicates(c.matrixIds) && NoDuplicates(c.expectedFoldIds)
    ensures |c.expectedFoldIds| >= 2 && |c.expectedFoldIds| % 2 == 0 && c.matrixIds != []
  {
    hide Sort, IdLe, CompleteLedger, ExactProduct, MatrixInput, Observed, EligibleIds, MatrixIds, TerminalIds, AllViolations, AllUsable;
    NoViolationExactly(run, profile, policy, rows);
    var eligible, sorted, ids := EligibleIds(profile, policy, run.trials), SortedEligible(run, profile, policy), MatrixIds(rows);
    LedgerFacts(run, profile, policy);
    EligibleDistinct(profile, policy, run.trials);
    ProductSides(rows, eligible, profile.foldIds);
    EligibleIsMatrix(run, profile, policy, rows);
    SortMembers(eligible, IdLe);
    ProductOfSame(rows, eligible, sorted, profile.foldIds);
  }

  /** The sorted eligible trials are the matrix trials, as sequences. */
  lemma {:induction false} EligibleIsMatrix(run: SearchRun, profile: Profile, policy: Policy, rows: seq<ScoreRow>)
    requires NoDuplicates(EligibleIds(profile, policy, run.trials)) && NoDuplicates(MatrixIds(rows))
    requires SetOf(MatrixIds(rows)) == SetOf(EligibleIds(profile, policy, run.trials))
    ensures SortedEligible(run, profile, policy) == MatrixIds(rows)
  {
    hide Sort, LexLe, EligibleIds, Seen;
    var eligible := EligibleIds(profile, policy, run.trials);
    var a, b := Sort(eligible, IdLe), MatrixIds(rows);
    IdLeIsPreorder();
    SortSorts(eligible, IdLe);
    SortSorts(Seen(rows), IdLe);
    SortSetOf(eligible);
    SameSetSameMultiset(a, b);
    forall x, y | x in a && y in a && IdLe(x, y) && IdLe(y, x) ensures x == y { LexAntisymmetric(x, y); }
    SortedUnique(a, b, IdLe);
  }

  lemma {:induction false} SameSetSameMultiset(a: seq<Id>, b: seq<Id>)
    requires NoDuplicates(a) && NoDuplicates(b) && SetOf(a) == SetOf(b)
    ensures multiset(a) == multiset(b)
  {
    NoDuplicatesByCount(a);
    NoDuplicatesByCount(b);
    forall x ensures multiset(a)[x] == multiset(b)[x] {
      assert x in SetOf(a) <==> x in SetOf(b);
      if x !in a { assert x !in multiset(a) && x !in multiset(b); }
    }
  }

  lemma {:induction false} RearrangedProduct(a: seq<ScoreRow>, b: seq<ScoreRow>, trialIds: seq<Id>, foldIds: seq<Id>)
    requires multiset(a) == multiset(b) && ExactProduct(a, trialIds, foldIds)
    ensures ExactProduct(b, trialIds, foldIds)
  {
    hide DistinctPairs, HasRow;
    assert |multiset(a)| == |a| && |multiset(b)| == |b|;
    forall r ensures r in a <==> r in b { assert r in multiset(a) <==> r in multiset(b); }
    assert PairsOf(a) == PairsOf(b);
    BuilderPairsExactly(a, trialIds, foldIds);
    BuilderPairsExactly(b, trialIds, foldIds);
  }

  lemma {:induction false} SortedRows(rows: seq<ScoreRow>, trialIds: seq<Id>, foldIds: seq<Id>)
    requires ExactProduct(rows, trialIds, foldIds)
    ensures multiset(Sort(rows, PairLe)) == multiset(rows) && ExactProduct(Sort(rows, PairLe), trialIds, foldIds)
  {
    hide Sort;
    SortKeeps(rows, PairLe);
    RearrangedProduct(rows, Sort(rows, PairLe), trialIds, foldIds);
  }

  /** What the builder accepts against a certificate: the certified product, all
      scores usable and encodable, under the certified digest. */
  lemma {:induction false} BuilderAcceptsExactly(c: Certificate, rows: seq<ScoreRow>, direction: Direction,
                                                 hash: seq<Byte> -> Digest, identity: Certificate -> Digest)
    requires c.passed && NoDuplicates(c.matrixIds) && NoDuplicates(c.expectedFoldIds)
    requires |c.expectedFoldIds| >= 2 && |c.expectedFoldIds| % 2 == 0 && c.matrixIds != []
    ensures var r := BuildTrialFoldMatrix(c, rows, direction, hash, identity);
      && (r.Ok? <==> direction == c.scoreDirection && ExactProduct(rows, c.matrixIds, c.expectedFoldIds) && AllUsable(rows)
                     && RowsInput(c, rows).Ok? && c.matrixDigest == DigestOf(RowsInput(c, rows), hash))
      && (r.Ok? ==> r.value.scores == Sort(rows, PairLe) && MatrixAccepted(r.value, hash) && BoundTo(r.value, c, hash, identity))
  {
    hide Sort, MatrixInput, DistinctPairs, HasRow, PairLe;
    BuilderPairsExactly(rows, c.matrixIds, c.expectedFoldIds);
    if ExactProduct(rows, c.matrixIds, c.expectedFoldIds) {
      var ordered := Sort(rows, PairLe);
      SortedRows(rows, c.matrixIds, c.expectedFoldIds);
      BuilderPairsExactly(ordered, c.matrixIds, c.expectedFoldIds);
      SortUsable(rows);
      RowOrderIrrelevant(c.profileHash, c.expectedFoldIds, c.matrixIds, c.scoreDirection, rows, ordered);
    }
  }

  /** Sufficiency: the certified scores build, in any order, the one sorted matrix,
      which the calculator finds bound to the certificate. */
  lemma {:induction false} CertifiedScoresBuild(c: Certificate, run: SearchRun, profile: Profile, policy: Policy,
                                                rows: seq<ScoreRow>, offered: seq<ScoreRow>,
                                                hash: seq<Byte> -> Digest, identity: Certificate -> Digest)
    requires Certified(c, run, profile, policy, rows, hash) && multiset(offered) == multiset(rows)
    ensures var r := BuildTrialFoldMatrix(c, offered, c.scoreDirection, hash, identity);
      r.Ok? && r.value.scores == Sort(rows, PairLe) && MatrixAccepted(r.value, hash) && BoundTo(r.value, c, hash, identity)
  {
    hide Sort, MatrixInput, ExactProduct, BuildTrialFoldMatrix, PairLe, AllUsable, MatrixAccepted, BoundTo, Certified;
    CertifiedFacts(c, run, profile, policy, rows, hash);
    CertifiedPassed(c, run, profile, policy, rows, hash);
    RearrangedProduct(rows, offered, c.matrixIds, c.expectedFoldIds);
    ProductPairs(rows, c.matrixIds, c.expectedFoldIds);
    RowOrderIrrelevant(c.profileHash, c.expectedFoldIds, c.matrixIds, c.scoreDirection, rows, offered);
    forall r ensures r in rows <==> r in offered { assert r in multiset(rows) <==> r in multiset(offered); }
    UsableMembers(rows);
    UsableMembers(offered);
    BuilderAcceptsExactly(c, offered, c.scoreDirection, hash, identity);
    TiedPairs(rows);
    PairLeIsPreorder();
    SortForgetsOrder(rows, offered, PairLe);
  }

  lemma {:induction false} ProductPairs(rows: seq<ScoreRow>, trialIds: seq<Id>, foldIds: seq<Id>)
    requires ExactProduct(rows, trialIds, foldIds)
    ensures DistinctPairs(rows)
  {
  }

  /** Soundness: whatever else builds against the certificate carries the same
      pairs and numerically the same scores, or exhibits a hash collision. */
  lemma {:induction false} OnlyCertifiedScoresBuild(c: Certificate, run: SearchRun, profile: Profile, policy: Policy,
                                                    rows: seq<ScoreRow>, offered: seq<ScoreRow>, direction: Direction,
                                                    hash: seq<Byte> -> Digest, identity: Certificate -> Digest)
    requires Certified(c, run, profile, policy, rows, hash)
    requires BuildTrialFoldMatrix(c, offered, direction, hash, identity).Ok?
    ensures AllUsable(Sort(rows, PairLe)) && AllUsable(Sort(offered, PairLe))
    ensures SameRows(Sort(rows, PairLe), Sort(offered, PairLe))
         || (RowsInput(c, rows) != RowsInput(c, offered)
             && DigestOf(RowsInput(c, rows), hash) == DigestOf(RowsInput(c, offered), hash))
  {
    hide Sort, MatrixInput, ExactProduct, BuildTrialFoldMatrix, PairLe, AllUsable, MatrixAccepted, BoundTo, Certified, SameRows;
    CertifiedFacts(c, run, profile, policy, rows, hash);
    CertifiedPassed(c, run, profile, policy, rows, hash);
    BuilderAcceptsExactly(c, offered, direction, hash, identity);
    DigestInputIsRows(c.profileHash, c.expectedFoldIds, c.matrixIds, c.scoreDirection, rows, offered);
  }

  lemma {:induction false} CertifiedPassed(c: Certificate, run: SearchRun, profile: Profile, policy: Policy,
                                           rows: seq<ScoreRow>, hash: seq<Byte> -> Digest)
    requires Certified(c, run, profile, policy, rows, hash)
    ensures c.passed
  {
  }
}
