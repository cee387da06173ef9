/** What every step of a search keeps: the ledger's consistency, where trials
    stand, where parents come from and what earns a fallback. */
module SearchLineage {
  import opened Octets
  import opened Ordering
  import opened Outcomes
  import opened PboMatrix
  import opened SearchAlternatives
  import opened SearchRanking
  import opened SearchSteps
  import opened TrialEvidence

  function TerminalOf(t: CandidateTrial): Terminal { t.evaluation.evidence.terminal }

  // ---------------------------------------------------------------- the ledger

  ghost predicate EventsNumbered(run: Run) {
    run.sequence == |run.events| && forall i :: 0 <= i < |run.events| ==> run.events[i].sequence == i
  }

  /** The trial events of a log. */
  function TrialLog(events: seq<Event>): seq<(nat, TrialKind)> {
    if events == [] then []
    else
      var last := events[|events| - 1];
      TrialLog(events[..|events| - 1]) + if last.TrialEvent? then [(last.position, last.trialKind)] else []
  }

  /** One start and one terminal for each trial, in ledger order. */
  function ExpectedLog(trials: seq<CandidateTrial>): (r: seq<(nat, TrialKind)>)
    ensures |r| == 2 * |trials|
  {
    if trials == [] then []
    else
      var last := trials[|trials| - 1];
      ExpectedLog(trials[..|trials| - 1]) + [(last.position, Started), (last.position, Ended(TerminalOf(last)))]
  }

  ghost predicate Exhausted(e: Event) { e.ProposalEvent? && e.kind.SlotExhausted? }

  ghost predicate OrdersAgree(run: Run) {
    && run.proposedOrder == run.visitedOrder
    && |run.proposals| == |run.trials| == |run.visitedOrder|
    && forall i :: 0 <= i < |run.trials| ==>
         run.trials[i].position == i && run.trials[i].candidateHash == run.visitedOrder[i]
         && run.proposals[i].candidateHash == run.visitedOrder[i]
  }

  ghost predicate Explored(setup: Setup, run: Run) {
    && NoDuplicates(run.visitedOrder) && run.proposed == run.visited == Members(run.visitedOrder)
    && forall h :: h in run.visitedOrder ==> Contains(setup.universe, h)
  }

  ghost predicate Ledger(setup: Setup, run: Run) {
    && EventsNumbered(run) && TrialLog(run.events) == ExpectedLog(run.trials)
    && (forall e :: e in run.events ==> !Exhausted(e))
    && OrdersAgree(run) && Explored(setup, run)
  }

  lemma {:induction false} TrialLogConcat(a: seq<Event>, b: seq<Event>)
    ensures TrialLog(a + b) == TrialLog(a) + TrialLog(b)
  {
    if b == [] {
      assert a + b == a;
    } else {
      assert (a + b)[..|a + b| - 1] == a + b[..|b| - 1];
      TrialLogConcat(a, b[..|b| - 1]);
    }
  }

  lemma {:induction false} NoTrialLog(events: seq<Event>)
    requires forall e :: e in events ==> e.ProposalEvent?
    ensures TrialLog(events) == []
  {
    if events != [] {
      assert events[|events| - 1] in events;
      NoTrialLog(events[..|events| - 1]);
    }
  }

  lemma {:induction false} PairLog(a: Event, b: Event)
    requires a.TrialEvent? && b.TrialEvent?
    ensures TrialLog([a, b]) == [(a.position, a.trialKind), (b.position, b.trialKind)]
  {
    assert [a, b][..1] == [a];
    assert TrialLog([a]) == [(a.position, a.trialKind)];
  }

  lemma {:induction false} AddMember(s: seq<Digest>, x: Digest)
    ensures Members(s + [x]) == Members(s) + {x}
    ensures NoDuplicates(s) && x !in s ==> NoDuplicates(s + [x])
  {
  }

  /** A fresh candidate of the universe extends the ledger by one. */
  lemma {:induction false} AcceptKeepsLedger(setup: Setup, run: Run, c: Candidate, generation: nat, slot: nat, source: Source,
                                             choice: Option<Alternative>)
    requires Ledger(setup, run) && c.hash !in run.visited && Contains(setup.universe, c.hash)
    ensures Ledger(setup, Accept(setup, run, c, generation, slot, source, choice))
  {
    hide NoDuplicates, EvaluationOf, Contains, TrialLog, Members;
    var after := Accept(setup, run, c, generation, slot, source, choice);
    var added := after.events[|run.events|..];
    assert after.events == run.events + added && |added| == 2;
    TrialLogConcat(run.events, added);
    PairLog(added[0], added[1]);
    assert added == [added[0], added[1]];
    assert after.trials[..|run.trials|] == run.trials;
    AddMember(run.visitedOrder, c.hash);
    MembersAre(run.visitedOrder, c.hash);
    assert TrialLog(after.events) == ExpectedLog(after.trials);
  }

  lemma {:induction false} MembersAre(s: seq<Digest>, x: Digest)
    ensures x in Members(s) <==> x in s
  {
  }

  lemma {:induction false} LoggedKeepsLedger(setup: Setup, run: Run, events: seq<Event>)
    requires Ledger(setup, run)
    requires forall i :: 0 <= i < |events| ==> events[i].ProposalEvent? && !Exhausted(events[i]) && events[i].sequence == run.sequence + i
    ensures Ledger(setup, Logged(run, events))
  {
    hide NoDuplicates, Contains, TrialLog, Members, ExpectedLog;
    TrialLogConcat(run.events, events);
    NoTrialLog(events);
  }

  // ---------------------------------------------------------------- the universe is finite

  lemma {:induction false} UniverseSize(setup: Setup)
    requires setup.Valid()
    ensures |Members(HashesOf(setup.universe))| == |setup.universe|
  {
    MembersSize(HashesOf(setup.universe));
  }

  lemma {:induction false} OrderCovers(setup: Setup, c: Candidate)
    ensures c in TraversalOrder(setup) <==> c in setup.universe
  {
    SortMembers(setup.universe,
         (a: Candidate, b: Candidate) =>
           var x, y := setup.traversalHash(a.hash, setup.plan.seed), setup.traversalHash(b.hash, setup.plan.seed);
           x < y || (x == y && a.hash <= b.hash));
  }

  lemma {:induction false} VisitedSize(setup: Setup, run: Run)
    requires setup.Valid() && Explored(setup, run)
    ensures |run.visited| == |run.visitedOrder| <= |setup.universe|
    ensures |run.visited| == |setup.universe| ==> run.visited == Members(HashesOf(setup.universe))
  {
    MembersSize(run.visitedOrder);
    UniverseSize(setup);
    var all := Members(HashesOf(setup.universe));
    assert run.visited <= all;
    SubsetSize(run.visited, all);
    if |run.visited| == |all| { SameSizeSubset(run.visited, all); }
  }

  lemma {:induction false} SameSizeSubset(a: set<Digest>, b: set<Digest>)
    requires a <= b && |a| == |b|
    ensures a == b
  {
    assert b == a + (b - a);
    assert |b| == |a| + |b - a|;
  }

  /** While something is unvisited, the fallback finds it. */
  lemma {:induction false} SomethingUnseen(setup: Setup, run: Run)
    requires setup.Valid() && Explored(setup, run) && |run.visited| < |setup.universe|
    ensures FirstUnseen(TraversalOrder(setup), run.proposed, run.visited).Some?
  {
    hide TraversalOrder, FirstUnseen;
    var order := TraversalOrder(setup);
    if forall c :: c in order ==> c.hash in run.visited {
      var all := Members(HashesOf(setup.universe));
      forall h | h in all ensures h in run.visited {
        var c := CandidateFor(setup.universe, h);
        OrderCovers(setup, c);
      }
      UniverseSize(setup);
      SubsetSize(all, run.visited);
    }
  }

  // ---------------------------------------------------------------- placement, descent and earned fallbacks

  function Start(setup: Setup, generation: nat): nat {
    if generation == 0 then 0 else setup.initial + (generation - 1) * setup.plan.offspring
  }

  /** The trial of generation g >= 1 and slot s stands at initial + (g-1) * offspring + s. */
  ghost predicate PlacedAt(setup: Setup, t: CandidateTrial, i: nat) {
    if t.generation == 0 then t.slot == i < setup.initial
    else t.slot < setup.plan.offspring && i == setup.initial + (t.generation - 1) * setup.plan.offspring + t.slot
  }

  ghost predicate Placed(setup: Setup, trials: seq<CandidateTrial>) {
    forall i :: 0 <= i < |trials| ==> PlacedAt(setup, trials[i], i)
  }

  /** Each pool is the ranking's prefix over all trials of earlier generations. */
  ghost predicate PoolsFrozen(setup: Setup, pools: seq<Pool>, trials: seq<CandidateTrial>)
    requires setup.Valid()
  {
    forall k :: 0 <= k < |pools| ==> FrozenAt(setup, pools[k], trials, k + 1)
  }

  ghost predicate FrozenAt(setup: Setup, pool: Pool, trials: seq<CandidateTrial>, generation: nat)
    requires setup.Valid()
  {
    Start(setup, generation) <= |trials| && pool == Pool(generation, PoolOf(setup, trials[..Start(setup, generation)]))
  }

  function SlotAlternatives(setup: Setup, pools: seq<Pool>, generation: nat, slot: nat): seq<Alternative>
    requires setup.Valid() && 1 <= generation <= |pools|
  {
    Alternatives(setup.plan, generation, slot, pools[generation - 1].parents, |setup.plan.schedule|)
  }

  /** The operator, shown the parents an alternative names at one point of the event log, proposed the candidate. */
  ghost predicate Proposed(setup: Setup, sequence: nat, a: Alternative, hash: Digest) {
    && (forall h :: h in a.parent.parents ==> Contains(setup.universe, h))
    && var answer := setup.propose(sequence, a, CandidatesFor(setup.universe, a.parent.parents));
       answer.Proposes? && answer.candidate.hash == hash
  }

  /** A trial names the alternative whose operator proposed its candidate. */
  ghost predicate ChosenAs(setup: Setup, t: CandidateTrial, a: Alternative) {
    && t.operatorId == Some(a.operator.operatorId) && t.parents == a.parent.parents && t.parameters == a.parameter.indices
    && exists sequence: nat :: Proposed(setup, sequence, a, t.candidateHash)
  }

  /** An operator's trial is one of its slot's alternatives over its generation's frozen pool. */
  ghost predicate Descends(setup: Setup, pools: seq<Pool>, t: CandidateTrial)
    requires setup.Valid()
  {
    if t.operatorId.None? then t.parents == [] && t.parameters == []
    else 1 <= t.generation <= |pools| && exists a :: a in SlotAlternatives(setup, pools, t.generation, t.slot) && ChosenAs(setup, t, a)
  }

  ghost predicate AllDescend(setup: Setup, pools: seq<Pool>, trials: seq<CandidateTrial>)
    requires setup.Valid()
  {
    forall t :: t in trials ==> Descends(setup, pools, t)
  }

  /** An event says why the answer its operator gave at that point of the log was not taken. */
  ghost predicate Refused(setup: Setup, e: Event, a: Alternative)
    requires e.ProposalEvent?
  {
    && (forall h :: h in a.parent.parents ==> Contains(setup.universe, h))
    && match setup.propose(e.sequence, a, CandidatesFor(setup.universe, a.parent.parents))
       case Declines(reason) => e.kind == Invalid && e.candidateHash == None && e.reason == Some(Stated(reason))
       case Proposes(c) =>
         e.kind == (if Contains(setup.universe, c.hash) then Duplicate else OutsideUniverse) && e.candidateHash == Some(c.hash) && e.reason == None
       case _ => false
  }

  ghost predicate RejectionFor(setup: Setup, e: Event, generation: nat, slot: nat, a: Alternative) {
    && e.ProposalEvent? && e.generation == generation && e.slot == slot && Refused(setup, e, a)
    && e.operatorId == Some(a.operator.operatorId)
    && e.parentHash == Some(setup.plan.parentHash(a.parent)) && e.parameterHash == Some(setup.plan.parameterHash(a.parameter))
  }

  /** From one place on, the log rejects the alternatives one after another. */
  ghost predicate Tried(setup: Setup, events: seq<Event>, from: nat, generation: nat, slot: nat, alternatives: seq<Alternative>) {
    from + |alternatives| <= |events|
    && forall k :: 0 <= k < |alternatives| ==> RejectionFor(setup, events[from + k], generation, slot, alternatives[k])
  }

  /** The fallback at one place of the log follows a rejection of every alternative of its slot, in order. */
  ghost predicate EarnedAt(setup: Setup, events: seq<Event>, pools: seq<Pool>, i: nat)
    requires setup.Valid() && i < |events| && events[i].ProposalEvent?
  {
    var e := events[i];
    1 <= e.generation <= |pools| &&
    var alternatives := SlotAlternatives(setup, pools, e.generation, e.slot);
    |alternatives| <= i && Tried(setup, events, i - |alternatives|, e.generation, e.slot, alternatives)
  }

  ghost predicate FallbacksEarned(setup: Setup, events: seq<Event>, pools: seq<Pool>)
    requires setup.Valid()
  {
    forall i :: 0 <= i < |events| && events[i].ProposalEvent? && events[i].kind.DirectFallback? ==> EarnedAt(setup, events, pools, i)
  }

  /** An evaluation as the evaluator returned it, or the engine failure that stands for a broken one. */
  ghost predicate EvaluatedAs(setup: Setup, position: nat, c: Candidate, e: TrialEvaluation) {
    match setup.evaluate(position, c)
    case Returned(returned) => if WellFormedEvaluation(returned) then e == returned else EngineFailure(e)
    case Broken => EngineFailure(e)
  }

  ghost predicate EngineFailure(e: TrialEvaluation) {
    e.evidence.terminal.EngineFailed? && e.evidence.metrics == [] && e.evidence.gateResults == [] && !e.evidence.complete && e.errorCode.Some?
  }

  /** Everything before a candidate in the traversal has been seen. */
  ghost predicate FirstInTraversal(setup: Setup, hash: Digest, seen: seq<Digest>) {
    exists k :: 0 <= k < |TraversalOrder(setup)| && TraversalOrder(setup)[k].hash == hash && SeenBefore(setup, k, seen)
  }

  ghost predicate SeenBefore(setup: Setup, k: nat, seen: seq<Digest>)
    requires k <= |TraversalOrder(setup)|
  {
    forall j :: 0 <= j < k ==> TraversalOrder(setup)[j].hash in seen
  }

  /** A trial carries its candidate's evaluation, its proposal tells where it came from, and one that
      no operator proposed is the first of the traversal not seen before. */
  ghost predicate RecordedAt(setup: Setup, t: CandidateTrial, p: Proposal, position: nat, seen: seq<Digest>) {
    && p.candidateHash == t.candidateHash && p.generation == t.generation && p.slot == t.slot && p.operatorId == t.operatorId
    && (p.source.Initial? <==> t.generation == 0) && (p.source.FromOperator? <==> t.operatorId.Some?)
    && (exists c :: c in setup.universe && c.hash == t.candidateHash && EvaluatedAs(setup, position, c, t.evaluation))
    && (t.operatorId.None? ==> FirstInTraversal(setup, t.candidateHash, seen))
  }

  ghost predicate Recorded(setup: Setup, trials: seq<CandidateTrial>, proposals: seq<Proposal>, visitedOrder: seq<Digest>) {
    && |trials| == |proposals| == |visitedOrder|
    && forall i :: 0 <= i < |trials| ==> RecordedAt(setup, trials[i], proposals[i], i, visitedOrder[..i])
  }

  lemma {:induction false} NewIsRecorded(setup: Setup, position: nat, c: Candidate, generation: nat, slot: nat, source: Source,
                                         choice: Option<Alternative>, seen: seq<Digest>)
    requires c in setup.universe && (source.Initial? <==> generation == 0) && (source.FromOperator? <==> choice.Some?)
    requires choice.None? ==> FirstInTraversal(setup, c.hash, seen)
    ensures RecordedAt(setup, NewTrial(setup, position, c, generation, slot, choice), NewProposal(setup, c, generation, slot, source, choice),
                       position, seen)
  {
    hide WellFormedEvaluation, FirstInTraversal, EvaluationOf, EvaluatedAs;
    Evaluating(setup, position, c);
    var t, p := NewTrial(setup, position, c, generation, slot, choice), NewProposal(setup, c, generation, slot, source, choice);
    assert t.candidateHash == c.hash && t.evaluation == EvaluationOf(setup, position, c);
  }

  lemma {:induction false} Evaluating(setup: Setup, position: nat, c: Candidate)
    ensures EvaluatedAs(setup, position, c, EvaluationOf(setup, position, c))
  {
    hide WellFormedEvaluation, Points;
  }

  lemma {:induction false} RecordedGrows(setup: Setup, trials: seq<CandidateTrial>, proposals: seq<Proposal>, visitedOrder: seq<Digest>,
                                         t: CandidateTrial, p: Proposal)
    requires Recorded(setup, trials, proposals, visitedOrder) && RecordedAt(setup, t, p, |trials|, visitedOrder)
    ensures Recorded(setup, trials + [t], proposals + [p], visitedOrder + [t.candidateHash])
  {
    hide RecordedAt;
    var more := visitedOrder + [t.candidateHash];
    forall i | 0 <= i <= |trials| ensures RecordedAt(setup, (trials + [t])[i], (proposals + [p])[i], i, more[..i]) {
      assert more[..i] == visitedOrder[..i];
      assert visitedOrder[..|trials|] == visitedOrder;
    }
  }

  ghost predicate Lineage(setup: Setup, run: Run)
    requires setup.Valid()
  {
    && Ledger(setup, run) && Placed(setup, run.trials) && PoolsFrozen(setup, run.pools, run.trials)
    && AllDescend(setup, run.pools, run.trials) && FallbacksEarned(setup, run.events, run.pools)
    && Recorded(setup, run.trials, run.proposals, run.visitedOrder)
  }

  lemma {:induction false} EarnedStays(setup: Setup, events: seq<Event>, more: seq<Event>, pools: seq<Pool>, i: nat)
    requires setup.Valid() && i < |events| && events[i].ProposalEvent? && EarnedAt(setup, events, pools, i)
    ensures EarnedAt(setup, events + more, pools, i)
  {
    hide SlotAlternatives, RejectionFor;
    var e := events[i];
    var alternatives := SlotAlternatives(setup, pools, e.generation, e.slot);
    var from := i - |alternatives|;
    forall k | 0 <= k < |alternatives| ensures RejectionFor(setup, (events + more)[from + k], e.generation, e.slot, alternatives[k]) {
      assert (events + more)[from + k] == events[from + k];
    }
  }

  lemma {:induction false} FallbacksStay(setup: Setup, events: seq<Event>, more: seq<Event>, pools: seq<Pool>)
    requires setup.Valid() && FallbacksEarned(setup, events, pools)
    requires forall e :: e in more ==> e.ProposalEvent? ==> !e.kind.DirectFallback?
    ensures FallbacksEarned(setup, events + more, pools)
  {
    hide EarnedAt;
    var all := events + more;
    assert forall i :: |events| <= i < |all| ==> all[i] in more;
    forall i | 0 <= i < |events| && all[i].ProposalEvent? && all[i].kind.DirectFallback? ensures EarnedAt(setup, all, pools, i) {
      EarnedStays(setup, events, more, pools, i);
    }
  }

  lemma {:induction false} PoolsStay(setup: Setup, pools: seq<Pool>, trials: seq<CandidateTrial>, more: seq<CandidateTrial>)
    requires setup.Valid() && PoolsFrozen(setup, pools, trials)
    ensures PoolsFrozen(setup, pools, trials + more)
  {
    hide PoolOf, Start;
    forall k | 0 <= k < |pools| ensures FrozenAt(setup, pools[k], trials + more, k + 1) {
      assert FrozenAt(setup, pools[k], trials, k + 1);
      assert (trials + more)[..Start(setup, k + 1)] == trials[..Start(setup, k + 1)];
    }
  }

  // ---------------------------------------------------------------- rejections

  lemma {:induction false} RejectionsAre(setup: Setup, run: Run, generation: nat, slot: nat, alternatives: seq<Alternative>, n: nat, k: nat)
    requires n <= |alternatives| && k < n && ParentsKnown(setup, alternatives)
    requires forall j :: 0 <= j < n ==> VerdictAt(setup, run, alternatives, j).Rejects?
    ensures var e := Rejections(setup, run, generation, slot, alternatives, n)[k];
      RejectionFor(setup, e, generation, slot, alternatives[k]) && e.sequence == run.sequence + k
  {
    if k < n - 1 { RejectionsAre(setup, run, generation, slot, alternatives, n - 1, k); }
  }

  /** The first n rejections, as one statement about each. */
  lemma {:induction false} RejectionsLogged(setup: Setup, run: Run, generation: nat, slot: nat, alternatives: seq<Alternative>, n: nat)
    requires n <= |alternatives| && ParentsKnown(setup, alternatives) && setup.Valid() && Lineage(setup, run)
    requires forall j :: 0 <= j < n ==> VerdictAt(setup, run, alternatives, j).Rejects?
    ensures var rejected := Logged(run, Rejections(setup, run, generation, slot, alternatives, n));
      Lineage(setup, rejected) && Tried(setup, rejected.events, |run.events|, generation, slot, alternatives[..n])
  {
    hide Rejections, VerdictAt, Ledger, Placed, PoolsFrozen, AllDescend, FallbacksEarned, ParentsKnown, Recorded;
    var events := Rejections(setup, run, generation, slot, alternatives, n);
    forall k | 0 <= k < n ensures RejectionFor(setup, events[k], generation, slot, alternatives[k]) && events[k].sequence == run.sequence + k {
      RejectionsAre(setup, run, generation, slot, alternatives, n, k);
    }
    LoggedKeepsLedger(setup, run, events);
    FallbacksStay(setup, run.events, events, run.pools);
  }

  // ---------------------------------------------------------------- the pool's parents are known

  ghost predicate DistinctTrials(trials: seq<CandidateTrial>) {
    && (forall i :: 0 <= i < |trials| ==> trials[i].position == i)
    && (forall i, j :: 0 <= i < j < |trials| ==> trials[i].candidateHash != trials[j].candidateHash)
  }

  lemma {:induction false} LedgerDistinct(setup: Setup, run: Run)
    requires Ledger(setup, run)
    ensures DistinctTrials(run.trials)
  {
    hide Contains, TrialLog, ExpectedLog, Exhausted;
    forall i, j | 0 <= i < j < |run.trials| ensures run.trials[i].candidateHash != run.trials[j].candidateHash {
      assert run.visitedOrder[i] != run.visitedOrder[j];
    }
  }

  lemma {:induction false} InPlace(trials: seq<CandidateTrial>)
    requires DistinctTrials(trials)
    ensures forall i :: 0 <= i < |trials| ==> trials[i].position == i
  {
  }

  /** No parent stands in a pool twice. */
  lemma {:induction false} PoolDistinct(setup: Setup, trials: seq<CandidateTrial>)
    requires setup.Valid() && DistinctTrials(trials)
    ensures NoDuplicates(PoolOf(setup, trials))
  {
    hide Ranking, ScoreVector, DistinctTrials, RankedLe;
    var ranked := Ranking(setup.profile, trials);
    var hashes := RankedHashes(ranked);
    RankingMeans(setup.profile, trials);
    assert NoDuplicates(ranked) by { InPlace(trials); RankingDistinct(setup, trials); }
    forall i, j | 0 <= i < j < |hashes| ensures hashes[i] != hashes[j] {
      var x, y := ranked[i], ranked[j];
      assert x in ranked && y in ranked && x != y;
      TrialsTell(trials, x.trial, y.trial);
    }
    assert forall i, j :: 0 <= i < j < |hashes| ==> hashes[i] != hashes[j];
  }

  lemma {:induction false} TrialsTell(trials: seq<CandidateTrial>, x: CandidateTrial, y: CandidateTrial)
    requires DistinctTrials(trials) && x in trials && y in trials
    ensures x != y ==> x.candidateHash != y.candidateHash
  {
    var p: nat :| p < |trials| && trials[p] == x;
    var q: nat :| q < |trials| && trials[q] == y;
    if p < q {
      assert trials[p].candidateHash != trials[q].candidateHash;
    } else if q < p {
      assert trials[q].candidateHash != trials[p].candidateHash;
    }
  }

  lemma {:induction false} PoolKnown(setup: Setup, run: Run, trials: seq<CandidateTrial>)
    requires setup.Valid() && Ledger(setup, run) && trials <= run.trials
    ensures NoDuplicates(PoolOf(setup, trials))
    ensures forall h :: h in PoolOf(setup, trials) ==> Contains(setup.universe, h)
  {
    hide Ranking, ScoreVector, Contains, TrialLog, ExpectedLog, EventsNumbered, Exhausted, NoDuplicates;
    var ranked := Ranking(setup.profile, trials);
    var hashes := RankedHashes(ranked);
    RankingMeans(setup.profile, trials);
    LedgerDistinct(setup, run);
    assert DistinctTrials(trials);
    PoolDistinct(setup, trials);
    forall i | 0 <= i < |hashes| ensures Contains(setup.universe, hashes[i]) {
      assert ranked[i] in ranked;
      var j :| 0 <= j < |trials| && trials[j] == ranked[i].trial;
      assert run.trials[j] == trials[j];
      assert run.visitedOrder[j] in run.visitedOrder;
    }
  }

  lemma {:induction false} EligibleDistinct(setup: Setup, trials: seq<CandidateTrial>)
    requires setup.Valid() && NoDuplicates(trials)
    ensures NoDuplicates(Eligible(setup.profile, trials))
  {
    hide ScoreVector;
    if trials != [] {
      var front, last := trials[..|trials| - 1], trials[|trials| - 1];
      EligibleDistinct(setup, front);
      var scores := ScoreVector(setup.profile, last);
      if scores.Some? {
        EligibleMembers(setup.profile, front, Ranked(last, scores.value));
        assert last !in front;
      }
    }
  }

  lemma {:induction false} RankingDistinct(setup: Setup, trials: seq<CandidateTrial>)
    requires setup.Valid() && forall i :: 0 <= i < |trials| ==> trials[i].position == i
    ensures NoDuplicates(Ranking(setup.profile, trials))
  {
    hide ScoreVector, Eligible;
    assert NoDuplicates(trials);
    EligibleDistinct(setup, trials);
    SortKeepsDistinct(Eligible(setup.profile, trials), (a, b) => RankedLe(setup.profile.rules, a, b));
  }

  lemma {:induction false} AlternativesKnown(setup: Setup, generation: nat, slot: nat, pool: seq<Digest>, offsets: nat)
    requires setup.Valid() && NoDuplicates(pool) && forall h :: h in pool ==> Contains(setup.universe, h)
    ensures ParentsKnown(setup, Alternatives(setup.plan, generation, slot, pool, offsets))
  {
    hide Alternatives, Contains, LegalIndices;
    forall a | a in Alternatives(setup.plan, generation, slot, pool, offsets)
      ensures forall h :: h in a.parent.parents ==> Contains(setup.universe, h)
    {
      AlternativesAre(setup.plan, generation, slot, pool, offsets, a);
    }
  }
}
