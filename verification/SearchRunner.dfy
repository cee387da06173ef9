/** The runner itself: one object owns one run-scoped ledger and updates it in
    place, proved against the steps of `SearchSteps`. */
module SearchRunner {
  import opened Cscv
  import opened Octets
  import opened Ordering
  import opened Outcomes
  import opened SearchAlternatives
  import opened SearchLineage
  import opened SearchOutcome
  import opened SearchProgress
  import opened SearchRanking
  import opened SearchSteps

  // ---------------------------------------------------------------- where the nested loops stand

  lemma {:induction false} BlockGrows(op: Operator, parents: seq<ParentAlternative>, parameters: seq<ParameterAlternative>, i: nat)
    requires i < |parents|
    ensures Block(op, parents[..i + 1], parameters) == Block(op, parents[..i], parameters) + Row(op, parents[i], parameters)
  {
    hide Row;
    assert parents[..i + 1][..i] == parents[..i];
  }

  lemma {:induction false} BlockPrefix(op: Operator, parents: seq<ParentAlternative>, parameters: seq<ParameterAlternative>, i: nat)
    requires i <= |parents|
    ensures Block(op, parents[..i], parameters) <= Block(op, parents, parameters)
    decreases |parents| - i
  {
    hide Row, Block;
    if i < |parents| {
      BlockGrows(op, parents, parameters, i);
      BlockPrefix(op, parents, parameters, i + 1);
    } else {
      assert parents[..i] == parents;
    }
  }

  lemma {:induction false} AlternativesPrefix(plan: Plan, generation: nat, slot: nat, pool: seq<Digest>, offset: nat, offsets: nat)
    requires plan.Valid() && offset <= offsets
    ensures Alternatives(plan, generation, slot, pool, offset) <= Alternatives(plan, generation, slot, pool, offsets)
    decreases offsets - offset
  {
    hide Block, ParentAlternatives, ParameterAlternatives;
    if offset < offsets { AlternativesPrefix(plan, generation, slot, pool, offset, offsets - 1); }
  }

  /** The place of one triple of loop indices in the flat list of alternatives. */
  lemma {:induction false} AlternativeAt(plan: Plan, generation: nat, slot: nat, pool: seq<Digest>, offset: nat, offsets: nat, i: nat, j: nat)
    requires plan.Valid() && offset < offsets
    requires var op := plan.OperatorAt(generation, slot, offset);
      i < |ParentAlternatives(plan, generation, slot, offset, op, pool)| && j < |ParameterAlternatives(plan, generation, slot, offset, op)|
    ensures var op := plan.OperatorAt(generation, slot, offset);
      var parents := ParentAlternatives(plan, generation, slot, offset, op, pool);
      var parameters := ParameterAlternatives(plan, generation, slot, offset, op);
      var all := Alternatives(plan, generation, slot, pool, offsets);
      var n := |Alternatives(plan, generation, slot, pool, offset)| + |Block(op, parents[..i], parameters)| + j;
      n < |all| && all[n] == Alternative(op, parents[i], parameters[j])
  {
    hide Block, Row, ParentAlternatives, ParameterAlternatives, Alternatives;
    var op := plan.OperatorAt(generation, slot, offset);
    var parents := ParentAlternatives(plan, generation, slot, offset, op, pool);
    var parameters := ParameterAlternatives(plan, generation, slot, offset, op);
    var before, block := Alternatives(plan, generation, slot, pool, offset), Block(op, parents, parameters);
    OneMoreOffset(plan, generation, slot, pool, offset);
    AlternativesPrefix(plan, generation, slot, pool, offset + 1, offsets);
    BlockGrows(op, parents, parameters, i);
    BlockPrefix(op, parents, parameters, i + 1);
    var front := Block(op, parents[..i], parameters);
    assert block[|front| + j] == (front + Row(op, parents[i], parameters))[|front| + j];
    assert Alternatives(plan, generation, slot, pool, offsets)[|before| + |front| + j] == (before + block)[|before| + |front| + j];
  }

  lemma {:induction false} OneMoreOffset(plan: Plan, generation: nat, slot: nat, pool: seq<Digest>, offset: nat)
    requires plan.Valid()
    ensures var op := plan.OperatorAt(generation, slot, offset);
      Alternatives(plan, generation, slot, pool, offset + 1)
      == Alternatives(plan, generation, slot, pool, offset)
         + Block(op, ParentAlternatives(plan, generation, slot, offset, op, pool), ParameterAlternatives(plan, generation, slot, offset, op))
  {
    hide Block, ParentAlternatives, ParameterAlternatives;
  }

  lemma {:induction false} OneMoreParent(op: Operator, parents: seq<ParentAlternative>, parameters: seq<ParameterAlternative>, i: nat)
    requires i < |parents|
    ensures |Block(op, parents[..i + 1], parameters)| == |Block(op, parents[..i], parameters)| + |parameters|
  {
    hide Block, Row;
    BlockGrows(op, parents, parameters, i);
  }

  /** The first decisive alternative is where a scan that saw only rejections stopped. */
  lemma {:induction false} UndecidedIs(setup: Setup, run: Run, alternatives: seq<Alternative>, n: nat)
    requires n <= |alternatives| && ParentsKnown(setup, alternatives)
    requires forall k :: 0 <= k < n ==> VerdictAt(setup, run, alternatives, k).Rejects?
    requires n < |alternatives| ==> !VerdictAt(setup, run, alternatives, n).Rejects?
    ensures Undecided(setup, run, alternatives, 0) == n
  {
    hide VerdictAt, Undecided, ParentsKnown;
  }

  /** Comparing a generation's best with the running best cannot raise. */
  lemma {:induction false} BestCompares(setup: Setup, run: Run, done: seq<CandidateTrial>, generation: seq<CandidateTrial>)
    requires setup.Valid() && BestIs(setup, run.bestScores, run.bestHash, done)
    ensures var ranked := Ranking(setup.profile, generation);
      ranked != [] && run.bestScores.Some? ==>
        CompareScoreVectors(setup.profile, ranked[0].scores, run.bestScores.value)
        == Ok(Lead(setup.profile.rules, ranked[0].scores, run.bestScores.value))
  {
    hide Ranking, ScoreVector, CompareScoreVectors, RankedLe;
    var ranked, before := Ranking(setup.profile, generation), Ranking(setup.profile, done);
    if ranked != [] && run.bestScores.Some? {
      HeadIsBest(setup.profile, generation);
      HeadIsBest(setup.profile, done);
      RankableCompares(setup.profile, ranked[0].trial, before[0].trial);
    }
  }

  /** The initial population is the traversal order's prefix. */
  ghost predicate StartsInOrder(setup: Setup, visitedOrder: seq<Digest>) {
    forall i :: 0 <= i < |visitedOrder| && i < setup.initial ==> StandsInOrder(TraversalOrder(setup), visitedOrder[i], i)
  }

  ghost predicate StandsInOrder(order: seq<Candidate>, hash: Digest, i: nat) {
    i < |order| && hash == order[i].hash
  }

  lemma {:induction false} OrderStays(setup: Setup, run: Run, after: Run)
    requires Ledger(setup, run) && Ledger(setup, after) && run.trials <= after.trials
    requires setup.initial <= |run.trials| && StartsInOrder(setup, run.visitedOrder)
    ensures StartsInOrder(setup, after.visitedOrder)
  {
    hide TraversalOrder, EventsNumbered, TrialLog, ExpectedLog, Exhausted, Explored, StandsInOrder;
    forall i | 0 <= i < |after.visitedOrder| && i < setup.initial ensures StandsInOrder(TraversalOrder(setup), after.visitedOrder[i], i) {
      assert after.trials[i] == run.trials[i];
      assert after.visitedOrder[i] == run.visitedOrder[i];
      assert StandsInOrder(TraversalOrder(setup), run.visitedOrder[i], i);
    }
  }

  lemma {:induction false} InitialInOrder(setup: Setup, run: Run, slot: nat)
    requires slot <= |TraversalOrder(setup)| && run.visitedOrder == HashesOf(TraversalOrder(setup)[..slot])
    ensures StartsInOrder(setup, run.visitedOrder)
  {
    hide TraversalOrder;
  }

  datatype UseError = AlreadyRun | AlreadySeen

  class SearchRunner {
    const setup: Setup
    var events: seq<Event>
    var trials: seq<CandidateTrial>
    var proposals: seq<Proposal>
    var proposed: set<Digest>
    var visited: set<Digest>
    var proposedOrder: seq<Digest>
    var visitedOrder: seq<Digest>
    var parentPools: seq<Pool>
    var eventSequence: nat
    var bestScores: Option<seq<real>>
    var bestCandidateHash: Option<Digest>
    var interrupted: bool
    var plateauCounter: nat
    var failureReason: Option<Failure>
    var hasRun: bool

    ghost predicate Valid()
      reads this
    {
      setup.Valid() && (!hasRun ==> State() == FRESH)
    }

    function State(): Run
      reads this
    {
      Run(events, trials, proposals, proposed, visited, proposedOrder, visitedOrder, parentPools, eventSequence,
          bestScores, bestCandidateHash, interrupted, plateauCounter, failureReason)
    }

    constructor (setup: Setup)
      requires setup.Valid()
      ensures Valid() && this.setup == setup && !hasRun
    {
      this.setup := setup;
      events, trials, proposals, proposed, visited := [], [], [], {}, {};
      proposedOrder, visitedOrder, parentPools, eventSequence := [], [], [], 0;
      bestScores, bestCandidateHash, interrupted, plateauCounter, failureReason := None, None, false, 0, None;
      hasRun := false;
    }

    method AppendProposalEvent(generation: nat, slot: nat, kind: ProposalKind, candidateHash: Option<Digest>, operatorId: Option<Id>,
                               parentHash: Option<Digest>, parameterHash: Option<Digest>, reason: Option<Reason>)
      modifies this`events, this`eventSequence
      ensures State() == Logged(old(State()),
        [ProposalEvent(old(eventSequence), generation, slot, kind, candidateHash, operatorId, parentHash, parameterHash, reason)])
    {
      events := events + [ProposalEvent(eventSequence, generation, slot, kind, candidateHash, operatorId, parentHash, parameterHash, reason)];
      eventSequence := eventSequence + 1;
    }

    method AppendTrialEvent(position: nat, kind: TrialKind, error: Option<Id>)
      modifies this`events, this`eventSequence
      ensures State() == Logged(old(State()), [TrialEvent(old(eventSequence), position, kind, error)])
    {
      events := events + [TrialEvent(eventSequence, position, kind, error)];
      eventSequence := eventSequence + 1;
    }

    method StartAndEvaluate(candidate: Candidate, generation: nat, slot: nat, choice: Option<Alternative>) returns (trial: CandidateTrial)
      modifies this`events, this`eventSequence, this`trials, this`interrupted, this`failureReason
      ensures trial == NewTrial(setup, |old(trials)|, candidate, generation, slot, choice)
      ensures trials == old(trials) + [trial]
      ensures events == old(events) + [TrialEvent(old(eventSequence), |old(trials)|, Started, None),
                                       TrialEvent(old(eventSequence) + 1, |old(trials)|, Ended(TerminalOf(trial)), trial.evaluation.errorCode)]
      ensures eventSequence == old(eventSequence) + 2
      ensures interrupted == (old(interrupted) || TerminalOf(trial).Interrupted?)
      ensures failureReason == if TerminalOf(trial).EngineFailed? then Some(EvaluatorFailed) else old(failureReason)
    {
      hide WellFormedEvaluation, PboMatrix.Points;
      var position := |trials|;
      AppendTrialEvent(position, Started, None);
      var evaluation := BrokenEvaluation();
      var response := setup.evaluate(position, candidate);
      if response.Returned? && WellFormedEvaluation(response.evaluation) {
        evaluation := response.evaluation;
      } else {
        failureReason := Some(EvaluatorFailed);
      }
      trial := CandidateTrial(position, candidate.hash, generation, slot,
                              if choice.Some? then Some(choice.value.operator.operatorId) else None,
                              if choice.Some? then choice.value.parent.parents else [],
                              if choice.Some? then choice.value.parameter.indices else [],
                              evaluation);
      trials := trials + [trial];
      AppendTrialEvent(position, Ended(evaluation.evidence.terminal), evaluation.errorCode);
      if evaluation.evidence.terminal.Interrupted? {
        interrupted := true;
      }
      if evaluation.evidence.terminal.EngineFailed? {
        failureReason := Some(EvaluatorFailed);
      }
    }

    /** Accepts and evaluates a candidate this run has not seen; a seen one is refused and changes nothing. */
    method AcceptCandidate(candidate: Candidate, generation: nat, slot: nat, source: Source, choice: Option<Alternative>)
      returns (r: Result<CandidateTrial, UseError>)
      modifies this`events, this`eventSequence, this`trials, this`interrupted, this`failureReason, this`proposed, this`visited,
               this`proposedOrder, this`visitedOrder, this`proposals
      ensures candidate.hash in old(proposed) || candidate.hash in old(visited) ==> r == Err(AlreadySeen) && State() == old(State())
      ensures candidate.hash !in old(proposed) && candidate.hash !in old(visited) ==>
        && State() == Accept(setup, old(State()), candidate, generation, slot, source, choice)
        && r.Ok? && trials == old(trials) + [r.value]
    {
      hide NewTrial, NewProposal, EvaluationOf;
      if candidate.hash in proposed || candidate.hash in visited {
        return Err(AlreadySeen);
      }
      ghost var before := State();
      ghost var goal := Accept(setup, before, candidate, generation, slot, source, choice);
      proposed := proposed + {candidate.hash};
      visited := visited + {candidate.hash};
      proposedOrder := proposedOrder + [candidate.hash];
      visitedOrder := visitedOrder + [candidate.hash];
      proposals := proposals + [NewProposal(setup, candidate, generation, slot, source, choice)];
      var trial := StartAndEvaluate(candidate, generation, slot, choice);
      r := Ok(trial);
      assert trials == goal.trials;
      assert events == goal.events;
      assert eventSequence == goal.sequence;
      assert proposals == goal.proposals;
      assert proposed == goal.proposed && visited == goal.visited;
      assert proposedOrder == goal.proposedOrder && visitedOrder == goal.visitedOrder;
      assert interrupted == goal.interrupted && failureReason == goal.failure;
      assert parentPools == goal.pools && bestScores == goal.bestScores && bestCandidateHash == goal.bestHash && plateauCounter == goal.plateau;
      assert State() == goal;
    }

    /** Asks one operator about one alternative and records what becomes of the answer. */
    method TryAlternative(generation: nat, slot: nat, a: Alternative) returns (decided: bool, trial: Option<CandidateTrial>)
      requires forall h :: h in a.parent.parents ==> Contains(setup.universe, h)
      modifies this`events, this`eventSequence, this`trials, this`interrupted, this`failureReason, this`proposed, this`visited,
               this`proposedOrder, this`visitedOrder, this`proposals
      ensures var v := Judge(setup, old(eventSequence), a, old(proposed), old(visited));
        && decided == !v.Rejects?
        && (if v.Takes? then
              State() == Accept(setup, old(State()), v.candidate, generation, slot, FromOperator, Some(a))
              && trial.Some? && trials == old(trials) + [trial.value]
            else
              var e := AlternativeEvent(setup, old(eventSequence), generation, slot, a, if v.Rejects? then v.kind else Invalid, v.candidateHash, v.reason);
              var logged := Logged(old(State()), [e]);
              State() == (if v.Rejects? then logged else logged.(failure := Some(OperatorFailed))) && trial.None?)
    {
      hide Accept, Contains, CandidatesFor;
      var operatorId := Some(a.operator.operatorId);
      var parentHash, parameterHash := Some(setup.plan.parentHash(a.parent)), Some(setup.plan.parameterHash(a.parameter));
      match setup.propose(eventSequence, a, CandidatesFor(setup.universe, a.parent.parents)) {
        case Raised =>
          AppendProposalEvent(generation, slot, Invalid, None, operatorId, parentHash, parameterHash, Some(CallbackFailed));
          failureReason := Some(OperatorFailed);
          return true, None;
        case NotAProposal =>
          AppendProposalEvent(generation, slot, Invalid, None, operatorId, parentHash, parameterHash, Some(ResultMalformed));
          failureReason := Some(OperatorFailed);
          return true, None;
        case Declines(reason) =>
          AppendProposalEvent(generation, slot, Invalid, None, operatorId, parentHash, parameterHash, Some(Stated(reason)));
          return false, None;
        case Proposes(candidate) =>
          if candidate.domain != setup.domain || candidate.operatorSet != setup.operatorSet {
            AppendProposalEvent(generation, slot, Invalid, Some(candidate.hash), operatorId, parentHash, parameterHash, Some(WrongIdentity));
            failureReason := Some(OperatorFailed);
            return true, None;
          }
          if !Contains(setup.universe, candidate.hash) {
            AppendProposalEvent(generation, slot, OutsideUniverse, Some(candidate.hash), operatorId, parentHash, parameterHash, None);
            return false, None;
          }
          if candidate.hash in proposed || candidate.hash in visited {
            AppendProposalEvent(generation, slot, Duplicate, Some(candidate.hash), operatorId, parentHash, parameterHash, None);
            return false, None;
          }
          var accepted := AcceptCandidate(candidate, generation, slot, FromOperator, Some(a));
          return true, Some(accepted.value);
      }
    }

    /** Every alternative rejected: the first unseen candidate of the traversal, if any. */
    method FallBackDirectly(generation: nat, slot: nat) returns (trial: Option<CandidateTrial>)
      modifies this`events, this`eventSequence, this`trials, this`interrupted, this`failureReason, this`proposed, this`visited,
               this`proposedOrder, this`visitedOrder, this`proposals
      ensures State() == FallBack(setup, old(State()), generation, slot)
      ensures trials == old(trials) + if trial.Some? then [trial.value] else []
    {
      hide Accept, TraversalOrder;
      var fallback := FirstUnseen(TraversalOrder(setup), proposed, visited);
      if fallback.None? {
        AppendProposalEvent(generation, slot, SlotExhausted, None, None, None, None, None);
        return None;
      }
      AppendProposalEvent(generation, slot, DirectFallback, Some(fallback.value.hash), None, None, None, None);
      var accepted := AcceptCandidate(fallback.value, generation, slot, Fallback, None);
      return Some(accepted.value);
    }

    /** All alternatives of one schedule offset, until one decides. */
    method TryOperator(generation: nat, slot: nat, offset: nat, pool: seq<Digest>, ghost base: Run, ghost all: seq<Alternative>)
      returns (decided: bool, trial: Option<CandidateTrial>)
      requires setup.Valid() && offset < |setup.plan.schedule|
      requires all == Alternatives(setup.plan, generation, slot, pool, |setup.plan.schedule|)
      requires Scanned(base, generation, slot, all, |Alternatives(setup.plan, generation, slot, pool, offset)|)
      modifies this`events, this`eventSequence, this`trials, this`interrupted, this`failureReason, this`proposed, this`visited,
               this`proposedOrder, this`visitedOrder, this`proposals
      ensures !decided ==> Scanned(base, generation, slot, all, |Alternatives(setup.plan, generation, slot, pool, offset + 1)|)
      ensures decided ==> ParentsKnown(setup, all) && State() == SlotOf(setup, base, generation, slot, all)
      ensures decided ==> trials == base.trials + if trial.Some? then [trial.value] else []
    {
      hide Block, ParentAlternatives, ParameterAlternatives, Alternatives, ParentsKnown, Contains, Scanned, SlotOf;
      var plan := setup.plan;
      var scheduleLength := |plan.schedule|;
      var operator := plan.operators[plan.schedule[(generation * plan.offspring + slot + offset) % scheduleLength]];
      var parents := ParentAlternatives(plan, generation, slot, offset, operator, pool);
      var parameters := ParameterAlternatives(plan, generation, slot, offset, operator);
      ghost var before := |Alternatives(plan, generation, slot, pool, offset)|;
      ghost var n := before;
      OneMoreOffset(plan, generation, slot, pool, offset);
      NoParents(operator, parents, parameters);
      for i := 0 to |parents|
        invariant n == before + |Block(operator, parents[..i], parameters)| && Scanned(base, generation, slot, all, n)
      {
        OneMoreParent(operator, parents, parameters, i);
        for j := 0 to |parameters|
          invariant n == before + |Block(operator, parents[..i], parameters)| + j && Scanned(base, generation, slot, all, n)
        {
          AlternativeAt(plan, generation, slot, pool, offset, scheduleLength, i, j);
          decided, trial := TryNext(generation, slot, Alternative(operator, parents[i], parameters[j]), base, all, n);
          if decided {
            return;
          }
          n := n + 1;
        }
      }
      decided, trial := false, None;
    }

    method TryNext(generation: nat, slot: nat, a: Alternative, ghost base: Run, ghost all: seq<Alternative>, ghost n: nat)
      returns (decided: bool, trial: Option<CandidateTrial>)
      requires setup.Valid() && n < |all| && all[n] == a && Scanned(base, generation, slot, all, n)
      modifies this`events, this`eventSequence, this`trials, this`interrupted, this`failureReason, this`proposed, this`visited,
               this`proposedOrder, this`visitedOrder, this`proposals
      ensures !decided ==> Scanned(base, generation, slot, all, n + 1)
      ensures decided ==> ParentsKnown(setup, all) && State() == SlotOf(setup, base, generation, slot, all)
      ensures decided ==> trials == base.trials + if trial.Some? then [trial.value] else []
    {
      hide Judge, Undecided, Accept, FallBack, ParentsKnown, Contains, AlternativeEvent;
      OneParentsKnown(setup, all, n);
      decided, trial := TryAlternative(generation, slot, a);
      if decided { UndecidedIs(setup, base, all, n); }
    }

    method RunSlot(generation: nat, slot: nat, parentPool: Pool) returns (trial: Option<CandidateTrial>)
      requires setup.Valid() && SlotReady(setup, State(), generation, slot) && parentPool == parentPools[generation - 1]
      modifies this`events, this`eventSequence, this`trials, this`interrupted, this`failureReason, this`proposed, this`visited,
               this`proposedOrder, this`visitedOrder, this`proposals
      ensures ParentsKnown(setup, SlotAlternatives(setup, old(State()).pools, generation, slot))
      ensures State() == SlotOf(setup, old(State()), generation, slot, SlotAlternatives(setup, old(State()).pools, generation, slot))
      ensures trials == old(trials) + if trial.Some? then [trial.value] else []
    {
      hide Lineage, Alternatives, Judge, Undecided, Accept, FallBack, ParentsKnown, VerdictAt;
      ghost var base := State();
      ghost var all := SlotAlternatives(setup, base.pools, generation, slot);
      SlotParentsKnown(setup, base, generation, slot);
      var scheduleLength := |setup.plan.schedule|;
      NoOffsets(setup.plan, generation, slot, parentPool.parents);
      for offset := 0 to scheduleLength
        invariant Scanned(base, generation, slot, all, |Alternatives(setup.plan, generation, slot, parentPool.parents, offset)|)
      {
        var decided, accepted := TryOperator(generation, slot, offset, parentPool.parents, base, all);
        if decided {
          return accepted;
        }
      }
      UndecidedIs(setup, base, all, |all|);
      trial := FallBackDirectly(generation, slot);
    }

    /** The first n alternatives of a slot that began at `base` have been rejected, and nothing else happened. */
    ghost predicate Scanned(base: Run, generation: nat, slot: nat, all: seq<Alternative>, n: nat)
      reads this
    {
      && n <= |all| && ParentsKnown(setup, all)
      && (forall k :: 0 <= k < n ==> VerdictAt(setup, base, all, k).Rejects?)
      && State() == Logged(base, Rejections(setup, base, generation, slot, all, n))
    }

    method UpdatePlateau(ranked: seq<Ranked>)
      requires setup.Valid()
      requires ranked != [] && bestScores.Some? ==>
        CompareScoreVectors(setup.profile, ranked[0].scores, bestScores.value) == Ok(Lead(setup.profile.rules, ranked[0].scores, bestScores.value))
      modifies this`bestScores, this`bestCandidateHash, this`plateauCounter
      ensures State() == Updated(setup, old(State()), ranked)
    {
      hide Lead, CompareScoreVectors;
      if ranked == [] {
        plateauCounter := plateauCounter + 1;
        return;
      }
      var generationBest := ranked[0];
      if bestScores.None? {
        bestScores := Some(generationBest.scores);
        bestCandidateHash := Some(generationBest.trial.candidateHash);
        plateauCounter := 0;
        return;
      }
      var comparison := CompareScoreVectors(setup.profile, generationBest.scores, bestScores.value);
      if comparison.value > 0 {
        bestScores := Some(generationBest.scores);
        bestCandidateHash := Some(generationBest.trial.candidateHash);
        plateauCounter := 0;
        return;
      }
      if comparison.value == 0 && bestCandidateHash.Some? && generationBest.trial.candidateHash < bestCandidateHash.value {
        bestCandidateHash := Some(generationBest.trial.candidateHash);
      }
      plateauCounter := plateauCounter + 1;
    }

    method CompleteGeneration(generationTrials: seq<CandidateTrial>, ghost done: seq<CandidateTrial>)
      returns (stop: Option<Stop>, failure: Option<Failure>)
      requires setup.Valid() && BestIs(setup, bestScores, bestCandidateHash, done)
      modifies this`bestScores, this`bestCandidateHash, this`plateauCounter
      ensures old(failureReason).Some? ==> State() == old(State()) && stop.None? && failure == old(failureReason)
      ensures old(failureReason).None? ==>
        State() == Completed(setup, old(State()), generationTrials) && (stop, failure) == Ending(setup, State(), generationTrials)
    {
      hide BestIs, Ranking, Updated, Lead, CompareScoreVectors;
      if failureReason.Some? {
        return None, failureReason;
      }
      if generationTrials != [] {
        var ranked := RankTrials(setup.profile, generationTrials);
        BestCompares(setup, State(), done, generationTrials);
        UpdatePlateau(ranked);
      }
      if interrupted {
        return None, Some(RunInterrupted);
      }
      if |visited| == |setup.universe| {
        return Some(UniverseExhausted), None;
      }
      if generationTrials == [] {
        return None, Some(FailedInvariant);
      }
      if plateauCounter >= setup.patience {
        return Some(Plateau), None;
      }
      return None, None;
    }

    method FreezeParentPool(generation: nat) returns (pool: Pool)
      requires setup.Valid()
      ensures pool == Pool(generation, PoolOf(setup, trials))
    {
      var ranked := RankTrials(setup.profile, trials);
      var hashes := RankedHashes(ranked);
      pool := Pool(generation, if |hashes| <= setup.poolSize then hashes else hashes[..setup.poolSize]);
    }

    /** Takes in a finished generation; a result if the run ends with it. */
    method FinishGeneration(generation: nat, generationTrials: seq<CandidateTrial>, ghost slots: nat) returns (ended: Option<SearchResult>)
      requires setup.Valid() && Within(setup, State(), generation, slots) && StartsInOrder(setup, visitedOrder)
      requires slots == (if generation == 0 then setup.initial else setup.plan.offspring) || |visited| == |setup.universe|
      requires Start(setup, generation) <= |trials| && generationTrials == trials[Start(setup, generation)..]
      modifies this`bestScores, this`bestCandidateHash, this`plateauCounter
      ensures StartsInOrder(setup, visitedOrder)
      ensures ended.None? ==> Between(setup, State(), generation + 1)
      ensures ended.Some? ==> IsResult(ended.value, generation + 1)
    {
      hide Within, Between, Sound, Completed, StartsInOrder, Ending, BestIs, Start;
      ghost var before := State();
      WithinFacts(setup, before, generation, slots);
      GenerationCompletes(setup, before, generation, slots);
      var stop, failure := CompleteGeneration(generationTrials, trials[..Start(setup, generation)]);
      TrackingKeepsOrder(setup, before, State(), generationTrials);
      if stop.Some? || failure.Some? {
        ended := Some(ResultOf(State(), generation + 1, stop, failure));
      } else {
        ended := None;
      }
    }

    /** A sound result, assembled from the fields as they are. */
    ghost predicate IsResult(r: SearchResult, generations: nat)
      requires setup.Valid()
      reads this
    {
      Sound(setup, r) && r == ResultOf(State(), generations, r.stop, r.failure)
    }

    method AdvanceInitialSlot(slot: nat, candidate: Candidate) returns (trial: CandidateTrial, broken: Option<Failure>)
      requires setup.Valid() && Within(setup, State(), 0, slot) && slot < setup.initial && slot < |TraversalOrder(setup)|
      requires candidate == TraversalOrder(setup)[slot] && visitedOrder == HashesOf(TraversalOrder(setup)[..slot])
      modifies this`events, this`eventSequence, this`trials, this`interrupted, this`failureReason, this`proposed, this`visited,
               this`proposedOrder, this`visitedOrder, this`proposals
      ensures visitedOrder == HashesOf(TraversalOrder(setup)[..slot + 1]) && trials == old(trials) + [trial]
      ensures broken.None? ==> Within(setup, State(), 0, slot + 1)
      ensures broken.Some? ==> Sound(setup, ResultOf(State(), 1, None, broken))
    {
      hide Within, Broke, Sound, Accept, TraversalOrder, HashesOf;
      InitialAdvances(setup, State(), slot);
      WithinFacts(setup, State(), 0, slot);
      var accepted := AcceptCandidate(candidate, 0, slot, Initial, None);
      trial := accepted.value;
      broken := if failureReason.Some? then failureReason else if interrupted then Some(RunInterrupted) else None;
      if broken.Some? { BrokeIsSound(setup, State(), 0); }
    }

    /** Generation zero: the traversal's first candidates. Returns a result if the run ends there. */
    method RunInitialGeneration() returns (ended: Option<SearchResult>)
      requires setup.Valid() && State() == FRESH && hasRun
      modifies this
      ensures hasRun && StartsInOrder(setup, visitedOrder)
      ensures ended.None? ==> Between(setup, State(), 1)
      ensures ended.Some? ==> IsResult(ended.value, 1)
    {
      hide Within, Between, Sound, TraversalOrder, StartsInOrder, HashesOf, Start;
      StartStep(setup, 0);
      var order := TraversalOrder(setup);
      var population := if setup.initial <= |order| then order[..setup.initial] else order;
      var initialTrials: seq<CandidateTrial> := [];
      FreshWithin(setup);
      for slot := 0 to |population|
        invariant Within(setup, State(), 0, slot) && initialTrials == trials && hasRun
        invariant visitedOrder == HashesOf(order[..slot])
      {
        var trial, broken := AdvanceInitialSlot(slot, population[slot]);
        if broken.Some? {
          InitialInOrder(setup, State(), slot + 1);
          return Some(ResultOf(State(), 1, None, broken));
        }
        initialTrials := initialTrials + [trial];
      }
      InitialInOrder(setup, State(), |population|);
      WithinFacts(setup, State(), 0, |population|);
      PopulationComplete(setup, State(), |population|);
      ended := FinishGeneration(0, initialTrials, |population|);
    }

    /** One offspring generation over its frozen pool. Returns a result if the run ends in it. */
    method RunGeneration(generation: nat) returns (ended: Option<SearchResult>)
      requires setup.Valid() && Between(setup, State(), generation) && StartsInOrder(setup, visitedOrder) && hasRun
      modifies this
      ensures hasRun && StartsInOrder(setup, visitedOrder)
      ensures ended.None? ==> Between(setup, State(), generation + 1) && |visited| > |old(visited)|
      ensures ended.Some? ==> IsResult(ended.value, generation + 1)
    {
      hide Within, Between, Broke, Sound, Completed, PoolOf, StartsInOrder, Ending, BestIs, SlotOf, ParentsKnown, SlotReady, Lineage, OneMore;
      BetweenFacts(setup, State(), generation);
      FreezingKeeps(setup, State(), generation);
      var parentPool := FreezeParentPool(generation);
      parentPools := parentPools + [parentPool];
      var generationTrials: seq<CandidateTrial> := [];
      ghost var first := |trials|;
      var slot := 0;
      while slot < setup.plan.offspring
        invariant Within(setup, State(), generation, slot) && StartsInOrder(setup, visitedOrder) && hasRun
        invariant slot <= setup.plan.offspring && |visited| == |trials| == first + slot
        invariant |visited| < |setup.universe| && first == Start(setup, generation) >= setup.initial
        invariant |parentPools| == generation && parentPools[generation - 1] == parentPool
        invariant generationTrials == trials[first..]
      {
        var trial, broken := AdvanceSlot(generation, slot, parentPool);
        if broken.Some? {
          return Some(ResultOf(State(), generation + 1, None, broken));
        }
        generationTrials := generationTrials + [trial];
        slot := slot + 1;
        if |visited| == |setup.universe| {
          break;
        }
      }
      ended := FinishGeneration(generation, generationTrials, slot);
    }

    /** One slot inside a generation: a trial, or the failure that ends the run. */
    method AdvanceSlot(generation: nat, slot: nat, parentPool: Pool) returns (trial: CandidateTrial, broken: Option<Failure>)
      requires setup.Valid() && Within(setup, State(), generation, slot) && generation >= 1 && slot < setup.plan.offspring
      requires |visited| < |setup.universe| && |parentPools| == generation && parentPools[generation - 1] == parentPool
      requires setup.initial <= |trials| && StartsInOrder(setup, visitedOrder)
      modifies this`events, this`eventSequence, this`trials, this`interrupted, this`failureReason, this`proposed, this`visited,
               this`proposedOrder, this`visitedOrder, this`proposals
      ensures StartsInOrder(setup, visitedOrder)
      ensures broken.None? ==> Within(setup, State(), generation, slot + 1) && trials == old(trials) + [trial] && |visited| == |old(visited)| + 1
      ensures broken.Some? ==> Sound(setup, ResultOf(State(), generation + 1, None, broken))
    {
      hide Within, Broke, Sound, StartsInOrder, SlotOf, ParentsKnown, SlotReady, Lineage;
      ghost var base := State();
      WithinFacts(setup, base, generation, slot);
      SlotAdvances(setup, base, generation, slot);
      WithinIsReady(setup, base, generation, slot);
      SlotKeeps(setup, base, generation, slot);
      var attempt := RunSlot(generation, slot, parentPool);
      LineageLedger(setup, State());
      OrderStays(setup, base, State());
      broken := if failureReason.Some? then failureReason else if interrupted then Some(RunInterrupted) else None;
      if broken.Some? {
        BrokeIsSound(setup, State(), generation);
        trial := NewTrial(setup, 0, setup.universe[0], generation, slot, None);
      } else {
        WithinFacts(setup, State(), generation, slot + 1);
        trial := attempt.value;
      }
    }

    /** One complete run. It always ends, and every result it can return is sound. */
    method Search() returns (r: Result<SearchResult, UseError>)
      requires Valid()
      modifies this
      ensures Valid() && hasRun
      ensures old(hasRun) ==> r == Err(AlreadyRun) && State() == old(State())
      ensures !old(hasRun) ==> r.Ok? && Sound(setup, r.value) && StartsInOrder(setup, r.value.visitedOrder)
      ensures !old(hasRun) ==> r.value == ResultOf(State(), r.value.generationCount, r.value.stop, r.value.failure)
    {
      hide Between, Sound, StartsInOrder;
      if hasRun {
        return Err(AlreadyRun);
      }
      hasRun := true;
      var ended := RunInitialGeneration();
      if ended.Some? {
        return Ok(ended.value);
      }
      var generation := 1;
      BetweenFacts(setup, State(), generation);
      while |visited| < |setup.universe|
        invariant Between(setup, State(), generation) && StartsInOrder(setup, visitedOrder) && hasRun
        invariant |visited| < |setup.universe|
        decreases |setup.universe| - |visited|
      {
        ended := RunGeneration(generation);
        if ended.Some? {
          return Ok(ended.value);
        }
        generation := generation + 1;
        BetweenFacts(setup, State(), generation);
      }
      // The source's return after its loop is never reached: an exhausted universe
      // has already ended the run inside it.
      assert false;
    }
  }

  lemma {:induction false} NoOffsets(plan: Plan, generation: nat, slot: nat, pool: seq<Digest>)
    requires plan.Valid()
    ensures Alternatives(plan, generation, slot, pool, 0) == []
  {
  }

  lemma {:induction false} NoParents(op: Operator, parents: seq<ParentAlternative>, parameters: seq<ParameterAlternative>)
    ensures Block(op, parents[..0], parameters) == [] && parents[..|parents|] == parents
  {
  }

  lemma {:induction false} OneParentsKnown(setup: Setup, alternatives: seq<Alternative>, n: nat)
    requires ParentsKnown(setup, alternatives) && n < |alternatives|
    ensures forall h :: h in alternatives[n].parent.parents ==> Contains(setup.universe, h)
  {
    hide Contains;
    assert alternatives[n] in alternatives;
  }

  lemma {:induction false} FreshWithin(setup: Setup)
    requires setup.Valid()
    ensures Within(setup, FRESH, 0, 0) && FRESH.visitedOrder == HashesOf(TraversalOrder(setup)[..0])
  {
    hide TraversalOrder;
    assert FRESH.trials[..Start(setup, 0)] == [];
    assert Eligible(setup.profile, []) == [];
    assert Ranking(setup.profile, []) == [];
    assert Members(FRESH.visitedOrder) == {};
  }

  lemma {:induction false} WithinFacts(setup: Setup, run: Run, generation: nat, slots: nat)
    requires setup.Valid() && Within(setup, run, generation, slots)
    ensures Ledger(setup, run) && Start(setup, generation) <= |run.trials| == |run.visited| <= |setup.universe|
    ensures run.failure.None? && !run.interrupted && |run.pools| == generation && run.proposed == run.visited
    ensures BestIs(setup, run.bestScores, run.bestHash, run.trials[..Start(setup, generation)])
    ensures |run.trials| == Start(setup, generation) + slots
  {
    hide Ledger, Start, BestIs, SinceImprovement;
    TrialsFit(setup, run);
  }

  lemma {:induction false} WithinIsReady(setup: Setup, run: Run, generation: nat, slot: nat)
    requires setup.Valid() && Within(setup, run, generation, slot) && generation >= 1
    requires slot < setup.plan.offspring && |run.visited| < |setup.universe|
    ensures SlotReady(setup, run, generation, slot)
  {
    hide Lineage, Healthy, Tracked;
  }

  lemma {:induction false} BetweenFacts(setup: Setup, run: Run, generation: nat)
    requires setup.Valid() && Between(setup, run, generation)
    ensures generation >= 1 && |run.visited| < |setup.universe| && |run.pools| == generation - 1
    ensures |run.trials| == Start(setup, generation) == |run.visited| && Start(setup, generation) >= setup.initial
    ensures run.failure.None?
  {
    hide Ledger, BestIs, SinceImprovement;
    TrialsFit(setup, run);
  }

  lemma {:induction false} PopulationComplete(setup: Setup, run: Run, slots: nat)
    requires setup.Valid() && |run.visited| == |run.trials| == slots
    requires slots == if setup.initial <= |TraversalOrder(setup)| then setup.initial else |TraversalOrder(setup)|
    ensures slots == setup.initial || |run.visited| == |setup.universe|
  {
    hide TraversalOrder;
    SortKeeps(setup.universe,
         (a: Candidate, b: Candidate) =>
           var x, y := setup.traversalHash(a.hash, setup.plan.seed), setup.traversalHash(b.hash, setup.plan.seed);
           x < y || (x == y && a.hash <= b.hash));
    OrderLength(setup);
  }

  lemma {:induction false} OrderLength(setup: Setup)
    ensures |TraversalOrder(setup)| == |setup.universe|
  {
  }

  lemma {:induction false} TrackingKeepsOrder(setup: Setup, run: Run, after: Run, generation: seq<CandidateTrial>)
    requires setup.Valid() && after == Completed(setup, run, generation)
    ensures after.visitedOrder == run.visitedOrder && after.visited == run.visited && after.trials == run.trials
    ensures after.failure == run.failure && after.pools == run.pools
  {
    hide Lead, Ranking;
  }
}
