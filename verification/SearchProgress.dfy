/** How a search advances from slot to slot and generation to generation, and
    what every result it can return satisfies. */
module SearchProgress {
  import opened Octets
  import opened Ordering
  import opened Outcomes
  import opened SearchAlternatives
  import opened SearchLineage
  import opened SearchRanking
  import opened SearchSteps

  // ---------------------------------------------------------------- the incremental best and the plateau

  /** The running best is the head of the ranking of all these trials at once. */
  ghost predicate BestIs(setup: Setup, scores: Option<seq<real>>, hash: Option<Digest>, done: seq<CandidateTrial>)
    requires setup.Valid()
  {
    var r := Ranking(setup.profile, done);
    if r == [] then scores.None? && hash.None?
    else scores == Some(r[0].scores) && hash == Some(r[0].trial.candidateHash)
  }

  /** A generation improves when its best scores strictly beat everything before it. */
  predicate Improves(setup: Setup, done: seq<CandidateTrial>, generation: seq<CandidateTrial>)
    requires setup.profile.Valid()
  {
    var a, b := Ranking(setup.profile, done), Ranking(setup.profile, generation);
    b != [] && (a == [] || Lead(setup.profile.rules, b[0].scores, a[0].scores) > 0)
  }

  lemma {:induction false} UpdatedBest(setup: Setup, run: Run, done: seq<CandidateTrial>, generation: seq<CandidateTrial>)
    requires setup.Valid() && BestIs(setup, run.bestScores, run.bestHash, done)
    ensures var after := Updated(setup, run, Ranking(setup.profile, generation));
      && BestIs(setup, after.bestScores, after.bestHash, done + generation)
      && after.plateau == (if Improves(setup, done, generation) then 0 else run.plateau + 1)
      && after == run.(bestScores := after.bestScores, bestHash := after.bestHash, plateau := after.plateau)
  {
    hide Ranking, ScoreVector, Lead, IsBest;
    var p := setup.profile;
    var a, b, both := Ranking(p, done), Ranking(p, generation), Ranking(p, done + generation);
    HeadIsBest(p, done);
    HeadIsBest(p, generation);
    HeadIsBest(p, done + generation);
    if a == [] && b == [] {
      assert forall t :: t in done + generation ==> ScoreVector(p, t).None?;
    } else if b == [] {
      BestOfOne(p, done, generation, a[0]);
      HeadsAgree(p, done + generation, a[0]);
    } else if a == [] {
      BestOfOne(p, generation, done, b[0]);
      HeadsAgree(p, done + generation, b[0]);
    } else {
      BestOfBoth(p, done, generation, a[0], b[0]);
      HeadsAgree(p, done + generation, if RankedLe(p.rules, a[0], b[0]) then a[0] else b[0]);
      LeadMirrors(p.rules, a[0].scores, b[0].scores);
      ScoresKnown(p, done, a[0]);
      ScoresKnown(p, generation, b[0]);
      LeadTies(p.rules, b[0].scores, a[0].scores);
    }
  }

  lemma {:induction false} ScoresKnown(p: RankingProfile, trials: seq<CandidateTrial>, x: Ranked)
    requires p.Valid() && IsBest(p, trials, x)
    ensures |x.scores| == |p.rules|
  {
  }

  lemma {:induction false} HeadsAgree(p: RankingProfile, trials: seq<CandidateTrial>, x: Ranked)
    requires p.Valid() && IsBest(p, trials, x)
    ensures var r := Ranking(p, trials); r != [] && r[0].scores == x.scores && r[0].trial.candidateHash == x.trial.candidateHash
  {
    hide Ranking, ScoreVector, RankedLe;
    HeadIsBest(p, trials);
    BestIsUnique(p, trials, x, Ranking(p, trials)[0]);
  }

  function Clipped(setup: Setup, trials: seq<CandidateTrial>, generation: nat): (n: nat)
    ensures n <= |trials|
  {
    if Start(setup, generation) <= |trials| then Start(setup, generation) else |trials|
  }

  lemma {:induction false} StartGrows(setup: Setup, generation: nat)
    ensures Start(setup, generation) <= Start(setup, generation + 1)
  {
  }

  /** The trials of one generation. */
  function Slice(setup: Setup, trials: seq<CandidateTrial>, generation: nat): seq<CandidateTrial> {
    StartGrows(setup, generation);
    trials[Clipped(setup, trials, generation)..Clipped(setup, trials, generation + 1)]
  }

  /** Generations, of the first so many, since the last one that improved on all
      before it; one without trials does not count. */
  function SinceImprovement(setup: Setup, trials: seq<CandidateTrial>, generations: nat): nat
    requires setup.profile.Valid()
  {
    if generations == 0 then 0
    else
      var last := generations - 1;
      if Slice(setup, trials, last) == [] then SinceImprovement(setup, trials, last)
      else if Improves(setup, trials[..Clipped(setup, trials, last)], Slice(setup, trials, last)) then 0
      else SinceImprovement(setup, trials, last) + 1
  }

  lemma {:induction false} SinceImprovementStays(setup: Setup, trials: seq<CandidateTrial>, more: seq<CandidateTrial>, generations: nat)
    requires setup.Valid() && Start(setup, generations) <= |trials|
    ensures SinceImprovement(setup, trials + more, generations) == SinceImprovement(setup, trials, generations)
  {
    hide Improves, Start;
    if generations > 0 {
      var last := generations - 1;
      StartGrows(setup, last);
      SinceImprovementStays(setup, trials, more, last);
      assert (trials + more)[..Start(setup, last)] == trials[..Start(setup, last)];
      assert Slice(setup, trials + more, last) == Slice(setup, trials, last);
    }
  }

  // ---------------------------------------------------------------- one accepted trial

  lemma {:induction false} AcceptKeepsLineage(setup: Setup, run: Run, c: Candidate, generation: nat, slot: nat, source: Source,
                                              choice: Option<Alternative>)
    requires setup.Valid() && Lineage(setup, run) && c.hash !in run.visited && Contains(setup.universe, c.hash)
    requires c in setup.universe && (source.Initial? <==> generation == 0) && (source.FromOperator? <==> choice.Some?)
    requires choice.None? ==> FirstInTraversal(setup, c.hash, run.visitedOrder)
    requires var t := NewTrial(setup, |run.trials|, c, generation, slot, choice);
      PlacedAt(setup, t, |run.trials|) && Descends(setup, run.pools, t)
    ensures Lineage(setup, Accept(setup, run, c, generation, slot, source, choice))
  {
    hide Ledger, PlacedAt, Descends, PoolsFrozen, FallbacksEarned, EvaluationOf, NewTrial, NewProposal, Contains, Recorded, RecordedAt,
         FirstInTraversal;
    var t := NewTrial(setup, |run.trials|, c, generation, slot, choice);
    var after := Accept(setup, run, c, generation, slot, source, choice);
    AcceptKeepsLedger(setup, run, c, generation, slot, source, choice);
    PoolsStay(setup, run.pools, run.trials, [t]);
    LedgerSize(setup, run);
    NewIsRecorded(setup, |run.trials|, c, generation, slot, source, choice, run.visitedOrder);
    RecordedGrows(setup, run.trials, run.proposals, run.visitedOrder, t, NewProposal(setup, c, generation, slot, source, choice));
    assert after.visitedOrder == run.visitedOrder + [t.candidateHash] by { NewTrialHash(setup, |run.trials|, c, generation, slot, choice); }
    assert after.trials == run.trials + [t];
    var added := after.events[|run.events|..];
    assert after.events == run.events + added && added == [added[0], added[1]];
    FallbacksStay(setup, run.events, added, run.pools);
  }

  lemma {:induction false} LedgerSize(setup: Setup, run: Run)
    requires Ledger(setup, run)
    ensures |run.trials| == |run.visitedOrder|
  {
  }

  lemma {:induction false} NewTrialHash(setup: Setup, position: nat, c: Candidate, generation: nat, slot: nat, choice: Option<Alternative>)
    ensures NewTrial(setup, position, c, generation, slot, choice).candidateHash == c.hash
  {
  }

  /** What a slot adds when it accepts a trial. */
  ghost predicate OneMore(run: Run, after: Run) {
    && |after.trials| == |run.trials| + 1 && after.trials[..|run.trials|] == run.trials
    && after.pools == run.pools && after.bestScores == run.bestScores && after.bestHash == run.bestHash && after.plateau == run.plateau
    && var terminal := TerminalOf(after.trials[|run.trials|]);
       after.failure == (if terminal.EngineFailed? then Some(EvaluatorFailed) else run.failure)
       && after.interrupted == (run.interrupted || terminal.Interrupted?)
  }

  /** What a slot leaves when an operator fails. */
  ghost predicate GaveUp(run: Run, after: Run) {
    && after.trials == run.trials && after.pools == run.pools && after.visited == run.visited && after.visitedOrder == run.visitedOrder
    && after.bestScores == run.bestScores && after.bestHash == run.bestHash && after.plateau == run.plateau
    && after.failure == Some(OperatorFailed) && after.interrupted == run.interrupted
  }

  ghost predicate SlotReady(setup: Setup, run: Run, generation: nat, slot: nat)
    requires setup.Valid()
  {
    && Lineage(setup, run) && |run.pools| == generation >= 1 && slot < setup.plan.offspring
    && |run.trials| == Start(setup, generation) + slot && |run.visited| < |setup.universe|
  }

  lemma {:induction false} SlotParentsKnown(setup: Setup, run: Run, generation: nat, slot: nat)
    requires setup.Valid() && SlotReady(setup, run, generation, slot)
    ensures NoDuplicates(run.pools[generation - 1].parents)
    ensures ParentsKnown(setup, SlotAlternatives(setup, run.pools, generation, slot))
  {
    hide Ledger, Placed, AllDescend, FallbacksEarned, PoolOf, Alternatives, ParentsKnown, Contains, NoDuplicates;
    var pool := run.pools[generation - 1];
    assert FrozenAt(setup, pool, run.trials, generation);
    PoolKnown(setup, run, run.trials[..Start(setup, generation)]);
    AlternativesKnown(setup, generation, slot, pool.parents, |setup.plan.schedule|);
  }

  lemma {:induction false} TakenIsFresh(setup: Setup, run: Run, alternatives: seq<Alternative>, n: nat)
    requires setup.Valid() && n < |alternatives| && ParentsKnown(setup, alternatives) && VerdictAt(setup, run, alternatives, n).Takes?
    ensures var c := VerdictAt(setup, run, alternatives, n).candidate;
      c.hash !in run.visited && Contains(setup.universe, c.hash) && c in setup.universe && Proposed(setup, run.sequence + n, alternatives[n], c.hash)
  {
    hide Contains, CandidatesFor;
    var c := VerdictAt(setup, run, alternatives, n).candidate;
    assert CandidateFor(setup.universe, c.hash) == c;
  }

  lemma {:induction false} ChosenThus(setup: Setup, position: nat, c: Candidate, generation: nat, slot: nat, a: Alternative, sequence: nat)
    requires Proposed(setup, sequence, a, c.hash)
    ensures ChosenAs(setup, NewTrial(setup, position, c, generation, slot, Some(a)), a)
  {
    hide Proposed, EvaluationOf;
  }

  /** An operator's accepted proposal keeps the lineage. */
  lemma {:induction false} TakingKeeps(setup: Setup, run: Run, generation: nat, slot: nat, n: nat)
    requires setup.Valid() && SlotReady(setup, run, generation, slot)
    requires var alternatives := SlotAlternatives(setup, run.pools, generation, slot);
      ParentsKnown(setup, alternatives) && n < |alternatives| && VerdictAt(setup, run, alternatives, n).Takes?
      && forall k :: 0 <= k < n ==> VerdictAt(setup, run, alternatives, k).Rejects?
    ensures var alternatives := SlotAlternatives(setup, run.pools, generation, slot);
      var rejected := Logged(run, Rejections(setup, run, generation, slot, alternatives, n));
      var after := Accept(setup, rejected, VerdictAt(setup, run, alternatives, n).candidate, generation, slot, FromOperator, Some(alternatives[n]));
      Lineage(setup, after) && OneMore(run, after)
  {
    hide Rejections, VerdictAt, Ledger, Placed, PoolsFrozen, AllDescend, FallbacksEarned, ParentsKnown, SlotAlternatives, Tried, EvaluationOf, Contains,
         Recorded, FirstInTraversal, ChosenAs, Proposed, CandidatesFor;
    var alternatives := SlotAlternatives(setup, run.pools, generation, slot);
    RejectionsLogged(setup, run, generation, slot, alternatives, n);
    TakenIsFresh(setup, run, alternatives, n);
    var rejected := Logged(run, Rejections(setup, run, generation, slot, alternatives, n));
    var c := VerdictAt(setup, run, alternatives, n).candidate;
    var t := NewTrial(setup, |run.trials|, c, generation, slot, Some(alternatives[n]));
    ChosenThus(setup, |run.trials|, c, generation, slot, alternatives[n], run.sequence + n);
    assert alternatives[n] in alternatives && ChosenAs(setup, t, alternatives[n]);
    AcceptKeepsLineage(setup, rejected, c, generation, slot, FromOperator, Some(alternatives[n]));
  }

  lemma {:induction false} OneEventLogged(setup: Setup, run: Run, e: Event)
    requires setup.Valid() && Lineage(setup, run) && e.ProposalEvent? && !e.kind.SlotExhausted? && e.sequence == run.sequence
    requires e.kind.DirectFallback? ==> EarnedAt(setup, run.events + [e], run.pools, |run.events|)
    ensures Lineage(setup, Logged(run, [e]))
  {
    hide Ledger, Placed, PoolsFrozen, AllDescend, EarnedAt, Recorded;
    LoggedKeepsLedger(setup, run, [e]);
    var all := run.events + [e];
    forall i | 0 <= i < |all| && all[i].ProposalEvent? && all[i].kind.DirectFallback? ensures EarnedAt(setup, all, run.pools, i) {
      if i < |run.events| { EarnedStays(setup, run.events, [e], run.pools, i); }
    }
  }

  /** The fallback's own event is earned by the rejections before it. */
  lemma {:induction false} FallingBackKeeps(setup: Setup, run: Run, generation: nat, slot: nat)
    requires setup.Valid() && SlotReady(setup, run, generation, slot)
    requires var alternatives := SlotAlternatives(setup, run.pools, generation, slot);
      ParentsKnown(setup, alternatives) && forall k :: 0 <= k < |alternatives| ==> VerdictAt(setup, run, alternatives, k).Rejects?
    ensures var alternatives := SlotAlternatives(setup, run.pools, generation, slot);
      var after := FallBack(setup, Logged(run, Rejections(setup, run, generation, slot, alternatives, |alternatives|)), generation, slot);
      Lineage(setup, after) && OneMore(run, after)
  {
    hide Rejections, VerdictAt, Ledger, Placed, PoolsFrozen, AllDescend, FallbacksEarned, ParentsKnown, SlotAlternatives, EvaluationOf,
         Contains, TraversalOrder, FirstUnseen, Tried, Recorded, FirstInTraversal;
    var alternatives := SlotAlternatives(setup, run.pools, generation, slot);
    RejectionsLogged(setup, run, generation, slot, alternatives, |alternatives|);
    assert alternatives[..|alternatives|] == alternatives;
    var rejected := Logged(run, Rejections(setup, run, generation, slot, alternatives, |alternatives|));
    assert Explored(setup, rejected) by { LedgerExplored(setup, rejected); }
    SomethingUnseen(setup, rejected);
    var c := FirstUnseen(TraversalOrder(setup), rejected.proposed, rejected.visited).value;
    OrderCovers(setup, c);
    UniverseContains(setup, c);
    UnseenIsFirst(setup, rejected);
    var e := SlotEvent(rejected, generation, slot, DirectFallback, Some(c.hash));
    TriedStays(setup, rejected.events, [e], |run.events|, generation, slot, alternatives);
    OneEventLogged(setup, rejected, e);
    AcceptKeepsLineage(setup, Logged(rejected, [e]), c, generation, slot, Fallback, None);
  }

  /** The fallback takes the first candidate of the traversal that was not seen. */
  lemma {:induction false} UnseenIsFirst(setup: Setup, run: Run)
    requires Explored(setup, run) && FirstUnseen(TraversalOrder(setup), run.proposed, run.visited).Some?
    ensures FirstInTraversal(setup, FirstUnseen(TraversalOrder(setup), run.proposed, run.visited).value.hash, run.visitedOrder)
  {
    hide TraversalOrder, Contains;
    var order := TraversalOrder(setup);
    var k := FirstUnseenAt(order, run.proposed, run.visited);
    forall j | 0 <= j < k ensures order[j].hash in run.visitedOrder {
      MembersAre(run.visitedOrder, order[j].hash);
    }
    assert SeenBefore(setup, k, run.visitedOrder);
  }

  lemma {:induction false} FirstUnseenAt(order: seq<Candidate>, proposed: set<Digest>, visited: set<Digest>) returns (k: nat)
    requires FirstUnseen(order, proposed, visited).Some?
    ensures k < |order| && order[k] == FirstUnseen(order, proposed, visited).value
    ensures forall j :: 0 <= j < k ==> order[j].hash in proposed || order[j].hash in visited
  {
    if order[0].hash !in proposed && order[0].hash !in visited {
      k := 0;
    } else {
      k := FirstUnseenAt(order[1..], proposed, visited);
      k := k + 1;
    }
  }

  lemma {:induction false} LedgerExplored(setup: Setup, run: Run)
    requires Ledger(setup, run)
    ensures Explored(setup, run)
  {
  }

  lemma {:induction false} UniverseContains(setup: Setup, c: Candidate)
    requires c in setup.universe
    ensures Contains(setup.universe, c.hash)
  {
    var i :| 0 <= i < |setup.universe| && setup.universe[i] == c;
    assert HashesOf(setup.universe)[i] == c.hash;
  }

  lemma {:induction false} TriedStays(setup: Setup, events: seq<Event>, more: seq<Event>, from: nat, generation: nat, slot: nat,
                                      alternatives: seq<Alternative>)
    requires Tried(setup, events, from, generation, slot, alternatives)
    ensures Tried(setup, events + more, from, generation, slot, alternatives)
  {
    hide RejectionFor;
    forall k | 0 <= k < |alternatives| ensures RejectionFor(setup, (events + more)[from + k], generation, slot, alternatives[k]) {
      assert (events + more)[from + k] == events[from + k];
    }
  }

  lemma {:induction false} FailingKeeps(setup: Setup, run: Run, generation: nat, slot: nat, n: nat)
    requires setup.Valid() && SlotReady(setup, run, generation, slot)
    requires var alternatives := SlotAlternatives(setup, run.pools, generation, slot);
      ParentsKnown(setup, alternatives) && n < |alternatives| && VerdictAt(setup, run, alternatives, n).Fails?
      && forall k :: 0 <= k < n ==> VerdictAt(setup, run, alternatives, k).Rejects?
    ensures var alternatives := SlotAlternatives(setup, run.pools, generation, slot);
      var rejected := Logged(run, Rejections(setup, run, generation, slot, alternatives, n));
      var v := VerdictAt(setup, run, alternatives, n);
      var after := Logged(rejected, [AlternativeEvent(setup, rejected.sequence, generation, slot, alternatives[n], Invalid, v.candidateHash, v.reason)])
        .(failure := Some(OperatorFailed));
      Lineage(setup, after) && GaveUp(run, after)
  {
    hide Rejections, VerdictAt, Ledger, Placed, PoolsFrozen, AllDescend, FallbacksEarned, ParentsKnown, SlotAlternatives, Tried, Recorded;
    var alternatives := SlotAlternatives(setup, run.pools, generation, slot);
    RejectionsLogged(setup, run, generation, slot, alternatives, n);
    var rejected := Logged(run, Rejections(setup, run, generation, slot, alternatives, n));
    var v := VerdictAt(setup, run, alternatives, n);
    var e := AlternativeEvent(setup, rejected.sequence, generation, slot, alternatives[n], Invalid, v.candidateHash, v.reason);
    OneEventLogged(setup, rejected, e);
    SameLedger(setup, Logged(rejected, [e]));
  }

  lemma {:induction false} SameLedger(setup: Setup, run: Run)
    requires setup.Valid() && Lineage(setup, run)
    ensures Lineage(setup, run.(failure := Some(OperatorFailed)))
  {
    hide Placed, PoolsFrozen, AllDescend, FallbacksEarned, Recorded;
  }

  /** Every slot either accepts one placed, descended trial or fails on its operator. */
  lemma {:induction false} SlotKeeps(setup: Setup, run: Run, generation: nat, slot: nat)
    requires setup.Valid() && SlotReady(setup, run, generation, slot)
    ensures ParentsKnown(setup, SlotAlternatives(setup, run.pools, generation, slot))
    ensures var after := SlotOf(setup, run, generation, slot, SlotAlternatives(setup, run.pools, generation, slot));
      Lineage(setup, after) && (OneMore(run, after) || GaveUp(run, after))
  {
    hide Rejections, VerdictAt, Lineage, ParentsKnown, SlotAlternatives, Accept, FallBack, OneMore, GaveUp, Undecided;
    SlotParentsKnown(setup, run, generation, slot);
    var alternatives := SlotAlternatives(setup, run.pools, generation, slot);
    var n := Undecided(setup, run, alternatives, 0);
    if n == |alternatives| {
      FallingBackKeeps(setup, run, generation, slot);
    } else if VerdictAt(setup, run, alternatives, n).Takes? {
      TakingKeeps(setup, run, generation, slot, n);
    } else {
      FailingKeeps(setup, run, generation, slot, n);
    }
  }
}
