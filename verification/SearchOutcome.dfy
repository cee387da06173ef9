/** What every result of a search satisfies, and why no run can end otherwise. */
module SearchOutcome {
  import opened Ordering
  import opened Outcomes
  import opened SearchAlternatives
  import opened SearchLineage
  import opened SearchProgress
  import opened SearchRanking
  import opened SearchSteps

  // ---------------------------------------------------------------- the result model's own validation

  /** The kinds logged for one trial, in order. */
  function KindsFor(log: seq<(nat, TrialKind)>, position: nat): seq<TrialKind> {
    if log == [] then []
    else KindsFor(log[..|log| - 1], position) + if log[|log| - 1].0 == position then [log[|log| - 1].1] else []
  }

  ghost predicate TerminalLineageValid(r: SearchResult) {
    && r.stop.None? != r.failure.None?
    && (forall i :: 0 <= i < |r.events| ==> r.events[i].sequence == i)
    && (forall i :: 0 <= i < |r.trials| ==> r.trials[i].position == i)
    && NoDuplicates(r.proposedOrder) && NoDuplicates(r.visitedOrder) && r.proposedOrder == r.visitedOrder
    && |r.proposals| == |r.proposedOrder| && (forall i :: 0 <= i < |r.proposals| ==> r.proposals[i].candidateHash == r.proposedOrder[i])
    && |r.proposals| == |r.trials| && (forall i :: 0 <= i < |r.trials| ==> r.trials[i].candidateHash == r.proposedOrder[i])
    && (r.bestHash.Some? ==> r.bestHash.value in r.visitedOrder)
    && (forall k :: 0 <= k < |r.pools| ==> r.pools[k].generation == k + 1)
    && |TrialLog(r.events)| == 2 * |r.trials|
    && ((exists t :: t in r.trials && TerminalOf(t).EngineFailed?) ==> r.failure == Some(EvaluatorFailed))
    && (forall i :: 0 <= i < |r.trials| ==>
          KindsFor(TrialLog(r.events), r.trials[i].position) == [Started, Ended(TerminalOf(r.trials[i]))])
  }

  lemma {:induction false} KindsConcat(a: seq<(nat, TrialKind)>, x: (nat, TrialKind), y: (nat, TrialKind), position: nat)
    ensures KindsFor(a + [x, y], position)
         == KindsFor(a, position) + (if x.0 == position then [x.1] else []) + (if y.0 == position then [y.1] else [])
  {
    assert (a + [x, y])[..|a| + 1] == a + [x];
    assert (a + [x])[..|a|] == a;
  }

  lemma {:induction false} KindsExpected(trials: seq<CandidateTrial>, i: nat)
    requires forall k :: 0 <= k < |trials| ==> trials[k].position == k
    ensures KindsFor(ExpectedLog(trials), i) == if i < |trials| then [Started, Ended(TerminalOf(trials[i]))] else []
  {
    hide KindsFor, ExpectedLog;
    if trials == [] {
      NothingExpected(i);
    } else {
      var front, last := trials[..|trials| - 1], trials[|trials| - 1];
      KindsExpected(front, i);
      ExpectedStep(trials);
      KindsConcat(ExpectedLog(front), (last.position, Started), (last.position, Ended(TerminalOf(last))), i);
    }
  }

  lemma {:induction false} NothingExpected(i: nat)
    ensures KindsFor(ExpectedLog([]), i) == []
  {
  }

  lemma {:induction false} ExpectedStep(trials: seq<CandidateTrial>)
    requires trials != []
    ensures var front, last := trials[..|trials| - 1], trials[|trials| - 1];
      ExpectedLog(trials) == ExpectedLog(front) + [(last.position, Started), (last.position, Ended(TerminalOf(last)))]
  {
  }

  // ---------------------------------------------------------------- the state between slots and generations

  predicate Bad(t: CandidateTrial) { TerminalOf(t).EngineFailed? || TerminalOf(t).Interrupted? }

  ghost predicate Healthy(run: Run) {
    run.failure.None? && !run.interrupted && forall t :: t in run.trials ==> !Bad(t)
  }

  /** The best and the plateau counter reflect exactly the completed generations. */
  ghost predicate Tracked(setup: Setup, run: Run, completed: nat)
    requires setup.Valid()
  {
    && Start(setup, completed) <= |run.trials|
    && BestIs(setup, run.bestScores, run.bestHash, run.trials[..Start(setup, completed)])
    && run.plateau == SinceImprovement(setup, run.trials, completed) < setup.patience
  }

  /** So many slots of a generation have been run. */
  ghost predicate Within(setup: Setup, run: Run, generation: nat, slots: nat)
    requires setup.Valid()
  {
    && Lineage(setup, run) && |run.pools| == generation && |run.trials| == Start(setup, generation) + slots
    && Healthy(run) && Tracked(setup, run, generation)
    && (if generation == 0 then slots <= setup.initial
        else slots <= setup.plan.offspring && Start(setup, generation) < |setup.universe|)
  }

  /** All generations before this one are complete and the next can begin. */
  ghost predicate Between(setup: Setup, run: Run, generation: nat)
    requires setup.Valid()
  {
    && generation >= 1 && Lineage(setup, run) && |run.pools| == generation - 1 && |run.trials| == Start(setup, generation)
    && Healthy(run) && Tracked(setup, run, generation) && |run.visited| < |setup.universe|
  }

  /** A slot of this generation failed or was interrupted. */
  ghost predicate Broke(setup: Setup, run: Run, generation: nat)
    requires setup.Valid()
  {
    && Lineage(setup, run) && |run.pools| == generation && Tracked(setup, run, generation)
    && (generation >= 1 ==> Start(setup, generation) < |setup.universe|)
    && Explains(run.trials, if run.failure.Some? then run.failure.value else RunInterrupted)
    && (run.failure.Some? || run.interrupted)
  }

  /** The last trial accounts for the failure reported, and no earlier one failed. */
  ghost predicate Explains(trials: seq<CandidateTrial>, failure: Failure) {
    match failure
    case OperatorFailed => forall t :: t in trials ==> !Bad(t)
    case EvaluatorFailed =>
      trials != [] && TerminalOf(trials[|trials| - 1]).EngineFailed? && forall t :: t in trials[..|trials| - 1] ==> !Bad(t)
    case RunInterrupted =>
      trials != [] && TerminalOf(trials[|trials| - 1]).Interrupted? && forall t :: t in trials[..|trials| - 1] ==> !Bad(t)
    case FailedInvariant => false
  }

  // ---------------------------------------------------------------- soundness of results

  /** Everything a returned result guarantees. */
  ghost predicate Sound(setup: Setup, r: SearchResult)
    requires setup.Valid()
  {
    && TerminalLineageValid(r)
    && r.generationCount == |r.pools| + 1 && |r.trials| <= |setup.universe|
    && (r.generationCount >= 2 ==> Start(setup, r.generationCount - 1) < |setup.universe|)
    && (forall e :: e in r.events ==> !Exhausted(e))
    && Placed(setup, r.trials) && PoolsFrozen(setup, r.pools, r.trials)
    && AllDescend(setup, r.pools, r.trials) && FallbacksEarned(setup, r.events, r.pools)
    && Recorded(setup, r.trials, r.proposals, r.visitedOrder)
    && (if r.stop.Some? then Stopped(setup, r) else Failed(setup, r))
  }

  /** A normal stop: the best of all trials, and the true plateau count. */
  ghost predicate Stopped(setup: Setup, r: SearchResult)
    requires setup.Valid() && r.stop.Some?
  {
    && (forall t :: t in r.trials ==> !Bad(t))
    && (exists scores :: BestIs(setup, scores, r.bestHash, r.trials))
    && r.plateau == SinceImprovement(setup, r.trials, r.generationCount)
    && (if r.stop.value.UniverseExhausted? then Members(r.visitedOrder) == Members(HashesOf(setup.universe))
        else r.plateau == setup.patience && |r.trials| < |setup.universe|)
  }

  /** A failed run: its cause, and the best of the generations completed before. */
  ghost predicate Failed(setup: Setup, r: SearchResult)
    requires setup.Valid()
  {
    var completed := r.generationCount - 1;
    && completed >= 0 && r.failure.Some? && Explains(r.trials, r.failure.value)
    && Start(setup, completed) <= |r.trials|
    && (exists scores :: BestIs(setup, scores, r.bestHash, r.trials[..Start(setup, completed)]))
    && r.plateau == SinceImprovement(setup, r.trials, completed) < setup.patience
  }

  lemma {:induction false} BestIsVisited(setup: Setup, run: Run, done: seq<CandidateTrial>)
    requires setup.Valid() && Ledger(setup, run) && done <= run.trials && BestIs(setup, run.bestScores, run.bestHash, done)
    ensures run.bestHash.Some? ==> run.bestHash.value in run.visitedOrder
  {
    hide Ranking, TrialLog, ExpectedLog, Contains, IsBest, Exhausted, EventsNumbered;
    var r := Ranking(setup.profile, done);
    RankingMeans(setup.profile, done);
    if r != [] {
      assert r[0] in r;
      var j :| 0 <= j < |done| && done[j] == r[0].trial;
      assert run.trials[j] == done[j];
    }
  }

  lemma {:induction false} LineageValid(setup: Setup, run: Run, done: seq<CandidateTrial>, generations: nat,
                                        stop: Option<Stop>, failure: Option<Failure>)
    requires setup.Valid() && Lineage(setup, run) && done <= run.trials && BestIs(setup, run.bestScores, run.bestHash, done)
    requires stop.None? != failure.None?
    requires (exists t :: t in run.trials && TerminalOf(t).EngineFailed?) ==> failure == Some(EvaluatorFailed)
    ensures TerminalLineageValid(ResultOf(run, generations, stop, failure))
  {
    hide Placed, AllDescend, FallbacksEarned, BestIs, TrialLog, ExpectedLog, KindsFor, Contains, Exhausted, PoolOf;
    BestIsVisited(setup, run, done);
    forall i | 0 <= i < |run.trials|
      ensures KindsFor(TrialLog(run.events), run.trials[i].position) == [Started, Ended(TerminalOf(run.trials[i]))]
    {
      KindsExpected(run.trials, i);
    }
    forall k | 0 <= k < |run.pools| ensures run.pools[k].generation == k + 1 { assert FrozenAt(setup, run.pools[k], run.trials, k + 1); }
  }

  lemma {:induction false} TrialsFit(setup: Setup, run: Run)
    requires setup.Valid() && Ledger(setup, run)
    ensures |run.visited| == |run.trials| <= |setup.universe| && run.proposed == run.visited
    ensures |run.visited| == |setup.universe| ==> Members(run.visitedOrder) == Members(HashesOf(setup.universe))
  {
    hide TrialLog, ExpectedLog, Contains, Exhausted, EventsNumbered, HashesOf;
    VisitedSize(setup, run);
  }

  lemma {:induction false} ExplainedEngineFailure(trials: seq<CandidateTrial>, failure: Failure)
    requires Explains(trials, failure)
    ensures !failure.FailedInvariant?
    ensures (exists t :: t in trials && TerminalOf(t).EngineFailed?) ==> failure == EvaluatorFailed
  {
    if t :| t in trials && TerminalOf(t).EngineFailed? {
      if trials != [] { assert trials == trials[..|trials| - 1] + [trials[|trials| - 1]]; }
      assert Bad(t);
    }
  }

  /** A run that breaks returns a sound failure. */
  lemma {:induction false} BrokeIsSound(setup: Setup, run: Run, generation: nat)
    requires setup.Valid() && Broke(setup, run, generation)
    ensures Sound(setup, ResultOf(run, generation + 1, None, Some(if run.failure.Some? then run.failure.value else RunInterrupted)))
  {
    hide Placed, AllDescend, FallbacksEarned, PoolsFrozen, Recorded, BestIs, TerminalLineageValid, SinceImprovement, Explains, Start, Exhausted;
    var failure := if run.failure.Some? then run.failure.value else RunInterrupted;
    ExplainedEngineFailure(run.trials, failure);
    LineageValid(setup, run, run.trials[..Start(setup, generation)], generation + 1, None, Some(failure));
    TrialsFit(setup, run);
    var r := ResultOf(run, generation + 1, None, Some(failure));
    assert BestIs(setup, run.bestScores, r.bestHash, r.trials[..Start(setup, generation)]);
  }

  // ---------------------------------------------------------------- advancing

  lemma {:induction false} TrackedStays(setup: Setup, run: Run, after: Run, completed: nat)
    requires setup.Valid() && Tracked(setup, run, completed) && run.trials <= after.trials
    requires after.bestScores == run.bestScores && after.bestHash == run.bestHash && after.plateau == run.plateau
    ensures Tracked(setup, after, completed)
  {
    hide BestIs, SinceImprovement, Start;
    var more := after.trials[|run.trials|..];
    assert after.trials == run.trials + more;
    SinceImprovementStays(setup, run.trials, more, completed);
    assert after.trials[..Start(setup, completed)] == run.trials[..Start(setup, completed)];
  }

  lemma {:induction false} OneMoreHealth(run: Run, after: Run)
    requires Healthy(run) && OneMore(run, after)
    ensures after.failure.None? && !after.interrupted ==> Healthy(after)
    ensures after.failure.Some? ==> after.failure == Some(EvaluatorFailed)
    ensures after.failure.Some? || after.interrupted ==>
      Explains(after.trials, if after.failure.Some? then after.failure.value else RunInterrupted)
  {
    var last := after.trials[|run.trials|];
    assert after.trials == run.trials + [last];
  }

  /** A slot that does not break leads to the next one. */
  lemma {:induction false} SlotAdvances(setup: Setup, run: Run, generation: nat, slot: nat)
    requires setup.Valid() && Within(setup, run, generation, slot) && generation >= 1
    requires slot < setup.plan.offspring && |run.visited| < |setup.universe|
    ensures ParentsKnown(setup, SlotAlternatives(setup, run.pools, generation, slot))
    ensures var after := SlotOf(setup, run, generation, slot, SlotAlternatives(setup, run.pools, generation, slot));
      && |after.pools| == |run.pools|
      && (if after.failure.None? && !after.interrupted then Within(setup, after, generation, slot + 1) && OneMore(run, after)
          else Broke(setup, after, generation))
  {
    hide Lineage, SlotOf, ParentsKnown, SlotAlternatives, Tracked, Healthy, Explains, Start;
    SlotKeeps(setup, run, generation, slot);
    var after := SlotOf(setup, run, generation, slot, SlotAlternatives(setup, run.pools, generation, slot));
    if OneMore(run, after) { OneMoreHealth(run, after); } else { GaveUpHealth(run, after); }
    TrackedStays(setup, run, after, generation);
  }

  lemma {:induction false} GaveUpHealth(run: Run, after: Run)
    requires Healthy(run) && GaveUp(run, after)
    ensures Explains(after.trials, after.failure.value)
  {
  }

  /** The initial population is taken in traversal order. */
  lemma {:induction false} InitialAdvances(setup: Setup, run: Run, slot: nat)
    requires setup.Valid() && Within(setup, run, 0, slot) && slot < setup.initial && slot < |TraversalOrder(setup)|
    requires run.visitedOrder == HashesOf(TraversalOrder(setup)[..slot])
    ensures TraversalOrder(setup)[slot].hash !in run.visited
    ensures var c := TraversalOrder(setup)[slot];
      var after := Accept(setup, run, c, 0, slot, Initial, None);
      && after.visitedOrder == HashesOf(TraversalOrder(setup)[..slot + 1]) && |after.pools| == 0
      && (if after.failure.None? && !after.interrupted then Within(setup, after, 0, slot + 1) && OneMore(run, after)
          else Broke(setup, after, 0))
  {
    hide Lineage, TraversalOrder, Tracked, Healthy, Explains, EvaluationOf, HashesOf, FirstInTraversal;
    var order := TraversalOrder(setup);
    var c := order[slot];
    OrderDistinct(setup, slot);
    OrderCovers(setup, c);
    UniverseContains(setup, c);
    NotYetVisited(setup, run, slot);
    var after := Accept(setup, run, c, 0, slot, Initial, None);
    VisitedUpTo(setup, run, slot);
    AcceptKeepsLineage(setup, run, c, 0, slot, Initial, None);
    HashesExtend(order, slot);
    assert after.trials[..|run.trials|] == run.trials;
    OneMoreHealth(run, after);
    TrackedStays(setup, run, after, 0);
  }

  lemma {:induction false} VisitedUpTo(setup: Setup, run: Run, slot: nat)
    requires slot < |TraversalOrder(setup)| && run.visitedOrder == HashesOf(TraversalOrder(setup)[..slot])
    ensures FirstInTraversal(setup, TraversalOrder(setup)[slot].hash, run.visitedOrder)
  {
    hide TraversalOrder;
    forall j | 0 <= j < slot ensures TraversalOrder(setup)[j].hash in run.visitedOrder {
      assert run.visitedOrder[j] == TraversalOrder(setup)[j].hash;
    }
    assert SeenBefore(setup, slot, run.visitedOrder);
  }

  lemma {:induction false} HashesExtend(order: seq<Candidate>, slot: nat)
    requires slot < |order|
    ensures HashesOf(order[..slot + 1]) == HashesOf(order[..slot]) + [order[slot].hash]
  {
  }

  lemma {:induction false} NotYetVisited(setup: Setup, run: Run, slot: nat)
    requires setup.Valid() && Lineage(setup, run) && slot < |TraversalOrder(setup)|
    requires run.visitedOrder == HashesOf(TraversalOrder(setup)[..slot])
    requires forall j :: 0 <= j < slot ==> TraversalOrder(setup)[j].hash != TraversalOrder(setup)[slot].hash
    ensures TraversalOrder(setup)[slot].hash !in run.visited
  {
    hide TraversalOrder, Placed, PoolsFrozen, AllDescend, FallbacksEarned, Recorded, EventsNumbered, OrdersAgree, Exhausted, TrialLog, ExpectedLog;
    assert forall j :: 0 <= j < slot ==> run.visitedOrder[j] == TraversalOrder(setup)[j].hash;
  }

  lemma {:induction false} OrderDistinct(setup: Setup, slot: nat)
    requires setup.Valid() && slot < |TraversalOrder(setup)|
    ensures |TraversalOrder(setup)| == |setup.universe|
    ensures forall j :: 0 <= j < slot ==> TraversalOrder(setup)[j].hash != TraversalOrder(setup)[slot].hash
  {
    hide Sort;
    var order := TraversalOrder(setup);
    SortKeepsDistinct(setup.universe,
         (a: Candidate, b: Candidate) =>
           var x, y := setup.traversalHash(a.hash, setup.plan.seed), setup.traversalHash(b.hash, setup.plan.seed);
           x < y || (x == y && a.hash <= b.hash));
    forall j | 0 <= j < slot ensures order[j].hash != order[slot].hash {
      assert order[j] in order && order[slot] in order;
      OrderCovers(setup, order[j]);
      OrderCovers(setup, order[slot]);
      HashesTell(setup, order[j], order[slot]);
    }
  }

  lemma {:induction false} HashesTell(setup: Setup, a: Candidate, b: Candidate)
    requires setup.Valid() && a in setup.universe && b in setup.universe && a != b
    ensures a.hash != b.hash
  {
    var i :| 0 <= i < |setup.universe| && setup.universe[i] == a;
    var j :| 0 <= j < |setup.universe| && setup.universe[j] == b;
    if i < j { assert setup.universe[i].hash < setup.universe[j].hash; } else { assert setup.universe[j].hash < setup.universe[i].hash; }
  }

  /** The state once a finished generation's ranking has been taken in. */
  function Completed(setup: Setup, run: Run, generation: seq<CandidateTrial>): Run
    requires setup.Valid()
  {
    if generation == [] then run else Updated(setup, run, Ranking(setup.profile, generation))
  }

  lemma {:induction false} SliceAtEnd(setup: Setup, trials: seq<CandidateTrial>, generation: nat)
    requires Start(setup, generation) <= |trials| <= Start(setup, generation + 1)
    ensures trials[..Clipped(setup, trials, generation)] == trials[..Start(setup, generation)]
    ensures Slice(setup, trials, generation) == trials[Start(setup, generation)..]
  {
  }

  /** Taking in a nonempty last generation extends what the best and the counter reflect. */
  lemma {:induction false} CompletionTracks(setup: Setup, run: Run, generation: nat)
    requires setup.Valid() && Tracked(setup, run, generation)
    requires Start(setup, generation) < |run.trials| <= Start(setup, generation + 1)
    ensures var after := Completed(setup, run, run.trials[Start(setup, generation)..]);
      && after == run.(bestScores := after.bestScores, bestHash := after.bestHash, plateau := after.plateau)
      && BestIs(setup, after.bestScores, after.bestHash, run.trials)
      && after.plateau == SinceImprovement(setup, run.trials, generation + 1) <= run.plateau + 1
  {
    hide BestIs, Updated, Start, Improves, Ranking, Slice, Clipped;
    var done, slice := run.trials[..Start(setup, generation)], run.trials[Start(setup, generation)..];
    assert run.trials == done + slice;
    UpdatedBest(setup, run, done, slice);
    SliceAtEnd(setup, run.trials, generation);
  }

  lemma {:induction false} LineageIgnoresTracking(setup: Setup, run: Run, after: Run)
    requires setup.Valid() && Lineage(setup, run)
    requires after == run.(bestScores := after.bestScores, bestHash := after.bestHash, plateau := after.plateau)
    ensures Lineage(setup, after)
  {
    hide Placed, AllDescend, FallbacksEarned, PoolsFrozen, Recorded;
  }

  /** A complete generation either continues to the next or ends the run soundly;
      the invariant failure cannot happen. */
  lemma {:induction false} GenerationCompletes(setup: Setup, run: Run, generation: nat, slots: nat)
    requires setup.Valid() && Within(setup, run, generation, slots)
    requires slots == (if generation == 0 then setup.initial else setup.plan.offspring) || |run.visited| == |setup.universe|
    ensures var slice := run.trials[Start(setup, generation)..];
      var after := Completed(setup, run, slice);
      var (stop, failure) := Ending(setup, after, slice);
      && failure.None?
      && (if stop.None? then Between(setup, after, generation + 1) else Sound(setup, ResultOf(after, generation + 1, stop, None)))
  {
    hide BestIs, Updated, Start, SinceImprovement, Lineage, TerminalLineageValid;
    var slice := run.trials[Start(setup, generation)..];
    var after := Completed(setup, run, slice);
    LineageLedger(setup, run);
    TrialsFit(setup, run);
    StartStep(setup, generation);
    if slice == [] {
      EmptyUniverse(setup, run);
    } else {
      CompletionTracks(setup, run, generation);
      assert run.trials[..|run.trials|] == run.trials;
    }
    LineageIgnoresTracking(setup, run, after);
    var (stop, failure) := Ending(setup, after, slice);
    if stop.Some? { StopIsSound(setup, after, generation, stop.value); }
  }

  lemma {:induction false} LineageLedger(setup: Setup, run: Run)
    requires setup.Valid() && Lineage(setup, run)
    ensures Ledger(setup, run)
  {
  }

  lemma {:induction false} StartStep(setup: Setup, generation: nat)
    requires setup.Valid()
    ensures Start(setup, generation + 1) == Start(setup, generation) + if generation == 0 then setup.initial else setup.plan.offspring
    ensures Start(setup, 0) == 0
  {
  }

  /** Nothing at all was tried: the best of nothing is nothing and nothing improved. */
  lemma {:induction false} EmptyUniverse(setup: Setup, run: Run)
    requires setup.Valid() && Tracked(setup, run, 0) && run.trials == []
    ensures BestIs(setup, run.bestScores, run.bestHash, run.trials)
    ensures SinceImprovement(setup, run.trials, 1) == run.plateau
  {
    hide BestIs, Improves;
    assert run.trials[..Start(setup, 0)] == run.trials;
  }

  lemma {:induction false} StopIsSound(setup: Setup, run: Run, generation: nat, stop: Stop)
    requires setup.Valid() && Lineage(setup, run) && Healthy(run) && |run.pools| == generation
    requires generation >= 1 ==> Start(setup, generation) < |setup.universe|
    requires BestIs(setup, run.bestScores, run.bestHash, run.trials)
    requires run.plateau == SinceImprovement(setup, run.trials, generation + 1)
    requires if stop.UniverseExhausted? then |run.visited| == |setup.universe|
             else run.plateau == setup.patience && |run.visited| < |setup.universe|
    ensures Sound(setup, ResultOf(run, generation + 1, Some(stop), None))
  {
    hide Placed, AllDescend, FallbacksEarned, PoolsFrozen, Recorded, BestIs, TerminalLineageValid, SinceImprovement, Start, Stopped, Ledger;
    LineageValid(setup, run, run.trials, generation + 1, Some(stop), None) by { NoEngineFailure(run); }
    TrialsFit(setup, run);
    LedgerNotExhausted(setup, run);
    StoppedIs(setup, run, generation, stop);
  }

  lemma {:induction false} NoEngineFailure(run: Run)
    requires Healthy(run)
    ensures !(exists t :: t in run.trials && TerminalOf(t).EngineFailed?)
  {
    forall t | t in run.trials ensures !TerminalOf(t).EngineFailed? { assert !Bad(t); }
  }

  lemma {:induction false} LedgerNotExhausted(setup: Setup, run: Run)
    requires Ledger(setup, run)
    ensures forall e :: e in run.events ==> !Exhausted(e)
  {
  }

  lemma {:induction false} StoppedIs(setup: Setup, run: Run, generation: nat, stop: Stop)
    requires setup.Valid() && Healthy(run) && |run.trials| == |run.visited|
    requires |run.visited| == |setup.universe| ==> Members(run.visitedOrder) == Members(HashesOf(setup.universe))
    requires BestIs(setup, run.bestScores, run.bestHash, run.trials)
    requires run.plateau == SinceImprovement(setup, run.trials, generation + 1)
    requires if stop.UniverseExhausted? then |run.visited| == |setup.universe|
             else run.plateau == setup.patience && |run.visited| < |setup.universe|
    ensures Stopped(setup, ResultOf(run, generation + 1, Some(stop), None))
  {
    hide BestIs, SinceImprovement, HashesOf;
    var r := ResultOf(run, generation + 1, Some(stop), None);
    assert BestIs(setup, run.bestScores, r.bestHash, r.trials);
  }

  /** Freezing the next pool keeps everything known about the earlier ones. */
  lemma {:induction false} FreezingKeeps(setup: Setup, run: Run, generation: nat)
    requires setup.Valid() && Between(setup, run, generation)
    ensures Within(setup, run.(pools := run.pools + [Pool(generation, PoolOf(setup, run.trials))]), generation, 0)
  {
    hide BestIs, Start, SinceImprovement, PoolOf, Placed, Ledger, AllDescend, FallbacksEarned, Recorded;
    var pool := Pool(generation, PoolOf(setup, run.trials));
    var pools := run.pools + [pool];
    assert run.trials[..Start(setup, generation)] == run.trials;
    assert PoolsFrozen(setup, pools, run.trials) by {
      forall k | 0 <= k < |pools| ensures FrozenAt(setup, pools[k], run.trials, k + 1) {
        if k < |run.pools| { assert FrozenAt(setup, run.pools[k], run.trials, k + 1); }
      }
    }
    DescentStays(setup, run, pool);
    TrialsFit(setup, run);
    LedgerIgnoresPools(setup, run, pools);
  }

  lemma {:induction false} LedgerIgnoresPools(setup: Setup, run: Run, pools: seq<Pool>)
    requires Ledger(setup, run)
    ensures Ledger(setup, run.(pools := pools))
  {
    hide TrialLog, ExpectedLog, Exhausted, Contains;
  }

  lemma {:induction false} DescentStays(setup: Setup, run: Run, pool: Pool)
    requires setup.Valid() && AllDescend(setup, run.pools, run.trials) && FallbacksEarned(setup, run.events, run.pools)
    ensures AllDescend(setup, run.pools + [pool], run.trials) && FallbacksEarned(setup, run.events, run.pools + [pool])
  {
    hide Alternatives, ChosenAs, Tried;
    var pools := run.pools + [pool];
    forall t | t in run.trials ensures Descends(setup, pools, t) {
      assert Descends(setup, run.pools, t);
      if t.operatorId.Some? {
        assert SlotAlternatives(setup, pools, t.generation, t.slot) == SlotAlternatives(setup, run.pools, t.generation, t.slot);
      }
    }
    forall i | 0 <= i < |run.events| && run.events[i].ProposalEvent? && run.events[i].kind.DirectFallback?
      ensures EarnedAt(setup, run.events, pools, i)
    {
      assert EarnedAt(setup, run.events, run.pools, i);
      var e := run.events[i];
      assert SlotAlternatives(setup, pools, e.generation, e.slot) == SlotAlternatives(setup, run.pools, e.generation, e.slot);
    }
  }

  // ---------------------------------------------------------------- consequences

  function CeilingOf(a: int, b: nat): int
    requires b > 0
  {
    (a + b - 1) / b
  }

  lemma {:induction false} BelowCeiling(k: nat, a: int, b: nat)
    requires b > 0 && k * b < a
    ensures k < CeilingOf(a, b)
  {
    var q := CeilingOf(a, b);
    var x := a + b - 1;
    assert x == q * b + x % b;
    assert x < q * b + b;
    if k >= q { ProductOrder(q, k, b); }
  }

  lemma {:induction false} ProductOrder(a: int, b: int, c: nat)
    requires a <= b
    ensures a * c <= b * c
  {
  }

  /** At most ceil((|U| - initial) / offspring) generations follow the initial one. */
  lemma {:induction false} GenerationBound(setup: Setup, r: SearchResult)
    requires setup.Valid() && Sound(setup, r) && r.generationCount >= 2
    ensures r.generationCount - 1 <= CeilingOf(|setup.universe| - setup.initial, setup.plan.offspring)
  {
    hide TerminalLineageValid, Placed, PoolsFrozen, AllDescend, FallbacksEarned, Stopped, Failed, CeilingOf;
    BelowCeiling(r.generationCount - 2, |setup.universe| - setup.initial, setup.plan.offspring);
  }

  /** A ledger position belongs to one generation and slot. */
  lemma {:induction false} PlaceDecides(setup: Setup, r: SearchResult, i: nat, j: nat)
    requires setup.Valid() && Sound(setup, r) && i < |r.trials| && j < |r.trials|
    requires r.trials[i].generation == r.trials[j].generation && r.trials[i].slot == r.trials[j].slot
    ensures i == j
  {
    hide TerminalLineageValid, PoolsFrozen, AllDescend, FallbacksEarned, Stopped, Failed;
    assert PlacedAt(setup, r.trials[i], i) && PlacedAt(setup, r.trials[j], j);
  }

  lemma {:induction false} ResultPoolDistinct(setup: Setup, r: SearchResult, generation: nat)
    requires setup.Valid() && Sound(setup, r) && 1 <= generation <= |r.pools|
    ensures NoDuplicates(r.pools[generation - 1].parents)
  {
    hide PoolOf, Placed, AllDescend, FallbacksEarned, Stopped, Failed, TrialLog, KindsFor;
    assert FrozenAt(setup, r.pools[generation - 1], r.trials, generation);
    var before := r.trials[..Start(setup, generation)];
    forall i, j | 0 <= i < j < |before| ensures before[i].candidateHash != before[j].candidateHash {
      assert r.proposedOrder[i] != r.proposedOrder[j];
    }
    PoolDistinct(setup, before);
  }

  /** A fallback was earned alternative by alternative: each legal choice of its
      slot has exactly one place in the run of rejections before it. */
  lemma {:induction false} FallbackTriedEverything(setup: Setup, r: SearchResult, i: nat, a: Alternative) returns (k: nat)
    requires setup.Valid() && Sound(setup, r) && i < |r.events| && r.events[i].ProposalEvent? && r.events[i].kind.DirectFallback?
    requires var e := r.events[i];
      a.parent.offset < |setup.plan.schedule| && 1 <= e.generation <= |r.pools|
      && Legal(setup.plan, e.generation, e.slot, r.pools[e.generation - 1].parents, a, a.parent.offset)
    ensures var e := r.events[i];
      1 <= e.generation <= |r.pools| &&
      var alternatives := SlotAlternatives(setup, r.pools, e.generation, e.slot);
      && k < |alternatives| <= i && alternatives[k] == a
      && RejectionFor(setup, r.events[i - |alternatives| + k], e.generation, e.slot, a)
      && forall other :: 0 <= other < |alternatives| && alternatives[other] == a ==> other == k
  {
    hide TerminalLineageValid, Placed, PoolsFrozen, AllDescend, Stopped, Failed, Legal, Alternatives, RejectionFor;
    var e := r.events[i];
    assert EarnedAt(setup, r.events, r.pools, i);
    var pool := r.pools[e.generation - 1].parents;
    var alternatives := SlotAlternatives(setup, r.pools, e.generation, e.slot);
    ResultPoolDistinct(setup, r, e.generation);
    AlternativesAre(setup.plan, e.generation, e.slot, pool, |setup.plan.schedule|, a);
    AlternativesDistinct(setup.plan, e.generation, e.slot, pool, |setup.plan.schedule|);
    k :| 0 <= k < |alternatives| && alternatives[k] == a;
    assert RejectionFor(setup, r.events[i - |alternatives| + k], e.generation, e.slot, alternatives[k]);
  }
}
