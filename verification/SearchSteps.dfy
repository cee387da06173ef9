/** The state of one search run and what each step of the runner does to it. */
module SearchSteps {
  import opened Cscv
  import opened Octets
  import opened Ordering
  import opened Outcomes
  import opened PboMatrix
  import opened SearchAlternatives
  import opened SearchRanking
  import opened TrialEvidence

  /** A candidate; its hash stands for the typed strategy it digests. */
  datatype Candidate = Candidate(domain: nat, operatorSet: Digest, hash: Digest)

  /** What an operator callback does: anything at all. */
  datatype Answer = Raised | NotAProposal | Declines(reason: Id) | Proposes(candidate: Candidate)

  datatype Response = Broken | Returned(evaluation: TrialEvaluation)

  /** All a run is given. The callbacks also see how far the run has come, so they
      may answer the same question differently at different times. */
  datatype Setup = Setup(
    universe: seq<Candidate>, domain: nat, operatorSet: Digest, plan: Plan, initial: nat, poolSize: nat, patience: nat,
    profile: RankingProfile, traversalHash: (Digest, int) -> Digest,
    propose: (nat, Alternative, seq<Candidate>) -> Answer, evaluate: (nat, Candidate) -> Response)
  {
    ghost predicate Valid() {
      && plan.Valid() && profile.Valid() && initial >= 1 && patience >= 1
      && (forall i, j :: 0 <= i < j < |universe| ==> universe[i].hash < universe[j].hash)
      && (forall c :: c in universe ==> c.domain == domain && c.operatorSet == operatorSet)
    }
  }

  datatype Reason = CallbackFailed | ResultMalformed | WrongIdentity | Stated(reason: Id)

  datatype ProposalKind = Invalid | OutsideUniverse | Duplicate | DirectFallback | SlotExhausted

  datatype TrialKind = Started | Ended(terminal: Terminal)

  datatype Event =
    | ProposalEvent(sequence: nat, generation: nat, slot: nat, kind: ProposalKind, candidateHash: Option<Digest>,
                    operatorId: Option<Id>, parentHash: Option<Digest>, parameterHash: Option<Digest>, reason: Option<Reason>)
    | TrialEvent(sequence: nat, position: nat, trialKind: TrialKind, error: Option<Id>)

  datatype Source = Initial | FromOperator | Fallback

  datatype Proposal = Proposal(
    candidateHash: Digest, generation: nat, slot: nat, source: Source,
    operatorId: Option<Id>, parentHash: Option<Digest>, parameterHash: Option<Digest>)

  datatype Pool = Pool(generation: nat, parents: seq<Digest>)

  datatype Stop = Plateau | UniverseExhausted

  datatype Failure = FailedInvariant | OperatorFailed | EvaluatorFailed | RunInterrupted

  /** The runner's fields. */
  datatype Run = Run(
    events: seq<Event>, trials: seq<CandidateTrial>, proposals: seq<Proposal>, proposed: set<Digest>, visited: set<Digest>,
    proposedOrder: seq<Digest>, visitedOrder: seq<Digest>, pools: seq<Pool>, sequence: nat,
    bestScores: Option<seq<real>>, bestHash: Option<Digest>, interrupted: bool, plateau: nat, failure: Option<Failure>)

  const FRESH: Run := Run([], [], [], {}, {}, [], [], [], 0, None, None, false, 0, None)

  // ---------------------------------------------------------------- the universe

  function HashesOf(candidates: seq<Candidate>): (r: seq<Digest>)
    ensures |r| == |candidates|
    ensures forall i :: 0 <= i < |r| ==> r[i] == candidates[i].hash
  {
    if candidates == [] then [] else [candidates[0].hash] + HashesOf(candidates[1..])
  }

  predicate Contains(universe: seq<Candidate>, hash: Digest) { hash in HashesOf(universe) }

  function CandidateFor(universe: seq<Candidate>, hash: Digest): (c: Candidate)
    requires Contains(universe, hash)
    ensures c in universe && c.hash == hash
  {
    if universe[0].hash == hash then universe[0]
    else
      assert HashesOf(universe)[1..] == HashesOf(universe[1..]);
      CandidateFor(universe[1..], hash)
  }

  function CandidatesFor(universe: seq<Candidate>, hashes: seq<Digest>): (r: seq<Candidate>)
    requires forall h :: h in hashes ==> Contains(universe, h)
    ensures |r| == |hashes| && forall i :: 0 <= i < |r| ==> r[i] in universe && r[i].hash == hashes[i]
  {
    if hashes == [] then [] else [CandidateFor(universe, hashes[0])] + CandidatesFor(universe, hashes[1..])
  }

  function TraversalOrder(setup: Setup): seq<Candidate> {
    Sort(setup.universe,
         (a: Candidate, b: Candidate) =>
           var x, y := setup.traversalHash(a.hash, setup.plan.seed), setup.traversalHash(b.hash, setup.plan.seed);
           x < y || (x == y && a.hash <= b.hash))
  }

  function FirstUnseen(order: seq<Candidate>, proposed: set<Digest>, visited: set<Digest>): (r: Option<Candidate>)
    ensures r.Some? ==> r.value in order && r.value.hash !in proposed && r.value.hash !in visited
    ensures r.None? ==> forall c :: c in order ==> c.hash in proposed || c.hash in visited
  {
    if order == [] then None
    else if order[0].hash !in proposed && order[0].hash !in visited then Some(order[0])
    else FirstUnseen(order[1..], proposed, visited)
  }

  // ---------------------------------------------------------------- evaluation

  predicate RepeatsGate(results: seq<GateResult>) {
    exists i, j :: 0 <= i < j < |results| && results[i].gateId == results[j].gateId
  }

  /** The evaluation model's own validation. */
  predicate WellFormedEvaluation(e: TrialEvaluation) {
    var v := e.evidence;
    && !RepeatsMetric(v.metrics) && !RepeatsGate(v.gateResults)
    && match v.terminal
       case Evaluated =>
         e.errorCode.None? && v.gateResults != [] && forall k :: 0 <= k < |v.gateResults| ==> v.gateResults[k].decision.Pass?
       case RejectedHardGate =>
         v.metrics == [] && e.errorCode.Some? && exists k :: 0 <= k < |v.gateResults| && v.gateResults[k].decision.Fail?
       case _ => v.metrics == [] && e.errorCode.Some? && !v.complete && v.gateResults == []
  }

  /** What the ledger records for a candidate: the evaluator's well-formed answer, or an engine failure. */
  function EvaluationOf(setup: Setup, position: nat, candidate: Candidate): TrialEvaluation {
    match setup.evaluate(position, candidate)
    case Returned(e) => if WellFormedEvaluation(e) then e else BrokenEvaluation()
    case Broken => BrokenEvaluation()
  }

  function BrokenEvaluation(): TrialEvaluation {
    TrialEvaluation(Evaluation(EngineFailed, [], [], false), Some(Points("AF-ENGINE-CALLBACK")))
  }

  // ---------------------------------------------------------------- accepting a candidate

  function NewTrial(setup: Setup, position: nat, candidate: Candidate, generation: nat, slot: nat, choice: Option<Alternative>): CandidateTrial {
    CandidateTrial(position, candidate.hash, generation, slot,
                   if choice.Some? then Some(choice.value.operator.operatorId) else None,
                   if choice.Some? then choice.value.parent.parents else [],
                   if choice.Some? then choice.value.parameter.indices else [],
                   EvaluationOf(setup, position, candidate))
  }

  function NewProposal(setup: Setup, candidate: Candidate, generation: nat, slot: nat, source: Source, choice: Option<Alternative>): Proposal {
    Proposal(candidate.hash, generation, slot, source,
             if choice.Some? then Some(choice.value.operator.operatorId) else None,
             if choice.Some? then Some(setup.plan.parentHash(choice.value.parent)) else None,
             if choice.Some? then Some(setup.plan.parameterHash(choice.value.parameter)) else None)
  }

  /** The ledger after a candidate is accepted, started and evaluated. */
  function Accept(setup: Setup, run: Run, candidate: Candidate, generation: nat, slot: nat, source: Source, choice: Option<Alternative>): Run {
    var position := |run.trials|;
    var trial := NewTrial(setup, position, candidate, generation, slot, choice);
    var terminal := trial.evaluation.evidence.terminal;
    run.(events := run.events + [TrialEvent(run.sequence, position, Started, None),
                                 TrialEvent(run.sequence + 1, position, Ended(terminal), trial.evaluation.errorCode)],
         sequence := run.sequence + 2,
         trials := run.trials + [trial],
         proposals := run.proposals + [NewProposal(setup, candidate, generation, slot, source, choice)],
         proposed := run.proposed + {candidate.hash}, visited := run.visited + {candidate.hash},
         proposedOrder := run.proposedOrder + [candidate.hash], visitedOrder := run.visitedOrder + [candidate.hash],
         interrupted := run.interrupted || terminal.Interrupted?,
         failure := if terminal.EngineFailed? then Some(EvaluatorFailed) else run.failure)
  }

  // ---------------------------------------------------------------- one slot

  datatype Verdict =
    | Rejects(kind: ProposalKind, candidateHash: Option<Digest>, reason: Option<Reason>)
    | Fails(candidateHash: Option<Digest>, reason: Option<Reason>)
    | Takes(candidate: Candidate)

  ghost predicate ParentsKnown(setup: Setup, alternatives: seq<Alternative>) {
    forall a :: a in alternatives ==> forall h :: h in a.parent.parents ==> Contains(setup.universe, h)
  }

  /** How the runner takes the answer to one alternative, asked at one point of the event log. */
  function Judge(setup: Setup, sequence: nat, a: Alternative, proposed: set<Digest>, visited: set<Digest>): Verdict
    requires forall h :: h in a.parent.parents ==> Contains(setup.universe, h)
  {
    match setup.propose(sequence, a, CandidatesFor(setup.universe, a.parent.parents))
    case Raised => Fails(None, Some(CallbackFailed))
    case NotAProposal => Fails(None, Some(ResultMalformed))
    case Declines(reason) => Rejects(Invalid, None, Some(Stated(reason)))
    case Proposes(c) =>
      if c.domain != setup.domain || c.operatorSet != setup.operatorSet then Fails(Some(c.hash), Some(WrongIdentity))
      else if !Contains(setup.universe, c.hash) then Rejects(OutsideUniverse, Some(c.hash), None)
      else if c.hash in proposed || c.hash in visited then Rejects(Duplicate, Some(c.hash), None)
      else Takes(c)
  }

  function AlternativeEvent(setup: Setup, sequence: nat, generation: nat, slot: nat, a: Alternative, kind: ProposalKind,
                            candidateHash: Option<Digest>, reason: Option<Reason>): Event
  {
    ProposalEvent(sequence, generation, slot, kind, candidateHash, Some(a.operator.operatorId),
                  Some(setup.plan.parentHash(a.parent)), Some(setup.plan.parameterHash(a.parameter)), reason)
  }

  /** The verdict on the i-th alternative of a slot that began in this state. */
  function VerdictAt(setup: Setup, run: Run, alternatives: seq<Alternative>, i: nat): Verdict
    requires i < |alternatives| && ParentsKnown(setup, alternatives)
  {
    Judge(setup, run.sequence + i, alternatives[i], run.proposed, run.visited)
  }

  /** How many of the alternatives, counting from one of them, precede the first that decides. */
  function Undecided(setup: Setup, run: Run, alternatives: seq<Alternative>, i: nat): (n: nat)
    requires i <= |alternatives| && ParentsKnown(setup, alternatives)
    ensures i <= n <= |alternatives|
    ensures forall k :: i <= k < n ==> VerdictAt(setup, run, alternatives, k).Rejects?
    ensures n < |alternatives| ==> !VerdictAt(setup, run, alternatives, n).Rejects?
    decreases |alternatives| - i
  {
    if i == |alternatives| || !VerdictAt(setup, run, alternatives, i).Rejects? then i
    else Undecided(setup, run, alternatives, i + 1)
  }

  /** One event for each of the first n alternatives, all of them rejected. */
  function Rejections(setup: Setup, run: Run, generation: nat, slot: nat, alternatives: seq<Alternative>, n: nat): (r: seq<Event>)
    requires n <= |alternatives| && ParentsKnown(setup, alternatives)
    requires forall k :: 0 <= k < n ==> VerdictAt(setup, run, alternatives, k).Rejects?
    ensures |r| == n
  {
    if n == 0 then []
    else
      var v := VerdictAt(setup, run, alternatives, n - 1);
      Rejections(setup, run, generation, slot, alternatives, n - 1)
      + [AlternativeEvent(setup, run.sequence + n - 1, generation, slot, alternatives[n - 1], v.kind, v.candidateHash, v.reason)]
  }

  function Logged(run: Run, events: seq<Event>): Run {
    run.(events := run.events + events, sequence := run.sequence + |events|)
  }

  function SlotEvent(run: Run, generation: nat, slot: nat, kind: ProposalKind, candidateHash: Option<Digest>): Event {
    ProposalEvent(run.sequence, generation, slot, kind, candidateHash, None, None, None, None)
  }

  /** The slot once every alternative has been rejected. */
  function FallBack(setup: Setup, run: Run, generation: nat, slot: nat): Run {
    match FirstUnseen(TraversalOrder(setup), run.proposed, run.visited)
    case None => Logged(run, [SlotEvent(run, generation, slot, SlotExhausted, None)])
    case Some(c) =>
      Accept(setup, Logged(run, [SlotEvent(run, generation, slot, DirectFallback, Some(c.hash))]), c, generation, slot, Fallback, None)
  }

  /** One slot: rejections up to the first alternative that decides, and what it decides. */
  function SlotOf(setup: Setup, run: Run, generation: nat, slot: nat, alternatives: seq<Alternative>): Run
    requires ParentsKnown(setup, alternatives)
  {
    var n := Undecided(setup, run, alternatives, 0);
    var rejected := Logged(run, Rejections(setup, run, generation, slot, alternatives, n));
    if n == |alternatives| then FallBack(setup, rejected, generation, slot)
    else
      var a, verdict := alternatives[n], VerdictAt(setup, run, alternatives, n);
      if verdict.Takes? then Accept(setup, rejected, verdict.candidate, generation, slot, FromOperator, Some(a))
      else
        Logged(rejected, [AlternativeEvent(setup, rejected.sequence, generation, slot, a, Invalid, verdict.candidateHash, verdict.reason)])
          .(failure := Some(OperatorFailed))
  }

  // ---------------------------------------------------------------- generations

  function RankedHashes(ranked: seq<Ranked>): (r: seq<Digest>)
    ensures |r| == |ranked|
    ensures forall i :: 0 <= i < |r| ==> r[i] == ranked[i].trial.candidateHash
  {
    if ranked == [] then [] else [ranked[0].trial.candidateHash] + RankedHashes(ranked[1..])
  }

  /** The parents a generation may use: the best-ranked trials so far. */
  function PoolOf(setup: Setup, trials: seq<CandidateTrial>): (r: seq<Digest>)
    requires setup.profile.Valid()
    ensures |r| <= setup.poolSize
  {
    var hashes := RankedHashes(Ranking(setup.profile, trials));
    if |hashes| <= setup.poolSize then hashes else hashes[..setup.poolSize]
  }

  /** The incremental best and the plateau counter after one more generation's ranking. */
  function Updated(setup: Setup, run: Run, ranked: seq<Ranked>): Run {
    if ranked == [] then run.(plateau := run.plateau + 1)
    else
      var best := ranked[0];
      if run.bestScores.None? then
        run.(bestScores := Some(best.scores), bestHash := Some(best.trial.candidateHash), plateau := 0)
      else
        var lead := Lead(setup.profile.rules, best.scores, run.bestScores.value);
        if lead > 0 then run.(bestScores := Some(best.scores), bestHash := Some(best.trial.candidateHash), plateau := 0)
        else
          run.(bestHash := if lead == 0 && run.bestHash.Some? && best.trial.candidateHash < run.bestHash.value
                           then Some(best.trial.candidateHash) else run.bestHash,
               plateau := run.plateau + 1)
  }

  /** Whether the run ends here, once a generation is over. */
  function Ending(setup: Setup, run: Run, generation: seq<CandidateTrial>): (Option<Stop>, Option<Failure>) {
    if run.interrupted then (None, Some(RunInterrupted))
    else if |run.visited| == |setup.universe| then (Some(UniverseExhausted), None)
    else if generation == [] then (None, Some(FailedInvariant))
    else if run.plateau >= setup.patience then (Some(Plateau), None)
    else (None, None)
  }

  datatype SearchResult = SearchResult(
    stop: Option<Stop>, failure: Option<Failure>, bestHash: Option<Digest>, plateau: nat, generationCount: nat,
    pools: seq<Pool>, proposals: seq<Proposal>, proposedOrder: seq<Digest>, visitedOrder: seq<Digest>,
    events: seq<Event>, trials: seq<CandidateTrial>)

  function ResultOf(run: Run, generationCount: nat, stop: Option<Stop>, failure: Option<Failure>): SearchResult {
    SearchResult(stop, failure, run.bestHash, run.plateau, generationCount, run.pools, run.proposals,
                 run.proposedOrder, run.visitedOrder, run.events, run.trials)
  }
}
