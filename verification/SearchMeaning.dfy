/** What the search schedules, orders, judges, ranks and pools, in terms of the plan, the
    callbacks' answers and the metrics. */
module SearchMeaning {
  import opened Octets
  import opened Ordering
  import opened Outcomes
  import opened SearchAlternatives
  import opened SearchLineage
  import opened SearchOutcome
  import opened SearchRanking
  import opened SearchSteps
  import opened TrialEvidence

  // ---------------------------------------------------------------- the operator schedule

  /** The alternatives a slot tries at an offset use the operator the schedule names there: one
      position further for each slot since generation zero and for each offset. */
  lemma {:induction false} ScheduledOperator(plan: Plan, generation: nat, slot: nat, pool: seq<Digest>, offsets: nat, a: Alternative)
    requires plan.Valid() && NoDuplicates(pool) && a in Alternatives(plan, generation, slot, pool, offsets)
    ensures var length, k := |plan.schedule|, a.parent.offset;
      && k < offsets && a.parameter.offset == k
      && a.operator.operatorId == plan.schedule[(generation * plan.offspring + slot + k) % length]
      && a.operator == plan.operators[a.operator.operatorId]
      && a.parent.operatorId == a.parameter.operatorId == a.operator.operatorId
  {
    hide LegalParents, LegalIndices, Alternatives, NoDuplicates;
    AlternativesAre(plan, generation, slot, pool, offsets, a);
  }

  /** From each slot to the next, across the end of a generation too, the operator tried at one
      offset moves on by one position of the schedule. */
  lemma {:induction false} ScheduleMovesOn(plan: Plan, generation: nat, slot: nat, pool: seq<Digest>, a: Alternative,
                                           nextPool: seq<Digest>, b: Alternative, offsets: nat) returns (position: nat)
    requires plan.Valid() && NoDuplicates(pool) && NoDuplicates(nextPool) && slot < plan.offspring
    requires a in Alternatives(plan, generation, slot, pool, offsets)
    requires b in (if slot + 1 < plan.offspring then Alternatives(plan, generation, slot + 1, nextPool, offsets)
                   else Alternatives(plan, generation + 1, 0, nextPool, offsets))
    requires b.parent.offset == a.parent.offset
    ensures position < |plan.schedule| && a.operator.operatorId == plan.schedule[position]
    ensures b.operator.operatorId == plan.schedule[if position + 1 == |plan.schedule| then 0 else position + 1]
  {
    hide Alternatives, NoDuplicates;
    var base := generation * plan.offspring + slot + a.parent.offset;
    position := base % |plan.schedule|;
    ScheduledOperator(plan, generation, slot, pool, offsets, a);
    if slot + 1 < plan.offspring {
      ScheduledOperator(plan, generation, slot + 1, nextPool, offsets, b);
    } else {
      OneFactorMore(generation, plan.offspring);
      ScheduledOperator(plan, generation + 1, 0, nextPool, offsets, b);
    }
    NextRemainder(base, |plan.schedule|);
  }

  lemma {:induction false} NextRemainder(x: nat, n: nat)
    requires n > 0
    ensures (x + 1) % n == if x % n + 1 == n then 0 else x % n + 1
  {
    var q, r := x / n, x % n;
    assert x == q * n + r;
    if r + 1 == n {
      OneFactorMore(q, n);
      RemainderOf(x + 1, n, 0, q + 1);
    } else {
      RemainderOf(x + 1, n, r + 1, q);
    }
  }

  /** In a whole run the operator behind the trial at a ledger position is the schedule's for that
      position, counted from the first generation's, moved on by the offset it was found at. */
  lemma {:induction false} LedgerFollowsSchedule(setup: Setup, r: SearchResult, i: nat) returns (offset: nat)
    requires setup.Valid() && Sound(setup, r) && i < |r.trials| && r.trials[i].operatorId.Some?
    ensures setup.initial <= i && offset < |setup.plan.schedule|
    ensures r.trials[i].operatorId == Some(setup.plan.schedule[(i - setup.initial + setup.plan.offspring + offset) % |setup.plan.schedule|])
  {
    hide TerminalLineageValid, PoolsFrozen, FallbacksEarned, Recorded, Stopped, Failed, Alternatives, Start, Exhausted;
    var t, plan := r.trials[i], setup.plan;
    assert PlacedAt(setup, t, i) && Descends(setup, r.pools, t);
    var a :| a in SlotAlternatives(setup, r.pools, t.generation, t.slot) && ChosenAs(setup, t, a);
    ResultPoolDistinct(setup, r, t.generation);
    ScheduledOperator(plan, t.generation, t.slot, r.pools[t.generation - 1].parents, |plan.schedule|, a);
    offset := a.parent.offset;
    OneFactorMore(t.generation - 1, plan.offspring);
  }

  /** The evaluations a ledger takes as they are: no metric or gate reported twice, an error code exactly where the
      trial was not evaluated, metrics only where it was, then with at least one gate result and all of them passed;
      a rejection shows a failed gate, and anything else shows none and is incomplete. */
  lemma {:induction false} WellFormedExactly(e: TrialEvaluation)
    ensures var v := e.evidence;
      WellFormedEvaluation(e) <==>
        && (forall i, j :: 0 <= i < j < |v.metrics| ==> v.metrics[i].name != v.metrics[j].name)
        && (forall i, j :: 0 <= i < j < |v.gateResults| ==> v.gateResults[i].gateId != v.gateResults[j].gateId)
        && (e.errorCode == None <==> v.terminal == Evaluated)
        && (v.terminal == Evaluated ==> v.gateResults != [] && forall r :: r in v.gateResults ==> r.decision == Pass)
        && (v.terminal != Evaluated ==> v.metrics == [])
        && (v.terminal == RejectedHardGate ==> exists r :: r in v.gateResults && r.decision == Fail)
        && (v.terminal in {RejectedPreflight, EngineFailed, Interrupted} ==> v.gateResults == [] && !v.complete)
  {
    DecisionsAmong(e.evidence.gateResults);
  }

  lemma {:induction false} DecisionsAmong(results: seq<GateResult>)
    ensures (exists k :: 0 <= k < |results| && results[k].decision.Fail?) <==> exists r :: r in results && r.decision == Fail
    ensures (forall k :: 0 <= k < |results| ==> results[k].decision.Pass?) <==> forall r :: r in results ==> r.decision == Pass
  {
    forall k | 0 <= k < |results| ensures results[k] in results { }
  }

  /** A run ends with its first failure: it stops normally exactly when it names no failure, and then no evaluation failed or
      was interrupted; otherwise at most the last one did, which the failure it names says. */
  lemma {:induction false} EndsWithFirstFailure(setup: Setup, r: SearchResult, i: nat)
    requires setup.Valid() && Sound(setup, r) && i < |r.trials|
    ensures var terminal := r.trials[i].evaluation.evidence.terminal;
      && (r.stop == None <==> r.failure != None)
      && (terminal == EngineFailed ==> i == |r.trials| - 1 && r.failure == Some(EvaluatorFailed))
      && (terminal == Interrupted ==> i == |r.trials| - 1 && r.failure == Some(RunInterrupted))
      && (r.failure == Some(EvaluatorFailed) && i == |r.trials| - 1 ==> terminal == EngineFailed)
      && (r.failure == Some(RunInterrupted) && i == |r.trials| - 1 ==> terminal == Interrupted)
  {
    hide PoolsFrozen, FallbacksEarned, AllDescend, Recorded, Placed, Start;
    var t, front := r.trials[i], r.trials[..|r.trials| - 1];
    assert t in r.trials;
    assert Bad(t) <==> t.evaluation.evidence.terminal == EngineFailed || t.evaluation.evidence.terminal == Interrupted;
    if i < |r.trials| - 1 { assert front[i] == t && t in front; }
  }

  /** Behind each trial of an operator stands an answer: it is an alternative of its slot over the pool frozen for its
      generation, and that alternative's operator, shown the trial's parents, proposed the trial's candidate. */
  lemma {:induction false} OperatorProposedIt(setup: Setup, r: SearchResult, i: nat)
    returns (a: Alternative, sequence: nat, parents: seq<Candidate>)
    requires setup.Valid() && Sound(setup, r) && i < |r.trials| && r.trials[i].operatorId.Some?
    ensures var t := r.trials[i];
      && 1 <= t.generation <= |r.pools|
      && a in Alternatives(setup.plan, t.generation, t.slot, r.pools[t.generation - 1].parents, |setup.plan.schedule|)
      && t.operatorId == Some(a.operator.operatorId) && t.parents == a.parent.parents && t.parameters == a.parameter.indices
      && |parents| == |t.parents| && (forall k :: 0 <= k < |parents| ==> parents[k] in setup.universe && parents[k].hash == t.parents[k])
      && setup.propose(sequence, a, parents).Proposes? && setup.propose(sequence, a, parents).candidate.hash == t.candidateHash
  {
    hide TerminalLineageValid, PoolsFrozen, FallbacksEarned, Recorded, Placed, Stopped, Failed, Alternatives, Contains;
    var t := r.trials[i];
    assert Descends(setup, r.pools, t);
    a :| a in SlotAlternatives(setup, r.pools, t.generation, t.slot) && ChosenAs(setup, t, a);
    sequence :| Proposed(setup, sequence, a, t.candidateHash);
    parents := CandidatesFor(setup.universe, a.parent.parents);
  }

  // ---------------------------------------------------------------- the order of alternatives

  predicate ParentLe(plan: Plan, a: ParentAlternative, b: ParentAlternative) {
    plan.parentHash(a) < plan.parentHash(b) || (plan.parentHash(a) == plan.parentHash(b) && LexLe(a.parents, b.parents))
  }

  predicate ParameterLe(plan: Plan, a: ParameterAlternative, b: ParameterAlternative) {
    plan.parameterHash(a) < plan.parameterHash(b) || (plan.parameterHash(a) == plan.parameterHash(b) && LexLe(a.indices, b.indices))
  }

  lemma {:induction false} ParentsInOrder(plan: Plan, generation: nat, slot: nat, offset: nat, op: Operator, pool: seq<Digest>, i: nat, j: nat)
    requires i < j < |ParentAlternatives(plan, generation, slot, offset, op, pool)|
    ensures var s := ParentAlternatives(plan, generation, slot, offset, op, pool); ParentLe(plan, s[i], s[j])
  {
    hide AsParents, LexLe;
    var le := (a: ParentAlternative, b: ParentAlternative) =>
      plan.parentHash(a) < plan.parentHash(b) || (plan.parentHash(a) == plan.parentHash(b) && LexLe(a.parents, b.parents));
    assert Preorder(le) by { PreorderOfParents(plan, le); }
    SortSorts(AsParents(plan, generation, slot, offset, op.operatorId, ParentTuples(op, pool)), le);
  }

  lemma {:induction false} PreorderOfParents(plan: Plan, le: (ParentAlternative, ParentAlternative) -> bool)
    requires forall a, b :: le(a, b) <==> ParentLe(plan, a, b)
    ensures Preorder(le)
  {
    forall a, b ensures le(a, b) || le(b, a) { LexConnected(a.parents, b.parents); }
    forall a, b, c | le(a, b) && le(b, c) ensures le(a, c) {
      if plan.parentHash(a) == plan.parentHash(b) == plan.parentHash(c) { LexTransitive(a.parents, b.parents, c.parents); }
    }
  }

  lemma {:induction false} ParametersInOrder(plan: Plan, generation: nat, slot: nat, offset: nat, op: Operator, i: nat, j: nat)
    requires i < j < |ParameterAlternatives(plan, generation, slot, offset, op)|
    ensures var s := ParameterAlternatives(plan, generation, slot, offset, op); ParameterLe(plan, s[i], s[j])
  {
    hide AsParameters, LexLe;
    var le := (a: ParameterAlternative, b: ParameterAlternative) =>
      plan.parameterHash(a) < plan.parameterHash(b) || (plan.parameterHash(a) == plan.parameterHash(b) && LexLe(a.indices, b.indices));
    assert Preorder(le) by { PreorderOfParameters(plan, le); }
    SortSorts(AsParameters(plan, generation, slot, offset, op.operatorId, Vectors(op.gridSizes)), le);
  }

  lemma {:induction false} PreorderOfParameters(plan: Plan, le: (ParameterAlternative, ParameterAlternative) -> bool)
    requires forall a, b :: le(a, b) <==> ParameterLe(plan, a, b)
    ensures Preorder(le)
  {
    forall a, b ensures le(a, b) || le(b, a) { LexConnected(a.indices, b.indices); }
    forall a, b, c | le(a, b) && le(b, c) ensures le(a, c) {
      if plan.parameterHash(a) == plan.parameterHash(b) == plan.parameterHash(c) { LexTransitive(a.indices, b.indices, c.indices); }
    }
  }

  /** Where an alternative of a block comes from: parents slowest, parameters fastest. */
  lemma {:induction false} BlockPlaces(op: Operator, parents: seq<ParentAlternative>, parameters: seq<ParameterAlternative>, i: nat)
    returns (row: nat, column: nat)
    requires i < |Block(op, parents, parameters)|
    ensures row < |parents| && column < |parameters| && i == row * |parameters| + column
    ensures var b := Block(op, parents, parameters)[i]; b.parent == parents[row] && b.parameter == parameters[column]
  {
    var n := |parents| - 1;
    var front := Block(op, parents[..n], parameters);
    BlockSize(op, parents[..n], parameters);
    if i < |front| {
      row, column := BlockPlaces(op, parents[..n], parameters, i);
    } else {
      row, column := n, i - |front|;
      assert Block(op, parents, parameters)[i] == Row(op, parents[n], parameters)[column];
    }
  }

  lemma {:induction false} BlockSize(op: Operator, parents: seq<ParentAlternative>, parameters: seq<ParameterAlternative>)
    ensures |Block(op, parents, parameters)| == |parents| * |parameters|
  {
    if parents != [] {
      BlockSize(op, parents[..|parents| - 1], parameters);
      OneFactorMore(|parents| - 1, |parameters|);
    }
  }

  lemma {:induction false} RowsInOrder(row: nat, column: nat, laterRow: nat, laterColumn: nat, width: nat)
    requires column < width && laterColumn < width && row * width + column < laterRow * width + laterColumn
    ensures row < laterRow || (row == laterRow && column < laterColumn)
  {
    if laterRow < row { LessQuotient(laterRow, row, width); }
  }

  /** Within one offset alternatives are tried by parent hash, then parent tuple, then for one
      parent by parameter hash, then parameter vector; offsets follow one another. */
  lemma {:induction false} AlternativesInOrder(plan: Plan, generation: nat, slot: nat, pool: seq<Digest>, offsets: nat, i: nat, j: nat)
    requires plan.Valid() && NoDuplicates(pool) && i < j < |Alternatives(plan, generation, slot, pool, offsets)|
    ensures var s := Alternatives(plan, generation, slot, pool, offsets);
      var a, b := s[i], s[j];
      && a.parent.offset <= b.parent.offset
      && (a.parent.offset == b.parent.offset ==>
            ParentLe(plan, a.parent, b.parent) && (a.parent == b.parent ==> ParameterLe(plan, a.parameter, b.parameter)))
  {
    hide Block, ParentAlternatives, ParameterAlternatives, NoDuplicates, LegalParents, LegalIndices, ParentLe, ParameterLe;
    var s := Alternatives(plan, generation, slot, pool, offsets);
    if offsets > 0 {
      var last := offsets - 1;
      var before := Alternatives(plan, generation, slot, pool, last);
      var op := plan.OperatorAt(generation, slot, last);
      var parents, parameters := ParentAlternatives(plan, generation, slot, last, op, pool), ParameterAlternatives(plan, generation, slot, last, op);
      if j < |before| {
        AlternativesInOrder(plan, generation, slot, pool, last, i, j);
      } else {
        BlockOffset(plan, generation, slot, pool, last, op, s[j]);
        if i < |before| {
          assert s[i] in before;
          AlternativesAre(plan, generation, slot, pool, last, s[i]);
        } else {
          BlockOffset(plan, generation, slot, pool, last, op, s[i]);
          BlockInOrder(plan, generation, slot, pool, last, op, i - |before|, j - |before|);
        }
      }
    }
  }

  lemma {:induction false} BlockOffset(plan: Plan, generation: nat, slot: nat, pool: seq<Digest>, offset: nat, op: Operator, a: Alternative)
    requires NoDuplicates(pool)
    requires a in Block(op, ParentAlternatives(plan, generation, slot, offset, op, pool), ParameterAlternatives(plan, generation, slot, offset, op))
    ensures a.parent.offset == offset
  {
    hide Block, ParentAlternatives, ParameterAlternatives, NoDuplicates, LegalParents, LegalIndices;
    BlockMembers(op, ParentAlternatives(plan, generation, slot, offset, op, pool), ParameterAlternatives(plan, generation, slot, offset, op), a);
    ParentAlternativesAre(plan, generation, slot, offset, op, pool, a.parent);
  }

  lemma {:induction false} BlockInOrder(plan: Plan, generation: nat, slot: nat, pool: seq<Digest>, offset: nat, op: Operator, i: nat, j: nat)
    requires NoDuplicates(pool)
    requires i < j < |Block(op, ParentAlternatives(plan, generation, slot, offset, op, pool), ParameterAlternatives(plan, generation, slot, offset, op))|
    ensures var s := Block(op, ParentAlternatives(plan, generation, slot, offset, op, pool), ParameterAlternatives(plan, generation, slot, offset, op));
      ParentLe(plan, s[i].parent, s[j].parent) && (s[i].parent == s[j].parent ==> ParameterLe(plan, s[i].parameter, s[j].parameter))
  {
    hide Block, ParentAlternatives, ParameterAlternatives, ParameterLe;
    var parents, parameters := ParentAlternatives(plan, generation, slot, offset, op, pool), ParameterAlternatives(plan, generation, slot, offset, op);
    var row, column := BlockPlaces(op, parents, parameters, i);
    var laterRow, laterColumn := BlockPlaces(op, parents, parameters, j);
    RowsInOrder(row, column, laterRow, laterColumn, |parameters|);
    AllDistinct(plan, generation, slot, offset, op, pool);
    if row == laterRow {
      ParametersInOrder(plan, generation, slot, offset, op, column, laterColumn);
      ParentLeReflexive(plan, parents[row]);
    } else {
      ParentsInOrder(plan, generation, slot, offset, op, pool, row, laterRow);
    }
  }

  lemma {:induction false} ParentLeReflexive(plan: Plan, a: ParentAlternative)
    ensures ParentLe(plan, a, a)
  {
    LexConnected(a.parents, a.parents);
  }

  /** The traversal goes by the seeded hash, then by the candidate's own. */
  lemma {:induction false} TraversalInOrder(setup: Setup, i: nat, j: nat)
    requires i < j < |TraversalOrder(setup)|
    ensures var a, b := TraversalOrder(setup)[i].hash, TraversalOrder(setup)[j].hash;
      var x, y := setup.traversalHash(a, setup.plan.seed), setup.traversalHash(b, setup.plan.seed);
      x < y || (x == y && a <= b)
  {
    var le := (a: Candidate, b: Candidate) =>
      var x, y := setup.traversalHash(a.hash, setup.plan.seed), setup.traversalHash(b.hash, setup.plan.seed);
      x < y || (x == y && a.hash <= b.hash);
    SortSorts(setup.universe, le);
  }

  // ---------------------------------------------------------------- judging an answer

  /** An alternative is taken exactly when its operator, shown the named parents, proposes an unseen
      candidate of the universe under the run's identity; the other answers are told apart by what is
      wrong with them, in this order. */
  lemma {:induction false} JudgedByAnswer(setup: Setup, sequence: nat, a: Alternative, proposed: set<Digest>, visited: set<Digest>, parents: seq<Candidate>)
    requires setup.Valid() && forall h :: h in a.parent.parents ==> Contains(setup.universe, h)
    requires |parents| == |a.parent.parents|
    requires forall k :: 0 <= k < |parents| ==> parents[k] in setup.universe && parents[k].hash == a.parent.parents[k]
    ensures var answer, verdict := setup.propose(sequence, a, parents), Judge(setup, sequence, a, proposed, visited);
      match answer
      case Raised => verdict == Fails(None, Some(CallbackFailed))
      case NotAProposal => verdict == Fails(None, Some(ResultMalformed))
      case Declines(reason) => verdict == Rejects(Invalid, None, Some(Stated(reason)))
      case Proposes(c) =>
        var ours := c.domain == setup.domain && c.operatorSet == setup.operatorSet;
        var known := exists u :: u in setup.universe && u.hash == c.hash;
        && (!ours ==> verdict == Fails(Some(c.hash), Some(WrongIdentity)))
        && (ours && !known ==> verdict == Rejects(OutsideUniverse, Some(c.hash), None))
        && (ours && known && (c.hash in proposed || c.hash in visited) ==> verdict == Rejects(Duplicate, Some(c.hash), None))
        && (ours && known && c.hash !in proposed && c.hash !in visited ==> verdict == Takes(c))
  {
    HashesTellApart(setup);
    NamedParents(setup.universe, a.parent.parents, parents);
    var answer := setup.propose(sequence, a, parents);
    if answer.Proposes? {
      assert Contains(setup.universe, answer.candidate.hash) <==> exists u :: u in setup.universe && u.hash == answer.candidate.hash by {
        if Contains(setup.universe, answer.candidate.hash) { var u := CandidateFor(setup.universe, answer.candidate.hash); assert u in setup.universe; }
        if u :| u in setup.universe && u.hash == answer.candidate.hash {
          var k :| 0 <= k < |setup.universe| && setup.universe[k] == u;
          assert HashesOf(setup.universe)[k] == u.hash;
        }
      }
    }
  }

  lemma {:induction false} HashesTellApart(setup: Setup)
    requires setup.Valid()
    ensures forall c, d :: c in setup.universe && d in setup.universe && c.hash == d.hash ==> c == d
  {
    forall c, d | c in setup.universe && d in setup.universe && c.hash == d.hash ensures c == d {
      var i :| 0 <= i < |setup.universe| && setup.universe[i] == c;
      var j :| 0 <= j < |setup.universe| && setup.universe[j] == d;
    }
  }

  lemma {:induction false} NamedParents(universe: seq<Candidate>, hashes: seq<Digest>, parents: seq<Candidate>)
    requires forall h :: h in hashes ==> Contains(universe, h)
    requires |parents| == |hashes| && forall k :: 0 <= k < |parents| ==> parents[k] in universe && parents[k].hash == hashes[k]
    requires forall c, d :: c in universe && d in universe && c.hash == d.hash ==> c == d
    ensures CandidatesFor(universe, hashes) == parents
  {
    hide Contains, CandidateFor;
    if hashes != [] {
      assert parents[0].hash == hashes[0] && hashes[0] in hashes;
      NamedParents(universe, hashes[1..], parents[1..]);
      assert CandidateFor(universe, hashes[0]) == parents[0];
    }
  }

  // ---------------------------------------------------------------- scores

  /** One vector leads another exactly by the first field they differ in, towards its direction. */
  lemma {:induction false} LeadByFirstDifference(rules: seq<Rule>, a: seq<real>, b: seq<real>, k: nat)
    requires |a| == |b| == |rules| && k <= |rules| && a[..k] == b[..k]
    ensures k == |rules| ==> Lead(rules, a, b) == 0
    ensures k < |rules| && a[k] != b[k] ==>
      Lead(rules, a, b) == if (rules[k].direction.Descending? && a[k] > b[k]) || (rules[k].direction.Ascending? && a[k] < b[k]) then 1 else -1
  {
    if k > 0 {
      assert a[0] == a[..k][0] == b[..k][0] == b[0];
      assert a[1..][..k - 1] == a[..k][1..] == b[..k][1..] == b[1..][..k - 1];
      LeadByFirstDifference(rules[1..], a[1..], b[1..], k - 1);
    }
  }

  /** Quantization takes the nearest multiple of the unit; of two equally near ones the even one, or
      under half-up the one farther from zero. */
  lemma {:induction false} QuantizedToNearest(value: real, rule: Rule) returns (n: int)
    requires rule.unit > 0.0
    ensures Quantize(value, rule) == n as real * rule.unit
    ensures -0.5 <= n as real - value / rule.unit <= 0.5
    ensures n as real - value / rule.unit == 0.5 || n as real - value / rule.unit == -0.5 ==>
      match rule.rounding case HalfEven => n % 2 == 0 case HalfUp => (n as real > value / rule.unit <==> value / rule.unit >= 0.0)
  {
    n := RoundHalf(value / rule.unit, rule.rounding);
    RoundsWithinHalf(value / rule.unit, rule.rounding);
  }

  lemma {:induction false} ScoresAreMetrics(rules: seq<Rule>, metrics: seq<Metric>)
    requires forall x :: x in rules ==> x.unit > 0.0
    ensures Scores(rules, metrics).Some? <==> forall k :: 0 <= k < |rules| ==> MetricValue(metrics, rules[k].metricName).Some?
    ensures Scores(rules, metrics).Some? ==> forall k :: 0 <= k < |rules| ==>
      Scores(rules, metrics).value[k] == Quantize(MetricValue(metrics, rules[k].metricName).value, rules[k])
  {
    hide Quantize, MetricValue;
    if rules != [] { ScoresAreMetrics(rules[..|rules| - 1], metrics); }
  }

  /** A trial is rankable exactly when it was evaluated completely without repeated metrics, every
      frozen gate has its own passing result on the trial's metric, and every ranking metric is there;
      its scores are those metrics, quantized. */
  lemma {:induction false} RankableExactly(profile: RankingProfile, trial: CandidateTrial)
    requires profile.Valid()
    ensures var e := trial.evaluation.evidence;
      ScoreVector(profile, trial).Some? <==>
        && e.terminal == Evaluated && e.complete
        && (forall i, j :: 0 <= i < j < |e.metrics| ==> e.metrics[i].name != e.metrics[j].name)
        && |e.gateResults| == |profile.hardGates|
        && (forall k :: 0 <= k < |profile.hardGates| ==>
              var gate, result := profile.hardGates[k], e.gateResults[k];
              && MetricValue(e.metrics, gate.metricName) == Some(result.observed) && result.decision.Pass?
              && result.gateId == gate.gateId && result.metricName == gate.metricName && result.comparison == gate.comparison
              && result.threshold == gate.threshold && Passes(gate.comparison, result.observed, gate.threshold))
        && forall k :: 0 <= k < |profile.rules| ==> MetricValue(e.metrics, profile.rules[k].metricName).Some?
    ensures ScoreVector(profile, trial).Some? ==> forall k :: 0 <= k < |profile.rules| ==>
      var metric := MetricValue(trial.evaluation.evidence.metrics, profile.rules[k].metricName);
      metric.Some? && ScoreVector(profile, trial).value[k] == Quantize(metric.value, profile.rules[k])
  {
    hide Quantize, MetricValue, Passes, Scores;
    ScoresAreMetrics(profile.rules, trial.evaluation.evidence.metrics);
  }

  // ---------------------------------------------------------------- the parent pool

  /** A pool holds the hashes of rankable trials, as many as there are up to its size, and no
      rankable trial left out ranks before one that is in. */
  lemma {:induction false} PoolIsTheTop(setup: Setup, trials: seq<CandidateTrial>, i: nat, t: CandidateTrial) returns (member: CandidateTrial)
    requires setup.profile.Valid() && i < |PoolOf(setup, trials)|
    requires t in trials && ScoreVector(setup.profile, t).Some? && t.candidateHash !in PoolOf(setup, trials)
    ensures member in trials && ScoreVector(setup.profile, member).Some? && member.candidateHash == PoolOf(setup, trials)[i]
    ensures |PoolOf(setup, trials)| == setup.poolSize
    ensures var lead := Lead(setup.profile.rules, ScoreVector(setup.profile, member).value, ScoreVector(setup.profile, t).value);
      lead > 0 || (lead == 0 && member.candidateHash <= t.candidateHash)
  {
    hide ScoreVector, Lead;
    var ranking := Ranking(setup.profile, trials);
    RankingMeans(setup.profile, trials);
    member := ranking[i].trial;
    assert ranking[i] in ranking;
    var x := Ranked(t, ScoreVector(setup.profile, t).value);
    assert x in ranking;
    var j :| 0 <= j < |ranking| && ranking[j] == x;
  }
}
