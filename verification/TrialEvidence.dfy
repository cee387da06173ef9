/** What an evaluated trial carries: its terminal, its metrics and the results of
    the frozen hard gates. */
module TrialEvidence {
  import opened Cscv
  import opened Outcomes

  datatype Terminal = Evaluated | RejectedPreflight | RejectedHardGate | EngineFailed | Interrupted

  datatype Comparison = LT | LTE | GT | GTE | EQ

  datatype Decision = Pass | Fail

  datatype Gate = Gate(gateId: Id, metricName: Id, threshold: real, comparison: Comparison)

  datatype GateResult = GateResult(
    gateId: Id, metricName: Id, threshold: real, comparison: Comparison, observed: real, decision: Decision, hasReason: bool)

  datatype Metric = Metric(name: Id, value: real)

  datatype Evaluation = Evaluation(
    terminal: Terminal, metrics: seq<Metric>, gateResults: seq<GateResult>, complete: bool)

  predicate Passes(comparison: Comparison, value: real, threshold: real) {
    match comparison
    case LT => value < threshold
    case LTE => value <= threshold
    case GT => value > threshold
    case GTE => value >= threshold
    case EQ => value == threshold
  }

  /** The comparisons fit together: a value is below, equal to or above a threshold, each of the weak ones
      adds equality, above is below with the sides changed, and what is below stays so as it falls. */
  lemma {:induction false} ComparisonsFit(value: real, threshold: real, lower: real)
    ensures Passes(LTE, value, threshold) <==> Passes(LT, value, threshold) || Passes(EQ, value, threshold)
    ensures Passes(GTE, value, threshold) <==> !Passes(LT, value, threshold)
    ensures Passes(GT, value, threshold) <==> Passes(LT, threshold, value)
    ensures Passes(EQ, value, threshold) <==> !Passes(LT, value, threshold) && !Passes(GT, value, threshold)
    ensures Passes(LT, value, threshold) && lower <= value ==> Passes(LT, lower, threshold)
    ensures Passes(EQ, value, value) && !Passes(LT, value, value) && (value != threshold ==> !Passes(EQ, value, threshold))
  {
  }

  function MetricValue(metrics: seq<Metric>, name: Id): Option<real> {
    if metrics == [] then None
    else if metrics[0].name == name then Some(metrics[0].value)
    else MetricValue(metrics[1..], name)
  }

  predicate RepeatsMetric(metrics: seq<Metric>) {
    exists i, j :: 0 <= i < j < |metrics| && metrics[i].name == metrics[j].name
  }

  lemma {:induction false} MetricFound(metrics: seq<Metric>, name: Id) returns (m: Metric)
    requires MetricValue(metrics, name).Some?
    ensures m in metrics && m.name == name && MetricValue(metrics, name) == Some(m.value)
  {
    if metrics[0].name == name { m := metrics[0]; } else { m := MetricFound(metrics[1..], name); }
  }
}
