/** The derivatives engine: lagged signals and the account over a whole run. */
module Derivatives {
  import opened DerivativesLedger
  import opened EquityPaths
  import opened Ordering
  import opened Outcomes
  import opened RealArithmetic

  datatype Payload = Payload(
    observations: seq<Observation>, signals: seq<Signal>, policy: Policy, strategy: Strategy,
    cash: real, units: real, contracts: real)
  {
    /** What the payload model accepts. */
    ghost predicate Valid() {
      && observations != [] && signals != [] && policy.Valid() && cash > 0.0 && (policy.shortAllowed || units >= 0.0)
      && (forall o :: o in observations ==> o.Valid())
      && (forall i, j :: 0 <= i < j < |observations| ==> observations[i].availableAt != observations[j].availableAt)
      && (forall i, j :: 0 <= i < j < |signals| ==> signals[i].availableAt != signals[j].availableAt)
    }

    /** Observations and signals in the order they become available. */
    ghost predicate InOrder() {
      && (forall i, j :: 0 <= i < j < |observations| ==> observations[i].availableAt <= observations[j].availableAt)
      && (forall i, j :: 0 <= i < j < |signals| ==> signals[i].availableAt <= signals[j].availableAt)
    }
  }

  predicate ByAvailability(a: Observation, b: Observation) {
    a.availableAt < b.availableAt || (a.availableAt == b.availableAt && a.observedAt <= b.observedAt)
  }

  predicate BySignalTime(a: Signal, b: Signal) { a.availableAt <= b.availableAt }

  function Ordered(p: Payload): Payload {
    p.(observations := Sort(p.observations, ByAvailability), signals := Sort(p.signals, BySignalTime))
  }

  lemma {:induction false} OrderedPayload(p: Payload)
    requires p.Valid()
    ensures var q := Ordered(p);
      && q.InOrder() && |q.observations| == |p.observations| && |q.signals| == |p.signals|
      && q.policy.Valid() && q.policy == p.policy && q.observations != [] && (forall o :: o in q.observations ==> o.Valid())
      && multiset(q.signals) == multiset(p.signals)
  {
    SortSorts(p.observations, ByAvailability);
    SortMembers(p.observations, ByAvailability);
    SortSorts(p.signals, BySignalTime);
    SortKeeps(p.signals, BySignalTime);
  }

  // ---------------------------------------------------------------- which signals act when

  /** How many signals at the front are visible at a time. */
  function VisibleCount(signals: seq<Signal>, t: int): (n: nat)
    ensures n <= |signals|
  {
    if signals == [] || signals[0].availableAt > t then 0 else 1 + VisibleCount(signals[1..], t)
  }

  lemma {:induction false} VisibleExactly(signals: seq<Signal>, t: int, k: nat)
    requires k < |signals| && forall i, j :: 0 <= i < j < |signals| ==> signals[i].availableAt <= signals[j].availableAt
    ensures k < VisibleCount(signals, t) <==> signals[k].availableAt <= t
  {
    if signals[0].availableAt <= t && k > 0 {
      VisibleExactly(signals[1..], t, k - 1);
    }
  }

  /** Signals visible before period `i` starts. */
  function Seen(p: Payload, i: nat): (n: nat)
    requires i <= |p.observations|
    ensures n <= |p.signals|
  {
    if i == 0 then 0 else VisibleCount(p.signals, p.observations[i - 1].availableAt)
  }

  lemma {:induction false} SeenGrows(p: Payload, i: nat)
    requires p.InOrder() && i < |p.observations|
    ensures Seen(p, i) <= Seen(p, i + 1)
  {
    if i > 0 && Seen(p, i) > 0 {
      var last := Seen(p, i) - 1;
      VisibleExactly(p.signals, p.observations[i - 1].availableAt, last);
      VisibleExactly(p.signals, p.observations[i].availableAt, last);
    }
  }

  /** The signals that act in period `i`: those first seen the policy's lag earlier. */
  function Due(p: Payload, i: nat): seq<Signal>
    requires i < |p.observations|
  {
    if i < p.policy.lag || Seen(p, i - p.policy.lag) > Seen(p, i - p.policy.lag + 1) then []
    else p.signals[Seen(p, i - p.policy.lag)..Seen(p, i - p.policy.lag + 1)]
  }

  /** A signal is first visible in period `i`. */
  ghost predicate FirstVisible(p: Payload, s: Signal, i: int) {
    0 <= i < |p.observations| && s.availableAt <= p.observations[i].availableAt
    && forall j :: 0 <= j < i ==> p.observations[j].availableAt < s.availableAt
  }

  /** The `k`-th signal is part of period `i`'s batch. */
  ghost predicate ActsIn(p: Payload, k: nat, i: nat)
    requires i < |p.observations| && k < |p.signals|
  {
    var from := i - p.policy.lag;
    from >= 0 && Seen(p, from) <= k < Seen(p, from + 1) && Due(p, i) == p.signals[Seen(p, from)..Seen(p, from + 1)]
  }

  /** A signal acts in a period exactly when it was first visible the policy's lag before. */
  lemma {:induction false} ActsExactlyAfterLag(p: Payload, k: nat, i: nat)
    requires p.InOrder() && i < |p.observations| && k < |p.signals|
    ensures ActsIn(p, k, i) <==> FirstVisible(p, p.signals[k], i - p.policy.lag)
  {
    var from := i - p.policy.lag;
    if from >= 0 {
      SeenGrows(p, from);
      VisibleExactly(p.signals, p.observations[from].availableAt, k);
      if from > 0 {
        VisibleExactly(p.signals, p.observations[from - 1].availableAt, k);
      }
    }
  }

  // ---------------------------------------------------------------- the account over time

  function Start(p: Payload): Ledger { Ledger(p.cash, 0.0, p.units, p.contracts, 0.0, 0.0, 0.0, 0.0, 0.0, 0, 0, 0) }

  function PriorPrice(p: Payload, i: nat): real
    requires i < |p.observations|
  {
    if i == 0 then 0.0 else p.observations[i - 1].derivative
  }

  function PeriodAt(p: Payload, l: Ledger, i: nat): (Ledger, bool)
    requires i < |p.observations|
  {
    Period(p.policy, p.strategy, l, PriorPrice(p, i), i == 0, p.observations[i], Due(p, i))
  }

  /** The ledger after the first `n` periods. */
  function After(p: Payload, n: nat): Ledger
    requires n <= |p.observations|
  {
    if n == 0 then Start(p) else PeriodAt(p, After(p, n - 1), n - 1).0
  }

  /** The equities recorded in one period. */
  function RecordedIn(p: Payload, l: Ledger, i: nat): seq<real>
    requires i < |p.observations|
  {
    var o, period := p.observations[i], PeriodAt(p, l, i);
    (if i == 0 then [Equity(l, o)] else []) + (if i > 0 || period.1 || Due(p, i) != [] then [Equity(period.0, o)] else [])
  }

  /** The equities recorded in the first `n` periods. */
  function Path(p: Payload, n: nat): seq<real>
    requires n <= |p.observations|
  {
    if n == 0 then [] else Path(p, n - 1) + RecordedIn(p, After(p, n - 1), n - 1)
  }

  /** Margin calls in the first `n` periods. */
  function Calls(p: Payload, n: nat): nat
    requires n <= |p.observations|
  {
    if n == 0 then 0
    else Calls(p, n - 1) + if Called(p.policy, After(p, n - 1), PriorPrice(p, n - 1), n == 1, p.observations[n - 1]) then 1 else 0
  }

  /** What the underlying held between periods earned on its price. */
  function Gains(p: Payload, n: nat): real
    requires n <= |p.observations|
  {
    if n <= 1 then 0.0
    else Gains(p, n - 1) + Value(After(p, n - 1).units, p.observations[n - 1].underlying - p.observations[n - 2].underlying)
  }

  ghost predicate Usable(p: Payload) {
    p.InOrder() && p.policy.Valid() && p.observations != [] && (p.policy.shortAllowed || p.units >= 0.0)
    && forall o :: o in p.observations ==> o.Valid()
  }

  function DueBefore(p: Payload, n: nat): nat
    requires n <= |p.observations|
  {
    if n <= p.policy.lag then 0 else Seen(p, n - p.policy.lag)
  }

  lemma {:induction false} PeriodOf(p: Payload, l: Ledger, i: nat)
    requires Usable(p) && i < |p.observations| && l.margin >= 0.0 && ShortsAllowed(p.policy, l)
    ensures var a, o := PeriodAt(p, l, i).0, p.observations[i];
      && Worth(a, o) - Earned(a) == Worth(l, o) - Earned(l) && Covered(p.policy, a, o) && ShortsAllowed(p.policy, a)
      && Handled(a) == Handled(l) + |Due(p, i)| + (if Called(p.policy, l, PriorPrice(p, i), i == 0, o) then 1 else 0)
  {
    hide Period, Due, Worth, Covered, Handled, Called, Policy.Valid, Observation.Valid;
    PeriodKeeps(p.policy, p.strategy, l, PriorPrice(p, i), i == 0, p.observations[i], Due(p, i));
  }

  /** After every period the margin is covered and no forbidden short is open. */
  lemma {:induction false} AlwaysCovered(p: Payload, n: nat)
    requires Usable(p) && n <= |p.observations|
    ensures After(p, n).margin >= 0.0 && ShortsAllowed(p.policy, After(p, n))
    ensures n > 0 ==> Covered(p.policy, After(p, n), p.observations[n - 1])
  {
    hide PeriodAt, Due, Worth, Earned, Handled, BelowMaintenance, Required, Called;
    if n > 0 {
      AlwaysCovered(p, n - 1);
      PeriodOf(p, After(p, n - 1), n - 1);
    }
  }

  /** Final less initial equity is variation less funding, borrow and fees, plus the underlying's gains. */
  lemma {:induction false} EquityExplained(p: Payload, n: nat)
    requires Usable(p) && 0 < n <= |p.observations|
    ensures var l := After(p, n);
      Equity(l, p.observations[n - 1]) == Equity(Start(p), p.observations[0]) + l.variation - l.funding - l.borrow - l.fees + Gains(p, n)
  {
    hide PeriodAt, Due, Handled, Covered, Called, Value, ShortsAllowed, Policy.Valid;
    AlwaysCovered(p, n - 1);
    PeriodOf(p, After(p, n - 1), n - 1);
    if n > 1 {
      EquityExplained(p, n - 1);
      ValueMoves(After(p, n - 1).units, p.observations[n - 2].underlying, p.observations[n - 1].underlying);
    }
  }

  /** Every signal and every margin call is handled once: executed, rejected or answered by liquidation. */
  lemma {:induction false} SignalsAccounted(p: Payload, n: nat)
    requires Usable(p) && n <= |p.observations|
    ensures After(p, n).orders + After(p, n).rejected + (After(p, n).liquidations - Calls(p, n)) == DueBefore(p, n)
  {
    hide PeriodAt, Due, DueBefore, Worth, Covered, Called, ShortsAllowed, Policy.Valid;
    if n > 0 {
      AlwaysCovered(p, n - 1);
      SignalsAccounted(p, n - 1);
      PeriodOf(p, After(p, n - 1), n - 1);
      DueCounts(p, n - 1);
    } else {
      NothingDueYet(p);
    }
  }

  lemma {:induction false} NothingDueYet(p: Payload)
    ensures DueBefore(p, 0) == 0
  {
  }

  lemma {:induction false} DueCounts(p: Payload, i: nat)
    requires p.InOrder() && i < |p.observations|
    ensures DueBefore(p, i + 1) == DueBefore(p, i) + |Due(p, i)|
  {
    if i >= p.policy.lag {
      SeenGrows(p, i - p.policy.lag);
    }
  }

  /** Borrow is charged only where the policy allows short positions. */
  lemma {:induction false} BorrowNeedsShorts(p: Payload, n: nat)
    requires Usable(p) && n <= |p.observations|
    ensures After(p, n).borrow >= 0.0 && (!p.policy.shortAllowed ==> After(p, n).borrow == 0.0)
  {
    if n > 0 {
      hide Due, Policy.Valid, Processed, SettledAt, Synchronized, Liquidated, Value;
      AlwaysCovered(p, n - 1);
      BorrowNeedsShorts(p, n - 1);
      PeriodBorrow(p, After(p, n - 1), n - 1);
    }
  }

  lemma {:induction false} PeriodBorrow(p: Payload, l: Ledger, i: nat)
    requires Usable(p) && i < |p.observations| && l.margin >= 0.0 && ShortsAllowed(p.policy, l)
    ensures PeriodAt(p, l, i).0.borrow >= l.borrow && (!p.policy.shortAllowed ==> PeriodAt(p, l, i).0.borrow == l.borrow)
  {
    hide Due, Policy.Valid, Processed, SettledAt, Liquidated, Synchronized, Covered, Worth;
    var o, prior := p.observations[i], PriorPrice(p, i);
    var settled := if i == 0 then l else SettledAt(p.policy, l, prior, o);
    BorrowOnlyShort(p.policy, l, prior, o);
    SettledKeeps(p.policy, l, prior, o);
    MarginCallExactly(p.policy, settled, o);
    LiquidatedKeeps(p.policy, Synchronized(p.policy, settled, o), o);
    AnsweredKeeps(p.policy, l, prior, i == 0, o);
    ProcessedKeeps(p.policy, p.strategy, Answered(p.policy, l, prior, i == 0, o), Called(p.policy, l, prior, i == 0, o), Due(p, i), o);
  }

  // ---------------------------------------------------------------- the recorded path

  /** The last recorded equity is the account's equity at the last observation, even in a run of one period. */
  lemma {:induction false} PathEnds(p: Payload, n: nat)
    requires Usable(p) && p.policy.Valid() && 0 < n <= |p.observations|
    ensures var path := Path(p, n);
      && path != [] && path[0] == Equity(Start(p), p.observations[0])
      && path[|path| - 1] == Equity(After(p, n), p.observations[n - 1])
      && |path| == n + if Called(p.policy, Start(p), PriorPrice(p, 0), true, p.observations[0]) then 1 else 0
  {
    hide Period, Equity, Called, Covered, Value;
    if n > 1 {
      PathEnds(p, n - 1);
    } else {
      assert After(p, 0) == Start(p) && Path(p, 0) == [];
      assert Due(p, 0) == [];
      FirstPeriod(p);
    }
  }

  /** Without a margin call the first period only posts margin, which leaves equity alone. */
  lemma {:induction false} FirstPeriod(p: Payload)
    requires Usable(p)
    ensures var first := PeriodAt(p, Start(p), 0);
      && first.1 == Called(p.policy, Start(p), PriorPrice(p, 0), true, p.observations[0])
      && (!first.1 ==> Equity(first.0, p.observations[0]) == Equity(Start(p), p.observations[0]))
  {
    hide Synchronized, BelowMaintenance, Liquidated, MarginLegal;
    assert Due(p, 0) == [];
    MarginCallExactly(p.policy, Start(p), p.observations[0]);
  }

  /** Returns along a recorded path; the first record has return zero. */
  function PathReturns(path: seq<real>): seq<real>
    requires Positive(path)
  {
    if path == [] then [] else Returns(path[0], path)
  }

  lemma {:induction false} PathReturnsGrow(path: seq<real>, equity: real)
    requires Positive(path) && equity > 0.0
    ensures Positive(path + [equity])
    ensures PathReturns(path + [equity]) ==
            PathReturns(path) + [if path == [] then 0.0 else Growth(path[|path| - 1], equity)]
  {
    var longer := path + [equity];
    assert longer[..|longer| - 1] == path;
    if path == [] { assert Growth(equity, equity) == 0.0; } else { assert longer[0] == path[0]; }
  }

  /** In a run whose recorded equities are all positive, free cash is never negative after a
      period, although settlement can overdraw it within one. */
  lemma {:induction false} FreeNeverNegative(p: Payload, n: nat)
    requires Usable(p) && p.cash >= 0.0 && n <= |p.observations| && Positive(Path(p, n))
    ensures After(p, n).free >= 0.0
  {
    hide PeriodAt, RecordedIn, Covered;
    if n > 0 {
      var l, recorded := After(p, n - 1), RecordedIn(p, After(p, n - 1), n - 1);
      assert Path(p, n)[..|Path(p, n - 1)|] == Path(p, n - 1) && Path(p, n)[|Path(p, n - 1)|..] == recorded;
      FreeNeverNegative(p, n - 1);
      AlwaysCovered(p, n - 1);
      PeriodFree(p, l, n - 1);
    }
  }

  lemma {:induction false} PeriodFree(p: Payload, l: Ledger, i: nat)
    requires Usable(p) && i < |p.observations| && l.margin >= 0.0 && l.free >= 0.0 && Positive(RecordedIn(p, l, i))
    ensures PeriodAt(p, l, i).0.free >= 0.0
  {
    hide Due, Answered, Called, Equity, Funded, Policy.Valid, Processed, Observation.Valid;
    var o, prior, recorded := p.observations[i], PriorPrice(p, i), RecordedIn(p, l, i);
    var answered, called := Answered(p.policy, l, prior, i == 0, o), Called(p.policy, l, prior, i == 0, o);
    AnsweredFunded(p.policy, l, prior, i == 0, o);
    ProcessedFunded(p.policy, p.strategy, answered, called, Due(p, i), o);
    NothingProcessed(p.policy, p.strategy, answered, called, o);
    if i > 0 || PeriodAt(p, l, i).1 || Due(p, i) != [] {
      assert recorded[|recorded| - 1] == Equity(PeriodAt(p, l, i).0, o);
      FundedAndPositive(PeriodAt(p, l, i).0, o);
    }
  }

  lemma {:induction false} NothingProcessed(policy: Policy, strategy: Strategy, l: Ledger, liquidated: bool, o: Observation)
    ensures Processed(policy, strategy, l, liquidated, [], o) == (l, liquidated)
  {
  }

  // ---------------------------------------------------------------- the run

  datatype Error = EquityNotPositive | MarginOutOfRange | NoMarkedEquity

  datatype RunResult = RunResult(initial: real, final: real, ledger: Ledger, equityPath: seq<real>, returnPath: seq<real>, unexecuted: int)

  /** Signals seen so far whose turn falls after the last period. */
  function TooLate(p: Payload, i: nat): int
    requires i <= |p.observations|
  {
    if |p.observations| <= p.policy.lag then Seen(p, i)
    else if i + p.policy.lag <= |p.observations| then 0
    else Seen(p, i) - Seen(p, |p.observations| - p.policy.lag)
  }

  function Lookup(queue: map<nat, seq<Signal>>, i: nat): seq<Signal> { if i in queue then queue[i] else [] }

  /** The schedule holds what is due in the periods from `i` on, as far as it has been seen before period `seen`. */
  ghost predicate Queued(p: Payload, queue: map<nat, seq<Signal>>, i: nat, seen: nat) {
    forall k :: i <= k < |p.observations| ==> Lookup(queue, k) == if k < seen + p.policy.lag then Due(p, k) else []
  }

  /** While period `i` files signals, those from `start` to `cursor` wait under its lagged period. */
  ghost predicate Filling(p: Payload, queue: map<nat, seq<Signal>>, i: nat, start: nat, cursor: nat)
    requires start <= cursor <= |p.signals|
  {
    var turn := i + p.policy.lag;
    && (turn < |p.observations| ==> Lookup(queue, turn) == p.signals[start..cursor])
    && forall k :: i <= k < |p.observations| && k != turn ==> Lookup(queue, k) == if k < turn then Due(p, k) else []
  }

  lemma {:induction false} SeenExactly(p: Payload, i: nat, k: nat)
    requires Usable(p) && i < |p.observations| && k < |p.signals|
    ensures k < Seen(p, i + 1) <==> p.signals[k].availableAt <= p.observations[i].availableAt
  {
    VisibleExactly(p.signals, p.observations[i].availableAt, k);
  }

  lemma {:induction false} SchedulingStarts(p: Payload, queue: map<nat, seq<Signal>>, i: nat)
    requires Usable(p) && i < |p.observations| && Queued(p, queue, i, i)
    ensures Seen(p, i) <= Seen(p, i + 1) <= |p.signals| && Filling(p, queue, i, Seen(p, i), Seen(p, i))
  {
    hide Due, Seen;
    SeenGrows(p, i);
  }

  lemma {:induction false} FillingMore(p: Payload, queue: map<nat, seq<Signal>>, i: nat, start: nat, cursor: nat)
    requires start <= cursor < |p.signals| && i < |p.observations| && Filling(p, queue, i, start, cursor)
    ensures var turn := i + p.policy.lag;
      Filling(p, if turn < |p.observations| then queue[turn := Lookup(queue, turn) + [p.signals[cursor]]] else queue, i, start, cursor + 1)
  {
    hide Due;
    var turn := i + p.policy.lag;
    var more := queue[turn := Lookup(queue, turn) + [p.signals[cursor]]];
    assert p.signals[start..cursor + 1] == p.signals[start..cursor] + [p.signals[cursor]];
    assert Lookup(more, turn) == Lookup(queue, turn) + [p.signals[cursor]];
    forall k | i <= k < |p.observations| && k != turn ensures Lookup(more, k) == Lookup(queue, k) { }
  }

  lemma {:induction false} SchedulingEnds(p: Payload, queue: map<nat, seq<Signal>>, i: nat)
    requires Usable(p) && i < |p.observations| && Seen(p, i) <= Seen(p, i + 1) && Filling(p, queue, i, Seen(p, i), Seen(p, i + 1))
    ensures Queued(p, queue, i, i + 1)
    ensures TooLate(p, i + 1) == TooLate(p, i) + if i + p.policy.lag < |p.observations| then 0 else Seen(p, i + 1) - Seen(p, i)
  {
    hide Seen;
    SeenStarts(p);
  }

  lemma {:induction false} SeenStarts(p: Payload)
    ensures Seen(p, 0) == 0
  {
  }

  /** The account and the path after one more period. */
  lemma {:induction false} NextPeriod(p: Payload, i: nat)
    requires Usable(p) && i < |p.observations|
    ensures var l, o := After(p, i), p.observations[i];
      && After(p, i + 1) == PeriodAt(p, l, i).0 && l.margin >= 0.0
      && Path(p, i + 1) == Path(p, i) + RecordedIn(p, l, i)
      && RecordedIn(p, l, i) == (if i == 0 then [Equity(l, o)] else [])
                                + (if i > 0 || PeriodAt(p, l, i).1 || Due(p, i) != [] then [Equity(After(p, i + 1), o)] else [])
  {
    hide PeriodAt, Due, Equity;
    AlwaysCovered(p, i);
  }

  class DerivativesState {
    const payload: Payload
    var freeCash: real
    var marginCash: real
    var underlyingUnits: real
    var derivativeContracts: real
    var variationPnl: real
    var fundingCashflow: real
    var borrowCost: real
    var transactionFees: real
    var grossTradeNotional: real
    var orderCount: nat
    var rejectedOrderCount: nat
    var liquidationCount: nat
    var priorDerivativePrice: Option<real>
    var scheduledSignals: map<nat, seq<Signal>>
    var signalCursor: nat
    var unexecutedSignalCount: int
    var equityPath: seq<real>
    var returnPath: seq<real>
    var initialEquity: Option<real>

    function Account(): Ledger
      reads this`freeCash, this`marginCash, this`underlyingUnits, this`derivativeContracts, this`variationPnl, this`fundingCashflow,
            this`borrowCost, this`transactionFees, this`grossTradeNotional, this`orderCount, this`rejectedOrderCount, this`liquidationCount
    {
      Ledger(freeCash, marginCash, underlyingUnits, derivativeContracts, variationPnl, fundingCashflow, borrowCost, transactionFees,
             grossTradeNotional, orderCount, rejectedOrderCount, liquidationCount)
    }

    /** The recorded equities are positive, with their returns beside them. */
    ghost predicate Tracked()
      reads this`equityPath, this`returnPath, this`initialEquity
    {
      && Positive(equityPath) && returnPath == PathReturns(equityPath)
      && initialEquity == if equityPath == [] then None else Some(equityPath[0])
    }

    constructor (payload: Payload)
      ensures this.payload == payload && Account() == Start(payload) && Tracked() && equityPath == []
      ensures priorDerivativePrice.None? && scheduledSignals == map[] && signalCursor == 0 && unexecutedSignalCount == 0
    {
      this.payload := payload;
      freeCash, marginCash, underlyingUnits, derivativeContracts := payload.cash, 0.0, payload.units, payload.contracts;
      variationPnl, fundingCashflow, borrowCost, transactionFees, grossTradeNotional := 0.0, 0.0, 0.0, 0.0, 0.0;
      orderCount, rejectedOrderCount, liquidationCount := 0, 0, 0;
      priorDerivativePrice, scheduledSignals, signalCursor, unexecutedSignalCount := None, map[], 0, 0;
      equityPath, returnPath, initialEquity := [], [], None;
    }

    /** Files every newly visible signal under the period its lag leads to. */
    method ScheduleVisibleSignals(p: Payload, i: nat)
      requires Usable(p) && i < |p.observations| && Queued(p, scheduledSignals, i, i)
      requires signalCursor == Seen(p, i) && unexecutedSignalCount == TooLate(p, i)
      modifies this`scheduledSignals, this`signalCursor, this`unexecutedSignalCount
      ensures Queued(p, scheduledSignals, i, i + 1) && signalCursor == Seen(p, i + 1) && unexecutedSignalCount == TooLate(p, i + 1)
    {
      hide *;
      ghost var start := signalCursor;
      var executionIndex := i + p.policy.lag;
      SchedulingStarts(p, scheduledSignals, i);
      while signalCursor < |p.signals|
        invariant start <= signalCursor <= Seen(p, i + 1)
        invariant Filling(p, scheduledSignals, i, start, signalCursor)
        invariant unexecutedSignalCount == TooLate(p, i) + if executionIndex < |p.observations| then 0 else signalCursor - start
        decreases |p.signals| - signalCursor
      {
        var signal := p.signals[signalCursor];
        SeenExactly(p, i, signalCursor);
        if signal.availableAt > p.observations[i].availableAt {
          break;
        }
        FillingMore(p, scheduledSignals, i, start, signalCursor);
        if executionIndex < |p.observations| {
          var queue := Lookup(scheduledSignals, executionIndex);
          scheduledSignals := scheduledSignals[executionIndex := queue + [signal]];
        } else {
          unexecutedSignalCount := unexecutedSignalCount + 1;
        }
        signalCursor := signalCursor + 1;
      }
      SchedulingEnds(p, scheduledSignals, i);
    }

    method ApplySettlement(cashflow: real)
      modifies this`freeCash, this`marginCash
      ensures Account() == Charged(old(Account()), cashflow)
    {
      if cashflow >= 0.0 {
        freeCash := freeCash + cashflow;
        return;
      }
      var debit := -cashflow;
      var freeCashDebit := Min(Max(freeCash, 0.0), debit);
      freeCash := freeCash - freeCashDebit;
      debit := debit - freeCashDebit;
      var marginDebit := Min(marginCash, debit);
      marginCash := marginCash - marginDebit;
      debit := debit - marginDebit;
      if debit > 0.0 {
        freeCash := freeCash - debit;
      }
    }

    method SettlePriorExposure(o: Observation)
      requires marginCash >= 0.0
      modifies this`freeCash, this`marginCash, this`variationPnl, this`fundingCashflow, this`borrowCost
      ensures Account() == if priorDerivativePrice.None? then old(Account())
                           else SettledAt(payload.policy, old(Account()), priorDerivativePrice.value, o)
    {
      hide Charged, Variation, Funding, Borrow;
      if priorDerivativePrice.None? {
        return;
      }
      var policy, before := payload.policy, Account();
      var variation := Variation(policy, before, priorDerivativePrice.value, o);
      var funding := Funding(policy, before, o);
      var borrow := Borrow(policy, before, o);
      ChargedMeans(before, variation - funding - borrow);
      ApplySettlement(variation - funding - borrow);
      variationPnl := variationPnl + variation;
      fundingCashflow := fundingCashflow + funding;
      borrowCost := borrowCost + borrow;
    }

    /** Posts the required margin; false means a margin call. The range error cannot occur. */
    method SynchronizeMargin(o: Observation) returns (r: Result<bool, Error>)
      requires payload.policy.Valid() && o.Valid() && marginCash >= 0.0
      modifies this`freeCash, this`marginCash
      ensures Account() == Synchronized(payload.policy, old(Account()), o)
      ensures r == Ok(!BelowMaintenance(payload.policy, Account(), o))
    {
      hide Required, Maintenance;
      MarginCallExactly(payload.policy, Account(), o);
      var requiredMargin := Required(payload.policy, derivativeContracts, o.derivative);
      if marginCash > requiredMargin {
        freeCash := freeCash + (marginCash - requiredMargin);
        marginCash := requiredMargin;
      } else if marginCash < requiredMargin {
        var topUp := Min(Max(freeCash, 0.0), requiredMargin - marginCash);
        freeCash := freeCash - topUp;
        marginCash := marginCash + topUp;
      }
      if marginCash < Maintenance(payload.policy, derivativeContracts, o.derivative) {
        return Ok(false);
      }
      if marginCash < 0.0 || marginCash > requiredMargin {
        return Err(MarginOutOfRange);
      }
      return Ok(true);
    }

    method Liquidate(o: Observation)
      modifies this`freeCash, this`marginCash, this`derivativeContracts, this`underlyingUnits, this`grossTradeNotional,
               this`transactionFees, this`liquidationCount
      ensures Account() == Liquidated(payload.policy, old(Account()), o)
    {
      hide TradeFees, TradeNotional, Value;
      var fees := TradeFees(payload.policy, derivativeContracts, underlyingUnits, o);
      var notional := TradeNotional(payload.policy, derivativeContracts, underlyingUnits, o);
      freeCash := freeCash + Value(underlyingUnits, o.underlying);
      freeCash := freeCash - fees;
      freeCash := freeCash + marginCash;
      grossTradeNotional := grossTradeNotional + notional;
      transactionFees := transactionFees + fees;
      derivativeContracts, underlyingUnits, marginCash := 0.0, 0.0, 0.0;
      liquidationCount := liquidationCount + 1;
    }

    /** Acts on one due signal; true means the account was liquidated. The range error cannot occur. */
    method Rebalance(s: Signal, o: Observation) returns (r: Result<bool, Error>)
      requires payload.policy.Valid() && o.Valid()
      modifies this`freeCash, this`marginCash, this`derivativeContracts, this`underlyingUnits, this`grossTradeNotional,
               this`transactionFees, this`orderCount, this`rejectedOrderCount, this`liquidationCount
      ensures var after := Rebalanced(payload.policy, payload.strategy, old(Account()), s, o);
        r == Ok(after.1) && Account() == after.0
    {
      hide TradeFees, TradeNotional, Value, Required, Maintenance, Policy.Valid, Liquidated;
      var policy := payload.policy;
      var contracts, units := TargetContracts(payload.strategy, s), TargetUnits(payload.strategy, s);
      MovedKeeps(policy, Account(), contracts, units, o);
      if units < 0.0 && !policy.shortAllowed {
        rejectedOrderCount := rejectedOrderCount + 1;
        return Ok(false);
      }
      var derivativeDelta, underlyingDelta := contracts - derivativeContracts, units - underlyingUnits;
      var fees := TradeFees(policy, derivativeDelta, underlyingDelta, o);
      var prospectiveFree := freeCash - Value(underlyingDelta, o.underlying) - fees;
      var prospectiveMargin := Required(policy, contracts, o.derivative);
      if prospectiveMargin >= marginCash {
        prospectiveFree := prospectiveFree - (prospectiveMargin - marginCash);
      } else {
        prospectiveFree := prospectiveFree + (marginCash - prospectiveMargin);
      }
      if prospectiveFree < 0.0 {
        if policy.onShortfall.RejectOrder? {
          rejectedOrderCount := rejectedOrderCount + 1;
          return Ok(false);
        }
        Liquidate(o);
        return Ok(true);
      }
      grossTradeNotional := grossTradeNotional + TradeNotional(policy, derivativeDelta, underlyingDelta, o);
      freeCash, marginCash, derivativeContracts, underlyingUnits := prospectiveFree, prospectiveMargin, contracts, units;
      transactionFees := transactionFees + fees;
      orderCount := orderCount + 1;
      if marginCash < 0.0 || marginCash > Required(policy, derivativeContracts, o.derivative) {
        return Err(MarginOutOfRange);
      }
      return Ok(false);
    }

    method ActOnDueSignals(batch: seq<Signal>, o: Observation, called: bool) returns (r: Result<bool, Error>)
      requires payload.policy.Valid() && o.Valid()
      modifies this`freeCash, this`marginCash, this`derivativeContracts, this`underlyingUnits, this`grossTradeNotional,
               this`transactionFees, this`orderCount, this`rejectedOrderCount, this`liquidationCount
      ensures var after := Processed(payload.policy, payload.strategy, old(Account()), called, batch, o);
        r == Ok(after.1) && Account() == after.0
    {
      hide Rebalanced, Policy.Valid, Observation.Valid;
      var liquidated := called;
      for j := 0 to |batch|
        invariant (Account(), liquidated) == Processed(payload.policy, payload.strategy, old(Account()), called, batch[..j], o)
      {
        assert batch[..j + 1][..j] == batch[..j] && batch[..j + 1][j] == batch[j];
        if liquidated {
          rejectedOrderCount := rejectedOrderCount + 1;
        } else {
          var acted := Rebalance(batch[j], o);
          if acted.Err? {
            return acted;
          }
          liquidated := acted.value;
        }
      }
      assert batch[..|batch|] == batch;
      return Ok(liquidated);
    }

    method RecordEquity(o: Observation) returns (r: Result<(), Error>)
      requires Tracked()
      modifies this`equityPath, this`returnPath, this`initialEquity
      ensures r == if Equity(Account(), o) > 0.0 then Ok(()) else Err(EquityNotPositive)
      ensures Tracked() && equityPath == old(equityPath) + if r.Ok? then [Equity(Account(), o)] else []
    {
      hide Value, Growth, Returns;
      var equity := freeCash + marginCash + Value(underlyingUnits, o.underlying);
      if equity <= 0.0 {
        return Err(EquityNotPositive);
      }
      PathReturnsGrow(equityPath, equity);
      var periodReturn := 0.0;
      if initialEquity.None? {
        initialEquity := Some(equity);
      } else {
        var priorEquity := equityPath[|equityPath| - 1];
        periodReturn := Growth(priorEquity, equity);
      }
      equityPath := equityPath + [equity];
      returnPath := returnPath + [periodReturn];
      return Ok(());
    }

    /** Records the opening equity once; later calls record nothing. */
    method RecordInitialEquity(o: Observation) returns (r: Result<bool, Error>)
      requires Tracked()
      modifies this`equityPath, this`returnPath, this`initialEquity
      ensures r == if old(initialEquity).Some? then Ok(false)
                   else if Equity(Account(), o) > 0.0 then Ok(true) else Err(EquityNotPositive)
      ensures Tracked() && equityPath == old(equityPath) + if r == Ok(true) then [Equity(Account(), o)] else []
    {
      if initialEquity.Some? {
        return Ok(false);
      }
      var recorded := RecordEquity(o);
      if recorded.Err? {
        return Err(recorded.error);
      }
      return Ok(true);
    }

    /** Settles, synchronizes margin, answers a margin call and acts on the due signals. */
    method UpdateAccount(p: Payload, i: nat) returns (r: Result<bool, Error>)
      requires Usable(p) && i < |p.observations| && p.policy == payload.policy && p.strategy == payload.strategy
      requires marginCash >= 0.0 && priorDerivativePrice == (if i == 0 then None else Some(PriorPrice(p, i)))
      requires Queued(p, scheduledSignals, i, i + 1)
      modifies this`freeCash, this`marginCash, this`derivativeContracts, this`underlyingUnits, this`variationPnl, this`fundingCashflow,
               this`borrowCost, this`grossTradeNotional, this`transactionFees, this`orderCount, this`rejectedOrderCount,
               this`liquidationCount, this`scheduledSignals, this`priorDerivativePrice
      ensures var after := PeriodAt(p, old(Account()), i);
        r == Ok(after.1) && Account() == after.0
      ensures priorDerivativePrice == Some(p.observations[i].derivative) && Queued(p, scheduledSignals, i + 1, i + 1)
    {
      hide Due, Queued, Lookup, Dequeued, Liquidated, Synchronized, SettledAt, Processed, BelowMaintenance, Policy.Valid, Observation.Valid;
      var o := p.observations[i];
      SettledKeeps(p.policy, Account(), PriorPrice(p, i), o);
      SettlePriorExposure(o);
      var synchronized := SynchronizeMargin(o);
      if synchronized.Err? {
        return synchronized;
      }
      var liquidated := false;
      if !synchronized.value {
        Liquidate(o);
        liquidated := true;
      }
      var batch := Lookup(scheduledSignals, i);
      DueNow(p, scheduledSignals, i);
      DequeuedNext(p, scheduledSignals, i);
      scheduledSignals := Dequeued(scheduledSignals, i);
      r := ActOnDueSignals(batch, o, liquidated);
      priorDerivativePrice := Some(o.derivative);
    }

    /** One period of the run, after its signals were scheduled. */
    method RunPeriod(p: Payload, i: nat) returns (r: Result<(), Error>)
      requires Usable(p) && i < |p.observations| && p.policy == payload.policy && p.strategy == payload.strategy
      requires Account() == After(p, i) && Tracked() && equityPath == Path(p, i) && (i == 0 <==> initialEquity.None?)
      requires priorDerivativePrice == (if i == 0 then None else Some(PriorPrice(p, i)))
      requires Queued(p, scheduledSignals, i, i + 1)
      modifies this
      ensures signalCursor == old(signalCursor) && unexecutedSignalCount == old(unexecutedSignalCount)
      ensures r.Ok? ==> Account() == After(p, i + 1) && Tracked() && equityPath == Path(p, i + 1) && initialEquity.Some?
      ensures r.Ok? ==> priorDerivativePrice == Some(p.observations[i].derivative) && Queued(p, scheduledSignals, i + 1, i + 1)
      ensures r.Err? ==> r == Err(EquityNotPositive) && !Positive(Path(p, i + 1))
    {
      hide *;
      var o := p.observations[i];
      NextPeriod(p, i);
      assert marginCash >= 0.0 by { MarginHeld(); }
      ghost var path, before := equityPath, Account();
      var initialRecorded := RecordInitialEquity(o);
      if initialRecorded.Err? {
        NonPositiveAt(Path(p, i + 1), |path|);
        return Err(initialRecorded.error);
      }
      assert initialRecorded.value <==> i == 0;
      ghost var begun := equityPath;
      var scheduled := Lookup(scheduledSignals, i);
      DueNow(p, scheduledSignals, i);
      var updated := UpdateAccount(p, i);
      var liquidated := false;
      match updated {
        case Err(error) => return Err(error);
        case Ok(flag) => liquidated := flag;
      }
      if i > 0 || !initialRecorded.value || liquidated || scheduled != [] {
        var recorded := RecordEquity(o);
        if recorded.Err? {
          assert Path(p, i + 1) == begun + [Equity(Account(), o)];
          NonPositiveAt(Path(p, i + 1), |begun|);
          return Err(recorded.error);
        }
        assert Path(p, i + 1) == equityPath;
      } else {
        assert Path(p, i + 1) == equityPath;
      }
      TrackedSome();
      return Ok(());
    }

    lemma {:induction false} MarginHeld()
      ensures Account().margin == marginCash
    {
    }

    lemma {:induction false} TrackedSome()
      requires Tracked()
      ensures initialEquity.Some? <==> equityPath != []
    {
    }

    /** Runs the whole payload: fails exactly when some recorded equity is not positive. */
    method Execute() returns (r: Result<RunResult, Error>)
      requires payload.Valid() && Account() == Start(payload) && Tracked() && equityPath == []
      requires priorDerivativePrice.None? && scheduledSignals == map[] && signalCursor == 0 && unexecutedSignalCount == 0
      modifies this
      ensures var p := Ordered(payload);
        && (r.Err? ==> r == Err(EquityNotPositive) && !Positive(Path(p, |p.observations|)))
        && (r.Ok? ==> Reported(p, r.value))
    {
      hide Due, After, Path, Queued, TooLate, Usable, Seen, Sort, Start, PathReturns, Positive, PriorPrice;
      var p := Ordered(payload);
      OrderedUsable(payload);
      NothingQueued(p);
      TrackedSome();
      var i := 0;
      while i < |p.observations|
        invariant 0 <= i <= |p.observations|
        invariant Account() == After(p, i) && Tracked() && equityPath == Path(p, i) && (i == 0 <==> initialEquity.None?)
        invariant priorDerivativePrice == if i == 0 then None else Some(p.observations[i - 1].derivative)
        invariant Queued(p, scheduledSignals, i, i) && signalCursor == Seen(p, i) && unexecutedSignalCount == TooLate(p, i)
      {
        PriorIs(p, i);
        ScheduleVisibleSignals(p, i);
        var period := RunPeriod(p, i);
        if period.Err? {
          PathContinues(p, i + 1, |p.observations|);
          return Err(period.error);
        }
        i := i + 1;
      }
      unexecutedSignalCount := unexecutedSignalCount + (|p.signals| - signalCursor);
      if initialEquity.None? || equityPath == [] {
        return Err(NoMarkedEquity);
      }
      PathStart();
      var result := RunResult(initialEquity.value, equityPath[|equityPath| - 1], Account(), equityPath, returnPath, unexecutedSignalCount);
      Reporting(p, result);
      return Ok(result);
    }

    lemma {:induction false} PathStart()
      requires Tracked() && equityPath != []
      ensures initialEquity == Some(equityPath[0]) && Positive(equityPath) && returnPath == PathReturns(equityPath)
    {
    }
  }

  function Dequeued(queue: map<nat, seq<Signal>>, i: nat): map<nat, seq<Signal>> { map k | k in queue && k != i :: queue[k] }

  /** Taking the due batch off the schedule leaves it as the next period expects it. */
  lemma {:induction false} DequeuedNext(p: Payload, queue: map<nat, seq<Signal>>, i: nat)
    requires i < |p.observations| && Queued(p, queue, i, i + 1)
    ensures Queued(p, Dequeued(queue, i), i + 1, i + 1)
  {
    hide Due;
    forall k | i + 1 <= k < |p.observations| ensures Lookup(Dequeued(queue, i), k) == Lookup(queue, k) { }
  }

  lemma {:induction false} DueNow(p: Payload, queue: map<nat, seq<Signal>>, i: nat)
    requires Usable(p) && i < |p.observations| && Queued(p, queue, i, i + 1)
    ensures Lookup(queue, i) == Due(p, i)
  {
  }

  lemma {:induction false} NonPositiveAt(path: seq<real>, k: nat)
    requires k < |path| && path[k] <= 0.0
    ensures !Positive(path)
  {
  }

  lemma {:induction false} PathContinues(p: Payload, i: nat, n: nat)
    requires i <= n <= |p.observations| && !Positive(Path(p, i))
    ensures !Positive(Path(p, n))
    decreases n
  {
    if i < n {
      hide RecordedIn, After, Positive;
      PathContinues(p, i, n - 1);
      FrontStaysBad(Path(p, n - 1), RecordedIn(p, After(p, n - 1), n - 1));
    }
  }

  lemma {:induction false} FrontStaysBad(front: seq<real>, rest: seq<real>)
    requires !Positive(front)
    ensures !Positive(front + rest)
  {
    var k :| 0 <= k < |front| && front[k] <= 0.0;
    assert (front + rest)[k] == front[k];
  }

  lemma {:induction false} OrderedUsable(payload: Payload)
    requires payload.Valid()
    ensures var p := Ordered(payload);
      Usable(p) && p.policy == payload.policy && p.strategy == payload.strategy && Start(p) == Start(payload)
  {
    hide Sort;
    OrderedPayload(payload);
  }

  lemma {:induction false} NothingQueued(p: Payload)
    requires Usable(p)
    ensures Queued(p, map[], 0, 0) && Seen(p, 0) == 0 && TooLate(p, 0) == 0 && After(p, 0) == Start(p) && Path(p, 0) == []
  {
  }

  lemma {:induction false} PriorIs(p: Payload, i: nat)
    requires i < |p.observations|
    ensures i > 0 ==> PriorPrice(p, i) == p.observations[i - 1].derivative
  {
  }

  /** What a finished run reports. */
  ghost predicate Reported(p: Payload, r: RunResult)
    requires p.observations != []
  {
    var n := |p.observations|;
    && r.ledger == After(p, n) && r.equityPath == Path(p, n) && Positive(r.equityPath) && r.returnPath == PathReturns(r.equityPath)
    && r.initial == Equity(Start(p), p.observations[0]) && r.final == Equity(r.ledger, p.observations[n - 1])
    && r.final - r.initial == r.ledger.variation - r.ledger.funding - r.ledger.borrow - r.ledger.fees + Gains(p, n)
    && r.ledger.orders + r.ledger.rejected + (r.ledger.liquidations - Calls(p, n)) + r.unexecuted == |p.signals|
    && r.initial * Compounded(r.returnPath) == r.final
    && Covered(p.policy, r.ledger, p.observations[n - 1]) && r.ledger.free >= 0.0
  }

  lemma {:induction false} Reporting(p: Payload, r: RunResult)
    requires Usable(p) && p.cash >= 0.0 && var n := |p.observations|;
      && r.ledger == After(p, n) && r.equityPath == Path(p, n) && r.equityPath != []
      && Positive(r.equityPath) && r.returnPath == PathReturns(r.equityPath)
      && r.initial == r.equityPath[0] && r.final == r.equityPath[|r.equityPath| - 1]
      && r.unexecuted == TooLate(p, n) + (|p.signals| - Seen(p, n))
    ensures Reported(p, r)
  {
    hide After, Path, Gains, Calls, Equity, Covered, Start, Seen, Returns, Compounded;
    var n := |p.observations|;
    PathEnds(p, n);
    EquityExplained(p, n);
    SignalsAccounted(p, n);
    AlwaysCovered(p, n);
    FreeNeverNegative(p, n);
    ReturnsCompound(r.equityPath[0], r.equityPath);
  }
}
