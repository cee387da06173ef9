/** What the derivatives engine trades, settles and charges, in terms of prices and rates. */
module DerivativesMeaning {
  import opened Derivatives
  import opened DerivativesLedger
  import opened Ordering
  import opened RealArithmetic

  // ---------------------------------------------------------------- orders

  /** The fees of changing a position by some contracts and some units. */
  function FeesOf(policy: Policy, contracts: real, units: real, o: Observation): real {
    Abs(contracts) * policy.multiplier * o.derivative * policy.derivativeCost + Abs(units) * o.underlying * policy.underlyingCost
  }

  /** The traded notional of such a change. */
  function NotionalOf(policy: Policy, contracts: real, units: real, o: Observation): real {
    Abs(contracts) * policy.multiplier * o.derivative + Abs(units) * o.underlying
  }

  /** An executed order takes the signal's contracts, hedges them exactly, posts their initial
      margin in full and costs its fees in equity and nothing else. */
  lemma {:induction false} OrderHedges(policy: Policy, strategy: Strategy, l: Ledger, s: Signal, o: Observation)
    requires Rebalanced(policy, strategy, l, s, o).0.orders == l.orders + 1
    ensures var a := Rebalanced(policy, strategy, l, s, o).0;
      && a.contracts == s.value * strategy.scale && a.units + strategy.hedge * a.contracts == 0.0
      && a.margin == Abs(a.contracts) * policy.multiplier * o.derivative * policy.initialMargin && a.free >= 0.0
      && a.free + a.margin + a.units * o.underlying
         == l.free + l.margin + l.units * o.underlying - FeesOf(policy, a.contracts - l.contracts, a.units - l.units, o)
      && a.fees == l.fees + FeesOf(policy, a.contracts - l.contracts, a.units - l.units, o)
      && a.gross == l.gross + NotionalOf(policy, a.contracts - l.contracts, a.units - l.units, o)
  {
    hide Abs;
    var contracts := TargetContracts(strategy, s);
    Opposite(contracts, strategy.hedge);
    Difference(TargetUnits(strategy, s), l.units, o.underlying);
  }

  lemma {:induction false} Opposite(x: real, y: real)
    ensures (-x) * y + y * x == 0.0 && (-x) * y == -(x * y)
  {
  }

  lemma {:induction false} Difference(a: real, b: real, price: real)
    ensures (a - b) * price == a * price - b * price
  {
  }

  /** When an order executes, is rejected or liquidates, by the numbers of signal, account and prices. */
  lemma {:induction false} OrderByNumbers(policy: Policy, strategy: Strategy, l: Ledger, s: Signal, o: Observation)
    ensures var contracts, units := s.value * strategy.scale, -(s.value * strategy.scale * strategy.hedge);
      var allowed := policy.shortAllowed || s.value * strategy.scale * strategy.hedge <= 0.0;
      var paid := l.free + l.margin + l.units * o.underlying - FeesOf(policy, contracts - l.contracts, units - l.units, o)
                  >= units * o.underlying + Abs(contracts) * policy.multiplier * o.derivative * policy.initialMargin;
      var after := Rebalanced(policy, strategy, l, s, o);
      && (after.0.orders == l.orders + 1 <==> allowed && paid)
      && (after.1 <==> allowed && !paid && policy.onShortfall.LiquidateAccount?)
      && (after.1 <==> after.0.liquidations == l.liquidations + 1)
      && (!allowed || (!paid && policy.onShortfall.RejectOrder?) ==> after == (l.(rejected := l.rejected + 1), false))
  {
    hide Abs, FeesOf, Rebalanced;
    Opposite(s.value * strategy.scale, strategy.hedge);
    OrderOn(policy, strategy, l, s, o, s.value * strategy.scale, -(s.value * strategy.scale * strategy.hedge));
  }

  lemma {:induction false} OrderOn(policy: Policy, strategy: Strategy, l: Ledger, s: Signal, o: Observation, contracts: real, units: real)
    requires contracts == TargetContracts(strategy, s) && units == TargetUnits(strategy, s)
    ensures var allowed := policy.shortAllowed || units >= 0.0;
      var paid := l.free + l.margin + l.units * o.underlying - FeesOf(policy, contracts - l.contracts, units - l.units, o)
                  >= units * o.underlying + Abs(contracts) * policy.multiplier * o.derivative * policy.initialMargin;
      var after := Rebalanced(policy, strategy, l, s, o);
      && (after.0.orders == l.orders + 1 <==> allowed && paid)
      && (after.1 <==> allowed && !paid && policy.onShortfall.LiquidateAccount?)
      && (after.1 <==> after.0.liquidations == l.liquidations + 1)
      && (!allowed || (!paid && policy.onShortfall.RejectOrder?) ==> after == (l.(rejected := l.rejected + 1), false))
  {
    hide Abs, FeesOf, TradeFees, Rebalanced, Value, Required, Equity, TargetContracts, TargetUnits;
    RebalanceDecides(policy, strategy, l, s, o);
    RebalanceRejects(policy, strategy, l, s, o);
    AmountsOf(policy, l, contracts, units, o);
  }

  /** The model's amounts, written out. */
  lemma {:induction false} AmountsOf(policy: Policy, l: Ledger, contracts: real, units: real, o: Observation)
    ensures TradeFees(policy, contracts - l.contracts, units - l.units, o) == FeesOf(policy, contracts - l.contracts, units - l.units, o)
    ensures Equity(l, o) == l.free + l.margin + l.units * o.underlying && Value(units, o.underlying) == units * o.underlying
    ensures Required(policy, contracts, o.derivative) == Abs(contracts) * policy.multiplier * o.derivative * policy.initialMargin
  {
    hide Abs;
  }

  lemma {:induction false} RebalanceRejects(policy: Policy, strategy: Strategy, l: Ledger, s: Signal, o: Observation)
    ensures var contracts, units := TargetContracts(strategy, s), TargetUnits(strategy, s);
      var paid := Equity(l, o) - TradeFees(policy, contracts - l.contracts, units - l.units, o)
                  >= Value(units, o.underlying) + Required(policy, contracts, o.derivative);
      (units < 0.0 && !policy.shortAllowed) || (!paid && policy.onShortfall.RejectOrder?) ==>
        Rebalanced(policy, strategy, l, s, o) == (l.(rejected := l.rejected + 1), false)
  {
    hide Equity, Value, Required, TradeFees, Moved, Liquidated, TargetContracts, TargetUnits;
    AffordableExactly(policy, l, TargetContracts(strategy, s), TargetUnits(strategy, s), o);
  }

  /** Where short underlying is forbidden and contracts are hedged against the signal's side,
      exactly the buying signals are turned away, whatever the account. */
  lemma {:induction false} BuyingSignalsRejected(policy: Policy, strategy: Strategy, l: Ledger, s: Signal, o: Observation)
    requires !policy.shortAllowed && strategy.scale > 0.0 && strategy.hedge > 0.0
    ensures s.value > 0.0 ==> Rebalanced(policy, strategy, l, s, o) == (l.(rejected := l.rejected + 1), false)
    ensures s.value <= 0.0 ==> TargetUnits(strategy, s) >= 0.0 && !Forbidden(policy, strategy, s)
  {
    hide Moved, Liquidated;
    var contracts := s.value * strategy.scale;
    Opposite(contracts, strategy.hedge);
    if s.value > 0.0 {
      assert contracts > 0.0;
      assert contracts * strategy.hedge > 0.0;
    } else {
      assert (-s.value) * strategy.scale >= 0.0;
      Opposite(s.value, strategy.scale);
      assert (-contracts) * strategy.hedge >= 0.0;
    }
  }

  /** What a liquidation pays and leaves. */
  lemma {:induction false} LiquidationByNumbers(policy: Policy, l: Ledger, o: Observation)
    ensures var q := Liquidated(policy, l, o);
      && q.free == l.free + l.margin + l.units * o.underlying - FeesOf(policy, l.contracts, l.units, o)
      && q.margin == q.contracts == q.units == 0.0 && q.liquidations == l.liquidations + 1
      && q.fees == l.fees + FeesOf(policy, l.contracts, l.units, o)
      && q.gross == l.gross + NotionalOf(policy, l.contracts, l.units, o)
  {
    hide Abs;
  }

  // ---------------------------------------------------------------- a hedged position

  ghost predicate Hedged(strategy: Strategy, l: Ledger) { l.units + strategy.hedge * l.contracts == 0.0 }

  /** What a hedged position gains on two price moves: each contract earns its own move less the
      hedge's share of the underlying's. One-to-one hedges of equal moves gain nothing. */
  lemma {:induction false} HedgedGain(policy: Policy, strategy: Strategy, l: Ledger, derivativeMove: real, underlyingMove: real)
    requires Hedged(strategy, l)
    ensures var gain := l.contracts * policy.multiplier * derivativeMove + l.units * underlyingMove;
      && gain == l.contracts * (policy.multiplier * derivativeMove - strategy.hedge * underlyingMove)
      && (strategy.hedge == 1.0 && policy.multiplier == 1.0 && derivativeMove == underlyingMove ==> gain == 0.0)
  {
    var c, h := l.contracts, strategy.hedge;
    Distributed(c, policy.multiplier, derivativeMove, h, underlyingMove);
    assert l.units == -(h * c);
    Swapped(h, c, underlyingMove);
  }

  lemma {:induction false} Distributed(c: real, m: real, d: real, h: real, u: real)
    ensures c * (m * d - h * u) == c * m * d - c * h * u
  {
  }

  lemma {:induction false} Swapped(h: real, c: real, u: real)
    ensures (-(h * c)) * u == -(c * h * u)
  {
  }

  /** Until the first execution or liquidation the opening position stands; from then on it is hedged. */
  ghost predicate Steady(p: Payload, l: Ledger) {
    if l.orders + l.liquidations == 0 then l.units == p.units && l.contracts == p.contracts else Hedged(p.strategy, l)
  }

  lemma {:induction false} ActedSteady(p: Payload, l: Ledger, liquidated: bool, s: Signal, o: Observation)
    requires Steady(p, l)
    ensures Steady(p, Acted(p.policy, p.strategy, l, liquidated, s, o).0)
  {
    hide Required, TradeFees, TradeNotional, Value;
    Opposite(TargetContracts(p.strategy, s), p.strategy.hedge);
    assert p.strategy.hedge * 0.0 == 0.0;
  }

  lemma {:induction false} ProcessedSteady(p: Payload, l: Ledger, liquidated: bool, batch: seq<Signal>, o: Observation)
    requires Steady(p, l)
    ensures Steady(p, Processed(p.policy, p.strategy, l, liquidated, batch, o).0)
  {
    hide Acted, Steady;
    if batch != [] {
      var front := batch[..|batch| - 1];
      ProcessedSteady(p, l, liquidated, front, o);
      var before := Processed(p.policy, p.strategy, l, liquidated, front, o);
      ActedSteady(p, before.0, before.1, batch[|batch| - 1], o);
    }
  }

  lemma {:induction false} AnsweredSteady(p: Payload, l: Ledger, prior: real, first: bool, o: Observation)
    requires Steady(p, l)
    ensures Steady(p, Answered(p.policy, l, prior, first, o))
  {
    hide Required, TradeFees, TradeNotional, Value, Variation, Funding, Borrow, BelowMaintenance;
    assert p.strategy.hedge * 0.0 == 0.0;
  }

  /** In every run the position is hedged from the first execution or liquidation on, and
      before it is the one the run opened with. */
  lemma {:induction false} AlwaysHedged(p: Payload, n: nat)
    requires n <= |p.observations|
    ensures var l := After(p, n);
      if l.orders + l.liquidations == 0 then l.units == p.units && l.contracts == p.contracts
      else l.units + p.strategy.hedge * l.contracts == 0.0
  {
    hide Due, Answered, Called, Processed;
    if n > 0 {
      AlwaysHedged(p, n - 1);
      var l, o := After(p, n - 1), p.observations[n - 1];
      AnsweredSteady(p, l, PriorPrice(p, n - 1), n == 1, o);
      ProcessedSteady(p, Answered(p.policy, l, PriorPrice(p, n - 1), n == 1, o), Called(p.policy, l, PriorPrice(p, n - 1), n == 1, o),
                      Due(p, n - 1), o);
    }
  }

  // ---------------------------------------------------------------- before the first period

  /** A run takes the observations by availability and then observation time, and the signals by
      availability, those of one time as they come. */
  lemma {:induction false} InTimeOrder(p: Payload, s: Signal)
    ensures var q := Ordered(p);
      && multiset(q.observations) == multiset(p.observations) && multiset(q.signals) == multiset(p.signals)
      && (forall i, j :: 0 <= i < j < |q.observations| ==>
           var a, b := q.observations[i], q.observations[j];
           a.availableAt < b.availableAt || (a.availableAt == b.availableAt && a.observedAt <= b.observedAt))
      && (forall i, j :: 0 <= i < j < |q.signals| ==> q.signals[i].availableAt <= q.signals[j].availableAt)
      && SameTime(q.signals, s.availableAt) == SameTime(p.signals, s.availableAt)
      && q == p.(observations := q.observations, signals := q.signals)
  {
    hide Sort;
    SortKeeps(p.observations, ByAvailability);
    SortSorts(p.observations, ByAvailability);
    SortKeeps(p.signals, BySignalTime);
    SortSorts(p.signals, BySignalTime);
    SortKeepsTies(p.signals, s, BySignalTime);
    TiedInTime(p.signals, s);
    TiedInTime(Ordered(p).signals, s);
    InOrderAlready(Ordered(p).observations);
  }

  /** The signals available at one time. */
  function SameTime(signals: seq<Signal>, at: int): seq<Signal> {
    if signals == [] then [] else (if signals[0].availableAt == at then [signals[0]] else []) + SameTime(signals[1..], at)
  }

  lemma {:induction false} TiedInTime(signals: seq<Signal>, s: Signal)
    ensures Tied(signals, s, BySignalTime) == SameTime(signals, s.availableAt)
  {
    if signals != [] { TiedInTime(signals[1..], s); }
  }

  lemma {:induction false} InOrderAlready(observations: seq<Observation>)
    requires Sorted(observations, ByAvailability)
    ensures forall i, j :: 0 <= i < j < |observations| ==>
      var a, b := observations[i], observations[j];
      a.availableAt < b.availableAt || (a.availableAt == b.availableAt && a.observedAt <= b.observedAt)
  {
    forall i, j | 0 <= i < j < |observations|
      ensures observations[i].availableAt < observations[j].availableAt
           || (observations[i].availableAt == observations[j].availableAt && observations[i].observedAt <= observations[j].observedAt)
    {
      assert ByAvailability(observations[i], observations[j]);
    }
  }

  /** It opens with the given cash, units and contracts, nothing posted, nothing earned and nothing counted. */
  lemma {:induction false} OpensClean(p: Payload)
    ensures var l := After(p, 0);
      && l.free == p.cash && l.units == p.units && l.contracts == p.contracts && l.margin == 0.0
      && l.variation == l.funding == l.borrow == l.fees == l.gross == 0.0 && l.orders == l.rejected == l.liquidations == 0
  {
  }

  // ---------------------------------------------------------------- settlement and margin

  /** A settlement pays the contracts' price move, less funding on their exposure and borrow on short units. */
  lemma {:induction false} SettlementByNumbers(policy: Policy, l: Ledger, prior: real, o: Observation)
    requires l.margin >= 0.0
    ensures var s := SettledAt(policy, l, prior, o);
      var variation := l.contracts * policy.multiplier * (o.derivative - prior);
      var funding := l.contracts * policy.multiplier * o.derivative * policy.fundingRate;
      var borrow := (if l.units < 0.0 then -l.units else 0.0) * o.underlying * policy.borrowRate;
      && s.variation == l.variation + variation && s.funding == l.funding + funding && s.borrow == l.borrow + borrow
      && s.free + s.margin == l.free + l.margin + variation - funding - borrow
  {
    hide Charged;
    ChargedMeans(l, Variation(policy, l, prior, o) - Funding(policy, l, o) - Borrow(policy, l, o));
  }

  /** A margin call happens exactly when what free cash and margin can cover misses the maintenance
      share of the open contracts' exposure. */
  lemma {:induction false} MarginCallByNumbers(policy: Policy, l: Ledger, o: Observation)
    requires policy.Valid() && o.Valid() && l.margin >= 0.0
    ensures var s, exposure := Synchronized(policy, l, o), Abs(l.contracts) * policy.multiplier * o.derivative;
      && (BelowMaintenance(policy, s, o)
          <==> (if l.free > 0.0 then l.free else 0.0) + l.margin < exposure * policy.maintenanceMargin)
      && s.margin <= exposure * policy.initialMargin && s.free + s.margin == l.free + l.margin
      && (s.margin < exposure * policy.initialMargin ==> s.free <= 0.0)
  {
    hide Abs;
    MarginCallExactly(policy, l, o);
  }

  /** What a period earns: the first nothing, every later one the settlement of the position held
      since the previous observation at the prices of the two. */
  lemma {:induction false} PeriodEarnings(p: Payload, n: nat)
    requires Usable(p) && n < |p.observations|
    ensures var l, a := After(p, n), After(p, n + 1);
      if n == 0 then a.variation == l.variation && a.funding == l.funding && a.borrow == l.borrow
      else
        var o, before := p.observations[n], p.observations[n - 1];
        && a.variation - l.variation == l.contracts * p.policy.multiplier * (o.derivative - before.derivative)
        && a.funding - l.funding == l.contracts * p.policy.multiplier * o.derivative * p.policy.fundingRate
        && a.borrow - l.borrow == (if l.units < 0.0 then -l.units else 0.0) * o.underlying * p.policy.borrowRate
  {
    hide Due, Processed, Policy.Valid, Observation.Valid, SettledAt, Synchronized, Liquidated, BelowMaintenance, Covered, Worth;
    var l, o, prior := After(p, n), p.observations[n], PriorPrice(p, n);
    AlwaysCovered(p, n);
    var settled := if n == 0 then l else SettledAt(p.policy, l, prior, o);
    if n > 0 {
      SettledKeeps(p.policy, l, prior, o);
      SettlementByNumbers(p.policy, l, prior, o);
    }
    MarginCallExactly(p.policy, settled, o);
    LiquidatedKeeps(p.policy, Synchronized(p.policy, settled, o), o);
    AnsweredKeeps(p.policy, l, prior, n == 0, o);
    ProcessedKeeps(p.policy, p.strategy, Answered(p.policy, l, prior, n == 0, o), Called(p.policy, l, prior, n == 0, o), Due(p, n), o);
  }
}
