/** One period of the derivatives account: settlement, margin, trades, liquidation.

    Money is exact. A step is a function from ledger to ledger; what a period
    keeps is proved here once for every ledger and price. */
module DerivativesLedger {
  import opened RealArithmetic

  datatype ShortfallAction = RejectOrder | LiquidateAccount

  datatype Policy = Policy(
    multiplier: real, fundingRate: real, borrowRate: real, initialMargin: real, maintenanceMargin: real,
    derivativeCost: real, underlyingCost: real, lag: nat, onShortfall: ShortfallAction, shortAllowed: bool)
  {
    predicate Valid() {
      && multiplier > 0.0 && borrowRate >= 0.0 && 0.0 < maintenanceMargin <= initialMargin <= 1.0
      && derivativeCost >= 0.0 && underlyingCost >= 0.0 && lag >= 1
    }
  }

  datatype Strategy = Strategy(scale: real, hedge: real)

  datatype Observation = Observation(observedAt: int, availableAt: int, underlying: real, derivative: real) {
    predicate Valid() { observedAt <= availableAt && underlying > 0.0 && derivative > 0.0 }
  }

  datatype Signal = Signal(availableAt: int, value: real)

  datatype Ledger = Ledger(
    free: real, margin: real, units: real, contracts: real,
    variation: real, funding: real, borrow: real, fees: real, gross: real,
    orders: nat, rejected: nat, liquidations: nat)

  function Abs(x: real): (r: real)
    ensures r >= 0.0 && (r == x || r == -x)
  {
    if x < 0.0 then -x else x
  }

  function Exposure(policy: Policy, contracts: real, price: real): real { contracts * policy.multiplier * price }

  function Required(policy: Policy, contracts: real, price: real): real { Exposure(policy, Abs(contracts), price) * policy.initialMargin }

  function Maintenance(policy: Policy, contracts: real, price: real): real {
    Exposure(policy, Abs(contracts), price) * policy.maintenanceMargin
  }

  function Cost(notional: real, rate: real): real { notional * rate }

  function Equity(l: Ledger, o: Observation): real { l.free + l.margin + Value(l.units, o.underlying) }

  /** Equity before fees: what trading at the current prices cannot change. */
  function Worth(l: Ledger, o: Observation): real { Equity(l, o) + l.fees }

  // ---------------------------------------------------------------- settlement

  /** Settles a cashflow: a debit takes free cash, then margin, then leaves free cash negative. */
  function Charged(l: Ledger, cashflow: real): Ledger {
    if cashflow >= 0.0 then l.(free := l.free + cashflow)
    else
      var fromFree := Min(Max(l.free, 0.0), -cashflow);
      var fromMargin := Min(l.margin, -cashflow - fromFree);
      l.(free := l.free - fromFree - (-cashflow - fromFree - fromMargin), margin := l.margin - fromMargin)
  }

  lemma {:induction false} ChargedMeans(l: Ledger, cashflow: real)
    requires l.margin >= 0.0
    ensures var c := Charged(l, cashflow);
      && c == l.(free := c.free, margin := c.margin)
      && c.free + c.margin == l.free + l.margin + cashflow && 0.0 <= c.margin <= l.margin
      && (c.margin < l.margin ==> c.free <= 0.0 && cashflow < 0.0)
      && (c.free < 0.0 <= l.free ==> c.margin == 0.0)
  {
  }

  function Variation(policy: Policy, l: Ledger, prior: real, o: Observation): real {
    Exposure(policy, l.contracts, o.derivative - prior)
  }

  function Funding(policy: Policy, l: Ledger, o: Observation): real { Cost(Exposure(policy, l.contracts, o.derivative), policy.fundingRate) }

  function Borrow(policy: Policy, l: Ledger, o: Observation): real { Cost(Value(Max(-l.units, 0.0), o.underlying), policy.borrowRate) }

  function SettledAt(policy: Policy, l: Ledger, prior: real, o: Observation): Ledger {
    var variation, funding, borrow := Variation(policy, l, prior, o), Funding(policy, l, o), Borrow(policy, l, o);
    Charged(l, variation - funding - borrow)
    .(variation := l.variation + variation, funding := l.funding + funding, borrow := l.borrow + borrow)
  }

  // ---------------------------------------------------------------- margin

  /** Margin is returned when too much is posted and topped up from free cash when too little is. */
  function Synchronized(policy: Policy, l: Ledger, o: Observation): Ledger {
    var required := Required(policy, l.contracts, o.derivative);
    if l.margin > required then l.(free := l.free + (l.margin - required), margin := required)
    else
      var topUp := Min(Max(l.free, 0.0), required - l.margin);
      l.(free := l.free - topUp, margin := l.margin + topUp)
  }

  predicate BelowMaintenance(policy: Policy, l: Ledger, o: Observation) {
    l.margin < Maintenance(policy, l.contracts, o.derivative)
  }

  predicate MarginLegal(policy: Policy, l: Ledger, o: Observation) {
    0.0 <= l.margin <= Required(policy, l.contracts, o.derivative)
  }

  lemma {:induction false} MarginOrder(policy: Policy, contracts: real, price: real)
    requires policy.Valid() && price > 0.0
    ensures 0.0 <= Maintenance(policy, contracts, price) <= Required(policy, contracts, price)
    ensures contracts == 0.0 ==> Required(policy, contracts, price) == 0.0
  {
    hide Abs;
    var size := Abs(contracts) * policy.multiplier;
    assert size >= 0.0;
    assert size * price >= 0.0;
    Scales(size * price, policy.maintenanceMargin, policy.initialMargin);
  }

  lemma {:induction false} Scales(x: real, low: real, high: real)
    requires x >= 0.0 && 0.0 <= low <= high
    ensures 0.0 <= x * low <= x * high
  {
    assert x * (high - low) >= 0.0;
  }

  /** A margin call happens exactly when free cash and margin together miss the maintenance margin. */
  lemma {:induction false} MarginCallExactly(policy: Policy, l: Ledger, o: Observation)
    requires policy.Valid() && o.Valid() && l.margin >= 0.0
    ensures var s := Synchronized(policy, l, o);
      && (BelowMaintenance(policy, s, o) <==> Max(l.free, 0.0) + l.margin < Maintenance(policy, l.contracts, o.derivative))
      && MarginLegal(policy, s, o) && Worth(s, o) == Worth(l, o)
      && s == l.(free := s.free, margin := s.margin) && (l.free >= 0.0 ==> s.free >= 0.0)
  {
    hide Required, Maintenance, Value;
    MarginOrder(policy, l.contracts, o.derivative);
  }

  // ---------------------------------------------------------------- trades

  function TargetContracts(strategy: Strategy, s: Signal): real { s.value * strategy.scale }

  function TargetUnits(strategy: Strategy, s: Signal): real { -TargetContracts(strategy, s) * strategy.hedge }

  function DerivativeNotional(policy: Policy, contracts: real, o: Observation): real {
    Exposure(policy, Abs(contracts), o.derivative)
  }

  function UnderlyingNotional(units: real, o: Observation): real { Value(Abs(units), o.underlying) }

  function TradeFees(policy: Policy, contracts: real, units: real, o: Observation): real {
    Cost(DerivativeNotional(policy, contracts, o), policy.derivativeCost) + Cost(UnderlyingNotional(units, o), policy.underlyingCost)
  }

  function TradeNotional(policy: Policy, contracts: real, units: real, o: Observation): real {
    DerivativeNotional(policy, contracts, o) + UnderlyingNotional(units, o)
  }

  /** The account after moving to a target, before asking whether it can be paid for. */
  function Moved(policy: Policy, l: Ledger, contracts: real, units: real, o: Observation): Ledger {
    var derivativeDelta, underlyingDelta := contracts - l.contracts, units - l.units;
    var margin, fees := Required(policy, contracts, o.derivative), TradeFees(policy, derivativeDelta, underlyingDelta, o);
    var paid := l.free - Value(underlyingDelta, o.underlying) - fees;
    var free := if margin >= l.margin then paid - (margin - l.margin) else paid + (l.margin - margin);
    l.(free := free, margin := margin, contracts := contracts, units := units,
       gross := l.gross + TradeNotional(policy, derivativeDelta, underlyingDelta, o), fees := l.fees + fees, orders := l.orders + 1)
  }

  function Liquidated(policy: Policy, l: Ledger, o: Observation): Ledger {
    var fees := TradeFees(policy, l.contracts, l.units, o);
    l.(free := l.free + Value(l.units, o.underlying) - fees + l.margin, margin := 0.0, contracts := 0.0, units := 0.0,
       gross := l.gross + TradeNotional(policy, l.contracts, l.units, o), fees := l.fees + fees, liquidations := l.liquidations + 1)
  }

  function Rejected(l: Ledger): Ledger { l.(rejected := l.rejected + 1) }

  predicate Forbidden(policy: Policy, strategy: Strategy, s: Signal) {
    TargetUnits(strategy, s) < 0.0 && !policy.shortAllowed
  }

  /** What one due signal does to the account; the flag says whether it was liquidated. */
  function Rebalanced(policy: Policy, strategy: Strategy, l: Ledger, s: Signal, o: Observation): (Ledger, bool) {
    var moved := Moved(policy, l, TargetContracts(strategy, s), TargetUnits(strategy, s), o);
    if Forbidden(policy, strategy, s) then (Rejected(l), false)
    else if moved.free < 0.0 then
      if policy.onShortfall.RejectOrder? then (Rejected(l), false) else (Liquidated(policy, l, o), true)
    else (moved, false)
  }

  function Acted(policy: Policy, strategy: Strategy, l: Ledger, liquidated: bool, s: Signal, o: Observation): (Ledger, bool) {
    if liquidated then (Rejected(l), true) else Rebalanced(policy, strategy, l, s, o)
  }

  function Processed(policy: Policy, strategy: Strategy, l: Ledger, liquidated: bool, batch: seq<Signal>, o: Observation): (Ledger, bool) {
    if batch == [] then (l, liquidated)
    else
      var before := Processed(policy, strategy, l, liquidated, batch[..|batch| - 1], o);
      Acted(policy, strategy, before.0, before.1, batch[|batch| - 1], o)
  }

  // ---------------------------------------------------------------- a period

  function Opening(policy: Policy, l: Ledger, prior: real, first: bool, o: Observation): Ledger {
    Synchronized(policy, if first then l else SettledAt(policy, l, prior, o), o)
  }

  function Called(policy: Policy, l: Ledger, prior: real, first: bool, o: Observation): bool {
    BelowMaintenance(policy, Opening(policy, l, prior, first, o), o)
  }

  function Answered(policy: Policy, l: Ledger, prior: real, first: bool, o: Observation): Ledger {
    var opening := Opening(policy, l, prior, first, o);
    if BelowMaintenance(policy, opening, o) then Liquidated(policy, opening, o) else opening
  }

  /** Settle, synchronize margin, answer a margin call, act on the due signals. */
  function Period(policy: Policy, strategy: Strategy, l: Ledger, prior: real, first: bool, o: Observation, batch: seq<Signal>): (Ledger, bool) {
    Processed(policy, strategy, Answered(policy, l, prior, first, o), Called(policy, l, prior, first, o), batch, o)
  }

  // ---------------------------------------------------------------- what a period keeps

  /** Posted margin is between the maintenance and the initial margin of the position. */
  predicate Covered(policy: Policy, l: Ledger, o: Observation) {
    MarginLegal(policy, l, o) && !BelowMaintenance(policy, l, o)
  }

  predicate ShortsAllowed(policy: Policy, l: Ledger) { policy.shortAllowed || l.units >= 0.0 }

  function Handled(l: Ledger): nat { l.orders + l.rejected + l.liquidations }

  /** The same earnings so far: trades move neither variation, funding nor borrow cost. */
  predicate SameEarnings(a: Ledger, b: Ledger) { a.variation == b.variation && a.funding == b.funding && a.borrow == b.borrow }

  lemma {:induction false} ValueSplits(a: real, b: real, price: real)
    ensures Value(a - b, price) == Value(a, price) - Value(b, price)
  {
  }

  /** A trade pays for itself: equity falls by the fee exactly, and full initial margin is posted. */
  lemma {:induction false} MovedKeeps(policy: Policy, l: Ledger, contracts: real, units: real, o: Observation)
    requires policy.Valid() && o.Valid()
    ensures var m := Moved(policy, l, contracts, units, o);
      && Worth(m, o) == Worth(l, o) && SameEarnings(m, l)
      && Covered(policy, m, o) && m.margin == Required(policy, contracts, o.derivative)
      && Handled(m) == Handled(l) + 1 && m.liquidations == l.liquidations && m.rejected == l.rejected
  {
    hide Required, Maintenance, Value, TradeFees, TradeNotional;
    MarginOrder(policy, contracts, o.derivative);
    ValueSplits(units, l.units, o.underlying);
  }

  /** A target is affordable exactly when the equity left after fees covers the new hedge and its initial margin. */
  lemma {:induction false} AffordableExactly(policy: Policy, l: Ledger, contracts: real, units: real, o: Observation)
    ensures Moved(policy, l, contracts, units, o).free >= 0.0 <==>
            Equity(l, o) - TradeFees(policy, contracts - l.contracts, units - l.units, o)
              >= Value(units, o.underlying) + Required(policy, contracts, o.derivative)
  {
    hide Required, Value, TradeFees, TradeNotional;
    ValueSplits(units, l.units, o.underlying);
  }

  /** Liquidation turns everything into free cash, less the fee. */
  lemma {:induction false} LiquidatedKeeps(policy: Policy, l: Ledger, o: Observation)
    requires policy.Valid() && o.Valid()
    ensures var q := Liquidated(policy, l, o);
      && Worth(q, o) == Worth(l, o) && SameEarnings(q, l) && Covered(policy, q, o)
      && q.free == Equity(q, o) && q.contracts == q.units == q.margin == 0.0
      && Handled(q) == Handled(l) + 1 && q.liquidations == l.liquidations + 1
  {
    hide Required, Maintenance, TradeFees, TradeNotional;
    MarginOrder(policy, 0.0, o.derivative);
    assert Value(0.0, o.underlying) == 0.0;
  }

  /** Acting on one signal handles it exactly once and keeps worth, margin and the short rule. */
  lemma {:induction false} ActedKeeps(policy: Policy, strategy: Strategy, l: Ledger, liquidated: bool, s: Signal, o: Observation)
    requires policy.Valid() && o.Valid() && Covered(policy, l, o) && ShortsAllowed(policy, l)
    ensures var a := Acted(policy, strategy, l, liquidated, s, o);
      && Worth(a.0, o) == Worth(l, o) && SameEarnings(a.0, l) && Covered(policy, a.0, o) && ShortsAllowed(policy, a.0)
      && Handled(a.0) == Handled(l) + 1
  {
    hide Moved, Liquidated, Worth, Covered, TargetContracts, TargetUnits;
    MovedKeeps(policy, l, TargetContracts(strategy, s), TargetUnits(strategy, s), o);
    LiquidatedKeeps(policy, l, o);
    RejectedKeeps(policy, l, o);
    MovedTo(policy, l, TargetContracts(strategy, s), TargetUnits(strategy, s), o);
  }

  lemma {:induction false} MovedTo(policy: Policy, l: Ledger, contracts: real, units: real, o: Observation)
    ensures Moved(policy, l, contracts, units, o).units == units && Moved(policy, l, contracts, units, o).contracts == contracts
  {
  }

  lemma {:induction false} RejectedKeeps(policy: Policy, l: Ledger, o: Observation)
    ensures Worth(Rejected(l), o) == Worth(l, o) && (Covered(policy, Rejected(l), o) <==> Covered(policy, l, o))
    ensures SameEarnings(Rejected(l), l) && Handled(Rejected(l)) == Handled(l) + 1
  {
  }

  lemma {:induction false} ProcessedKeeps(policy: Policy, strategy: Strategy, l: Ledger, liquidated: bool, batch: seq<Signal>, o: Observation)
    requires policy.Valid() && o.Valid() && Covered(policy, l, o) && ShortsAllowed(policy, l)
    ensures var a := Processed(policy, strategy, l, liquidated, batch, o);
      && Worth(a.0, o) == Worth(l, o) && SameEarnings(a.0, l) && Covered(policy, a.0, o) && ShortsAllowed(policy, a.0)
      && Handled(a.0) == Handled(l) + |batch|
  {
    hide Worth, Covered, Handled, Acted, ShortsAllowed;
    if batch != [] {
      var front := batch[..|batch| - 1];
      ProcessedKeeps(policy, strategy, l, liquidated, front, o);
      var before := Processed(policy, strategy, l, liquidated, front, o);
      ActedKeeps(policy, strategy, before.0, before.1, batch[|batch| - 1], o);
    }
  }

  /** Once liquidated in a period, the rest of the batch is only rejected. */
  lemma {:induction false} LiquidatedRejectsRest(policy: Policy, strategy: Strategy, l: Ledger, batch: seq<Signal>, o: Observation)
    ensures Processed(policy, strategy, l, true, batch, o) == (l.(rejected := l.rejected + |batch|), true)
  {
    if batch != [] {
      LiquidatedRejectsRest(policy, strategy, l, batch[..|batch| - 1], o);
    }
  }

  /** Settlement pays exactly the period's variation less funding and borrow, and keeps margin non-negative. */
  lemma {:induction false} SettledKeeps(policy: Policy, l: Ledger, prior: real, o: Observation)
    requires l.margin >= 0.0
    ensures var s := SettledAt(policy, l, prior, o);
      && s.free + s.margin - l.free - l.margin == (s.variation - l.variation) - (s.funding - l.funding) - (s.borrow - l.borrow)
      && s.margin >= 0.0 && s.units == l.units && s.contracts == l.contracts && s.fees == l.fees && Handled(s) == Handled(l)
      && s.variation - l.variation == Variation(policy, l, prior, o)
  {
    hide Variation, Funding, Borrow, Charged;
    ChargedMeans(l, Variation(policy, l, prior, o) - Funding(policy, l, o) - Borrow(policy, l, o));
  }

  /** Holding no short position costs no borrow. */
  lemma {:induction false} BorrowOnlyShort(policy: Policy, l: Ledger, prior: real, o: Observation)
    requires policy.Valid() && o.Valid() && l.margin >= 0.0
    ensures var s := SettledAt(policy, l, prior, o);
      s.borrow >= l.borrow && (l.units >= 0.0 ==> s.borrow == l.borrow)
  {
    hide Variation, Funding, Charged;
    ChargedMeans(l, Variation(policy, l, prior, o) - Funding(policy, l, o) - Borrow(policy, l, o));
    var short := Max(-l.units, 0.0);
    assert Value(short, o.underlying) >= 0.0;
    assert Cost(Value(short, o.underlying), policy.borrowRate) >= 0.0;
  }

  /** Earnings so far, before fees. */
  function Earned(l: Ledger): real { l.variation - l.funding - l.borrow }

  /** A signal's order is executed exactly when its hedge is allowed and equity after fees pays for hedge and margin;
      the account is liquidated exactly when only the money is missing and the policy says so. */
  lemma {:induction false} RebalanceDecides(policy: Policy, strategy: Strategy, l: Ledger, s: Signal, o: Observation)
    ensures var contracts, units := TargetContracts(strategy, s), TargetUnits(strategy, s);
      var allowed := policy.shortAllowed || units >= 0.0;
      var paid := Equity(l, o) - TradeFees(policy, contracts - l.contracts, units - l.units, o)
                  >= Value(units, o.underlying) + Required(policy, contracts, o.derivative);
      var after := Rebalanced(policy, strategy, l, s, o);
      && (after.0.orders == l.orders + 1 <==> allowed && paid)
      && (after.0.liquidations == l.liquidations + 1 <==> allowed && !paid && policy.onShortfall.LiquidateAccount?)
      && (after.1 <==> after.0.liquidations == l.liquidations + 1)
      && (allowed && paid ==> after.0.contracts == contracts && after.0.units == units && after.0.free >= 0.0)
  {
    hide Equity, Value, Required, TradeFees, TradeNotional, TargetContracts, TargetUnits;
    AffordableExactly(policy, l, TargetContracts(strategy, s), TargetUnits(strategy, s), o);
  }

  /** A whole period: worth grows by what was settled and by the move of the underlying. */
  lemma {:induction false} PeriodKeeps(policy: Policy, strategy: Strategy, l: Ledger, prior: real, first: bool, o: Observation, batch: seq<Signal>)
    requires policy.Valid() && o.Valid() && l.margin >= 0.0 && ShortsAllowed(policy, l)
    ensures var p := Period(policy, strategy, l, prior, first, o, batch);
      && Worth(p.0, o) - Earned(p.0) == Worth(l, o) - Earned(l)
      && Covered(policy, p.0, o) && ShortsAllowed(policy, p.0)
      && Handled(p.0) == Handled(l) + |batch| + (if Called(policy, l, prior, first, o) then 1 else 0)
  {
    hide Worth, Covered, Processed;
    AnsweredKeeps(policy, l, prior, first, o);
    ProcessedKeeps(policy, strategy, Answered(policy, l, prior, first, o), Called(policy, l, prior, first, o), batch, o);
  }

  lemma {:induction false} AnsweredKeeps(policy: Policy, l: Ledger, prior: real, first: bool, o: Observation)
    requires policy.Valid() && o.Valid() && l.margin >= 0.0 && ShortsAllowed(policy, l)
    ensures var a := Answered(policy, l, prior, first, o);
      && Worth(a, o) - Earned(a) == Worth(l, o) - Earned(l)
      && Covered(policy, a, o) && ShortsAllowed(policy, a)
      && Handled(a) == Handled(l) + (if Called(policy, l, prior, first, o) then 1 else 0)
      && MarginLegal(policy, Opening(policy, l, prior, first, o), o)
  {
    hide SettledAt, Liquidated, Value, Synchronized, Required, Maintenance, Max;
    SettledKeeps(policy, l, prior, o);
    var settled := if first then l else SettledAt(policy, l, prior, o);
    MarginCallExactly(policy, settled, o);
    LiquidatedKeeps(policy, Synchronized(policy, settled, o), o);
  }

  // ---------------------------------------------------------------- free cash

  /** Free cash is negative only where it is the whole equity, or owed by an unmargined short. */
  predicate Funded(l: Ledger, o: Observation) {
    l.free >= 0.0 || l.free == Equity(l, o) || (l.units < 0.0 && l.margin == 0.0)
  }

  lemma {:induction false} FundedAndPositive(l: Ledger, o: Observation)
    requires o.Valid() && Funded(l, o) && Equity(l, o) > 0.0
    ensures l.free >= 0.0
  {
    assert l.units < 0.0 ==> Value(l.units, o.underlying) < 0.0;
  }

  /** Without contracts or a short position there is nothing to settle. */
  lemma {:induction false} IdleSettlesNothing(policy: Policy, l: Ledger, prior: real, o: Observation)
    requires l.contracts == 0.0 && l.units >= 0.0
    ensures SettledAt(policy, l, prior, o).free == l.free
  {
    assert Exposure(policy, 0.0, o.derivative - prior) == 0.0;
    assert Exposure(policy, 0.0, o.derivative) == 0.0;
    assert Cost(0.0, policy.fundingRate) == 0.0;
    assert Value(0.0, o.underlying) == 0.0 && Cost(0.0, policy.borrowRate) == 0.0;
  }

  /** Open contracts have a maintenance margin to miss. */
  lemma {:induction false} MaintenancePositive(policy: Policy, contracts: real, price: real)
    requires policy.Valid() && price > 0.0 && contracts != 0.0
    ensures Maintenance(policy, contracts, price) > 0.0
  {
    var size := Abs(contracts) * policy.multiplier;
    assert size > 0.0;
    assert size * price > 0.0;
    assert size * price * policy.maintenanceMargin > 0.0;
  }

  /** Settlement can overdraw free cash, but then no margin is left: a contract's holder is called,
      and only a short position without contracts stays as it is. */
  lemma {:induction false} AnsweredFunded(policy: Policy, l: Ledger, prior: real, first: bool, o: Observation)
    requires policy.Valid() && o.Valid() && l.margin >= 0.0 && l.free >= 0.0
    ensures var a := Answered(policy, l, prior, first, o);
      Funded(a, o) && (first && !Called(policy, l, prior, first, o) ==> a.free >= 0.0)
  {
    hide SettledAt, Liquidated, Value, Synchronized, Required, Maintenance, Max, BelowMaintenance, Equity, Abs;
    var settled := if first then l else SettledAt(policy, l, prior, o);
    if !first { SettledFree(policy, l, prior, o); }
    var opening := Synchronized(policy, settled, o);
    MarginCallExactly(policy, settled, o);
    LiquidatedKeeps(policy, opening, o);
    if settled.free < 0.0 {
      Overdrawn(policy, settled, o);
      if l.contracts == 0.0 && l.units >= 0.0 { IdleSettlesNothing(policy, l, prior, o); }
    }
  }

  lemma {:induction false} SettledFree(policy: Policy, l: Ledger, prior: real, o: Observation)
    requires l.margin >= 0.0 && l.free >= 0.0
    ensures var s := SettledAt(policy, l, prior, o);
      s.margin >= 0.0 && (s.free < 0.0 ==> s.margin == 0.0) && s.units == l.units && s.contracts == l.contracts
  {
    hide Variation, Funding, Borrow, Charged;
    ChargedMeans(l, Variation(policy, l, prior, o) - Funding(policy, l, o) - Borrow(policy, l, o));
  }

  /** Overdrawn without margin: called exactly when contracts are open. */
  lemma {:induction false} Overdrawn(policy: Policy, l: Ledger, o: Observation)
    requires policy.Valid() && o.Valid() && l.free < 0.0 && l.margin == 0.0
    ensures var s := Synchronized(policy, l, o);
      s == l && (BelowMaintenance(policy, s, o) <==> l.contracts != 0.0)
  {
    hide Required, Maintenance;
    MarginOrder(policy, l.contracts, o.derivative);
    if l.contracts != 0.0 { MaintenancePositive(policy, l.contracts, o.derivative); }
  }

  lemma {:induction false} ProcessedFunded(policy: Policy, strategy: Strategy, l: Ledger, liquidated: bool, batch: seq<Signal>, o: Observation)
    requires policy.Valid() && o.Valid() && Funded(l, o)
    ensures Funded(Processed(policy, strategy, l, liquidated, batch, o).0, o)
  {
    hide Funded, Acted;
    if batch != [] {
      var front := batch[..|batch| - 1];
      ProcessedFunded(policy, strategy, l, liquidated, front, o);
      var before := Processed(policy, strategy, l, liquidated, front, o);
      ActedFunded(policy, strategy, before.0, before.1, batch[|batch| - 1], o);
    }
  }

  lemma {:induction false} ActedFunded(policy: Policy, strategy: Strategy, l: Ledger, liquidated: bool, s: Signal, o: Observation)
    requires policy.Valid() && o.Valid() && Funded(l, o)
    ensures Funded(Acted(policy, strategy, l, liquidated, s, o).0, o)
  {
    hide Moved, Liquidated, TargetContracts, TargetUnits, Value;
    LiquidatedKeeps(policy, l, o);
  }
}
