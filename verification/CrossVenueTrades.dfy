/** Whole trades: submission, the end of a run, and what zero latency guarantees. */
module CrossVenueTrades {
  import opened CrossVenueBooks
  import opened CrossVenueLaws
  import opened Outcomes
  import opened RealArithmetic

  function StartBooks(setup: Setup): Books
    requires setup.Valid()
  {
    var none := map v | v in setup.cash :: 0.0;
    Books(setup.cash, setup.positions, none, map v | v in setup.positions :: 0.0, map[], map[], 0, map[], map[], 0, 0, 0, 0, 0.0, 0.0, 0.0, 0.0)
  }

  const NO_FLOWS: Flows := Flows(0.0, 0.0, 0.0, 0.0)

  lemma {:induction false} StartConserves(setup: Setup)
    requires setup.Valid()
    ensures Conserved(setup, StartBooks(setup), NO_FLOWS)
  {
    hide Setup.Valid;
    RouteVenues(setup);
    var b, r := StartBooks(setup), setup.route;
    MapsAgree(b.cash, setup.cash[r.buy := setup.cash[r.buy]][r.sell := setup.cash[r.sell]]);
    MapsAgree(b.positions, setup.positions[r.buy := setup.positions[r.buy]][r.sell := setup.positions[r.sell]]);
  }

  lemma {:induction false} StartReserves(setup: Setup)
    requires setup.Valid()
    ensures Shaped(setup, StartBooks(setup)) && Reserved(setup, StartBooks(setup), map[])
  {
    hide BuyReserve, SellReserve;
  }

  lemma {:induction false} StartIsSound(setup: Setup)
    requires setup.Valid()
    ensures Inv(setup, StartBooks(setup), map[], NO_FLOWS)
  {
    hide Shaped, Reserved, Conserved, Setup.Valid, BuyReserve, SellReserve;
    StartConserves(setup);
    StartReserves(setup);
  }

  // ---------------------------------------------------------------- submission

  /** The live orders once a trade is submitted. */
  function WithTrade(live: Live, buy: Order, sell: Order): Live { live[buy.sequence := buy][sell.sequence := sell] }

  lemma {:induction false} TradeSums(setup: Setup, b: Books, live: Live, buy: Order, sell: Order)
    requires Numbered(setup, b, live) && buy.sequence == b.nextSequence && sell.sequence == b.nextSequence + 1
    ensures var after := WithTrade(live, buy, sell);
      && Total(BuyReserve(after), b.nextTrade + 1) == Total(BuyReserve(live), b.nextTrade) + buy.reservedCash
      && Total(SellReserve(after), b.nextTrade + 1) == Total(SellReserve(live), b.nextTrade) + sell.reservedQuantity
      && Total(OpenTrade(after), b.nextTrade + 1) == Total(OpenTrade(live), b.nextTrade) + 1.0
  {
    var after, n := WithTrade(live, buy, sell), b.nextTrade;
    TotalSame(BuyReserve(live), BuyReserve(after), n);
    TotalSame(SellReserve(live), SellReserve(after), n);
    TotalSame(OpenTrade(live), OpenTrade(after), n);
  }

  lemma {:induction false} TradeNumbered(setup: Setup, b: Books, after: Books, live: Live, buy: Order, sell: Order)
    requires Numbered(setup, b, live) && OrderSound(setup, buy, b.nextSequence) && OrderSound(setup, sell, b.nextSequence + 1)
    requires after.nextSequence == b.nextSequence + 2 && after.nextTrade == b.nextTrade + 1
    requires after.decisions == b.decisions + 1 && after.orders == b.orders + 2
    ensures Numbered(setup, after, WithTrade(live, buy, sell))
  {
  }

  lemma {:induction false} TradeLegs(setup: Setup, b: Books, after: Books, live: Live, buy: Order, sell: Order)
    requires Numbered(setup, b, live) && Legs(b, live) && buy.sequence == b.nextSequence && sell.sequence == b.nextSequence + 1
    requires after.nextTrade == b.nextTrade + 1 && after.open == b.open + 1
    requires after.remaining == b.remaining[b.nextTrade := 2] && after.filled == b.filled[b.nextTrade := map[]]
    ensures Legs(after, WithTrade(live, buy, sell)) && (Balanced(b) ==> Total(Imbalance(after.filled), after.nextTrade) == Total(Imbalance(b.filled), b.nextTrade))
  {
    hide Total, BuyReserve, SellReserve;
    var more, n := WithTrade(live, buy, sell), b.nextTrade;
    TradeSums(setup, b, live, buy, sell);
    forall t: nat | t < n ensures LegsAt(after, more, t) { assert LegsAt(b, live, t); }
    assert LegsAt(after, more, n);
    ImbalanceGrows(b.filled, after.filled, n);
  }

  lemma {:induction false} ImbalanceGrows(before: map<nat, map<Side, real>>, after: map<nat, map<Side, real>>, n: nat)
    requires after == before[n := map[]]
    ensures Total(Imbalance(after), n + 1) == Total(Imbalance(before), n)
  {
    TotalSame(Imbalance(before), Imbalance(after), n);
  }

  lemma {:induction false} CostCovered(quantity: real, cost: Cost, ask: real, available: real)
    requires UnitCost(cost, ask) > 0.0 && quantity <= (available - cost.fixedFee) / UnitCost(cost, ask)
    requires quantity > 0.0 && cost.fixedFee >= 0.0
    ensures 0.0 <= NetCost(cost, quantity, ask) <= available
  {
    hide UnitCost, NetCost;
    CoveredProduct(quantity, UnitCost(cost, ask), available - cost.fixedFee);
    CostByUnits(cost, quantity, ask);
  }

  lemma {:induction false} CoveredProduct(quantity: real, unit: real, most: real)
    requires unit > 0.0 && quantity > 0.0 && quantity <= most / unit
    ensures 0.0 < quantity * unit <= most
  {
    TimesUnit(most / unit, quantity, unit);
    QuotientTimes(most, unit);
  }

  lemma {:induction false} CostByUnits(cost: Cost, quantity: real, ask: real)
    ensures NetCost(cost, quantity, ask) == quantity * UnitCost(cost, ask) + cost.fixedFee
  {
    Grouped(quantity, ask, cost.feeRate);
  }

  lemma {:induction false} Grouped(quantity: real, ask: real, rate: real)
    ensures quantity * ask * (1.0 + rate) == quantity * (ask * (1.0 + rate))
  {
  }

  lemma {:induction false} AffordableCosts(setup: Setup, b: Books, buy: Quote, sell: Quote)
    requires Shaped(setup, b) && buy.Valid() && sell.Valid() && Affordable(setup, b, buy, sell) > 0.0
    ensures var quantity := Affordable(setup, b, buy, sell);
      0.0 <= NetCost(setup.costs[setup.route.buy], quantity, buy.ask) <= b.cash[setup.route.buy] - b.reservedCash[setup.route.buy]
  {
    hide MatchedQuantity, NetCost;
    var cost := setup.costs[setup.route.buy];
    CostCovered(Affordable(setup, b, buy, sell), cost, buy.ask, b.cash[setup.route.buy] - b.reservedCash[setup.route.buy]);
  }

  /** Submitting an eligible trade keeps every law; its reservations cannot be refused. */
  lemma {:induction false} SubmitKeeps(setup: Setup, b: Books, live: Live, f: Flows, timestamp: int, started: bool)
    requires Inv(setup, b, live, f) && Eligible(setup, b, timestamp, started) > 0.0
    ensures var r := setup.route;
      r.buy in b.latest && r.buy in b.reservedCash && r.sell in b.reservedPositions
      && setup.fills[r.buy].ratio != 0.0 && setup.fills[r.sell].ratio != 0.0
    ensures var quantity := Eligible(setup, b, timestamp, started);
      var buy, sell := BuyOrder(setup, b, timestamp, quantity), SellOrder(setup, b, timestamp, quantity);
      Inv(setup, Submitted(setup, b, timestamp, buy, sell), WithTrade(live, buy, sell), f)
  {
    hide Total, Eligible, Affordable, NetCost, Legs, Imbalance, Conserved, Reserved, Shaped, Setup.Valid, Numbered;
    ShapedValid(setup, b);
    RouteVenues(setup);
    ShapedKeys(setup, b, setup.route.buy);
    ShapedKeys(setup, b, setup.route.sell);
    EligibleFacts(setup, b, timestamp, started);
    QuoteValid(setup, b, setup.route.buy);
    QuoteValid(setup, b, setup.route.sell);
    var quantity := Eligible(setup, b, timestamp, started);
    var buy, sell := BuyOrder(setup, b, timestamp, quantity), SellOrder(setup, b, timestamp, quantity);
    AffordableCosts(setup, b, b.latest[setup.route.buy].quote, b.latest[setup.route.sell].quote);
    var after := Submitted(setup, b, timestamp, buy, sell);
    NextNumbers(setup, b, live);
    TradeNumbered(setup, b, after, live, buy, sell);
    TradeLegs(setup, b, after, live, buy, sell);
    TradeSums(setup, b, live, buy, sell);
    SubmitReserves(setup, b, after, live, buy, sell);
    SubmitConserves(setup, b, after, f);
  }

  lemma {:induction false} NextNumbers(setup: Setup, b: Books, live: Live)
    requires Numbered(setup, b, live)
    ensures b.nextSequence == 2 * b.nextTrade && b.nextSequence / 2 == b.nextTrade && (b.nextSequence + 1) / 2 == b.nextTrade
    ensures b.nextSequence % 2 == 0 && (b.nextSequence + 1) % 2 == 1
  {
  }

  lemma {:induction false} SubmitReserves(setup: Setup, b: Books, after: Books, live: Live, buy: Order, sell: Order)
    requires Shaped(setup, b) && Reserved(setup, b, live) && buy.venue == setup.route.buy && sell.venue == setup.route.sell
    requires buy.venue in b.reservedCash && sell.venue in b.reservedPositions && buy.venue in b.cash
    requires after.reservedCash == b.reservedCash[buy.venue := b.reservedCash[buy.venue] + buy.reservedCash]
    requires after.reservedPositions == b.reservedPositions[sell.venue := b.reservedPositions[sell.venue] + sell.reservedQuantity]
    requires after.cash == b.cash && after.positions == b.positions && after.latest == b.latest && after.nextTrade == b.nextTrade + 1
    requires 0.0 <= buy.reservedCash <= b.cash[buy.venue] - b.reservedCash[buy.venue] && sell.reservedQuantity >= 0.0
    requires var more := WithTrade(live, buy, sell);
      Total(BuyReserve(more), b.nextTrade + 1) == Total(BuyReserve(live), b.nextTrade) + buy.reservedCash
      && Total(SellReserve(more), b.nextTrade + 1) == Total(SellReserve(live), b.nextTrade) + sell.reservedQuantity
    ensures Shaped(setup, after) && Reserved(setup, after, WithTrade(live, buy, sell))
  {
    hide Total, BuyReserve, SellReserve, Shaped, Setup.Valid, WithTrade;
    RouteIn(setup, b);
    ShapedIgnores(setup, b, after);
    assert NonNegative(after.reservedCash) && NonNegative(after.reservedPositions);
  }

  lemma {:induction false} SubmitConserves(setup: Setup, b: Books, after: Books, f: Flows)
    requires setup.Valid() && Conserved(setup, b, f) && after.cash == b.cash && after.positions == b.positions && after.gross == b.gross
    requires after.fees == b.fees && after.filledBuy == b.filledBuy && after.filledSell == b.filledSell
    ensures Conserved(setup, after, f)
  {
    hide Setup.Valid;
  }

  // ---------------------------------------------------------------- the end of a run

  lemma {:induction false} SumUpdate(venues: seq<Venue>, m: map<Venue, real>, v: Venue, x: real)
    requires forall i, j :: 0 <= i < j < |venues| ==> venues[i] != venues[j]
    requires forall u :: u in venues ==> u in m
    ensures v in venues ==> SumOver(venues, m[v := x]) == SumOver(venues, m) - m[v] + x
    ensures v !in venues ==> SumOver(venues, m[v := x]) == SumOver(venues, m)
  {
    if venues != [] {
      var rest := venues[1..];
      assert venues[0] !in rest;
      SumUpdate(rest, m, v, x);
    }
  }

  /** Total cash moves by what was sold, bought and paid in fees. */
  lemma {:induction false} CashTotal(setup: Setup, b: Books, f: Flows)
    requires setup.Valid() && Conserved(setup, b, f) && (forall v :: v in setup.venues ==> v in b.cash && v in b.positions)
    ensures SumOver(setup.venues, b.cash) == SumOver(setup.venues, setup.cash) + f.sold - f.bought - b.fees
    ensures SumOver(setup.venues, b.positions) == SumOver(setup.venues, setup.positions) + b.filledBuy - b.filledSell
  {
    hide SumOver;
    var r := setup.route;
    SumUpdate(setup.venues, setup.cash, r.buy, setup.cash[r.buy] - f.bought - f.buyFees);
    SumUpdate(setup.venues, setup.cash[r.buy := setup.cash[r.buy] - f.bought - f.buyFees], r.sell, setup.cash[r.sell] + f.sold - f.sellFees);
    SumUpdate(setup.venues, setup.positions, r.buy, setup.positions[r.buy] + b.filledBuy);
    SumUpdate(setup.venues, setup.positions[r.buy := setup.positions[r.buy] + b.filledBuy], r.sell, setup.positions[r.sell] - b.filledSell);
  }

  /** With no live order left, nothing is reserved, no route is open, every trade
      bought what it sold, and totals are conserved. */
  lemma {:induction false} DrainedBooks(setup: Setup, b: Books, f: Flows)
    requires Inv(setup, b, map[], f)
    ensures (forall v :: v in b.reservedCash ==> b.reservedCash[v] == 0.0) && (forall v :: v in b.reservedPositions ==> b.reservedPositions[v] == 0.0)
    ensures b.open == 0 && b.remaining == map[] && b.filled == map[] && b.filledBuy == b.filledSell
    ensures SumOver(setup.venues, b.positions) == SumOver(setup.venues, setup.positions)
    ensures SumOver(setup.venues, b.cash) == SumOver(setup.venues, setup.cash) + f.sold - f.bought - b.fees
  {
    hide SumOver;
    NothingLive(setup, b, f);
    CashTotal(setup, b, f);
  }

  lemma {:induction false} NothingLive(setup: Setup, b: Books, f: Flows)
    requires Inv(setup, b, map[], f)
    ensures (forall v :: v in b.reservedCash ==> b.reservedCash[v] == 0.0) && (forall v :: v in b.reservedPositions ==> b.reservedPositions[v] == 0.0)
    ensures b.open == 0 && b.remaining == map[] && b.filled == map[] && b.filledBuy == b.filledSell
  {
    hide Total, Conserved;
    var none: Live := map[];
    TotalZero(BuyReserve(none), b.nextTrade);
    TotalZero(SellReserve(none), b.nextTrade);
    TotalZero(OpenTrade(none), b.nextTrade);
    forall t: nat | t < b.nextTrade ensures t !in b.remaining && t !in b.filled { assert LegsAt(b, none, t); }
    TotalZero(Imbalance(b.filled), b.nextTrade);
  }

  // ---------------------------------------------------------------- zero latency

  lemma {:induction false} WholeRequest(quantity: real, ratio: real, displayed: real)
    requires ratio > 0.0 && quantity <= displayed * ratio
    ensures Filling(quantity / ratio, displayed, ratio) == quantity
  {
    QuotientTimes(quantity, ratio);
    if quantity / ratio > displayed { StrictTimes(quantity / ratio, displayed, ratio); }
  }

  lemma {:induction false} StrictTimes(a: real, b: real, unit: real)
    requires unit > 0.0 && b < a
    ensures b * unit < a * unit
  {
  }

  lemma {:induction false} QuotientCovers(quantity: real, cost: Cost, ask: real, available: real)
    requires ask > 0.0 && cost.feeRate >= 0.0 && quantity > 0.0 && NetCost(cost, quantity, ask) <= available
    ensures UnitCost(cost, ask) > 0.0 && available > cost.fixedFee
    ensures quantity <= (available - cost.fixedFee) / UnitCost(cost, ask)
  {
    hide NetCost;
    CostByUnits(cost, quantity, ask);
    assert UnitCost(cost, ask) > 0.0;
    ProductCovers(quantity, UnitCost(cost, ask), available - cost.fixedFee);
  }

  lemma {:induction false} ProductCovers(quantity: real, unit: real, most: real)
    requires unit > 0.0 && quantity > 0.0 && quantity * unit <= most
    ensures 0.0 < most && quantity <= most / unit
  {
    assert quantity * unit > 0.0;
    QuotientTimes(most, unit);
    if most / unit < quantity { StrictTimes(quantity, most / unit, unit); }
  }

  lemma {:induction false} CostParts(cost: Cost, quantity: real, price: real)
    ensures NetCost(cost, quantity, price) == Notional(quantity, price) + Fee(cost, Notional(quantity, price))
    ensures NetProceeds(cost, quantity, price) == Notional(quantity, price) - Fee(cost, Notional(quantity, price))
  {
    Distributes(quantity * price, cost.feeRate);
  }

  lemma {:induction false} Distributes(x: real, rate: real)
    ensures x * (1.0 + rate) == x + x * rate && x * (1.0 - rate) == x - x * rate
  {
  }

  lemma {:induction false} EdgeGain(setup: Setup, buy: Quote, sell: Quote, quantity: real)
    requires setup.Valid() && buy.Valid() && quantity > 0.0 && EdgeEligible(setup, buy, sell, quantity)
    ensures NetProceeds(setup.costs[setup.route.sell], quantity, sell.bid) - NetCost(setup.costs[setup.route.buy], quantity, buy.ask)
         >= setup.minimumEdge * Notional(quantity, buy.ask) >= 0.0
  {
    hide NetProceeds, NetCost, Setup.Valid;
    MinimumEdge(setup);
    var gain := NetProceeds(setup.costs[setup.route.sell], quantity, sell.bid) - NetCost(setup.costs[setup.route.buy], quantity, buy.ask);
    var notional := quantity * buy.ask;
    assert notional > 0.0;
    QuotientTimes(gain, notional);
    TimesUnit(gain / notional, setup.minimumEdge, notional);
    TimesUnit(setup.minimumEdge, 0.0, notional);
  }

  lemma {:induction false} MinimumEdge(setup: Setup)
    requires setup.Valid()
    ensures setup.minimumEdge >= 0.0 && setup.route.buy in setup.costs && setup.route.sell in setup.costs
    ensures setup.route.buy in setup.fills && setup.route.sell in setup.fills
  {
  }

  /** An arriving buy leg finds its whole quantity while its quote and reservation stand. */
  lemma {:induction false} BuyLegFillsAll(setup: Setup, b: Books, o: Order, q: Quote, quantity: real)
    requires Shaped(setup, b) && o.venue in setup.venues && q.Valid() && quantity > 0.0
    requires setup.fills[o.venue].ratio > 0.0 && o.requested == quantity / setup.fills[o.venue].ratio
    requires quantity <= Depth(q.askSize, setup.fills[o.venue])
    requires NetCost(setup.costs[o.venue], quantity, q.ask) <= b.cash[o.venue] - b.reservedCash[o.venue]
    ensures BuyQuantity(setup, b, o, q) == quantity
  {
    hide Filling, Shown, NetCost;
    var rule, cost := setup.fills[o.venue], setup.costs[o.venue];
    WholeRequest(quantity, rule.ratio, Shown(q.askSize, rule));
    QuotientCovers(quantity, cost, q.ask, b.cash[o.venue] - b.reservedCash[o.venue]);
  }

  lemma {:induction false} SellLegFillsAll(setup: Setup, b: Books, o: Order, q: Quote, quantity: real)
    requires Shaped(setup, b) && o.venue in setup.venues && q.Valid() && quantity > 0.0
    requires setup.fills[o.venue].ratio > 0.0 && o.requested == quantity / setup.fills[o.venue].ratio
    requires quantity <= Depth(q.bidSize, setup.fills[o.venue])
    requires setup.shortSales || quantity <= b.positions[o.venue] - b.reservedPositions[o.venue]
    requires NetProceeds(setup.costs[o.venue], quantity, q.bid) >= 0.0 && b.cash[o.venue] >= 0.0
    ensures SellQuantity(setup, b, o, q) == quantity
  {
    hide NetProceeds, NetCost, Fee, Notional, Filling, Shown;
    var rule := setup.fills[o.venue];
    WholeRequest(quantity, rule.ratio, Shown(q.bidSize, rule));
    CostParts(setup.costs[o.venue], quantity, q.bid);
  }

  lemma {:induction false} AffordableBounds(setup: Setup, b: Books, buy: Quote, sell: Quote)
    requires Shaped(setup, b) && buy.Valid() && sell.Valid() && Affordable(setup, b, buy, sell) > 0.0
    ensures var quantity := Affordable(setup, b, buy, sell);
      && quantity <= Depth(buy.askSize, setup.fills[setup.route.buy]) && quantity <= Depth(sell.bidSize, setup.fills[setup.route.sell])
      && (setup.shortSales || quantity <= b.positions[setup.route.sell] - b.reservedPositions[setup.route.sell])
  {
    hide MatchedQuantity, Depth;
    MatchedBounds(setup, buy, sell);
  }

  lemma {:induction false} MatchedBounds(setup: Setup, buy: Quote, sell: Quote)
    requires setup.Valid()
    ensures MatchedQuantity(setup, buy, sell) <= Depth(buy.askSize, setup.fills[setup.route.buy])
    ensures MatchedQuantity(setup, buy, sell) <= Depth(sell.bidSize, setup.fills[setup.route.sell])
  {
    hide Depth;
  }

  lemma {:induction false} LegExecutes(setup: Setup, b: Books, live: Live, f: Flows, s: nat, q: Quote, quantity: real)
    requires Inv(setup, b, live, f) && s in live && live[s].venue in b.latest && live[s].venue in setup.venues
    requires live[s].venue in b.reservedCash && live[s].venue in b.reservedPositions
    requires b.latest[live[s].venue].quote == q && q.venue in setup.clocks && q.Valid() && Fresh(setup, live[s].arrivalAt, b.latest[live[s].venue])
    requires quantity > 0.0 && Shaped(setup, Released(b, live[s]))
    requires quantity == if live[s].side.Buy? then BuyQuantity(setup, Released(b, live[s]), live[s], q)
                         else SellQuantity(setup, Released(b, live[s]), live[s], q)
    ensures var o := live[s];
      var released := Released(b, o);
      var price := if o.side.Buy? then q.ask else q.bid;
      var notional := Notional(quantity, price);
      var fee := Fee(setup.costs[o.venue], notional);
      o.venue in released.cash && o.venue in released.positions && ArrivingQuantity(setup, b, o) == quantity
      && Executed(setup, b, o)
         == Completed(if o.side.Buy? then Bought(released, o.venue, quantity, notional, fee) else Sold(released, o.venue, quantity, notional, fee),
                      o, quantity)
  {
    hide Total, Legs, Reserved, Imbalance, Conserved, Numbered, Shaped, Setup.Valid, BuyQuantity, SellQuantity, NonNegative, Notional, Fee,
         Completed, Fresh;
    var o := live[s];
    var released := Released(b, o);
    ReleaseKeeps(setup, b, live, s);
    ShapedValid(setup, b);
    LegVenue(setup, b, live, s);
    ShapedKeys(setup, released, o.venue);
    ReservedNonNegative(setup, released, live - {s});
    ReleaseConserves(setup, b, o, f);
    if o.side.Buy? {
      BuyFillKeeps(setup, released, live - {s}, f, o, q);
    } else {
      SellFillKeeps(setup, released, live - {s}, f, o, q);
    }
  }

  lemma {:induction false} FirstLeg(b: Books, o: Order, quantity: real)
    requires o.trade in b.filled && b.filled[o.trade] == map[] && o.trade in b.remaining && b.remaining[o.trade] == 2
    ensures Completed(b, o, quantity)
         == Ok(b.(filled := b.filled[o.trade := map[o.side := quantity]], remaining := b.remaining[o.trade := 1]))
  {
    var none: map<Side, real> := map[];
    assert none[o.side := quantity] == map[o.side := quantity];
  }

  lemma {:induction false} SecondLeg(b: Books, o: Order, quantity: real)
    requires o.side.Sell? && o.trade in b.filled && b.filled[o.trade] == map[Buy := quantity]
    requires o.trade in b.remaining && b.remaining[o.trade] == 1 && b.open >= 1
    ensures Completed(b, o, quantity).Ok?
  {
  }

  /** With both latencies zero, a submitted trade fills both legs at exactly the
      matched quantity, cannot leave residual risk, and gains at least the minimum edge. */
  lemma {:induction false} ZeroLatencyTrade(setup: Setup, b: Books, live: Live, f: Flows, timestamp: int, started: bool)
    returns (bought: Books, done: Books, flows: Flows)
    requires Inv(setup, b, live, f) && Eligible(setup, b, timestamp, started) > 0.0
    requires setup.route.buyLatencyMs == 0 && setup.route.sellLatencyMs == 0
    ensures var r := setup.route;
      r.buy in b.latest && r.buy in b.reservedCash && r.sell in b.reservedPositions
      && setup.fills[r.buy].ratio != 0.0 && setup.fills[r.sell].ratio != 0.0 && r.buy in setup.venues && r.sell in setup.venues
    ensures var quantity := Eligible(setup, b, timestamp, started);
      var buy, sell := BuyOrder(setup, b, timestamp, quantity), SellOrder(setup, b, timestamp, quantity);
      var submitted := Submitted(setup, b, timestamp, buy, sell);
      && Shaped(setup, submitted) && Executed(setup, submitted, buy) == Ok(bought)
      && Shaped(setup, bought) && Executed(setup, bought, sell) == Ok(done)
      && Immediate(timestamp, buy, sell) == [buy, sell]
      && done.filledBuy == b.filledBuy + quantity && done.filledSell == b.filledSell + quantity
      && Inv(setup, done, live, flows) && done.pending == b.pending
      && flows.bought == f.bought + Notional(quantity, b.latest[setup.route.buy].quote.ask)
      && Gain(flows) - Gain(f) >= setup.minimumEdge * Notional(quantity, b.latest[setup.route.buy].quote.ask) >= 0.0
  {
    hide Total, Legs, Reserved, Imbalance, Conserved, Numbered, Shaped, Setup.Valid, BuyQuantity, SellQuantity, NonNegative, Notional, Fee,
         Completed, Executed, NetCost, NetProceeds, Affordable, EdgeEligible, Balanced;
    var r, quantity := setup.route, Eligible(setup, b, timestamp, started);
    SubmitKeeps(setup, b, live, f, timestamp, started);
    EligibleTrade(setup, b, timestamp, started);
    var bid, ask := b.latest[r.sell].quote.bid, b.latest[r.buy].quote.ask;
    var buy, sell := BuyOrder(setup, b, timestamp, quantity), SellOrder(setup, b, timestamp, quantity);
    var submitted := Submitted(setup, b, timestamp, buy, sell);
    var more := WithTrade(live, buy, sell);
    OpenNonNegative(b, live);
    bought := BuyFirst(setup, b, submitted, live, more, f, timestamp, started, quantity, buy, sell);
    var boughtFlows := f.(bought := f.bought + Notional(quantity, ask), buyFees := f.buyFees + Fee(setup.costs[r.buy], Notional(quantity, ask)));
    done := SellSecond(setup, b, bought, more - {buy.sequence}, boughtFlows, timestamp, started, quantity, sell);
    flows := boughtFlows.(sold := f.sold + Notional(quantity, bid), sellFees := f.sellFees + Fee(setup.costs[r.sell], Notional(quantity, bid)));
    CostParts(setup.costs[r.buy], quantity, ask);
    CostParts(setup.costs[r.sell], quantity, bid);
    EdgeGain(setup, b.latest[r.buy].quote, b.latest[r.sell].quote, quantity);
    TradeGone(setup, b, live, buy, sell);
  }

  /** What the fills have earned after fees. */
  function Gain(f: Flows): real { f.sold - f.bought - f.buyFees - f.sellFees }

  lemma {:induction false} TradeGone(setup: Setup, b: Books, live: Live, buy: Order, sell: Order)
    requires Numbered(setup, b, live) && buy.sequence == b.nextSequence && sell.sequence == b.nextSequence + 1
    ensures WithTrade(live, buy, sell) - {buy.sequence} - {sell.sequence} == live
  {
    var left := WithTrade(live, buy, sell) - {buy.sequence} - {sell.sequence};
    assert forall s :: s in left <==> s in live;
    assert forall s :: s in live ==> left[s] == live[s];
  }

  lemma {:induction false} EligibleTrade(setup: Setup, b: Books, timestamp: int, started: bool)
    requires Shaped(setup, b) && Eligible(setup, b, timestamp, started) > 0.0
    ensures var r, quantity := setup.route, Eligible(setup, b, timestamp, started);
      && setup.Valid() && r.buy in setup.venues && r.sell in setup.venues && r.buy in b.latest && r.sell in b.latest
      && r.buy in setup.costs && r.sell in setup.costs
      && setup.fills[r.buy].ratio > 0.0 && setup.fills[r.sell].ratio > 0.0
      && b.latest[r.buy].quote.Valid() && b.latest[r.sell].quote.Valid()
      && Fresh(setup, timestamp, b.latest[r.buy]) && Fresh(setup, timestamp, b.latest[r.sell])
      && quantity == Affordable(setup, b, b.latest[r.buy].quote, b.latest[r.sell].quote)
      && EdgeEligible(setup, b.latest[r.buy].quote, b.latest[r.sell].quote, quantity)
  {
    hide EdgeEligible, Affordable;
    EligibleFacts(setup, b, timestamp, started);
  }

  lemma {:induction false} BuyFirst(setup: Setup, b: Books, submitted: Books, live: Live, more: Live, f: Flows, timestamp: int, started: bool,
                                    quantity: real, buy: Order, sell: Order) returns (bought: Books)
    requires Inv(setup, b, live, f) && quantity == Eligible(setup, b, timestamp, started) > 0.0
    requires setup.route.buyLatencyMs == 0 && setup.route.sellLatencyMs == 0
    requires setup.route.buy in b.latest && setup.route.buy in b.reservedCash && setup.route.sell in b.reservedPositions
    requires setup.fills[setup.route.buy].ratio != 0.0 && setup.fills[setup.route.sell].ratio != 0.0
    requires buy == BuyOrder(setup, b, timestamp, quantity) && sell == SellOrder(setup, b, timestamp, quantity)
    requires submitted == Submitted(setup, b, timestamp, buy, sell) && more == WithTrade(live, buy, sell) && Inv(setup, submitted, more, f)
    ensures buy.venue in setup.venues && Executed(setup, submitted, buy) == Ok(bought)
    ensures var notional := Notional(quantity, b.latest[setup.route.buy].quote.ask);
      var fee := Fee(setup.costs[setup.route.buy], notional);
      && Inv(setup, bought, more - {buy.sequence}, f.(bought := f.bought + notional, buyFees := f.buyFees + fee))
      && bought.filledBuy == b.filledBuy + quantity && bought.filledSell == b.filledSell && bought.pending == b.pending && bought.latest == b.latest
      && bought.positions.Keys == b.positions.Keys && bought.reservedPositions == submitted.reservedPositions
      && setup.route.sell in b.positions && setup.route.sell in bought.positions
      && bought.positions[setup.route.sell] == b.positions[setup.route.sell]
      && b.nextTrade in bought.filled && bought.filled[b.nextTrade] == map[Buy := quantity]
      && b.nextTrade in bought.remaining && bought.remaining[b.nextTrade] == 1 && bought.open == b.open + 1
  {
    hide Total, Legs, Reserved, Imbalance, Conserved, Numbered, Shaped, Setup.Valid, BuyQuantity, SellQuantity, NonNegative, Notional, Fee,
         Completed, Executed, NetCost, NetProceeds, Affordable, EdgeEligible, Balanced, MatchedQuantity, Fresh, Depth;
    var r := setup.route;
    EligibleTrade(setup, b, timestamp, started);
    var q := b.latest[r.buy].quote;
    QuoteValid(setup, b, r.buy);
    ShapedKeys(setup, b, r.buy);
    ShapedKeys(setup, b, r.sell);
    RouteVenues(setup);
    AffordableBounds(setup, b, q, b.latest[r.sell].quote);
    AffordableCosts(setup, b, q, b.latest[r.sell].quote);
    ReleaseKeeps(setup, submitted, more, buy.sequence);
    BuyLegFillsAll(setup, Released(submitted, buy), buy, q, quantity);
    ReserveRestored(b.reservedCash, r.buy, buy.reservedCash);
    LegExecutes(setup, submitted, more, f, buy.sequence, q, quantity);
    var notional := Notional(quantity, q.ask);
    var fee := Fee(setup.costs[r.buy], notional);
    var filled := Bought(Released(submitted, buy), r.buy, quantity, notional, fee);
    FirstLeg(filled, buy, quantity);
    bought := Completed(filled, buy, quantity).value;
    ExecuteKeeps(setup, submitted, more, f, buy.sequence);
  }

  /** The sell leg of a trade whose buy leg has just filled whole. */
  lemma {:induction false} SellSecond(setup: Setup, b: Books, bought: Books, rest: Live, f: Flows, timestamp: int, started: bool,
                                      quantity: real, sell: Order) returns (done: Books)
    requires Shaped(setup, b) && quantity == Eligible(setup, b, timestamp, started) > 0.0 && setup.route.sellLatencyMs == 0
    requires setup.fills[setup.route.sell].ratio != 0.0 && setup.route.sell in b.reservedPositions && setup.route.sell in b.positions
    requires sell == SellOrder(setup, b, timestamp, quantity)
    requires Inv(setup, bought, rest, f) && sell.sequence in rest && rest[sell.sequence] == sell && bought.latest == b.latest
    requires setup.route.sell in bought.positions && bought.positions[setup.route.sell] == b.positions[setup.route.sell]
    requires bought.reservedPositions == b.reservedPositions[sell.venue := b.reservedPositions[sell.venue] + sell.reservedQuantity]
    requires b.nextTrade in bought.filled && bought.filled[b.nextTrade] == map[Buy := quantity]
    requires b.nextTrade in bought.remaining && bought.remaining[b.nextTrade] == 1 && bought.open >= 1
    ensures sell.venue in setup.venues && Executed(setup, bought, sell) == Ok(done) && setup.route.sell in b.latest
    ensures var notional := Notional(quantity, b.latest[setup.route.sell].quote.bid);
      var fee := Fee(setup.costs[setup.route.sell], notional);
      && Inv(setup, done, rest - {sell.sequence}, f.(sold := f.sold + notional, sellFees := f.sellFees + fee))
      && done.filledBuy == bought.filledBuy && done.filledSell == bought.filledSell + quantity && done.pending == bought.pending
  {
    hide Total, Legs, Reserved, Imbalance, Conserved, Numbered, Shaped, Setup.Valid, BuyQuantity, SellQuantity, NonNegative, Notional, Fee,
         Completed, Executed, NetCost, NetProceeds, Affordable, EdgeEligible, Balanced, MatchedQuantity, Fresh, Depth;
    var r := setup.route;
    EligibleTrade(setup, b, timestamp, started);
    var q := b.latest[r.sell].quote;
    QuoteValid(setup, b, r.sell);
    ShapedKeys(setup, b, r.sell);
    ShapedKeys(setup, b, r.buy);
    RouteVenues(setup);
    AffordableBounds(setup, b, b.latest[r.buy].quote, q);
    AffordableCosts(setup, b, b.latest[r.buy].quote, q);
    EdgeGain(setup, b.latest[r.buy].quote, q, quantity);
    ReleaseKeeps(setup, bought, rest, sell.sequence);
    var released := Released(bought, sell);
    ShapedKeys(setup, released, r.sell);
    CashNonNegative(setup, released, rest - {sell.sequence}, r.sell);
    ReserveRestored(b.reservedPositions, r.sell, sell.reservedQuantity);
    SellLegFillsAll(setup, released, sell, q, quantity);
    LegExecutes(setup, bought, rest, f, sell.sequence, q, quantity);
    var notional := Notional(quantity, q.bid);
    var fee := Fee(setup.costs[r.sell], notional);
    var filled := Sold(released, r.sell, quantity, notional, fee);
    SecondLeg(filled, sell, quantity);
    done := Completed(filled, sell, quantity).value;
    CompletedElsewhere(filled, sell, quantity);
    ExecuteKeeps(setup, bought, rest, f, sell.sequence);
  }

  lemma {:induction false} OpenNonNegative(b: Books, live: Live)
    requires Legs(b, live)
    ensures b.open >= 0
  {
    TotalNonNegative(OpenTrade(live), b.nextTrade);
  }

  lemma {:induction false} CashNonNegative(setup: Setup, b: Books, live: Live, v: Venue)
    requires Shaped(setup, b) && Reserved(setup, b, live) && v in b.cash
    ensures b.cash[v] >= 0.0
  {
  }

  lemma {:induction false} AllCashNonNegative(setup: Setup, b: Books, live: Live, f: Flows)
    requires Inv(setup, b, live, f)
    ensures NonNegative(b.cash)
  {
    hide Numbered, Legs, Balanced, Conserved, Total;
    forall v | v in b.cash ensures b.cash[v] >= 0.0 { CashNonNegative(setup, b, live, v); }
  }

  lemma {:induction false} ReserveRestored(m: map<Venue, real>, v: Venue, amount: real)
    requires v in m
    ensures var more := m[v := m[v] + amount]; more[v := more[v] - amount] == m
  {
    var more := m[v := m[v] + amount];
    assert more[v] - amount == m[v];
  }
}
