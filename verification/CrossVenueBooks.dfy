/** A cross-venue account and what each event does to it, in exact arithmetic. */
module CrossVenueBooks {
  import opened Outcomes
  import opened RealArithmetic

  /** A venue; the order on numbers is the byte order of venue names. */
  type Venue = nat

  datatype Clock = Clock(offsetMs: int, latencyMs: nat, maximumAgeMs: nat)

  datatype Cost = Cost(feeRate: real, fixedFee: real)

  datatype FillRule = FillRule(participation: real, ratio: real)

  datatype Route = Route(buy: Venue, sell: Venue, buyLatencyMs: nat, sellLatencyMs: nat, maximumOpen: nat)

  datatype Quote = Quote(venue: Venue, observedAt: int, bid: real, ask: real, bidSize: real, askSize: real) {
    predicate Valid() { 0.0 < bid <= ask && bidSize >= 0.0 && askSize >= 0.0 }
  }

  datatype Arrival = Arrival(availableAt: int, quote: Quote)

  /** The validated input of one run. */
  datatype Setup = Setup(
    venues: seq<Venue>, clocks: map<Venue, Clock>, costs: map<Venue, Cost>, fills: map<Venue, FillRule>, route: Route,
    quoteFirst: bool, shortSales: bool, minimumEdge: real, maximumQuantity: real,
    cash: map<Venue, real>, positions: map<Venue, real>, quotes: seq<Quote>)
  {
    ghost predicate Valid() {
      && (forall i, j :: 0 <= i < j < |venues| ==> venues[i] != venues[j])
      && (forall v :: v in venues ==> v in clocks && v in costs && v in fills && v in cash && v in positions)
      && (forall v :: v in cash || v in positions ==> v in venues)
      && route.buy in venues && route.sell in venues && route.buy != route.sell && route.maximumOpen >= 1
      && (forall v :: v in costs ==> costs[v].feeRate >= 0.0 && costs[v].fixedFee >= 0.0)
      && (forall v :: v in fills ==> 0.0 < fills[v].participation <= 1.0 && 0.0 <= fills[v].ratio <= 1.0)
      && (forall v :: v in cash ==> cash[v] >= 0.0)
      && minimumEdge >= 0.0 && maximumQuantity > 0.0
      && quotes != [] && forall q :: q in quotes ==> q.Valid() && q.venue in venues
    }
  }

  datatype Side = Buy | Sell

  datatype Order = Order(
    arrivalAt: int, sequence: nat, trade: nat, side: Side, venue: Venue, requested: real, reservedCash: real, reservedQuantity: real)

  datatype Error =
    | CashReservationNegative | PositionReservationNegative | FillExceedsCash | CashNegative | FillInconsistent | LegUnderflow
    | ResidualRisk | RouteUnderflow | EquityNotPositive | StaleAfterExecution | NeverMarked | NoTimestamps | FinalStale

  /** The account's fields; `open` counts the strategy's own route, the only one ever opened. */
  datatype Books = Books(
    cash: map<Venue, real>, positions: map<Venue, real>, reservedCash: map<Venue, real>, reservedPositions: map<Venue, real>,
    latest: map<Venue, Arrival>, pending: map<int, seq<Order>>, open: int, remaining: map<nat, int>, filled: map<nat, map<Side, real>>,
    nextSequence: nat, nextTrade: nat, decisions: nat, orders: nat, gross: real, fees: real, filledBuy: real, filledSell: real)

  predicate NonNegative(m: map<Venue, real>) { forall v :: v in m ==> m[v] >= 0.0 }

  predicate Fresh(setup: Setup, timestamp: int, arrival: Arrival)
    requires arrival.quote.venue in setup.clocks
  {
    0 <= timestamp - arrival.availableAt <= setup.clocks[arrival.quote.venue].maximumAgeMs
  }

  /** The books cover every venue and quotes are filed under their own venue. */
  ghost predicate Shaped(setup: Setup, b: Books) {
    && setup.Valid()
    && (forall v :: v in setup.venues ==> v in b.cash && v in b.positions && v in b.reservedCash && v in b.reservedPositions)
    && (forall v :: v in b.cash ==> v in setup.venues)
    && (forall v :: v in b.latest ==> v in setup.venues && b.latest[v].quote.venue == v && b.latest[v].quote.Valid())
  }

  // ---------------------------------------------------------------- filling one leg

  /** The displayed size a venue's rule lets one order see. */
  function Shown(size: real, rule: FillRule): real { size * rule.participation }

  function Filling(requested: real, shown: real, ratio: real): real { Min(requested, shown) * ratio }

  /** What one unit costs at an ask, its taker fee included. */
  function UnitCost(cost: Cost, ask: real): real { ask * (1.0 + cost.feeRate) }

  /** What of a wanted quantity the available cash pays for, fees included. */
  function Afforded(wanted: real, available: real, cost: Cost, ask: real): real
    requires UnitCost(cost, ask) > 0.0
  {
    if wanted <= 0.0 || available <= cost.fixedFee then 0.0 else Min(wanted, (available - cost.fixedFee) / UnitCost(cost, ask))
  }

  function BuyQuantity(setup: Setup, b: Books, o: Order, q: Quote): (quantity: real)
    requires Shaped(setup, b) && o.venue in setup.venues && q.Valid()
  {
    var rule, cost := setup.fills[o.venue], setup.costs[o.venue];
    var wanted := Filling(o.requested, Shown(q.askSize, rule), rule.ratio);
    assert UnitCost(cost, q.ask) > 0.0;
    Afforded(wanted, b.cash[o.venue] - b.reservedCash[o.venue], cost, q.ask)
  }

  function SellQuantity(setup: Setup, b: Books, o: Order, q: Quote): real
    requires Shaped(setup, b) && o.venue in setup.venues && q.Valid()
  {
    var rule, cost := setup.fills[o.venue], setup.costs[o.venue];
    var wanted := Filling(o.requested, Shown(q.bidSize, rule), rule.ratio);
    var quantity := if setup.shortSales then wanted
                    else Min(wanted, Max(b.positions[o.venue] - b.reservedPositions[o.venue], 0.0));
    var notional := Notional(quantity, q.bid);
    if quantity <= 0.0 || b.cash[o.venue] + notional - Fee(cost, notional) < 0.0 then 0.0 else quantity
  }

  function Notional(quantity: real, price: real): real { quantity * price }

  function Fee(cost: Cost, notional: real): real { notional * cost.feeRate + cost.fixedFee }

  /** The books after a purchase of some notional and its fee. */
  function Bought(b: Books, v: Venue, quantity: real, notional: real, fee: real): Books
    requires v in b.cash && v in b.positions
  {
    b.(cash := b.cash[v := b.cash[v] - (notional + fee)], positions := b.positions[v := b.positions[v] + quantity],
       gross := b.gross + notional, fees := b.fees + fee, filledBuy := b.filledBuy + quantity)
  }

  function Sold(b: Books, v: Venue, quantity: real, notional: real, fee: real): Books
    requires v in b.cash && v in b.positions
  {
    b.(cash := b.cash[v := b.cash[v] + (notional - fee)], positions := b.positions[v := b.positions[v] - quantity],
       gross := b.gross + notional, fees := b.fees + fee, filledSell := b.filledSell + quantity)
  }

  /** Fills a leg against a quote: the books and the quantity, or an internal error. */
  function Filled(setup: Setup, b: Books, o: Order, q: Quote): Result<(Books, real), Error>
    requires Shaped(setup, b) && o.venue in setup.venues && q.Valid()
  {
    var cost := setup.costs[o.venue];
    if o.side.Buy? then
      var quantity := BuyQuantity(setup, b, o, q);
      var notional := Notional(quantity, q.ask);
      var fee := Fee(cost, notional);
      if quantity <= 0.0 then Ok((b, 0.0))
      else if notional + fee > b.cash[o.venue] - b.reservedCash[o.venue] then Err(FillExceedsCash)
      else
        var after := Bought(b, o.venue, quantity, notional, fee);
        if !NonNegative(after.cash) then Err(CashNegative) else Ok((after, quantity))
    else
      var quantity := SellQuantity(setup, b, o, q);
      var notional := Notional(quantity, q.bid);
      var fee := Fee(cost, notional);
      if quantity <= 0.0 then Ok((b, 0.0))
      else
        var after := Sold(b, o.venue, quantity, notional, fee);
        if !NonNegative(after.cash) then Err(CashNegative) else Ok((after, quantity))
  }

  // ---------------------------------------------------------------- completing one leg

  function Released(b: Books, o: Order): Books
    requires o.venue in b.reservedCash && o.venue in b.reservedPositions
  {
    if o.side.Buy? then b.(reservedCash := b.reservedCash[o.venue := b.reservedCash[o.venue] - o.reservedCash])
    else b.(reservedPositions := b.reservedPositions[o.venue := b.reservedPositions[o.venue] - o.reservedQuantity])
  }

  function Without<T>(m: map<nat, T>, key: nat): map<nat, T> { map k | k in m && k != key :: m[k] }

  function Completed(b: Books, o: Order, quantity: real): Result<Books, Error> {
    if o.trade !in b.filled || o.side in b.filled[o.trade] || o.trade !in b.remaining then Err(FillInconsistent)
    else
      var fills := b.filled[o.trade][o.side := quantity];
      var left := b.remaining[o.trade] - 1;
      if left < 0 then Err(LegUnderflow)
      else if left > 0 then Ok(b.(filled := b.filled[o.trade := fills], remaining := b.remaining[o.trade := left]))
      else if Buy !in fills || Sell !in fills || fills[Buy] != fills[Sell] then Err(ResidualRisk)
      else if b.open - 1 < 0 then Err(RouteUnderflow)
      else Ok(b.(filled := Without(b.filled, o.trade), remaining := Without(b.remaining, o.trade), open := b.open - 1))
  }

  /** One leg arriving at its venue. */
  function Executed(setup: Setup, b: Books, o: Order): Result<Books, Error>
    requires Shaped(setup, b) && o.venue in setup.venues
  {
    var released := Released(b, o);
    if !NonNegative(released.reservedCash) then Err(CashReservationNegative)
    else if !NonNegative(released.reservedPositions) then Err(PositionReservationNegative)
    else if o.venue in b.latest && Fresh(setup, o.arrivalAt, b.latest[o.venue]) then
      var fill := Filled(setup, released, o, b.latest[o.venue].quote);
      if fill.Err? then Err(fill.error) else Completed(fill.value.0, o, fill.value.1)
    else Completed(released, o, 0.0)
  }

  // ---------------------------------------------------------------- submitting a trade

  function Depth(size: real, rule: FillRule): real { Shown(size, rule) * rule.ratio }

  function MatchedQuantity(setup: Setup, buy: Quote, sell: Quote): real
    requires setup.Valid()
  {
    var buyRule, sellRule := setup.fills[setup.route.buy], setup.fills[setup.route.sell];
    Min(Min(setup.maximumQuantity, Depth(buy.askSize, buyRule)), Depth(sell.bidSize, sellRule))
  }

  /** The quantity both legs can carry, once cash and position limits are applied. */
  function Affordable(setup: Setup, b: Books, buy: Quote, sell: Quote): real
    requires Shaped(setup, b) && buy.Valid() && sell.Valid()
  {
    var cost := setup.costs[setup.route.buy];
    var available := b.cash[setup.route.buy] - b.reservedCash[setup.route.buy];
    assert UnitCost(cost, buy.ask) > 0.0;
    var funded := Afforded(MatchedQuantity(setup, buy, sell), available, cost, buy.ask);
    if setup.shortSales then funded
    else Min(funded, Max(b.positions[setup.route.sell] - b.reservedPositions[setup.route.sell], 0.0))
  }

  function NetProceeds(cost: Cost, quantity: real, bid: real): real { quantity * bid * (1.0 - cost.feeRate) - cost.fixedFee }

  function NetCost(cost: Cost, quantity: real, ask: real): real { quantity * ask * (1.0 + cost.feeRate) + cost.fixedFee }

  predicate EdgeEligible(setup: Setup, buy: Quote, sell: Quote, quantity: real)
    requires setup.Valid() && buy.Valid()
  {
    quantity > 0.0 &&
    (assert quantity * buy.ask > 0.0;
     (NetProceeds(setup.costs[setup.route.sell], quantity, sell.bid) - NetCost(setup.costs[setup.route.buy], quantity, buy.ask))
       / (quantity * buy.ask) >= setup.minimumEdge)
  }

  /** The quantity to trade now; zero when the route is closed, unquoted, stale, empty or without edge. */
  function Eligible(setup: Setup, b: Books, timestamp: int, started: bool): real
    requires Shaped(setup, b)
  {
    var r := setup.route;
    if !started || b.open >= r.maximumOpen || r.buy !in b.latest || r.sell !in b.latest then 0.0
    else if !Fresh(setup, timestamp, b.latest[r.buy]) || !Fresh(setup, timestamp, b.latest[r.sell]) then 0.0
    else
      var buy, sell := b.latest[r.buy].quote, b.latest[r.sell].quote;
      var quantity := Affordable(setup, b, buy, sell);
      if quantity <= 0.0 || !EdgeEligible(setup, buy, sell, quantity) then 0.0 else quantity
  }

  function BuyOrder(setup: Setup, b: Books, timestamp: int, quantity: real): Order
    requires Shaped(setup, b) && setup.route.buy in b.latest && setup.fills[setup.route.buy].ratio != 0.0
  {
    var r := setup.route;
    Order(timestamp + r.buyLatencyMs, b.nextSequence, b.nextTrade, Buy, r.buy, quantity / setup.fills[r.buy].ratio,
          NetCost(setup.costs[r.buy], quantity, b.latest[r.buy].quote.ask), 0.0)
  }

  function SellOrder(setup: Setup, b: Books, timestamp: int, quantity: real): Order
    requires Shaped(setup, b) && setup.fills[setup.route.sell].ratio != 0.0
  {
    var r := setup.route;
    Order(timestamp + r.sellLatencyMs, b.nextSequence + 1, b.nextTrade, Sell, r.sell, quantity / setup.fills[r.sell].ratio, 0.0,
          if setup.shortSales then 0.0 else quantity)
  }

  lemma {:induction false} MatchedNeedsRatios(setup: Setup, buy: Quote, sell: Quote)
    requires setup.Valid() && MatchedQuantity(setup, buy, sell) > 0.0
    ensures setup.fills[setup.route.buy].ratio > 0.0 && setup.fills[setup.route.sell].ratio > 0.0
  {
    var buyRule, sellRule := setup.fills[setup.route.buy], setup.fills[setup.route.sell];
    ZeroFactor(Shown(buy.askSize, buyRule), buyRule.ratio);
    ZeroFactor(Shown(sell.bidSize, sellRule), sellRule.ratio);
  }

  lemma {:induction false} ZeroFactor(x: real, ratio: real)
    ensures ratio == 0.0 ==> x * ratio == 0.0
  {
  }

  lemma {:induction false} EligibleFacts(setup: Setup, b: Books, timestamp: int, started: bool)
    requires Shaped(setup, b) && Eligible(setup, b, timestamp, started) > 0.0
    ensures var r := setup.route;
      r.buy in b.latest && r.sell in b.latest && setup.fills[r.buy].ratio > 0.0 && setup.fills[r.sell].ratio > 0.0 && b.open < r.maximumOpen
      && Eligible(setup, b, timestamp, started) == Affordable(setup, b, b.latest[r.buy].quote, b.latest[r.sell].quote)
  {
    hide EdgeEligible;
    var r := setup.route;
    MatchedNeedsRatios(setup, b.latest[r.buy].quote, b.latest[r.sell].quote);
  }

  function Enqueued(pending: map<int, seq<Order>>, o: Order): map<int, seq<Order>> {
    pending[o.arrivalAt := (if o.arrivalAt in pending then pending[o.arrivalAt] else []) + [o]]
  }

  /** The books with a trade's two legs reserved and numbered. */
  function Opened(b: Books, buy: Order, sell: Order): Books
    requires buy.venue in b.reservedCash && sell.venue in b.reservedPositions
  {
    b.(reservedCash := b.reservedCash[buy.venue := b.reservedCash[buy.venue] + buy.reservedCash],
       reservedPositions := b.reservedPositions[sell.venue := b.reservedPositions[sell.venue] + sell.reservedQuantity],
       nextTrade := b.nextTrade + 1, nextSequence := b.nextSequence + 2, open := b.open + 1,
       remaining := b.remaining[b.nextTrade := 2], filled := b.filled[b.nextTrade := map[]],
       decisions := b.decisions + 1, orders := b.orders + 2)
  }

  /** Legs that do not arrive at once are filed under their arrival times. */
  function FiledLegs(pending: map<int, seq<Order>>, timestamp: int, buy: Order, sell: Order): map<int, seq<Order>> {
    var queue := if buy.arrivalAt == timestamp then pending else Enqueued(pending, buy);
    if sell.arrivalAt == timestamp then queue else Enqueued(queue, sell)
  }

  function Submitted(setup: Setup, b: Books, timestamp: int, buy: Order, sell: Order): Books
    requires buy.venue in b.reservedCash && sell.venue in b.reservedPositions
  {
    Opened(b, buy, sell).(pending := FiledLegs(b.pending, timestamp, buy, sell))
  }

  function Immediate(timestamp: int, buy: Order, sell: Order): seq<Order> {
    (if buy.arrivalAt == timestamp then [buy] else []) + if sell.arrivalAt == timestamp then [sell] else []
  }

  // ---------------------------------------------------------------- valuation

  function SumOver(venues: seq<Venue>, m: map<Venue, real>): real
    requires forall v :: v in venues ==> v in m
  {
    if venues == [] then 0.0 else m[venues[0]] + SumOver(venues[1..], m)
  }

  /** The positions at executable prices; nothing when one of them has no fresh quote. */
  function Marked(setup: Setup, b: Books, venues: seq<Venue>, timestamp: int): Option<real>
    requires Shaped(setup, b) && forall v :: v in venues ==> v in setup.venues
  {
    if venues == [] then Some(0.0)
    else
      var v := venues[0];
      var rest := Marked(setup, b, venues[1..], timestamp);
      if b.positions[v] == 0.0 then rest
      else if v !in b.latest || !Fresh(setup, timestamp, b.latest[v]) || rest.None? then None
      else
        var q := b.latest[v].quote;
        Some(b.positions[v] * (if b.positions[v] >= 0.0 then q.bid else q.ask) + rest.value)
  }

  function EquityAt(setup: Setup, b: Books, timestamp: int): Option<real>
    requires Shaped(setup, b)
  {
    var marked := Marked(setup, b, setup.venues, timestamp);
    if marked.None? then None else Some(SumOver(setup.venues, b.cash) + marked.value)
  }
}
