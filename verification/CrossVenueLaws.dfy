/** Conservation, reservations and leg accounting of a cross-venue account, and
    the errors that can therefore never be raised. */
module CrossVenueLaws {
  import opened CrossVenueBooks
  import opened RealArithmetic

  // ---------------------------------------------------------------- sums over trades

  function Total(f: nat -> real, n: nat): real {
    if n == 0 then 0.0 else Total(f, n - 1) + f(n - 1)
  }

  lemma {:induction false} TotalSame(f: nat -> real, g: nat -> real, n: nat)
    requires forall t: nat :: t < n ==> f(t) == g(t)
    ensures Total(f, n) == Total(g, n)
  {
    if n > 0 { TotalSame(f, g, n - 1); }
  }

  lemma {:induction false} TotalChange(f: nat -> real, g: nat -> real, n: nat, at: nat)
    requires at < n && forall t: nat :: t < n && t != at ==> f(t) == g(t)
    ensures Total(g, n) == Total(f, n) - f(at) + g(at)
  {
    if at < n - 1 { TotalChange(f, g, n - 1, at); } else { TotalSame(f, g, n - 1); }
  }

  lemma {:induction false} TotalAtLeast(f: nat -> real, n: nat, at: nat)
    requires at < n && forall t: nat :: t < n ==> f(t) >= 0.0
    ensures Total(f, n) >= f(at)
  {
    TotalNonNegative(f, n - 1);
    if at < n - 1 { TotalAtLeast(f, n - 1, at); }
  }

  lemma {:induction false} TotalNonNegative(f: nat -> real, n: nat)
    requires forall t: nat :: t < n ==> f(t) >= 0.0
    ensures Total(f, n) >= 0.0
  {
    if n > 0 { TotalNonNegative(f, n - 1); }
  }

  lemma {:induction false} TotalZero(f: nat -> real, n: nat)
    requires forall t: nat :: t < n ==> f(t) == 0.0
    ensures Total(f, n) == 0.0
  {
    if n > 0 { TotalZero(f, n - 1); }
  }

  // ---------------------------------------------------------------- live orders

  /** Orders submitted and not yet executed, by sequence: trade t owns 2t and 2t + 1. */
  type Live = map<nat, Order>

  function BuyReserve(live: Live): nat -> real { (t: nat) => if 2 * t in live then live[2 * t].reservedCash else 0.0 }

  function SellReserve(live: Live): nat -> real { (t: nat) => if 2 * t + 1 in live then live[2 * t + 1].reservedQuantity else 0.0 }

  function OpenTrade(live: Live): nat -> real { (t: nat) => if 2 * t in live || 2 * t + 1 in live then 1.0 else 0.0 }

  function FilledSoFar(filled: map<nat, map<Side, real>>, t: nat, side: Side): real {
    if t in filled && side in filled[t] then filled[t][side] else 0.0
  }

  function Imbalance(filled: map<nat, map<Side, real>>): nat -> real {
    (t: nat) => FilledSoFar(filled, t, Buy) - FilledSoFar(filled, t, Sell)
  }

  ghost predicate OrderSound(setup: Setup, o: Order, s: nat) {
    && o.sequence == s && o.trade == s / 2 && o.reservedCash >= 0.0 && o.reservedQuantity >= 0.0
    && (if s % 2 == 0 then o.side.Buy? && o.venue == setup.route.buy else o.side.Sell? && o.venue == setup.route.sell)
  }

  ghost predicate Numbered(setup: Setup, b: Books, live: Live) {
    && b.nextSequence == 2 * b.nextTrade && b.decisions == b.nextTrade && b.orders == b.nextSequence
    && forall s :: s in live ==> s < b.nextSequence && OrderSound(setup, live[s], s)
  }

  /** Reservations are exactly what the live orders hold, and cash covers them. */
  ghost predicate Reserved(setup: Setup, b: Books, live: Live)
    requires Shaped(setup, b)
  {
    var r := setup.route;
    && (forall v :: v in b.reservedCash ==> b.reservedCash[v] == if v == r.buy then Total(BuyReserve(live), b.nextTrade) else 0.0)
    && (forall v :: v in b.reservedPositions ==> b.reservedPositions[v] == if v == r.sell then Total(SellReserve(live), b.nextTrade) else 0.0)
    && NonNegative(b.reservedCash) && NonNegative(b.reservedPositions)
    && b.cash[r.buy] >= b.reservedCash[r.buy] && NonNegative(b.cash)
  }

  function LegsLive(live: Live, t: nat): int { (if 2 * t in live then 1 else 0) + if 2 * t + 1 in live then 1 else 0 }

  ghost predicate LegsAt(b: Books, live: Live, t: nat) {
    if LegsLive(live, t) == 0 then t !in b.remaining && t !in b.filled
    else
      t in b.remaining && t in b.filled && b.remaining[t] == LegsLive(live, t)
      && (Buy in b.filled[t] <==> 2 * t !in live) && (Sell in b.filled[t] <==> 2 * t + 1 !in live)
  }

  /** Leg counters and recorded fills follow the live orders, trade by trade. */
  ghost predicate Legs(b: Books, live: Live) {
    && (forall t :: t in b.remaining || t in b.filled ==> t < b.nextTrade)
    && (forall t: nat :: t < b.nextTrade ==> LegsAt(b, live, t))
    && b.open as real == Total(OpenTrade(live), b.nextTrade)
  }

  /** Filled buys exceed filled sells by what the open trades have filled one-sidedly. */
  ghost predicate Balanced(b: Books) {
    b.filledBuy - b.filledSell == Total(Imbalance(b.filled), b.nextTrade)
  }

  /** Notionals and fees so far, by side. */
  datatype Flows = Flows(bought: real, sold: real, buyFees: real, sellFees: real)

  /** Cash and positions are the initial ones moved by the fills. */
  ghost predicate Conserved(setup: Setup, b: Books, f: Flows)
    requires setup.Valid()
  {
    var r := setup.route;
    && b.cash == setup.cash[r.buy := setup.cash[r.buy] - f.bought - f.buyFees][r.sell := setup.cash[r.sell] + f.sold - f.sellFees]
    && b.positions == setup.positions[r.buy := setup.positions[r.buy] + b.filledBuy][r.sell := setup.positions[r.sell] - b.filledSell]
    && b.gross == f.bought + f.sold && b.fees == f.buyFees + f.sellFees && f.buyFees >= 0.0 && f.sellFees >= 0.0
  }

  ghost predicate Inv(setup: Setup, b: Books, live: Live, f: Flows) {
    Shaped(setup, b) && Numbered(setup, b, live) && Reserved(setup, b, live) && Legs(b, live) && Balanced(b) && Conserved(setup, b, f)
  }

  // ---------------------------------------------------------------- releasing a reservation

  lemma {:induction false} HalfOf(s: nat)
    ensures s == 2 * (s / 2) + s % 2 && s % 2 < 2
  {
  }

  /** Sequences of distinct legs differ. */
  lemma {:induction false} LegKeys(s: nat, t: nat)
    ensures s == 2 * t ==> s / 2 == t && s % 2 == 0
    ensures s == 2 * t + 1 ==> s / 2 == t && s % 2 == 1
  {
  }

  /** Taking one live leg away takes exactly its own reservation out of the sums. */
  lemma {:induction false} ReserveSums(setup: Setup, b: Books, live: Live, s: nat)
    requires Numbered(setup, b, live) && s in live
    ensures Total(BuyReserve(live - {s}), b.nextTrade)
         == Total(BuyReserve(live), b.nextTrade) - if live[s].side.Buy? then live[s].reservedCash else 0.0
    ensures Total(SellReserve(live - {s}), b.nextTrade)
         == Total(SellReserve(live), b.nextTrade) - if live[s].side.Buy? then 0.0 else live[s].reservedQuantity
    ensures Total(BuyReserve(live - {s}), b.nextTrade) >= 0.0 && Total(SellReserve(live - {s}), b.nextTrade) >= 0.0
  {
    hide Total;
    var rest, t := live - {s}, s / 2;
    HalfOf(s);
    assert OrderSound(setup, live[s], s);
    forall u: nat | u != t ensures BuyReserve(live)(u) == BuyReserve(rest)(u) && SellReserve(live)(u) == SellReserve(rest)(u) {
      LegKeys(s, u);
    }
    TotalChange(BuyReserve(live), BuyReserve(rest), b.nextTrade, t);
    TotalChange(SellReserve(live), SellReserve(rest), b.nextTrade, t);
    SumsNonNegative(setup, b, rest);
  }

  lemma {:induction false} SumsNonNegative(setup: Setup, b: Books, live: Live)
    requires Numbered(setup, b, live)
    ensures Total(BuyReserve(live), b.nextTrade) >= 0.0 && Total(SellReserve(live), b.nextTrade) >= 0.0
  {
    hide Total;
    forall t: nat ensures BuyReserve(live)(t) >= 0.0 && SellReserve(live)(t) >= 0.0 {
      if 2 * t in live { assert OrderSound(setup, live[2 * t], 2 * t); }
      if 2 * t + 1 in live { assert OrderSound(setup, live[2 * t + 1], 2 * t + 1); }
    }
    TotalNonNegative(BuyReserve(live), b.nextTrade);
    TotalNonNegative(SellReserve(live), b.nextTrade);
  }

  lemma {:induction false} LegVenue(setup: Setup, b: Books, live: Live, s: nat)
    requires Numbered(setup, b, live) && s in live && setup.Valid()
    ensures var o := live[s]; SideVenue(setup, o) && o.venue in setup.venues && o.reservedCash >= 0.0 && o.reservedQuantity >= 0.0
  {
    assert OrderSound(setup, live[s], s);
  }

  ghost predicate SideVenue(setup: Setup, o: Order) {
    o.venue == if o.side.Buy? then setup.route.buy else setup.route.sell
  }

  lemma {:induction false} ShapedKeys(setup: Setup, b: Books, v: Venue)
    requires Shaped(setup, b) && v in setup.venues
    ensures v in b.cash && v in b.positions && v in b.reservedCash && v in b.reservedPositions && v in setup.costs && v in setup.fills && v in setup.clocks
    ensures setup.costs[v].feeRate >= 0.0 && setup.costs[v].fixedFee >= 0.0
  {
  }

  lemma {:induction false} RouteVenues(setup: Setup)
    requires setup.Valid()
    ensures setup.route.buy in setup.venues && setup.route.sell in setup.venues && setup.route.buy != setup.route.sell
    ensures setup.route.buy in setup.cash && setup.route.sell in setup.cash && setup.route.buy in setup.positions && setup.route.sell in setup.positions
  {
  }

  lemma {:induction false} ShapedValid(setup: Setup, b: Books)
    requires Shaped(setup, b)
    ensures setup.Valid()
  {
  }

  lemma {:induction false} ShapedIgnores(setup: Setup, b: Books, after: Books)
    requires Shaped(setup, b) && after.cash.Keys == b.cash.Keys && after.positions.Keys == b.positions.Keys
    requires after.reservedCash.Keys == b.reservedCash.Keys && after.reservedPositions.Keys == b.reservedPositions.Keys && after.latest == b.latest
    ensures Shaped(setup, after)
  {
    hide Setup.Valid;
  }

  /** Releasing a live leg's reservation leaves exactly the other legs' reservations. */
  lemma {:induction false} ReleaseKeeps(setup: Setup, b: Books, live: Live, s: nat)
    requires Shaped(setup, b) && Numbered(setup, b, live) && Reserved(setup, b, live) && s in live
    ensures live[s].venue in setup.venues && live[s].venue in b.reservedCash && live[s].venue in b.reservedPositions
    ensures var after := Released(b, live[s]);
      && Shaped(setup, after) && Reserved(setup, after, live - {s})
      && (live[s].side.Buy? ==> after.cash[setup.route.buy] - after.reservedCash[setup.route.buy] >= live[s].reservedCash)
  {
    hide Total, BuyReserve, SellReserve, Numbered, Setup.Valid, Shaped;
    ShapedValid(setup, b);
    RouteVenues(setup);
    LegVenue(setup, b, live, s);
    ShapedKeys(setup, b, setup.route.buy);
    ShapedKeys(setup, b, setup.route.sell);
    ReserveSums(setup, b, live, s);
    var after := Released(b, live[s]);
    ShapedIgnores(setup, b, after);
    assert NonNegative(after.reservedCash) && NonNegative(after.reservedPositions);
  }

  // ---------------------------------------------------------------- filling

  lemma {:induction false} Affords(quantity: real, ask: real, rate: real, fixed: real, available: real)
    requires ask * (1.0 + rate) > 0.0 && quantity <= (available - fixed) / (ask * (1.0 + rate))
    ensures quantity * ask + (quantity * ask * rate + fixed) <= available
  {
    var unit := ask * (1.0 + rate);
    TimesUnit((available - fixed) / unit, quantity, unit);
    QuotientTimes(available - fixed, unit);
    Spread(quantity, ask, rate);
  }

  lemma {:induction false} TimesUnit(a: real, b: real, unit: real)
    requires unit > 0.0 && b <= a
    ensures b * unit <= a * unit
  {
  }

  lemma {:induction false} Spread(quantity: real, ask: real, rate: real)
    ensures quantity * (ask * (1.0 + rate)) == quantity * ask + quantity * ask * rate
  {
  }

  lemma {:induction false} FeePositive(quantity: real, price: real, cost: Cost)
    requires quantity >= 0.0 && price >= 0.0 && cost.feeRate >= 0.0 && cost.fixedFee >= 0.0
    ensures Notional(quantity, price) >= 0.0 && Fee(cost, Notional(quantity, price)) >= 0.0
  {
  }

  lemma {:induction false} BuyFits(setup: Setup, b: Books, o: Order, q: Quote)
    requires Shaped(setup, b) && o.venue in setup.venues && q.Valid() && BuyQuantity(setup, b, o, q) > 0.0
    ensures var quantity := BuyQuantity(setup, b, o, q);
      Notional(quantity, q.ask) + Fee(setup.costs[o.venue], Notional(quantity, q.ask)) <= b.cash[o.venue] - b.reservedCash[o.venue]
  {
    var cost := setup.costs[o.venue];
    Affords(BuyQuantity(setup, b, o, q), q.ask, cost.feeRate, cost.fixedFee, b.cash[o.venue] - b.reservedCash[o.venue]);
  }

  /** The flows once a leg is filled. */
  function FlowsAfter(setup: Setup, f: Flows, o: Order, quantity: real, q: Quote): Flows
    requires setup.Valid() && o.venue in setup.venues
  {
    var cost := setup.costs[o.venue];
    if quantity <= 0.0 then f
    else if o.side.Buy? then f.(bought := f.bought + Notional(quantity, q.ask), buyFees := f.buyFees + Fee(cost, Notional(quantity, q.ask)))
    else f.(sold := f.sold + Notional(quantity, q.bid), sellFees := f.sellFees + Fee(cost, Notional(quantity, q.bid)))
  }

  /** What filling a leg may change: cash, positions and totals, nothing else. */
  ghost predicate OnlyAccounts(b: Books, after: Books) {
    after == b.(cash := after.cash, positions := after.positions, gross := after.gross, fees := after.fees,
                filledBuy := after.filledBuy, filledSell := after.filledSell)
  }

  lemma {:induction false} NonNegativeAt(m: map<Venue, real>, v: Venue)
    requires NonNegative(m) && v in m
    ensures m[v] >= 0.0
  {
  }

  lemma {:induction false} MapsAgree(a: map<Venue, real>, b: map<Venue, real>)
    requires a.Keys == b.Keys && forall v :: v in a ==> a[v] == b[v]
    ensures a == b
  {
  }

  /** Cash and positions move at one venue of the route only. */
  lemma {:induction false} AccountsMove(setup: Setup, b: Books, after: Books, live: Live, v: Venue)
    requires Shaped(setup, b) && Reserved(setup, b, live) && v in b.cash && v in b.positions
    requires v in after.cash && v in after.positions && after.cash[v] >= 0.0
    requires after == b.(cash := b.cash[v := after.cash[v]], positions := b.positions[v := after.positions[v]], gross := after.gross,
                         fees := after.fees, filledBuy := after.filledBuy, filledSell := after.filledSell)
    requires v == setup.route.buy ==> v in b.reservedCash && after.cash[v] >= b.reservedCash[v]
    ensures Shaped(setup, after) && Reserved(setup, after, live) && NonNegative(after.cash)
  {
    hide Total, BuyReserve, SellReserve, Shaped, Setup.Valid;
    RouteIn(setup, b);
    ShapedIgnores(setup, b, after);
    assert NonNegative(after.cash);
  }

  lemma {:induction false} BoughtConserves(setup: Setup, b: Books, f: Flows, quantity: real, notional: real, fee: real)
    requires setup.Valid() && Conserved(setup, b, f) && setup.route.buy in b.cash && setup.route.buy in b.positions && fee >= 0.0
    ensures Conserved(setup, Bought(b, setup.route.buy, quantity, notional, fee), f.(bought := f.bought + notional, buyFees := f.buyFees + fee))
  {
    hide Setup.Valid;
    RouteVenues(setup);
    var r, after := setup.route, Bought(b, setup.route.buy, quantity, notional, fee);
    MapsAgree(after.cash, setup.cash[r.buy := setup.cash[r.buy] - (f.bought + notional) - (f.buyFees + fee)]
                                    [r.sell := setup.cash[r.sell] + f.sold - f.sellFees]);
  }

  lemma {:induction false} SoldConserves(setup: Setup, b: Books, f: Flows, quantity: real, notional: real, fee: real)
    requires setup.Valid() && Conserved(setup, b, f) && setup.route.sell in b.cash && setup.route.sell in b.positions && fee >= 0.0
    ensures Conserved(setup, Sold(b, setup.route.sell, quantity, notional, fee), f.(sold := f.sold + notional, sellFees := f.sellFees + fee))
  {
    hide Setup.Valid;
    RouteVenues(setup);
    var r, after := setup.route, Sold(b, setup.route.sell, quantity, notional, fee);
    MapsAgree(after.cash, setup.cash[r.buy := setup.cash[r.buy] - f.bought - f.buyFees]
                                    [r.sell := setup.cash[r.sell] + (f.sold + notional) - (f.sellFees + fee)]);
  }

  lemma {:induction false} BuyFillKeeps(setup: Setup, b: Books, live: Live, f: Flows, o: Order, q: Quote)
    requires Shaped(setup, b) && Reserved(setup, b, live) && Conserved(setup, b, f) && SideVenue(setup, o) && q.Valid() && o.side.Buy?
    requires o.venue in setup.venues
    ensures Filled(setup, b, o, q).Ok?
    ensures var (after, quantity) := Filled(setup, b, o, q).value;
      && quantity >= 0.0 && OnlyAccounts(b, after) && Shaped(setup, after) && Reserved(setup, after, live)
      && Conserved(setup, after, FlowsAfter(setup, f, o, quantity, q))
      && after.filledBuy - after.filledSell == b.filledBuy - b.filledSell + quantity
  {
    hide Total, BuyQuantity, Reserved, Conserved, Shaped, Setup.Valid, NonNegative, Notional, Fee;
    ShapedValid(setup, b);
    ShapedKeys(setup, b, o.venue);
    var quantity, cost := BuyQuantity(setup, b, o, q), setup.costs[o.venue];
    if quantity > 0.0 {
      BuyFits(setup, b, o, q);
      FeePositive(quantity, q.ask, cost);
      var notional, fee := Notional(quantity, q.ask), Fee(cost, Notional(quantity, q.ask));
      ReservedNonNegative(setup, b, live);
      NonNegativeAt(b.reservedCash, o.venue);
      AccountsMove(setup, b, Bought(b, o.venue, quantity, notional, fee), live, o.venue);
      BoughtConserves(setup, b, f, quantity, notional, fee);
    }
  }

  lemma {:induction false} SellFits(setup: Setup, b: Books, o: Order, q: Quote)
    requires Shaped(setup, b) && o.venue in setup.venues && q.Valid() && SellQuantity(setup, b, o, q) > 0.0
    ensures var quantity := SellQuantity(setup, b, o, q);
      b.cash[o.venue] + (Notional(quantity, q.bid) - Fee(setup.costs[o.venue], Notional(quantity, q.bid))) >= 0.0
  {
  }

  lemma {:induction false} SellFillKeeps(setup: Setup, b: Books, live: Live, f: Flows, o: Order, q: Quote)
    requires Shaped(setup, b) && Reserved(setup, b, live) && Conserved(setup, b, f) && SideVenue(setup, o) && q.Valid() && o.side.Sell?
    requires o.venue in setup.venues
    ensures Filled(setup, b, o, q).Ok?
    ensures var (after, quantity) := Filled(setup, b, o, q).value;
      && quantity >= 0.0 && OnlyAccounts(b, after) && Shaped(setup, after) && Reserved(setup, after, live)
      && Conserved(setup, after, FlowsAfter(setup, f, o, quantity, q))
      && after.filledBuy - after.filledSell == b.filledBuy - b.filledSell - quantity
  {
    hide Total, SellQuantity, Reserved, Conserved, Shaped, Setup.Valid, NonNegative, Notional, Fee;
    ShapedValid(setup, b);
    ShapedKeys(setup, b, o.venue);
    var quantity, cost := SellQuantity(setup, b, o, q), setup.costs[o.venue];
    if quantity > 0.0 {
      SellFits(setup, b, o, q);
      FeePositive(quantity, q.bid, cost);
      var notional, fee := Notional(quantity, q.bid), Fee(cost, Notional(quantity, q.bid));
      RouteVenues(setup);
      AccountsMove(setup, b, Sold(b, o.venue, quantity, notional, fee), live, o.venue);
      SoldConserves(setup, b, f, quantity, notional, fee);
    }
  }

  // ---------------------------------------------------------------- completing a leg

  lemma {:induction false} LegsElsewhere(b: Books, after: Books, live: Live, s: nat)
    requires Legs(b, live) && s in live && s / 2 < b.nextTrade && after.nextTrade == b.nextTrade
    requires AgreeElsewhere(after.remaining, b.remaining, s / 2) && AgreeElsewhere(after.filled, b.filled, s / 2)
    ensures forall t :: t in after.remaining || t in after.filled ==> t < b.nextTrade
    ensures forall t: nat :: t < b.nextTrade && t != s / 2 ==> LegsAt(after, live - {s}, t)
  {
    hide Total;
    forall t: nat | t < b.nextTrade && t != s / 2 ensures LegsAt(after, live - {s}, t) {
      LegKeys(s, t);
      assert LegsAt(b, live, t);
    }
  }

  lemma {:induction false} OpenElsewhere(live: Live, s: nat, n: nat)
    requires s in live && s / 2 < n
    ensures Total(OpenTrade(live - {s}), n) == Total(OpenTrade(live), n) - if LegsLive(live, s / 2) == 1 then 1.0 else 0.0
  {
    hide Total;
    var rest, t := live - {s}, s / 2;
    HalfOf(s);
    forall u: nat | u != t ensures OpenTrade(live)(u) == OpenTrade(rest)(u) { LegKeys(s, u); }
    TotalChange(OpenTrade(live), OpenTrade(rest), n, t);
  }

  function Signed(side: Side, quantity: real): real { if side.Buy? then quantity else -quantity }

  /** The only error completing a live leg can raise is a pair of legs that filled differently. */
  lemma {:induction false} CompletionErrors(setup: Setup, b: Books, live: Live, s: nat, quantity: real)
    requires Numbered(setup, b, live) && Legs(b, live) && s in live
    ensures var r := Completed(b, live[s], quantity);
      && (r.Err? ==> r.error == ResidualRisk)
      && LegsAt(b, live, s / 2) && s / 2 < b.nextTrade && live[s].trade == s / 2 && (live[s].side.Buy? <==> s % 2 == 0)
  {
    hide Total, OpenTrade;
    var t := s / 2;
    HalfOf(s);
    assert OrderSound(setup, live[s], s);
    assert LegsAt(b, live, t);
    OpenCovers(b, live, t);
  }

  lemma {:induction false} LegDone(b: Books, live: Live, s: nat, o: Order, quantity: real)
    requires s in live && o.trade == s / 2 && (o.side.Buy? <==> s % 2 == 0) && LegsAt(b, live, s / 2)
    requires Completed(b, o, quantity).Ok?
    ensures var after := Completed(b, o, quantity).value;
      && LegsAt(after, live - {s}, s / 2)
      && after.open == b.open - (if LegsLive(live, s / 2) == 1 then 1 else 0)
      && o.side !in b.filled[s / 2]
      && (if s / 2 in after.filled then after.filled[s / 2] == b.filled[s / 2][o.side := quantity]
          else var fills := b.filled[s / 2][o.side := quantity]; Buy in fills && Sell in fills && fills[Buy] == fills[Sell])
  {
    HalfOf(s);
  }

  /** Two tables agree except perhaps at one trade. */
  ghost predicate AgreeElsewhere<T>(a: map<nat, T>, b: map<nat, T>, at: nat) {
    forall t :: t != at ==> (t in a <==> t in b) && (t in b ==> a[t] == b[t])
  }

  lemma {:induction false} UpdateElsewhere<T>(b: map<nat, T>, at: nat, x: T)
    ensures AgreeElsewhere(b[at := x], b, at) && AgreeElsewhere(Without(b, at), b, at)
  {
  }

  lemma {:induction false} CompletedElsewhere(b: Books, o: Order, quantity: real)
    requires Completed(b, o, quantity).Ok?
    ensures var after := Completed(b, o, quantity).value;
      && after == b.(filled := after.filled, remaining := after.remaining, open := after.open) && o.trade in b.filled
      && AgreeElsewhere(after.remaining, b.remaining, o.trade) && AgreeElsewhere(after.filled, b.filled, o.trade)
  {
    hide Without, AgreeElsewhere;
    UpdateElsewhere(b.filled, o.trade, b.filled[o.trade][o.side := quantity]);
    UpdateElsewhere(b.remaining, o.trade, b.remaining[o.trade] - 1);
  }

  /** Completing a live leg keeps the leg accounting and settles the imbalance. */
  lemma {:induction false} CompleteKeeps(setup: Setup, b: Books, live: Live, s: nat, quantity: real)
    requires Numbered(setup, b, live) && Legs(b, live) && s in live && Completed(b, live[s], quantity).Ok?
    requires b.filledBuy - b.filledSell == Total(Imbalance(b.filled), b.nextTrade) + Signed(live[s].side, quantity)
    ensures var after := Completed(b, live[s], quantity).value;
      && Legs(after, live - {s}) && Balanced(after)
      && after == b.(filled := after.filled, remaining := after.remaining, open := after.open)
  {
    hide Total, OpenTrade, Imbalance, LegsAt, LegsLive, Completed, Numbered, AgreeElsewhere;
    var o, t := live[s], s / 2;
    CompletionErrors(setup, b, live, s, quantity);
    CompletedElsewhere(b, o, quantity);
    OpenElsewhere(live, s, b.nextTrade);
    LegDone(b, live, s, o, quantity);
    var after := Completed(b, o, quantity).value;
    LegsElsewhere(b, after, live, s);
    ImbalanceMoves(b, after, t, o.side, quantity);
  }

  lemma {:induction false} OpenCovers(b: Books, live: Live, t: nat)
    requires Legs(b, live) && t < b.nextTrade && LegsLive(live, t) > 0
    ensures b.open >= 1
  {
    hide Total;
    TotalAtLeast(OpenTrade(live), b.nextTrade, t);
  }

  lemma {:induction false} ImbalanceMoves(b: Books, after: Books, t: nat, side: Side, quantity: real)
    requires t < b.nextTrade && after.nextTrade == b.nextTrade && t in b.filled && side !in b.filled[t]
    requires AgreeElsewhere(after.filled, b.filled, t)
    requires if t in after.filled then after.filled[t] == b.filled[t][side := quantity]
             else var fills := b.filled[t][side := quantity]; Buy in fills && Sell in fills && fills[Buy] == fills[Sell]
    ensures Total(Imbalance(after.filled), b.nextTrade) == Total(Imbalance(b.filled), b.nextTrade) + Signed(side, quantity)
  {
    hide Total;
    forall u: nat | u != t ensures Imbalance(b.filled)(u) == Imbalance(after.filled)(u) {}
    TotalChange(Imbalance(b.filled), Imbalance(after.filled), b.nextTrade, t);
  }

  // ---------------------------------------------------------------- one leg, start to end

  /** The quantity a leg fills when it arrives. */
  function ArrivingQuantity(setup: Setup, b: Books, o: Order): real
    requires Shaped(setup, b) && o.venue in setup.venues
  {
    var released := Released(b, o);
    if o.venue in b.latest && Fresh(setup, o.arrivalAt, b.latest[o.venue]) then
      var fill := Filled(setup, released, o, b.latest[o.venue].quote);
      if fill.Ok? then fill.value.1 else 0.0
    else 0.0
  }

  function FlowsOf(setup: Setup, b: Books, f: Flows, o: Order): Flows
    requires Shaped(setup, b) && o.venue in setup.venues
  {
    if o.venue in b.latest then FlowsAfter(setup, f, o, ArrivingQuantity(setup, b, o), b.latest[o.venue].quote) else f
  }

  /** Executing a live leg keeps every law, and the one error it can raise is the
      residual risk of legs that filled differently. */
  lemma {:induction false} ExecuteKeeps(setup: Setup, b: Books, live: Live, f: Flows, s: nat)
    requires Inv(setup, b, live, f) && s in live
    ensures live[s].venue in setup.venues
    ensures var r := Executed(setup, b, live[s]);
      && (r.Err? ==> r.error == ResidualRisk)
      && (r.Ok? ==> Inv(setup, r.value, live - {s}, FlowsOf(setup, b, f, live[s])) && SameSchedule(b, r.value))
  {
    hide Total, Filled, Completed, Legs, Reserved, Imbalance, Conserved, Numbered, Shaped;
    ReleaseKeeps(setup, b, live, s);
    ShapedValid(setup, b);
    LegVenue(setup, b, live, s);
    var o := live[s];
    ShapedKeys(setup, b, o.venue);
    var released := Released(b, o);
    ReservedNonNegative(setup, released, live - {s});
    ReleaseConserves(setup, b, o, f);
    LegsIgnore(b, released, live);
    if o.venue in b.latest { QuoteValid(setup, b, o.venue); }
    if o.venue in b.latest && Fresh(setup, o.arrivalAt, b.latest[o.venue]) {
      var q := b.latest[o.venue].quote;
      if o.side.Buy? {
        BuyFillKeeps(setup, released, live - {s}, f, o, q);
      } else {
        SellFillKeeps(setup, released, live - {s}, f, o, q);
      }
      var (filled, quantity) := Filled(setup, released, o, q).value;
      LegsIgnore(released, filled, live);
      NumberedIgnores(setup, b, filled, live);
      FinishLeg(setup, filled, live, FlowsAfter(setup, f, o, quantity, q), s, quantity);
    } else {
      NumberedIgnores(setup, b, released, live);
      FinishLeg(setup, released, live, f, s, 0.0);
    }
  }

  ghost predicate SameSchedule(b: Books, after: Books) {
    after.pending == b.pending && after.latest == b.latest && after.nextSequence == b.nextSequence && after.nextTrade == b.nextTrade
  }

  lemma {:induction false} QuoteValid(setup: Setup, b: Books, v: Venue)
    requires Shaped(setup, b) && v in b.latest
    ensures b.latest[v].quote.Valid() && b.latest[v].quote.venue == v
  {
  }

  lemma {:induction false} ReservedNonNegative(setup: Setup, b: Books, live: Live)
    requires Shaped(setup, b) && Reserved(setup, b, live)
    ensures NonNegative(b.reservedCash) && NonNegative(b.reservedPositions)
  {
  }

  lemma {:induction false} ReleaseConserves(setup: Setup, b: Books, o: Order, f: Flows)
    requires setup.Valid() && Conserved(setup, b, f) && o.venue in b.reservedCash && o.venue in b.reservedPositions
    ensures Conserved(setup, Released(b, o), f)
  {
    hide Setup.Valid;
  }

  lemma {:induction false} LegsIgnore(b: Books, after: Books, live: Live)
    requires Legs(b, live) && after.filled == b.filled && after.remaining == b.remaining && after.open == b.open && after.nextTrade == b.nextTrade
    ensures Legs(after, live)
  {
    hide Total;
    forall t: nat | t < after.nextTrade ensures LegsAt(after, live, t) { assert LegsAt(b, live, t); }
  }

  /** The bookkeeping after a fill, on top of accounts that already reflect it. */
  lemma {:induction false} FinishLeg(setup: Setup, b: Books, live: Live, f: Flows, s: nat, quantity: real)
    requires Shaped(setup, b) && Numbered(setup, b, live) && s in live && Legs(b, live)
    requires Reserved(setup, b, live - {s}) && Conserved(setup, b, f)
    requires b.filledBuy - b.filledSell == Total(Imbalance(b.filled), b.nextTrade) + Signed(live[s].side, quantity)
    ensures var r := Completed(b, live[s], quantity);
      && (r.Err? ==> r.error == ResidualRisk)
      && (r.Ok? ==> Inv(setup, r.value, live - {s}, f) && SameSchedule(b, r.value))
  {
    hide Total, Completed, Legs, Reserved, Imbalance, Conserved, Numbered, Shaped;
    CompletionErrors(setup, b, live, s, quantity);
    var r := Completed(b, live[s], quantity);
    if r.Ok? {
      CompleteKeeps(setup, b, live, s, quantity);
      NumberedRest(setup, b, r.value, live, s);
      AccountsIgnore(setup, b, r.value, live - {s}, f);
    }
  }

  lemma {:induction false} NumberedIgnores(setup: Setup, b: Books, after: Books, live: Live)
    requires Numbered(setup, b, live) && after.nextSequence == b.nextSequence && after.nextTrade == b.nextTrade
    requires after.decisions == b.decisions && after.orders == b.orders
    ensures Numbered(setup, after, live)
  {
  }

  lemma {:induction false} NumberedRest(setup: Setup, b: Books, after: Books, live: Live, s: nat)
    requires Numbered(setup, b, live) && after.nextSequence == b.nextSequence && after.nextTrade == b.nextTrade
    requires after.decisions == b.decisions && after.orders == b.orders
    ensures Numbered(setup, after, live - {s})
  {
  }

  lemma {:induction false} AccountsIgnore(setup: Setup, b: Books, after: Books, live: Live, f: Flows)
    requires Shaped(setup, b) && Reserved(setup, b, live) && Conserved(setup, b, f)
    requires after == b.(filled := after.filled, remaining := after.remaining, open := after.open)
    ensures Shaped(setup, after) && Reserved(setup, after, live) && Conserved(setup, after, f)
  {
    hide Total, BuyReserve, SellReserve, Shaped, Setup.Valid;
    ShapedIgnores(setup, b, after);
    RouteIn(setup, b);
  }

  lemma {:induction false} RouteIn(setup: Setup, b: Books)
    requires Shaped(setup, b)
    ensures setup.Valid() && setup.route.buy in b.cash && setup.route.sell in b.cash && setup.route.buy in b.reservedCash
  {
  }
}
