/** What a leg fills, a decision submits and a mark is worth, in terms of quotes, rules and balances. */
module CrossVenueMeaning {
  import opened CrossVenueBooks
  import opened CrossVenueLaws
  import opened CrossVenueSchedule
  import opened CrossVenueTrades
  import opened Outcomes
  import opened RealArithmetic

  // ---------------------------------------------------------------- filling a leg

  /** A quantity a buy leg may take: no more than its request and the participated ask size allow at the
      fill ratio, and paid with its fees by unreserved cash. */
  ghost predicate MayBuy(setup: Setup, b: Books, o: Order, q: Quote, y: real)
    requires Shaped(setup, b) && o.venue in setup.venues
  {
    Fits(o.requested, q.askSize, q.ask, setup.fills[o.venue], setup.costs[o.venue], b.cash[o.venue] - b.reservedCash[o.venue], y)
  }

  ghost predicate Fits(requested: real, askSize: real, ask: real, rule: FillRule, cost: Cost, available: real, y: real) {
    && y <= requested * rule.ratio && y <= askSize * rule.participation * rule.ratio
    && y * ask * (1.0 + cost.feeRate) + cost.fixedFee <= available
  }

  lemma {:induction false} FillingWithin(requested: real, size: real, rule: FillRule)
    requires rule.ratio >= 0.0
    ensures var wanted := Filling(requested, Shown(size, rule), rule.ratio);
      && wanted <= requested * rule.ratio && wanted <= size * rule.participation * rule.ratio
      && (wanted == requested * rule.ratio || wanted == size * rule.participation * rule.ratio)
  {
    var shown := size * rule.participation;
    if requested <= shown { Scaled(requested, shown, rule.ratio); } else { Scaled(shown, requested, rule.ratio); }
  }

  lemma {:induction false} Scaled(x: real, y: real, ratio: real)
    requires x <= y && ratio >= 0.0
    ensures x * ratio <= y * ratio
  {
    assert (y - x) * ratio >= 0.0;
  }

  lemma {:induction false} RulesAt(setup: Setup, b: Books, v: Venue)
    requires Shaped(setup, b) && v in setup.venues
    ensures v in setup.fills && 0.0 < setup.fills[v].participation <= 1.0 && 0.0 <= setup.fills[v].ratio <= 1.0
    ensures v in setup.costs && setup.costs[v].feeRate >= 0.0 && setup.costs[v].fixedFee >= 0.0
    ensures v in b.cash && v in b.reservedCash && v in b.positions && v in b.reservedPositions
  {
  }

  /** A buy leg fills the largest positive quantity that fits, and nothing when none does. */
  lemma {:induction false} BuyIsLargest(setup: Setup, b: Books, o: Order, q: Quote, y: real)
    requires Shaped(setup, b) && o.venue in setup.venues && q.Valid()
    ensures var x := BuyQuantity(setup, b, o, q);
      && (x > 0.0 ==> MayBuy(setup, b, o, q, x))
      && (y > 0.0 && MayBuy(setup, b, o, q, y) ==> y <= x)
  {
    hide *;
    RulesAt(setup, b, o.venue);
    Priced(setup, b, o.venue, q);
    var rule, cost := setup.fills[o.venue], setup.costs[o.venue];
    var available := b.cash[o.venue] - b.reservedCash[o.venue];
    var wanted := Filling(o.requested, Shown(q.askSize, rule), rule.ratio);
    var asked, shown, x := o.requested * rule.ratio, q.askSize * rule.participation * rule.ratio, Afforded(wanted, available, cost, q.ask);
    FillingWithin(o.requested, q.askSize, rule);
    MayBuyIs(setup, b, o, q, y, asked, shown);
    MayBuyIs(setup, b, o, q, x, asked, shown);
    AffordedIsLargest(asked, shown, wanted, available, cost, q.ask, y);
    BuyIsAfforded(setup, b, o, q);
  }

  lemma {:induction false} Priced(setup: Setup, b: Books, v: Venue, q: Quote)
    requires Shaped(setup, b) && v in setup.venues && q.Valid()
    ensures v in setup.costs && q.ask > 0.0 && UnitCost(setup.costs[v], q.ask) > 0.0
  {
  }

  lemma {:induction false} BuyIsAfforded(setup: Setup, b: Books, o: Order, q: Quote)
    requires Shaped(setup, b) && o.venue in setup.venues && q.Valid()
    ensures UnitCost(setup.costs[o.venue], q.ask) > 0.0
    ensures var rule := setup.fills[o.venue];
      BuyQuantity(setup, b, o, q)
      == Afforded(Filling(o.requested, Shown(q.askSize, rule), rule.ratio), b.cash[o.venue] - b.reservedCash[o.venue], setup.costs[o.venue], q.ask)
  {
    hide Filling, Shown, Afforded, UnitCost;
    Priced(setup, b, o.venue, q);
  }

  lemma {:induction false} MayBuyIs(setup: Setup, b: Books, o: Order, q: Quote, y: real, asked: real, shown: real)
    requires Shaped(setup, b) && o.venue in setup.venues
    requires asked == o.requested * setup.fills[o.venue].ratio
    requires shown == q.askSize * setup.fills[o.venue].participation * setup.fills[o.venue].ratio
    ensures MayBuy(setup, b, o, q, y)
       <==> y <= asked && y <= shown && NetCost(setup.costs[o.venue], y, q.ask) <= b.cash[o.venue] - b.reservedCash[o.venue]
  {
    hide Setup.Valid, NetCost, Fits, Shaped;
    RulesAt(setup, b, o.venue);
    FitsIs(o.requested, q.askSize, q.ask, setup.fills[o.venue], setup.costs[o.venue], b.cash[o.venue] - b.reservedCash[o.venue], y, asked, shown);
  }

  lemma {:induction false} FitsIs(requested: real, size: real, ask: real, rule: FillRule, cost: Cost, available: real, y: real, asked: real, shown: real)
    requires asked == requested * rule.ratio && shown == size * rule.participation * rule.ratio
    ensures Fits(requested, size, ask, rule, cost, available, y) <==> y <= asked && y <= shown && NetCost(cost, y, ask) <= available
  {
  }

  lemma {:induction false} AffordedIsLargest(asked: real, shown: real, wanted: real, available: real, cost: Cost, ask: real, y: real)
    requires wanted <= asked && wanted <= shown && (wanted == asked || wanted == shown)
    requires ask > 0.0 && cost.feeRate >= 0.0 && cost.fixedFee >= 0.0 && UnitCost(cost, ask) > 0.0
    ensures var x := Afforded(wanted, available, cost, ask);
      && (x > 0.0 ==> x <= asked && x <= shown && NetCost(cost, x, ask) <= available)
      && (y > 0.0 && y <= asked && y <= shown && NetCost(cost, y, ask) <= available ==> y <= x)
  {
    hide NetCost, UnitCost;
    var x := Afforded(wanted, available, cost, ask);
    if x > 0.0 { CostCovered(x, cost, ask, available); }
    if y > 0.0 && NetCost(cost, y, ask) <= available { QuotientCovers(y, cost, ask, available); }
  }

  /** A quantity a sell leg may take: no more than its request and the participated bid size allow at the
      fill ratio and, without short sales, than the unreserved position. */
  ghost predicate MaySell(setup: Setup, b: Books, o: Order, q: Quote, y: real)
    requires Shaped(setup, b) && o.venue in setup.venues
  {
    var rule := setup.fills[o.venue];
    && y <= o.requested * rule.ratio && y <= q.bidSize * rule.participation * rule.ratio
    && (setup.shortSales || y <= b.positions[o.venue] - b.reservedPositions[o.venue])
  }

  /** A sell leg fills the largest positive quantity that fits, unless its proceeds and the venue's cash
      together miss the fees, when it fills nothing. */
  lemma {:induction false} SellIsLargest(setup: Setup, b: Books, o: Order, q: Quote, y: real)
    requires Shaped(setup, b) && o.venue in setup.venues && q.Valid()
    ensures var x, cost := SellQuantity(setup, b, o, q), setup.costs[o.venue];
      && (x > 0.0 ==> MaySell(setup, b, o, q, x) && b.cash[o.venue] + x * q.bid - (x * q.bid * cost.feeRate + cost.fixedFee) >= 0.0)
      && (x > 0.0 && MaySell(setup, b, o, q, y) ==> y <= x)
      && (y > 0.0 && MaySell(setup, b, o, q, y) && (forall z :: MaySell(setup, b, o, q, z) ==> z <= y) ==>
            x == if b.cash[o.venue] + y * q.bid - (y * q.bid * cost.feeRate + cost.fixedFee) >= 0.0 then y else 0.0)
  {
    hide Shaped, Setup.Valid, Filling, Shown;
    RulesAt(setup, b, o.venue);
    var rule := setup.fills[o.venue];
    FillingWithin(o.requested, q.bidSize, rule);
    var wanted := Filling(o.requested, Shown(q.bidSize, rule), rule.ratio);
    var most := if setup.shortSales then wanted else Min(wanted, Max(b.positions[o.venue] - b.reservedPositions[o.venue], 0.0));
    assert most > 0.0 ==> MaySell(setup, b, o, q, most);
    assert y > 0.0 && MaySell(setup, b, o, q, y) ==> y <= most;
  }

  // ---------------------------------------------------------------- submitting a trade

  /** A quantity both legs of a trade may carry: within the strategy's maximum and what participation and
      fill ratio show on each side, paid with its fees by unreserved cash and, without short sales, covered
      by the unreserved position. */
  ghost predicate MaySubmit(setup: Setup, b: Books, buy: Quote, sell: Quote, y: real)
    requires Shaped(setup, b)
  {
    var r := setup.route;
    var buyRule, sellRule, cost := setup.fills[r.buy], setup.fills[r.sell], setup.costs[r.buy];
    && y <= setup.maximumQuantity && y <= buy.askSize * buyRule.participation * buyRule.ratio
    && y <= sell.bidSize * sellRule.participation * sellRule.ratio
    && y * buy.ask * (1.0 + cost.feeRate) + cost.fixedFee <= b.cash[r.buy] - b.reservedCash[r.buy]
    && (setup.shortSales || y <= b.positions[r.sell] - b.reservedPositions[r.sell])
  }

  /** The trade's net gain after both legs' fees reaches the minimum share of the bought notional. */
  ghost predicate HasEdge(setup: Setup, buy: Quote, sell: Quote, y: real)
    requires setup.Valid()
  {
    var buyCost, sellCost := setup.costs[setup.route.buy], setup.costs[setup.route.sell];
    (y * sell.bid * (1.0 - sellCost.feeRate) - sellCost.fixedFee) - (y * buy.ask * (1.0 + buyCost.feeRate) + buyCost.fixedFee)
      >= setup.minimumEdge * (y * buy.ask)
  }

  /** A venue's latest quote is known and its age at a time is neither negative nor beyond the clock's limit. */
  ghost predicate Quoted(setup: Setup, b: Books, v: Venue, timestamp: int)
    requires v in setup.clocks
  {
    v in b.latest && b.latest[v].availableAt <= timestamp <= b.latest[v].availableAt + setup.clocks[v].maximumAgeMs
  }

  /** The route may trade now: a value was marked before, no more trades are open than allowed, and both
      venues are quoted. */
  ghost predicate RouteOpen(setup: Setup, b: Books, timestamp: int, started: bool)
    requires Shaped(setup, b)
  {
    RouteClocks(setup);
    started && b.open < setup.route.maximumOpen && Quoted(setup, b, setup.route.buy, timestamp) && Quoted(setup, b, setup.route.sell, timestamp)
  }

  lemma {:induction false} RouteClocks(setup: Setup)
    requires setup.Valid()
    ensures setup.route.buy in setup.clocks && setup.route.sell in setup.clocks
  {
  }

  lemma {:induction false} FreshIsQuoted(setup: Setup, b: Books, v: Venue, timestamp: int)
    requires Shaped(setup, b) && v in setup.venues
    ensures v in setup.clocks && (v in b.latest ==> b.latest[v].quote.venue == v)
    ensures Quoted(setup, b, v, timestamp) <==> v in b.latest && Fresh(setup, timestamp, b.latest[v])
  {
  }

  lemma {:induction false} EdgeExactly(setup: Setup, buy: Quote, sell: Quote, y: real)
    requires setup.Valid() && buy.Valid() && y > 0.0
    ensures EdgeEligible(setup, buy, sell, y) <==> HasEdge(setup, buy, sell, y)
  {
    hide Setup.Valid;
    RouteVenues(setup);
    RouteCosts(setup);
    var gain := NetProceeds(setup.costs[setup.route.sell], y, sell.bid) - NetCost(setup.costs[setup.route.buy], y, buy.ask);
    assert y * buy.ask > 0.0;
    ShareOf(gain, y * buy.ask, setup.minimumEdge);
  }

  lemma {:induction false} RouteCosts(setup: Setup)
    requires setup.Valid()
    ensures setup.route.buy in setup.costs && setup.route.sell in setup.costs
  {
  }

  lemma {:induction false} ShareOf(gain: real, whole: real, share: real)
    requires whole > 0.0
    ensures gain / whole >= share <==> gain >= share * whole
  {
    QuotientTimes(gain, whole);
    Within(share, gain / whole, whole);
  }

  lemma {:induction false} Within(x: real, y: real, unit: real)
    requires unit > 0.0
    ensures x * unit <= y * unit <==> x <= y
  {
  }

  /** The affordable quantity is the largest positive one both legs may carry, or none when there is none. */
  lemma {:induction false} AffordableIsLargest(setup: Setup, b: Books, buy: Quote, sell: Quote, y: real)
    requires Shaped(setup, b) && buy.Valid() && sell.Valid()
    ensures var x := Affordable(setup, b, buy, sell);
      x >= 0.0 && (x > 0.0 ==> MaySubmit(setup, b, buy, sell, x)) && (y > 0.0 && MaySubmit(setup, b, buy, sell, y) ==> y <= x)
  {
    hide *;
    RouteIsVenue(setup, b);
    var r := setup.route;
    RulesAt(setup, b, r.buy);
    Priced(setup, b, r.buy, buy);
    var cost, available := setup.costs[r.buy], b.cash[r.buy] - b.reservedCash[r.buy];
    var matched, room := MatchedQuantity(setup, buy, sell), b.positions[r.sell] - b.reservedPositions[r.sell];
    var asked, shown := setup.fills[r.buy], setup.fills[r.sell];
    MatchedWithin(setup, buy, sell);
    AffordedIsLargest(matched, matched, matched, available, cost, buy.ask, y);
    AffordedIsLargest(matched, matched, matched, available, cost, buy.ask, if room > 0.0 then room else 0.0);
    AffordableIs(setup, b, buy, sell);
    var x := Affordable(setup, b, buy, sell);
    MaySubmitIs(setup, b, buy, sell, x);
    MaySubmitIs(setup, b, buy, sell, y);
    CheaperPaid(cost, x, Afforded(matched, available, cost, buy.ask), buy.ask, available);
  }

  lemma {:induction false} RouteIsVenue(setup: Setup, b: Books)
    requires Shaped(setup, b)
    ensures setup.Valid() && setup.route.buy in setup.venues && setup.route.sell in setup.venues
    ensures setup.route.sell in b.positions && setup.route.sell in b.reservedPositions
    ensures setup.route.buy in setup.fills && setup.route.sell in setup.fills
  {
  }

  lemma {:induction false} MatchedWithin(setup: Setup, buy: Quote, sell: Quote)
    requires setup.Valid()
    ensures setup.route.buy in setup.fills && setup.route.sell in setup.fills
    ensures var buyRule, sellRule, m := setup.fills[setup.route.buy], setup.fills[setup.route.sell], MatchedQuantity(setup, buy, sell);
      var asked, offered := buy.askSize * buyRule.participation * buyRule.ratio, sell.bidSize * sellRule.participation * sellRule.ratio;
      m <= setup.maximumQuantity && m <= asked && m <= offered && (m == setup.maximumQuantity || m == asked || m == offered)
  {
  }

  lemma {:induction false} AffordableIs(setup: Setup, b: Books, buy: Quote, sell: Quote)
    requires Shaped(setup, b) && buy.Valid() && sell.Valid()
    ensures UnitCost(setup.costs[setup.route.buy], buy.ask) > 0.0
    ensures var r := setup.route;
      var funded := Afforded(MatchedQuantity(setup, buy, sell), b.cash[r.buy] - b.reservedCash[r.buy], setup.costs[r.buy], buy.ask);
      var room := b.positions[r.sell] - b.reservedPositions[r.sell];
      && funded >= 0.0
      && Affordable(setup, b, buy, sell) == (if setup.shortSales || funded <= room then funded else if room > 0.0 then room else 0.0)
  {
    hide MatchedQuantity, Shaped, Setup.Valid, Quote.Valid, Afforded, UnitCost;
    RouteIsVenue(setup, b);
    RulesAt(setup, b, setup.route.buy);
    Priced(setup, b, setup.route.buy, buy);
    var r := setup.route;
    AffordedSign(MatchedQuantity(setup, buy, sell), b.cash[r.buy] - b.reservedCash[r.buy], setup.costs[r.buy], buy.ask);
    Cut(Afforded(MatchedQuantity(setup, buy, sell), b.cash[r.buy] - b.reservedCash[r.buy], setup.costs[r.buy], buy.ask),
        b.positions[r.sell] - b.reservedPositions[r.sell]);
  }

  lemma {:induction false} Cut(funded: real, room: real)
    requires funded >= 0.0
    ensures Min(funded, Max(room, 0.0)) == if funded <= room then funded else if room > 0.0 then room else 0.0
  {
  }

  lemma {:induction false} AffordedSign(wanted: real, available: real, cost: Cost, ask: real)
    requires UnitCost(cost, ask) > 0.0
    ensures Afforded(wanted, available, cost, ask) >= 0.0
  {
    hide UnitCost;
    QuotientSigns(available - cost.fixedFee, UnitCost(cost, ask));
  }

  lemma {:induction false} QuotientSigns(x: real, y: real)
    requires y > 0.0
    ensures x > 0.0 ==> x / y > 0.0
  {
  }

  lemma {:induction false} MaySubmitIs(setup: Setup, b: Books, buy: Quote, sell: Quote, y: real)
    requires Shaped(setup, b)
    ensures setup.route.buy in setup.fills && setup.route.sell in setup.fills && setup.route.buy in setup.costs
    ensures setup.route.buy in b.cash && setup.route.buy in b.reservedCash
    ensures setup.route.sell in b.positions && setup.route.sell in b.reservedPositions
    ensures var r := setup.route;
      var buyRule, sellRule := setup.fills[r.buy], setup.fills[r.sell];
      MaySubmit(setup, b, buy, sell, y)
      <==> && y <= setup.maximumQuantity && y <= buy.askSize * buyRule.participation * buyRule.ratio
           && y <= sell.bidSize * sellRule.participation * sellRule.ratio
           && NetCost(setup.costs[r.buy], y, buy.ask) <= b.cash[r.buy] - b.reservedCash[r.buy]
           && (setup.shortSales || y <= b.positions[r.sell] - b.reservedPositions[r.sell])
  {
  }

  lemma {:induction false} CheaperPaid(cost: Cost, x: real, most: real, ask: real, available: real)
    requires ask > 0.0 && cost.feeRate >= 0.0
    ensures x <= most && NetCost(cost, most, ask) <= available ==> NetCost(cost, x, ask) <= available
  {
    hide NetCost;
    CostByUnits(cost, x, ask);
    CostByUnits(cost, most, ask);
    assert UnitCost(cost, ask) > 0.0;
    if x <= most { TimesUnit(most, x, UnitCost(cost, ask)); }
  }

  /** A decision submits the largest positive quantity both legs may carry, exactly when the route is
      open and that quantity has its edge; otherwise it submits nothing. */
  lemma {:induction false} SubmitsLargest(setup: Setup, b: Books, timestamp: int, started: bool, y: real)
    requires Shaped(setup, b)
    ensures var x, r := Eligible(setup, b, timestamp, started), setup.route;
      && (x > 0.0 ==>
            && RouteOpen(setup, b, timestamp, started) && r.buy in b.latest && r.sell in b.latest
            && var buy, sell := b.latest[r.buy].quote, b.latest[r.sell].quote;
               MaySubmit(setup, b, buy, sell, x) && HasEdge(setup, buy, sell, x) && (MaySubmit(setup, b, buy, sell, y) ==> y <= x))
      && (RouteOpen(setup, b, timestamp, started) && r.buy in b.latest && r.sell in b.latest ==>
            var buy, sell := b.latest[r.buy].quote, b.latest[r.sell].quote;
            y > 0.0 && MaySubmit(setup, b, buy, sell, y) && (forall z :: MaySubmit(setup, b, buy, sell, z) ==> z <= y) ==>
              x == if HasEdge(setup, buy, sell, y) then y else 0.0)
  {
    hide MaySubmit, HasEdge, Affordable, EdgeEligible, Fresh, Quoted, Setup.Valid;
    RouteIsVenue(setup, b);
    var r := setup.route;
    FreshIsQuoted(setup, b, r.buy, timestamp);
    FreshIsQuoted(setup, b, r.sell, timestamp);
    if r.buy in b.latest && r.sell in b.latest {
      var buy, sell := b.latest[r.buy].quote, b.latest[r.sell].quote;
      var x := Affordable(setup, b, buy, sell);
      AffordableIsLargest(setup, b, buy, sell, y);
      if x > 0.0 { EdgeExactly(setup, buy, sell, x); }
    }
  }

  /** What a trade's two legs are: each arrives its own latency after the decision, asks for what the fill
      ratio turns into the quantity, and reserves the buy's whole cost and the position it sells. */
  lemma {:induction false} LegsOfTrade(setup: Setup, b: Books, timestamp: int, quantity: real)
    requires Shaped(setup, b) && setup.route.buy in b.latest
    requires setup.fills[setup.route.buy].ratio > 0.0 && setup.fills[setup.route.sell].ratio > 0.0
    ensures var r, buy, sell := setup.route, BuyOrder(setup, b, timestamp, quantity), SellOrder(setup, b, timestamp, quantity);
      && buy.arrivalAt == timestamp + r.buyLatencyMs && sell.arrivalAt == timestamp + r.sellLatencyMs
      && buy.side == Buy && buy.venue == r.buy && sell.side == Sell && sell.venue == r.sell && buy.trade == sell.trade == b.nextTrade
      && buy.requested * setup.fills[r.buy].ratio == quantity && sell.requested * setup.fills[r.sell].ratio == quantity
      && buy.reservedCash == quantity * b.latest[r.buy].quote.ask * (1.0 + setup.costs[r.buy].feeRate) + setup.costs[r.buy].fixedFee
      && buy.reservedQuantity == 0.0 && sell.reservedCash == 0.0 && sell.reservedQuantity == if setup.shortSales then 0.0 else quantity
  {
    QuotientTimes(quantity, setup.fills[setup.route.buy].ratio);
    QuotientTimes(quantity, setup.fills[setup.route.sell].ratio);
  }

  /** A reservation holds until its leg arrives: whatever happened in between, a buy whose reserved cash
      still pays for its quantity and whose quote shows enough is filled whole. */
  lemma {:induction false} ReservedBuyFillsWhole(setup: Setup, b: Books, live: Live, s: nat, q: Quote, quantity: real)
    requires Shaped(setup, b) && Numbered(setup, b, live) && Reserved(setup, b, live) && s in live && live[s].side.Buy? && q.Valid()
    requires live[s].venue in setup.venues && live[s].venue in b.reservedCash && live[s].venue in b.reservedPositions
    requires Shaped(setup, Released(b, live[s])) && quantity > 0.0
    requires var rule, cost := setup.fills[live[s].venue], setup.costs[live[s].venue];
      && live[s].requested * rule.ratio == quantity <= q.askSize * rule.participation * rule.ratio
      && quantity * q.ask * (1.0 + cost.feeRate) + cost.fixedFee <= live[s].reservedCash
    ensures BuyQuantity(setup, Released(b, live[s]), live[s], q) == quantity
  {
    hide Shaped, Setup.Valid, Numbered, Reserved, BuyQuantity;
    var o, released := live[s], Released(b, live[s]);
    ReleaseKeeps(setup, b, live, s);
    ShapedValid(setup, b);
    LegVenue(setup, b, live, s);
    RulesAt(setup, released, o.venue);
    BuyIsLargest(setup, released, o, q, quantity);
  }

  // ---------------------------------------------------------------- what an executed leg changes

  /** What a fill of some quantity, notional and fee moves: its venue's cash and position and the totals. */
  ghost predicate Moves(b: Books, o: Order, x: real, notional: real, fee: real, after: Books) {
    && o.venue in b.cash && o.venue in b.positions
    && if x == 0.0 then
         && after.cash == b.cash && after.positions == b.positions && after.gross == b.gross && after.fees == b.fees
         && after.filledBuy == b.filledBuy && after.filledSell == b.filledSell
       else
         && after.gross == b.gross + notional && after.fees == b.fees + fee
         && if o.side == Buy then
              && after.cash == b.cash[o.venue := b.cash[o.venue] - (notional + fee)]
              && after.positions == b.positions[o.venue := b.positions[o.venue] + x]
              && after.filledBuy == b.filledBuy + x && after.filledSell == b.filledSell
            else
              && after.cash == b.cash[o.venue := b.cash[o.venue] + (notional - fee)]
              && after.positions == b.positions[o.venue := b.positions[o.venue] - x]
              && after.filledSell == b.filledSell + x && after.filledBuy == b.filledBuy
  }

  /** What a leg gives back: its own reservation, and no other. */
  ghost predicate GivesBack(b: Books, o: Order, after: Books) {
    && o.venue in b.reservedCash && o.venue in b.reservedPositions
    && after.reservedCash == (if o.side == Buy then b.reservedCash[o.venue := b.reservedCash[o.venue] - o.reservedCash] else b.reservedCash)
    && after.reservedPositions == (if o.side == Buy then b.reservedPositions
                                   else b.reservedPositions[o.venue := b.reservedPositions[o.venue] - o.reservedQuantity])
  }

  /** An arriving leg gives back what it reserved, fills something only at a quote neither early nor stale,
      and moves its venue's cash and position and the totals by that fill, its notional and its fees. */
  lemma {:induction false} LegByNumbers(setup: Setup, b: Books, o: Order, after: Books) returns (x: real, notional: real, fee: real)
    requires Executes(setup, b, o, after)
    ensures o.venue in setup.clocks && o.venue in setup.costs && x >= 0.0
    ensures GivesBack(b, o, after) && Moves(b, o, x, notional, fee, after)
    ensures if Quoted(setup, b, o.venue, o.arrivalAt) then
              && o.venue in b.latest && Shaped(setup, Released(b, o)) && o.venue in setup.venues && b.latest[o.venue].quote.Valid()
              && var q := b.latest[o.venue].quote;
              && x == (if o.side == Buy then BuyQuantity(setup, Released(b, o), o, q) else SellQuantity(setup, Released(b, o), o, q))
              && notional == x * (if o.side == Buy then q.ask else q.bid)
              && fee == notional * setup.costs[o.venue].feeRate + setup.costs[o.venue].fixedFee
            else x == 0.0
  {
    hide Shaped, Setup.Valid, BuyQuantity, SellQuantity, NonNegative, Quoted, Fresh, Completed, Filled, Notional, Fee, Moves, GivesBack;
    RulesAt(setup, b, o.venue);
    FreshIsQuoted(setup, b, o.venue, o.arrivalAt);
    ReleasedShaped(setup, b, o);
    var released := Released(b, o);
    x, notional, fee := 0.0, 0.0, 0.0;
    var filled := released;
    if Quoted(setup, b, o.venue, o.arrivalAt) {
      QuoteIsValid(setup, b, o.venue);
      var q := b.latest[o.venue].quote;
      x := if o.side == Buy then BuyQuantity(setup, released, o, q) else SellQuantity(setup, released, o, q);
      notional := Notional(x, if o.side == Buy then q.ask else q.bid);
      fee := Fee(setup.costs[o.venue], notional);
      AmountsAre(x, if o.side == Buy then q.ask else q.bid, setup.costs[o.venue]);
      FilledBy(setup, released, o, q);
      filled := Filled(setup, released, o, q).value.0;
    }
    ReleaseMoves(b, o, notional, fee);
    CompletedMoves(b, o, x, notional, fee, filled);
  }

  lemma {:induction false} CompletedMoves(b: Books, o: Order, x: real, notional: real, fee: real, filled: Books)
    requires o.venue in b.cash && o.venue in b.positions && o.venue in b.reservedCash && o.venue in b.reservedPositions && x >= 0.0
    requires Released(b, o).cash == b.cash && Released(b, o).positions == b.positions
    requires filled == if x == 0.0 then Released(b, o)
                       else if o.side == Buy then Bought(Released(b, o), o.venue, x, notional, fee)
                       else Sold(Released(b, o), o.venue, x, notional, fee)
    ensures Completed(filled, o, x).Ok? ==>
      GivesBack(b, o, Completed(filled, o, x).value) && Moves(b, o, x, notional, fee, Completed(filled, o, x).value)
  {
    hide Completed, Moves, GivesBack, Released, Bought, Sold;
    if x == 0.0 {
      ReleaseMoves(b, o, notional, fee);
    } else if o.side == Buy {
      BuyMoves(b, o, x, notional, fee);
    } else {
      SellMoves(b, o, x, notional, fee);
    }
    CompletedAccounts(filled, o, x);
    if Completed(filled, o, x).Ok? { MovesAlike(b, o, x, notional, fee, filled, Completed(filled, o, x).value); }
  }

  lemma {:induction false} ReleaseMoves(b: Books, o: Order, notional: real, fee: real)
    requires o.venue in b.cash && o.venue in b.positions && o.venue in b.reservedCash && o.venue in b.reservedPositions
    ensures GivesBack(b, o, Released(b, o)) && Moves(b, o, 0.0, notional, fee, Released(b, o))
    ensures Released(b, o).cash == b.cash && Released(b, o).positions == b.positions
  {
  }

  lemma {:induction false} BuyMoves(b: Books, o: Order, x: real, notional: real, fee: real)
    requires o.venue in b.cash && o.venue in b.positions && o.venue in b.reservedCash && o.venue in b.reservedPositions
    requires o.side == Buy && x > 0.0 && o.venue in Released(b, o).cash && o.venue in Released(b, o).positions
    ensures var after := Bought(Released(b, o), o.venue, x, notional, fee); GivesBack(b, o, after) && Moves(b, o, x, notional, fee, after)
  {
  }

  lemma {:induction false} SellMoves(b: Books, o: Order, x: real, notional: real, fee: real)
    requires o.venue in b.cash && o.venue in b.positions && o.venue in b.reservedCash && o.venue in b.reservedPositions
    requires o.side == Sell && x > 0.0 && o.venue in Released(b, o).cash && o.venue in Released(b, o).positions
    ensures var after := Sold(Released(b, o), o.venue, x, notional, fee); GivesBack(b, o, after) && Moves(b, o, x, notional, fee, after)
  {
  }

  lemma {:induction false} MovesAlike(b: Books, o: Order, x: real, notional: real, fee: real, filled: Books, after: Books)
    requires GivesBack(b, o, filled) && Moves(b, o, x, notional, fee, filled)
    requires after.cash == filled.cash && after.positions == filled.positions && after.reservedCash == filled.reservedCash
    requires after.reservedPositions == filled.reservedPositions && after.gross == filled.gross && after.fees == filled.fees
    requires after.filledBuy == filled.filledBuy && after.filledSell == filled.filledSell
    ensures GivesBack(b, o, after) && Moves(b, o, x, notional, fee, after)
  {
  }

  lemma {:induction false} AmountsAre(quantity: real, price: real, cost: Cost)
    ensures Notional(quantity, price) == quantity * price
    ensures Fee(cost, Notional(quantity, price)) == Notional(quantity, price) * cost.feeRate + cost.fixedFee
  {
  }

  lemma {:induction false} QuoteIsValid(setup: Setup, b: Books, v: Venue)
    requires Shaped(setup, b) && v in b.latest
    ensures b.latest[v].quote.Valid() && v in setup.venues
  {
  }

  lemma {:induction false} ReleasedShaped(setup: Setup, b: Books, o: Order)
    requires Shaped(setup, b) && o.venue in setup.venues
    ensures o.venue in b.reservedCash && o.venue in b.reservedPositions && Shaped(setup, Released(b, o))
  {
    hide Setup.Valid;
  }

  lemma {:induction false} CompletedAccounts(b: Books, o: Order, quantity: real)
    ensures Completed(b, o, quantity).Ok? ==>
      var after := Completed(b, o, quantity).value;
      && after.cash == b.cash && after.positions == b.positions && after.reservedCash == b.reservedCash
      && after.reservedPositions == b.reservedPositions && after.gross == b.gross && after.fees == b.fees
      && after.filledBuy == b.filledBuy && after.filledSell == b.filledSell
  {
    hide Without;
    if Completed(b, o, quantity).Ok? {
      var fills, left := b.filled[o.trade][o.side := quantity], b.remaining[o.trade] - 1;
      if left > 0 {
        assert Completed(b, o, quantity).value == b.(filled := b.filled[o.trade := fills], remaining := b.remaining[o.trade := left]);
      }
    }
  }

  lemma {:induction false} FilledBy(setup: Setup, b: Books, o: Order, q: Quote)
    requires Shaped(setup, b) && o.venue in setup.venues && q.Valid()
    ensures o.venue in b.cash && o.venue in b.positions && o.venue in setup.costs
    ensures BuyQuantity(setup, b, o, q) >= 0.0 && SellQuantity(setup, b, o, q) >= 0.0
    ensures Filled(setup, b, o, q).Ok? ==>
      var x := if o.side == Buy then BuyQuantity(setup, b, o, q) else SellQuantity(setup, b, o, q);
      var price, cost := if o.side == Buy then q.ask else q.bid, setup.costs[o.venue];
      var notional := Notional(x, price);
      var fee := Fee(cost, notional);
      Filled(setup, b, o, q).value
      == (if x <= 0.0 then b
          else if o.side == Buy then Bought(b, o.venue, x, notional, fee) else Sold(b, o.venue, x, notional, fee),
          if x <= 0.0 then 0.0 else x)
  {
    hide Shaped, Setup.Valid, BuyQuantity, SellQuantity, NonNegative, Bought, Sold, Notional, Fee;
    RulesAt(setup, b, o.venue);
    BuySign(setup, b, o, q);
    SellSign(setup, b, o, q);
  }

  lemma {:induction false} BuySign(setup: Setup, b: Books, o: Order, q: Quote)
    requires Shaped(setup, b) && o.venue in setup.venues && q.Valid()
    ensures BuyQuantity(setup, b, o, q) >= 0.0
  {
    hide *;
    RulesAt(setup, b, o.venue);
    Priced(setup, b, o.venue, q);
    BuyIsAfforded(setup, b, o, q);
    var rule := setup.fills[o.venue];
    AffordedSign(Filling(o.requested, Shown(q.askSize, rule), rule.ratio), b.cash[o.venue] - b.reservedCash[o.venue], setup.costs[o.venue], q.ask);
  }

  lemma {:induction false} SellSign(setup: Setup, b: Books, o: Order, q: Quote)
    requires Shaped(setup, b) && o.venue in setup.venues && q.Valid()
    ensures SellQuantity(setup, b, o, q) >= 0.0
  {
    hide Filling, Shown, Setup.Valid;
  }

  // ---------------------------------------------------------------- marking the account

  /** The positions of some venues at given prices. */
  function WorthAt(positions: map<Venue, real>, prices: map<Venue, real>, venues: seq<Venue>): real
    requires forall v :: v in venues ==> v in positions && v in prices
  {
    if venues == [] then 0.0 else Notional(positions[venues[0]], prices[venues[0]]) + WorthAt(positions, prices, venues[1..])
  }

  /** Prices inside the latest quote wherever something is held. */
  ghost predicate InsideQuotes(b: Books, prices: map<Venue, real>, venues: seq<Venue>) {
    forall v :: v in venues ==>
      && v in b.positions && v in prices
      && (b.positions[v] != 0.0 ==> v in b.latest && b.latest[v].quote.bid <= prices[v] <= b.latest[v].quote.ask)
  }

  /** The price a position could be closed at: the bid for a long one, the ask for a short one. */
  ghost predicate ClosingPrices(b: Books, prices: map<Venue, real>, venues: seq<Venue>) {
    forall v :: v in venues ==>
      && v in b.positions && v in prices
      && (b.positions[v] != 0.0 ==>
            v in b.latest && prices[v] == if b.positions[v] > 0.0 then b.latest[v].quote.bid else b.latest[v].quote.ask)
  }

  lemma {:induction false} MarkedExactly(setup: Setup, b: Books, venues: seq<Venue>, timestamp: int)
    requires Shaped(setup, b) && forall v :: v in venues ==> v in setup.venues && v in setup.clocks
    ensures Marked(setup, b, venues, timestamp).Some?
       <==> forall v :: v in venues && v in b.positions && b.positions[v] != 0.0 ==> Quoted(setup, b, v, timestamp)
  {
    hide Setup.Valid, Quoted, Fresh, Shaped;
    if venues != [] {
      var v := venues[0];
      MarkedExactly(setup, b, venues[1..], timestamp);
      FreshIsQuoted(setup, b, v, timestamp);
      HeldAt(setup, b, v);
      assert forall u :: u in venues <==> u == v || u in venues[1..];
    }
  }

  /** What one venue adds to a mark. */
  lemma {:induction false} MarkedAdds(setup: Setup, b: Books, venues: seq<Venue>, timestamp: int)
    requires Shaped(setup, b) && venues != [] && forall v :: v in venues ==> v in setup.venues
    requires Marked(setup, b, venues, timestamp).Some?
    ensures var v := venues[0];
      && v in b.positions && Marked(setup, b, venues[1..], timestamp).Some?
      && (b.positions[v] == 0.0 ==> Marked(setup, b, venues, timestamp) == Marked(setup, b, venues[1..], timestamp))
      && (b.positions[v] != 0.0 ==>
            v in b.latest
            && Marked(setup, b, venues, timestamp).value
               == Notional(b.positions[v], if b.positions[v] >= 0.0 then b.latest[v].quote.bid else b.latest[v].quote.ask)
                  + Marked(setup, b, venues[1..], timestamp).value)
  {
    hide Setup.Valid, Fresh;
  }

  lemma {:induction false} MarkedIsWorst(setup: Setup, b: Books, venues: seq<Venue>, timestamp: int, prices: map<Venue, real>)
    requires Shaped(setup, b) && (forall v :: v in venues ==> v in setup.venues) && Marked(setup, b, venues, timestamp).Some?
    ensures InsideQuotes(b, prices, venues) ==> Marked(setup, b, venues, timestamp).value <= WorthAt(b.positions, prices, venues)
    ensures ClosingPrices(b, prices, venues) ==> Marked(setup, b, venues, timestamp).value == WorthAt(b.positions, prices, venues)
  {
    hide Setup.Valid, Shaped, Notional, Marked;
    if venues == [] {
      NothingMarked(setup, b, timestamp);
    } else {
      var v := venues[0];
      MarkedAdds(setup, b, venues, timestamp);
      MarkedIsWorst(setup, b, venues[1..], timestamp, prices);
      if v in prices {
        NothingHeld(prices[v]);
        if v in b.latest { WorstPrice(b.positions[v], b.latest[v].quote.bid, b.latest[v].quote.ask, prices[v]); }
      }
    }
  }

  lemma {:induction false} NothingMarked(setup: Setup, b: Books, timestamp: int)
    requires Shaped(setup, b)
    ensures Marked(setup, b, [], timestamp) == Some(0.0)
  {
  }

  lemma {:induction false} NothingHeld(price: real)
    ensures Notional(0.0, price) == 0.0
  {
  }

  lemma {:induction false} HeldAt(setup: Setup, b: Books, v: Venue)
    requires Shaped(setup, b) && v in setup.venues
    ensures v in b.positions && v in b.cash
  {
  }

  lemma {:induction false} WorstPrice(position: real, bid: real, ask: real, price: real)
    ensures bid <= price <= ask ==> Notional(position, if position >= 0.0 then bid else ask) <= Notional(position, price)
  {
    if bid <= price <= ask {
      if position >= 0.0 { assert position * (price - bid) >= 0.0; } else { assert (-position) * (ask - price) >= 0.0; }
    }
  }

  /** The account is marked exactly when everything held is freshly quoted, and then at the lowest value
      any prices inside the quotes give it: what closing every position at once would leave before fees. */
  lemma {:induction false} MarkIsWorst(setup: Setup, b: Books, timestamp: int, prices: map<Venue, real>)
    requires Shaped(setup, b)
    ensures forall v :: v in setup.venues ==> v in setup.clocks && v in b.cash && v in b.positions
    ensures var e := EquityAt(setup, b, timestamp);
      && (e.Some? <==> forall v :: v in setup.venues && v in b.positions && b.positions[v] != 0.0 ==> Quoted(setup, b, v, timestamp))
      && (e.Some? && InsideQuotes(b, prices, setup.venues) ==>
            e.value <= SumOver(setup.venues, b.cash) + WorthAt(b.positions, prices, setup.venues))
      && (e.Some? && ClosingPrices(b, prices, setup.venues) ==>
            e.value == SumOver(setup.venues, b.cash) + WorthAt(b.positions, prices, setup.venues))
  {
    hide Marked, Quoted, Setup.Valid;
    forall v | v in setup.venues ensures v in setup.clocks && v in b.cash && v in b.positions {
      HeldAt(setup, b, v);
      FreshIsQuoted(setup, b, v, timestamp);
    }
    MarkedExactly(setup, b, setup.venues, timestamp);
    if Marked(setup, b, setup.venues, timestamp).Some? { MarkedIsWorst(setup, b, setup.venues, timestamp, prices); }
  }
}
