/** The cross-venue event loop over an account updated in place. */
module CrossVenue {
  import opened CrossVenueBooks
  import opened CrossVenueFailure
  import opened CrossVenueLaws
  import opened CrossVenueSchedule
  import opened CrossVenueTrace
  import opened CrossVenueTrades
  import opened Ordering
  import opened Outcomes

  // ---------------------------------------------------------------- the run

  datatype RunResult = RunResult(
    initialEquity: real, finalEquity: real, equityPath: seq<real>, gross: real, fees: real, filledBuy: real, filledSell: real,
    decisions: nat, orders: nat, startedAt: int, finishedAt: int)

  /** The only errors a run can end with; the others the source checks for cannot happen. */
  ghost predicate MayFail(error: Error) {
    error.ResidualRisk? || error.EquityNotPositive? || error.StaleAfterExecution? || error.NeverMarked? || error.FinalStale?
  }

  /** The result's equities are the ends of a positive path. */
  ghost predicate Valued(r: RunResult) {
    && r.equityPath != [] && r.initialEquity == r.equityPath[0] && r.finalEquity == r.equityPath[|r.equityPath| - 1]
    && forall i :: 0 <= i < |r.equityPath| ==> r.equityPath[i] > 0.0
  }

  /** A drained account: nothing reserved or open, as much bought as sold, totals conserved. */
  ghost predicate Settled(setup: Setup, b: Books, f: Flows)
  {
    && Shaped(setup, b) && Conserved(setup, b, f) && b.pending == map[] && b.open == 0 && b.remaining == map[] && b.filled == map[]
    && (forall v :: v in b.reservedCash ==> b.reservedCash[v] == 0.0) && (forall v :: v in b.reservedPositions ==> b.reservedPositions[v] == 0.0)
    && b.filledBuy == b.filledSell && b.orders == 2 * b.decisions == 2 * b.nextTrade
    && SumOver(setup.venues, b.positions) == SumOver(setup.venues, setup.positions)
    && SumOver(setup.venues, b.cash) == SumOver(setup.venues, setup.cash) + f.sold - f.bought - b.fees
  }

  lemma {:induction false} CashKeys(setup: Setup, b: Books)
    requires Shaped(setup, b)
    ensures forall v :: v in setup.venues ==> v in b.cash && v in setup.cash
  {
  }

  lemma {:induction false} MayFailThus(error: Error)
    ensures error.ResidualRisk? || error.EquityNotPositive? || error.StaleAfterExecution? ==> MayFail(error)
    ensures MayFail(NeverMarked) && MayFail(FinalStale)
  {
  }

  lemma {:induction false} SettledAtEnd(setup: Setup, b: Books, f: Flows)
    requires Inv(setup, b, map[], f) && b.pending == map[]
    ensures Settled(setup, b, f) && NonNegative(b.cash)
    ensures Gain(f) == SumOver(setup.venues, b.cash) - SumOver(setup.venues, setup.cash)
  {
    hide Numbered, Legs, Balanced, SumOver, Total, BuyReserve, SellReserve, Setup.Valid;
    DrainedBooks(setup, b, f);
    CountedOrders(setup, b, map[]);
  }

  lemma {:induction false} CountedOrders(setup: Setup, b: Books, live: Live)
    requires Numbered(setup, b, live)
    ensures b.orders == 2 * b.decisions == 2 * b.nextTrade
  {
  }

  /** A result reports the final account and the recorded path, over the run's first and last moment. */
  ghost predicate Reports(r: RunResult, b: Books, trace: seq<Moment>) {
    && trace != [] && FinalMarks(trace) == Marks(r.equityPath, Some(r.finishedAt))
    && r.startedAt == FirstTime(trace) && r.finishedAt == LastTime(trace)
    && r.fees == b.fees && r.gross == b.gross && r.filledBuy == b.filledBuy && r.filledSell == b.filledSell
    && r.decisions == b.decisions && r.orders == b.orders
  }

  class CrossVenueState {
    const setup: Setup
    var cash: map<Venue, real>
    var positions: map<Venue, real>
    var reservedCash: map<Venue, real>
    var reservedPositions: map<Venue, real>
    var latestQuotes: map<Venue, Arrival>
    var pendingByTime: map<int, seq<Order>>
    var openRoutes: int
    var remainingLegs: map<nat, int>
    var filledByTrade: map<nat, map<Side, real>>
    var nextSequence: nat
    var nextTradeId: nat
    var decisionCount: nat
    var orderCount: nat
    var grossNotional: real
    var fees: real
    var filledBuyQuantity: real
    var filledSellQuantity: real
    var equityPath: seq<real>
    var returnPath: seq<real>
    var initialEquity: Option<real>
    var startedAt: Option<int>
    var finishedAt: Option<int>
    var lastEquityAt: Option<int>
    ghost var live: Live
    ghost var flows: Flows

    function Account(): Books
      reads this`cash, this`positions, this`reservedCash, this`reservedPositions, this`latestQuotes, this`pendingByTime, this`openRoutes,
            this`remainingLegs, this`filledByTrade, this`nextSequence, this`nextTradeId, this`decisionCount, this`orderCount,
            this`grossNotional, this`fees, this`filledBuyQuantity, this`filledSellQuantity
    {
      Books(cash, positions, reservedCash, reservedPositions, latestQuotes, pendingByTime, openRoutes, remainingLegs, filledByTrade,
            nextSequence, nextTradeId, decisionCount, orderCount, grossNotional, fees, filledBuyQuantity, filledSellQuantity)
    }

    ghost predicate Sound()
      reads this`cash, this`positions, this`reservedCash, this`reservedPositions, this`latestQuotes, this`pendingByTime, this`openRoutes,
            this`remainingLegs, this`filledByTrade, this`nextSequence, this`nextTradeId, this`decisionCount, this`orderCount,
            this`grossNotional, this`fees, this`filledBuyQuantity, this`filledSellQuantity,
            this`live, this`flows
    {
      Inv(setup, Account(), live, flows)
    }

    lemma {:induction false} SoundParts()
      requires Sound()
      ensures setup.Valid() && Shaped(setup, Account()) && Inv(setup, Account(), live, flows) && NonNegative(cash)
    {
      AllCashNonNegative(setup, Account(), live, flows);
    }

    lemma {:induction false} SoundAgain()
      requires Inv(setup, Account(), live, flows)
      ensures Sound()
    {
    }

    constructor (setup: Setup)
      requires setup.Valid()
      ensures this.setup == setup && Sound() && Account() == StartBooks(setup) && live == map[] && flows == NO_FLOWS
      ensures initialEquity.None? && equityPath == [] && startedAt.None? && finishedAt.None? && lastEquityAt.None?
    {
      this.setup := setup;
      cash, positions := setup.cash, setup.positions;
      reservedCash := map v | v in setup.cash :: 0.0;
      reservedPositions := map v | v in setup.positions :: 0.0;
      latestQuotes, pendingByTime, openRoutes, remainingLegs, filledByTrade := map[], map[], 0, map[], map[];
      nextSequence, nextTradeId, decisionCount, orderCount := 0, 0, 0, 0;
      grossNotional, fees, filledBuyQuantity, filledSellQuantity := 0.0, 0.0, 0.0, 0.0;
      equityPath, returnPath, initialEquity, startedAt, finishedAt, lastEquityAt := [], [], None, None, None, None;
      live, flows := map[], NO_FLOWS;
      new;
      StartIsSound(setup);
    }

    method BookPurchase(v: Venue, quantity: real, notional: real, fee: real)
      requires v in cash && v in positions
      modifies this`cash, this`positions, this`grossNotional, this`fees, this`filledBuyQuantity
      ensures Account() == Bought(old(Account()), v, quantity, notional, fee)
    {
      var left := cash[v] - (notional + fee);
      var held := positions[v] + quantity;
      cash := cash[v := left];
      positions := positions[v := held];
      grossNotional := grossNotional + notional;
      fees := fees + fee;
      filledBuyQuantity := filledBuyQuantity + quantity;
    }

    method BookSale(v: Venue, quantity: real, notional: real, fee: real)
      requires v in cash && v in positions
      modifies this`cash, this`positions, this`grossNotional, this`fees, this`filledSellQuantity
      ensures Account() == Sold(old(Account()), v, quantity, notional, fee)
    {
      var proceeds := cash[v] + (notional - fee);
      var held := positions[v] - quantity;
      cash := cash[v := proceeds];
      positions := positions[v := held];
      grossNotional := grossNotional + notional;
      fees := fees + fee;
      filledSellQuantity := filledSellQuantity + quantity;
    }

    /** Fills a buy leg at a quote; the error is the source's own overdraft check. */
    method FillBuy(o: Order, q: Quote) returns (r: Result<real, Error>)
      requires Shaped(setup, Account()) && o.venue in setup.venues && q.Valid() && o.side.Buy?
      modifies this`cash, this`positions, this`grossNotional, this`fees, this`filledBuyQuantity
      ensures var fill := Filled(setup, old(Account()), o, q);
        if fill.Err? then r == Err(fill.error) else r == Ok(fill.value.1) && Account() == fill.value.0
    {
      hide Shaped, Setup.Valid, BuyQuantity, Notional, Fee, NonNegative, Bought;
      ShapedKeys(setup, Account(), o.venue);
      var quantity, cost := BuyQuantity(setup, Account(), o, q), setup.costs[o.venue];
      if quantity <= 0.0 {
        return Ok(0.0);
      }
      var notional := Notional(quantity, q.ask);
      var fee := Fee(cost, notional);
      if notional + fee > cash[o.venue] - reservedCash[o.venue] {
        return Err(FillExceedsCash);
      }
      BookPurchase(o.venue, quantity, notional, fee);
      if !NonNegative(Account().cash) {
        return Err(CashNegative);
      }
      return Ok(quantity);
    }

    method FillSell(o: Order, q: Quote) returns (r: Result<real, Error>)
      requires Shaped(setup, Account()) && o.venue in setup.venues && q.Valid() && o.side.Sell?
      modifies this`cash, this`positions, this`grossNotional, this`fees, this`filledSellQuantity
      ensures var fill := Filled(setup, old(Account()), o, q);
        if fill.Err? then r == Err(fill.error) else r == Ok(fill.value.1) && Account() == fill.value.0
    {
      hide Shaped, Setup.Valid, SellQuantity, Notional, Fee, NonNegative, Sold;
      ShapedKeys(setup, Account(), o.venue);
      var quantity, cost := SellQuantity(setup, Account(), o, q), setup.costs[o.venue];
      if quantity <= 0.0 {
        return Ok(0.0);
      }
      var notional := Notional(quantity, q.bid);
      var fee := Fee(cost, notional);
      BookSale(o.venue, quantity, notional, fee);
      if !NonNegative(Account().cash) {
        return Err(CashNegative);
      }
      return Ok(quantity);
    }

    method CompleteLeg(o: Order, quantity: real) returns (error: Option<Error>)
      modifies this`filledByTrade, this`remainingLegs, this`openRoutes
      ensures var r := Completed(old(Account()), o, quantity);
        if r.Err? then error == Some(r.error) else error.None? && Account() == r.value
    {
      if o.trade !in filledByTrade || o.side in filledByTrade[o.trade] || o.trade !in remainingLegs {
        return Some(FillInconsistent);
      }
      var fills := filledByTrade[o.trade][o.side := quantity];
      var remaining := remainingLegs[o.trade] - 1;
      if remaining < 0 {
        return Some(LegUnderflow);
      }
      if remaining > 0 {
        filledByTrade := filledByTrade[o.trade := fills];
        remainingLegs := remainingLegs[o.trade := remaining];
        return None;
      }
      if Buy !in fills || Sell !in fills || fills[Buy] != fills[Sell] {
        return Some(ResidualRisk);
      }
      remainingLegs := Without(remainingLegs, o.trade);
      filledByTrade := Without(filledByTrade, o.trade);
      openRoutes := openRoutes - 1;
      if openRoutes < 0 {
        return Some(RouteUnderflow);
      }
      return None;
    }

    /** Gives back what a leg had reserved. */
    method ReleaseReservation(o: Order) returns (error: Option<Error>)
      requires o.venue in reservedCash && o.venue in reservedPositions
      modifies this`reservedCash, this`reservedPositions
      ensures var released := Released(old(Account()), o);
        && Account() == released
        && error == (if !NonNegative(released.reservedCash) then Some(CashReservationNegative)
                     else if !NonNegative(released.reservedPositions) then Some(PositionReservationNegative) else None)
    {
      hide NonNegative;
      if o.side.Buy? {
        reservedCash := reservedCash[o.venue := reservedCash[o.venue] - o.reservedCash];
      } else {
        reservedPositions := reservedPositions[o.venue := reservedPositions[o.venue] - o.reservedQuantity];
      }
      error := if !NonNegative(reservedCash) then Some(CashReservationNegative)
               else if !NonNegative(reservedPositions) then Some(PositionReservationNegative) else None;
    }

    /** The quantity a leg fills at a venue's latest quote, none when it is stale. */
    method FillLeg(o: Order) returns (r: Result<real, Error>)
      requires Shaped(setup, Account()) && o.venue in setup.venues
      modifies this`cash, this`positions, this`grossNotional, this`fees, this`filledBuyQuantity, this`filledSellQuantity
      ensures o.venue in old(latestQuotes) ==> old(latestQuotes)[o.venue].quote.venue in setup.clocks && old(latestQuotes)[o.venue].quote.Valid()
      ensures if o.venue in old(latestQuotes) && Fresh(setup, o.arrivalAt, old(latestQuotes)[o.venue]) then
                var fill := Filled(setup, old(Account()), o, old(latestQuotes)[o.venue].quote);
                if fill.Err? then r == Err(fill.error) else r == Ok(fill.value.1) && Account() == fill.value.0
              else r == Ok(0.0) && Account() == old(Account())
    {
      hide Filled, Fresh, Setup.Valid, Shaped;
      if o.venue !in latestQuotes {
        return Ok(0.0);
      }
      QuoteKnown(setup, Account(), o.venue);
      if !Fresh(setup, o.arrivalAt, latestQuotes[o.venue]) {
        return Ok(0.0);
      }
      if o.side.Buy? {
        r := FillBuy(o, latestQuotes[o.venue].quote);
      } else {
        r := FillSell(o, latestQuotes[o.venue].quote);
      }
    }

    /** One leg arriving. Of all the errors it checks for, only residual risk can happen. */
    method ExecuteOrder(o: Order) returns (error: Option<Error>)
      requires Sound() && IsLive(live, o)
      modifies this`cash, this`positions, this`reservedCash, this`reservedPositions, this`grossNotional, this`fees, this`filledBuyQuantity,
               this`filledSellQuantity, this`filledByTrade, this`remainingLegs, this`openRoutes, this`live, this`flows
      ensures o.venue in setup.venues && Shaped(setup, old(Account()))
      ensures error.Some? ==> error == Some(ResidualRisk) && Executed(setup, old(Account()), o).Err?
      ensures error.None? ==> Executed(setup, old(Account()), o) == Ok(Account()) && Sound() && live == old(live) - {o.sequence}
      ensures error.None? ==> pendingByTime == old(pendingByTime) && nextSequence == old(nextSequence)
    {
      hide Filled, Completed, Inv, NonNegative, Fresh, Shaped, FlowsOf, Released, Setup.Valid;
      ghost var b := Account();
      InvParts(setup, b, live, flows, o);
      ExecuteKeeps(setup, b, live, flows, o.sequence);
      ghost var afterFlows := FlowsOf(setup, b, flows, o);
      ReleaseShapes(setup, b, live, flows, o);
      error := ReleaseReservation(o);
      if error.Some? {
        return;
      }
      var fill := FillLeg(o);
      if fill.Err? {
        return Some(fill.error);
      }
      error := CompleteLeg(o, fill.value);
      if error.None? {
        live, flows := live - {o.sequence}, afterFlows;
      }
    }

    /** Legs one after another. `path` may name the books they are known to pass through. */
    method ExecuteOrders(orders: seq<Order>, ghost path: Option<seq<Books>>) returns (error: Option<Error>)
      requires Sound() && Scheduled(pendingByTime, live, orders)
      requires path.Some? ==> Chain(setup, path.value, orders) && path.value[0] == Account()
      modifies this`cash, this`positions, this`reservedCash, this`reservedPositions, this`grossNotional, this`fees, this`filledBuyQuantity,
               this`filledSellQuantity, this`filledByTrade, this`remainingLegs, this`openRoutes, this`live, this`flows
      ensures error.Some? ==> error == Some(ResidualRisk) && path.None? && orders != []
      ensures error.None? ==> Sound() && Scheduled(pendingByTime, live, []) && pendingByTime == old(pendingByTime)
      ensures error.None? ==> ExecutesTo(setup, old(Account()), orders, Account())
      ensures error.Some? ==> Stuck(setup, old(Account()), orders)
      ensures path.Some? ==> Account() == path.value[|orders|]
      ensures orders == [] ==> live == old(live) && flows == old(flows) && Account() == old(Account())
    {
      hide Scheduled, Inv, Executed, Shaped, IsLive, ExecutesTo, Stuck;
      assert orders[0..] == orders;
      ExecutesNone(setup, Account());
      for i := 0 to |orders|
        invariant Sound() && Scheduled(pendingByTime, live, orders[i..]) && pendingByTime == old(pendingByTime)
        invariant path.Some? ==> Account() == path.value[i]
        invariant ExecutesTo(setup, old(Account()), orders[..i], Account())
        invariant orders == [] ==> live == old(live) && flows == old(flows) && Account() == old(Account())
      {
        ExecutingSchedules(pendingByTime, live, orders[i..]);
        assert orders[i..][1..] == orders[i + 1..] && orders[i..][0] == orders[i];
        assert path.Some? ==> Executes(setup, path.value[i], orders[i], path.value[i + 1]);
        ghost var mid := Account();
        error := ExecuteOrder(orders[i]);
        if error.Some? {
          FailedLeg(setup, mid, orders[i]);
          StuckAtLeg(setup, old(Account()), orders, i, mid);
          return;
        }
        ExecutesOneMore(setup, old(Account()), orders[..i], mid, orders[i], Account());
        assert orders[..i + 1] == orders[..i] + [orders[i]];
      }
      assert orders[..|orders|] == orders;
      assert orders[|orders|..] == [];
      error := None;
    }

    method ApplyQuotes(quotes: seq<Arrival>)
      modifies this`latestQuotes
      ensures latestQuotes == Noted(old(latestQuotes), quotes)
    {
      for i := 0 to |quotes|
        invariant latestQuotes == Noted(old(latestQuotes), quotes[..i])
      {
        assert quotes[..i + 1][..i] == quotes[..i];
        latestQuotes := latestQuotes[quotes[i].quote.venue := quotes[i]];
      }
      assert quotes[..|quotes|] == quotes;
    }

    /** Submits the route's next trade if it is eligible; returns the legs that arrive at once. */
    method SubmitRouteIfEligible(timestamp: int) returns (immediate: seq<Order>)
      requires Sound() && Scheduled(pendingByTime, live, [])
      modifies this`reservedCash, this`reservedPositions, this`nextTradeId, this`nextSequence, this`openRoutes, this`remainingLegs,
               this`filledByTrade, this`decisionCount, this`orderCount, this`pendingByTime, this`live
      ensures Sound() && Scheduled(pendingByTime, live, immediate) && Shaped(setup, old(Account()))
      ensures if Eligible(setup, old(Account()), timestamp, initialEquity.Some?) <= 0.0
              then immediate == [] && Account() == old(Account()) && live == old(live)
              else TradeSubmitted(setup, old(Account()), timestamp, initialEquity.Some?, Account(), immediate)
    {
      hide Inv, Eligible, Scheduled, Shaped, Setup.Valid, TradeSubmitted;
      InvShaped(setup, Account(), live, flows);
      if Eligible(setup, Account(), timestamp, initialEquity.Some?) <= 0.0 {
        return [];
      }
      immediate := SubmitTrade(timestamp);
    }

    method SubmitTrade(timestamp: int) returns (immediate: seq<Order>)
      requires Sound() && Scheduled(pendingByTime, live, []) && Shaped(setup, Account())
      requires Eligible(setup, Account(), timestamp, initialEquity.Some?) > 0.0
      modifies this`reservedCash, this`reservedPositions, this`nextTradeId, this`nextSequence, this`openRoutes, this`remainingLegs,
               this`filledByTrade, this`decisionCount, this`orderCount, this`pendingByTime, this`live
      ensures Sound() && Scheduled(pendingByTime, live, immediate)
      ensures TradeSubmitted(setup, old(Account()), timestamp, initialEquity.Some?, Account(), immediate)
    {
      hide *;
      ghost var b := Account();
      SoundParts();
      PendingIs();
      SubmissionSound(setup, b, live, flows, timestamp, initialEquity.Some?);
      var quantity := Eligible(setup, Account(), timestamp, initialEquity.Some?);
      var buy, sell := BuyOrder(setup, Account(), timestamp, quantity), SellOrder(setup, Account(), timestamp, quantity);
      immediate := FileTrade(timestamp, buy, sell, Submitted(setup, b, timestamp, buy, sell), WithTrade(live, buy, sell));
    }

    /** Books, numbers and files a trade, given that the outcome is sound. */
    method FileTrade(timestamp: int, buy: Order, sell: Order, ghost after: Books, ghost more: Live) returns (immediate: seq<Order>)
      requires buy.venue in reservedCash && sell.venue in reservedPositions
      requires buy.venue in Account().reservedCash && sell.venue in Account().reservedPositions
      requires after == Opened(Account(), buy, sell).(pending := FiledLegs(Account().pending, timestamp, buy, sell))
      requires Inv(setup, after, more, flows)
      modifies this`reservedCash, this`reservedPositions, this`nextTradeId, this`nextSequence, this`openRoutes, this`remainingLegs,
               this`filledByTrade, this`decisionCount, this`orderCount, this`pendingByTime, this`live
      ensures Sound() && Account() == after && live == more && immediate == Immediate(timestamp, buy, sell)
      ensures pendingByTime == after.pending
    {
      hide *;
      PendingIs();
      OpenTrade(buy, sell);
      immediate := FileLegs(timestamp, buy, sell);
      live := more;
      SoundAgain();
    }

    lemma {:induction false} PendingIs()
      ensures Account().pending == pendingByTime && Account().reservedCash == reservedCash && Account().reservedPositions == reservedPositions
    {
    }

    /** Books a trade's reservations and numbers. */
    method OpenTrade(buy: Order, sell: Order)
      requires buy.venue in reservedCash && sell.venue in reservedPositions
      modifies this`reservedCash, this`reservedPositions, this`nextTradeId, this`nextSequence, this`openRoutes, this`remainingLegs,
               this`filledByTrade, this`decisionCount, this`orderCount
      ensures Account() == Opened(old(Account()), buy, sell)
    {
      var cashHeld := reservedCash[buy.venue] + buy.reservedCash;
      var unitsHeld := reservedPositions[sell.venue] + sell.reservedQuantity;
      reservedCash := reservedCash[buy.venue := cashHeld];
      reservedPositions := reservedPositions[sell.venue := unitsHeld];
      NumberTrade();
    }

    method NumberTrade()
      modifies this`nextTradeId, this`nextSequence, this`openRoutes, this`remainingLegs, this`filledByTrade, this`decisionCount, this`orderCount
      ensures nextTradeId == old(nextTradeId) + 1 && nextSequence == old(nextSequence) + 2 && openRoutes == old(openRoutes) + 1
      ensures remainingLegs == old(remainingLegs)[old(nextTradeId) := 2] && filledByTrade == old(filledByTrade)[old(nextTradeId) := map[]]
      ensures decisionCount == old(decisionCount) + 1 && orderCount == old(orderCount) + 2
    {
      openRoutes := openRoutes + 1;
      remainingLegs := remainingLegs[nextTradeId := 2];
      filledByTrade := filledByTrade[nextTradeId := map[]];
      nextTradeId := nextTradeId + 1;
      nextSequence := nextSequence + 2;
      decisionCount := decisionCount + 1;
      orderCount := orderCount + 2;
    }

    method FileLegs(timestamp: int, buy: Order, sell: Order) returns (immediate: seq<Order>)
      modifies this`pendingByTime
      ensures pendingByTime == FiledLegs(old(pendingByTime), timestamp, buy, sell) && immediate == Immediate(timestamp, buy, sell)
      ensures Account() == old(Account()).(pending := pendingByTime)
    {
      hide Enqueued;
      immediate := [];
      if buy.arrivalAt == timestamp {
        immediate := immediate + [buy];
      } else {
        pendingByTime := Enqueued(pendingByTime, buy);
      }
      if sell.arrivalAt == timestamp {
        immediate := immediate + [sell];
      } else {
        pendingByTime := Enqueued(pendingByTime, sell);
      }
    }

    /** The account marked to market, if every position has a fresh quote. */
    method TryEquity(timestamp: int) returns (equity: Option<real>)
      requires Shaped(setup, Account())
      ensures equity == EquityAt(setup, Account(), timestamp)
    {
      hide Shaped, EquityAt;
      equity := EquityAt(setup, Account(), timestamp);
    }

    /** The recorded path starts at the initial equity, stays positive and is dated. */
    ghost predicate Tracked()
      reads this`initialEquity, this`equityPath, this`returnPath, this`lastEquityAt
    {
      && (initialEquity.Some? <==> equityPath != []) && (lastEquityAt.Some? <==> equityPath != []) && (initialEquity.Some? ==> initialEquity == Some(equityPath[0]))
      && |returnPath| == |equityPath| && forall i :: 0 <= i < |equityPath| ==> equityPath[i] > 0.0
    }

    /** The recorded equities and the time of the last one. */
    function Recorded(): Marks
      reads this`equityPath, this`lastEquityAt
    {
      Marks(equityPath, lastEquityAt)
    }

    /** Records one marked value with its return over the value before; the overdraft check cannot fail. */
    method RecordEquity(equity: Option<real>, timestamp: int) returns (r: Result<bool, Error>)
      requires Tracked() && NonNegative(cash)
      modifies this`initialEquity, this`equityPath, this`returnPath, this`lastEquityAt
      ensures Tracked()
      ensures r == if equity.None? then Ok(false) else if equity.value <= 0.0 then Err(EquityNotPositive) else Ok(true)
      ensures r.Ok? ==> Recorded() == WithMark(old(Recorded()), equity, timestamp)
      ensures r == Ok(true) && old(equityPath) != [] ==>
        returnPath[|returnPath| - 1] == equity.value / old(equityPath)[|old(equityPath)| - 1] - 1.0
    {
      if equity.None? {
        return Ok(false);
      }
      if equity.value <= 0.0 {
        return Err(EquityNotPositive);
      }
      var periodReturn := 0.0;
      if initialEquity.None? {
        initialEquity := equity;
      } else {
        periodReturn := equity.value / equityPath[|equityPath| - 1] - 1.0;
      }
      equityPath := equityPath + [equity.value];
      returnPath := returnPath + [periodReturn];
      lastEquityAt := Some(timestamp);
      if !NonNegative(cash) {
        return Err(CashNegative);
      }
      return Ok(true);
    }

    /** Quotes grouped by the time each becomes observable. */
    method QuoteArrivals() returns (table: map<int, seq<Arrival>>)
      requires QuotesPlaced(setup)
      ensures table == ArrivalTable(setup, setup.quotes)
    {
      table := map[];
      for i := 0 to |setup.quotes|
        invariant table == ArrivalTable(setup, setup.quotes[..i])
      {
        var q := setup.quotes[i];
        assert setup.quotes[..i + 1][..i] == setup.quotes[..i] && setup.quotes[..i + 1][i] == q;
        var at := AvailableAt(setup, q);
        table := table[at := (if at in table then table[at] else []) + [Arrival(at, q)]];
      }
      assert setup.quotes[..|setup.quotes|] == setup.quotes;
    }

    /** With zero latencies nothing ever waits and the account has gained its edge. */
    ghost predicate EdgeKept()
      reads this`pendingByTime, this`live, this`flows
    {
      ZeroLatency(setup) ==> pendingByTime == map[] && live == map[] && Gain(flows) >= setup.minimumEdge * flows.bought
    }

    method RecordInitialEquity(timestamp: int) returns (r: Result<bool, Error>)
      requires Sound() && Tracked()
      modifies this`initialEquity, this`equityPath, this`returnPath, this`lastEquityAt
      ensures Sound() && Tracked() && (r.Err? ==> r.error == EquityNotPositive) && Shaped(setup, Account())
      ensures r.Ok? ==> Recorded() == FirstMark(setup, Account(), old(Recorded()), timestamp)
      ensures r.Ok? ==> (r.value <==> |Recorded().path| != |old(Recorded()).path|)
      ensures r.Err? ==> !AllPositive(FirstMark(setup, Account(), old(Recorded()), timestamp).path)
    {
      hide *;
      SoundParts();
      FirstMarking(setup, Account(), Recorded(), timestamp);
      MarksExtend(Recorded(), EquityAt(setup, Account(), timestamp), timestamp);
      MarksStarted();
      if initialEquity.Some? {
        return Ok(false);
      }
      var equity := TryEquity(timestamp);
      r := RecordEquity(equity, timestamp);
    }

    lemma {:induction false} MarksBegin()
      requires Tracked() && equityPath == []
      ensures Recorded() == NO_MARKS
    {
    }

    lemma {:induction false} MarksStarted()
      requires Tracked()
      ensures initialEquity.Some? <==> Recorded().path != []
      ensures Recorded() == Marks(equityPath, lastEquityAt)
    {
    }

    method NoteQuotes(quotes: seq<Arrival>)
      requires Sound() && forall a :: a in quotes ==> a.quote in setup.quotes
      modifies this`latestQuotes
      ensures Sound() && Account() == old(Account()).(latest := Noted(old(Account()).latest, quotes))
    {
      hide Inv, Noted;
      NotingKeeps(setup, Account(), live, flows, quotes);
      ApplyQuotes(quotes);
    }

    /** The quotes and then the scheduled legs of one timestamp. */
    method QuotesThenOrders(timestamp: int, quotes: seq<Arrival>, orders: seq<Order>) returns (r: Result<bool, Error>)
      requires Sound() && Scheduled(pendingByTime, live, orders) && Tracked() && forall a :: a in quotes ==> a.quote in setup.quotes
      requires EdgeKept() && (ZeroLatency(setup) ==> orders == []) && setup.quoteFirst
      modifies this`cash, this`positions, this`reservedCash, this`reservedPositions, this`grossNotional, this`fees, this`filledBuyQuantity,
               this`filledSellQuantity, this`filledByTrade, this`remainingLegs, this`openRoutes, this`live, this`flows,
               this`latestQuotes, this`initialEquity, this`equityPath, this`returnPath, this`lastEquityAt
      ensures r.Err? ==> r.error == EquityNotPositive || (r.error == ResidualRisk && !ZeroLatency(setup))
      ensures r.Ok? ==> Sound() && Scheduled(pendingByTime, live, []) && Tracked() && EdgeKept()
      ensures r.Ok? ==> QuotesFirst(setup, old(Account()), old(Recorded()), timestamp, quotes, orders, Account(), Recorded())
      ensures r.Err? ==> NoArrival(setup, old(Account()), old(Recorded()), timestamp, quotes, orders)
      ensures r.Ok? ==> (r.value <==> |Recorded().path| != |old(Recorded()).path|)
    {
      hide Inv, Scheduled, Tracked, Gain, Shaped, Noted, ExecutesTo, FirstMark, QuotesFirst, Sound, Account, Recorded, Setup.Valid, Stuck,
           NoArrival, AllPositive;
      ghost var before, marks := Account(), Recorded();
      NoteQuotes(quotes);
      ghost var noted := Account();
      r := RecordInitialEquity(timestamp);
      if r.Err? {
        WorthlessAfterQuotes(setup, before, marks, timestamp, quotes, orders, noted);
      } else {
        var error := ExecuteOrders(orders, None);
        if error.Some? {
          StuckAfterQuotes(setup, before, marks, timestamp, quotes, orders, noted);
          return Err(error.value);
        }
        QuotesCameFirst(setup, before, marks, timestamp, quotes, noted, orders, Account(), Recorded());
      }
    }

    /** The scheduled legs and then the quotes of one timestamp. */
    method OrdersThenQuotes(timestamp: int, quotes: seq<Arrival>, orders: seq<Order>) returns (r: Result<bool, Error>)
      requires Sound() && Scheduled(pendingByTime, live, orders) && Tracked() && forall a :: a in quotes ==> a.quote in setup.quotes
      requires EdgeKept() && (ZeroLatency(setup) ==> orders == []) && !setup.quoteFirst
      modifies this`cash, this`positions, this`reservedCash, this`reservedPositions, this`grossNotional, this`fees, this`filledBuyQuantity,
               this`filledSellQuantity, this`filledByTrade, this`remainingLegs, this`openRoutes, this`live, this`flows,
               this`latestQuotes, this`initialEquity, this`equityPath, this`returnPath, this`lastEquityAt
      ensures r.Err? ==> r.error == EquityNotPositive || (r.error == ResidualRisk && !ZeroLatency(setup))
      ensures r.Ok? ==> Sound() && Scheduled(pendingByTime, live, []) && Tracked() && EdgeKept()
      ensures r.Ok? ==> OrdersFirst(setup, old(Account()), old(Recorded()), timestamp, quotes, orders, Account(), Recorded())
      ensures r.Err? ==> NoArrival(setup, old(Account()), old(Recorded()), timestamp, quotes, orders)
      ensures r.Ok? ==> (r.value <==> |Recorded().path| != |old(Recorded()).path|)
    {
      hide Inv, Scheduled, Tracked, Gain, Shaped, Noted, ExecutesTo, FirstMark, OrdersFirst, Sound, Account, Recorded, Setup.Valid, Stuck,
           NoArrival, AllPositive;
      ghost var before, marks := Account(), Recorded();
      var error := ExecuteOrders(orders, None);
      if error.Some? {
        StuckBeforeQuotes(setup, before, marks, timestamp, quotes, orders);
        return Err(error.value);
      }
      ghost var executed := Account();
      NoteQuotes(quotes);
      r := RecordInitialEquity(timestamp);
      if r.Err? {
        WorthlessBeforeQuotes(setup, before, marks, timestamp, quotes, orders, executed, Account());
      } else {
        OrdersCameFirst(setup, before, marks, timestamp, quotes, executed, orders, Account(), Recorded());
      }
    }

    /** The legs of a decision that arrive at once, along the path they are known to take, if one is. */
    method ExecuteImmediate(immediate: seq<Order>, ghost path: Option<seq<Books>>, ghost flowsAfter: Flows) returns (error: Option<Error>)
      requires Sound() && Scheduled(pendingByTime, live, immediate)
      requires path.Some? ==> Chain(setup, path.value, immediate) && path.value[0] == Account()
      requires path.Some? ==> Inv(setup, path.value[|immediate|], map[], flowsAfter) && path.value[|immediate|].pending == map[]
      modifies this`cash, this`positions, this`reservedCash, this`reservedPositions, this`grossNotional, this`fees, this`filledBuyQuantity,
               this`filledSellQuantity, this`filledByTrade, this`remainingLegs, this`openRoutes, this`live, this`flows
      ensures error.Some? ==> error == Some(ResidualRisk) && path.None? && immediate != []
      ensures error.None? ==> Sound() && Scheduled(pendingByTime, live, []) && pendingByTime == old(pendingByTime)
      ensures error.None? ==> ExecutesTo(setup, old(Account()), immediate, Account())
      ensures error.Some? ==> Stuck(setup, old(Account()), immediate)
      ensures path.Some? ==> live == map[] && flows == flowsAfter && pendingByTime == map[]
      ensures path.None? && immediate == [] ==> live == old(live) && flows == old(flows)
    {
      hide Inv, Scheduled, Chain, ExecutesTo, Stuck;
      error := ExecuteOrders(immediate, path);
      if path.Some? {
        assert pendingByTime == Account().pending;
        live, flows := map[], flowsAfter;
        EmptySchedule(pendingByTime);
      }
    }

    /** Executes the legs of a decision that arrive at once. */
    method CarryOut(timestamp: int, orders: seq<Order>, ghost b: Books, ghost before: Live, ghost edge: Flows, ghost started: bool)
      returns (error: Option<Error>)
      requires Sound() && Scheduled(pendingByTime, live, orders) && Inv(setup, b, before, edge) && Shaped(setup, b) && flows == edge
      requires ZeroLatency(setup) ==> b.pending == map[] && before == map[] && Gain(edge) >= setup.minimumEdge * edge.bought
      requires if Eligible(setup, b, timestamp, started) <= 0.0 then orders == [] && Account() == b && live == before
               else TradeSubmitted(setup, b, timestamp, started, Account(), orders)
      modifies this`cash, this`positions, this`reservedCash, this`reservedPositions, this`grossNotional, this`fees, this`filledBuyQuantity,
               this`filledSellQuantity, this`filledByTrade, this`remainingLegs, this`openRoutes, this`live, this`flows
      ensures error.Some? ==> error == Some(ResidualRisk) && !ZeroLatency(setup)
      ensures error.None? ==> Sound() && Scheduled(pendingByTime, live, []) && EdgeKept()
      ensures if error.Some? then Stuck(setup, old(Account()), orders) else ExecutesTo(setup, old(Account()), orders, Account())
    {
      hide Inv, Scheduled, Chain, Eligible, Gain, Shaped, TradeSubmitted, ExecutesTo, Account, Setup.Valid, Sound, Stuck;
      ghost var path, flowsAfter := PathAfterSubmission(setup, b, before, edge, timestamp, started, Account(), orders);
      PendingIs();
      error := ExecuteImmediate(orders, path, flowsAfter);
    }

    /** A decision on this timestamp's quotes, and the legs it executes at once. */
    method Decide(timestamp: int) returns (error: Option<Error>, traded: bool, ghost submitted: Books, ghost immediate: seq<Order>)
      requires Sound() && Scheduled(pendingByTime, live, []) && EdgeKept()
      modifies this`cash, this`positions, this`reservedCash, this`reservedPositions, this`grossNotional, this`fees, this`filledBuyQuantity,
               this`filledSellQuantity, this`filledByTrade, this`remainingLegs, this`openRoutes, this`live, this`flows, this`nextTradeId,
               this`nextSequence, this`decisionCount, this`orderCount, this`pendingByTime
      ensures error.Some? ==> error == Some(ResidualRisk) && !ZeroLatency(setup)
      ensures error.None? ==> Sound() && Scheduled(pendingByTime, live, []) && EdgeKept()
      ensures error.None? ==> Decided(setup, old(Account()), initialEquity.Some?, timestamp, submitted, immediate, Account())
      ensures error.Some? ==> NoDecision(setup, old(Account()), initialEquity.Some?, timestamp)
      ensures traded <==> immediate != []
    {
      hide Inv, Scheduled, Chain, Eligible, Gain, Shaped, TradeSubmitted, ExecutesTo, Decided, Account, Setup.Valid, Sound, Stuck, NoDecision;
      ghost var b, started, before, edge := Account(), initialEquity.Some?, live, flows;
      SoundParts();
      PendingIs();
      var orders := SubmitRouteIfEligible(timestamp);
      traded, immediate, submitted := orders != [], orders, Account();
      error := CarryOut(timestamp, orders, b, before, edge, started);
      DecidedOrStuck(setup, b, started, timestamp, submitted, immediate, Account(), error.Some?);
    }

    /** Takes the legs due now off the schedule, in sequence order. */
    method PopDue(timestamp: int) returns (orders: seq<Order>)
      requires Sound() && Scheduled(pendingByTime, live, []) && EdgeKept()
      modifies this`pendingByTime
      ensures Sound() && Scheduled(pendingByTime, live, orders) && EdgeKept() && (ZeroLatency(setup) ==> orders == [])
      ensures pendingByTime == Popped(old(pendingByTime), timestamp) && orders == OrdersAt(old(Account()).pending, timestamp)
      ensures Account() == old(Account()).(pending := Popped(old(Account()).pending, timestamp))
    {
      hide Inv, Scheduled, Popped, OrdersAt, Gain;
      PoppingSchedules(pendingByTime, live, timestamp);
      PoppingKeeps(setup, Account(), live, flows, timestamp);
      NothingPops(pendingByTime, timestamp);
      orders := OrdersAt(pendingByTime, timestamp);
      pendingByTime := Popped(pendingByTime, timestamp);
    }

    /** The quotes and the scheduled legs of one timestamp, in the policy's order. */
    method Arrive(timestamp: int, quotes: seq<Arrival>, orders: seq<Order>) returns (r: Result<bool, Error>)
      requires Sound() && Scheduled(pendingByTime, live, orders) && Tracked() && forall a :: a in quotes ==> a.quote in setup.quotes
      requires EdgeKept() && (ZeroLatency(setup) ==> orders == [])
      modifies this`cash, this`positions, this`reservedCash, this`reservedPositions, this`grossNotional, this`fees, this`filledBuyQuantity,
               this`filledSellQuantity, this`filledByTrade, this`remainingLegs, this`openRoutes, this`live, this`flows,
               this`latestQuotes, this`initialEquity, this`equityPath, this`returnPath, this`lastEquityAt
      ensures r.Err? ==> r.error == EquityNotPositive || (r.error == ResidualRisk && !ZeroLatency(setup))
      ensures r.Ok? ==> Sound() && Scheduled(pendingByTime, live, []) && Tracked() && EdgeKept()
      ensures r.Ok? ==> Arrived(setup, old(Account()), old(Recorded()), timestamp, quotes, orders, Account(), Recorded())
      ensures r.Err? ==> NoArrival(setup, old(Account()), old(Recorded()), timestamp, quotes, orders)
      ensures r.Ok? ==> (r.value <==> |Recorded().path| != |old(Recorded()).path|)
    {
      hide *;
      ghost var before, marks := Account(), Recorded();
      if setup.quoteFirst {
        r := QuotesThenOrders(timestamp, quotes, orders);
      } else {
        r := OrdersThenQuotes(timestamp, quotes, orders);
      }
      if r.Ok? {
        ArrivedThus(setup, before, marks, timestamp, quotes, orders, Account(), Recorded());
      }
    }

    /** Everything that happens at one timestamp, in the policy's order. */
    method Advance(timestamp: int, quotes: seq<Arrival>) returns (error: Option<Error>, ghost m: Moment)
      requires Sound() && Scheduled(pendingByTime, live, []) && Tracked() && EdgeKept() && forall a :: a in quotes ==> a.quote in setup.quotes
      modifies this
      ensures error.Some? ==> error.value.ResidualRisk? || error.value.EquityNotPositive? || error.value.StaleAfterExecution?
      ensures error == Some(ResidualRisk) ==> !ZeroLatency(setup)
      ensures error.None? ==> Sound() && Scheduled(pendingByTime, live, []) && Tracked() && EdgeKept()
      ensures error.None? ==> Ticked(setup, m) && m.timestamp == timestamp && m.quotes == quotes
      ensures error.Some? ==> NoMoment(setup, timestamp, quotes, old(Account()), old(Recorded()))
      ensures error.None? ==> m.before == old(Account()) && m.marks == old(Recorded()) && m.after == Account() && m.last == Recorded()
      ensures startedAt == (if old(startedAt).Some? then old(startedAt) else Some(timestamp)) && finishedAt == Some(timestamp)
    {
      hide *;
      ghost var before, marks := Account(), Recorded();
      m := Moment(timestamp, quotes, before, marks, before, marks, before, [], before, marks);
      if startedAt.None? {
        startedAt := Some(timestamp);
      }
      finishedAt := Some(timestamp);
      var orders := PopDue(timestamp);
      var sorted := Sort(quotes, ByVenue);
      SortMembers(quotes, ByVenue);
      var recorded := Arrive(timestamp, sorted, orders);
      if recorded.Err? {
        FailsArriving(setup, timestamp, quotes, before, marks);
        return Some(recorded.error), m;
      }
      ghost var mid, first, submitted, immediate := Account(), Recorded(), Account(), [];
      error, submitted, immediate := Respond(timestamp, quotes != [], orders != [], recorded.value);
      if error.None? {
        m := Moment(timestamp, quotes, before, marks, mid, first, submitted, immediate, Account(), Recorded());
        ArrivedParts(setup, m.before.(pending := Popped(before.pending, timestamp)), marks, timestamp, sorted, orders, mid, first);
        Ticking(setup, m, orders, sorted);
      } else {
        FailsResponding(setup, timestamp, quotes, before, marks, mid, first, submitted, immediate, Account(), !recorded.value);
      }
    }

    /** A decision if quotes arrived, then the closing mark. */
    method Respond(timestamp: int, quoted: bool, due: bool, initialRecorded: bool)
      returns (error: Option<Error>, ghost submitted: Books, ghost immediate: seq<Order>)
      requires Sound() && Scheduled(pendingByTime, live, []) && Tracked() && EdgeKept()
      modifies this`cash, this`positions, this`reservedCash, this`reservedPositions, this`grossNotional, this`fees, this`filledBuyQuantity,
               this`filledSellQuantity, this`filledByTrade, this`remainingLegs, this`openRoutes, this`live, this`flows, this`nextTradeId,
               this`nextSequence, this`decisionCount, this`orderCount, this`pendingByTime,
               this`initialEquity, this`equityPath, this`returnPath, this`lastEquityAt
      ensures error.Some? ==> error.value.ResidualRisk? || error.value.EquityNotPositive? || error.value.StaleAfterExecution?
      ensures error == Some(ResidualRisk) ==> !ZeroLatency(setup)
      ensures error.None? ==> Sound() && Scheduled(pendingByTime, live, []) && Tracked() && EdgeKept() && Shaped(setup, Account())
      ensures error.None? ==> if quoted then Decided(setup, old(Account()), old(Recorded()).path != [], timestamp, submitted, immediate, Account())
                              else submitted == old(Account()) && immediate == [] && Account() == old(Account())
      ensures error.Some? ==>
        NoResponse(setup, old(Account()), old(Recorded()), timestamp, quoted, submitted, immediate, Account(), !initialRecorded, due)
      ensures error.None? ==> (due || immediate != [] ==> EquityAt(setup, Account(), timestamp).Some?)
      ensures error.None? ==> Recorded() == if !initialRecorded || due || immediate != []
                                            then WithMark(old(Recorded()), EquityAt(setup, Account(), timestamp), timestamp) else old(Recorded())
    {
      hide *;
      var traded := false;
      ghost var mid, marked := Account(), Recorded();
      submitted, immediate := Account(), [];
      MarksStarted();
      if quoted {
        error, traded, submitted, immediate := Decide(timestamp);
        if error.Some? {
          NoneDecided(setup, mid, marked, timestamp, submitted, immediate, Account(), !initialRecorded, due);
          return;
        }
      }
      error := Conclude(timestamp, initialRecorded, due || traded);
      if error.Some? {
        NoneMarked(setup, mid, marked, timestamp, quoted, submitted, immediate, Account(), !initialRecorded, due);
      }
    }

    /** Marks the account after executions; a trade without fresh valuation quotes is refused. */
    method Conclude(timestamp: int, initialRecorded: bool, executed: bool) returns (error: Option<Error>)
      requires Sound() && Tracked()
      modifies this`initialEquity, this`equityPath, this`returnPath, this`lastEquityAt
      ensures Tracked() && (error.Some? ==> error.value.EquityNotPositive? || error.value.StaleAfterExecution?) && Shaped(setup, Account())
      ensures error.None? ==> (executed ==> EquityAt(setup, Account(), timestamp).Some?)
      ensures error.Some? ==> NoMark(setup, Account(), timestamp, !initialRecorded, executed)
      ensures error.None? ==> Recorded() == if !initialRecorded || executed then WithMark(old(Recorded()), EquityAt(setup, Account(), timestamp), timestamp)
                                            else old(Recorded())
    {
      hide *;
      SoundParts();
      MarkFails(setup, Account(), timestamp, !initialRecorded, executed);
      var recorded := true;
      if !initialRecorded || executed {
        var equity := TryEquity(timestamp);
        var outcome := RecordEquity(equity, timestamp);
        if outcome.Err? {
          return Some(outcome.error);
        }
        recorded := outcome.value;
      }
      error := if executed && !recorded then Some(StaleAfterExecution) else None;
    }

    /** The moments so far lead to the present account, and what is awaited lies later. */
    ghost predicate Underway(arrivals: map<int, seq<Arrival>>, trace: seq<Moment>, left: map<int, seq<Arrival>>, times: set<int>)
      requires setup.Valid()
      reads this
    {
      && Unfolds(setup, arrivals, trace) && FinalBooks(setup, trace) == Account() && FinalMarks(trace) == Recorded()
      && Awaited(arrivals, trace, left, Account(), times)
      && startedAt == (if trace == [] then None else Some(FirstTime(trace)))
      && finishedAt == (if trace == [] then None else Some(LastTime(trace)))
    }

    lemma {:induction false} UnderwayFirst(arrivals: map<int, seq<Arrival>>)
      requires setup.Valid() && Account() == StartBooks(setup) && pendingByTime == map[] && Recorded() == NO_MARKS
      requires startedAt.None? && finishedAt.None?
      ensures Underway(arrivals, [], arrivals, arrivals.Keys)
    {
      AwaitedFirst(setup, arrivals, Account());
    }

    lemma {:induction false} UnderwayQuotes(arrivals: map<int, seq<Arrival>>, trace: seq<Moment>, left: map<int, seq<Arrival>>,
                                            times: set<int>, t: int)
      requires setup.Valid() && QuotesPlaced(setup) && arrivals == ArrivalTable(setup, setup.quotes)
      requires Underway(arrivals, trace, left, times) && t in times
      ensures forall a :: a in ArrivingAt(left, t) ==> a.quote in setup.quotes
      ensures if t in left then |left - {t}| < |left| else left - {t} == left
      ensures ArrivingAt(left, t) == if t in left then left[t] else []
    {
      hide Unfolds, Setup.Valid;
      AwaitedQuotes(setup, arrivals, trace, left, Account(), times, t);
    }

    lemma {:induction false} UnderwayParts(arrivals: map<int, seq<Arrival>>, trace: seq<Moment>, left: map<int, seq<Arrival>>, times: set<int>)
      requires setup.Valid() && Underway(arrivals, trace, left, times)
      ensures Unfolds(setup, arrivals, trace) && FinalBooks(setup, trace) == Account() && FinalMarks(trace) == Recorded()
      ensures Awaited(arrivals, trace, left, Account(), times) && startedAt == (if trace == [] then None else Some(FirstTime(trace)))
    {
      hide Unfolds, Awaited, FinalBooks, FinalMarks, Setup.Valid;
    }

    /** One more moment keeps the run underway. */
    lemma {:induction false} UnderwayNext(arrivals: map<int, seq<Arrival>>, trace: seq<Moment>, left: map<int, seq<Arrival>>,
                                          times: set<int>, m: Moment)
      requires setup.Valid() && Unfolds(setup, arrivals, trace) && FinalBooks(setup, trace) == m.before && FinalMarks(trace) == m.marks
      requires Awaited(arrivals, trace, left, m.before, times) && Ticked(setup, m) && m.after == Account() && m.last == Recorded()
      requires m.timestamp in times && (forall u :: u in times ==> m.timestamp <= u) && m.quotes == ArrivingAt(left, m.timestamp)
      requires startedAt == Some(if trace == [] then m.timestamp else FirstTime(trace)) && finishedAt == Some(m.timestamp)
      ensures Underway(arrivals, trace + [m], left - {m.timestamp}, (times - {m.timestamp}) + pendingByTime.Keys)
      ensures m.timestamp !in left ==> (times - {m.timestamp}) + pendingByTime.Keys == times - {m.timestamp}
    {
      hide Ticked, Setup.Valid, Unfolds, FinalBooks, FinalMarks, Awaited, FirstTime, LastTime;
      AwaitedNext(setup, arrivals, trace, left, m.before, times, m);
      OneMoreMoment(setup, arrivals, trace, m);
      TimesOf(trace, m);
    }

    lemma {:induction false} UnderwayEnds(arrivals: map<int, seq<Arrival>>, trace: seq<Moment>, left: map<int, seq<Arrival>>)
      requires setup.Valid() && Underway(arrivals, trace, left, {}) && arrivals.Keys != {}
      ensures IsHistory(setup, arrivals, trace) && FinalBooks(setup, trace) == Account() && FinalMarks(trace) == Recorded()
      ensures pendingByTime.Keys <= {} && trace != [] && startedAt == Some(FirstTime(trace)) && finishedAt == Some(LastTime(trace))
    {
      hide Unfolds, Awaited, FinalMarks, FinalBooks, Setup.Valid;
      NothingAwaited(setup, arrivals, trace, left, Account());
      HistoryBegins(setup, arrivals, trace);
    }

    /** The earliest awaited timestamp. */
    method ProcessEarliest(ghost arrivals: map<int, seq<Arrival>>, ghost trace: seq<Moment>, left: map<int, seq<Arrival>>, times: set<int>)
      returns (error: Option<Error>, arrivalsByTime: map<int, seq<Arrival>>, pendingTimes: set<int>, ghost m: Moment)
      requires Sound() && Scheduled(pendingByTime, live, []) && Tracked() && EdgeKept() && times != {}
      requires setup.Valid() && QuotesPlaced(setup) && arrivals == ArrivalTable(setup, setup.quotes) && Underway(arrivals, trace, left, times)
      modifies this
      ensures error.Some? ==> MayFail(error.value) && (error.value.ResidualRisk? ==> !ZeroLatency(setup)) && NoHistory(setup, arrivals)
      ensures error.Some? ==> !error.value.NeverMarked? && !error.value.FinalStale?
      ensures error.None? ==> Sound() && Scheduled(pendingByTime, live, []) && Tracked() && EdgeKept()
      ensures error.None? ==> Underway(arrivals, trace + [m], arrivalsByTime, pendingTimes)
      ensures error.None? ==> |arrivalsByTime| < |left| || (arrivalsByTime == left && |pendingTimes| < |times|)
    {
      hide *;
      var timestamp := Earliest(times);
      UnderwayQuotes(arrivals, trace, left, times, timestamp);
      UnderwayParts(arrivals, trace, left, times);
      arrivalsByTime, pendingTimes := left - {timestamp}, times - {timestamp};
      var quotes: seq<Arrival> := [];
      if timestamp in left {
        quotes := left[timestamp];
      }
      error, m := Advance(timestamp, quotes);
      if error.Some? {
        MayFailThus(error.value);
        NoFurther(setup, arrivals, trace, left, times, timestamp);
        return;
      }
      UnderwayNext(arrivals, trace, left, times, m);
      pendingTimes := pendingTimes + pendingByTime.Keys;
    }

    /** Every timestamp in order until no quote and no leg is left. */
    method ProcessAll(arrivals: map<int, seq<Arrival>>) returns (error: Option<Error>, ghost trace: seq<Moment>)
      requires Sound() && EdgeKept() && Tracked() && pendingByTime == map[] && live == map[] && startedAt.None? && finishedAt.None?
      requires setup.Valid() && Account() == StartBooks(setup) && Recorded() == NO_MARKS
      requires QuotesPlaced(setup) && arrivals == ArrivalTable(setup, setup.quotes)
      modifies this
      ensures error.Some? ==> MayFail(error.value) && (error.value.ResidualRisk? ==> !ZeroLatency(setup)) && NoHistory(setup, arrivals)
      ensures error.Some? ==> !error.value.NeverMarked? && !error.value.FinalStale?
      ensures error.None? ==> Sound() && EdgeKept() && Tracked() && pendingByTime == map[] && live == map[]
      ensures error.None? ==> IsHistory(setup, arrivals, trace) && FinalBooks(setup, trace) == Account() && FinalMarks(trace) == Recorded()
      ensures error.None? ==> trace != [] && startedAt == Some(FirstTime(trace)) && finishedAt == Some(LastTime(trace))
    {
      hide *;
      EmptySchedule(pendingByTime);
      var arrivalsByTime, pendingTimes := arrivals, arrivals.Keys;
      trace := [];
      PlacedQuotes(setup);
      UnderwayFirst(arrivals);
      while pendingTimes != {}
        invariant Sound() && Scheduled(pendingByTime, live, []) && Tracked() && EdgeKept()
        invariant Underway(arrivals, trace, arrivalsByTime, pendingTimes)
        decreases |arrivalsByTime|, |pendingTimes|
      {
        ghost var m;
        error, arrivalsByTime, pendingTimes, m := ProcessEarliest(arrivals, trace, arrivalsByTime, pendingTimes);
        if error.Some? {
          return;
        }
        trace := trace + [m];
      }
      UnderwayEnds(arrivals, trace, arrivalsByTime);
      NothingScheduled(pendingByTime, live);
      error := None;
    }

    lemma {:induction false} MarksRecord()
      requires Tracked()
      ensures AllPositive(Recorded().path) && Recorded() == Marks(equityPath, lastEquityAt)
      ensures initialEquity.Some? <==> equityPath != []
      ensures lastEquityAt.Some? <==> equityPath != []
    {
    }

    /** The whole run. It ends; a result means the account has drained along a complete history, and there is one
        exactly when the input has a history with positive marks and one at its last moment. */
    method Execute() returns (r: Result<RunResult, Error>, ghost trace: seq<Moment>)
      requires setup.Valid() && Account() == StartBooks(setup) && live == map[] && flows == NO_FLOWS
      requires Tracked() && equityPath == [] && startedAt.None? && finishedAt.None?
      modifies this
      ensures r.Ok? <==> exists h :: Completes(setup, h)
      ensures r.Err? ==> MayFail(r.error)
      ensures r == Err(NeverMarked) || r == Err(FinalStale) ==>
        QuotesPlaced(setup) && IsHistory(setup, ArrivalTable(setup, setup.quotes), trace) && (r.error.NeverMarked? <==> FinalMarks(trace).path == [])
      ensures r == Err(ResidualRisk) ==> !ZeroLatency(setup)
      ensures r.Ok? ==> Settled(setup, Account(), flows) && NonNegative(cash) && forall v :: v in setup.venues ==> v in cash && v in setup.cash
      ensures r.Ok? ==> QuotesPlaced(setup) && IsHistory(setup, ArrivalTable(setup, setup.quotes), trace) && FinalBooks(setup, trace) == Account()
      ensures r.Ok? ==> Reports(r.value, Account(), trace) && Valued(r.value)
      ensures r.Ok? && ZeroLatency(setup) ==>
        SumOver(setup.venues, cash) >= SumOver(setup.venues, setup.cash) + setup.minimumEdge * flows.bought
    {
      hide *;
      Begins();
      MarksBegin();
      PlacedQuotes(setup);
      var arrivals := QuoteArrivals();
      var error;
      error, trace := ProcessAll(arrivals);
      if error.Some? {
        NoneCompletes(setup);
        return Err(error.value), trace;
      }
      MarksRecord();
      CompletesExactly(setup, trace);
      MayFailThus(NeverMarked);
      if initialEquity.None? || equityPath == [] {
        return Err(NeverMarked), trace;
      }
      if finishedAt.None? || startedAt.None? {
        return Err(NoTimestamps), trace;
      }
      if lastEquityAt != finishedAt {
        return Err(FinalStale), trace;
      }
      Ends();
      var result := RunResult(initialEquity.value, equityPath[|equityPath| - 1], equityPath, grossNotional, fees, filledBuyQuantity,
                              filledSellQuantity, decisionCount, orderCount, startedAt.value, finishedAt.value);
      PathValued(result);
      HistoryBegins(setup, arrivals, trace);
      ReportsThis(result, trace);
      return Ok(result), trace;
    }

    lemma {:induction false} ReportsThis(r: RunResult, trace: seq<Moment>)
      requires equityPath != [] && lastEquityAt == finishedAt && FinalMarks(trace) == Recorded() && trace != []
      requires startedAt == Some(FirstTime(trace)) && finishedAt == Some(LastTime(trace))
      requires r == RunResult(r.initialEquity, equityPath[|equityPath| - 1], equityPath, grossNotional, fees, filledBuyQuantity,
                              filledSellQuantity, decisionCount, orderCount, startedAt.value, finishedAt.value)
      ensures Reports(r, Account(), trace)
    {
    }

    lemma {:induction false} Begins()
      requires setup.Valid() && Account() == StartBooks(setup) && live == map[] && flows == NO_FLOWS
      ensures Sound() && Scheduled(pendingByTime, live, []) && EdgeKept() && pendingByTime == map[]
    {
      hide *;
      StartIsSound(setup);
      StartSchedule(setup);
      PendingIs();
      SoundAgain();
      EdgeAgain();
    }

    lemma {:induction false} EdgeAgain()
      requires pendingByTime == map[] && live == map[] && Gain(flows) >= setup.minimumEdge * flows.bought
      ensures EdgeKept()
    {
    }

    lemma {:induction false} Ends()
      requires Sound() && EdgeKept() && live == map[] && pendingByTime == map[]
      ensures Settled(setup, Account(), flows) && NonNegative(cash) && filledBuyQuantity == filledSellQuantity
      ensures (forall v :: v in setup.venues ==> v in cash && v in setup.cash)
      ensures ZeroLatency(setup) ==> SumOver(setup.venues, cash) >= SumOver(setup.venues, setup.cash) + setup.minimumEdge * flows.bought
    {
      hide Inv, Gain, SumOver, Conserved, Shaped;
      SettledAtEnd(setup, Account(), flows);
      CashKeys(setup, Account());
    }

    lemma {:induction false} PathValued(r: RunResult)
      requires Tracked() && equityPath != [] && r.equityPath == equityPath && initialEquity.Some? && r.initialEquity == initialEquity.value
      requires r.finalEquity == equityPath[|equityPath| - 1]
      ensures Valued(r)
    {
    }
  }
}
