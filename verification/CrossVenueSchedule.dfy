/** When legs and quotes are due, and the path a decision's legs take. */
module CrossVenueSchedule {
  import opened CrossVenueBooks
  import opened CrossVenueLaws
  import opened CrossVenueTrades
  import opened Ordering
  import opened Outcomes

  // ---------------------------------------------------------------- the schedule

  predicate BySequence(a: Order, b: Order) { a.sequence <= b.sequence }

  predicate ByVenue(a: Arrival, b: Arrival) {
    a.quote.venue < b.quote.venue || (a.quote.venue == b.quote.venue && a.quote.observedAt <= b.quote.observedAt)
  }

  ghost predicate IsLive(live: Live, o: Order) { o.sequence in live && live[o.sequence] == o }

  ghost predicate Located(pending: map<int, seq<Order>>, flight: seq<Order>, o: Order) {
    o in flight || (o.arrivalAt in pending && o in pending[o.arrivalAt])
  }

  /** Every live order waits at its own arrival time or is in flight now, once. */
  ghost predicate Scheduled(pending: map<int, seq<Order>>, live: Live, flight: seq<Order>) {
    && (forall t :: t in pending ==> NoDuplicates(pending[t]) && forall o :: o in pending[t] ==> o.arrivalAt == t && IsLive(live, o) && o !in flight)
    && NoDuplicates(flight) && (forall o :: o in flight ==> IsLive(live, o))
    && forall s :: s in live ==> live[s].sequence == s && Located(pending, flight, live[s])
  }

  function Popped(pending: map<int, seq<Order>>, t: int): map<int, seq<Order>> { map k | k in pending && k != t :: pending[k] }

  function OrdersAt(pending: map<int, seq<Order>>, t: int): seq<Order> {
    Sort(if t in pending then pending[t] else [], BySequence)
  }

  lemma {:induction false} PoppingSchedules(pending: map<int, seq<Order>>, live: Live, t: int)
    requires Scheduled(pending, live, [])
    ensures Scheduled(Popped(pending, t), live, OrdersAt(pending, t))
  {
    hide Sort;
    var orders := if t in pending then pending[t] else [];
    SortMembers(orders, BySequence);
    assert NoDuplicates(orders);
    SortKeepsDistinct(orders, BySequence);
  }

  lemma {:induction false} ExecutingSchedules(pending: map<int, seq<Order>>, live: Live, flight: seq<Order>)
    requires Scheduled(pending, live, flight) && flight != []
    ensures IsLive(live, flight[0]) && Scheduled(pending, live - {flight[0].sequence}, flight[1..])
  {
    var o, rest, left := flight[0], flight[1..], live - {flight[0].sequence};
    assert o in flight;
    assert flight == [o] + rest;
    assert o !in rest;
    forall x | x in rest ensures IsLive(left, x) { assert x in flight; }
    forall s | s in left ensures Located(pending, rest, left[s]) {
      assert Located(pending, flight, live[s]);
    }
  }

  /** Filing a trade's legs under their arrival times, or in flight when they arrive at once. */
  lemma {:induction false} SubmittingSchedules(setup: Setup, b: Books, live: Live, timestamp: int, buy: Order, sell: Order)
    requires Scheduled(b.pending, live, []) && Numbered(setup, b, live)
    requires buy.sequence == b.nextSequence && sell.sequence == b.nextSequence + 1
    requires buy.venue in b.reservedCash && sell.venue in b.reservedPositions
    ensures Scheduled(Submitted(setup, b, timestamp, buy, sell).pending, WithTrade(live, buy, sell), Immediate(timestamp, buy, sell))
  {
    var one := live[buy.sequence := buy];
    var flight := if buy.arrivalAt == timestamp then [buy] else [];
    var pending := if buy.arrivalAt == timestamp then b.pending else Enqueued(b.pending, buy);
    FilingOne(b.pending, live, [], timestamp, buy);
    FilingOne(pending, one, flight, timestamp, sell);
  }

  lemma {:induction false} FilingOne(pending: map<int, seq<Order>>, live: Live, flight: seq<Order>, timestamp: int, o: Order)
    requires Scheduled(pending, live, flight) && o.sequence !in live
    ensures Scheduled(if o.arrivalAt == timestamp then pending else Enqueued(pending, o), live[o.sequence := o],
                      flight + if o.arrivalAt == timestamp then [o] else [])
  {
    var more, queue := live[o.sequence := o], if o.arrivalAt == timestamp then pending else Enqueued(pending, o);
    var flying := flight + if o.arrivalAt == timestamp then [o] else [];
    assert o !in flight;
    forall t | t in queue
      ensures NoDuplicates(queue[t]) && forall x: Order :: x in queue[t] ==> x.arrivalAt == t && IsLive(more, x) && x !in flying
    {
      if t in pending { assert NoDuplicates(pending[t]) && o !in pending[t]; }
    }
    forall s | s in more ensures Located(queue, flying, more[s]) {
      if s != o.sequence { assert Located(pending, flight, live[s]); }
    }
  }

  // ---------------------------------------------------------------- executing in order

  ghost predicate Executes(setup: Setup, b: Books, o: Order, after: Books) {
    Shaped(setup, b) && o.venue in setup.venues && Executed(setup, b, o) == Ok(after)
  }

  /** Executing these legs one after another succeeds and passes through these books. */
  ghost predicate Chain(setup: Setup, states: seq<Books>, orders: seq<Order>) {
    |states| == |orders| + 1 && forall i :: 0 <= i < |orders| ==> Executes(setup, states[i], orders[i], states[i + 1])
  }

  lemma {:induction false} ZeroLatencyChain(setup: Setup, b: Books, live: Live, f: Flows, timestamp: int, started: bool)
    returns (states: seq<Books>, flows: Flows)
    requires Inv(setup, b, live, f) && Eligible(setup, b, timestamp, started) > 0.0
    requires setup.route.buyLatencyMs == 0 && setup.route.sellLatencyMs == 0 && Gain(f) >= setup.minimumEdge * f.bought
    ensures var r := setup.route;
      r.buy in b.latest && r.buy in b.reservedCash && r.sell in b.reservedPositions
      && setup.fills[r.buy].ratio != 0.0 && setup.fills[r.sell].ratio != 0.0
    ensures var quantity := Eligible(setup, b, timestamp, started);
      var buy, sell := BuyOrder(setup, b, timestamp, quantity), SellOrder(setup, b, timestamp, quantity);
      && Chain(setup, states, Immediate(timestamp, buy, sell)) && states[0] == Submitted(setup, b, timestamp, buy, sell) && |states| == 3
      && Inv(setup, states[2], live, flows) && states[2].pending == b.pending && Gain(flows) >= setup.minimumEdge * flows.bought
  {
    hide Numbered, Reserved, Legs, Balanced, Conserved, Executed, Eligible, Gain, Notional, Submitted, Shaped;
    var bought, done;
    bought, done, flows := ZeroLatencyTrade(setup, b, live, f, timestamp, started);
    var quantity := Eligible(setup, b, timestamp, started);
    var buy, sell := BuyOrder(setup, b, timestamp, quantity), SellOrder(setup, b, timestamp, quantity);
    states := [Submitted(setup, b, timestamp, buy, sell), bought, done];
    EdgeAdds(setup.minimumEdge, f.bought, Notional(quantity, b.latest[setup.route.buy].quote.ask));
  }

  lemma {:induction false} EdgeAdds(edge: real, a: real, b: real)
    ensures edge * (a + b) == edge * a + edge * b
  {
  }

  // ---------------------------------------------------------------- quotes

  function AvailableAt(setup: Setup, q: Quote): int
    requires q.venue in setup.clocks
  {
    q.observedAt + setup.clocks[q.venue].offsetMs + setup.clocks[q.venue].latencyMs
  }

  function Noted(latest: map<Venue, Arrival>, arrivals: seq<Arrival>): map<Venue, Arrival> {
    if arrivals == [] then latest
    else Noted(latest, arrivals[..|arrivals| - 1])[arrivals[|arrivals| - 1].quote.venue := arrivals[|arrivals| - 1]]
  }

  lemma {:induction false} NotedShaped(setup: Setup, b: Books, arrivals: seq<Arrival>)
    requires Shaped(setup, b) && forall a :: a in arrivals ==> a.quote in setup.quotes
    ensures Shaped(setup, b.(latest := Noted(b.latest, arrivals)))
  {
    hide Setup.Valid;
    if arrivals != [] {
      var front, last := arrivals[..|arrivals| - 1], arrivals[|arrivals| - 1];
      NotedShaped(setup, b, front);
      assert last in arrivals;
      QuotesAreValid(setup, last.quote);
    }
  }

  lemma {:induction false} QuotesAreValid(setup: Setup, q: Quote)
    requires setup.Valid() && q in setup.quotes
    ensures q.venue in setup.venues && q.Valid()
  {
  }

  lemma {:induction false} NotingKeeps(setup: Setup, b: Books, live: Live, f: Flows, arrivals: seq<Arrival>)
    requires Inv(setup, b, live, f) && forall a :: a in arrivals ==> a.quote in setup.quotes
    ensures Inv(setup, b.(latest := Noted(b.latest, arrivals)), live, f)
  {
    hide Total, Noted, BuyReserve, SellReserve, Imbalance, OpenTrade;
    var after := b.(latest := Noted(b.latest, arrivals));
    NotedShaped(setup, b, arrivals);
    LegsIgnore(b, after, live);
    NumberedIgnores(setup, b, after, live);
    SameAccounts(setup, b, after, live, f);
  }

  lemma {:induction false} SameAccounts(setup: Setup, b: Books, after: Books, live: Live, f: Flows)
    requires Shaped(setup, b) && Shaped(setup, after) && Reserved(setup, b, live) && Conserved(setup, b, f)
    requires after == b.(latest := after.latest, pending := after.pending)
    ensures Reserved(setup, after, live) && Conserved(setup, after, f)
  {
    hide Total, BuyReserve, SellReserve, Shaped, Setup.Valid;
    RouteIn(setup, b);
  }

  lemma {:induction false} PoppingKeeps(setup: Setup, b: Books, live: Live, f: Flows, t: int)
    requires Inv(setup, b, live, f)
    ensures Inv(setup, b.(pending := Popped(b.pending, t)), live, f)
  {
    hide Total, Popped, BuyReserve, SellReserve, Imbalance, OpenTrade, Shaped;
    var after := b.(pending := Popped(b.pending, t));
    ShapedIgnores(setup, b, after);
    LegsIgnore(b, after, live);
    NumberedIgnores(setup, b, after, live);
    SameAccounts(setup, b, after, live, f);
  }

  predicate ZeroLatency(setup: Setup) { setup.route.buyLatencyMs == 0 && setup.route.sellLatencyMs == 0 }

  /** The books and the immediate legs right after an eligible trade is submitted. */
  ghost predicate TradeSubmitted(setup: Setup, b: Books, timestamp: int, started: bool, after: Books, immediate: seq<Order>)
    requires Shaped(setup, b)
  {
    var r, quantity := setup.route, Eligible(setup, b, timestamp, started);
    && r.buy in b.latest && r.buy in b.reservedCash && r.sell in b.reservedPositions
    && setup.fills[r.buy].ratio != 0.0 && setup.fills[r.sell].ratio != 0.0
    && var buy, sell := BuyOrder(setup, b, timestamp, quantity), SellOrder(setup, b, timestamp, quantity);
       after == Submitted(setup, b, timestamp, buy, sell) && immediate == Immediate(timestamp, buy, sell)
  }

  lemma {:induction false} EmptySchedule(pending: map<int, seq<Order>>)
    requires pending == map[]
    ensures Scheduled(pending, map[], [])
  {
  }

  lemma {:induction false} ZeroLatencySubmission(setup: Setup, b: Books, live: Live, f: Flows, timestamp: int, started: bool,
                                                 submitted: Books, immediate: seq<Order>) returns (states: seq<Books>, flows: Flows)
    requires Inv(setup, b, live, f) && Eligible(setup, b, timestamp, started) > 0.0 && ZeroLatency(setup)
    requires Gain(f) >= setup.minimumEdge * f.bought && TradeSubmitted(setup, b, timestamp, started, submitted, immediate)
    ensures Chain(setup, states, immediate) && states[0] == submitted && |immediate| == 2 && |states| == 3
    ensures Inv(setup, states[2], live, flows) && states[2].pending == b.pending && Gain(flows) >= setup.minimumEdge * flows.bought
  {
    hide Inv, Eligible, Gain, Shaped, Executes, Submitted;
    InvShaped(setup, b, live, f);
    states, flows := ZeroLatencyChain(setup, b, live, f, timestamp, started);
  }

  /** With zero latencies the legs of a decision run along a known path; without a trade there are none. */
  lemma {:induction false} PathAfterSubmission(setup: Setup, b: Books, live: Live, f: Flows, timestamp: int, started: bool,
                                               submitted: Books, immediate: seq<Order>) returns (path: Option<seq<Books>>, flows: Flows)
    requires Inv(setup, b, live, f) && Shaped(setup, b) && (ZeroLatency(setup) ==> Gain(f) >= setup.minimumEdge * f.bought)
    requires if Eligible(setup, b, timestamp, started) <= 0.0 then immediate == [] && submitted == b
             else TradeSubmitted(setup, b, timestamp, started, submitted, immediate)
    ensures path.Some? ==> ZeroLatency(setup) && Chain(setup, path.value, immediate) && path.value[0] == submitted
    ensures path.Some? ==> Inv(setup, path.value[|immediate|], live, flows) && path.value[|immediate|].pending == b.pending
    ensures path.Some? ==> Gain(flows) >= setup.minimumEdge * flows.bought
    ensures path.None? ==> flows == f && (ZeroLatency(setup) ==> Eligible(setup, b, timestamp, started) <= 0.0)
  {
    hide Inv, Eligible, Gain, Shaped, Executes, TradeSubmitted;
    path, flows := None, f;
    if ZeroLatency(setup) && Eligible(setup, b, timestamp, started) > 0.0 {
      var states;
      states, flows := ZeroLatencySubmission(setup, b, live, f, timestamp, started, submitted, immediate);
      path := Some(states);
    }
  }

  lemma {:induction false} SubmissionSound(setup: Setup, b: Books, live: Live, f: Flows, timestamp: int, started: bool)
    requires Inv(setup, b, live, f) && Scheduled(b.pending, live, []) && Eligible(setup, b, timestamp, started) > 0.0
    ensures var r := setup.route;
      r.buy in b.latest && r.buy in b.reservedCash && r.sell in b.reservedPositions && Shaped(setup, b)
      && setup.fills[r.buy].ratio != 0.0 && setup.fills[r.sell].ratio != 0.0
    ensures var quantity := Eligible(setup, b, timestamp, started);
      var buy, sell := BuyOrder(setup, b, timestamp, quantity), SellOrder(setup, b, timestamp, quantity);
      && buy.venue in b.reservedCash && sell.venue in b.reservedPositions
      && Submitted(setup, b, timestamp, buy, sell) == Opened(b, buy, sell).(pending := FiledLegs(b.pending, timestamp, buy, sell))
      && Submitted(setup, b, timestamp, buy, sell).pending == FiledLegs(b.pending, timestamp, buy, sell)
      && Inv(setup, Submitted(setup, b, timestamp, buy, sell), WithTrade(live, buy, sell), f)
      && Scheduled(FiledLegs(b.pending, timestamp, buy, sell), WithTrade(live, buy, sell), Immediate(timestamp, buy, sell))
      && TradeSubmitted(setup, b, timestamp, started, Submitted(setup, b, timestamp, buy, sell), Immediate(timestamp, buy, sell))
  {
    hide Inv, Eligible, Scheduled, NetCost, Shaped, Setup.Valid, WithTrade, Immediate, Opened, FiledLegs, BuyOrder, SellOrder;
    InvShaped(setup, b, live, f);
    SubmitKeeps(setup, b, live, f, timestamp, started);
    InvNumbered(setup, b, live, f);
    var quantity := Eligible(setup, b, timestamp, started);
    OrdersNumbered(setup, b, timestamp, quantity);
    SubmittingSchedules(setup, b, live, timestamp, BuyOrder(setup, b, timestamp, quantity), SellOrder(setup, b, timestamp, quantity));
  }

  lemma {:induction false} OrdersNumbered(setup: Setup, b: Books, timestamp: int, quantity: real)
    requires Shaped(setup, b) && setup.route.buy in b.latest
    requires setup.fills[setup.route.buy].ratio != 0.0 && setup.fills[setup.route.sell].ratio != 0.0
    ensures var buy, sell := BuyOrder(setup, b, timestamp, quantity), SellOrder(setup, b, timestamp, quantity);
      buy.sequence == b.nextSequence && sell.sequence == b.nextSequence + 1 && buy.venue == setup.route.buy && sell.venue == setup.route.sell
  {
  }

  lemma {:induction false} StartSchedule(setup: Setup)
    requires setup.Valid()
    ensures Scheduled(StartBooks(setup).pending, map[], []) && StartBooks(setup).pending == map[] && Gain(NO_FLOWS) >= setup.minimumEdge * NO_FLOWS.bought
  {
  }

  lemma {:induction false} NothingScheduled(pending: map<int, seq<Order>>, live: Live)
    requires Scheduled(pending, live, []) && pending.Keys <= {}
    ensures pending == map[] && live == map[]
  {
    assert pending.Keys == {};
    assert live.Keys == {};
  }

  lemma {:induction false} NothingPops(pending: map<int, seq<Order>>, t: int)
    ensures pending == map[] ==> Popped(pending, t) == map[] && OrdersAt(pending, t) == []
  {
  }

  lemma {:induction false} PoppedKeys(pending: map<int, seq<Order>>, t: int)
    ensures Popped(pending, t).Keys <= pending.Keys - {t}
  {
  }

  lemma {:induction false} SomeElement<T>(s: set<T>) returns (x: T)
    requires s != {}
    ensures x in s
  {
    x :| x in s;
  }

  lemma {:induction false} EarliestOf(times: set<int>) returns (t: int)
    requires times != {}
    ensures t in times && forall u :: u in times ==> t <= u
    decreases |times|
  {
    var first := SomeElement(times);
    var rest := times - {first};
    t := first;
    if rest != {} {
      var least := EarliestOf(rest);
      if least < first { t := least; }
    }
    assert forall u :: u in times ==> u == first || u in rest;
  }

  /** Python's `min` of a nonempty set of times. */
  function Earliest(times: set<int>): (t: int)
    requires times != {}
    ensures t in times && forall u :: u in times ==> t <= u
  {
    assert exists t :: t in times && forall u :: u in times ==> t <= u by { var t := EarliestOf(times); }
    var t :| t in times && forall u :: u in times ==> t <= u;
    t
  }

  lemma {:induction false} InvShaped(setup: Setup, b: Books, live: Live, f: Flows)
    requires Inv(setup, b, live, f)
    ensures setup.Valid() && Shaped(setup, b)
  {
  }

  lemma {:induction false} InvNumbered(setup: Setup, b: Books, live: Live, f: Flows)
    requires Inv(setup, b, live, f)
    ensures Numbered(setup, b, live)
  {
  }

  lemma {:induction false} QuoteKnown(setup: Setup, b: Books, v: Venue)
    requires Shaped(setup, b) && v in b.latest
    ensures b.latest[v].quote.Valid() && b.latest[v].quote.venue in setup.clocks
  {
  }

  lemma {:induction false} InvParts(setup: Setup, b: Books, live: Live, f: Flows, o: Order)
    requires Inv(setup, b, live, f) && IsLive(live, o)
    ensures setup.Valid() && Shaped(setup, b) && o.venue in setup.venues && o.sequence in live && live[o.sequence] == o
    ensures o.venue in b.reservedCash && o.venue in b.reservedPositions && (o.venue in b.latest ==> b.latest[o.venue].quote.venue in setup.clocks)
    ensures o.venue in b.latest ==> b.latest[o.venue].quote.Valid()
  {
    hide Total, BuyReserve, SellReserve, Reserved, Legs, Balanced, Conserved;
    LegVenue(setup, b, live, o.sequence);
  }

  lemma {:induction false} ReleaseShapes(setup: Setup, b: Books, live: Live, f: Flows, o: Order)
    requires Inv(setup, b, live, f) && IsLive(live, o) && o.venue in b.reservedCash && o.venue in b.reservedPositions
    ensures Shaped(setup, Released(b, o)) && NonNegative(Released(b, o).reservedCash) && NonNegative(Released(b, o).reservedPositions)
  {
    hide Total, BuyReserve, SellReserve, Legs, Balanced, Conserved, Shaped, Numbered;
    ReleaseKeeps(setup, b, live, o.sequence);
  }
}
