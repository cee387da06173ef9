/** What a cross-venue run knows when it acts, and when its legs act: no quote before it is
    observable, none staler than needed, every leg its own latency after its decision. */
module CrossVenueKnowledge {
  import opened CrossVenueBooks
  import opened CrossVenueHistory
  import opened CrossVenueSchedule
  import opened CrossVenueTrace
  import opened CrossVenueTrades
  import opened Ordering
  import opened Outcomes

  /** A quote can be seen once its venue's clock offset and latency have passed. */
  function ObservableAt(setup: Setup, q: Quote): int
    requires q.venue in setup.clocks
  {
    q.observedAt + setup.clocks[q.venue].offsetMs + setup.clocks[q.venue].latencyMs
  }

  /** Of every venue exactly the quotes observable before a time are known, by the freshest of them. */
  ghost predicate Knows(setup: Setup, latest: map<Venue, Arrival>, until: int)
    requires setup.Valid()
  {
    forall v :: KnowsVenue(setup, latest, v, until)
  }

  ghost predicate Observed(setup: Setup, q: Quote, v: Venue, until: int)
    requires setup.Valid()
  {
    q in setup.quotes && q.venue == v && ObservableAt(setup, q) < until
  }

  ghost predicate KnowsVenue(setup: Setup, latest: map<Venue, Arrival>, v: Venue, until: int)
    requires setup.Valid()
  {
    && (v in latest <==> exists q :: Observed(setup, q, v, until))
    && (v in latest ==> Observed(setup, latest[v].quote, v, until) && latest[v].availableAt == ObservableAt(setup, latest[v].quote))
    && (v in latest ==> forall q :: Observed(setup, q, v, until) ==> ObservableAt(setup, q) <= latest[v].availableAt)
  }

  // ---------------------------------------------------------------- one timestamp

  /** The arrivals filed under a time are those of the quotes observable then. */
  lemma {:induction false} ArrivalsThen(setup: Setup, quotes: seq<Quote>, t: int, a: Arrival)
    requires setup.Valid() && forall q :: q in quotes ==> q.venue in setup.clocks
    ensures a in ArrivingAt(ArrivalTable(setup, quotes), t)
       <==> a.quote in quotes && a.quote.venue in setup.clocks && a.availableAt == t == ObservableAt(setup, a.quote)
  {
    hide Setup.Valid;
    if quotes != [] {
      ArrivalsThen(setup, quotes[..|quotes| - 1], t, a);
      var q := quotes[|quotes| - 1];
      assert quotes == quotes[..|quotes| - 1] + [q];
    }
  }

  lemma {:induction false} NotedMeans(latest: map<Venue, Arrival>, arrivals: seq<Arrival>, v: Venue)
    ensures v in Noted(latest, arrivals) <==> v in latest || exists a :: a in arrivals && a.quote.venue == v
    ensures v in Noted(latest, arrivals) ==>
      (Noted(latest, arrivals)[v] in arrivals && Noted(latest, arrivals)[v].quote.venue == v)
      || (v in latest && Noted(latest, arrivals)[v] == latest[v] && forall a :: a in arrivals ==> a.quote.venue != v)
  {
    if arrivals != [] {
      var front, last := arrivals[..|arrivals| - 1], arrivals[|arrivals| - 1];
      NotedMeans(latest, front, v);
      assert arrivals == front + [last];
    }
  }

  ghost predicate ArriveAt(setup: Setup, arrivals: seq<Arrival>, t: int) {
    forall a :: a in arrivals <==>
      (a.quote in setup.quotes && a.quote.venue in setup.clocks && a.availableAt == t == ObservableAt(setup, a.quote))
  }

  lemma {:induction false} NotedKnows(setup: Setup, latest: map<Venue, Arrival>, arrivals: seq<Arrival>, t: int, until: int)
    requires until == t + 1 && setup.Valid() && Knows(setup, latest, t) && ArriveAt(setup, arrivals, t)
    ensures Knows(setup, Noted(latest, arrivals), until)
  {
    hide Noted, ObservableAt, ArriveAt, KnowsVenue;
    var after := Noted(latest, arrivals);
    forall v ensures KnowsVenue(setup, after, v, until) {
      assert KnowsVenue(setup, latest, v, t);
      NotedKnowsVenue(setup, latest, arrivals, t, until, v);
    }
  }

  lemma {:induction false} NotedKnowsVenue(setup: Setup, latest: map<Venue, Arrival>, arrivals: seq<Arrival>, t: int, until: int, v: Venue)
    requires until == t + 1 && setup.Valid() && KnowsVenue(setup, latest, v, t) && ArriveAt(setup, arrivals, t)
    ensures KnowsVenue(setup, Noted(latest, arrivals), v, until)
  {
    hide Noted, ObservableAt;
    QuoteVenues(setup);
    NotedMeans(latest, arrivals, v);
    var after := Noted(latest, arrivals);
    if exists q :: Observed(setup, q, v, until) {
      var q :| Observed(setup, q, v, until);
      if ObservableAt(setup, q) == t { assert Arrival(t, q) in arrivals; } else { assert Observed(setup, q, v, t); }
    }
    if v in after {
      assert Observed(setup, after[v].quote, v, until);
      forall q | Observed(setup, q, v, until) ensures ObservableAt(setup, q) <= after[v].availableAt {
        if ObservableAt(setup, q) == t { assert Arrival(t, q) in arrivals; } else { assert Observed(setup, q, v, t); }
      }
    }
  }

  lemma {:induction false} QuoteVenues(setup: Setup)
    requires setup.Valid()
    ensures forall q :: q in setup.quotes ==> q.venue in setup.clocks
  {
  }

  /** Nothing new becomes observable between two times. */
  lemma {:induction false} KnowsUntil(setup: Setup, latest: map<Venue, Arrival>, t: int, u: int)
    requires setup.Valid() && Knows(setup, latest, t) && t <= u
    requires forall q :: q in setup.quotes && q.venue in setup.clocks ==> !(t <= ObservableAt(setup, q) < u)
    ensures Knows(setup, latest, u)
  {
    hide ObservableAt;
    QuoteVenues(setup);
    forall v ensures KnowsVenue(setup, latest, v, u) {
      assert KnowsVenue(setup, latest, v, t);
      forall q | Observed(setup, q, v, u) ensures Observed(setup, q, v, t) { }
      forall q | Observed(setup, q, v, t) ensures Observed(setup, q, v, u) { }
    }
  }

  /** Only the timestamp's own quotes change what is known. */
  lemma {:induction false} TickedQuotes(setup: Setup, m: Moment)
    requires Ticked(setup, m) && setup.Valid()
    ensures m.after.latest == m.mid.latest == Noted(m.before.latest, Sort(m.quotes, ByVenue))
  {
    hide Sort, Noted, Eligible, Shaped, Chain, Concluded, FirstMark, TradeSubmitted, Setup.Valid, ExecutesTo, OrdersAt, Popped;
    var due := OrdersAt(m.before.pending, m.timestamp);
    var popped := m.before.(pending := Popped(m.before.pending, m.timestamp));
    if setup.quoteFirst {
      ExecutingKeepsSchedule(setup, popped.(latest := Noted(popped.latest, Sort(m.quotes, ByVenue))), due, m.mid);
    } else {
      ExecutingKeepsSchedule(setup, popped, due, m.mid.(latest := popped.latest));
    }
    if m.quotes != [] {
      ExecutingKeepsSchedule(setup, m.submitted, m.immediate, m.after);
      if Eligible(setup, m.mid, m.timestamp, m.first.path != []) > 0.0 {
        SubmittedKnows(setup, m.mid, m.timestamp, m.first.path != [], m.submitted, m.immediate);
      }
    } else {
      NothingNoted(m.before.latest);
    }
  }

  lemma {:induction false} NothingNoted(latest: map<Venue, Arrival>)
    ensures Noted(latest, Sort([], ByVenue)) == latest
  {
  }

  lemma {:induction false} SubmittedKnows(setup: Setup, b: Books, timestamp: int, started: bool, after: Books, immediate: seq<Order>)
    requires Shaped(setup, b) && TradeSubmitted(setup, b, timestamp, started, after, immediate)
    ensures after.latest == b.latest
  {
    hide NetCost, Eligible;
  }

  // ---------------------------------------------------------------- a whole run

  lemma {:induction false} NothingBetween(setup: Setup, trace: seq<Moment>, i: nat, q: Quote)
    requires setup.Valid() && QuotesPlaced(setup) && IsHistory(setup, ArrivalTable(setup, setup.quotes), trace) && i < |trace|
    requires q in setup.quotes && q.venue in setup.clocks && ObservableAt(setup, q) < trace[i].timestamp
    ensures i > 0 && ObservableAt(setup, q) <= trace[i - 1].timestamp
  {
    hide Linked, Occasioned, Setup.Valid, StartBooks, FinalBooks, ArrivalTable;
    var table, t := ArrivalTable(setup, setup.quotes), ObservableAt(setup, q);
    ArrivalsThen(setup, setup.quotes, t, Arrival(t, q));
    assert Happened(trace, t);
    var k :| 0 <= k < |trace| && trace[k].timestamp == t;
    assert k < i;
  }

  /** When a timestamp comes, exactly the quotes observable before it are known, and once it is over
      those observable at it too, of each venue the freshest: nothing is seen early or missed. */
  lemma {:induction false} KnowsTheFreshest(setup: Setup, trace: seq<Moment>, i: nat)
    requires setup.Valid() && QuotesPlaced(setup) && IsHistory(setup, ArrivalTable(setup, setup.quotes), trace) && i < |trace|
    ensures Knows(setup, trace[i].before.latest, trace[i].timestamp)
    ensures Knows(setup, trace[i].after.latest, trace[i].timestamp + 1)
  {
    hide Setup.Valid, Knows, Noted, ArrivalTable, Ticked, Linked, ObservableAt, Occasioned, ArriveAt;
    var table, m := ArrivalTable(setup, setup.quotes), trace[i];
    HistoryUnfolds(setup, table, trace);
    MomentAt(setup, table, trace, i);
    forall q | q in setup.quotes && q.venue in setup.clocks && ObservableAt(setup, q) < m.timestamp
      ensures i > 0 && ObservableAt(setup, q) <= trace[i - 1].timestamp
    {
      NothingBetween(setup, trace, i, q);
    }
    if i > 0 {
      KnowsTheFreshest(setup, trace, i - 1);
      MomentAt(setup, table, trace, i - 1);
      KnowsUntil(setup, m.before.latest, trace[i - 1].timestamp + 1, m.timestamp);
    } else {
      NothingKnown(setup, m.timestamp);
    }
    QuotesThen(setup, m);
    TickedQuotes(setup, m);
    NotedKnows(setup, m.before.latest, Sort(m.quotes, ByVenue), m.timestamp, m.timestamp + 1);
  }

  lemma {:induction false} QuotesThen(setup: Setup, m: Moment)
    requires setup.Valid() && QuotesPlaced(setup) && Occasioned(ArrivalTable(setup, setup.quotes), m)
    ensures ArriveAt(setup, Sort(m.quotes, ByVenue), m.timestamp)
  {
    hide Setup.Valid, ArrivalTable, ObservableAt;
    SortMembers(m.quotes, ByVenue);
    forall a { ArrivalsThen(setup, setup.quotes, m.timestamp, a); }
  }

  lemma {:induction false} NothingKnown(setup: Setup, t: int)
    requires setup.Valid() && forall q :: q in setup.quotes && q.venue in setup.clocks ==> ObservableAt(setup, q) >= t
    ensures Knows(setup, StartBooks(setup).latest, t)
  {
    QuoteVenues(setup);
    forall v ensures KnowsVenue(setup, StartBooks(setup).latest, v, t) { }
  }

  /** The legs due at a timestamp are executed in the order they were submitted, knowing the quotes
      observable by then: those of that very moment included exactly when quotes come first. */
  lemma {:induction false} DueLegsKnow(setup: Setup, trace: seq<Moment>, i: nat) returns (from: Books, to: Books)
    requires setup.Valid() && QuotesPlaced(setup) && IsHistory(setup, ArrivalTable(setup, setup.quotes), trace) && i < |trace|
    ensures ExecutesTo(setup, from, OrdersAt(trace[i].before.pending, trace[i].timestamp), to)
    ensures from == trace[i].before.(pending := Popped(trace[i].before.pending, trace[i].timestamp), latest := from.latest)
    ensures Knows(setup, from.latest, if setup.quoteFirst then trace[i].timestamp + 1 else trace[i].timestamp)
    ensures to.cash == trace[i].mid.cash && to.positions == trace[i].mid.positions && to.fees == trace[i].mid.fees
    ensures forall j, k :: 0 <= j < k < |OrdersAt(trace[i].before.pending, trace[i].timestamp)| ==>
      OrdersAt(trace[i].before.pending, trace[i].timestamp)[j].sequence <= OrdersAt(trace[i].before.pending, trace[i].timestamp)[k].sequence
  {
    hide Setup.Valid, Knows, Noted, ArrivalTable, Linked, Occasioned, ExecutesTo, OrdersAt, Popped, Sort, FirstMark, Decided, Concluded, Shaped;
    var table, m := ArrivalTable(setup, setup.quotes), trace[i];
    HistoryUnfolds(setup, table, trace);
    MomentAt(setup, table, trace, i);
    KnowsTheFreshest(setup, trace, i);
    TickedQuotes(setup, m);
    InSequence(m.before.pending, m.timestamp);
    var popped := m.before.(pending := Popped(m.before.pending, m.timestamp));
    if setup.quoteFirst {
      from, to := popped.(latest := Noted(popped.latest, Sort(m.quotes, ByVenue))), m.mid;
    } else {
      from, to := popped, m.mid.(latest := popped.latest);
    }
  }

  lemma {:induction false} InSequence(pending: map<int, seq<Order>>, t: int)
    ensures forall j, k :: 0 <= j < k < |OrdersAt(pending, t)| ==> OrdersAt(pending, t)[j].sequence <= OrdersAt(pending, t)[k].sequence
  {
    SortSorts(if t in pending then pending[t] else [], BySequence);
  }

  /** A submitted trade's legs wait, each under its own latency after the decision, unless the latency
      is nothing, when they act at once; what waited before still waits. */
  lemma {:induction false} LegsWaitTheirLatency(setup: Setup, b: Books, timestamp: int, started: bool, after: Books, immediate: seq<Order>)
    requires Shaped(setup, b) && TradeSubmitted(setup, b, timestamp, started, after, immediate)
    ensures var r := setup.route;
      var buyAt, sellAt := timestamp + r.buyLatencyMs, timestamp + r.sellLatencyMs;
      && (r.buyLatencyMs > 0 ==> buyAt in after.pending && exists o :: o in after.pending[buyAt] && o.sequence == b.nextSequence && o.venue == r.buy)
      && (r.sellLatencyMs > 0 ==>
            sellAt in after.pending && exists o :: o in after.pending[sellAt] && o.sequence == b.nextSequence + 1 && o.venue == r.sell)
      && |immediate| == (if r.buyLatencyMs == 0 then 1 else 0) + (if r.sellLatencyMs == 0 then 1 else 0)
      && (r.buyLatencyMs == 0 ==> immediate[0].side == Buy) && (r.sellLatencyMs == 0 ==> immediate[|immediate| - 1].side == Sell)
      && forall t, o :: t in b.pending && o in b.pending[t] ==> t in after.pending && o in after.pending[t]
  {
    hide NetCost, Eligible, Shaped, Setup.Valid;
    var quantity := Eligible(setup, b, timestamp, started);
    var buy, sell := BuyOrder(setup, b, timestamp, quantity), SellOrder(setup, b, timestamp, quantity);
    if setup.route.buyLatencyMs > 0 { assert buy in after.pending[buy.arrivalAt]; }
    if setup.route.sellLatencyMs > 0 { assert sell in after.pending[sell.arrivalAt]; }
  }

  /** The account as the first mark of a moment sees it: with the moment's quotes, before or after its due legs. */
  ghost function SeenFirst(setup: Setup, m: Moment): Books {
    if setup.quoteFirst then m.before.(pending := Popped(m.before.pending, m.timestamp), latest := m.after.latest) else m.mid
  }

  /** Every timestamp of a run records the account's value after it whenever all it holds is freshly quoted, which
      it must be after an execution; the very first value is recorded before the decision, and then another one
      only after an execution. */
  lemma {:induction false} MarksRecorded(setup: Setup, trace: seq<Moment>, i: nat)
    requires setup.Valid() && QuotesPlaced(setup) && IsHistory(setup, ArrivalTable(setup, setup.quotes), trace) && i < |trace|
    ensures Shaped(setup, trace[i].after) && Shaped(setup, SeenFirst(setup, trace[i]))
    ensures var m := trace[i];
      var first, last := EquityAt(setup, SeenFirst(setup, m), m.timestamp), EquityAt(setup, m.after, m.timestamp);
      var executed := OrdersAt(m.before.pending, m.timestamp) != [] || m.immediate != [];
      && m.marks == FinalMarks(trace[..i]) && (executed ==> last.Some?)
      && m.last.path == m.marks.path + (if m.marks.path == [] && first.Some? then [first.value] + (if executed then [last.value] else [])
                                        else if last.Some? then [last.value] else [])
      && m.last.at == if m.last.path == m.marks.path then m.marks.at else Some(m.timestamp)
  {
    hide Setup.Valid, ArrivalTable, Ticked, Occasioned, EquityAt, Linked, Shaped;
    HistoryUnfolds(setup, ArrivalTable(setup, setup.quotes), trace);
    MomentAt(setup, ArrivalTable(setup, setup.quotes), trace, i);
    TickedMarks(setup, trace[i]);
  }

  lemma {:induction false} TickedMarks(setup: Setup, m: Moment)
    requires Ticked(setup, m) && setup.Valid()
    ensures Shaped(setup, m.after) && Shaped(setup, SeenFirst(setup, m))
    ensures var first, last := EquityAt(setup, SeenFirst(setup, m), m.timestamp), EquityAt(setup, m.after, m.timestamp);
      var executed := OrdersAt(m.before.pending, m.timestamp) != [] || m.immediate != [];
      && (executed ==> last.Some?)
      && m.last.path == m.marks.path + (if m.marks.path == [] && first.Some? then [first.value] + (if executed then [last.value] else [])
                                        else if last.Some? then [last.value] else [])
      && m.last.at == if m.last.path == m.marks.path then m.marks.at else Some(m.timestamp)
  {
    hide Sort, Noted, Shaped, Decided, Setup.Valid, ExecutesTo, OrdersAt, Popped, EquityAt;
    TickedQuotes(setup, m);
  }

  /** A decision is made only when quotes came in, and only once the account has been marked; then the
      eligible trade is submitted, or nothing when there is none. */
  lemma {:induction false} DecidesOnNews(setup: Setup, trace: seq<Moment>, i: nat)
    requires setup.Valid() && QuotesPlaced(setup) && IsHistory(setup, ArrivalTable(setup, setup.quotes), trace) && i < |trace|
    ensures Shaped(setup, trace[i].mid)
    ensures var m := trace[i];
      var news := exists q :: q in setup.quotes && q.venue in setup.clocks && ObservableAt(setup, q) == m.timestamp;
      var trades := news && m.first.path != [] && Eligible(setup, m.mid, m.timestamp, true) > 0.0;
      && (m.first.path == [] ==> m.marks.path == [])
      && (!trades ==> m.after == m.mid && m.immediate == [])
      && (trades ==> TradeSubmitted(setup, m.mid, m.timestamp, true, m.submitted, m.immediate) && ExecutesTo(setup, m.submitted, m.immediate, m.after))
  {
    hide Setup.Valid, ArrivalTable, Ticked, Occasioned, Linked, Shaped, Eligible, TradeSubmitted;
    HistoryUnfolds(setup, ArrivalTable(setup, setup.quotes), trace);
    MomentAt(setup, ArrivalTable(setup, setup.quotes), trace, i);
    NewsArrives(setup, trace[i]);
    TickedDecision(setup, trace[i]);
  }

  lemma {:induction false} NewsArrives(setup: Setup, m: Moment)
    requires setup.Valid() && Occasioned(ArrivalTable(setup, setup.quotes), m)
    ensures m.quotes != [] <==> exists q :: q in setup.quotes && q.venue in setup.clocks && ObservableAt(setup, q) == m.timestamp
  {
    hide Setup.Valid, ArrivalTable, ObservableAt;
    QuoteVenues(setup);
    if m.quotes != [] {
      ArrivalsThen(setup, setup.quotes, m.timestamp, m.quotes[0]);
      assert m.quotes[0] in m.quotes;
    }
    forall q | q in setup.quotes && q.venue in setup.clocks && ObservableAt(setup, q) == m.timestamp ensures m.quotes != [] {
      ArrivalsThen(setup, setup.quotes, m.timestamp, Arrival(m.timestamp, q));
    }
  }

  lemma {:induction false} TickedDecision(setup: Setup, m: Moment)
    requires Ticked(setup, m) && setup.Valid()
    ensures Shaped(setup, m.mid)
    ensures var trades := m.quotes != [] && m.first.path != [] && Eligible(setup, m.mid, m.timestamp, true) > 0.0;
      && (m.first.path == [] ==> m.marks.path == [])
      && (!trades ==> m.after == m.mid && m.immediate == [])
      && (trades ==> TradeSubmitted(setup, m.mid, m.timestamp, true, m.submitted, m.immediate) && ExecutesTo(setup, m.submitted, m.immediate, m.after))
  {
    hide Sort, Noted, Shaped, Setup.Valid, OrdersAt, Popped, EquityAt, TradeSubmitted, ExecutesTo, Affordable, EdgeEligible, Fresh;
    ExecutesNothing(setup, m.mid, m.after);
  }

  lemma {:induction false} ExecutesNothing(setup: Setup, b: Books, after: Books)
    ensures ExecutesTo(setup, b, [], after) ==> after == b
  {
  }
}
