/** What one timestamp of a cross-venue run does, and what a whole run is. */
module CrossVenueTrace {
  import opened CrossVenueBooks
  import opened CrossVenueSchedule
  import opened CrossVenueTrades
  import opened Ordering
  import opened Outcomes

  // ---------------------------------------------------------------- marking

  /** The recorded equities and the time of the last one. */
  datatype Marks = Marks(path: seq<real>, at: Option<int>)

  const NO_MARKS: Marks := Marks([], None)

  function WithMark(m: Marks, equity: Option<real>, timestamp: int): Marks {
    if equity.None? then m else Marks(m.path + [equity.value], Some(timestamp))
  }

  /** The initial mark is taken once, as soon as every position has a fresh quote. */
  function FirstMark(setup: Setup, b: Books, m: Marks, timestamp: int): Marks
    requires Shaped(setup, b)
  {
    if m.path != [] then m else WithMark(m, EquityAt(setup, b, timestamp), timestamp)
  }

  // ---------------------------------------------------------------- one timestamp

  ghost predicate ExecutesTo(setup: Setup, b: Books, orders: seq<Order>, after: Books) {
    exists states :: Chain(setup, states, orders) && states[0] == b && states[|orders|] == after
  }

  lemma {:induction false} ExecutesNone(setup: Setup, b: Books)
    ensures ExecutesTo(setup, b, [], b)
  {
    assert Chain(setup, [b], []);
  }

  lemma {:induction false} ExecutesOneMore(setup: Setup, b: Books, orders: seq<Order>, mid: Books, o: Order, after: Books)
    requires ExecutesTo(setup, b, orders, mid) && Executes(setup, mid, o, after)
    ensures ExecutesTo(setup, b, orders + [o], after)
  {
    hide Executes;
    var states :| Chain(setup, states, orders) && states[0] == b && states[|orders|] == mid;
    var more := states + [after];
    forall i | 0 <= i < |orders| + 1 ensures Executes(setup, more[i], (orders + [o])[i], more[i + 1]) {
      if i < |orders| { assert Executes(setup, states[i], orders[i], states[i + 1]); }
    }
    assert Chain(setup, more, orders + [o]);
  }

  /** Executing legs leaves the quotes and the schedule alone. */
  lemma {:induction false} ExecutingKeepsSchedule(setup: Setup, b: Books, orders: seq<Order>, after: Books)
    requires ExecutesTo(setup, b, orders, after)
    ensures after.pending == b.pending && after.latest == b.latest
  {
    hide Executes;
    var states :| Chain(setup, states, orders) && states[0] == b && states[|orders|] == after;
    ChainKeepsSchedule(setup, states, orders, |orders|);
  }

  lemma {:induction false} ChainKeepsSchedule(setup: Setup, states: seq<Books>, orders: seq<Order>, n: nat)
    requires 0 < |states| && n < |states| && n <= |orders| && Chain(setup, states, orders)
    ensures states[n].pending == states[0].pending && states[n].latest == states[0].latest
  {
    hide *;
    if n > 0 {
      ChainSize(setup, states, orders);
      ChainKeepsSchedule(setup, states, orders, n - 1);
      ChainStep(setup, states, orders, n - 1);
      ExecutedKeepsSchedule(setup, states[n - 1], orders[n - 1], states[n]);
    }
  }

  lemma {:induction false} ChainSize(setup: Setup, states: seq<Books>, orders: seq<Order>)
    requires Chain(setup, states, orders)
    ensures |states| == |orders| + 1
  {
  }

  lemma {:induction false} ChainStep(setup: Setup, states: seq<Books>, orders: seq<Order>, i: nat)
    requires Chain(setup, states, orders) && i < |orders|
    ensures i + 1 < |states| && Executes(setup, states[i], orders[i], states[i + 1])
  {
    hide Executes;
  }

  lemma {:induction false} ExecutedKeepsSchedule(setup: Setup, b: Books, o: Order, after: Books)
    requires Executes(setup, b, o, after)
    ensures after.pending == b.pending && after.latest == b.latest
  {
    hide Filled, Completed, Setup.Valid, NonNegative, Fresh;
    assert Shaped(setup, b) && o.venue in setup.venues;
    var released := Released(b, o);
    if o.venue in b.latest && (LatestKnown(setup, b, o.venue); Fresh(setup, o.arrivalAt, b.latest[o.venue])) {
      FilledKeepsSchedule(setup, released, o, b.latest[o.venue].quote);
      var fill := Filled(setup, released, o, b.latest[o.venue].quote);
      CompletedKeepsSchedule(fill.value.0, o, fill.value.1);
    } else {
      CompletedKeepsSchedule(released, o, 0.0);
    }
  }

  lemma {:induction false} LatestKnown(setup: Setup, b: Books, v: Venue)
    requires Shaped(setup, b) && v in b.latest
    ensures b.latest[v].quote.venue in setup.clocks && b.latest[v].quote.Valid()
  {
  }

  lemma {:induction false} BoughtKeepsSchedule(b: Books, v: Venue, quantity: real, notional: real, fee: real)
    requires v in b.cash && v in b.positions
    ensures var after := Bought(b, v, quantity, notional, fee); after.pending == b.pending && after.latest == b.latest
  {
  }

  lemma {:induction false} SoldKeepsSchedule(b: Books, v: Venue, quantity: real, notional: real, fee: real)
    requires v in b.cash && v in b.positions
    ensures var after := Sold(b, v, quantity, notional, fee); after.pending == b.pending && after.latest == b.latest
  {
  }

  lemma {:induction false} FilledKeepsSchedule(setup: Setup, b: Books, o: Order, q: Quote)
    requires Shaped(setup, b) && o.venue in setup.venues && q.Valid()
    ensures var r := Filled(setup, b, o, q);
      r.Ok? ==> r.value.0.pending == b.pending && r.value.0.latest == b.latest
  {
    assert o.venue in b.cash && o.venue in b.positions && o.venue in setup.costs;
    hide BuyQuantity, SellQuantity, Notional, Fee, NonNegative, Shaped, Setup.Valid, Bought, Sold;
    var cost := setup.costs[o.venue];
    if o.side.Buy? {
      var quantity := BuyQuantity(setup, b, o, q);
      var notional := Notional(quantity, q.ask);
      BoughtKeepsSchedule(b, o.venue, quantity, notional, Fee(cost, notional));
    } else {
      var quantity := SellQuantity(setup, b, o, q);
      var notional := Notional(quantity, q.bid);
      SoldKeepsSchedule(b, o.venue, quantity, notional, Fee(cost, notional));
    }
  }

  lemma {:induction false} CompletedKeepsSchedule(b: Books, o: Order, quantity: real)
    ensures var r := Completed(b, o, quantity);
      r.Ok? ==> r.value.pending == b.pending && r.value.latest == b.latest
  {
  }

  /** Quotes, the initial mark, then the due legs. */
  ghost predicate QuotesFirst(setup: Setup, b: Books, m: Marks, timestamp: int, quotes: seq<Arrival>, due: seq<Order>, mid: Books, first: Marks) {
    var noted := b.(latest := Noted(b.latest, quotes));
    Shaped(setup, noted) && first == FirstMark(setup, noted, m, timestamp) && ExecutesTo(setup, noted, due, mid)
  }

  /** The due legs at the old quotes, then the new quotes and the initial mark. */
  ghost predicate OrdersFirst(setup: Setup, b: Books, m: Marks, timestamp: int, quotes: seq<Arrival>, due: seq<Order>, mid: Books, first: Marks) {
    && ExecutesTo(setup, b, due, mid.(latest := b.latest)) && mid.latest == Noted(b.latest, quotes)
    && Shaped(setup, mid) && first == FirstMark(setup, mid, m, timestamp)
  }

  lemma {:induction false} QuotesCameFirst(setup: Setup, b: Books, m: Marks, timestamp: int, quotes: seq<Arrival>, noted: Books,
                                           due: seq<Order>, mid: Books, first: Marks)
    requires noted == b.(latest := Noted(b.latest, quotes)) && Shaped(setup, noted)
    requires first == FirstMark(setup, noted, m, timestamp) && ExecutesTo(setup, noted, due, mid)
    ensures QuotesFirst(setup, b, m, timestamp, quotes, due, mid, first)
  {
    hide Noted, Shaped, FirstMark, ExecutesTo;
  }

  lemma {:induction false} OrdersCameFirst(setup: Setup, b: Books, m: Marks, timestamp: int, quotes: seq<Arrival>, executed: Books,
                                           due: seq<Order>, mid: Books, first: Marks)
    requires ExecutesTo(setup, b, due, executed) && mid == executed.(latest := Noted(executed.latest, quotes))
    requires Shaped(setup, mid) && first == FirstMark(setup, mid, m, timestamp)
    ensures OrdersFirst(setup, b, m, timestamp, quotes, due, mid, first)
  {
    hide Noted, Shaped, FirstMark, ExecutesTo;
    ExecutingKeepsSchedule(setup, b, due, executed);
    assert mid.(latest := b.latest) == executed;
  }

  /** A decision: the eligible trade is submitted and those of its legs that arrive at once are executed. */
  ghost predicate Decided(setup: Setup, mid: Books, started: bool, timestamp: int, submitted: Books, immediate: seq<Order>, after: Books) {
    && Shaped(setup, mid)
    && (if Eligible(setup, mid, timestamp, started) <= 0.0 then immediate == [] && submitted == mid
        else TradeSubmitted(setup, mid, timestamp, started, submitted, immediate))
    && ExecutesTo(setup, submitted, immediate, after)
  }

  lemma {:induction false} Deciding(setup: Setup, mid: Books, started: bool, timestamp: int, submitted: Books, immediate: seq<Order>, after: Books)
    requires Shaped(setup, mid) && ExecutesTo(setup, submitted, immediate, after)
    requires if Eligible(setup, mid, timestamp, started) <= 0.0 then immediate == [] && submitted == mid
             else TradeSubmitted(setup, mid, timestamp, started, submitted, immediate)
    ensures Decided(setup, mid, started, timestamp, submitted, immediate, after)
  {
    hide Shaped, ExecutesTo, Eligible, TradeSubmitted;
  }

  /** One timestamp: its quotes, the books and marks before, between and after its phases. */
  datatype Moment = Moment(
    timestamp: int, quotes: seq<Arrival>, before: Books, marks: Marks, mid: Books, first: Marks,
    submitted: Books, immediate: seq<Order>, after: Books, last: Marks)

  /** The final mark is taken after executions or when no initial mark was; executions without one are refused. */
  ghost predicate Concluded(setup: Setup, b: Books, marks: Marks, first: Marks, timestamp: int, executed: bool, last: Marks) {
    && Shaped(setup, b)
    && last == (if |first.path| == |marks.path| || executed then WithMark(first, EquityAt(setup, b, timestamp), timestamp) else first)
    && (executed ==> EquityAt(setup, b, timestamp).Some?)
  }

  ghost predicate Ticked(setup: Setup, m: Moment) {
    var due, sorted := OrdersAt(m.before.pending, m.timestamp), Sort(m.quotes, ByVenue);
    var popped := m.before.(pending := Popped(m.before.pending, m.timestamp));
    && (if setup.quoteFirst then QuotesFirst(setup, popped, m.marks, m.timestamp, sorted, due, m.mid, m.first)
        else OrdersFirst(setup, popped, m.marks, m.timestamp, sorted, due, m.mid, m.first))
    && (if m.quotes == [] then m.submitted == m.mid && m.immediate == [] && m.after == m.mid
        else Decided(setup, m.mid, m.first.path != [], m.timestamp, m.submitted, m.immediate, m.after))
    && Concluded(setup, m.after, m.marks, m.first, m.timestamp, due != [] || m.immediate != [], m.last)
  }

  lemma {:induction false} FirstMarking(setup: Setup, b: Books, m: Marks, timestamp: int)
    requires Shaped(setup, b)
    ensures FirstMark(setup, b, m, timestamp) == if m.path != [] then m else WithMark(m, EquityAt(setup, b, timestamp), timestamp)
    ensures forall e :: |WithMark(m, e, timestamp).path| != |m.path| <==> e.Some?
  {
  }

  /** The phases of a timestamp make its moment. */
  lemma {:induction false} Ticking(setup: Setup, m: Moment, due: seq<Order>, sorted: seq<Arrival>)
    requires due == OrdersAt(m.before.pending, m.timestamp) && sorted == Sort(m.quotes, ByVenue)
    requires var popped := m.before.(pending := Popped(m.before.pending, m.timestamp));
      if setup.quoteFirst then QuotesFirst(setup, popped, m.marks, m.timestamp, sorted, due, m.mid, m.first)
      else OrdersFirst(setup, popped, m.marks, m.timestamp, sorted, due, m.mid, m.first)
    requires if m.quotes == [] then m.submitted == m.mid && m.immediate == [] && m.after == m.mid
             else Decided(setup, m.mid, m.first.path != [], m.timestamp, m.submitted, m.immediate, m.after)
    requires Shaped(setup, m.after) && (due != [] || m.immediate != [] ==> EquityAt(setup, m.after, m.timestamp).Some?)
    requires m.last == if |m.first.path| == |m.marks.path| || due != [] || m.immediate != []
                       then WithMark(m.first, EquityAt(setup, m.after, m.timestamp), m.timestamp) else m.first
    ensures Ticked(setup, m)
  {
    hide Sort, OrdersAt, Popped, QuotesFirst, OrdersFirst, Decided, Shaped, EquityAt, WithMark;
  }

  /** After a timestamp its own legs are gone from the schedule and new ones wait strictly later. */
  lemma {:induction false} TickedSchedule(setup: Setup, m: Moment)
    requires Ticked(setup, m) && setup.Valid()
    ensures forall t :: t in m.after.pending ==> (t in m.before.pending && t != m.timestamp) || t > m.timestamp
    ensures forall t :: t in m.before.pending && t != m.timestamp ==> t in m.after.pending
    ensures m.quotes == [] ==> m.after.pending == Popped(m.before.pending, m.timestamp)
  {
    hide Sort, Noted, Eligible, Shaped, Chain, Concluded, FirstMark, TradeSubmitted, Setup.Valid, ExecutesTo, OrdersAt;
    var due := OrdersAt(m.before.pending, m.timestamp);
    var popped := m.before.(pending := Popped(m.before.pending, m.timestamp));
    if setup.quoteFirst {
      ExecutingKeepsSchedule(setup, popped.(latest := Noted(popped.latest, Sort(m.quotes, ByVenue))), due, m.mid);
    } else {
      ExecutingKeepsSchedule(setup, popped, due, m.mid.(latest := popped.latest));
    }
    assert m.mid.pending == popped.pending;
    if m.quotes != [] {
      ExecutingKeepsSchedule(setup, m.submitted, m.immediate, m.after);
      if Eligible(setup, m.mid, m.timestamp, m.first.path != []) > 0.0 {
        SubmittedLater(setup, m.mid, m.timestamp, m.first.path != [], m.submitted, m.immediate);
      }
    }
  }

  lemma {:induction false} SubmittedLater(setup: Setup, b: Books, timestamp: int, started: bool, after: Books, immediate: seq<Order>)
    requires Shaped(setup, b) && TradeSubmitted(setup, b, timestamp, started, after, immediate)
    ensures forall t :: t in after.pending ==> t in b.pending || t > timestamp
    ensures forall t :: t in b.pending ==> t in after.pending
  {
    hide NetCost, Eligible;
  }

  // ---------------------------------------------------------------- a whole run

  /** The arrivals of the quotes, grouped by the time each becomes observable. */
  function ArrivalTable(setup: Setup, quotes: seq<Quote>): map<int, seq<Arrival>>
    requires forall q :: q in quotes ==> q.venue in setup.clocks
  {
    if quotes == [] then map[]
    else
      var q := quotes[|quotes| - 1];
      var table, at := ArrivalTable(setup, quotes[..|quotes| - 1]), AvailableAt(setup, q);
      table[at := ArrivingAt(table, at) + [Arrival(at, q)]]
  }

  function ArrivingAt(table: map<int, seq<Arrival>>, t: int): seq<Arrival> { if t in table then table[t] else [] }

  function FinalBooks(setup: Setup, trace: seq<Moment>): Books
    requires setup.Valid()
  {
    if trace == [] then StartBooks(setup) else trace[|trace| - 1].after
  }

  function FinalMarks(trace: seq<Moment>): Marks { if trace == [] then NO_MARKS else trace[|trace| - 1].last }

  ghost predicate Linked(setup: Setup, trace: seq<Moment>)
    requires setup.Valid()
  {
    forall i :: 0 <= i < |trace| ==>
      trace[i].before == FinalBooks(setup, trace[..i]) && trace[i].marks == FinalMarks(trace[..i]) && Ticked(setup, trace[i])
  }

  /** A moment happens only because quotes become observable or legs arrive then. */
  ghost predicate Occasioned(table: map<int, seq<Arrival>>, m: Moment) {
    m.quotes == ArrivingAt(table, m.timestamp) && (m.timestamp in table || m.timestamp in m.before.pending)
  }

  /** The moments so far, in ascending time; what is still to come lies later. */
  ghost predicate Unfolds(setup: Setup, table: map<int, seq<Arrival>>, trace: seq<Moment>)
    requires setup.Valid()
  {
    && Linked(setup, trace) && (forall i :: 0 <= i < |trace| ==> Occasioned(table, trace[i]))
    && forall i, j :: 0 <= i < j < |trace| ==> trace[i].timestamp < trace[j].timestamp
  }

  ghost predicate Happened(trace: seq<Moment>, t: int) { exists i :: 0 <= i < |trace| && trace[i].timestamp == t }

  /** A finished run: every arrival had its moment and no leg is left waiting. */
  ghost predicate IsHistory(setup: Setup, table: map<int, seq<Arrival>>, trace: seq<Moment>)
    requires setup.Valid()
  {
    && Unfolds(setup, table, trace) && trace != [] && FinalBooks(setup, trace).pending == map[]
    && forall t :: t in table ==> Happened(trace, t)
  }

  lemma {:induction false} HistoryBegins(setup: Setup, table: map<int, seq<Arrival>>, trace: seq<Moment>)
    requires setup.Valid() && IsHistory(setup, table, trace)
    ensures trace != []
  {
  }

  lemma {:induction false} OneMoreMoment(setup: Setup, table: map<int, seq<Arrival>>, trace: seq<Moment>, m: Moment)
    requires setup.Valid() && Unfolds(setup, table, trace) && Ticked(setup, m) && Occasioned(table, m)
    requires m.before == FinalBooks(setup, trace) && m.marks == FinalMarks(trace)
    requires forall i :: 0 <= i < |trace| ==> trace[i].timestamp < m.timestamp
    ensures Unfolds(setup, table, trace + [m]) && FinalBooks(setup, trace + [m]) == m.after && FinalMarks(trace + [m]) == m.last
  {
    hide Ticked, Occasioned, Setup.Valid, Linked, FinalBooks, FinalMarks;
    LinkedMore(setup, trace, m);
  }

  lemma {:induction false} LinkedMore(setup: Setup, trace: seq<Moment>, m: Moment)
    requires setup.Valid() && Linked(setup, trace) && Ticked(setup, m)
    requires m.before == FinalBooks(setup, trace) && m.marks == FinalMarks(trace)
    ensures Linked(setup, trace + [m]) && FinalBooks(setup, trace + [m]) == m.after && FinalMarks(trace + [m]) == m.last
  {
    hide Ticked, Setup.Valid, StartBooks;
    var more := trace + [m];
    forall i | 0 <= i < |more| ensures more[..i] == trace[..if i < |trace| then i else |trace|] { }
    assert trace[..|trace|] == trace;
  }

  lemma {:induction false} HappenedMore(trace: seq<Moment>, m: Moment, t: int)
    ensures Happened(trace + [m], t) <==> Happened(trace, t) || t == m.timestamp
  {
    var more := trace + [m];
    if Happened(trace, t) {
      var i :| 0 <= i < |trace| && trace[i].timestamp == t;
      assert more[i].timestamp == t;
    }
    assert more[|trace|] == m;
    if Happened(more, t) {
      var i :| 0 <= i < |more| && more[i].timestamp == t;
      assert i < |trace| ==> trace[i].timestamp == t;
    }
  }

  function FirstTime(trace: seq<Moment>): int
    requires trace != []
  {
    trace[0].timestamp
  }

  function LastTime(trace: seq<Moment>): int
    requires trace != []
  {
    trace[|trace| - 1].timestamp
  }

  lemma {:induction false} TimesOf(trace: seq<Moment>, m: Moment)
    ensures LastTime(trace + [m]) == m.timestamp && FirstTime(trace + [m]) == if trace == [] then m.timestamp else FirstTime(trace)
  {
  }

  // ---------------------------------------------------------------- what is still to come

  predicate QuotesPlaced(setup: Setup) { forall q :: q in setup.quotes ==> q.venue in setup.clocks }

  lemma {:induction false} PlacedQuotes(setup: Setup)
    requires setup.Valid()
    ensures QuotesPlaced(setup) && ArrivalTable(setup, setup.quotes).Keys != {}
  {
    assert QuotesPlaced(setup);
    assert AvailableAt(setup, setup.quotes[|setup.quotes| - 1]) in ArrivalTable(setup, setup.quotes).Keys;
  }

  /** The times still to come: those of arrivals left and of waiting legs, all later than what happened. */
  ghost predicate Awaited(table: map<int, seq<Arrival>>, trace: seq<Moment>, left: map<int, seq<Arrival>>, b: Books, times: set<int>) {
    && times == left.Keys + b.pending.Keys
    && (forall t :: t in left ==> t in table && left[t] == table[t])
    && (forall t :: t in table ==> t in left || Happened(trace, t))
    && forall i, t :: 0 <= i < |trace| && t in times ==> trace[i].timestamp < t
  }

  lemma {:induction false} AwaitedFirst(setup: Setup, table: map<int, seq<Arrival>>, b: Books)
    requires setup.Valid() && b.pending == map[] && b == StartBooks(setup)
    ensures Awaited(table, [], table, b, table.Keys) && Unfolds(setup, table, []) && FinalBooks(setup, []) == b && FinalMarks([]) == NO_MARKS
  {
  }

  lemma {:induction false} AwaitedQuotes(setup: Setup, table: map<int, seq<Arrival>>, trace: seq<Moment>, left: map<int, seq<Arrival>>,
                                         b: Books, times: set<int>, t: int)
    requires setup.Valid() && QuotesPlaced(setup) && table == ArrivalTable(setup, setup.quotes) && Awaited(table, trace, left, b, times) && t in times
    ensures forall a :: a in ArrivingAt(left, t) ==> a.quote in setup.quotes
    ensures if t in left then |left - {t}| < |left| else left - {t} == left
  {
    hide Setup.Valid;
    TableKnown(setup, setup.quotes);
    var less := left - {t};
    if t in left {
      assert less.Keys == left.Keys - {t};
      assert |less| == |less.Keys| && |left| == |left.Keys|;
    }
  }

  lemma {:induction false} TableKnown(setup: Setup, quotes: seq<Quote>)
    requires forall q :: q in quotes ==> q.venue in setup.clocks
    ensures forall t, a :: t in ArrivalTable(setup, quotes) && a in ArrivalTable(setup, quotes)[t] ==> a.quote in quotes && a.availableAt == t
  {
    if quotes != [] {
      TableKnown(setup, quotes[..|quotes| - 1]);
    }
  }

  /** After the earliest awaited time has happened, what is awaited lies later still. */
  lemma {:induction false} AwaitedNext(setup: Setup, table: map<int, seq<Arrival>>, trace: seq<Moment>, left: map<int, seq<Arrival>>,
                                       b: Books, times: set<int>, m: Moment)
    requires setup.Valid() && Awaited(table, trace, left, b, times) && Ticked(setup, m) && m.before == b
    requires m.timestamp in times && (forall u :: u in times ==> m.timestamp <= u) && m.quotes == ArrivingAt(left, m.timestamp)
    ensures Occasioned(table, m) && forall i :: 0 <= i < |trace| ==> trace[i].timestamp < m.timestamp
    ensures Awaited(table, trace + [m], left - {m.timestamp}, m.after, (times - {m.timestamp}) + m.after.pending.Keys)
    ensures m.timestamp !in left ==> (times - {m.timestamp}) + m.after.pending.Keys == times - {m.timestamp}
  {
    hide Ticked, Setup.Valid, Popped, Happened;
    TickedSchedule(setup, m);
    PoppedKeys(m.before.pending, m.timestamp);
    assert m.timestamp in table ==> m.timestamp in left by { NotYet(trace, m.timestamp); }
    var rest := left - {m.timestamp};
    assert rest.Keys == left.Keys - {m.timestamp};
    forall t | t in table ensures t in rest || Happened(trace + [m], t) { HappenedMore(trace, m, t); }
    var more := (times - {m.timestamp}) + m.after.pending.Keys;
    forall t | t in more ensures t in rest.Keys + m.after.pending.Keys {
      if t in b.pending && t != m.timestamp { assert t in m.after.pending; }
    }
    assert more == rest.Keys + m.after.pending.Keys;
    forall t | t in more ensures t > m.timestamp { }
    if m.timestamp !in left { PoppedRest(m.before.pending, m.timestamp); }
  }

  lemma {:induction false} NotYet(trace: seq<Moment>, t: int)
    requires forall i :: 0 <= i < |trace| ==> trace[i].timestamp < t
    ensures !Happened(trace, t)
  {
  }

  lemma {:induction false} PoppedRest(pending: map<int, seq<Order>>, t: int)
    ensures Popped(pending, t).Keys == pending.Keys - {t}
  {
  }

  lemma {:induction false} NothingAwaited(setup: Setup, table: map<int, seq<Arrival>>, trace: seq<Moment>, left: map<int, seq<Arrival>>, b: Books)
    requires setup.Valid() && Unfolds(setup, table, trace) && b == FinalBooks(setup, trace) && Awaited(table, trace, left, b, {})
    requires table.Keys != {}
    ensures IsHistory(setup, table, trace) && b.pending.Keys <= {}
  {
    hide Unfolds, Setup.Valid, FinalBooks;
    assert left.Keys + b.pending.Keys == {};
    assert b.pending.Keys == {};
    assert b.pending == map[];
    var t := SomeElement(table.Keys);
    assert t !in left;
    assert Happened(trace, t);
  }
}
