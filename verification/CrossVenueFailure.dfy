/** When a cross-venue run fails: a step that stops leaves no moment to happen, and a run that stops
    leaves no history whose marks are all positive. */
module CrossVenueFailure {
  import opened CrossVenueBooks
  import opened CrossVenueHistory
  import opened CrossVenueSchedule
  import opened CrossVenueTrace
  import opened Ordering
  import opened Outcomes

  ghost predicate AllPositive(path: seq<real>) { forall i :: 0 <= i < |path| ==> path[i] > 0.0 }

  // ---------------------------------------------------------------- what stops one timestamp

  /** The legs cannot be executed one after another. */
  ghost predicate Stuck(setup: Setup, b: Books, orders: seq<Order>) { forall after :: !ExecutesTo(setup, b, orders, after) }

  lemma {:induction false} StuckAtLeg(setup: Setup, b: Books, orders: seq<Order>, i: nat, mid: Books)
    requires i < |orders| && ExecutesTo(setup, b, orders[..i], mid) && forall x :: !Executes(setup, mid, orders[i], x)
    ensures Stuck(setup, b, orders)
  {
    hide Executes;
    forall after ensures !ExecutesTo(setup, b, orders, after) {
      if ExecutesTo(setup, b, orders, after) {
        var states :| Chain(setup, states, orders) && states[0] == b && states[|orders|] == after;
        assert Executes(setup, states[i], orders[i], states[i + 1]);
        var front := states[..i + 1];
        forall k | 0 <= k < i ensures Executes(setup, front[k], orders[..i][k], front[k + 1]) {
          assert Executes(setup, states[k], orders[k], states[k + 1]);
        }
        assert Chain(setup, front, orders[..i]) && front[0] == b && front[|orders[..i]|] == states[i];
        SameExecutions(setup, b, orders[..i], mid, states[i]);
      }
    }
  }

  lemma {:induction false} FailedLeg(setup: Setup, b: Books, o: Order)
    requires Shaped(setup, b) && o.venue in setup.venues && Executed(setup, b, o).Err?
    ensures forall x :: !Executes(setup, b, o, x)
  {
    hide Executed, Shaped;
  }

  ghost predicate Arrived(setup: Setup, b: Books, m: Marks, timestamp: int, quotes: seq<Arrival>, due: seq<Order>, mid: Books, first: Marks) {
    if setup.quoteFirst then QuotesFirst(setup, b, m, timestamp, quotes, due, mid, first)
    else OrdersFirst(setup, b, m, timestamp, quotes, due, mid, first)
  }

  lemma {:induction false} ArrivedThus(setup: Setup, b: Books, m: Marks, timestamp: int, quotes: seq<Arrival>, due: seq<Order>, mid: Books, first: Marks)
    requires if setup.quoteFirst then QuotesFirst(setup, b, m, timestamp, quotes, due, mid, first)
             else OrdersFirst(setup, b, m, timestamp, quotes, due, mid, first)
    ensures Arrived(setup, b, m, timestamp, quotes, due, mid, first)
  {
    hide QuotesFirst, OrdersFirst;
  }

  lemma {:induction false} ArrivedParts(setup: Setup, b: Books, m: Marks, timestamp: int, quotes: seq<Arrival>, due: seq<Order>, mid: Books, first: Marks)
    requires Arrived(setup, b, m, timestamp, quotes, due, mid, first)
    ensures if setup.quoteFirst then QuotesFirst(setup, b, m, timestamp, quotes, due, mid, first)
            else OrdersFirst(setup, b, m, timestamp, quotes, due, mid, first)
  {
    hide QuotesFirst, OrdersFirst;
  }

  /** Quotes, due legs and the initial mark cannot all go well. */
  ghost predicate NoArrival(setup: Setup, b: Books, m: Marks, timestamp: int, quotes: seq<Arrival>, due: seq<Order>) {
    forall mid, first :: Arrived(setup, b, m, timestamp, quotes, due, mid, first) ==> !AllPositive(first.path)
  }

  lemma {:induction false} StuckAfterQuotes(setup: Setup, b: Books, m: Marks, timestamp: int, quotes: seq<Arrival>, due: seq<Order>, noted: Books)
    requires setup.quoteFirst && noted == b.(latest := Noted(b.latest, quotes)) && Stuck(setup, noted, due)
    ensures NoArrival(setup, b, m, timestamp, quotes, due)
  {
    hide Noted, Shaped, FirstMark, ExecutesTo;
  }

  lemma {:induction false} StuckBeforeQuotes(setup: Setup, b: Books, m: Marks, timestamp: int, quotes: seq<Arrival>, due: seq<Order>)
    requires !setup.quoteFirst && Stuck(setup, b, due)
    ensures NoArrival(setup, b, m, timestamp, quotes, due)
  {
    hide Noted, Shaped, FirstMark, ExecutesTo;
  }

  lemma {:induction false} WorthlessAfterQuotes(setup: Setup, b: Books, m: Marks, timestamp: int, quotes: seq<Arrival>, due: seq<Order>, noted: Books)
    requires setup.quoteFirst && noted == b.(latest := Noted(b.latest, quotes)) && Shaped(setup, noted)
    requires !AllPositive(FirstMark(setup, noted, m, timestamp).path)
    ensures NoArrival(setup, b, m, timestamp, quotes, due)
  {
    hide Noted, Shaped, FirstMark, ExecutesTo, AllPositive;
  }

  lemma {:induction false} WorthlessBeforeQuotes(setup: Setup, b: Books, m: Marks, timestamp: int, quotes: seq<Arrival>, due: seq<Order>,
                                                 executed: Books, noted: Books)
    requires !setup.quoteFirst && ExecutesTo(setup, b, due, executed) && noted == executed.(latest := Noted(executed.latest, quotes))
    requires Shaped(setup, noted) && !AllPositive(FirstMark(setup, noted, m, timestamp).path)
    ensures NoArrival(setup, b, m, timestamp, quotes, due)
  {
    hide Noted, Shaped, FirstMark, ExecutesTo, AllPositive;
    ExecutingKeepsSchedule(setup, b, due, executed);
    forall mid, first | Arrived(setup, b, m, timestamp, quotes, due, mid, first) ensures !AllPositive(first.path) {
      SameExecutions(setup, b, due, executed, mid.(latest := b.latest));
      assert mid == mid.(latest := b.latest).(latest := mid.latest) == noted;
    }
  }

  /** No decision can be carried out. */
  ghost predicate NoDecision(setup: Setup, mid: Books, started: bool, timestamp: int) {
    forall s, i, a :: !Decided(setup, mid, started, timestamp, s, i, a)
  }

  lemma {:induction false} StuckDeciding(setup: Setup, mid: Books, started: bool, timestamp: int, submitted: Books, immediate: seq<Order>)
    requires Shaped(setup, mid) && Stuck(setup, submitted, immediate)
    requires if Eligible(setup, mid, timestamp, started) <= 0.0 then immediate == [] && submitted == mid
             else TradeSubmitted(setup, mid, timestamp, started, submitted, immediate)
    ensures NoDecision(setup, mid, started, timestamp)
  {
    hide Shaped, Eligible, ExecutesTo, Submitted, BuyOrder, SellOrder, Immediate;
  }

  lemma {:induction false} DecidedOrStuck(setup: Setup, mid: Books, started: bool, timestamp: int, submitted: Books, immediate: seq<Order>,
                                          after: Books, stuck: bool)
    requires Shaped(setup, mid) && if stuck then Stuck(setup, submitted, immediate) else ExecutesTo(setup, submitted, immediate, after)
    requires if Eligible(setup, mid, timestamp, started) <= 0.0 then immediate == [] && submitted == mid
             else TradeSubmitted(setup, mid, timestamp, started, submitted, immediate)
    ensures if stuck then NoDecision(setup, mid, started, timestamp) else Decided(setup, mid, started, timestamp, submitted, immediate, after)
  {
    hide Shaped, Eligible, ExecutesTo, TradeSubmitted, Decided, NoDecision, Stuck;
    if stuck {
      StuckDeciding(setup, mid, started, timestamp, submitted, immediate);
    } else {
      Deciding(setup, mid, started, timestamp, submitted, immediate, after);
    }
  }

  /** The account cannot be marked although it must, or is not worth a positive amount. */
  ghost predicate NoMark(setup: Setup, b: Books, timestamp: int, marking: bool, executed: bool)
    requires Shaped(setup, b)
  {
    var e := EquityAt(setup, b, timestamp);
    (executed && e.None?) || ((marking || executed) && e.Some? && e.value <= 0.0)
  }

  /** Nothing can happen at a timestamp that leaves all marks positive. */
  ghost predicate NoMoment(setup: Setup, timestamp: int, quotes: seq<Arrival>, before: Books, marks: Marks) {
    forall m :: Ticked(setup, m) && m.timestamp == timestamp && m.quotes == quotes && m.before == before && m.marks == marks ==> !AllPositive(m.last.path)
  }

  lemma {:induction false} MarksExtend(m: Marks, e: Option<real>, timestamp: int)
    ensures !AllPositive(m.path) ==> !AllPositive(WithMark(m, e, timestamp).path)
    ensures e.Some? && e.value <= 0.0 ==> !AllPositive(WithMark(m, e, timestamp).path)
  {
    if !AllPositive(m.path) {
      var i :| 0 <= i < |m.path| && m.path[i] <= 0.0;
      assert WithMark(m, e, timestamp).path[i] == m.path[i];
    }
    if e.Some? { assert WithMark(m, e, timestamp).path[|m.path|] == e.value; }
  }

  lemma {:induction false} FailsArriving(setup: Setup, timestamp: int, quotes: seq<Arrival>, before: Books, marks: Marks)
    requires NoArrival(setup, before.(pending := Popped(before.pending, timestamp)), marks, timestamp, Sort(quotes, ByVenue), OrdersAt(before.pending, timestamp))
    ensures NoMoment(setup, timestamp, quotes, before, marks)
  {
    hide Sort, Shaped, QuotesFirst, OrdersFirst, Decided, OrdersAt, Popped, EquityAt, WithMark, AllPositive;
    forall m | Ticked(setup, m) && m.timestamp == timestamp && m.quotes == quotes && m.before == before && m.marks == marks
      ensures !AllPositive(m.last.path)
    {
      assert Arrived(setup, before.(pending := Popped(before.pending, timestamp)), marks, timestamp, Sort(quotes, ByVenue),
                     OrdersAt(before.pending, timestamp), m.mid, m.first);
      MarksExtend(m.first, EquityAt(setup, m.after, timestamp), timestamp);
    }
  }

  lemma {:induction false} FailsDeciding(setup: Setup, timestamp: int, quotes: seq<Arrival>, before: Books, marks: Marks, mid: Books, first: Marks)
    requires Arrived(setup, before.(pending := Popped(before.pending, timestamp)), marks, timestamp, Sort(quotes, ByVenue),
                     OrdersAt(before.pending, timestamp), mid, first)
    requires quotes != [] && NoDecision(setup, mid, first.path != [], timestamp)
    ensures NoMoment(setup, timestamp, quotes, before, marks)
  {
    hide *;
    forall m: Moment | m.timestamp == timestamp && m.quotes == quotes && m.before == before && m.marks == marks ensures !Ticked(setup, m) {
      CannotDecide(setup, m, mid, first);
    }
    NeverTicks(setup, timestamp, quotes, before, marks);
  }

  lemma {:induction false} NeverTicks(setup: Setup, timestamp: int, quotes: seq<Arrival>, before: Books, marks: Marks)
    requires forall m: Moment :: m.timestamp == timestamp && m.quotes == quotes && m.before == before && m.marks == marks ==> !Ticked(setup, m)
    ensures NoMoment(setup, timestamp, quotes, before, marks)
  {
    hide Ticked, AllPositive;
  }

  lemma {:induction false} CannotDecide(setup: Setup, m: Moment, mid: Books, first: Marks)
    requires Arrived(setup, m.before.(pending := Popped(m.before.pending, m.timestamp)), m.marks, m.timestamp, Sort(m.quotes, ByVenue),
                     OrdersAt(m.before.pending, m.timestamp), mid, first)
    requires m.quotes != [] && NoDecision(setup, mid, first.path != [], m.timestamp)
    ensures !Ticked(setup, m)
  {
    hide Sort, Shaped, QuotesFirst, OrdersFirst, Decided, OrdersAt, Popped, EquityAt, WithMark;
    if Ticked(setup, m) {
      SameArrivals(setup, m.before.(pending := Popped(m.before.pending, m.timestamp)), m.marks, m.timestamp, Sort(m.quotes, ByVenue),
                   OrdersAt(m.before.pending, m.timestamp), m.mid, m.first, mid, first);
    }
  }

  lemma {:induction false} FailsConcluding(setup: Setup, timestamp: int, quotes: seq<Arrival>, before: Books, marks: Marks, mid: Books, first: Marks,
                                           submitted: Books, immediate: seq<Order>, after: Books)
    requires Arrived(setup, before.(pending := Popped(before.pending, timestamp)), marks, timestamp, Sort(quotes, ByVenue),
                     OrdersAt(before.pending, timestamp), mid, first)
    requires if quotes == [] then immediate == [] && after == mid
             else Decided(setup, mid, first.path != [], timestamp, submitted, immediate, after)
    requires Shaped(setup, after)
    requires NoMark(setup, after, timestamp, |first.path| == |marks.path|, OrdersAt(before.pending, timestamp) != [] || immediate != [])
    ensures NoMoment(setup, timestamp, quotes, before, marks)
  {
    hide Sort, Shaped, QuotesFirst, OrdersFirst, Decided, OrdersAt, Popped, EquityAt, WithMark, AllPositive;
    forall m | Ticked(setup, m) && m.timestamp == timestamp && m.quotes == quotes && m.before == before && m.marks == marks
      ensures !AllPositive(m.last.path)
    {
      SameArrivals(setup, before.(pending := Popped(before.pending, timestamp)), marks, timestamp, Sort(quotes, ByVenue),
                   OrdersAt(before.pending, timestamp), m.mid, m.first, mid, first);
      if quotes != [] {
        SameDecision(setup, mid, first.path != [], timestamp, m.submitted, m.immediate, m.after, submitted, immediate, after);
      }
      MarksExtend(m.first, EquityAt(setup, m.after, timestamp), timestamp);
    }
  }

  /** After quotes, due legs and the initial mark, no decision can be carried out or no closing mark taken. */
  ghost predicate NoResponse(setup: Setup, mid: Books, first: Marks, timestamp: int, quoted: bool, submitted: Books, immediate: seq<Order>,
                             after: Books, marking: bool, due: bool)
  {
    || (quoted && NoDecision(setup, mid, first.path != [], timestamp))
    || (Shaped(setup, after) && NoMark(setup, after, timestamp, marking, due || immediate != [])
        && if quoted then Decided(setup, mid, first.path != [], timestamp, submitted, immediate, after) else immediate == [] && after == mid)
  }

  lemma {:induction false} NoneDecided(setup: Setup, mid: Books, first: Marks, timestamp: int, submitted: Books, immediate: seq<Order>,
                                       after: Books, marking: bool, due: bool)
    requires NoDecision(setup, mid, first.path != [], timestamp)
    ensures NoResponse(setup, mid, first, timestamp, true, submitted, immediate, after, marking, due)
  {
    hide NoDecision, Shaped, NoMark, Decided;
  }

  lemma {:induction false} NoneMarked(setup: Setup, mid: Books, first: Marks, timestamp: int, quoted: bool, submitted: Books, immediate: seq<Order>,
                                      after: Books, marking: bool, due: bool)
    requires Shaped(setup, after) && NoMark(setup, after, timestamp, marking, due || immediate != [])
    requires if quoted then Decided(setup, mid, first.path != [], timestamp, submitted, immediate, after) else immediate == [] && after == mid
    ensures NoResponse(setup, mid, first, timestamp, quoted, submitted, immediate, after, marking, due)
  {
    hide NoDecision, Shaped, NoMark, Decided;
  }

  lemma {:induction false} FailsResponding(setup: Setup, timestamp: int, quotes: seq<Arrival>, before: Books, marks: Marks, mid: Books, first: Marks,
                                           submitted: Books, immediate: seq<Order>, after: Books, marking: bool)
    requires Arrived(setup, before.(pending := Popped(before.pending, timestamp)), marks, timestamp, Sort(quotes, ByVenue),
                     OrdersAt(before.pending, timestamp), mid, first)
    requires marking <==> |first.path| == |marks.path|
    requires NoResponse(setup, mid, first, timestamp, quotes != [], submitted, immediate, after, marking, OrdersAt(before.pending, timestamp) != [])
    ensures NoMoment(setup, timestamp, quotes, before, marks)
  {
    hide NoDecision, Shaped, NoMark, Decided, Sort, OrdersAt, Popped, Arrived, NoMoment;
    if quotes != [] && NoDecision(setup, mid, first.path != [], timestamp) {
      FailsDeciding(setup, timestamp, quotes, before, marks, mid, first);
    } else {
      FailsConcluding(setup, timestamp, quotes, before, marks, mid, first, submitted, immediate, after);
    }
  }

  // ---------------------------------------------------------------- what stops a run

  /** No history leaves all marks positive. */
  ghost predicate NoHistory(setup: Setup, table: map<int, seq<Arrival>>)
    requires setup.Valid()
  {
    forall h :: IsHistory(setup, table, h) ==> !AllPositive(FinalMarks(h).path)
  }

  lemma {:induction false} TickedExtends(setup: Setup, m: Moment)
    requires Ticked(setup, m)
    ensures !AllPositive(m.marks.path) ==> !AllPositive(m.last.path)
  {
    hide Sort, Shaped, ExecutesTo, Noted, Decided, OrdersAt, Popped, EquityAt, WithMark, AllPositive;
    forall e: Option<real>, f: Marks ensures !AllPositive(f.path) ==> !AllPositive(WithMark(f, e, m.timestamp).path) {
      MarksExtend(f, e, m.timestamp);
    }
  }

  /** A mark that is not positive stays on record. */
  lemma {:induction false} WorthlessStays(setup: Setup, table: map<int, seq<Arrival>>, trace: seq<Moment>, i: nat, n: nat)
    requires setup.Valid() && Unfolds(setup, table, trace) && i < n <= |trace| && !AllPositive(trace[i].last.path)
    ensures !AllPositive(FinalMarks(trace[..n]).path)
    decreases n
  {
    hide *;
    LastMarks(trace, n);
    if i < n - 1 {
      WorthlessStays(setup, table, trace, i, n - 1);
      MomentAt(setup, table, trace, n - 1);
      TickedExtends(setup, trace[n - 1]);
    }
  }

  lemma {:induction false} LastMarks(trace: seq<Moment>, n: nat)
    requires 0 < n <= |trace|
    ensures FinalMarks(trace[..n]) == trace[n - 1].last
  {
  }

  /** The moments so far begin every history there is. */
  lemma {:induction false} BeginsEveryHistory(setup: Setup, table: map<int, seq<Arrival>>, trace: seq<Moment>, left: map<int, seq<Arrival>>,
                                              times: set<int>, h: seq<Moment>, n: nat)
    requires setup.Valid() && Unfolds(setup, table, trace) && Awaited(table, trace, left, FinalBooks(setup, trace), times)
    requires IsHistory(setup, table, h) && n <= |trace|
    ensures n <= |h| && h[..n] == trace[..n]
  {
    hide *;
    if n > 0 {
      BeginsEveryHistory(setup, table, trace, left, times, h, n - 1);
      HistoryUnfolds(setup, table, h);
      MomentAt(setup, table, trace, n - 1);
      NextAgrees(setup, table, trace, h, n - 1);
      MomentAt(setup, table, h, n - 1);
      NotBefore(setup, table, trace, left, times, h, n - 1);
      OccasionedAlike(table, trace[n - 1], h[n - 1]);
      SameMoment(setup, trace[n - 1], h[n - 1]);
      assert h[..n] == h[..n - 1] + [h[n - 1]] && trace[..n] == trace[..n - 1] + [trace[n - 1]];
    }
  }

  lemma {:induction false} OccasionedTime(table: map<int, seq<Arrival>>, m: Moment)
    requires Occasioned(table, m)
    ensures m.quotes == ArrivingAt(table, m.timestamp) && (m.timestamp in table || m.timestamp in m.before.pending)
  {
  }

  lemma {:induction false} NotBefore(setup: Setup, table: map<int, seq<Arrival>>, trace: seq<Moment>, left: map<int, seq<Arrival>>,
                                     times: set<int>, h: seq<Moment>, i: nat)
    requires setup.Valid() && Unfolds(setup, table, trace) && Awaited(table, trace, left, FinalBooks(setup, trace), times)
    requires IsHistory(setup, table, h) && i < |trace| && i < |h| && h[..i] == trace[..i]
    ensures trace[i].timestamp <= h[i].timestamp
  {
    hide *;
    HistoryUnfolds(setup, table, h);
    MomentAt(setup, table, h, i);
    MomentAt(setup, table, trace, i);
    OccasionedTime(table, h[i]);
    var u := h[i].timestamp;
    if u < trace[i].timestamp {
      forall k | 0 <= k < i ensures trace[k].timestamp < u { assert trace[k] == trace[..i][k] == h[..i][k]; }
      if u !in table {
        assert trace[..|trace|] == trace;
        StaysPending(setup, table, trace, i, |trace|, u);
      }
      StillAwaited(setup, table, trace, left, times, u);
    }
  }

  lemma {:induction false} StillAwaited(setup: Setup, table: map<int, seq<Arrival>>, trace: seq<Moment>, left: map<int, seq<Arrival>>,
                                        times: set<int>, u: int)
    requires setup.Valid() && Awaited(table, trace, left, FinalBooks(setup, trace), times)
    requires (u in table || u in FinalBooks(setup, trace).pending) && forall k :: 0 <= k < |trace| ==> trace[k].timestamp != u
    ensures forall k :: 0 <= k < |trace| ==> trace[k].timestamp < u
  {
    hide FinalBooks, Setup.Valid;
    assert !Happened(trace, u);
    assert u in times;
  }

  /** Where the earliest awaited timestamp cannot happen, no history completes. */
  lemma {:induction false} NoFurther(setup: Setup, table: map<int, seq<Arrival>>, trace: seq<Moment>, left: map<int, seq<Arrival>>,
                                     times: set<int>, t: int)
    requires setup.Valid() && Unfolds(setup, table, trace) && Awaited(table, trace, left, FinalBooks(setup, trace), times)
    requires t in times && (forall u :: u in times ==> t <= u)
    requires NoMoment(setup, t, ArrivingAt(left, t), FinalBooks(setup, trace), FinalMarks(trace))
    ensures NoHistory(setup, table)
  {
    hide *;
    forall h | IsHistory(setup, table, h) ensures !AllPositive(FinalMarks(h).path) {
      BeginsEveryHistory(setup, table, trace, left, times, h, |trace|);
      HistoryUnfolds(setup, table, h);
      assert trace[..|trace|] == trace && h[..|h|] == h;
      AwaitedThen(setup, table, trace, left, times, t);
      NotSkipped(setup, table, h, |trace|, t);
      MomentAt(setup, table, h, |trace|);
      OccasionedTime(table, h[|trace|]);
      NextIsEarliest(setup, table, trace, left, times, t, h[|trace|]);
      FailingMoment(setup, t, ArrivingAt(left, t), FinalBooks(setup, trace), FinalMarks(trace), h[|trace|]);
      WorthlessStays(setup, table, h, |trace|, |h|);
    }
    NoneGood(setup, table);
  }

  lemma {:induction false} NoneGood(setup: Setup, table: map<int, seq<Arrival>>)
    requires setup.Valid() && forall h :: IsHistory(setup, table, h) ==> !AllPositive(FinalMarks(h).path)
    ensures NoHistory(setup, table)
  {
    hide IsHistory, AllPositive, FinalMarks, Setup.Valid;
  }

  lemma {:induction false} FailingMoment(setup: Setup, t: int, quotes: seq<Arrival>, b: Books, marks: Marks, m: Moment)
    requires NoMoment(setup, t, quotes, b, marks) && Ticked(setup, m)
    requires m.timestamp == t && m.quotes == quotes && m.before == b && m.marks == marks
    ensures !AllPositive(m.last.path)
  {
    hide Ticked, AllPositive;
  }

  lemma {:induction false} AwaitedThen(setup: Setup, table: map<int, seq<Arrival>>, trace: seq<Moment>, left: map<int, seq<Arrival>>,
                                       times: set<int>, t: int)
    requires setup.Valid() && Awaited(table, trace, left, FinalBooks(setup, trace), times) && t in times
    ensures t in table || t in FinalBooks(setup, trace).pending
    ensures forall k :: 0 <= k < |trace| ==> trace[k].timestamp < t
  {
    hide FinalBooks, Setup.Valid;
  }

  lemma {:induction false} NextIsEarliest(setup: Setup, table: map<int, seq<Arrival>>, trace: seq<Moment>, left: map<int, seq<Arrival>>,
                                          times: set<int>, t: int, m: Moment)
    requires setup.Valid() && Awaited(table, trace, left, FinalBooks(setup, trace), times)
    requires t in times && (forall u :: u in times ==> t <= u) && m.timestamp <= t
    requires m.before == FinalBooks(setup, trace) && (m.timestamp in table || m.timestamp in m.before.pending)
    requires m.quotes == ArrivingAt(table, m.timestamp) && forall k :: 0 <= k < |trace| ==> trace[k].timestamp < m.timestamp
    ensures m.timestamp == t && m.quotes == ArrivingAt(left, t)
  {
    hide FinalBooks, Setup.Valid;
    assert !Happened(trace, m.timestamp);
    assert m.timestamp in times;
    assert !Happened(trace, t) by { NotYet(trace, t); }
  }

  lemma {:induction false} MarkFails(setup: Setup, b: Books, timestamp: int, marking: bool, executed: bool)
    requires Shaped(setup, b)
    ensures var e := EquityAt(setup, b, timestamp);
      NoMark(setup, b, timestamp, marking, executed) <==> (executed && e.None?) || ((marking || executed) && e.Some? && e.value <= 0.0)
  {
    hide EquityAt, Shaped;
  }

  /** A history whose marks are all positive, the last one taken at its last moment. */
  ghost predicate Completes(setup: Setup, h: seq<Moment>)
    requires setup.Valid()
  {
    && QuotesPlaced(setup) && IsHistory(setup, ArrivalTable(setup, setup.quotes), h)
    && h != [] && AllPositive(FinalMarks(h).path) && FinalMarks(h).at == Some(LastTime(h))
  }

  lemma {:induction false} NoneCompletes(setup: Setup)
    requires setup.Valid() && QuotesPlaced(setup) && NoHistory(setup, ArrivalTable(setup, setup.quotes))
    ensures forall h :: !Completes(setup, h)
  {
    hide Setup.Valid, IsHistory, FinalMarks, AllPositive, ArrivalTable;
  }

  lemma {:induction false} CompletesExactly(setup: Setup, trace: seq<Moment>)
    requires setup.Valid() && QuotesPlaced(setup) && IsHistory(setup, ArrivalTable(setup, setup.quotes), trace) && trace != []
    requires AllPositive(FinalMarks(trace).path)
    ensures (exists h :: Completes(setup, h)) <==> FinalMarks(trace).at == Some(LastTime(trace))
  {
    hide Setup.Valid, IsHistory, FinalMarks, AllPositive, ArrivalTable;
    forall h | Completes(setup, h) ensures h == trace { HistoryIsUnique(setup, ArrivalTable(setup, setup.quotes), h, trace); }
    if FinalMarks(trace).at == Some(LastTime(trace)) { assert Completes(setup, trace); }
  }
}
