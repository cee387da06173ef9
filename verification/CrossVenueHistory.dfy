/** A cross-venue run depends on its input alone: two complete histories are the same. */
module CrossVenueHistory {
  import opened CrossVenueBooks
  import opened CrossVenueSchedule
  import opened CrossVenueTrace
  import opened CrossVenueTrades
  import opened Ordering

  lemma {:induction false} SameChain(setup: Setup, a: seq<Books>, b: seq<Books>, orders: seq<Order>, n: nat)
    requires n < |a| && n < |b| && n <= |orders| && a[0] == b[0] && Chain(setup, a, orders) && Chain(setup, b, orders)
    ensures a[n] == b[n]
  {
    hide *;
    if n > 0 {
      SameChain(setup, a, b, orders, n - 1);
      ChainStep(setup, a, orders, n - 1);
      ChainStep(setup, b, orders, n - 1);
      SameExecution(setup, a[n - 1], orders[n - 1], a[n], b[n]);
    }
  }

  lemma {:induction false} SameExecution(setup: Setup, b: Books, o: Order, x: Books, y: Books)
    requires Executes(setup, b, o, x) && Executes(setup, b, o, y)
    ensures x == y
  {
    hide Executed, Shaped;
  }

  lemma {:induction false} SameExecutions(setup: Setup, b: Books, orders: seq<Order>, x: Books, y: Books)
    requires ExecutesTo(setup, b, orders, x) && ExecutesTo(setup, b, orders, y)
    ensures x == y
  {
    hide Executes;
    var s :| Chain(setup, s, orders) && s[0] == b && s[|orders|] == x;
    var t :| Chain(setup, t, orders) && t[0] == b && t[|orders|] == y;
    SameChain(setup, s, t, orders, |orders|);
  }

  lemma {:induction false} SameDecision(setup: Setup, mid: Books, started: bool, timestamp: int,
                                        s: Books, i: seq<Order>, x: Books, t: Books, j: seq<Order>, y: Books)
    requires Decided(setup, mid, started, timestamp, s, i, x) && Decided(setup, mid, started, timestamp, t, j, y)
    ensures s == t && i == j && x == y
  {
    hide Shaped, Eligible, ExecutesTo, Submitted, BuyOrder, SellOrder, Immediate;
    SameExecutions(setup, s, i, x, if s == t && i == j then y else x);
  }

  lemma {:induction false} SameArrivals(setup: Setup, b: Books, m: Marks, timestamp: int, quotes: seq<Arrival>, due: seq<Order>,
                                        x: Books, f: Marks, y: Books, g: Marks)
    requires if setup.quoteFirst then QuotesFirst(setup, b, m, timestamp, quotes, due, x, f)
             else OrdersFirst(setup, b, m, timestamp, quotes, due, x, f)
    requires if setup.quoteFirst then QuotesFirst(setup, b, m, timestamp, quotes, due, y, g)
             else OrdersFirst(setup, b, m, timestamp, quotes, due, y, g)
    ensures x == y && f == g
  {
    hide Shaped, ExecutesTo, FirstMark, Noted;
    if setup.quoteFirst {
      SameExecutions(setup, b.(latest := Noted(b.latest, quotes)), due, x, y);
    } else {
      SameExecutions(setup, b, due, x.(latest := b.latest), y.(latest := b.latest));
      assert x == x.(latest := b.latest).(latest := x.latest);
      assert y == x.(latest := b.latest).(latest := y.latest);
    }
  }

  /** A timestamp's quotes and the books and marks before it fix everything that happens at it. */
  lemma {:induction false} SameMoment(setup: Setup, m: Moment, n: Moment)
    requires Ticked(setup, m) && Ticked(setup, n)
    requires m.timestamp == n.timestamp && m.quotes == n.quotes && m.before == n.before && m.marks == n.marks
    ensures m == n
  {
    hide Sort, Shaped, QuotesFirst, OrdersFirst, Decided, OrdersAt, Popped, EquityAt, WithMark;
    var due, sorted := OrdersAt(m.before.pending, m.timestamp), Sort(m.quotes, ByVenue);
    var popped := m.before.(pending := Popped(m.before.pending, m.timestamp));
    SameArrivals(setup, popped, m.marks, m.timestamp, sorted, due, m.mid, m.first, n.mid, n.first);
    if m.quotes != [] {
      SameDecision(setup, m.mid, m.first.path != [], m.timestamp, m.submitted, m.immediate, m.after, n.submitted, n.immediate, n.after);
    }
  }

  /** A leg stays on the schedule until its own time comes. */
  lemma {:induction false} StaysPending(setup: Setup, table: map<int, seq<Arrival>>, trace: seq<Moment>, i: nat, j: nat, t: int)
    requires setup.Valid() && Unfolds(setup, table, trace) && i <= j <= |trace| && t in FinalBooks(setup, trace[..i]).pending
    requires forall k :: i <= k < j ==> trace[k].timestamp != t
    ensures t in FinalBooks(setup, trace[..j]).pending
    decreases j
  {
    hide *;
    if i < j {
      StaysPending(setup, table, trace, i, j - 1, t);
      MomentAt(setup, table, trace, j - 1);
      TickedSchedule(setup, trace[j - 1]);
    }
  }

  /** The `i`-th moment follows the ones before it, for a reason, and later than they. */
  lemma {:induction false} MomentAt(setup: Setup, table: map<int, seq<Arrival>>, trace: seq<Moment>, i: nat)
    requires setup.Valid() && Unfolds(setup, table, trace) && i < |trace|
    ensures var m := trace[i];
      && m.before == FinalBooks(setup, trace[..i]) && m.marks == FinalMarks(trace[..i]) && Ticked(setup, m) && Occasioned(table, m)
      && FinalBooks(setup, trace[..i + 1]) == m.after
    ensures forall k :: 0 <= k < i ==> trace[k].timestamp < trace[i].timestamp
    ensures forall k :: i < k < |trace| ==> trace[i].timestamp < trace[k].timestamp
  {
    hide Ticked, Occasioned, Setup.Valid, StartBooks;
    assert trace[..i + 1][|trace[..i + 1]| - 1] == trace[i];
  }

  /** Whatever is awaited after the common moments happens next in no history later than in another. */
  lemma {:induction false} NotSkipped(setup: Setup, table: map<int, seq<Arrival>>, trace: seq<Moment>, i: nat, t: int)
    requires setup.Valid() && IsHistory(setup, table, trace) && i <= |trace|
    requires t in table || t in FinalBooks(setup, trace[..i]).pending
    requires forall k :: 0 <= k < i ==> trace[k].timestamp < t
    ensures i < |trace| && trace[i].timestamp <= t
  {
    hide Linked, Setup.Valid, Occasioned, StartBooks, FinalBooks;
    assert trace[..|trace|] == trace;
    if t in table {
      var k :| 0 <= k < |trace| && trace[k].timestamp == t;
      assert i <= k;
    } else if i == |trace| || trace[i].timestamp > t {
      assert forall k :: i <= k < |trace| ==> trace[k].timestamp != t;
      StaysPending(setup, table, trace, i, |trace|, t);
    }
  }

  /** Two complete histories agree moment by moment. */
  lemma {:induction false} SamePrefix(setup: Setup, table: map<int, seq<Arrival>>, a: seq<Moment>, b: seq<Moment>, n: nat)
    requires setup.Valid() && IsHistory(setup, table, a) && IsHistory(setup, table, b) && n <= |a|
    ensures n <= |b| && a[..n] == b[..n]
  {
    hide *;
    if n > 0 {
      HistoryUnfolds(setup, table, a);
      HistoryUnfolds(setup, table, b);
      SamePrefix(setup, table, a, b, n - 1);
      MomentAt(setup, table, a, n - 1);
      NextAgrees(setup, table, a, b, n - 1);
      MomentAt(setup, table, b, n - 1);
      NextAgrees(setup, table, b, a, n - 1);
      OccasionedAlike(table, a[n - 1], b[n - 1]);
      SameMoment(setup, a[n - 1], b[n - 1]);
      assert a[..n] == a[..n - 1] + [a[n - 1]] && b[..n] == b[..n - 1] + [b[n - 1]];
    }
  }

  lemma {:induction false} HistoryUnfolds(setup: Setup, table: map<int, seq<Arrival>>, trace: seq<Moment>)
    requires setup.Valid() && IsHistory(setup, table, trace)
    ensures Unfolds(setup, table, trace)
  {
  }

  lemma {:induction false} OccasionedAlike(table: map<int, seq<Arrival>>, m: Moment, n: Moment)
    requires Occasioned(table, m) && Occasioned(table, n) && m.timestamp == n.timestamp
    ensures m.quotes == n.quotes
  {
  }

  /** After common moments the next one comes in neither history before the other's. */
  lemma {:induction false} NextAgrees(setup: Setup, table: map<int, seq<Arrival>>, a: seq<Moment>, b: seq<Moment>, i: nat)
    requires setup.Valid() && Unfolds(setup, table, a) && IsHistory(setup, table, b)
    requires i < |a| && i <= |b| && a[..i] == b[..i]
    ensures i < |b| && b[i].timestamp <= a[i].timestamp
  {
    hide Linked, Setup.Valid, Ticked, FinalBooks, FinalMarks, Happened, Unfolds;
    MomentAt(setup, table, a, i);
    forall k | 0 <= k < i ensures b[k].timestamp < a[i].timestamp { assert b[k] == b[..i][k] == a[..i][k]; }
    NotSkipped(setup, table, b, i, a[i].timestamp);
  }

  /** The history of a run is unique: its account, marks and times depend on the input alone. */
  lemma {:induction false} HistoryIsUnique(setup: Setup, table: map<int, seq<Arrival>>, a: seq<Moment>, b: seq<Moment>)
    requires setup.Valid() && IsHistory(setup, table, a) && IsHistory(setup, table, b)
    ensures a == b
  {
    hide *;
    SamePrefix(setup, table, a, b, |a|);
    SamePrefix(setup, table, b, a, |b|);
    assert a[..|a|] == a && b[..|b|] == b;
  }
}
