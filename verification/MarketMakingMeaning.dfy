/** What market making quotes, fills and pays, in terms of book events and rates. */
module MarketMakingMeaning {
  import opened MarketMaking
  import opened Outcomes
  import opened RealArithmetic

  // ---------------------------------------------------------------- quotes

  /** Quotes stand half a spread either side of the midpoint the latency ago, each withdrawn where
      it would cross the present book; before the latency there are none. */
  lemma {:induction false} QuotesLookBack(input: Input, i: nat)
    requires i < |input.events|
    ensures i < input.latency ==> Posted(input, i) == Quotes(0.0, 0.0) && !QuoteFails(input, i)
    ensures i >= input.latency ==>
      var source, now := input.events[i - input.latency], input.events[i];
      var bid, ask := (source.bid + source.ask - input.spread) / 2.0, (source.bid + source.ask + input.spread) / 2.0;
      && (QuoteFails(input, i) <==> bid <= 0.0)
      && Posted(input, i) == Quotes(if bid >= now.ask then 0.0 else bid, if ask <= now.bid then 0.0 else ask)
  {
  }

  // ---------------------------------------------------------------- fills

  /** What a bid may take of the traded and shown volume without breaking quote size or inventory limit. */
  ghost predicate BidFits(input: Input, inventory: real, e: Event, y: real) {
    y <= input.quoteSize && y <= input.limit - inventory && y <= e.sellVolume * input.fillRatio && y <= e.bidSize * input.fillRatio
  }

  ghost predicate AskFits(input: Input, inventory: real, e: Event, y: real) {
    y <= input.quoteSize && y <= input.limit + inventory && y <= e.buyVolume * input.fillRatio && y <= e.askSize * input.fillRatio
  }

  lemma {:induction false} FlowIsSmaller(volume: real, size: real, ratio: real)
    requires ratio >= 0.0
    ensures Flow(volume, size, ratio) <= volume * ratio && Flow(volume, size, ratio) <= size * ratio
    ensures Flow(volume, size, ratio) == volume * ratio || Flow(volume, size, ratio) == size * ratio
  {
    if volume <= size { Ordered(volume, size, ratio); } else { Ordered(size, volume, ratio); }
  }

  lemma {:induction false} Ordered(x: real, y: real, ratio: real)
    requires x <= y && ratio >= 0.0
    ensures x * ratio <= y * ratio
  {
    assert (y - x) * ratio >= 0.0;
  }

  /** A quote that reaches the book fills the largest quantity that fits; one that does not fills nothing. */
  lemma {:induction false} FillsAreLargest(input: Input, inventory: real, e: Event, q: Quotes, y: real)
    requires input.Valid() && e.Valid() && -input.limit <= inventory <= input.limit
    ensures var bid := WantedBid(input, inventory, e, q.bid);
      if q.bid > 0.0 && q.bid >= e.bid then bid >= 0.0 && BidFits(input, inventory, e, bid) && (BidFits(input, inventory, e, y) ==> y <= bid)
      else bid == 0.0
    ensures var ask := AskFill(input, inventory, e, q.ask);
      if 0.0 < q.ask <= e.ask then ask >= 0.0 && AskFits(input, inventory, e, ask) && (AskFits(input, inventory, e, y) ==> y <= ask)
      else ask == 0.0
  {
    hide Flow, Input.Valid, Event.Valid, BidFits, AskFits;
    LimitsOf(input, e);
    BidIsLargest(input, inventory, e, q.bid, y);
    AskIsLargest(input, inventory, e, q.ask, y);
  }

  lemma {:induction false} LimitsOf(input: Input, e: Event)
    requires input.Valid() && e.Valid()
    ensures input.fillRatio >= 0.0 && input.quoteSize > 0.0
    ensures e.sellVolume >= 0.0 && e.bidSize >= 0.0 && e.buyVolume >= 0.0 && e.askSize >= 0.0
  {
  }

  lemma {:induction false} LeastOf(size: real, room: real, traded: real, shown: real, flow: real, y: real)
    requires size >= 0.0 && room >= 0.0 && 0.0 <= flow <= traded && flow <= shown && (flow == traded || flow == shown)
    ensures var fill := Min(Min(size, Max(0.0, room)), flow);
      && 0.0 <= fill <= size && fill <= room && fill <= traded && fill <= shown
      && (y <= size && y <= room && y <= traded && y <= shown ==> y <= fill)
  {
  }

  lemma {:induction false} BidIsLargest(input: Input, inventory: real, e: Event, bid: real, y: real)
    requires input.fillRatio >= 0.0 && input.quoteSize > 0.0 && inventory <= input.limit && e.sellVolume >= 0.0 && e.bidSize >= 0.0
    ensures var fill := WantedBid(input, inventory, e, bid);
      if bid > 0.0 && bid >= e.bid then fill >= 0.0 && BidFits(input, inventory, e, fill) && (BidFits(input, inventory, e, y) ==> y <= fill)
      else fill == 0.0
  {
    hide Flow;
    FlowIsSmaller(e.sellVolume, e.bidSize, input.fillRatio);
    FlowIsNonNegative(e.sellVolume, e.bidSize, input.fillRatio);
    LeastOf(input.quoteSize, input.limit - inventory, e.sellVolume * input.fillRatio, e.bidSize * input.fillRatio,
            Flow(e.sellVolume, e.bidSize, input.fillRatio), y);
  }

  lemma {:induction false} AskIsLargest(input: Input, inventory: real, e: Event, ask: real, y: real)
    requires input.fillRatio >= 0.0 && input.quoteSize > 0.0 && -input.limit <= inventory && e.buyVolume >= 0.0 && e.askSize >= 0.0
    ensures var fill := AskFill(input, inventory, e, ask);
      if 0.0 < ask <= e.ask then fill >= 0.0 && AskFits(input, inventory, e, fill) && (AskFits(input, inventory, e, y) ==> y <= fill)
      else fill == 0.0
  {
    hide Flow;
    FlowIsSmaller(e.buyVolume, e.askSize, input.fillRatio);
    FlowIsNonNegative(e.buyVolume, e.askSize, input.fillRatio);
    LeastOf(input.quoteSize, input.limit + inventory, e.buyVolume * input.fillRatio, e.askSize * input.fillRatio,
            Flow(e.buyVolume, e.askSize, input.fillRatio), y);
  }

  /** A turnover the budget covers together with its linear and quadratic costs. */
  ghost predicate Covers(rates: Rates, turnover: real, budget: real) {
    turnover * (1.0 + rates.commission + rates.slippage + rates.adverse) + turnover * turnover * rates.impact <= budget
  }

  /** Without permission to overdraw, a bid is cut to what cash and the ask's proceeds cover, and
      with an exact root no larger bid is covered. */
  lemma {:induction false} BidIsLargestCovered(input: Input, root: real -> real, a: Account, i: nat, asked: real, fill: real, y: real)
    requires Ready(input, root, a) && i < |input.events| && y >= 0.0
    requires asked == AskFill(input, a.inventory, input.events[i], Posted(input, i).ask) * Posted(input, i).ask
    requires fill == BidFill(input, root, a, i)
    requires root(Discriminant(input.rates, a.cash + asked)) * root(Discriminant(input.rates, a.cash + asked))
             == Discriminant(input.rates, a.cash + asked)
    ensures var bid := Posted(input, i).bid;
      var wanted := WantedBid(input, a.inventory, input.events[i], bid);
      if input.allowNegativeCash || wanted == 0.0 then fill == wanted
      else
        && fill <= wanted && (fill > 0.0 ==> Covers(input.rates, Turnover(asked, fill, bid), a.cash + asked))
        && (y <= wanted && Covers(input.rates, Turnover(asked, y, bid), a.cash + asked) ==> y <= fill)
  {
    hide WantedBid, AskFill, Posted, AffordableTurnover, Discriminant, Covers, Admissible, Input.Valid, BidCapacity, Turnover;
    var q, e := Posted(input, i), input.events[i];
    ReadyParts(input, root, a, i);
    FillsFit(input, a, e, q);
    if WantedBid(input, a.inventory, e, q.bid) > 0.0 && !input.allowNegativeCash {
      assert asked == Value(AskFill(input, a.inventory, e, q.ask), q.ask);
      AskTurnoverIsNonNegative(input, root, a, i);
      WantedIsQuoted(input, a, i);
      CutIsLargest(root, input.rates, a.cash, q.bid, asked, WantedBid(input, a.inventory, e, q.bid), y);
    }
  }

  /** The turnover of an event: the ask's proceeds and what the bid takes. */
  function Turnover(proceeds: real, quantity: real, bid: real): real { proceeds + quantity * bid }

  lemma {:induction false} CutIsLargest(root: real -> real, rates: Rates, cash: real, bid: real, proceeds: real, wanted: real, y: real)
    requires rates.Valid() && cash >= 0.0 && proceeds >= 0.0 && Admissible(root, rates) && bid > 0.0 && y >= 0.0 && wanted > 0.0
    requires root(Discriminant(rates, cash + proceeds)) * root(Discriminant(rates, cash + proceeds)) == Discriminant(rates, cash + proceeds)
    ensures var fill := Min(wanted, BidCapacity(root, rates, cash, bid, proceeds));
      && (fill > 0.0 ==> Covers(rates, Turnover(proceeds, fill, bid), cash + proceeds))
      && (y <= wanted && Covers(rates, Turnover(proceeds, y, bid), cash + proceeds) ==> y <= fill)
  {
    hide AffordableTurnover, Burden, Admissible, Discriminant, BidCapacity, Covers, Turnover;
    var capacity := BidCapacity(root, rates, cash, bid, proceeds);
    var fill := Min(wanted, capacity);
    CapacitySign(root, rates, cash, bid, proceeds);
    if capacity > 0.0 { CapacityCovered(root, rates, cash, bid, proceeds, capacity); }
    CapacityIsLargest(root, rates, cash, bid, proceeds, y);
    SmallerIsCovered(rates, proceeds, bid, fill, capacity);
    BurdenIs(rates, Turnover(proceeds, y, bid), cash + proceeds);
    BurdenIs(rates, Turnover(proceeds, fill, bid), cash + proceeds);
  }

  lemma {:induction false} CapacityCovered(root: real -> real, rates: Rates, cash: real, bid: real, proceeds: real, capacity: real)
    requires rates.Valid() && cash + proceeds >= 0.0 && Admissible(root, rates) && bid > 0.0
    requires capacity == BidCapacity(root, rates, cash, bid, proceeds) > 0.0
    ensures Burden(rates, Turnover(proceeds, capacity, bid)) <= cash + proceeds
  {
    hide AffordableTurnover, Burden, Admissible, BidCapacity;
    CapacityPays(root, rates, cash, bid, proceeds);
  }

  lemma {:induction false} ReadyParts(input: Input, root: real -> real, a: Account, i: nat)
    requires Ready(input, root, a) && i < |input.events|
    ensures input.Valid() && input.events[i].Valid() && input.rates.Valid() && Admissible(root, input.rates)
    ensures -input.limit <= a.inventory <= input.limit && (input.allowNegativeCash || a.cash >= 0.0)
  {
  }

  lemma {:induction false} BurdenIs(rates: Rates, turnover: real, budget: real)
    ensures Covers(rates, turnover, budget) <==> Burden(rates, turnover) <= budget
  {
  }

  lemma {:induction false} SmallerIsCovered(rates: Rates, proceeds: real, bid: real, fill: real, capacity: real)
    requires rates.Valid() && proceeds >= 0.0 && bid > 0.0 && 0.0 <= fill <= capacity
    ensures Burden(rates, Turnover(proceeds, fill, bid)) <= Burden(rates, Turnover(proceeds, capacity, bid))
  {
    hide Burden;
    assert (capacity - fill) * bid >= 0.0;
    assert fill * bid >= 0.0;
    BurdenGrows(rates, Turnover(proceeds, fill, bid), Turnover(proceeds, capacity, bid));
  }

  lemma {:induction false} CapacityIsLargest(root: real -> real, rates: Rates, cash: real, bidQuote: real, proceeds: real, y: real)
    requires rates.Valid() && cash + proceeds >= 0.0 && Admissible(root, rates) && bidQuote > 0.0 && y >= 0.0 && proceeds >= 0.0
    requires root(Discriminant(rates, cash + proceeds)) * root(Discriminant(rates, cash + proceeds)) == Discriminant(rates, cash + proceeds)
    ensures Burden(rates, Turnover(proceeds, y, bidQuote)) <= cash + proceeds ==> y <= BidCapacity(root, rates, cash, bidQuote, proceeds)
  {
    hide AffordableTurnover, Burden, Admissible, Discriminant, BidCapacity;
    var capacity := BidCapacity(root, rates, cash, bidQuote, proceeds);
    assert y * bidQuote >= 0.0;
    ExactRootIsOptimal(root, rates, cash + proceeds, Turnover(proceeds, y, bidQuote));
    CapacitySign(root, rates, cash, bidQuote, proceeds);
    Cancels(y, capacity, bidQuote);
  }

  lemma {:induction false} Cancels(x: real, y: real, factor: real)
    requires factor > 0.0
    ensures x * factor <= y * factor <==> x <= y
  {
  }

  // ---------------------------------------------------------------- costs and totals

  /** What one event trades, costs and leaves, each cost at its own rate. */
  lemma {:induction false} TradeByNumbers(input: Input, root: real -> real, a: Account, i: nat)
    requires Ready(input, root, a) && i < |input.events|
    ensures var f, e := Traded(input, root, a, i), input.events[i];
      && f.quotes == Posted(input, i) && f.bidFill == BidFill(input, root, a, i)
      && f.askFill == AskFill(input, a.inventory, e, f.quotes.ask)
      && f.turnover == f.bidFill * f.quotes.bid + f.askFill * f.quotes.ask
      && f.commission == f.turnover * input.rates.commission && f.slippage == f.turnover * input.rates.slippage
      && f.impact == f.turnover * f.turnover * input.rates.impact && f.adverse == f.turnover * input.rates.adverse
      && f.after.cash == a.cash - f.bidFill * f.quotes.bid + f.askFill * f.quotes.ask - f.commission - f.slippage - f.impact - f.adverse
      && f.after.inventory == a.inventory + f.bidFill - f.askFill
      && f.equity == f.after.cash + f.after.inventory * ((e.bid + e.ask) / 2.0)
  {
    hide BidFill, AskFill, Posted, Ready;
  }

  /** An event stops the run exactly when its bid is not positive, else when cash turns negative against the policy,
      else when the account is not worth a positive amount at the event's midpoint; otherwise it is recorded. */
  lemma {:induction false} StopsExactly(input: Input, root: real -> real, a: Account, i: nat)
    requires Ready(input, root, a) && i < |input.events|
    ensures var r, f, e := Happened(input, root, a, i), Traded(input, root, a, i), input.events[i];
      var quoteFails := i >= input.latency
                        && (input.events[i - input.latency].bid + input.events[i - input.latency].ask - input.spread) / 2.0 <= 0.0;
      var overdrawn := !input.allowNegativeCash && f.after.cash < 0.0;
      var worthless := f.after.cash + f.after.inventory * ((e.bid + e.ask) / 2.0) <= 0.0;
      r == if quoteFails then Err(QuoteNotPositive) else if overdrawn then Err(CashNegative) else if worthless then Err(EquityNotPositive) else Ok(f)
  {
    hide Ready, BidFill, AskFill, Posted, Traded;
    QuotesLookBack(input, i);
    InventoryStaysInside(input, root, a, i);
    TradeByNumbers(input, root, a, i);
  }

  /** The reported totals add up the fills field by field. */
  lemma {:induction false} TotalsByField(fills: seq<Fill>)
    ensures var t := TotalsOf(fills);
      && t.turnover == SumOf(fills, (f: Fill) => f.turnover) && t.bidFill == SumOf(fills, (f: Fill) => f.bidFill)
      && t.askFill == SumOf(fills, (f: Fill) => f.askFill) && t.commission == SumOf(fills, (f: Fill) => f.commission)
      && t.slippage == SumOf(fills, (f: Fill) => f.slippage) && t.impact == SumOf(fills, (f: Fill) => f.impact)
      && t.adverse == SumOf(fills, (f: Fill) => f.adverse)
  {
    if fills != [] { TotalsByField(fills[..|fills| - 1]); }
  }

  function SumOf(fills: seq<Fill>, field: Fill -> real): real {
    if fills == [] then 0.0 else SumOf(fills[..|fills| - 1], field) + field(fills[|fills| - 1])
  }

  // ---------------------------------------------------------------- no look-ahead

  /** Runs on inputs that agree on their first events agree on those events' fills: nothing
      an event trades depends on a later one. */
  lemma {:induction false} NoLookAhead(a: Input, b: Input, root: real -> real, fills: seq<Fill>, others: seq<Fill>, n: nat)
    requires n <= |a.events| && n <= |b.events| && a.events[..n] == b.events[..n] && b == a.(events := b.events)
    requires IsRun(a, root, fills) && IsRun(b, root, others) && |fills| == |others| <= n
    ensures fills == others
  {
    hide IsRun, Happened;
    if fills != [] {
      var m := |fills| - 1;
      RunFront(a, root, fills);
      RunFront(b, root, others);
      NoLookAhead(a, b, root, fills[..m], others[..m], n);
      SameHappening(a, b, root, AccountAfter(a, fills[..m]), m, n);
      assert fills == fills[..m] + [fills[m]] && others == others[..m] + [others[m]];
    }
  }

  lemma {:induction false} SameHappening(a: Input, b: Input, root: real -> real, account: Account, i: nat, n: nat)
    requires i < n <= |a.events| && n <= |b.events| && a.events[..n] == b.events[..n] && b == a.(events := b.events)
    requires Ready(a, root, account) && Ready(b, root, account)
    ensures Happened(a, root, account, i) == Happened(b, root, account, i)
  {
    hide Input.Valid, Admissible, AffordableTurnover;
    assert forall k :: 0 <= k < n ==> a.events[k] == a.events[..n][k] == b.events[..n][k] == b.events[k];
    assert Posted(a, i) == Posted(b, i) && QuoteFails(a, i) == QuoteFails(b, i);
    assert BidFill(a, root, account, i) == BidFill(b, root, account, i);
    assert Traded(a, root, account, i) == Traded(b, root, account, i);
  }
}
