/** The market-making engine: delayed symmetric quotes, capped fills and the cash-constrained bid. */
module MarketMaking {
  import opened EquityPaths
  import opened Outcomes
  import opened RealArithmetic

  datatype Event = Event(timestamp: int, bid: real, ask: real, bidSize: real, askSize: real, buyVolume: real, sellVolume: real) {
    predicate Valid() { 0.0 < bid < ask && bidSize >= 0.0 && askSize >= 0.0 && buyVolume >= 0.0 && sellVolume >= 0.0 }

    function Midpoint(): real { (bid + ask) / 2.0 }
  }

  datatype Rates = Rates(commission: real, slippage: real, impact: real, adverse: real) {
    predicate Valid() { commission >= 0.0 && slippage >= 0.0 && impact >= 0.0 && adverse >= 0.0 }

    /** What a unit of turnover costs, the turnover itself included. */
    function Linear(): real { 1.0 + commission + slippage + adverse }
  }

  datatype Input = Input(
    events: seq<Event>, latency: nat, fillRatio: real, spread: real, limit: real, allowNegativeCash: bool,
    quoteSize: real, cash: real, inventory: real, rates: Rates)
  {
    /** What the input validation accepts. */
    ghost predicate Valid() {
      && events != [] && (forall e :: e in events ==> e.Valid()) && latency >= 1 && 0.0 <= fillRatio <= 1.0 && spread > 0.0
      && limit > 0.0 && rates.Valid() && quoteSize > 0.0 && cash >= 0.0 && -limit <= inventory <= limit
      && cash + Value(inventory, events[0].Midpoint()) > 0.0
    }
  }

  // ---------------------------------------------------------------- affordable turnover

  /** What a turnover takes from the budget: itself, its linear costs and its quadratic impact. */
  function Burden(rates: Rates, turnover: real): real { turnover * rates.Linear() + turnover * turnover * rates.impact }

  /** The burden per unit of a turnover: linear multiplier plus impact. */
  function Weight(rates: Rates, turnover: real): real { rates.Linear() + turnover * rates.impact }

  /** The costs of a turnover without the turnover itself. */
  function Costs(rates: Rates, turnover: real): real { Burden(rates, turnover) - turnover }

  function Discriminant(rates: Rates, budget: real): real { rates.Linear() * rates.Linear() + 4.0 * rates.impact * budget }

  /** A square-root estimate is admissible when it does not fall below the root of the perfect square it starts from. */
  ghost predicate Admissible(root: real -> real, rates: Rates) {
    forall d: real :: d >= rates.Linear() * rates.Linear() ==> root(d) >= rates.Linear()
  }

  function FirstTurnover(root: real -> real, rates: Rates, budget: real): real
    requires rates.Valid() && rates.impact > 0.0
  {
    (root(Discriminant(rates, budget)) - rates.Linear()) / (2.0 * rates.impact)
  }

  lemma {:induction false} FirstTurnoverIsNonNegative(root: real -> real, rates: Rates, budget: real)
    requires rates.Valid() && rates.impact > 0.0 && budget >= 0.0 && Admissible(root, rates)
    ensures FirstTurnover(root, rates, budget) >= 0.0
  {
    assert rates.impact * budget >= 0.0;
    assert Discriminant(rates, budget) >= rates.Linear() * rates.Linear();
    QuotientSign(root(Discriminant(rates, budget)) - rates.Linear(), 2.0 * rates.impact);
  }

  lemma {:induction false} QuotientSign(x: real, y: real)
    requires y > 0.0
    ensures x >= 0.0 ==> x / y >= 0.0
    ensures x > 0.0 ==> x / y > 0.0
  {
  }

  /** The affordable total turnover, with the source's corrective division. */
  function AffordableTurnover(root: real -> real, rates: Rates, budget: real): real
    requires rates.Valid() && budget >= 0.0 && Admissible(root, rates)
  {
    if rates.impact == 0.0 then budget / rates.Linear()
    else
      var first := FirstTurnover(root, rates, budget);
      assert first >= 0.0 by { FirstTurnoverIsNonNegative(root, rates, budget); }
      if Burden(rates, first) > budget then
        assert Weight(rates, first) > 0.0 by { ImpactAdds(rates, first); }
        budget / Weight(rates, first)
      else first
  }

  lemma {:induction false} ImpactAdds(rates: Rates, turnover: real)
    requires rates.Valid() && turnover >= 0.0
    ensures Weight(rates, turnover) >= 1.0
  {
  }

  lemma {:induction false} Factored(rates: Rates, turnover: real)
    ensures Burden(rates, turnover) == turnover * Weight(rates, turnover)
  {
  }

  lemma {:induction false} BurdenGrows(rates: Rates, x: real, y: real)
    requires rates.Valid() && 0.0 <= x <= y
    ensures Burden(rates, x) <= Burden(rates, y) && (x < y ==> Burden(rates, x) < Burden(rates, y))
  {
    var a, b := Weight(rates, x), Weight(rates, y);
    ImpactAdds(rates, x);
    Factored(rates, x);
    Factored(rates, y);
    assert (y - x) * rates.impact >= 0.0;
    Products(x, y, a, b);
  }

  lemma {:induction false} Products(x: real, y: real, a: real, b: real)
    requires 0.0 <= x <= y && 1.0 <= a <= b
    ensures x * a <= y * b && (x < y ==> x * a < y * b)
  {
    assert x * a + (y - x) * (a - 1.0) + (y - x) == y * a;
    NonNegativeProduct(y - x, a - 1.0);
    assert y * a + y * (b - a) == y * b;
    NonNegativeProduct(y, b - a);
  }

  lemma {:induction false} NonNegativeProduct(x: real, y: real)
    requires x >= 0.0 && y >= 0.0
    ensures x * y >= 0.0
  {
  }

  lemma {:induction false} NoImpact(rates: Rates, budget: real)
    requires rates.Valid() && rates.impact == 0.0 && budget >= 0.0
    ensures budget / rates.Linear() >= 0.0 && Burden(rates, budget / rates.Linear()) == budget
  {
    var linear := rates.Linear();
    var t := budget / linear;
    QuotientSign(budget, linear);
    assert t * linear == budget;
    Factored(rates, t);
  }

  /** Whatever the root estimate, the turnover returned is affordable: the correction repairs an estimate that is too high. */
  lemma {:induction false} TurnoverIsAffordable(root: real -> real, rates: Rates, budget: real)
    requires rates.Valid() && budget >= 0.0 && Admissible(root, rates)
    ensures var t := AffordableTurnover(root, rates, budget);
      t >= 0.0 && Burden(rates, t) <= budget
  {
    hide Burden, FirstTurnover, Weight;
    if rates.impact == 0.0 {
      NoImpact(rates, budget);
    } else {
      FirstTurnoverIsNonNegative(root, rates, budget);
      var first := FirstTurnover(root, rates, budget);
      if Burden(rates, first) > budget {
        Correction(rates, first, budget);
      }
    }
  }

  lemma {:induction false} Correction(rates: Rates, first: real, budget: real)
    requires rates.Valid() && first >= 0.0 && budget >= 0.0 && Burden(rates, first) > budget
    ensures Weight(rates, first) > 0.0
    ensures var t := budget / Weight(rates, first); t >= 0.0 && Burden(rates, t) <= budget
  {
    hide Burden, Weight;
    var divisor := Weight(rates, first);
    ImpactAdds(rates, first);
    var t := budget / divisor;
    QuotientSign(budget, divisor);
    assert t * divisor == budget;
    Factored(rates, first);
    Corrected(rates, first, t);
  }

  lemma {:induction false} Corrected(rates: Rates, first: real, t: real)
    requires rates.Valid() && first >= 0.0 && t >= 0.0 && first * Weight(rates, first) > t * Weight(rates, first)
    ensures Burden(rates, t) <= t * Weight(rates, first)
  {
    var heavy, light := Weight(rates, first), Weight(rates, t);
    ImpactAdds(rates, first);
    assert (first - t) * heavy > 0.0;
    assert first > t;
    Factored(rates, t);
    assert heavy - light == (first - t) * rates.impact >= 0.0;
    assert t * (heavy - light) >= 0.0;
  }

  /** With the exact root the whole budget is used, so no larger turnover is affordable. */
  lemma {:induction false} ExactRootIsOptimal(root: real -> real, rates: Rates, budget: real, other: real)
    requires rates.Valid() && budget >= 0.0 && Admissible(root, rates)
    requires var d := Discriminant(rates, budget); root(d) * root(d) == d
    ensures Burden(rates, AffordableTurnover(root, rates, budget)) == budget
    ensures other >= 0.0 && Burden(rates, other) <= budget ==> other <= AffordableTurnover(root, rates, budget)
  {
    var t := AffordableTurnover(root, rates, budget);
    TurnoverIsAffordable(root, rates, budget);
    if rates.impact == 0.0 {
      NoImpact(rates, budget);
    } else {
      QuadraticRoot(rates.Linear(), rates.impact, budget, root(Discriminant(rates, budget)));
    }
    hide AffordableTurnover;
    if t < other {
      BurdenGrows(rates, t, other);
    }
  }

  lemma {:induction false} QuadraticRoot(linear: real, impact: real, budget: real, root: real)
    requires impact > 0.0 && root * root == linear * linear + 4.0 * impact * budget
    ensures var t := (root - linear) / (2.0 * impact); t * linear + t * t * impact == budget
  {
    var t := (root - linear) / (2.0 * impact);
    assert 2.0 * impact * t == root - linear;
    var u := impact * t;
    assert 2.0 * u == root - linear;
    assert (2.0 * u + linear) * (2.0 * u + linear) == root * root;
    assert 4.0 * u * u + 4.0 * u * linear == 4.0 * impact * budget;
    assert u * u + u * linear == impact * budget;
    assert impact * (t * linear + t * t * impact) == impact * budget by {
      assert impact * (t * linear + t * t * impact) == u * linear + u * u;
    }
    SameProduct(impact, t * linear + t * t * impact, budget);
  }

  lemma {:induction false} SameProduct(factor: real, a: real, b: real)
    requires factor > 0.0 && factor * a == factor * b
    ensures a == b
  {
    assert factor * (a - b) == 0.0;
  }

  // ---------------------------------------------------------------- quotes and fills

  datatype Quotes = Quotes(bid: real, ask: real)

  datatype Account = Account(cash: real, inventory: real)

  datatype Error = QuoteNotPositive | InventoryExceeded | CashNegative | EquityNotPositive

  function Reference(input: Input, i: nat): real
    requires input.latency <= i < |input.events|
  {
    input.events[i - input.latency].Midpoint()
  }

  predicate QuoteFails(input: Input, i: nat)
    requires i < |input.events|
  {
    i >= input.latency && Reference(input, i) - input.spread / 2.0 <= 0.0
  }

  /** The delayed quotes still standing at an event; zero stands for none, as a crossing quote is cancelled. */
  function Posted(input: Input, i: nat): Quotes
    requires i < |input.events|
  {
    if i < input.latency then Quotes(0.0, 0.0)
    else
      var bid, ask := Reference(input, i) - input.spread / 2.0, Reference(input, i) + input.spread / 2.0;
      Quotes(if bid >= input.events[i].ask then 0.0 else bid, if ask <= input.events[i].bid then 0.0 else ask)
  }

  function Flow(volume: real, size: real, ratio: real): real { Min(volume, size) * ratio }

  function AskFill(input: Input, inventory: real, e: Event, ask: real): real {
    if 0.0 < ask <= e.ask then
      Min(Min(input.quoteSize, Max(0.0, input.limit + inventory)), Flow(e.buyVolume, e.askSize, input.fillRatio))
    else 0.0
  }

  function WantedBid(input: Input, inventory: real, e: Event, bid: real): real {
    if bid > 0.0 && bid >= e.bid then
      Min(Min(input.quoteSize, Max(0.0, input.limit - inventory)), Flow(e.sellVolume, e.bidSize, input.fillRatio))
    else 0.0
  }

  lemma {:induction false} FlowIsNonNegative(volume: real, size: real, ratio: real)
    requires volume >= 0.0 && size >= 0.0 && ratio >= 0.0
    ensures Flow(volume, size, ratio) >= 0.0
  {
  }

  /** Fills take from the room the inventory limit leaves, the quote size and the observed flow. */
  lemma {:induction false} FillsFit(input: Input, a: Account, e: Event, q: Quotes)
    requires input.Valid() && e.Valid() && -input.limit <= a.inventory <= input.limit
    ensures 0.0 <= AskFill(input, a.inventory, e, q.ask) <= Min(input.quoteSize, input.limit + a.inventory)
    ensures 0.0 <= WantedBid(input, a.inventory, e, q.bid) <= Min(input.quoteSize, input.limit - a.inventory)
    ensures AskFill(input, a.inventory, e, q.ask) > 0.0 ==> 0.0 < q.ask <= e.ask
    ensures WantedBid(input, a.inventory, e, q.bid) > 0.0 ==> q.bid > 0.0 && q.bid >= e.bid
  {
    hide Flow;
    FlowIsNonNegative(e.buyVolume, e.askSize, input.fillRatio);
    FlowIsNonNegative(e.sellVolume, e.bidSize, input.fillRatio);
  }

  lemma {:induction false} ValueSign(quantity: real, price: real)
    requires quantity >= 0.0 && price >= 0.0
    ensures Value(quantity, price) >= 0.0
  {
  }

  /** The bid quantity that fits the cash, after the same event's ask proceeds and all costs. */
  function BidCapacity(root: real -> real, rates: Rates, cash: real, bidQuote: real, askTurnover: real): real
    requires rates.Valid() && cash + askTurnover >= 0.0 && Admissible(root, rates) && bidQuote > 0.0
  {
    Max(0.0, AffordableTurnover(root, rates, cash + askTurnover) - askTurnover) / bidQuote
  }

  ghost predicate Ready(input: Input, root: real -> real, a: Account) {
    && input.Valid() && Admissible(root, input.rates) && -input.limit <= a.inventory <= input.limit
    && (input.allowNegativeCash || a.cash >= 0.0)
  }

  lemma {:induction false} AskTurnoverIsNonNegative(input: Input, root: real -> real, a: Account, i: nat)
    requires Ready(input, root, a) && i < |input.events|
    ensures var q := Posted(input, i); Value(AskFill(input, a.inventory, input.events[i], q.ask), q.ask) >= 0.0
  {
    hide AskFill, Posted, Value, Admissible;
    assert input.events[i] in input.events;
    var q := Posted(input, i);
    FillsFit(input, a, input.events[i], q);
    var fill := AskFill(input, a.inventory, input.events[i], q.ask);
    if fill > 0.0 { ValueSign(fill, q.ask); } else { NoValue(q.ask); }
  }

  lemma {:induction false} NoValue(price: real)
    ensures Value(0.0, price) == 0.0
  {
  }

  function BidFill(input: Input, root: real -> real, a: Account, i: nat): real
    requires Ready(input, root, a) && i < |input.events|
  {
    var e, q := input.events[i], Posted(input, i);
    var wanted, askTurnover := WantedBid(input, a.inventory, e, q.bid), Value(AskFill(input, a.inventory, e, q.ask), q.ask);
    if wanted > 0.0 && !input.allowNegativeCash then
      AskTurnoverIsNonNegative(input, root, a, i);
      Min(wanted, BidCapacity(root, input.rates, a.cash, q.bid, askTurnover))
    else wanted
  }

  // ---------------------------------------------------------------- one event

  datatype Fill = Fill(
    quotes: Quotes, bidFill: real, askFill: real, turnover: real,
    commission: real, slippage: real, impact: real, adverse: real, after: Account, equity: real)

  function CostOf(f: Fill): real { f.commission + f.slippage + f.impact + f.adverse }

  function Traded(input: Input, root: real -> real, a: Account, i: nat): Fill
    requires Ready(input, root, a) && i < |input.events|
  {
    var e, q := input.events[i], Posted(input, i);
    var bidFill, askFill := BidFill(input, root, a, i), AskFill(input, a.inventory, e, q.ask);
    var turnover := Value(bidFill, q.bid) + Value(askFill, q.ask);
    var commission, slippage := Value(turnover, input.rates.commission), Value(turnover, input.rates.slippage);
    var impact, adverse := Value(Value(turnover, turnover), input.rates.impact), Value(turnover, input.rates.adverse);
    var cash := a.cash - Value(bidFill, q.bid) + Value(askFill, q.ask) - (commission + slippage + impact + adverse);
    var inventory := a.inventory + bidFill - askFill;
    Fill(q, bidFill, askFill, turnover, commission, slippage, impact, adverse, Account(cash, inventory), cash + Value(inventory, e.Midpoint()))
  }

  /** An event's record, or the first check it fails. */
  function Happened(input: Input, root: real -> real, a: Account, i: nat): Result<Fill, Error>
    requires Ready(input, root, a) && i < |input.events|
  {
    var f := Traded(input, root, a, i);
    if QuoteFails(input, i) then Err(QuoteNotPositive)
    else if f.after.inventory > input.limit || -f.after.inventory > input.limit then Err(InventoryExceeded)
    else if !input.allowNegativeCash && f.after.cash < 0.0 then Err(CashNegative)
    else if f.equity <= 0.0 then Err(EquityNotPositive)
    else Ok(f)
  }

  lemma {:induction false} CostsAre(input: Input, root: real -> real, a: Account, i: nat)
    requires Ready(input, root, a) && i < |input.events|
    ensures CostOf(Traded(input, root, a, i)) == Costs(input.rates, Traded(input, root, a, i).turnover)
  {
    hide Ready, BidFill, AskFill, Posted, Value, Burden, Rates.Linear;
    var t, r := Traded(input, root, a, i).turnover, input.rates;
    LinearSplits(r, t);
  }

  lemma {:induction false} LinearSplits(rates: Rates, t: real)
    ensures Burden(rates, t) == t + Value(t, rates.commission) + Value(t, rates.slippage) + Value(Value(t, t), rates.impact) + Value(t, rates.adverse)
  {
  }

  /** The inventory check cannot fail: the room was kept when the fills were sized. */
  lemma {:induction false} InventoryStaysInside(input: Input, root: real -> real, a: Account, i: nat)
    requires Ready(input, root, a) && i < |input.events|
    ensures var f := Traded(input, root, a, i);
      && -input.limit <= f.after.inventory <= input.limit && 0.0 <= f.bidFill <= input.quoteSize && 0.0 <= f.askFill <= input.quoteSize
      && f.bidFill <= WantedBid(input, a.inventory, input.events[i], Posted(input, i).bid)
    ensures Happened(input, root, a, i) != Err(InventoryExceeded)
  {
    hide Value, AskFill, WantedBid, Posted, AffordableTurnover;
    var e, q := input.events[i], Posted(input, i);
    assert e in input.events;
    FillsFit(input, a, e, q);
    AskTurnoverIsNonNegative(input, root, a, i);
    var wanted := WantedBid(input, a.inventory, e, q.bid);
    if wanted > 0.0 && !input.allowNegativeCash {
      CapacitySign(root, input.rates, a.cash, q.bid, Value(AskFill(input, a.inventory, e, q.ask), q.ask));
    }
  }

  lemma {:induction false} CapacitySign(root: real -> real, rates: Rates, cash: real, bidQuote: real, askTurnover: real)
    requires rates.Valid() && cash + askTurnover >= 0.0 && Admissible(root, rates) && bidQuote > 0.0
    ensures var capacity := BidCapacity(root, rates, cash, bidQuote, askTurnover);
      && capacity >= 0.0 && Value(capacity, bidQuote) == Max(0.0, AffordableTurnover(root, rates, cash + askTurnover) - askTurnover)
      && (capacity > 0.0 ==> AffordableTurnover(root, rates, cash + askTurnover) > askTurnover)
  {
    hide AffordableTurnover;
    var room := Max(0.0, AffordableTurnover(root, rates, cash + askTurnover) - askTurnover);
    QuotientSign(room, bidQuote);
    assert room / bidQuote * bidQuote == room;
  }

  lemma {:induction false} ValueGrows(low: real, high: real, price: real)
    requires low <= high && price >= 0.0
    ensures Value(low, price) <= Value(high, price)
  {
    assert (high - low) * price >= 0.0;
  }

  /** A bid that survives the cash cap leaves at least the ask proceeds in cash. */
  lemma {:induction false} SurvivingBidIsPaid(input: Input, root: real -> real, a: Account, i: nat)
    requires Ready(input, root, a) && i < |input.events| && !input.allowNegativeCash
    ensures var f := Traded(input, root, a, i);
      f.bidFill > 0.0 ==> f.after.cash >= Value(f.askFill, f.quotes.ask) >= 0.0 && Burden(input.rates, f.turnover) <= a.cash + Value(f.askFill, f.quotes.ask)
  {
    hide Value, AskFill, WantedBid, Posted, AffordableTurnover, Burden, BidCapacity, Costs;
    var e, q := input.events[i], Posted(input, i);
    assert e in input.events;
    FillsFit(input, a, e, q);
    AskTurnoverIsNonNegative(input, root, a, i);
    CostsAre(input, root, a, i);
    var f := Traded(input, root, a, i);
    if f.bidFill > 0.0 {
      var asked := Value(f.askFill, q.ask);
      var capacity := BidCapacity(root, input.rates, a.cash, q.bid, asked);
      CapacitySign(root, input.rates, a.cash, q.bid, asked);
      ValueGrows(f.bidFill, capacity, q.bid);
      ValueGrows(0.0, f.bidFill, q.bid);
      NoValue(q.bid);
      TurnoverIsAffordable(root, input.rates, a.cash + asked);
      BurdenGrows(input.rates, f.turnover, AffordableTurnover(root, input.rates, a.cash + asked));
      CostsSplit(input.rates, f.turnover);
    }
  }

  lemma {:induction false} CostsSplit(rates: Rates, turnover: real)
    ensures Costs(rates, turnover) == Burden(rates, turnover) - turnover
  {
  }

  /** Cash turns negative exactly when the ask's own costs exceed cash and ask proceeds; the bid never causes it. */
  lemma {:induction false} CashNegativeExactly(input: Input, root: real -> real, a: Account, i: nat)
    requires Ready(input, root, a) && i < |input.events| && !input.allowNegativeCash
    ensures var f := Traded(input, root, a, i);
      var asked := Value(f.askFill, f.quotes.ask);
      f.after.cash < 0.0 <==> a.cash + asked < Costs(input.rates, asked)
  {
    hide Value, AskFill, WantedBid, Posted, AffordableTurnover, Burden, BidFill, Costs;
    InventoryStaysInside(input, root, a, i);
    SurvivingBidIsPaid(input, root, a, i);
    CostsAre(input, root, a, i);
    AskTurnoverIsNonNegative(input, root, a, i);
    var f := Traded(input, root, a, i);
    var asked := Value(f.askFill, f.quotes.ask);
    CostsSplit(input.rates, asked);
    if f.bidFill > 0.0 {
      WantedIsQuoted(input, a, i);
      ValueGrows(0.0, f.bidFill, f.quotes.bid);
      NoValue(f.quotes.bid);
      BurdenGrows(input.rates, asked, f.turnover);
    } else {
      NoValue(f.quotes.bid);
    }
  }

  lemma {:induction false} WantedIsQuoted(input: Input, a: Account, i: nat)
    requires input.Valid() && i < |input.events| && -input.limit <= a.inventory <= input.limit
    ensures WantedBid(input, a.inventory, input.events[i], Posted(input, i).bid) > 0.0 ==> Posted(input, i).bid > 0.0
  {
  }

  /** A filled quote lies inside the current book and the two sides are the spread apart. */
  lemma {:induction false} FillsInsideTheBook(input: Input, root: real -> real, a: Account, i: nat)
    requires Ready(input, root, a) && i < |input.events| && !QuoteFails(input, i)
    ensures var f, e := Traded(input, root, a, i), input.events[i];
      && (f.bidFill > 0.0 ==> e.bid <= f.quotes.bid < e.ask && i >= input.latency)
      && (f.askFill > 0.0 ==> e.bid < f.quotes.ask <= e.ask && i >= input.latency)
      && (f.bidFill > 0.0 && f.askFill > 0.0 ==> f.quotes.ask - f.quotes.bid == input.spread)
  {
    hide Value, Flow, AffordableTurnover, BidFill, Admissible;
    assert input.events[i] in input.events;
    InventoryStaysInside(input, root, a, i);
    FillsFit(input, a, input.events[i], Posted(input, i));
  }

  // ---------------------------------------------------------------- the run

  function Opening(input: Input): Account { Account(input.cash, input.inventory) }

  function AccountAfter(input: Input, fills: seq<Fill>): Account {
    if fills == [] then Opening(input) else fills[|fills| - 1].after
  }

  function OpeningEquity(input: Input): real
    requires input.events != []
  {
    input.cash + Value(input.inventory, input.events[0].Midpoint())
  }

  /** The records of a run: each event happened to the account the events before it left. */
  ghost predicate IsRun(input: Input, root: real -> real, fills: seq<Fill>) {
    && |fills| <= |input.events|
    && forall i :: 0 <= i < |fills| ==> Ready(input, root, AccountAfter(input, fills[..i]))
                                        && Happened(input, root, AccountAfter(input, fills[..i]), i) == Ok(fills[i])
  }

  function Equities(fills: seq<Fill>): (path: seq<real>)
    ensures |path| == |fills| && forall i :: 0 <= i < |path| ==> path[i] == fills[i].equity
  {
    seq(|fills|, i requires 0 <= i < |fills| => fills[i].equity)
  }

  datatype Totals = Totals(turnover: real, bidFill: real, askFill: real, commission: real, slippage: real, impact: real, adverse: real)

  function TotalsOf(fills: seq<Fill>): Totals {
    if fills == [] then Totals(0.0, 0.0, 0.0, 0.0, 0.0, 0.0, 0.0)
    else Added(TotalsOf(fills[..|fills| - 1]), fills[|fills| - 1])
  }

  function Added(t: Totals, f: Fill): Totals {
    Totals(t.turnover + f.turnover, t.bidFill + f.bidFill, t.askFill + f.askFill, t.commission + f.commission,
           t.slippage + f.slippage, t.impact + f.impact, t.adverse + f.adverse)
  }

  function TotalCost(t: Totals): real { t.commission + t.slippage + t.impact + t.adverse }

  /** What quoting away from the midpoint earned when the quotes were hit. */
  function EdgeOf(f: Fill, midpoint: real): real {
    Value(f.bidFill, midpoint - f.quotes.bid) + Value(f.askFill, f.quotes.ask - midpoint)
  }

  function Edges(input: Input, fills: seq<Fill>): real
    requires |fills| <= |input.events|
  {
    if fills == [] then 0.0
    else Edges(input, fills[..|fills| - 1]) + EdgeOf(fills[|fills| - 1], input.events[|fills| - 1].Midpoint())
  }

  /** What the inventory held between events earned on the midpoint. */
  function Carried(input: Input, fills: seq<Fill>): real
    requires |fills| <= |input.events|
  {
    if |fills| <= 1 then 0.0
    else
      var n, front := |fills|, fills[..|fills| - 1];
      Carried(input, front) + Value(AccountAfter(input, front).inventory, input.events[n - 1].Midpoint() - input.events[n - 2].Midpoint())
  }

  lemma {:induction false} RunFront(input: Input, root: real -> real, fills: seq<Fill>)
    requires IsRun(input, root, fills) && fills != []
    ensures var n := |fills| - 1;
      && n < |input.events| && IsRun(input, root, fills[..n]) && Ready(input, root, AccountAfter(input, fills[..n]))
      && Happened(input, root, AccountAfter(input, fills[..n]), n) == Ok(fills[n])
  {
    hide Ready, Happened, AccountAfter;
    var front := fills[..|fills| - 1];
    forall i | 0 <= i < |front| ensures front[..i] == fills[..i] { }
  }

  lemma {:induction false} RunExtends(input: Input, root: real -> real, fills: seq<Fill>, f: Fill)
    requires IsRun(input, root, fills) && |fills| < |input.events|
    requires Ready(input, root, AccountAfter(input, fills)) && Happened(input, root, AccountAfter(input, fills), |fills|) == Ok(f)
    ensures IsRun(input, root, fills + [f])
  {
    hide Ready, Happened, AccountAfter;
    var more := fills + [f];
    forall i | 0 <= i < |more| ensures more[..i] == fills[..i] { }
    assert fills[..|fills|] == fills;
  }

  /** Every run keeps the account ready: inventory inside its limit, cash non-negative where the policy asks it. */
  lemma {:induction false} RunStaysReady(input: Input, root: real -> real, fills: seq<Fill>)
    requires input.Valid() && Admissible(root, input.rates) && IsRun(input, root, fills)
    ensures Ready(input, root, AccountAfter(input, fills))
  {
    hide Traded, Admissible, Input.Valid;
    if fills != [] {
      RunFront(input, root, fills);
    } else {
      OpeningIsReady(input, root);
    }
  }

  lemma {:induction false} OpeningIsReady(input: Input, root: real -> real)
    requires input.Valid() && Admissible(root, input.rates)
    ensures Ready(input, root, Opening(input))
  {
  }

  lemma {:induction false} FillOf(input: Input, root: real -> real, a: Account, i: nat)
    requires Ready(input, root, a) && i < |input.events| && Happened(input, root, a, i).Ok?
    ensures var f := Happened(input, root, a, i).value;
      && f == Traded(input, root, a, i)
      && f.after.cash == a.cash - Value(f.bidFill, f.quotes.bid) + Value(f.askFill, f.quotes.ask) - CostOf(f)
      && f.after.inventory == a.inventory + f.bidFill - f.askFill
      && f.equity == f.after.cash + Value(f.after.inventory, input.events[i].Midpoint()) && f.equity > 0.0
  {
    hide Value, BidFill, AskFill, Posted, Ready;
  }

  /** The equity change of one event: the midpoint's move on the inventory held, the edge earned, the costs paid. */
  lemma {:induction false} EventEarns(input: Input, root: real -> real, a: Account, i: nat)
    requires Ready(input, root, a) && i < |input.events| && Happened(input, root, a, i).Ok?
    ensures var f, mid := Happened(input, root, a, i).value, input.events[i].Midpoint();
      f.equity == a.cash + Value(a.inventory, mid) + EdgeOf(f, mid) - CostOf(f)
  {
    hide Ready, Happened, CostOf;
    FillOf(input, root, a, i);
    var f, mid := Happened(input, root, a, i).value, input.events[i].Midpoint();
    Expands(a.inventory, f.bidFill, f.askFill, mid, f.quotes.bid, f.quotes.ask);
  }

  lemma {:induction false} Expands(held: real, bought: real, sold: real, mid: real, bid: real, ask: real)
    ensures Value(held + bought - sold, mid) - Value(bought, bid) + Value(sold, ask)
            == Value(held, mid) + Value(bought, mid - bid) + Value(sold, ask - mid)
  {
  }

  /** Where a run's money comes from: inventory carry plus quoting edge less total cost. */
  lemma {:induction false} RunExplained(input: Input, root: real -> real, fills: seq<Fill>)
    requires input.Valid() && IsRun(input, root, fills) && fills != []
    ensures fills[|fills| - 1].equity == OpeningEquity(input) + Carried(input, fills) + Edges(input, fills) - TotalCost(TotalsOf(fills))
    ensures AccountAfter(input, fills).inventory == input.inventory + TotalsOf(fills).bidFill - TotalsOf(fills).askFill
  {
    hide Ready, Happened, Value, EdgeOf, Input.Valid, IsRun;
    var n := |fills| - 1;
    var front, f := fills[..n], fills[n];
    RunFront(input, root, fills);
    EventEarns(input, root, AccountAfter(input, front), n);
    FillOf(input, root, AccountAfter(input, front), n);
    if front == [] {
      assert TotalsOf(fills) == Added(TotalsOf([]), f) by { assert front == []; }
    } else {
      RunExplained(input, root, front);
      RunFront(input, root, front);
      FillOf(input, root, AccountAfter(input, front[..n - 1]), n - 1);
      ValueMoves(AccountAfter(input, front).inventory, input.events[n - 1].Midpoint(), input.events[n].Midpoint());
    }
  }

  /** Nothing trades before the latency has passed. */
  lemma {:induction false} NothingBeforeLatency(input: Input, root: real -> real, fills: seq<Fill>)
    requires input.Valid() && Admissible(root, input.rates) && IsRun(input, root, fills) && |fills| <= input.latency
    ensures AccountAfter(input, fills) == Opening(input)
  {
    if fills != [] {
      hide Ready, Input.Valid, Admissible;
      RunFront(input, root, fills);
      NothingBeforeLatency(input, root, fills[..|fills| - 1]);
      QuietEvent(input, root, AccountAfter(input, fills[..|fills| - 1]), |fills| - 1);
    }
  }

  lemma {:induction false} QuietEvent(input: Input, root: real -> real, a: Account, i: nat)
    requires Ready(input, root, a) && i < |input.events| && i < input.latency
    ensures Traded(input, root, a, i).after == a
  {
  }

  /** Costs so low that no ask can overdraw: linear cost rates plus impact on the largest ask stay within one. */
  ghost predicate CheapCosts(input: Input) {
    forall i :: input.latency <= i < |input.events| ==>
      input.rates.Linear() - 1.0 + Value(input.quoteSize, Reference(input, i) + input.spread / 2.0) * input.rates.impact <= 1.0
  }

  lemma {:induction false} CheapCostsNeverOverdraw(input: Input, root: real -> real, a: Account, i: nat)
    requires Ready(input, root, a) && i < |input.events| && CheapCosts(input)
    ensures Happened(input, root, a, i) != Err(CashNegative)
  {
    hide Value, AskFill, WantedBid, AffordableTurnover, BidFill, Traded, Burden, Costs;
    if !input.allowNegativeCash {
      CashNegativeExactly(input, root, a, i);
      InventoryStaysInside(input, root, a, i);
      AskTurnoverIsNonNegative(input, root, a, i);
      TradedParts(input, root, a, i);
      var f := Traded(input, root, a, i);
      var asked := Value(f.askFill, f.quotes.ask);
      if f.askFill > 0.0 && i >= input.latency {
        var ask := Reference(input, i) + input.spread / 2.0;
        ReferenceIsPositive(input, i);
        ValueGrows(f.askFill, input.quoteSize, ask);
        ValueGrows(0.0, f.askFill, ask);
        NoValue(ask);
        SmallBurden(input.rates, asked, Value(input.quoteSize, ask));
      } else {
        NoValue(f.quotes.ask);
        SmallBurden(input.rates, 0.0, 0.0);
      }
    }
  }

  lemma {:induction false} TradedParts(input: Input, root: real -> real, a: Account, i: nat)
    requires Ready(input, root, a) && i < |input.events|
    ensures var f := Traded(input, root, a, i);
      f.quotes == Posted(input, i) && f.askFill == AskFill(input, a.inventory, input.events[i], f.quotes.ask) && (f.askFill > 0.0 ==> f.quotes.ask > 0.0)
      && (i < input.latency ==> f.askFill == 0.0)
  {
    hide Ready, BidFill, Value;
  }

  lemma {:induction false} ReferenceIsPositive(input: Input, i: nat)
    requires input.Valid() && input.latency <= i < |input.events|
    ensures Reference(input, i) > 0.0
  {
    assert input.events[i - input.latency] in input.events;
  }

  lemma {:induction false} SmallBurden(rates: Rates, turnover: real, most: real)
    requires rates.Valid() && 0.0 <= turnover <= most
    requires rates.Linear() - 1.0 + most * rates.impact <= 1.0 || turnover == 0.0
    ensures Costs(rates, turnover) <= turnover
  {
    Factored(rates, turnover);
    var weight := Weight(rates, turnover);
    assert (most - turnover) * rates.impact >= 0.0;
    if turnover > 0.0 {
      assert weight <= 2.0;
      assert turnover * (2.0 - weight) >= 0.0;
    }
  }

  // ---------------------------------------------------------------- the engine

  /** The bid quantity affordable under the cash policy, as the source computes it. */
  method CashConstrainedBidCapacity(root: real -> real, rates: Rates, cash: real, bidQuote: real, askTurnover: real) returns (quantity: real)
    requires rates.Valid() && cash + askTurnover >= 0.0 && Admissible(root, rates) && bidQuote > 0.0
    ensures quantity == BidCapacity(root, rates, cash, bidQuote, askTurnover)
    ensures quantity > 0.0 ==> Burden(rates, askTurnover + quantity * bidQuote) <= cash + askTurnover
  {
    var budget := cash + askTurnover;
    var affordable: real;
    if rates.impact == 0.0 {
      affordable := budget / rates.Linear();
    } else {
      affordable := FirstTurnover(root, rates, budget);
      FirstTurnoverIsNonNegative(root, rates, budget);
      ImpactAdds(rates, affordable);
      if Burden(rates, affordable) > budget {
        affordable := budget / Weight(rates, affordable);
      }
    }
    assert affordable == AffordableTurnover(root, rates, budget);
    quantity := Max(0.0, affordable - askTurnover) / bidQuote;
    CapacityPays(root, rates, cash, bidQuote, askTurnover);
  }

  lemma {:induction false} CapacityPays(root: real -> real, rates: Rates, cash: real, bidQuote: real, askTurnover: real)
    requires rates.Valid() && cash + askTurnover >= 0.0 && Admissible(root, rates) && bidQuote > 0.0
    ensures var quantity := BidCapacity(root, rates, cash, bidQuote, askTurnover);
      quantity > 0.0 ==> Burden(rates, askTurnover + quantity * bidQuote) <= cash + askTurnover
  {
    hide AffordableTurnover, BidCapacity, Burden;
    CapacitySign(root, rates, cash, bidQuote, askTurnover);
    TurnoverIsAffordable(root, rates, cash + askTurnover);
  }

  /** The delayed quotes of one event and how much of them is filled. */
  method QuoteAndFill(input: Input, root: real -> real, cash: real, inventory: real, i: nat) returns (r: Result<(Quotes, real, real), Error>)
    requires Ready(input, root, Account(cash, inventory)) && i < |input.events|
    ensures var a, q := Account(cash, inventory), Posted(input, i);
      r == if QuoteFails(input, i) then Err(QuoteNotPositive)
           else Ok((q, BidFill(input, root, a, i), AskFill(input, inventory, input.events[i], q.ask)))
  {
    hide Flow, BidCapacity, AffordableTurnover, Admissible, Burden, Value;
    var event, halfSpread := input.events[i], input.spread / 2.0;
    var bidQuote, askQuote, bidFill, askFill := 0.0, 0.0, 0.0, 0.0;
    if i >= input.latency {
      var midpoint := input.events[i - input.latency].Midpoint();
      bidQuote, askQuote := midpoint - halfSpread, midpoint + halfSpread;
      if bidQuote <= 0.0 {
        return Err(QuoteNotPositive);
      }
      if bidQuote >= event.ask {
        bidQuote := 0.0;
      }
      if askQuote <= event.bid {
        askQuote := 0.0;
      }
      if bidQuote > 0.0 {
        var bidQuantity := Min(input.quoteSize, Max(0.0, input.limit - inventory));
        if bidQuote >= event.bid {
          bidFill := Min(bidQuantity, Flow(event.sellVolume, event.bidSize, input.fillRatio));
        }
      }
      if askQuote > 0.0 {
        var askQuantity := Min(input.quoteSize, Max(0.0, input.limit + inventory));
        if askQuote <= event.ask {
          askFill := Min(askQuantity, Flow(event.buyVolume, event.askSize, input.fillRatio));
        }
      }
      AskTurnoverIsNonNegative(input, root, Account(cash, inventory), i);
      if bidFill > 0.0 && !input.allowNegativeCash {
        var capacity := CashConstrainedBidCapacity(root, input.rates, cash, bidQuote, Value(askFill, askQuote));
        bidFill := Min(bidFill, capacity);
      }
    }
    return Ok((Quotes(bidQuote, askQuote), bidFill, askFill));
  }

  /** Quotes, fills and books one event against the running cash and inventory. */
  method TradeEvent(input: Input, root: real -> real, cash: real, inventory: real, i: nat) returns (r: Result<Fill, Error>)
    requires Ready(input, root, Account(cash, inventory)) && i < |input.events|
    ensures r == Happened(input, root, Account(cash, inventory), i)
  {
    hide Posted, BidFill, AskFill, Admissible, Value, QuoteFails;
    var filled := QuoteAndFill(input, root, cash, inventory, i);
    if filled.Err? {
      return Err(filled.error);
    }
    var (quotes, bidFill, askFill) := filled.value;
    var turnover := Value(bidFill, quotes.bid) + Value(askFill, quotes.ask);
    var commission, slippage := Value(turnover, input.rates.commission), Value(turnover, input.rates.slippage);
    var impact, adverse := Value(Value(turnover, turnover), input.rates.impact), Value(turnover, input.rates.adverse);
    var newCash := cash - Value(bidFill, quotes.bid) + Value(askFill, quotes.ask) - (commission + slippage + impact + adverse);
    var newInventory := inventory + bidFill - askFill;
    if newInventory > input.limit || -newInventory > input.limit {
      return Err(InventoryExceeded);
    }
    if !input.allowNegativeCash && newCash < 0.0 {
      return Err(CashNegative);
    }
    var equity := newCash + Value(newInventory, input.events[i].Midpoint());
    if equity <= 0.0 {
      return Err(EquityNotPositive);
    }
    return Ok(Fill(quotes, bidFill, askFill, turnover, commission, slippage, impact, adverse, Account(newCash, newInventory), equity));
  }

  datatype Report = Report(fills: seq<Fill>, netReturns: seq<real>, totals: Totals, totalCost: real, finalEquity: real, drawdown: real)

  /** A run that stops with an error after these records. */
  ghost predicate StopsAfter(input: Input, root: real -> real, fills: seq<Fill>, error: Error) {
    && IsRun(input, root, fills) && |fills| < |input.events| && Ready(input, root, AccountAfter(input, fills))
    && Happened(input, root, AccountAfter(input, fills), |fills|) == Err(error)
  }

  /** What a finished run reports. */
  ghost predicate Reported(input: Input, root: real -> real, r: Report)
    requires input.Valid()
  {
    && IsRun(input, root, r.fills) && |r.fills| == |input.events| && r.totals == TotalsOf(r.fills) && r.totalCost == TotalCost(r.totals)
    && Positive([OpeningEquity(input)] + Equities(r.fills)) && r.finalEquity == r.fills[|r.fills| - 1].equity
    && r.finalEquity == OpeningEquity(input) + Carried(input, r.fills) + Edges(input, r.fills) - r.totalCost
    && OpeningEquity(input) * Compounded(r.netReturns) == r.finalEquity
    && IsMaxDrawdown([OpeningEquity(input)] + Equities(r.fills), r.drawdown)
  }

  /** Negative cash is reachable: an accepted input whose run stops at an ask that costs twice what it brings. */
  lemma {:induction false} CashNegativeHappens(root: real -> real) returns (input: Input, fills: seq<Fill>)
    requires Admissible(root, Rates(2.0, 0.0, 0.0, 0.0))
    ensures input.Valid() && input.rates == Rates(2.0, 0.0, 0.0, 0.0) && StopsAfter(input, root, fills, CashNegative)
  {
    hide AffordableTurnover, Admissible;
    var e := Event(0, 9.0, 11.0, 1.0, 1.0, 1.0, 0.0);
    input := Input([e, e.(timestamp := 1)], 1, 1.0, 1.0, 5.0, false, 1.0, 0.0, 1.0, Rates(2.0, 0.0, 0.0, 0.0));
    assert e.Midpoint() == 10.0 && input.events[1].Midpoint() == 10.0;
    var a := Opening(input);
    var quiet := Traded(input, root, a, 0);
    assert quiet.after == a && quiet.equity == 10.0;
    fills := [quiet];
    assert fills[..0] == [];
    assert Posted(input, 1) == Quotes(9.5, 10.5);
    assert Traded(input, root, a, 1).after.cash == -10.5;
  }

  lemma {:induction false} RunIsPositive(input: Input, root: real -> real, fills: seq<Fill>)
    requires input.Valid() && IsRun(input, root, fills)
    ensures Positive(Equities(fills)) && Positive([OpeningEquity(input)] + Equities(fills))
  {
    hide Ready;
    forall i | 0 <= i < |fills| ensures fills[i].equity > 0.0 {
      FillOf(input, root, AccountAfter(input, fills[..i]), i);
    }
  }

  lemma {:induction false} ReturnsGrow(first: real, path: seq<real>, equity: real)
    requires first > 0.0 && Positive(path) && equity > 0.0
    ensures Positive(path + [equity]) && Returns(first, path + [equity]) == Returns(first, path) + [Growth(LastOf(first, path), equity)]
  {
    assert (path + [equity])[..|path|] == path;
  }

  /** One event's record, added to a run. */
  lemma {:induction false} RunGrows(input: Input, root: real -> real, fills: seq<Fill>, f: Fill)
    requires input.Valid() && Admissible(root, input.rates) && IsRun(input, root, fills) && |fills| < |input.events|
    requires Ready(input, root, AccountAfter(input, fills)) && Happened(input, root, AccountAfter(input, fills), |fills|) == Ok(f)
    ensures IsRun(input, root, fills + [f]) && Ready(input, root, f.after) && AccountAfter(input, fills + [f]) == f.after
    ensures TotalsOf(fills + [f]) == Added(TotalsOf(fills), f) && Equities(fills + [f]) == Equities(fills) + [f.equity]
    ensures f.equity > 0.0 && Positive(Equities(fills)) && LastOf(OpeningEquity(input), Equities(fills + [f])) == f.equity
    ensures Returns(OpeningEquity(input), Equities(fills + [f]))
            == Returns(OpeningEquity(input), Equities(fills)) + [Growth(LastOf(OpeningEquity(input), Equities(fills)), f.equity)]
  {
    hide Ready, Happened, Admissible, Input.Valid, IsRun, Growth, OpeningEquity;
    RunExtends(input, root, fills, f);
    RunStaysReady(input, root, fills + [f]);
    RunIsPositive(input, root, fills);
    RunIsPositive(input, root, fills + [f]);
    assert (fills + [f])[..|fills|] == fills;
    assert f.equity == Equities(fills + [f])[|fills|];
    OpeningIsPositive(input);
    ReturnsGrow(OpeningEquity(input), Equities(fills), f.equity);
  }

  lemma {:induction false} OpeningIsPositive(input: Input)
    requires input.Valid()
    ensures input.events != [] && OpeningEquity(input) > 0.0
  {
  }

  lemma {:induction false} RunStarts(input: Input, root: real -> real)
    requires input.Valid() && Admissible(root, input.rates)
    ensures IsRun(input, root, []) && Ready(input, root, Opening(input)) && AccountAfter(input, []) == Opening(input)
    ensures Positive(Equities([])) && Returns(OpeningEquity(input), Equities([])) == []
    ensures TotalsOf([]) == Totals(0.0, 0.0, 0.0, 0.0, 0.0, 0.0, 0.0) && LastOf(OpeningEquity(input), Equities([])) == OpeningEquity(input)
  {
  }

  /** Runs every event in order. The inventory check never fires, and cheap costs rule out the cash check too. */
  method Simulate(input: Input, root: real -> real) returns (r: Result<Report, Error>)
    requires input.Valid() && Admissible(root, input.rates)
    ensures r.Ok? ==> Reported(input, root, r.value)
    ensures r.Err? ==> exists fills :: StopsAfter(input, root, fills, r.error)
    ensures r != Err(InventoryExceeded) && (CheapCosts(input) ==> r != Err(CashNegative))
  {
    hide *;
    RunStarts(input, root);
    OpeningIsPositive(input);
    var cash, inventory := input.cash, input.inventory;
    var previousEquity := OpeningEquity(input);
    var fills: seq<Fill>, netReturns: seq<real>, equity: seq<real> := [], [], [];
    var totals := Totals(0.0, 0.0, 0.0, 0.0, 0.0, 0.0, 0.0);
    AccountIs(input);
    for i := 0 to |input.events|
      invariant |fills| == i && IsRun(input, root, fills) && Ready(input, root, Account(cash, inventory))
      invariant AccountAfter(input, fills) == Account(cash, inventory)
      invariant equity == Equities(fills) && Positive(equity) && totals == TotalsOf(fills)
      invariant previousEquity == LastOf(OpeningEquity(input), equity) && netReturns == Returns(OpeningEquity(input), equity)
    {
      var traded := TradeEvent(input, root, cash, inventory, i);
      InventoryStaysInside(input, root, Account(cash, inventory), i);
      if traded.Err? {
        Stopping(input, root, fills, traded.error);
        return Err(traded.error);
      }
      var f := traded.value;
      RunGrows(input, root, fills, f);
      netReturns := netReturns + [Growth(previousEquity, f.equity)];
      equity := equity + [f.equity];
      fills, totals := fills + [f], Added(totals, f);
      cash, inventory, previousEquity := f.after.cash, f.after.inventory, f.equity;
      RunIsPositive(input, root, fills);
    }
    RunIsPositive(input, root, fills);
    var path := [OpeningEquity(input)] + equity;
    assert |path| == |equity| + 1;
    var drawdown := MaxDrawdown(path);
    if drawdown.Err? {
      return Err(EquityNotPositive);
    }
    var report := Report(fills, netReturns, totals, TotalCost(totals), equity[|equity| - 1], drawdown.value);
    Reporting(input, root, report);
    return Ok(report);
  }

  lemma {:induction false} AccountIs(input: Input)
    ensures Opening(input) == Account(input.cash, input.inventory)
  {
  }

  lemma {:induction false} Stopping(input: Input, root: real -> real, fills: seq<Fill>, error: Error)
    requires IsRun(input, root, fills) && |fills| < |input.events| && Ready(input, root, AccountAfter(input, fills))
    requires Happened(input, root, AccountAfter(input, fills), |fills|) == Err(error)
    ensures StopsAfter(input, root, fills, error) && (CheapCosts(input) ==> error != CashNegative)
  {
    hide Ready, Happened, CheapCosts, IsRun;
    if CheapCosts(input) {
      CheapCostsNeverOverdraw(input, root, AccountAfter(input, fills), |fills|);
    }
  }

  lemma {:induction false} Reporting(input: Input, root: real -> real, r: Report)
    requires input.Valid() && Admissible(root, input.rates) && IsRun(input, root, r.fills) && |r.fills| == |input.events|
    requires r.totals == TotalsOf(r.fills) && r.totalCost == TotalCost(r.totals) && r.finalEquity == Equities(r.fills)[|r.fills| - 1]
    requires OpeningEquity(input) > 0.0 && Positive(Equities(r.fills)) && r.netReturns == Returns(OpeningEquity(input), Equities(r.fills))
    requires Positive([OpeningEquity(input)] + Equities(r.fills)) && IsMaxDrawdown([OpeningEquity(input)] + Equities(r.fills), r.drawdown)
    ensures Reported(input, root, r)
  {
    hide IsRun, Returns, Compounded, Carried, Edges, TotalsOf, OpeningEquity, IsMaxDrawdown, Positive;
    RunExplained(input, root, r.fills);
    ReturnsCompound(OpeningEquity(input), Equities(r.fills));
  }
}
