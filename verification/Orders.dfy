/** Exchange filters, order building and the execution plan of one decision. */
module Orders {
  import opened Common
  import opened Exchange
  import opened ClientIds

  datatype BuildError = BadIncrement | InvalidQuantity

  // ----- filters -----

  /** Rounding toward zero. */
  function Truncate(x: real): int {
    if x >= 0.0 then x.Floor else -((-x).Floor)
  }

  function RoundDown(value: real, increment: real): Result<real, BuildError> {
    if increment <= 0.0 then Err(BadIncrement)
    else Ok(Multiple(Truncate(value / increment), increment))
  }

  function Multiple(k: int, increment: real): real {
    k as real * increment
  }

  ghost predicate OnGrid(x: real, increment: real) {
    increment > 0.0 && exists k :: x == Multiple(k, increment)
  }

  function ValidQuantity(f: Filters, quantity: real): Result<Option<real>, BuildError> {
    var normalized :- RoundDown(quantity, f.stepSize);
    if normalized < f.minQty || normalized <= 0.0 then Ok(None)
    else if f.maxQty.Some? && f.maxQty.value > 0.0 && normalized > f.maxQty.value then Ok(None)
    else Ok(Some(normalized))
  }

  function SizeFromStopBudget(entryPrice: real, stopPrice: real, stopBudget: real, f: Filters): Result<Option<real>, BuildError> {
    var distance := entryPrice - stopPrice;
    if distance <= 0.0 then Ok(None) else ValidQuantity(f, stopBudget / distance)
  }

  // ----- order builders -----

  function NormalizedQuantity(symbol: ExchangeSymbol, quantity: real): Result<real, BuildError> {
    var normalized :- ValidQuantity(symbol.filters, quantity);
    if normalized.None? then Err(InvalidQuantity) else Ok(normalized.value)
  }

  function NonEmpty(s: Option<string>): Option<string> {
    if s == Some("") then None else s
  }

  function MarketEntryOrder(symbol: ExchangeSymbol, quantity: real, clientId: Option<string>, positionSide: Option<string>)
    : Result<EntryOrder, BuildError>
  {
    var normalized :- NormalizedQuantity(symbol, quantity);
    Ok(EntryOrder(Some(symbol.symbol), NonEmpty(clientId), normalized, NonEmpty(positionSide)))
  }

  function StopMarketOrder(symbol: ExchangeSymbol, quantity: real, stopPrice: real, clientId: Option<string>, positionSide: Option<string>)
    : Result<StopOrder, BuildError>
  {
    var normalized :- NormalizedQuantity(symbol, quantity);
    var price :- RoundDown(stopPrice, symbol.filters.tickSize);
    Ok(StopOrder(symbol.symbol, NonEmpty(clientId), normalized, price, NonEmpty(positionSide), NonEmpty(positionSide).None?))
  }

  // ----- the plan -----

  datatype Intent = Intent(symbol: string, stopPrice: real, legType: string)

  datatype OrderPair = OrderPair(entry: EntryOrder, stop: StopOrder)

  datatype ExecutionPlan = ExecutionPlan(entryOrders: seq<EntryOrder>, stopOrders: seq<StopOrder>)

  /** What planning reads: exchange rules, latest prices, the time, and the token each symbol gets in an id. */
  datatype PlanContext = PlanContext(
    symbols: SymbolRules, latestPrice: map<string, real>, tokens: map<string, string>,
    stopBudget: real, now: Clock, positionSide: Option<string>)
  {
    function Token(symbol: string): string {
      if symbol in tokens then tokens[symbol] else "UNKNOWN"
    }
  }

  /** The orders of one intent, or nothing when the intent cannot be sized. */
  function OrdersForIntent(c: PlanContext, intent: Intent, sequence: nat): Result<Option<OrderPair>, BuildError> {
    if intent.symbol !in c.symbols || intent.symbol !in c.latestPrice then Ok(None)
    else
      var symbol, price := c.symbols[intent.symbol], c.latestPrice[intent.symbol];
      var stopPrice :- RoundDown(intent.stopPrice, symbol.filters.tickSize);
      var quantity :- SizeFromStopBudget(price, stopPrice, c.stopBudget, symbol.filters);
      if quantity.None? then Ok(None)
      else if symbol.minNotional > 0.0 && quantity.value * price < symbol.minNotional then Ok(None)
      else
        var openedAt := if intent.legType == "add_on" then HourStart(c.now) else c.now;
        var token := c.Token(intent.symbol);
        var entry :- MarketEntryOrder(symbol, quantity.value, Some(ClientOrderId(token, openedAt, intent.legType, Entry, sequence)), c.positionSide);
        var stop :- StopMarketOrder(symbol, quantity.value, stopPrice, Some(ClientOrderId(token, openedAt, intent.legType, Stop, sequence)), c.positionSide);
        Ok(Some(OrderPair(entry, stop)))
  }

  /** The pairs built from the first `n` intents, each tagged with the intent it came from. */
  function PlannedPairs(c: PlanContext, intents: seq<Intent>, n: nat): Result<seq<(nat, OrderPair)>, BuildError>
    requires n <= |intents|
  {
    if n == 0 then Ok([])
    else
      var before :- PlannedPairs(c, intents, n - 1);
      var built :- OrdersForIntent(c, intents[n - 1], n - 1);
      Ok(if built.None? then before else before + [(n - 1, built.value)])
  }

  method BuildExecutionPlan(c: PlanContext, baseEntries: seq<Intent>, addOnEntries: seq<Intent>)
    returns (r: Result<ExecutionPlan, BuildError>)
    ensures var intents := baseEntries + addOnEntries;
            match PlannedPairs(c, intents, |intents|)
            case Err(e) => r == Err(e)
            case Ok(pairs) => r == Ok(PlanOf(pairs))
  {
    var intents := baseEntries + addOnEntries;
    var entryOrders: seq<EntryOrder>, stopOrders: seq<StopOrder> := [], [];
    for sequence := 0 to |intents|
      invariant PlannedPairs(c, intents, sequence).Ok?
      invariant ExecutionPlan(entryOrders, stopOrders) == PlanOf(PlannedPairs(c, intents, sequence).value)
    {
      var built := OrdersForIntent(c, intents[sequence], sequence);
      if built.Err? {
        PlanningStops(c, intents, sequence + 1);
        return Err(built.error);
      }
      if built.value.Some? {
        entryOrders := entryOrders + [built.value.value.entry];
        stopOrders := stopOrders + [built.value.value.stop];
      }
    }
    return Ok(ExecutionPlan(entryOrders, stopOrders));
  }

  function PlanOf(pairs: seq<(nat, OrderPair)>): ExecutionPlan {
    ExecutionPlan(seq(|pairs|, i requires 0 <= i < |pairs| => pairs[i].1.entry),
                  seq(|pairs|, i requires 0 <= i < |pairs| => pairs[i].1.stop))
  }

  lemma {:induction false} PlanningStops(c: PlanContext, intents: seq<Intent>, n: nat)
    requires n <= |intents| && PlannedPairs(c, intents, n).Err?
    ensures PlannedPairs(c, intents, |intents|) == PlannedPairs(c, intents, n)
    decreases |intents| - n
  {
    if n < |intents| {
      PlanningStops(c, intents, n + 1);
    }
  }

  // ----- facts about rounding -----

  lemma {:induction false} MultiplyOrder(a: real, b: real, c: real)
    requires c > 0.0
    ensures a < b <==> a * c < b * c
  {
  }

  lemma {:induction false} FloorQuotient(value: real, increment: real, k: int)
    requires increment > 0.0
    ensures k <= (value / increment).Floor <==> Multiple(k, increment) <= value
  {
    var q := value / increment;
    assert q * increment == value;
    MultiplyOrder(q, k as real, increment);
  }

  /** For a value that is not negative, rounding down gives the greatest multiple not above it. */
  lemma {:induction false} RoundDownGreatest(value: real, increment: real)
    requires value >= 0.0 && increment > 0.0
    ensures var r := RoundDown(value, increment).value;
            && OnGrid(r, increment) && 0.0 <= r <= value
            && forall k: int :: Multiple(k, increment) <= value ==> Multiple(k, increment) <= r
  {
    var n := (value / increment).Floor;
    assert Multiple(0, increment) == 0.0;
    FloorQuotient(value, increment, 0);
    FloorQuotient(value, increment, n);
    MultiplyOrder(n as real, 0.0, increment);
    forall k: int | Multiple(k, increment) <= value
      ensures Multiple(k, increment) <= Multiple(n, increment)
    {
      FloorQuotient(value, increment, k);
      MultiplyOrder(n as real, k as real, increment);
    }
  }

  /** Negative values are rounded towards zero as well: rounding is symmetric. */
  lemma {:induction false} RoundDownSymmetric(value: real, increment: real)
    requires increment > 0.0
    ensures RoundDown(-value, increment).value == -RoundDown(value, increment).value
  {
    var q := value / increment;
    assert (-value) / increment == -q by {
      assert ((-value) / increment + q) * increment == 0.0;
    }
    assert Truncate(-q) == -Truncate(q);
    NegativeMultiple(Truncate(q), increment);
  }

  lemma {:induction false} NegativeMultiple(k: int, increment: real)
    ensures Multiple(-k, increment) == -Multiple(k, increment)
  {
  }

  /** Rounded values are multiples of the increment, and rounding them again changes nothing. */
  lemma {:induction false} RoundDownStable(value: real, increment: real)
    requires increment > 0.0
    ensures var r := RoundDown(value, increment).value;
            && OnGrid(r, increment)
            && RoundDown(r, increment) == Ok(r)
  {
    var k := Truncate(value / increment);
    QuotientOfMultiple(k, increment);
  }

  lemma {:induction false} QuotientOfMultiple(k: int, increment: real)
    requires increment > 0.0
    ensures Truncate(Multiple(k, increment) / increment) == k
  {
    var q := Multiple(k, increment) / increment;
    assert q * increment == k as real * increment;
    assert (q - k as real) * increment == 0.0;
    assert q == k as real;
  }

  lemma {:induction false} ValidQuantityStable(f: Filters, quantity: real)
    requires ValidQuantity(f, quantity).Ok? && ValidQuantity(f, quantity).value.Some?
    ensures var q := ValidQuantity(f, quantity).value.value;
            && ValidQuantity(f, q) == Ok(Some(q))
            && AcceptedQuantity(f, q)
  {
    RoundDownStable(quantity, f.stepSize);
  }

  /** The exchange accepts the quantity: on the step grid and within the limits. */
  ghost predicate AcceptedQuantity(f: Filters, q: real) {
    && OnGrid(q, f.stepSize)
    && q > 0.0 && q >= f.minQty
    && (f.maxQty.Some? && f.maxQty.value > 0.0 ==> q <= f.maxQty.value)
  }

  /** The greatest multiple of the increment that is not above the value. */
  ghost predicate GreatestBelow(x: real, value: real, increment: real) {
    && OnGrid(x, increment) && x <= value
    && forall k: int :: Multiple(k, increment) <= value ==> Multiple(k, increment) <= x
  }

  /** Which quantities pass the filters, and as what: a value that is not negative becomes x exactly when x is the greatest
      step multiple not above it and the exchange accepts x. */
  lemma {:induction false} ValidQuantityExactly(f: Filters, quantity: real, x: real)
    requires quantity >= 0.0
    ensures ValidQuantity(f, quantity) == Ok(Some(x)) <==> AcceptedQuantity(f, x) && GreatestBelow(x, quantity, f.stepSize)
  {
    if f.stepSize > 0.0 {
      RoundDownGreatest(quantity, f.stepSize);
      if GreatestBelow(x, quantity, f.stepSize) {
        var r := RoundDown(quantity, f.stepSize).value;
        var k :| x == Multiple(k, f.stepSize);
        var n :| r == Multiple(n, f.stepSize);
        assert Multiple(k, f.stepSize) <= r && Multiple(n, f.stepSize) <= x;
      }
    }
  }

  lemma {:induction false} StopIsRounded(symbol: ExchangeSymbol, quantity: real, stopPrice: real, clientId: Option<string>, positionSide: Option<string>)
    requires StopMarketOrder(symbol, quantity, stopPrice, clientId, positionSide).Ok?
    ensures var o, f := StopMarketOrder(symbol, quantity, stopPrice, clientId, positionSide).value, symbol.filters;
            && AcceptedQuantity(f, o.quantity) && GreatestBelow(o.quantity, quantity, f.stepSize)
            && OnGrid(o.price, f.tickSize) && (stopPrice >= 0.0 ==> GreatestBelow(o.price, stopPrice, f.tickSize))
  {
    var f := symbol.filters;
    ValidQuantityStable(f, quantity);
    QuantityIsPositive(quantity, f.stepSize);
    RoundDownGreatest(quantity, f.stepSize);
    RoundDownStable(stopPrice, f.tickSize);
    if stopPrice >= 0.0 {
      RoundDownGreatest(stopPrice, f.tickSize);
    }
  }

  lemma {:induction false} QuantityIsPositive(quantity: real, step: real)
    requires step > 0.0 && RoundDown(quantity, step).value > 0.0
    ensures quantity > 0.0
  {
    var q := quantity / step;
    assert q * step == quantity;
    MultiplyOrder(0.0, q, step);
    MultiplyOrder(0.0, Truncate(q) as real, step);
  }

  // ----- facts about the plan -----

  /** Entry and stop of a pair: same symbol, same valid quantity, the best stop price on the tick grid. */
  ghost predicate SoundAmounts(symbol: ExchangeSymbol, intent: Intent, p: OrderPair) {
    && p.entry.symbol == Some(symbol.symbol) && p.stop.symbol == symbol.symbol
    && p.entry.quantity == p.stop.quantity
    && AcceptedQuantity(symbol.filters, p.entry.quantity)
    && OnGrid(p.stop.price, symbol.filters.tickSize)
    && (intent.stopPrice >= 0.0 ==>
          && p.stop.price <= intent.stopPrice
          && forall k: int :: Multiple(k, symbol.filters.tickSize) <= intent.stopPrice
                              ==> Multiple(k, symbol.filters.tickSize) <= p.stop.price)
  }

  /** Both orders carry strategy ids of one intent, from which leg type and sequence can be read. */
  ghost predicate SoundIds(intent: Intent, sequence: nat, p: OrderPair) {
    && StrategyId(p.entry.clientId) && StrategyId(p.stop.clientId)
    && IntentIdOf(p.entry.clientId) == IntentIdOf(p.stop.clientId)
    && (IsAddOnId(p.entry.clientId) <==> intent.legType != "base")
    && SequenceOf(p.entry.clientId) == Some(sequence) && SequenceOf(p.stop.clientId) == Some(sequence)
    && p.entry.clientId != p.stop.clientId
  }

  ghost predicate SoundPair(c: PlanContext, intent: Intent, sequence: nat, p: OrderPair) {
    intent.symbol in c.symbols && SoundAmounts(c.symbols[intent.symbol], intent, p) && SoundIds(intent, sequence, p)
  }

  lemma {:induction false} PairIsSound(c: PlanContext, intent: Intent, sequence: nat)
    requires OrdersForIntent(c, intent, sequence).Ok? && OrdersForIntent(c, intent, sequence).value.Some?
    ensures SoundPair(c, intent, sequence, OrdersForIntent(c, intent, sequence).value.value)
  {
    AmountsAreSound(c, intent, sequence);
    var openedAt := if intent.legType == "add_on" then HourStart(c.now) else c.now;
    IdsOfPair(c.Token(intent.symbol), openedAt, intent.legType, sequence);
  }

  lemma {:induction false} AmountsAreSound(c: PlanContext, intent: Intent, sequence: nat)
    requires OrdersForIntent(c, intent, sequence).Ok? && OrdersForIntent(c, intent, sequence).value.Some?
    ensures SoundAmounts(c.symbols[intent.symbol], intent, OrdersForIntent(c, intent, sequence).value.value)
  {
    var symbol, price := c.symbols[intent.symbol], c.latestPrice[intent.symbol];
    var f := symbol.filters;
    var stopPrice := RoundDown(intent.stopPrice, f.tickSize).value;
    RoundDownStable(intent.stopPrice, f.tickSize);
    ValidQuantityStable(f, c.stopBudget / (price - stopPrice));
    if intent.stopPrice >= 0.0 {
      RoundDownGreatest(intent.stopPrice, f.tickSize);
    }
  }

  lemma {:induction false} IdsOfPair(token: string, openedAt: Clock, legType: string, sequence: nat)
    ensures var e := Some(ClientOrderId(token, openedAt, legType, Entry, sequence));
            var s := Some(ClientOrderId(token, openedAt, legType, Stop, sequence));
            && NonEmpty(e) == e && NonEmpty(s) == s && StrategyId(e) && StrategyId(s)
            && IntentIdOf(e) == IntentIdOf(s)
            && (IsAddOnId(e) <==> legType != "base")
            && SequenceOf(e) == SequenceOf(s) == Some(sequence)
            && e != s
  {
    ClientOrderIdRoundTrip(token, openedAt, legType, Entry, sequence);
    ClientOrderIdRoundTrip(token, openedAt, legType, Stop, sequence);
    DifferentOrdersDifferentIds(token, openedAt, legType, Entry, sequence, token, openedAt, legType, Stop, sequence);
    IntentIdPrefix(token, openedAt, legType, sequence);
  }

  predicate WorthIt(symbol: ExchangeSymbol, quantity: real, price: real) {
    symbol.minNotional > 0.0 ==> quantity * price >= symbol.minNotional
  }

  /** What it takes for an intent to yield orders of this quantity at this stop: the symbol and its price are known, the stop is
      the best one on the tick grid and below the price, the quantity is the greatest on the step grid that the stop budget
      pays for, the exchange accepts it, and it is worth enough. */
  ghost predicate Sized(c: PlanContext, intent: Intent, stop: real, quantity: real) {
    && intent.symbol in c.symbols && intent.symbol in c.latestPrice
    && var symbol, price := c.symbols[intent.symbol], c.latestPrice[intent.symbol];
       && GreatestBelow(stop, intent.stopPrice, symbol.filters.tickSize) && stop < price
       && AcceptedQuantity(symbol.filters, quantity) && GreatestBelow(quantity, c.stopBudget / (price - stop), symbol.filters.stepSize)
       && WorthIt(symbol, quantity, price)
  }

  /** The position side as it is sent: an empty one is left out. */
  predicate SameSide(side: Option<string>, asked: Option<string>) {
    if asked.Some? && asked.value != "" then side == asked else side.None?
  }

  lemma {:induction false} GreatestIsUnique(x: real, y: real, value: real, increment: real)
    requires GreatestBelow(x, value, increment) && GreatestBelow(y, value, increment)
    ensures x == y
  {
    var k :| x == Multiple(k, increment);
    var n :| y == Multiple(n, increment);
    assert Multiple(k, increment) <= y && Multiple(n, increment) <= x;
  }

  lemma {:induction false} BudgetIsPositive(budget: real, distance: real)
    requires budget >= 0.0 && distance > 0.0
    ensures budget / distance >= 0.0
  {
    var q := budget / distance;
    assert q * distance == budget;
    if q < 0.0 {
      MultiplyOrder(q, 0.0, distance);
    }
  }

  lemma {:induction false} SizeExactly(price: real, stop: real, budget: real, f: Filters, quantity: real)
    requires budget >= 0.0
    ensures SizeFromStopBudget(price, stop, budget, f) == Ok(Some(quantity))
       <==> stop < price && AcceptedQuantity(f, quantity) && GreatestBelow(quantity, budget / (price - stop), f.stepSize)
  {
    if stop < price {
      BudgetIsPositive(budget, price - stop);
      ValidQuantityExactly(f, budget / (price - stop), quantity);
    }
  }

  predicate HasAmounts(r: Result<Option<OrderPair>, BuildError>, stop: real, quantity: real) {
    r.Ok? && r.value.Some? && r.value.value.stop.price == stop && r.value.value.entry.quantity == quantity && r.value.value.stop.quantity == quantity
  }

  /** The builders take over the rounded stop and the sized quantity as they are. */
  lemma {:induction false} BuildersKeepAmounts(symbol: ExchangeSymbol, quantity: real, stop: real, a: Option<string>, b: Option<string>, side: Option<string>)
    requires ValidQuantity(symbol.filters, quantity) == Ok(Some(quantity)) && RoundDown(stop, symbol.filters.tickSize) == Ok(stop)
    ensures MarketEntryOrder(symbol, quantity, a, side).Ok? && MarketEntryOrder(symbol, quantity, a, side).value.quantity == quantity
    ensures var o := StopMarketOrder(symbol, quantity, stop, b, side); o.Ok? && o.value.quantity == quantity && o.value.price == stop
  {
  }

  /** An intent that can be sized: its orders have these amounts, unless they are not worth enough. */
  lemma {:induction false} SizedIntent(c: PlanContext, intent: Intent, sequence: nat, rounded: real, quantity: real)
    requires intent.symbol in c.symbols && intent.symbol in c.latestPrice
    requires RoundDown(intent.stopPrice, c.symbols[intent.symbol].filters.tickSize) == Ok(rounded)
    requires RoundDown(rounded, c.symbols[intent.symbol].filters.tickSize) == Ok(rounded)
    requires SizeFromStopBudget(c.latestPrice[intent.symbol], rounded, c.stopBudget, c.symbols[intent.symbol].filters) == Ok(Some(quantity))
    requires ValidQuantity(c.symbols[intent.symbol].filters, quantity) == Ok(Some(quantity))
    ensures var r, symbol, price := OrdersForIntent(c, intent, sequence), c.symbols[intent.symbol], c.latestPrice[intent.symbol];
            if WorthIt(symbol, quantity, price) then HasAmounts(r, rounded, quantity) else r == Ok(None)
  {
    var symbol, token := c.symbols[intent.symbol], c.Token(intent.symbol);
    var openedAt := if intent.legType == "add_on" then HourStart(c.now) else c.now;
    BuildersKeepAmounts(symbol, quantity, rounded, Some(ClientOrderId(token, openedAt, intent.legType, Entry, sequence)),
                        Some(ClientOrderId(token, openedAt, intent.legType, Stop, sequence)), c.positionSide);
  }

  lemma {:induction false} AmountsExactly(c: PlanContext, intent: Intent, sequence: nat, rounded: real, quantity: real)
    requires intent.symbol in c.symbols && intent.symbol in c.latestPrice
    requires RoundDown(intent.stopPrice, c.symbols[intent.symbol].filters.tickSize) == Ok(rounded)
    requires RoundDown(rounded, c.symbols[intent.symbol].filters.tickSize) == Ok(rounded)
    ensures var r, symbol, price := OrdersForIntent(c, intent, sequence), c.symbols[intent.symbol], c.latestPrice[intent.symbol];
            && (HasAmounts(r, rounded, quantity)
                <==> SizeFromStopBudget(price, rounded, c.stopBudget, symbol.filters) == Ok(Some(quantity)) && WorthIt(symbol, quantity, price))
            && (r.Ok? && r.value.Some? ==> r.value.value.stop.price == rounded)
  {
    var symbol, price := c.symbols[intent.symbol], c.latestPrice[intent.symbol];
    var size := SizeFromStopBudget(price, rounded, c.stopBudget, symbol.filters);
    var r := OrdersForIntent(c, intent, sequence);
    if size.Ok? && size.value.Some? {
      ValidQuantityStable(symbol.filters, c.stopBudget / (price - rounded));
      SizedIntent(c, intent, sequence, rounded, size.value.value);
    } else {
      assert !(r.Ok? && r.value.Some?);
    }
  }

  /** Exactly which intents yield orders, and with which amounts. */
  lemma {:induction false} IntentYieldsExactly(c: PlanContext, intent: Intent, sequence: nat, stop: real, quantity: real)
    requires intent.stopPrice >= 0.0 && c.stopBudget >= 0.0
    ensures Sized(c, intent, stop, quantity) <==> HasAmounts(OrdersForIntent(c, intent, sequence), stop, quantity)
  {
    if intent.symbol in c.symbols && intent.symbol in c.latestPrice && c.symbols[intent.symbol].filters.tickSize > 0.0 {
      var symbol, price := c.symbols[intent.symbol], c.latestPrice[intent.symbol];
      var tick := symbol.filters.tickSize;
      var rounded := RoundDown(intent.stopPrice, tick).value;
      RoundDownGreatest(intent.stopPrice, tick);
      RoundDownStable(intent.stopPrice, tick);
      AmountsExactly(c, intent, sequence, rounded, quantity);
      SizeExactly(price, rounded, c.stopBudget, symbol.filters, quantity);
      if GreatestBelow(stop, intent.stopPrice, tick) {
        GreatestIsUnique(stop, rounded, intent.stopPrice, tick);
      }
    }
  }

  /** What the ids show: entry and stop of an intent share the symbol's token, the leg type and the sequence, the entry's id ends
      in "e" and the stop's in "s"; the time is that of planning, for an add-on the full hour before. */
  lemma {:induction false} PairIdsExactly(c: PlanContext, intent: Intent, sequence: nat)
    requires OrdersForIntent(c, intent, sequence).Ok? && OrdersForIntent(c, intent, sequence).value.Some?
    ensures var p := OrdersForIntent(c, intent, sequence).value.value;
            var token := if intent.symbol in c.tokens then c.tokens[intent.symbol] else "UNKNOWN";
            var time := if intent.legType == "add_on" then Clock(c.now.day, c.now.hour, 0, 0) else c.now;
            && p.entry.clientId == Some(IntentId(token, time, intent.legType, sequence) + "e")
            && p.stop.clientId == Some(IntentId(token, time, intent.legType, sequence) + "s")
  {
    var openedAt := if intent.legType == "add_on" then HourStart(c.now) else c.now;
    IdsOfPair(c.Token(intent.symbol), openedAt, intent.legType, sequence);
  }

  /** Both orders of an intent name the position side alike, and the stop is reduce-only exactly without one. */
  lemma {:induction false} PairHasSide(c: PlanContext, intent: Intent, sequence: nat)
    requires OrdersForIntent(c, intent, sequence).Ok? && OrdersForIntent(c, intent, sequence).value.Some?
    ensures var p := OrdersForIntent(c, intent, sequence).value.value;
            && SameSide(p.entry.positionSide, c.positionSide) && SameSide(p.stop.positionSide, c.positionSide)
            && (p.stop.reduceOnly <==> p.stop.positionSide.None?)
  {
  }

  /** Sizing already made the quantity valid, so the builders' own check never fires. */
  lemma {:induction false} PlanningNeverRejectsItsOwnQuantity(c: PlanContext, intent: Intent, sequence: nat)
    ensures OrdersForIntent(c, intent, sequence) != Err(InvalidQuantity)
  {
    if intent.symbol in c.symbols && intent.symbol in c.latestPrice {
      var symbol, price := c.symbols[intent.symbol], c.latestPrice[intent.symbol];
      if symbol.filters.tickSize > 0.0 {
        var stopPrice := RoundDown(intent.stopPrice, symbol.filters.tickSize).value;
        var q := SizeFromStopBudget(price, stopPrice, c.stopBudget, symbol.filters);
        if q.Ok? && q.value.Some? {
          ValidQuantityStable(symbol.filters, c.stopBudget / (price - stopPrice));
        }
      }
    }
  }

  /** An intent that yields orders has them in the plan. */
  predicate Planned(c: PlanContext, intent: Intent, sequence: nat, pairs: seq<(nat, OrderPair)>) {
    var r := OrdersForIntent(c, intent, sequence);
    r.Ok? && (r.value.Some? ==> (sequence, r.value.value) in pairs)
  }

  ghost predicate SoundPairs(c: PlanContext, intents: seq<Intent>, pairs: seq<(nat, OrderPair)>) {
    && (forall i :: 0 <= i < |pairs| ==> pairs[i].0 < |intents| && SoundPair(c, intents[pairs[i].0], pairs[i].0, pairs[i].1))
    && (forall i, j :: 0 <= i < j < |pairs| ==> pairs[i].0 < pairs[j].0)
  }

  /** Entry i and stop i of a plan are the two orders of one intent, and later pairs come from later intents. */
  lemma {:induction false} PlanIsSound(c: PlanContext, intents: seq<Intent>, n: nat)
    requires n <= |intents| && PlannedPairs(c, intents, n).Ok?
    ensures var pairs := PlannedPairs(c, intents, n).value;
            SoundPairs(c, intents, pairs) && forall i :: 0 <= i < |pairs| ==> pairs[i].0 < n
  {
    if n > 0 {
      PlanIsSound(c, intents, n - 1);
      var before := PlannedPairs(c, intents, n - 1).value;
      var built := OrdersForIntent(c, intents[n - 1], n - 1).value;
      if built.Some? {
        PairIsSound(c, intents[n - 1], n - 1);
        AppendSoundPair(c, intents, before, n - 1, built.value);
      }
    }
  }

  lemma {:induction false} AppendSoundPair(c: PlanContext, intents: seq<Intent>, before: seq<(nat, OrderPair)>, k: nat, p: OrderPair)
    requires k < |intents| && SoundPairs(c, intents, before) && SoundPair(c, intents[k], k, p)
    requires forall i :: 0 <= i < |before| ==> before[i].0 < k
    ensures SoundPairs(c, intents, before + [(k, p)])
  {
  }

  /** No intent that can be sized is left out of the plan. */
  lemma {:induction false} PlanIsComplete(c: PlanContext, intents: seq<Intent>, n: nat, k: nat)
    requires k < n <= |intents| && PlannedPairs(c, intents, n).Ok?
    ensures Planned(c, intents[k], k, PlannedPairs(c, intents, n).value)
  {
    if k < n - 1 {
      PlanIsComplete(c, intents, n - 1, k);
    }
  }

  /** Said of what an intent asks for: one that can be sized has its two orders in the plan, with the amounts of its size. */
  lemma {:induction false} SizedIsPlanned(c: PlanContext, intents: seq<Intent>, k: nat, stop: real, quantity: real) returns (i: nat)
    requires k < |intents| && PlannedPairs(c, intents, |intents|).Ok?
    requires intents[k].stopPrice >= 0.0 && c.stopBudget >= 0.0 && Sized(c, intents[k], stop, quantity)
    ensures var plan := PlanOf(PlannedPairs(c, intents, |intents|).value);
            && i < |plan.entryOrders| == |plan.stopOrders|
            && plan.entryOrders[i].quantity == plan.stopOrders[i].quantity == quantity && plan.stopOrders[i].price == stop
            && plan.stopOrders[i].symbol == c.symbols[intents[k].symbol].symbol
  {
    PlanIsComplete(c, intents, |intents|, k);
    IntentYieldsExactly(c, intents[k], k, stop, quantity);
    PairIsSound(c, intents[k], k);
    var pairs := PlannedPairs(c, intents, |intents|).value;
    i :| 0 <= i < |pairs| && pairs[i] == (k, OrdersForIntent(c, intents[k], k).value.value);
  }

  lemma {:induction false} PlanIdsDistinct(c: PlanContext, intents: seq<Intent>, i: nat, j: nat)
    requires PlannedPairs(c, intents, |intents|).Ok?
    requires var pairs := PlannedPairs(c, intents, |intents|).value; i < j < |pairs|
    ensures var a, b := PlannedPairs(c, intents, |intents|).value[i].1, PlannedPairs(c, intents, |intents|).value[j].1;
            {a.entry.clientId, a.stop.clientId} !! {b.entry.clientId, b.stop.clientId}
  {
    PlanIsSound(c, intents, |intents|);
  }
}
