/** The futures exchange as the broker sees it: REST calls with unpredictable outcomes and a log of
    them, and what a truthful exchange's order books may do at each call. A call may fail after
    taking effect (a lost reply), fail before taking effect, or be refused by a rate limit. */
module Exchange {
  import opened Common

  // ----- errors -----

  datatype ApiError =
    | Http(status: int, code: Option<int>)   // an HTTP error and the "code" of its body, if any
    | Network                                // URLError or TimeoutError
    | Other                                  // any other exception

  predicate RateLimited(e: ApiError) {
    e.Http? && e.status in {418, 429}
  }

  predicate OrderNotFound(e: ApiError) {
    e.Http? && e.code == Some(-2013)
  }

  predicate Transient(e: ApiError) {
    e.Network? || (e.Http? && e.status in {408, 500, 502, 503, 504})
  }

  // ----- entry orders -----

  datatype QtyField = Absent | Unreadable | Number(value: real)

  datatype Status = Canceled | Expired | ExpiredInMatch | Rejected | OtherStatus

  /** An order as a REST reply describes it. */
  datatype OrderView = OrderView(status: Status, executedQty: QtyField, cumQty: QtyField, z: QtyField, filledQty: QtyField)

  datatype EntryOrder = EntryOrder(symbol: Option<string>, clientId: Option<string>, quantity: real, positionSide: Option<string>)

  datatype LookupReply = Nothing | NotADict | EmptyDict | Described(order: OrderView) | LookupRaised(error: ApiError)

  datatype PostReply = Accepted(order: OrderView) | PostRaised(error: ApiError)

  /** An entry order on the exchange's own book. */
  datatype BookedEntry = BookedEntry(clientId: Option<string>, status: Status, executed: real)

  predicate TerminalStatus(s: Status) {
    s in {Canceled, Expired, ExpiredInMatch, Rejected}
  }

  /** The order can still trade, or already has. */
  predicate LiveOrFilled(o: BookedEntry) {
    !(TerminalStatus(o.status) && o.executed <= 0.0)
  }

  predicate NoneLive(book: seq<BookedEntry>, id: string) {
    forall i :: 0 <= i < |book| && book[i].clientId == Some(id) ==> !LiveOrFilled(book[i])
  }

  /** No client id has two orders that are live or filled. */
  predicate AtMostOneLive(book: seq<BookedEntry>) {
    forall i, j :: 0 <= i < j < |book| && LiveOrFilled(book[i]) && LiveOrFilled(book[j]) && book[i].clientId.Some?
                   ==> book[i].clientId != book[j].clientId
  }

  /** The market moves a book on: orders trade, or die; a dead unfilled order never revives. */
  predicate Settles(before: seq<BookedEntry>, after: seq<BookedEntry>) {
    && |after| == |before|
    && forall i :: 0 <= i < |before| ==>
         before[i].clientId == after[i].clientId && (LiveOrFilled(after[i]) ==> LiveOrFilled(before[i]))
  }

  /** A POST books the order as a new entry, or (only if the reply is an error) does not. */
  ghost predicate PostEffect(before: seq<BookedEntry>, order: EntryOrder, reply: PostReply, after: seq<BookedEntry>) {
    exists mid, o :: BooksEntry(mid, o, order, reply, after) && Settles(before, mid)
  }

  predicate BooksEntry(mid: seq<BookedEntry>, o: BookedEntry, order: EntryOrder, reply: PostReply, after: seq<BookedEntry>) {
    o.clientId == order.clientId && (after == mid + [o] || (after == mid && reply.PostRaised?))
  }

  // ----- conditional (algo) orders -----

  datatype StopOrder = StopOrder(symbol: string, clientId: Option<string>, quantity: real, price: real,
                                 positionSide: Option<string>, reduceOnly: bool)

  datatype AlgoOrder = AlgoOrder(algoId: nat, clientId: Option<string>, symbol: string, stopMarket: bool)

  const STRATEGY_PREFIX := "ma_"

  predicate StrategyId(id: Option<string>) {
    id.Some? && STRATEGY_PREFIX <= id.value
  }

  predicate StrategyStop(o: AlgoOrder) {
    o.stopMarket && StrategyId(o.clientId)
  }

  ghost predicate Covered(stops: StopBook, symbol: string) {
    exists o :: o in stops && o.symbol == symbol && StrategyStop(o)
  }

  /** Every symbol with an open strategy stop before still has one after. */
  ghost predicate KeepsCover(before: StopBook, after: StopBook) {
    forall symbol :: Covered(before, symbol) ==> Covered(after, symbol)
  }

  predicate SameId(a: AlgoOrder, b: AlgoOrder) {
    a.algoId == b.algoId || (a.clientId.Some? && a.clientId == b.clientId)
  }

  /** The exchange never has two open conditional orders with a common id. */
  predicate UniqueIds(stops: set<AlgoOrder>) {
    forall a, b :: a in stops && b in stops && SameId(a, b) ==> a == b
  }

  type StopBook = s: set<AlgoOrder> | UniqueIds(s) witness {}

  /** Between the broker's own calls other parties may place orders and may cancel
      orders that are not strategy stops. */
  predicate Drifts(before: StopBook, after: StopBook) {
    forall o :: o in before && StrategyStop(o) ==> o in after
  }

  /** A cancel may remove whatever order carries one of the target's two ids. */
  predicate CancelEffect(before: StopBook, target: AlgoOrder, after: StopBook) {
    forall o :: o in before && StrategyStop(o) && !SameId(o, target) ==> o in after
  }

  ghost predicate NewlyOpen(before: StopBook, order: StopOrder, after: StopBook) {
    exists o :: o in after && o !in before && Books(o, order)
  }

  predicate Books(o: AlgoOrder, order: StopOrder) {
    o.symbol == order.symbol && o.clientId == order.clientId && o.stopMarket
  }

  datatype ListReply = Listed(orders: seq<AlgoOrder>) | ListRaised(error: ApiError)

  /** A listing names open orders of the symbol asked for. */
  predicate TruthfulListing(reply: ListReply, stops: StopBook, symbol: string) {
    reply.Listed? ==> forall i :: 0 <= i < |reply.orders| ==> reply.orders[i] in stops && reply.orders[i].symbol == symbol
  }

  datatype Filters = Filters(stepSize: real, minQty: real, tickSize: real, maxQty: Option<real>)

  datatype ExchangeSymbol = ExchangeSymbol(symbol: string, filters: Filters, minNotional: real)

  /** Parsed exchange rules are filed under their own symbol. */
  type SymbolRules = m: map<string, ExchangeSymbol> | forall k :: k in m ==> m[k].symbol == k witness map[]

  datatype RulesReply = Rules(rules: SymbolRules) | RulesRaised(error: ApiError)

  // ----- the log -----

  datatype Call =
    | Lookup(id: string, found: LookupReply)
    | PostEntry(entry: EntryOrder, posted: PostReply)
    | ListStops(symbol: string, listing: ListReply)
    | ReadRules(read: RulesReply)
    | PostStop(stop: StopOrder, placed: PostReply)
    | CancelStop(target: AlgoOrder, cancelError: Option<ApiError>)

  function CallError(c: Call): Option<ApiError> {
    match c
    case Lookup(_, r) => if r.LookupRaised? then Some(r.error) else None
    case PostEntry(_, r) => if r.PostRaised? then Some(r.error) else None
    case ListStops(_, r) => if r.ListRaised? then Some(r.error) else None
    case ReadRules(r) => if r.RulesRaised? then Some(r.error) else None
    case PostStop(_, r) => if r.PostRaised? then Some(r.error) else None
    case CancelStop(_, e) => e
  }

  predicate HitRateLimit(c: Call) {
    CallError(c).Some? && RateLimited(CallError(c).value)
  }

  // ----- what the books must satisfy to come from a real exchange -----

  function QtyFields(o: OrderView): seq<QtyField> { [o.executedQty, o.cumQty, o.z, o.filledQty] }

  /** A description of a booked order: its status, and in every quantity field that is a number what it has executed.
      Only of an order that has executed nothing may all quantity fields be left out. */
  predicate Reports(o: OrderView, b: BookedEntry) {
    && o.status == b.status
    && (forall f <- QtyFields(o) :: f.Number? ==> f.value == b.executed)
    && ((forall f <- QtyFields(o) :: f.Absent?) ==> b.executed == 0.0)
  }

  /** The reply describes the k-th booked order, which has this id; a dead one only if no order with the id is open or
      has traded. */
  predicate Describes(o: OrderView, book: seq<BookedEntry>, id: string, k: nat) {
    k < |book| && book[k].clientId == Some(id) && Reports(o, book[k]) && (LiveOrFilled(book[k]) || NoneLive(book, id))
  }

  /** A lookup tells the truth about the book: "no such order" only when none with the id is open or has traded, and
      otherwise a description of one that has the id. */
  ghost predicate TruthfulLookup(reply: LookupReply, book: seq<BookedEntry>, id: string) {
    match reply
    case Nothing => NoneLive(book, id)
    case LookupRaised(e) => OrderNotFound(e) ==> NoneLive(book, id)
    case Described(o) => exists k: nat :: Describes(o, book, id, k)
    case _ => true
  }

  /** The entry book moves only as the call and the market allow, and lookups are truthful. */
  ghost predicate EntryStep(before: seq<BookedEntry>, call: Call, after: seq<BookedEntry>) {
    match call
    case PostEntry(order, reply) => PostEffect(before, order, reply, after)
    case Lookup(id, reply) => Settles(before, after) && TruthfulLookup(reply, after, id)
    case _ => Settles(before, after)
  }

  /** `books[i]` is the entry book right after the first `i` calls. */
  ghost predicate TruthfulEntries(calls: seq<Call>, books: seq<seq<BookedEntry>>) {
    |books| == |calls| + 1 && forall i :: 0 <= i < |calls| ==> EntryStep(books[i], calls[i], books[i + 1])
  }

  /** The stop book moves only as the call and other parties allow, and listings are truthful. */
  ghost predicate StopStep(before: StopBook, call: Call, after: StopBook) {
    match call
    case CancelStop(target, error) => CancelEffect(before, target, after)
    case PostStop(order, reply) => Drifts(before, after) && (reply.Accepted? ==> NewlyOpen(before, order, after))
    case ListStops(symbol, listing) => Drifts(before, after) && TruthfulListing(listing, after, symbol)
    case _ => Drifts(before, after)
  }

  ghost predicate TruthfulStops(calls: seq<Call>, books: seq<StopBook>) {
    |books| == |calls| + 1 && forall i :: 0 <= i < |calls| ==> StopStep(books[i], calls[i], books[i + 1])
  }

  // ----- the client -----

  /** The REST client. Nothing is promised about a reply; the log records every call with its reply. */
  class Client {
    const lookups: bool   // whether the client offers a lookup by client order id
    const serves: bool    // whether the client offers the exchange's symbol rules
    var log: seq<Call>

    constructor (lookups: bool, serves: bool)
      ensures this.lookups == lookups && this.serves == serves && log == []
    {
      this.lookups, this.serves, log := lookups, serves, [];
    }

    /** GET an order by client id. */
    method FetchOrder(id: string) returns (reply: LookupReply)
      modifies this
      ensures log == old(log) + [Lookup(id, reply)]
    {
      reply :| true;
      log := log + [Lookup(id, reply)];
    }

    /** POST an entry order. */
    method NewOrder(order: EntryOrder) returns (reply: PostReply)
      modifies this
      ensures log == old(log) + [PostEntry(order, reply)]
    {
      reply :| true;
      log := log + [PostEntry(order, reply)];
    }

    /** GET the open conditional orders of one symbol. */
    method FetchOpenAlgoOrders(symbol: string) returns (reply: ListReply)
      modifies this
      ensures log == old(log) + [ListStops(symbol, reply)]
    {
      reply :| true;
      log := log + [ListStops(symbol, reply)];
    }

    /** GET the symbol rules. */
    method FetchExchangeInfo() returns (reply: RulesReply)
      modifies this
      ensures log == old(log) + [ReadRules(reply)]
    {
      reply :| true;
      log := log + [ReadRules(reply)];
    }

    /** POST a conditional order. */
    method NewAlgoOrder(order: StopOrder) returns (reply: PostReply)
      modifies this
      ensures log == old(log) + [PostStop(order, reply)]
    {
      reply :| true;
      log := log + [PostStop(order, reply)];
    }

    /** DELETE a conditional order. */
    method CancelAlgoOrder(target: AlgoOrder) returns (error: Option<ApiError>)
      modifies this
      ensures log == old(log) + [CancelStop(target, error)]
    {
      error :| true;
      log := log + [CancelStop(target, error)];
    }
  }
}
