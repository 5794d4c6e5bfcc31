/** The poll process's account cache: it owns every account read and keeps each call inside a request budget. */
module AccountCache {
  import opened Common
  import opened Ordering
  import opened OrderSnapshots
  import opened AccountReads
  import opened OrderCache

  const NORMAL_ACCOUNT_REQUEST_WEIGHT_LIMIT := 18
  const ELEVATED_REQUEST_WEIGHT_LIMIT := 150

  /** What the stored strategy state says about orders and positions. */
  datatype StoredProjection = StoredProjection(orders: Statuses, positions: seq<RiskRow>)

  datatype ControlRequest = PositionModeRefresh(requestedAt: string) | AccountFullSync(requestedAt: string) | OtherControl

  datatype AccountSnapshot = AccountSnapshot(
    hedged: bool, accountInfo: Option<AccountInfo>, positionRisk: seq<RiskRow>, openOrders: map<string, RestOrder>,
    orderStatuses: Statuses, requestWeight: int, fullSync: bool)

  function Minute(now: int): int { now / 60 }

  function Bucket(now: int, interval: int): int
    requires interval >= 1
  {
    now / (60 * interval)
  }

  function RowsOf(positions: seq<AccountRow>): seq<RiskRow> {
    if positions == [] then []
    else
      var last := positions[|positions| - 1];
      RowsOf(positions[..|positions| - 1])
      + if last.side == OtherSide || last.symbol == "" then [] else [RiskRow(last.symbol, last.amount)]
  }

  function RiskFromAccount(info: Option<AccountInfo>, fallback: seq<RiskRow>): seq<RiskRow> {
    if info.None? || info.value.positions.None? then fallback else RowsOf(info.value.positions.value)
  }

  /** The orders that the cache offers to the decision: the active ones. */
  function OpenOrdersOf(st: Statuses): map<string, RestOrder> {
    map key | key in st && Active(st[key].status) :: RawOrder(key, st[key])
  }

  function HeldSymbols(rows: seq<RiskRow>): (r: seq<string>)
    ensures forall x :: x in r <==> exists row :: row in rows && row.symbol == x && row.amount > 0.0
  {
    if rows == [] then []
    else
      var last := rows[|rows| - 1];
      var r := HeldSymbols(rows[..|rows| - 1]) + if last.amount > 0.0 then [last.symbol] else [];
      r
  }

  function StoredOrders(stored: Option<StoredProjection>): Statuses { if stored.None? then map[] else stored.value.orders }

  function StoredRows(stored: Option<StoredProjection>): seq<RiskRow> { if stored.None? then [] else stored.value.positions }

  /** The positions that a cache goes on with: the stored ones whenever there is a stored state. */
  function OfferedRows(stored: Option<StoredProjection>, current: seq<RiskRow>): seq<RiskRow> {
    if stored.Some? then stored.value.positions else current
  }

  /** What a refresh offers as positions: no account read, but the stored positions, unless the account is asked for. */
  function RefreshedRows(refreshAccount: bool, info: Option<AccountInfo>, stored: Option<StoredProjection>, current: seq<RiskRow>): seq<RiskRow> {
    if refreshAccount then RiskFromAccount(info, OfferedRows(stored, current)) else OfferedRows(stored, current)
  }

  /** A stored projection that changed since it was last taken over replaces the cached statuses. */
  function BaseStatuses(stored: Option<StoredProjection>, last: Option<Statuses>, current: Statuses): Statuses {
    if stored.Some? && Some(stored.value.orders) != last then stored.value.orders else current
  }

  function Asked(needed: bool, r: Request): seq<Request> { if needed then [r] else [] }

  // ----- what a validation pass asks for -----

  function PlanFor(symbol: string, orders: bool, algoOrders: bool): seq<Request> {
    (if orders then [OpenOrders(symbol)] else []) + (if algoOrders then [OpenAlgoOrders(symbol)] else [])
  }

  /** Two reads a symbol, in symbol order. */
  function Plan(symbols: seq<string>, orders: bool, algoOrders: bool): seq<Request> {
    if symbols == [] then []
    else Plan(symbols[..|symbols| - 1], orders, algoOrders) + PlanFor(symbols[|symbols| - 1], orders, algoOrders)
  }

  lemma {:induction false} PlanPrefix(symbols: seq<string>, i: nat, orders: bool, algoOrders: bool)
    requires i <= |symbols|
    ensures Plan(symbols[..i], orders, algoOrders) <= Plan(symbols, orders, algoOrders)
  {
    if i < |symbols| {
      var n := |symbols| - 1;
      assert symbols[..n][..i] == symbols[..i];
      PlanPrefix(symbols[..n], i, orders, algoOrders);
    } else {
      assert symbols[..i] == symbols;
    }
  }

  lemma {:induction false} PlanLength(symbols: seq<string>, orders: bool, algoOrders: bool)
    ensures |Plan(symbols, orders, algoOrders)| == |symbols| * ((if orders then 1 else 0) + (if algoOrders then 1 else 0))
  {
    if symbols == [] {
    } else {
      PlanLength(symbols[..|symbols| - 1], orders, algoOrders);
    }
  }

  /** A pass runs once per interval unless it is forced. */
  predicate Skips(lastBucket: Option<int>, now: int, interval: int, force: bool)
    requires interval >= 1
  {
    !force && lastBucket == Some(Bucket(now, interval))
  }

  /** What the cache remembers of the last pass: its interval. */
  function PassBucket(done: bool, last: Option<int>, now: int, interval: int): Option<int>
    requires interval >= 1
  {
    if done then Some(Bucket(now, interval)) else last
  }

  function Cut(plan: seq<Request>, room: int): seq<Request>
    requires room >= 0
  {
    plan[..Min(|plan|, room)]
  }

  lemma {:induction false} PlanGrows(symbols: seq<string>, i: nat, orders: bool, algoOrders: bool)
    requires i < |symbols|
    ensures Plan(symbols[..i + 1], orders, algoOrders) == Plan(symbols[..i], orders, algoOrders) + PlanFor(symbols[i], orders, algoOrders)
    ensures Plan(symbols[..i + 1], orders, algoOrders) <= Plan(symbols, orders, algoOrders)
  {
    assert symbols[..i + 1][..i] == symbols[..i];
    PlanPrefix(symbols, i + 1, orders, algoOrders);
  }

  lemma {:induction false} CutGrows(plan: seq<Request>, more: seq<Request>, room: nat)
    ensures Cut(plan + more, room) == Cut(plan, room) + Cut(more, room - |Cut(plan, room)|)
  {
  }

  lemma {:induction false} CutBreaks(plan: seq<Request>, more: seq<Request>, part: seq<Request>, room: nat)
    requires part <= more && |Cut(plan, room)| + |part| <= room
    ensures Cut(plan, room) + part <= plan + more
  {
  }

  /** A pass that could not add anything has used the room up, or there is nothing to ask for at all. */
  lemma {:induction false} PassStops(symbols: seq<string>, i: nat, orders: bool, algoOrders: bool, room: nat)
    requires i < |symbols|
    requires Cut(PlanFor(symbols[i], orders, algoOrders), room - |Cut(Plan(symbols[..i], orders, algoOrders), room)|) == []
    ensures Cut(Plan(symbols[..i], orders, algoOrders), room) == Cut(Plan(symbols, orders, algoOrders), room)
  {
    PlanPrefix(symbols, i, orders, algoOrders);
    if !orders && !algoOrders {
      PlanLength(symbols, orders, algoOrders);
      PlanLength(symbols[..i], orders, algoOrders);
    }
  }

  lemma {:induction false} OrderReadsWeighOne(sent: seq<Read>)
    requires OrderReadsOnly(sent)
    ensures TotalWeight(sent) == |sent|
  {
    if sent == [] {
    } else {
      OrderReadsWeighOne(sent[..|sent| - 1]);
    }
  }

  lemma {:induction false} PlanWithoutOrders(symbols: seq<string>, algoOrders: bool, k: nat)
    requires k < |Plan(symbols, false, algoOrders)|
    ensures Plan(symbols, false, algoOrders)[k].OpenAlgoOrders?
  {
    var n := |symbols| - 1;
    if k < |Plan(symbols[..n], false, algoOrders)| {
      PlanWithoutOrders(symbols[..n], algoOrders, k);
    }
  }

  lemma {:induction false} RequestAt(sent: seq<Read>, k: nat)
    requires k < |sent|
    ensures Requests(sent)[k] == RequestOf(sent[k])
  {
    if k < |sent| - 1 {
      RequestAt(sent[..|sent| - 1], k);
    }
  }

  /** When a symbol's first read is for its algo orders, no regular orders are read at all. */
  lemma {:induction false} FailsAlone(symbols: seq<string>, i: nat, client: AccountClient, room: nat, before: seq<Read>, part: seq<Read>)
    requires PassSoFar(symbols, i, client, room, before) && i < |symbols| && Breaks(part)
    requires Requests(part) <= PlanFor(symbols[i], client.servesOrders, client.servesAlgoOrders)
    ensures Alone(before, part)
  {
    RequestAt(part, 0);
    if before != [] && !client.servesOrders {
      RequestAt(before, |before| - 1);
      PlanWithoutOrders(symbols[..i], client.servesAlgoOrders, |before| - 1);
    }
  }

  /** A pass so far: the plan of the first symbols, cut to the room. */
  predicate PassSoFar(symbols: seq<string>, i: nat, client: AccountClient, room: nat, sent: seq<Read>) {
    i <= |symbols| && Answered(sent) && Requests(sent) == Cut(Plan(symbols[..i], client.servesOrders, client.servesAlgoOrders), room)
  }

  lemma {:induction false} PassGoesOn(symbols: seq<string>, i: nat, client: AccountClient, room: nat, before: seq<Read>, part: seq<Read>, st: Statuses)
    requires PassSoFar(symbols, i, client, room, before) && i < |symbols| && |before| <= room && Answered(part)
    requires Requests(part) == Cut(PlanFor(symbols[i], client.servesOrders, client.servesAlgoOrders), room - |before|)
    ensures PassSoFar(symbols, i + 1, client, room, before + part) && Applied(st, before + part) == Applied(Applied(st, before), part)
  {
    AppliedConcat(st, before, part);
    RequestsConcat(before, part);
    PlanGrows(symbols, i, client.servesOrders, client.servesAlgoOrders);
    CutGrows(Plan(symbols[..i], client.servesOrders, client.servesAlgoOrders), PlanFor(symbols[i], client.servesOrders, client.servesAlgoOrders), room);
  }

  lemma {:induction false} PassEnds(symbols: seq<string>, i: nat, client: AccountClient, room: nat, before: seq<Read>)
    requires PassSoFar(symbols, i, client, room, before) && |before| <= room
    requires i < |symbols| ==> Cut(PlanFor(symbols[i], client.servesOrders, client.servesAlgoOrders), room - |before|) == []
    ensures Requests(before) == Cut(Plan(symbols, client.servesOrders, client.servesAlgoOrders), room)
  {
    if i < |symbols| {
      PassStops(symbols, i, client.servesOrders, client.servesAlgoOrders, room);
    } else {
      assert symbols[..i] == symbols;
    }
  }

  lemma {:induction false} PassFails(symbols: seq<string>, i: nat, client: AccountClient, room: nat, before: seq<Read>, part: seq<Read>)
    requires PassSoFar(symbols, i, client, room, before) && i < |symbols| && |before| + |part| <= room && Breaks(part)
    requires Requests(part) <= PlanFor(symbols[i], client.servesOrders, client.servesAlgoOrders)
    ensures Reached(false, before + part, before) && OrderReadsOnly(before + part)
    ensures Requests(before + part) <= Plan(symbols, client.servesOrders, client.servesAlgoOrders)
  {
    assert (before + part)[|before|..] == part;
    FailsAlone(symbols, i, client, room, before, part);
    RequestsConcat(before, part);
    PlanGrows(symbols, i, client.servesOrders, client.servesAlgoOrders);
    CutBreaks(Plan(symbols[..i], client.servesOrders, client.servesAlgoOrders), PlanFor(symbols[i], client.servesOrders, client.servesAlgoOrders),
              Requests(part), room);
  }

  // ----- one symbol -----

  function OrdersSent(symbol: string, asked: bool, reply: Option<seq<RestOrder>>): (sent: seq<Read>)
    ensures |sent| == (if asked then 1 else 0) && OrderReadsOnly(sent)
    ensures Requests(sent) == Asked(asked, OpenOrders(symbol))
    ensures forall st :: Applied(st, sent) == if asked then Replace(st, Regular, symbol, reply) else st
  {
    if asked then OneRead(OrdersRead(symbol, reply)); [OrdersRead(symbol, reply)] else []
  }

  function AlgoOrdersSent(symbol: string, asked: bool, reply: Option<seq<RestOrder>>): (sent: seq<Read>)
    ensures |sent| == (if asked then 1 else 0) && OrderReadsOnly(sent)
    ensures Requests(sent) == Asked(asked, OpenAlgoOrders(symbol))
    ensures forall st :: Applied(st, sent) == if asked then Replace(st, Algo, symbol, reply) else st
  {
    if asked then OneRead(AlgoOrdersRead(symbol, reply)); [AlgoOrdersRead(symbol, reply)] else []
  }

  function ModeSent(asked: bool, reply: Option<Option<bool>>): (sent: seq<Read>)
    ensures Requests(sent) == Asked(asked, PositionMode) && TotalWeight(sent) == if asked then 30 else 0
  {
    if asked then OneRead(ModeRead(reply)); [ModeRead(reply)] else []
  }

  function AccountSent(asked: bool, reply: Option<Option<AccountInfo>>): (sent: seq<Read>)
    ensures Requests(sent) == Asked(asked, AccountInformation) && TotalWeight(sent) == if asked then 5 else 0
  {
    if asked then OneRead(AccountRead(reply)); [AccountRead(reply)] else []
  }

  function RiskSent(asked: bool, reply: Option<seq<RiskRow>>): (sent: seq<Read>)
    ensures Requests(sent) == Asked(asked, PositionRisk) && TotalWeight(sent) == if asked then 5 else 0
  {
    if asked then OneRead(RiskRead(reply)); [RiskRead(reply)] else []
  }

  lemma {:induction false} OneRead(read: Read)
    ensures Requests([read]) == [RequestOf(read)] && TotalWeight([read]) == Weight(RequestOf(read))
    ensures forall st :: Applied(st, [read]) == AppliedOne(st, read)
  {
    assert [read][..0] == [];
  }

  predicate AsksAsPlanned(orders: bool, algoOrders: bool, room: nat, asked: bool, askedAlgo: bool) {
    asked == (orders && room >= 1) && askedAlgo == (algoOrders && room >= (if asked then 2 else 1))
  }

  /** One symbol's reads, all answered: as much of its part of the plan as the room allows. */
  predicate AnswersFor(symbol: string, orders: bool, algoOrders: bool, room: int, sent: seq<Read>) {
    room >= 0 && Answered(sent) && Requests(sent) == Cut(PlanFor(symbol, orders, algoOrders), room)
  }

  /** One symbol's reads, up to one that failed. */
  predicate FailsFor(symbol: string, orders: bool, algoOrders: bool, sent: seq<Read>) {
    Breaks(sent) && Requests(sent) <= PlanFor(symbol, orders, algoOrders)
  }

  lemma {:induction false} SymbolReads(symbol: string, orders: bool, algoOrders: bool, room: nat, asked: bool, regular: Option<seq<RestOrder>>,
                    askedAlgo: bool, algo: Option<seq<RestOrder>>, st: Statuses)
    requires AsksAsPlanned(orders, algoOrders, room, asked, askedAlgo)
    requires (asked <==> regular.Some?) && (!askedAlgo ==> algo.None?)
    ensures var sent := OrdersSent(symbol, asked, regular) + AlgoOrdersSent(symbol, askedAlgo, algo);
            && |sent| == (if asked then 1 else 0) + (if askedAlgo then 1 else 0)
            && (if askedAlgo && algo.None? then FailsFor(symbol, orders, algoOrders, sent) else AnswersFor(symbol, orders, algoOrders, room, sent))
            && Applied(st, sent) == Replace(Replace(st, Regular, symbol, regular), Algo, symbol, algo)
  {
    var first := OrdersSent(symbol, asked, regular);
    var second := AlgoOrdersSent(symbol, askedAlgo, algo);
    RequestsConcat(first, second);
    AppliedConcat(st, first, second);
  }

  lemma {:induction false} FirstBreaks(symbol: string, orders: bool, algoOrders: bool)
    requires orders
    ensures FailsFor(symbol, orders, algoOrders, OrdersSent(symbol, true, None))
  {
  }

  function AccountHead(modeLoaded: bool, infoMinute: Option<int>, now: int, client: AccountClient): seq<Request> {
    Asked(!modeLoaded && client.servesMode, PositionMode) + Asked(Stale(false, infoMinute, now) && client.servesAccount, AccountInformation)
  }

  function SyncHead(modeLoaded: bool, infoMinute: Option<int>, now: int, client: AccountClient): seq<Request> {
    AccountHead(modeLoaded, infoMinute, now, client) + Asked(client.servesRisk, PositionRisk)
  }

  predicate Stale(force: bool, infoMinute: Option<int>, now: int) { force || infoMinute != Some(Minute(now)) }

  lemma {:induction false} NothingMore(log: seq<Read>, head: seq<Read>)
    ensures log + head == log + (head + [])
  {
    assert head + [] == head;
  }

  lemma {:induction false} JoinReads(log: seq<Read>, a: seq<Read>, b: seq<Read>)
    ensures (log + a) + b == log + (a + b)
    ensures Requests(a + b) == Requests(a) + Requests(b) && TotalWeight(a + b) == TotalWeight(a) + TotalWeight(b)
  {
    RequestsConcat(a, b);
    TotalWeightConcat(a, b);
  }

  // ----- limits and counters -----

  function WeightLimit(initialized: bool, modeLoaded: bool): int {
    if !initialized || !modeLoaded then ELEVATED_REQUEST_WEIGHT_LIMIT else NORMAL_ACCOUNT_REQUEST_WEIGHT_LIMIT
  }

  predicate WantsMode(requests: seq<ControlRequest>) {
    requests != [] && (requests[|requests| - 1].PositionModeRefresh? || WantsMode(requests[..|requests| - 1]))
  }

  predicate WantsSync(requests: seq<ControlRequest>) {
    requests != [] && (requests[|requests| - 1].AccountFullSync? || WantsSync(requests[..|requests| - 1]))
  }

  predicate ModeKnown(loaded: bool, requests: seq<ControlRequest>) { loaded && !WantsMode(requests) }

  predicate Ready(initialized: bool, requests: seq<ControlRequest>) { initialized && !WantsSync(requests) }

  /** The view after the control requests that are waiting. */
  function Controlled(v: CacheView, requests: seq<ControlRequest>): CacheView {
    v.(positionModeLoaded := ModeKnown(v.positionModeLoaded, requests), initialized := Ready(v.initialized, requests))
  }

  predicate Clearable(r: ControlRequest) { !r.OtherControl? }

  /** The per-minute weight counter after one more completed call. */
  function Counted(counter: (Option<int>, int), call: (int, int)): (Option<int>, int) {
    (Some(call.0), (if counter.0 == Some(call.0) then counter.1 else 0) + call.1)
  }

  /** What a validation pass asks for: nothing when it is not due, else as much of the plan as the room allows. */
  function Validation(due: bool, symbols: seq<string>, client: AccountClient, room: int): seq<Request> {
    if due && room >= 0 then Cut(Plan(SortedUnique(symbols), client.servesOrders, client.servesAlgoOrders), room) else []
  }

  // ----- one call, by whether the cache was ready for a plain tick -----

  function HeadOf(ready: bool, modeLoaded: bool, infoMinute: Option<int>, now: int, client: AccountClient): seq<Request> {
    if ready then AccountHead(modeLoaded, infoMinute, now, client) else SyncHead(modeLoaded, infoMinute, now, client)
  }

  predicate Due(ready: bool, restorePositions: bool, lastBucket: Option<int>, now: int, interval: int)
    requires interval >= 1
  {
    !ready || (restorePositions && !Skips(lastBucket, now, interval, false))
  }

  /** All that a cache remembers. */
  datatype CacheView = CacheView(
    hedged: bool, positionModeLoaded: bool, positionRisk: seq<RiskRow>, orderStatuses: Statuses, lastProjection: Option<Statuses>,
    accountInfo: Option<AccountInfo>, requestWeight: (Option<int>, int), accountInfoMinute: Option<int>, initialized: bool, lastBucket: Option<int>)

  /** What a call that succeeds reads: `head` are the account reads, `tail` the order reads of the symbols held in `rows`, as
      far as the room reaches. */
  ghost predicate Synced(pre: CacheView, client: AccountClient, interval: int, now: int, restorePositions: bool, room: int,
                         head: seq<Read>, tail: seq<Read>, rows: seq<RiskRow>)
    requires interval >= 1
  {
    && Requests(head) == HeadOf(pre.initialized, pre.positionModeLoaded, pre.accountInfoMinute, now, client)
    && Requests(tail) == Validation(Due(pre.initialized, restorePositions, pre.lastBucket, now, interval), HeldSymbols(rows), client,
                                    room - TotalWeight(head))
  }

  /** The stored projection that a call takes over: at a full sync whatever is stored, otherwise one that changed. */
  function Reset(ready: bool, stored: Option<StoredProjection>, last: Option<Statuses>): Option<Statuses> {
    if !ready then Some(StoredOrders(stored))
    else if stored.Some? && Some(stored.value.orders) != last then Some(stored.value.orders)
    else None
  }

  function Based(before: (Statuses, Option<Statuses>), reset: Option<Statuses>): (Statuses, Option<Statuses>) {
    (reset.GetOr(before.0), if reset.Some? then reset else before.1)
  }

  /** What becomes of statuses and projection, whether the call succeeds or fails. */
  ghost predicate Follows(before: (Statuses, Option<Statuses>), after: (Statuses, Option<Statuses>), c: Call) {
    Sound(c) && after == (Effect(before.0, c), ProjectionAfter(before.1, c))
  }

  /** A call that sends no order read only takes the projection over, if it does that. */
  lemma {:induction false} OnlyResets(before: (Statuses, Option<Statuses>), reset: Option<Statuses>)
    ensures Follows(before, Based(before, reset), Call(false, reset, [], []))
  {
  }

  /** Order reads are sent only when a validation is due, for the held symbols in order. */
  ghost predicate Attempted(pre: CacheView, client: AccountClient, interval: int, now: int, restorePositions: bool, rows: seq<RiskRow>, c: Call)
    requires interval >= 1
  {
    c.sent != [] ==> Due(pre.initialized, restorePositions, pre.lastBucket, now, interval)
                     && Requests(c.sent) <= Plan(SortedUnique(HeldSymbols(rows)), client.servesOrders, client.servesAlgoOrders)
  }

  /** A snapshot takes the projection over only when its account reads have succeeded. */
  predicate ResetsAfterHead(pre: CacheView, stored: Option<StoredProjection>, c: Call) {
    c.reset == if c.ok || c.sent != [] then Reset(pre.initialized, stored, pre.lastProjection) else None
  }

  function SnapshotIn(v: CacheView, fullSync: bool): AccountSnapshot {
    AccountSnapshot(v.hedged, v.accountInfo, v.positionRisk, OpenOrdersOf(v.orderStatuses), v.orderStatuses, v.requestWeight.1, fullSync)
  }

  /** What a call leaves behind when it succeeds. */
  ghost predicate Taken(pre: CacheView, post: CacheView, client: AccountClient, interval: int, now: int,
                        restorePositions: bool, snapshot: AccountSnapshot, head: seq<Read>, tail: seq<Read>, rows: seq<RiskRow>)
    requires interval >= 1
  {
    && Synced(pre, client, interval, now, restorePositions, WeightLimit(pre.initialized, pre.positionModeLoaded), head, tail, rows)
    && post.positionRisk == (if pre.initialized then rows else RiskFromAccount(post.accountInfo, rows))
    && post.initialized && post.positionModeLoaded
    && post.requestWeight == Counted(pre.requestWeight, (Minute(now), TotalWeight(head + tail)))
    && snapshot == SnapshotIn(post, !pre.initialized)
  }

  class LiveAccountStateCache {
    const client: AccountClient
    const interval: int
    var hedged: bool
    var positionModeLoaded: bool
    var positionRisk: seq<RiskRow>
    var orderStatuses: Statuses
    var lastProjection: Option<Statuses>
    var accountInfo: Option<AccountInfo>
    var accountInfoMinute: Option<int>
    var requestWeightMinute: Option<int>
    var requestWeightUsed: int
    var initialized: bool
    var lastBucket: Option<int>

    constructor (client: AccountClient, intervalMinutes: int)
      ensures this.client == client && interval >= 1 && interval >= intervalMinutes
      ensures !initialized && !positionModeLoaded && orderStatuses == map[]
      ensures requestWeightMinute.None? && requestWeightUsed == 0 && lastBucket.None?
    {
      this.client := client;
      interval := if intervalMinutes > 1 then intervalMinutes else 1;
      hedged, positionModeLoaded, initialized := false, false, false;
      positionRisk, orderStatuses, lastProjection := [], map[], None;
      accountInfo, accountInfoMinute, requestWeightMinute, requestWeightUsed, lastBucket := None, None, None, 0, None;
    }

    function View(): CacheView
      reads this
    {
      CacheView(hedged, positionModeLoaded, positionRisk, orderStatuses, lastProjection, accountInfo, (requestWeightMinute, requestWeightUsed),
                accountInfoMinute, initialized, lastBucket)
    }

    function Orders(): (Statuses, Option<Statuses>)
      reads this
    {
      (orderStatuses, lastProjection)
    }

    method ReplaceSymbolOrders(symbol: string, regular: Option<seq<RestOrder>>, algo: Option<seq<RestOrder>>)
      modifies this`orderStatuses
      ensures orderStatuses == Replace(Replace(old(orderStatuses), Regular, symbol, regular), Algo, symbol, algo)
    {
      if regular.Some? {
        PutOrders(Without(orderStatuses, Regular, symbol), Regular, regular.value);
      }
      if algo.Some? {
        PutOrders(Without(orderStatuses, Algo, symbol), Algo, algo.value);
      }
    }

    method PutOrders(kept: Statuses, kind: Kind, orders: seq<RestOrder>)
      modifies this`orderStatuses
      ensures orderStatuses == PutAll(kept, kind, orders)
    {
      orderStatuses := kept;
      for i := 0 to |orders|
        invariant orderStatuses == PutAll(kept, kind, orders[..i])
      {
        assert orders[..i + 1][..i] == orders[..i];
        var snapshot := SnapshotOf(kind, orders[i]);
        if snapshot.Some? {
          orderStatuses := orderStatuses[snapshot.value.0 := snapshot.value.1];
        }
      }
      assert orders[..|orders|] == orders;
    }

    method LoadPositionMode(budget: RequestWeightBudget, required: bool)
      returns (r: Result<(), AccountError>, ghost asked: bool, ghost reply: Option<Option<bool>>)
      requires budget.Valid()
      modifies this`hedged, this`positionModeLoaded, budget, client`log
      ensures asked == (!old(positionModeLoaded) && client.servesMode && old(budget.used) + 30 <= budget.limit)
      ensures budget.Valid() && budget.used == old(budget.used) + if asked then 30 else 0
      ensures client.log == old(client.log) + ModeSent(asked, reply)
      ensures r == if old(positionModeLoaded) || !client.servesMode then Ok(()) else if !asked then Err(LimitExceeded)
                   else if required && (reply.None? || reply.value.None?) then Err(PositionModeUnknown) else Ok(())
      ensures positionModeLoaded == (old(positionModeLoaded) || r.Ok?)
      ensures hedged == if r.Ok? && !old(positionModeLoaded) then asked && reply == Some(Some(true)) else old(hedged)
    {
      asked, reply := false, None;
      if positionModeLoaded {
        return Ok(()), false, None;
      }
      if !client.servesMode {
        positionModeLoaded, hedged := true, false;
        return Ok(()), false, None;
      }
      var spent := budget.Spend(30, PositionMode);
      if spent.Err? {
        return spent, false, None;
      }
      var mode := client.FetchPositionMode();
      asked, reply := true, mode;
      if required && (mode.None? || mode.value.None?) {
        return Err(PositionModeUnknown), asked, reply;
      }
      hedged := mode.Some? && mode.value == Some(true);
      positionModeLoaded := true;
      r := Ok(());
    }

    method LoadAccountInfo(now: int, budget: RequestWeightBudget, force: bool)
      returns (r: Result<(), AccountError>, ghost asked: bool, ghost reply: Option<Option<AccountInfo>>)
      requires budget.Valid()
      modifies this`accountInfo, this`accountInfoMinute, budget, client`log
      ensures asked == (Stale(force, old(accountInfoMinute), now) && client.servesAccount && old(budget.used) + 5 <= budget.limit)
      ensures budget.Valid() && budget.used == old(budget.used) + if asked then 5 else 0
      ensures client.log == old(client.log) + AccountSent(asked, reply)
      ensures r == if Stale(force, old(accountInfoMinute), now) && client.servesAccount && !asked then Err(LimitExceeded)
                   else if asked && reply.None? then Err(Raised) else Ok(())
      ensures accountInfo == if !Stale(force, old(accountInfoMinute), now) then old(accountInfo) else if asked then reply.GetOr(None) else None
      ensures accountInfoMinute == if r.Ok? then Some(Minute(now)) else old(accountInfoMinute)
    {
      asked, reply := false, None;
      if !force && accountInfoMinute == Some(Minute(now)) {
        return Ok(()), false, None;
      }
      accountInfo := None;
      if client.servesAccount {
        var spent := budget.Spend(5, AccountInformation);
        if spent.Err? {
          return spent, false, None;
        }
        var info := client.FetchAccountInfo();
        asked, reply := true, info;
        if info.None? {
          return Err(Raised), asked, reply;
        }
        accountInfo := info.value;
      }
      accountInfoMinute := Some(Minute(now));
      r := Ok(());
    }

    method ReadOrders(symbol: string, budget: RequestWeightBudget) returns (asked: bool, reply: Option<seq<RestOrder>>)
      requires budget.Valid()
      modifies budget, client`log
      ensures asked == (client.servesOrders && old(budget.used) + 1 <= budget.limit) && (!asked ==> reply.None?)
      ensures budget.Valid() && budget.used == old(budget.used) + |OrdersSent(symbol, asked, reply)|
      ensures client.log == old(client.log) + OrdersSent(symbol, asked, reply)
    {
      asked, reply := client.servesOrders && budget.CanSpend(1), None;
      if asked {
        var _ := budget.Spend(1, OpenOrders(symbol));
        reply := client.FetchOpenOrders(symbol);
      }
    }

    method ReadAlgoOrders(symbol: string, budget: RequestWeightBudget) returns (asked: bool, reply: Option<seq<RestOrder>>)
      requires budget.Valid()
      modifies budget, client`log
      ensures asked == (client.servesAlgoOrders && old(budget.used) + 1 <= budget.limit) && (!asked ==> reply.None?)
      ensures budget.Valid() && budget.used == old(budget.used) + |AlgoOrdersSent(symbol, asked, reply)|
      ensures client.log == old(client.log) + AlgoOrdersSent(symbol, asked, reply)
    {
      asked, reply := client.servesAlgoOrders && budget.CanSpend(1), None;
      if asked {
        var _ := budget.Spend(1, OpenAlgoOrders(symbol));
        reply := client.FetchOpenAlgoOrders(symbol);
      }
    }

    /** Reads one symbol's orders as far as the budget reaches; a read that fails is the last one. */
    method ReadSymbol(symbol: string, budget: RequestWeightBudget)
      returns (failed: bool, regular: Option<seq<RestOrder>>, algo: Option<seq<RestOrder>>, ghost sent: seq<Read>)
      requires budget.Valid()
      modifies budget, client`log
      ensures budget.Valid() && budget.used == old(budget.used) + |sent|
      ensures client.log == old(client.log) + sent
      ensures if failed then FailsFor(symbol, client.servesOrders, client.servesAlgoOrders, sent)
              else AnswersFor(symbol, client.servesOrders, client.servesAlgoOrders, budget.limit - old(budget.used), sent)
      ensures !failed ==> (regular.None? && algo.None? <==> sent == [])
      ensures !failed ==> Applied(orderStatuses, sent) == Replace(Replace(orderStatuses, Regular, symbol, regular), Algo, symbol, algo)
    {
      ghost var room := budget.limit - budget.used;
      algo := None;
      var asked;
      asked, regular := ReadOrders(symbol, budget);
      failed, sent := asked && regular.None?, OrdersSent(symbol, asked, regular);
      if failed {
        FirstBreaks(symbol, client.servesOrders, client.servesAlgoOrders);
      } else {
        var askedAlgo;
        askedAlgo, algo := ReadAlgoOrders(symbol, budget);
        SymbolReads(symbol, client.servesOrders, client.servesAlgoOrders, room, asked, regular, askedAlgo, algo, orderStatuses);
        Associative(old(client.log), sent, AlgoOrdersSent(symbol, askedAlgo, algo));
        failed, sent := askedAlgo && algo.None?, sent + AlgoOrdersSent(symbol, askedAlgo, algo);
      }
    }

    /** Reads one symbol's orders and puts the replies into the cache, if all came; true when anything was read. */
    method ValidateSymbol(symbol: string, budget: RequestWeightBudget) returns (r: Result<bool, AccountError>, ghost sent: seq<Read>)
      requires budget.Valid()
      modifies this`orderStatuses, budget, client`log
      ensures budget.Valid() && budget.used == old(budget.used) + |sent|
      ensures client.log == old(client.log) + sent
      ensures r.Ok? ==> orderStatuses == Applied(old(orderStatuses), sent) && r.value == (sent != [])
      ensures r.Ok? ==> AnswersFor(symbol, client.servesOrders, client.servesAlgoOrders, budget.limit - old(budget.used), sent)
      ensures r.Err? ==> r.error == Raised && orderStatuses == old(orderStatuses)
      ensures r.Err? ==> FailsFor(symbol, client.servesOrders, client.servesAlgoOrders, sent)
    {
      var failed, regular, algo;
      failed, regular, algo, sent := ReadSymbol(symbol, budget);
      if failed {
        r := Err(Raised);
      } else {
        ReplaceSymbolOrders(symbol, regular, algo);
        r := Ok(regular.Some? || algo.Some?);
      }
    }

    /** Validates the symbols in order until the budget is used up; `applied` are the reads that reached the cache. */
    method ValidateAll(symbols: seq<string>, budget: RequestWeightBudget)
      returns (r: Result<(), AccountError>, ghost sent: seq<Read>, ghost applied: seq<Read>)
      requires budget.Valid()
      modifies this`orderStatuses, budget, client`log
      ensures budget.Valid() && budget.used == old(budget.used) + |sent| && OrderReadsOnly(sent)
      ensures client.log == old(client.log) + sent
      ensures orderStatuses == Applied(old(orderStatuses), applied) && Reached(r.Ok?, sent, applied)
      ensures r.Ok? ==> Requests(sent) == Cut(Plan(symbols, client.servesOrders, client.servesAlgoOrders), budget.limit - old(budget.used))
      ensures r.Err? ==> r.error == Raised
      ensures r.Err? ==> Requests(sent) <= Plan(symbols, client.servesOrders, client.servesAlgoOrders)
    {
      sent := [];
      ghost var room := budget.limit - budget.used;
      for i := 0 to |symbols|
        invariant budget.Valid() && budget.used == old(budget.used) + |sent|
        invariant client.log == old(client.log) + sent
        invariant orderStatuses == Applied(old(orderStatuses), sent)
        invariant PassSoFar(symbols, i, client, room, sent)
      {
        var one, part := ValidateSymbol(symbols[i], budget);
        Associative(old(client.log), sent, part);
        if one.Err? {
          PassFails(symbols, i, client, room, sent, part);
          return one.PropagateFailure(), sent + part, sent;
        }
        if !one.value {
          PassEnds(symbols, i, client, room, sent);
          return Ok(()), sent, sent;
        }
        PassGoesOn(symbols, i, client, room, sent, part, old(orderStatuses));
        sent := sent + part;
      }
      PassEnds(symbols, |symbols|, client, room, sent);
      return Ok(()), sent, sent;
    }

    /** Once per interval, or when forced, validates the held symbols. */
    method ValidateHeldSymbols(symbols: seq<string>, now: int, budget: RequestWeightBudget, force: bool)
      returns (r: Result<(), AccountError>, ghost sent: seq<Read>, ghost applied: seq<Read>)
      requires budget.Valid() && interval >= 1
      modifies this`orderStatuses, this`lastBucket, budget, client`log
      ensures budget.Valid() && budget.used == old(budget.used) + TotalWeight(sent) && OrderReadsOnly(sent)
      ensures client.log == old(client.log) + sent
      ensures orderStatuses == Applied(old(orderStatuses), applied) && Reached(r.Ok?, sent, applied)
      ensures r.Ok? ==> lastBucket == Some(Bucket(now, interval))
      ensures r.Ok? ==> Requests(sent) == Validation(!Skips(old(lastBucket), now, interval, force), symbols, client, budget.limit - old(budget.used))
      ensures r.Err? ==> r.error == Raised && lastBucket == old(lastBucket) && !Skips(lastBucket, now, interval, force)
      ensures r.Err? ==> Requests(sent) <= Plan(SortedUnique(symbols), client.servesOrders, client.servesAlgoOrders)
    {
      if Skips(lastBucket, now, interval, force) {
        return Ok(()), [], [];
      }
      r, sent, applied := ValidateAll(SortedUnique(symbols), budget);
      OrderReadsWeighOne(sent);
      if r.Ok? {
        lastBucket := Some(Bucket(now, interval));
      }
    }

    /** The validation of a call that may have taken a stored projection over. */
    method ValidateFrom(ghost before: (Statuses, Option<Statuses>), ghost reset: Option<Statuses>, symbols: seq<string>, now: int,
                        budget: RequestWeightBudget, force: bool, due: bool)
      returns (r: Result<(), AccountError>, ghost call: Call)
      requires budget.Valid() && interval >= 1 && Orders() == Based(before, reset)
      modifies this`orderStatuses, this`lastBucket, budget, client`log
      ensures budget.Valid() && budget.used == old(budget.used) + TotalWeight(call.sent)
      ensures client.log == old(client.log) + call.sent
      ensures call.ok == r.Ok? && Follows(before, Orders(), call) && call.reset == reset && (r.Err? ==> call.sent != [])
      ensures r.Ok? ==> Requests(call.sent) == Validation(due && !Skips(old(lastBucket), now, interval, force), symbols, client,
                                                          budget.limit - old(budget.used))
      ensures r.Err? ==> r.error == Raised && due && !Skips(old(lastBucket), now, interval, force)
      ensures lastBucket == PassBucket(r.Ok? && due, old(lastBucket), now, interval)
      ensures r.Err? ==> Requests(call.sent) <= Plan(SortedUnique(symbols), client.servesOrders, client.servesAlgoOrders)
    {
      ghost var sent, applied := [], [];
      r := Ok(());
      if due {
        r, sent, applied := ValidateHeldSymbols(symbols, now, budget, force);
      }
      call := Call(r.Ok?, reset, sent, applied);
    }

    method ApplyStoredProjection(stored: Option<StoredProjection>, includePositions: bool, includeOrders: bool)
      modifies this`orderStatuses, this`lastProjection, this`positionRisk
      ensures orderStatuses == (if includeOrders then BaseStatuses(stored, old(lastProjection), old(orderStatuses)) else old(orderStatuses))
      ensures lastProjection == (if includeOrders && stored.Some? then Some(stored.value.orders) else old(lastProjection))
      ensures positionRisk == (if includePositions && stored.Some? then stored.value.positions else old(positionRisk))
    {
      if stored.None? {
        return;
      }
      if includeOrders && Some(stored.value.orders) != lastProjection {
        orderStatuses := stored.value.orders;
        lastProjection := Some(stored.value.orders);
      }
      if includePositions {
        positionRisk := stored.value.positions;
      }
    }

    method LoadPositionRisk(stored: Option<StoredProjection>, budget: RequestWeightBudget)
      returns (r: Result<(), AccountError>, ghost reply: Option<seq<RiskRow>>)
      requires budget.Valid() && budget.used + 5 <= budget.limit
      modifies this`positionRisk, budget, client`log
      ensures budget.Valid() && budget.used == old(budget.used) + if client.servesRisk then 5 else 0
      ensures client.log == old(client.log) + RiskSent(client.servesRisk, reply)
      ensures r == if client.servesRisk && reply.None? then Err(Raised) else Ok(())
      ensures positionRisk == if !client.servesRisk then StoredRows(stored) else reply.GetOr(old(positionRisk))
    {
      if !client.servesRisk {
        positionRisk := StoredRows(stored);
        return Ok(()), None;
      }
      var _ := budget.Spend(5, PositionRisk);
      var rows := client.FetchPositionRisk();
      if rows.None? {
        return Err(Raised), rows;
      }
      positionRisk := rows.value;
      return Ok(()), rows;
    }

    /** Reads the account's mode and information, as far as they are not known yet. */
    method LoadAccount(now: int, budget: RequestWeightBudget, required: bool) returns (r: Result<(), AccountError>, ghost sent: seq<Read>)
      requires budget.Valid() && budget.used + (if positionModeLoaded then 5 else 35) <= budget.limit
      modifies this`hedged, this`positionModeLoaded, this`accountInfo, this`accountInfoMinute, budget, client`log
      ensures budget.Valid() && budget.used == old(budget.used) + TotalWeight(sent)
      ensures client.log == old(client.log) + sent
      ensures TotalWeight(sent) <= if old(positionModeLoaded) then 5 else 35
      ensures r.Ok? ==> Requests(sent) == AccountHead(old(positionModeLoaded), old(accountInfoMinute), now, client)
      ensures r.Ok? ==> positionModeLoaded
      ensures r.Err? ==> r.error == Raised || (r.error == PositionModeUnknown && required)
    {
      ghost var asked, mode;
      r, asked, mode := LoadPositionMode(budget, required);
      sent := ModeSent(asked, mode);
      if r.Err? {
        return;
      }
      ghost var askedInfo, info;
      r, askedInfo, info := LoadAccountInfo(now, budget, false);
      JoinReads(old(client.log), sent, AccountSent(askedInfo, info));
      sent := sent + AccountSent(askedInfo, info);
    }

    /** The reads of a full sync that are not about one symbol. */
    method LoadEverything(now: int, stored: Option<StoredProjection>, budget: RequestWeightBudget, required: bool)
      returns (r: Result<(), AccountError>, ghost sent: seq<Read>)
      requires budget.Valid() && budget.used + 40 <= budget.limit
      modifies this`hedged, this`positionModeLoaded, this`accountInfo, this`accountInfoMinute, this`positionRisk, budget, client`log
      ensures budget.Valid() && budget.used == old(budget.used) + TotalWeight(sent)
      ensures client.log == old(client.log) + sent && TotalWeight(sent) <= 40
      ensures r.Ok? ==> Requests(sent) == SyncHead(old(positionModeLoaded), old(accountInfoMinute), now, client)
      ensures r.Ok? ==> positionModeLoaded
      ensures r.Err? ==> r.error == Raised || (r.error == PositionModeUnknown && required)
    {
      var account, first := LoadAccount(now, budget, required);
      if account.Err? {
        return account, first;
      }
      ghost var reply;
      r, reply := LoadPositionRisk(stored, budget);
      JoinReads(old(client.log), first, RiskSent(client.servesRisk, reply));
      sent := first + RiskSent(client.servesRisk, reply);
    }

    /** What a full sync does once the account reads are in. */
    method StartOver(now: int, stored: Option<StoredProjection>, budget: RequestWeightBudget)
      returns (r: Result<(), AccountError>, ghost call: Call)
      requires budget.Valid() && interval >= 1
      modifies this`orderStatuses, this`lastProjection, this`lastBucket, budget, client`log
      ensures budget.Valid() && budget.used == old(budget.used) + TotalWeight(call.sent)
      ensures client.log == old(client.log) + call.sent
      ensures call.ok == r.Ok? && Follows(old(Orders()), Orders(), call)
      ensures call.reset == Some(StoredOrders(stored)) && (r.Err? ==> call.sent != [])
      ensures lastBucket == PassBucket(r.Ok?, old(lastBucket), now, interval)
      ensures r.Ok? ==> Requests(call.sent) == Validation(true, HeldSymbols(positionRisk), client, budget.limit - old(budget.used))
      ensures r.Err? ==> r.error == Raised
      ensures r.Err? ==> Requests(call.sent) <= Plan(SortedUnique(HeldSymbols(positionRisk)), client.servesOrders, client.servesAlgoOrders)
    {
      orderStatuses := StoredOrders(stored);
      lastProjection := Some(StoredOrders(stored));
      r, call := ValidateFrom(old(Orders()), Some(StoredOrders(stored)), HeldSymbols(positionRisk), now, budget, true, true);
    }

    /** Starts over from the stored projection, then validates what is held. */
    method FullSync(now: int, stored: Option<StoredProjection>, budget: RequestWeightBudget, required: bool, ghost restorePositions: bool)
      returns (r: Result<(), AccountError>, ghost head: seq<Read>, ghost call: Call)
      requires budget.Valid() && budget.used + 40 <= budget.limit && interval >= 1 && !initialized
      modifies this`hedged, this`positionModeLoaded, this`accountInfo, this`accountInfoMinute, this`positionRisk,
               this`orderStatuses, this`lastProjection, this`lastBucket, this`initialized, budget, client`log
      ensures budget.Valid() && budget.used == old(budget.used) + TotalWeight(head) + TotalWeight(call.sent)
      ensures client.log == old(client.log) + (head + call.sent)
      ensures call.ok == r.Ok? && Follows(old(Orders()), Orders(), call) && ResetsAfterHead(old(View()), stored, call)
      ensures r.Ok? ==> Synced(old(View()), client, interval, now, restorePositions, budget.limit - old(budget.used), head, call.sent, positionRisk)
      ensures r.Ok? ==> initialized && positionModeLoaded
      ensures lastBucket == PassBucket(r.Ok?, old(lastBucket), now, interval)
      ensures r.Err? ==> !initialized && Attempted(old(View()), client, interval, now, restorePositions, positionRisk, call)
      ensures r.Err? ==> r.error == Raised || (r.error == PositionModeUnknown && required)
    {
      call := Call(false, None, [], []);
      r, head := LoadEverything(now, stored, budget, required);
      NothingMore(old(client.log), head);
      OnlyResets(old(Orders()), None);
      if r.Ok? {
        r, call := StartOver(now, stored, budget);
        Associative(old(client.log), head, call.sent);
        initialized := r.Ok?;
      }
    }

    /** What a tick does once the account reads are in. */
    method RestoreAndValidate(now: int, stored: Option<StoredProjection>, budget: RequestWeightBudget, restorePositions: bool)
      returns (r: Result<(), AccountError>, ghost call: Call)
      requires budget.Valid() && interval >= 1
      modifies this`positionRisk, this`orderStatuses, this`lastProjection, this`lastBucket, budget, client`log
      ensures budget.Valid() && budget.used == old(budget.used) + TotalWeight(call.sent)
      ensures client.log == old(client.log) + call.sent
      ensures call.ok == r.Ok? && Follows(old(Orders()), Orders(), call)
      ensures call.reset == Reset(true, stored, old(lastProjection)) && (r.Err? ==> call.sent != [])
      ensures lastBucket == PassBucket(r.Ok? && restorePositions, old(lastBucket), now, interval)
      ensures positionRisk == RiskFromAccount(accountInfo, OfferedRows(stored, old(positionRisk)))
      ensures r.Ok? ==> Requests(call.sent) == Validation(restorePositions && !Skips(old(lastBucket), now, interval, false), HeldSymbols(positionRisk), client,
                                                          budget.limit - old(budget.used))
      ensures r.Err? ==> r.error == Raised && restorePositions && !Skips(old(lastBucket), now, interval, false)
      ensures r.Err? ==> Requests(call.sent) <= Plan(SortedUnique(HeldSymbols(positionRisk)), client.servesOrders, client.servesAlgoOrders)
    {
      ghost var reset := Reset(true, stored, lastProjection);
      ApplyStoredProjection(stored, true, true);
      positionRisk := RiskFromAccount(accountInfo, positionRisk);
      r, call := ValidateFrom(old(Orders()), reset, HeldSymbols(positionRisk), now, budget, false, restorePositions);
    }

    /** A tick that needs no full sync: at most the account reads, then the held symbols' orders if they are due. */
    method Tick(now: int, stored: Option<StoredProjection>, budget: RequestWeightBudget, required: bool, restorePositions: bool)
      returns (r: Result<(), AccountError>, ghost head: seq<Read>, ghost call: Call)
      requires budget.Valid() && budget.used + (if positionModeLoaded then 5 else 35) <= budget.limit && interval >= 1 && initialized
      modifies this`hedged, this`positionModeLoaded, this`accountInfo, this`accountInfoMinute, this`positionRisk,
               this`orderStatuses, this`lastProjection, this`lastBucket, budget, client`log
      ensures budget.Valid() && budget.used == old(budget.used) + TotalWeight(head) + TotalWeight(call.sent)
      ensures client.log == old(client.log) + (head + call.sent)
      ensures call.ok == r.Ok? && Follows(old(Orders()), Orders(), call) && ResetsAfterHead(old(View()), stored, call)
      ensures r.Ok? ==> Synced(old(View()), client, interval, now, restorePositions, budget.limit - old(budget.used), head, call.sent, positionRisk)
      ensures r.Ok? ==> positionRisk == RiskFromAccount(accountInfo, OfferedRows(stored, old(positionRisk)))
      ensures r.Ok? ==> positionModeLoaded
      ensures lastBucket == PassBucket(r.Ok? && restorePositions, old(lastBucket), now, interval)
      ensures r.Err? ==> Attempted(old(View()), client, interval, now, restorePositions, positionRisk, call)
      ensures r.Err? ==> r.error == Raised || (r.error == PositionModeUnknown && required)
    {
      call := Call(false, None, [], []);
      r, head := LoadAccount(now, budget, required);
      NothingMore(old(client.log), head);
      OnlyResets(old(Orders()), None);
      if r.Ok? {
        r, call := RestoreAndValidate(now, stored, budget, restorePositions);
        Associative(old(client.log), head, call.sent);
      }
    }

    method BuildSnapshot(now: int, used: int, fullSync: bool) returns (snapshot: AccountSnapshot)
      modifies this`requestWeightMinute, this`requestWeightUsed
      ensures View() == old(View()).(requestWeight := Counted(old(View()).requestWeight, (Minute(now), used)))
      ensures Orders() == old(Orders())
      ensures snapshot == SnapshotIn(View(), fullSync)
    {
      if requestWeightMinute != Some(Minute(now)) {
        requestWeightMinute := Some(Minute(now));
        requestWeightUsed := 0;
      }
      requestWeightUsed := requestWeightUsed + used;
      snapshot := AccountSnapshot(hedged, accountInfo, positionRisk, OpenOrdersOf(orderStatuses), orderStatuses, requestWeightUsed, fullSync);
    }

    method ApplyControlRequests(requests: seq<ControlRequest>)
      modifies this`positionModeLoaded, this`initialized
      ensures View() == Controlled(old(View()), requests)
    {
      for i := 0 to |requests|
        invariant positionModeLoaded == (old(positionModeLoaded) && !WantsMode(requests[..i]))
        invariant initialized == (old(initialized) && !WantsSync(requests[..i]))
      {
        assert requests[..i + 1][..i] == requests[..i];
        if requests[i].PositionModeRefresh? {
          positionModeLoaded := false;
        } else if requests[i].AccountFullSync? {
          initialized := false;
        }
      }
      assert requests[..|requests|] == requests;
    }

    /** A full sync or a tick, whichever is due; `rows` are the positions whose orders a validation asks for. */
    method Sync(now: int, stored: Option<StoredProjection>, budget: RequestWeightBudget, required: bool, restorePositions: bool)
      returns (r: Result<(), AccountError>, ghost head: seq<Read>, ghost call: Call, ghost rows: seq<RiskRow>)
      requires budget.Valid() && budget.used == 0 && budget.limit == WeightLimit(initialized, positionModeLoaded) && interval >= 1
      modifies this`hedged, this`positionModeLoaded, this`accountInfo, this`accountInfoMinute, this`positionRisk,
               this`orderStatuses, this`lastProjection, this`lastBucket, this`initialized, budget, client`log
      ensures budget.Valid() && budget.used == TotalWeight(head) + TotalWeight(call.sent)
      ensures client.log == old(client.log) + (head + call.sent)
      ensures call.ok == r.Ok? && Follows(old(Orders()), Orders(), call) && ResetsAfterHead(old(View()), stored, call)
      ensures r.Ok? ==> Synced(old(View()), client, interval, now, restorePositions, budget.limit, head, call.sent, rows)
      ensures r.Ok? ==> initialized && positionModeLoaded && positionRisk == if old(initialized) then rows else RiskFromAccount(accountInfo, rows)
      ensures r.Ok? && old(initialized) ==> rows == RiskFromAccount(accountInfo, OfferedRows(stored, old(positionRisk)))
      ensures lastBucket == PassBucket(r.Ok? && (restorePositions || !old(initialized)), old(lastBucket), now, interval)
      ensures r.Err? ==> initialized == old(initialized) && Attempted(old(View()), client, interval, now, restorePositions, rows, call)
      ensures r.Err? ==> r.error == Raised || (r.error == PositionModeUnknown && required)
    {
      if initialized {
        r, head, call := Tick(now, stored, budget, required, restorePositions);
        rows := positionRisk;
      } else {
        r, head, call := FullSync(now, stored, budget, required, restorePositions);
        rows := positionRisk;
        if r.Ok? {
          positionRisk := RiskFromAccount(accountInfo, positionRisk);
        }
      }
    }

    method TakeSnapshot(now: int, stored: Option<StoredProjection>, restorePositions: bool, submitOrders: bool)
      returns (r: Result<AccountSnapshot, AccountError>, ghost head: seq<Read>, ghost call: Call, ghost rows: seq<RiskRow>)
      requires interval >= 1
      modifies this, client`log
      ensures client.log == old(client.log) + (head + call.sent)
      ensures TotalWeight(head + call.sent) <= WeightLimit(old(initialized), old(positionModeLoaded))
      ensures call.ok == r.Ok? && Follows(old(Orders()), Orders(), call) && ResetsAfterHead(old(View()), stored, call)
      ensures r.Ok? ==> Taken(old(View()), View(), client, interval, now, restorePositions, r.value, head, call.sent, rows)
      ensures r.Ok? && old(initialized) ==> rows == RiskFromAccount(accountInfo, OfferedRows(stored, old(positionRisk)))
      ensures lastBucket == PassBucket(r.Ok? && (restorePositions || !old(initialized)), old(lastBucket), now, interval)
      ensures r.Err? ==> View().requestWeight == old(View()).requestWeight && initialized == old(initialized)
      ensures r.Err? ==> Attempted(old(View()), client, interval, now, restorePositions, rows, call)
      ensures r.Err? ==> r.error == Raised || (r.error == PositionModeUnknown && submitOrders)
    {
      var fullSync := !initialized;
      var budget := new RequestWeightBudget(WeightLimit(initialized, positionModeLoaded));
      var done;
      done, head, call, rows := Sync(now, stored, budget, submitOrders, restorePositions);
      TotalWeightConcat(head, call.sent);
      if done.Ok? {
        var snapshot := BuildSnapshot(now, budget.used, fullSync);
        r := Ok(snapshot);
      } else {
        r := done.PropagateFailure();
      }
    }

    /** One tick's view of the account. No call ever runs out of budget: it may only fail because a read failed, or because
        the position mode that a submitting run needs cannot be told. Control requests are cleared only by a call that succeeds.
        What it does to the order statuses is a sound call, also when it fails. */
    method Snapshot(now: int, stored: Option<StoredProjection>, restorePositions: bool, submitOrders: bool, requests: seq<ControlRequest>)
      returns (r: Result<AccountSnapshot, AccountError>, cleared: seq<ControlRequest>,
               ghost head: seq<Read>, ghost call: Call, ghost rows: seq<RiskRow>)
      requires interval >= 1
      modifies this, client`log
      ensures client.log == old(client.log) + (head + call.sent)
      ensures var pre := Controlled(old(View()), requests);
              && TotalWeight(head + call.sent) <= WeightLimit(pre.initialized, pre.positionModeLoaded)
              && call.ok == r.Ok? && Follows(old(Orders()), Orders(), call) && ResetsAfterHead(pre, stored, call)
              && (r.Ok? ==> Taken(pre, View(), client, interval, now, restorePositions, r.value, head, call.sent, rows))
              && (r.Ok? && pre.initialized ==> rows == RiskFromAccount(accountInfo, OfferedRows(stored, pre.positionRisk)))
              && lastBucket == PassBucket(r.Ok? && (restorePositions || !pre.initialized), pre.lastBucket, now, interval)
              && (r.Err? ==> View().requestWeight == pre.requestWeight && initialized == pre.initialized
                             && Attempted(pre, client, interval, now, restorePositions, rows, call))
      ensures r.Err? ==> r.error == Raised || (r.error == PositionModeUnknown && submitOrders)
      ensures cleared == if r.Ok? then Filter(requests, Clearable) else []
    {
      ApplyControlRequests(requests);
      r, head, call, rows := TakeSnapshot(now, stored, restorePositions, submitOrders);
      cleared := if r.Ok? then Filter(requests, Clearable) else [];
    }

    /** The projection, then the account if it is asked for. */
    method RefreshAccount(now: int, stored: Option<StoredProjection>, refreshAccount: bool, budget: RequestWeightBudget)
      returns (r: Result<(), AccountError>, ghost sent: seq<Read>)
      requires budget.Valid() && budget.used + 5 <= budget.limit
      modifies this`accountInfo, this`accountInfoMinute, this`positionRisk, this`orderStatuses, this`lastProjection, budget, client`log
      ensures budget.Valid() && budget.used == old(budget.used) + TotalWeight(sent)
      ensures client.log == old(client.log) + sent
      ensures Requests(sent) == Asked(refreshAccount && client.servesAccount, AccountInformation)
      ensures Orders() == Based(old(Orders()), Reset(true, stored, old(lastProjection)))
      ensures r.Ok? || !refreshAccount ==> positionRisk == RefreshedRows(refreshAccount, accountInfo, stored, old(positionRisk))
      ensures !refreshAccount ==> accountInfo == old(accountInfo)
      ensures r.Err? ==> r.error == Raised
    {
      ApplyStoredProjection(stored, true, true);
      ghost var asked, reply := false, None;
      r := Ok(());
      if refreshAccount {
        r, asked, reply := LoadAccountInfo(now, budget, true);
        if r.Ok? {
          positionRisk := RiskFromAccount(accountInfo, positionRisk);
        }
      }
      sent := AccountSent(asked, reply);
    }

    method Refresh(symbols: seq<string>, now: int, stored: Option<StoredProjection>, refreshAccount: bool, budget: RequestWeightBudget)
      returns (r: Result<(), AccountError>, ghost head: seq<Read>, ghost call: Call)
      requires budget.Valid() && budget.used == 0 && budget.limit >= 5 && interval >= 1
      modifies this`accountInfo, this`accountInfoMinute, this`positionRisk, this`orderStatuses, this`lastProjection, this`lastBucket, budget, client`log
      ensures budget.Valid() && budget.used == TotalWeight(head) + TotalWeight(call.sent)
      ensures client.log == old(client.log) + (head + call.sent)
      ensures Requests(head) == Asked(refreshAccount && client.servesAccount, AccountInformation)
      ensures call.ok == r.Ok? && Follows(old(Orders()), Orders(), call) && call.reset == Reset(true, stored, old(lastProjection))
      ensures r.Ok? ==> Requests(call.sent) == Validation(true, symbols, client, budget.limit - TotalWeight(head))
      ensures r.Ok? || !refreshAccount ==> positionRisk == RefreshedRows(refreshAccount, accountInfo, stored, old(positionRisk))
      ensures !refreshAccount ==> accountInfo == old(accountInfo)
      ensures lastBucket == PassBucket(r.Ok?, old(lastBucket), now, interval)
      ensures r.Err? ==> r.error == Raised
    {
      call := Call(false, Reset(true, stored, lastProjection), [], []);
      r, head := RefreshAccount(now, stored, refreshAccount, budget);
      OnlyResets(old(Orders()), call.reset);
      NothingMore(old(client.log), head);
      if r.Ok? {
        r, call := ValidateFrom(old(Orders()), call.reset, symbols, now, budget, true, true);
        Associative(old(client.log), head, call.sent);
      }
    }

    /** A view for the symbols that a decision touches, with an elevated budget. */
    method RefreshSymbols(symbols: seq<string>, now: int, stored: Option<StoredProjection>, refreshAccount: bool)
      returns (r: Result<AccountSnapshot, AccountError>, ghost head: seq<Read>, ghost call: Call)
      requires interval >= 1
      modifies this, client`log
      ensures client.log == old(client.log) + (head + call.sent) && TotalWeight(head + call.sent) <= ELEVATED_REQUEST_WEIGHT_LIMIT
      ensures Requests(head) == Asked(refreshAccount && client.servesAccount, AccountInformation)
      ensures call.ok == r.Ok? && Follows(old(Orders()), Orders(), call) && call.reset == Reset(true, stored, old(lastProjection))
      ensures r.Ok? ==> Requests(call.sent) == Validation(true, symbols, client, ELEVATED_REQUEST_WEIGHT_LIMIT - TotalWeight(head))
      ensures r.Ok? ==> View().requestWeight == Counted(old(View()).requestWeight, (Minute(now), TotalWeight(head + call.sent)))
      ensures r.Ok? ==> r.value == SnapshotIn(View(), false)
      ensures r.Ok? || !refreshAccount ==> positionRisk == RefreshedRows(refreshAccount, accountInfo, stored, old(positionRisk))
      ensures !refreshAccount ==> accountInfo == old(accountInfo)
      ensures lastBucket == PassBucket(r.Ok?, old(lastBucket), now, interval)
      ensures r.Err? ==> r.error == Raised && View().requestWeight == old(View()).requestWeight
      ensures initialized == old(initialized) && positionModeLoaded == old(positionModeLoaded)
    {
      var budget := new RequestWeightBudget(ELEVATED_REQUEST_WEIGHT_LIMIT);
      var done;
      done, head, call := Refresh(symbols, now, stored, refreshAccount, budget);
      TotalWeightConcat(head, call.sent);
      if done.Ok? {
        var snapshot := BuildSnapshot(now, budget.used, false);
        r := Ok(snapshot);
      } else {
        r := done.PropagateFailure();
      }
    }
  }
}
