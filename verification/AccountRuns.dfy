/** What runs of cache calls guarantee: exact spending, exact weight reports, and agreement with the exchange's replies. */
module AccountRuns {
  import opened Common
  import opened Ordering
  import opened OrderSnapshots
  import opened AccountReads
  import opened OrderCache
  import opened AccountCache

  // ----- spending -----

  /** A pass over n distinct symbols with R units left spends exactly min(2n, R), when both lists are served. */
  lemma {:induction false} PassSpends(symbols: seq<string>, client: AccountClient, room: nat)
    ensures var each := (if client.servesOrders then 1 else 0) + (if client.servesAlgoOrders then 1 else 0);
            |Validation(true, symbols, client, room)| == Min(|SortedUnique(symbols)| * each, room)
  {
    PlanLength(SortedUnique(symbols), client.servesOrders, client.servesAlgoOrders);
  }

  /** The i-th symbol in order gets its two reads at places 2i and 2i + 1, so the budget cuts the tail of the list. */
  lemma {:induction false} PlanAt(symbols: seq<string>, i: nat)
    requires i < |symbols|
    ensures |Plan(symbols, true, true)| == 2 * |symbols|
    ensures Plan(symbols, true, true)[2 * i] == OpenOrders(symbols[i])
    ensures Plan(symbols, true, true)[2 * i + 1] == OpenAlgoOrders(symbols[i])
  {
    PlanLength(symbols, true, true);
    var n := |symbols| - 1;
    PlanLength(symbols[..n], true, true);
    if i < n {
      PlanAt(symbols[..n], i);
    }
  }

  /** With both lists served, a symbol's regular orders are read exactly when the budget reaches place 2i, and its algo
      orders exactly when it reaches place 2i + 1. */
  lemma {:induction false} WhoIsValidated(symbols: seq<string>, client: AccountClient, room: nat, i: nat)
    requires client.servesOrders && client.servesAlgoOrders && i < |SortedUnique(symbols)|
    ensures OpenOrders(SortedUnique(symbols)[i]) in Validation(true, symbols, client, room) <==> 2 * i < room
    ensures OpenAlgoOrders(SortedUnique(symbols)[i]) in Validation(true, symbols, client, room) <==> 2 * i + 1 < room
  {
    var list := SortedUnique(symbols);
    SortedUniqueSorts(symbols);
    PlanAt(list, i);
    var asked := Validation(true, symbols, client, room);
    forall k | 0 <= k < |asked| ensures (asked[k] == OpenOrders(list[i]) ==> k == 2 * i) && (asked[k] == OpenAlgoOrders(list[i]) ==> k == 2 * i + 1) {
      PlanAt(list, k / 2);
      OnlyAt(list, i, k / 2);
    }
    if 2 * i < room {
      assert asked[2 * i] == OpenOrders(list[i]);
    }
    if 2 * i + 1 < room {
      assert asked[2 * i + 1] == OpenAlgoOrders(list[i]);
    }
  }

  lemma {:induction false} OnlyAt(list: seq<string>, i: nat, j: nat)
    requires Increasing(list) && i < |list| && j < |list|
    ensures list[i] == list[j] <==> i == j
  {
    LessTotal(list[i], list[j]);
  }

  // ----- reporting -----

  /** The counter after a run of completed calls, each with its minute and weight. */
  function CounterAfter(calls: seq<(int, int)>): (Option<int>, int) {
    if calls == [] then (None, 0) else Counted(CounterAfter(calls[..|calls| - 1]), calls[|calls| - 1])
  }

  function WeightIn(calls: seq<(int, int)>, minute: int): int {
    if calls == [] then 0
    else WeightIn(calls[..|calls| - 1], minute) + if calls[|calls| - 1].0 == minute then calls[|calls| - 1].1 else 0
  }

  predicate ClockMovesOn(calls: seq<(int, int)>) {
    forall i, j :: 0 <= i < j < |calls| ==> calls[i].0 <= calls[j].0
  }

  /** The reported weight is the sum over all completed calls of the current minute. */
  lemma {:induction false} ReportIsMinuteSum(calls: seq<(int, int)>)
    requires calls != [] && ClockMovesOn(calls)
    ensures var minute := calls[|calls| - 1].0;
            CounterAfter(calls) == (Some(minute), WeightIn(calls, minute))
  {
    var n := |calls| - 1;
    if n > 0 {
      assert calls[..n][n - 1] == calls[n - 1];
      ReportIsMinuteSum(calls[..n]);
      if calls[n - 1].0 < calls[n].0 {
        NothingLater(calls[..n], calls[n].0);
      }
    }
  }

  lemma {:induction false} NothingLater(calls: seq<(int, int)>, minute: int)
    requires ClockMovesOn(calls)
    requires calls != [] ==> calls[|calls| - 1].0 < minute
    ensures WeightIn(calls, minute) == 0
  {
    if calls == [] {
    } else {
      NothingLater(calls[..|calls| - 1], minute);
    }
  }

  // ----- minutes, intervals and limits -----

  lemma {:induction false} DivisionBounds(x: int, d: int)
    requires d >= 1
    ensures d * (x / d) <= x < d * (x / d) + d
  {
  }

  lemma {:induction false} QuotientIs(x: int, d: int, k: int)
    requires d >= 1 && d * k <= x < d * k + d
    ensures x / d == k
  {
    DivisionBounds(x, d);
    if x / d < k {
      NextMultiple(d, x / d, k);
    } else if k < x / d {
      NextMultiple(d, k, x / d);
    }
  }

  lemma {:induction false} NextMultiple(d: int, a: int, b: int)
    requires d >= 1 && a < b
    ensures d * a + d <= d * b
    decreases b - a
  {
    if a + 1 < b {
      NextMultiple(d, a, b - 1);
    }
  }

  /** Two times are in one minute exactly when no full minute of the clock lies between them. */
  lemma {:induction false} MinuteExactly(now: int, minute: int)
    ensures Minute(now) == minute <==> 60 * minute <= now < 60 * minute + 60
  {
  }

  /** The time lies in the k-th interval of the clock. */
  predicate InInterval(now: int, k: int, minutes: int) { (60 * minutes) * k <= now < (60 * minutes) * k + 60 * minutes }

  lemma {:induction false} BucketExactly(now: int, minutes: int, k: int)
    requires minutes >= 1
    ensures Bucket(now, minutes) == k <==> InInterval(now, k, minutes)
  {
    DivisionBounds(now, 60 * minutes);
    if InInterval(now, k, minutes) {
      QuotientIs(now, 60 * minutes, k);
    }
  }

  /** A plain tick may spend 18, which with the ticker read of 2 makes 20; only a sync or an unknown position mode allows 150. */
  lemma {:induction false} PlainTickMaySpend18(initialized: bool, modeLoaded: bool)
    ensures WeightLimit(initialized, modeLoaded) == if initialized && modeLoaded then 20 - 2 else 150
  {
  }

  /** Information that was read for a minute is read again exactly when forced, or in another minute of the clock. */
  lemma {:induction false} StaleExactly(force: bool, last: int, now: int)
    ensures Stale(force, Some(Minute(last)), now)
       <==> force || !exists k :: 60 * k <= last < 60 * k + 60 && 60 * k <= now < 60 * k + 60
    ensures Stale(force, None, now)
  {
    MinuteExactly(last, Minute(last));
    if k :| 60 * k <= last < 60 * k + 60 && 60 * k <= now < 60 * k + 60 {
      MinuteExactly(last, k);
      MinuteExactly(now, k);
    } else {
      MinuteExactly(now, Minute(last));
    }
  }

  /** The rows of the account information: those of one-way and long positions that name a symbol, in order. */
  lemma {:induction false} RowsGrow(positions: seq<AccountRow>, p: AccountRow)
    ensures RowsOf([]) == []
    ensures RowsOf(positions + [p])
         == RowsOf(positions) + if (p.side == Both || p.side == Long) && p.symbol != "" then [RiskRow(p.symbol, p.amount)] else []
  {
    assert (positions + [p])[..|positions|] == positions;
  }

  /** Only information that lists positions replaces the rows at hand; a refresh asks for it only when told to. What is stored
      replaces them when there is a stored state, and a sync without a risk read starts from it. */
  lemma {:induction false} RiskExactly(info: Option<AccountInfo>, fallback: seq<RiskRow>, stored: Option<StoredProjection>)
    ensures stored.Some? ==> OfferedRows(stored, fallback) == StoredRows(stored) == stored.value.positions
    ensures stored.None? ==> OfferedRows(stored, fallback) == fallback && StoredRows(stored) == []
    ensures RefreshedRows(false, info, stored, fallback) == OfferedRows(stored, fallback)
    ensures RefreshedRows(true, info, stored, fallback) == RiskFromAccount(info, OfferedRows(stored, fallback))
    ensures info.Some? && info.value.positions.Some? ==> RiskFromAccount(info, fallback) == RowsOf(info.value.positions.value)
    ensures info.None? || info.value.positions.None? ==> RiskFromAccount(info, fallback) == fallback
  {
  }

  /** The account reads of a tick or a sync: the position mode while it is not known, the account information when it is not of
      this minute, the position risk for a sync, each at most once, in this order, and only what is served. */
  lemma {:induction false} HeadExactly(ready: bool, modeLoaded: bool, last: Option<int>, now: int, client: AccountClient)
    ensures var infoMinute := if last.None? then None else Some(Minute(last.value));
            var sameMinute := last.Some? && exists k :: 60 * k <= last.value < 60 * k + 60 && 60 * k <= now < 60 * k + 60;
            HeadOf(ready, modeLoaded, infoMinute, now, client)
            == (if client.servesMode && !modeLoaded then [PositionMode] else [])
               + (if client.servesAccount && !sameMinute then [AccountInformation] else [])
               + (if client.servesRisk && !ready then [PositionRisk] else [])
  {
    if last.Some? {
      StaleExactly(false, last.value, now);
    }
  }

  /** A stored projection takes over exactly at a sync, or when it is not the one that was taken over last; then the statuses
      are its orders and what was read, else what was there and what was read. */
  lemma {:induction false} ProjectionTakesOver(before: (Statuses, Option<Statuses>), after: (Statuses, Option<Statuses>), ready: bool,
                                               stored: Option<StoredProjection>, c: Call)
    requires Follows(before, after, c) && c.reset == Reset(ready, stored, before.1)
    ensures stored.Some? ==> after.1 == Some(stored.value.orders)
    ensures stored.Some? && (!ready || before.1 != Some(stored.value.orders)) ==> after.0 == Applied(stored.value.orders, c.applied)
    ensures ready && (stored.None? || before.1 == Some(stored.value.orders)) ==> after == (Applied(before.0, c.applied), before.1)
    ensures !ready && stored.None? ==> after.0 == Applied(map[], c.applied)
  {
  }

  /** A control request takes effect wherever it stands among those that wait. */
  lemma {:induction false} ControlsExactly(v: CacheView, requests: seq<ControlRequest>)
    ensures Controlled(v, requests) == v.(positionModeLoaded := Controlled(v, requests).positionModeLoaded, initialized := Controlled(v, requests).initialized)
    ensures Controlled(v, requests).positionModeLoaded <==> v.positionModeLoaded && forall i | 0 <= i < |requests| :: !requests[i].PositionModeRefresh?
    ensures Controlled(v, requests).initialized <==> v.initialized && forall i | 0 <= i < |requests| :: !requests[i].AccountFullSync?
  {
    if requests == [] {
    } else {
      var n := |requests| - 1;
      ControlsExactly(v, requests[..n]);
      assert forall i | 0 <= i < n :: requests[..n][i] == requests[i];
    }
  }

  // ----- when held symbols are validated -----

  /** One call as a validation sees it: whether one was wanted, whether it must not be skipped, whether the call succeeded,
      whether a pass was made, and what it asked for. */
  datatype Turn = Turn(now: int, wanted: bool, forced: bool, ok: bool, passed: bool, symbols: seq<string>, room: int, asked: seq<Request>)

  predicate TurnFits(before: Option<int>, t: Turn, interval: int, client: AccountClient)
    requires interval >= 1
  {
    && (t.forced ==> t.wanted) && t.room >= 0
    && (t.passed <==> t.wanted && !Skips(before, t.now, interval, t.forced))
    && (t.ok ==> t.asked == Validation(t.passed, t.symbols, client, t.room))
  }

  function BucketAfter(before: Option<int>, turns: seq<Turn>, interval: int): Option<int>
    requires interval >= 1
  {
    if turns == [] then before
    else
      var n := |turns| - 1;
      PassBucket(turns[n].ok && turns[n].wanted, BucketAfter(before, turns[..n], interval), turns[n].now, interval)
  }

  predicate TurnsFit(before: Option<int>, turns: seq<Turn>, interval: int, client: AccountClient)
    requires interval >= 1
  {
    turns == []
    || (var n := |turns| - 1;
        TurnsFit(before, turns[..n], interval, client) && TurnFits(BucketAfter(before, turns[..n], interval), turns[n], interval, client))
  }

  /** When the last completed pass was made. */
  function LastPass(turns: seq<Turn>): Option<int> {
    if turns == [] then None
    else
      var last := turns[|turns| - 1];
      if last.ok && last.passed then Some(last.now) else LastPass(turns[..|turns| - 1])
  }

  lemma {:induction false} BucketIsOfLastPass(turns: seq<Turn>, interval: int, client: AccountClient)
    requires interval >= 1 && TurnsFit(None, turns, interval, client)
    ensures BucketAfter(None, turns, interval) == if LastPass(turns).None? then None else Some(Bucket(LastPass(turns).value, interval))
  {
    if turns == [] {
    } else {
      BucketIsOfLastPass(turns[..|turns| - 1], interval, client);
    }
  }

  lemma {:induction false} FitsAt(turns: seq<Turn>, i: nat, interval: int, client: AccountClient)
    requires interval >= 1 && TurnsFit(None, turns, interval, client) && i < |turns|
    ensures TurnsFit(None, turns[..i], interval, client) && TurnFits(BucketAfter(None, turns[..i], interval), turns[i], interval, client)
  {
    var n := |turns| - 1;
    if i < n {
      FitsAt(turns[..n], i, interval, client);
      assert turns[..n][..i] == turns[..i];
    }
  }

  /** Exactly when a wanted validation is skipped: it is not forced, and the last completed pass was made in the same interval
      of the clock. */
  lemma {:induction false} SkippedExactly(turns: seq<Turn>, i: nat, interval: int, client: AccountClient)
    requires interval >= 1 && TurnsFit(None, turns, interval, client) && i < |turns| && turns[i].wanted
    ensures !turns[i].passed
       <==> !turns[i].forced && LastPass(turns[..i]).Some?
            && exists k :: InInterval(turns[i].now, k, interval) && InInterval(LastPass(turns[..i]).value, k, interval)
  {
    FitsAt(turns, i, interval, client);
    BucketIsOfLastPass(turns[..i], interval, client);
    BucketExactly(turns[i].now, interval, Bucket(turns[i].now, interval));
    if LastPass(turns[..i]).Some? {
      var last := LastPass(turns[..i]).value;
      BucketExactly(last, interval, Bucket(last, interval));
      if k :| InInterval(turns[i].now, k, interval) && InInterval(last, k, interval) {
        BucketExactly(turns[i].now, interval, k);
        BucketExactly(last, interval, k);
      }
    }
  }

  /** Held symbols are validated again: a call that wants it and succeeds, an interval or more after the last completed pass,
      asks for two reads of every symbol, as far as its budget reaches. */
  lemma {:induction false} ValidatedAgain(turns: seq<Turn>, i: nat, interval: int, client: AccountClient)
    requires interval >= 1 && TurnsFit(None, turns, interval, client) && i < |turns| && turns[i].wanted && turns[i].ok
    requires LastPass(turns[..i]).Some? ==> turns[i].now - LastPass(turns[..i]).value >= 60 * interval
    ensures turns[i].passed && turns[i].room >= 0
    ensures turns[i].asked == Cut(Plan(SortedUnique(turns[i].symbols), client.servesOrders, client.servesAlgoOrders), turns[i].room)
  {
    FitsAt(turns, i, interval, client);
    SkippedExactly(turns, i, interval, client);
  }

  lemma {:induction false} LastPassIsLater(turns: seq<Turn>, i: nat)
    requires i < |turns| && turns[i].ok && turns[i].passed
    requires forall a, b :: 0 <= a < b < |turns| ==> turns[a].now <= turns[b].now
    ensures LastPass(turns).Some? && turns[i].now <= LastPass(turns).value <= turns[|turns| - 1].now
  {
    var n := |turns| - 1;
    if !(turns[n].ok && turns[n].passed) {
      assert i < n;
      LastPassIsLater(turns[..n], i);
    }
  }

  /** And not too often: while the clock does not go back, no pass is made unforced in an interval of the clock in which one
      has been completed. */
  lemma {:induction false} OncePerInterval(turns: seq<Turn>, i: nat, j: nat, interval: int, client: AccountClient, k: int)
    requires interval >= 1 && TurnsFit(None, turns, interval, client) && i < j < |turns|
    requires forall a, b :: 0 <= a < b < |turns| ==> turns[a].now <= turns[b].now
    requires turns[i].ok && turns[i].passed && turns[j].passed && !turns[j].forced
    ensures !(InInterval(turns[i].now, k, interval) && InInterval(turns[j].now, k, interval))
  {
    FitsAt(turns, j, interval, client);
    LastPassIsLater(turns[..j], i);
    SkippedExactly(turns, j, interval, client);
    assert turns[..j][j - 1] == turns[j - 1];
  }

  // ----- agreement with the exchange -----

  function After(st: Statuses, calls: seq<Call>): Statuses {
    if calls == [] then st else Effect(After(st, calls[..|calls| - 1]), calls[|calls| - 1])
  }

  lemma {:induction false} AfterConcat(st: Statuses, a: seq<Call>, b: seq<Call>)
    ensures After(st, a + b) == After(After(st, a), b)
  {
    if b == [] {
      assert a + b == a;
    } else {
      var n := |b| - 1;
      assert (a + b)[..|a + b| - 1] == a + b[..n];
      AfterConcat(st, a, b[..n]);
    }
  }

  /** The replies that the calls heard: all, save the regular ones that were broken off. */
  function HeardIn(calls: seq<Call>): seq<Read> {
    if calls == [] then [] else HeardIn(calls[..|calls| - 1]) + Heard(calls[|calls| - 1].sent)
  }

  ghost predicate AllSound(calls: seq<Call>) {
    forall i | 0 <= i < |calls| :: Sound(calls[i])
  }

  /** Only the first call takes a stored projection over. */
  ghost predicate OneBase(calls: seq<Call>) {
    forall i | 1 <= i < |calls| :: calls[i].reset.None?
  }

  function Base(st: Statuses, calls: seq<Call>): Statuses { if calls == [] then st else calls[0].reset.GetOr(st) }

  /** The statuses are what the replies say, over any run of calls, failed ones included. */
  lemma {:induction false} CacheIsWhatWasHeard(st: Statuses, calls: seq<Call>)
    requires AllSound(calls) && OneBase(calls)
    ensures After(st, calls) == Applied(Base(st, calls), HeardIn(calls))
  {
    if calls == [] {
    } else {
      var n := |calls| - 1;
      CacheIsWhatWasHeard(st, calls[..n]);
      AppliesWhatIsHeard(calls[n]);
      AppliedConcat(Base(st, calls), HeardIn(calls[..n]), Heard(calls[n].sent));
    }
  }

  lemma {:induction false} LastIsSomeOrder(kind: Kind, orders: seq<RestOrder>, key: string) returns (o: RestOrder)
    requires LastWithKey(kind, orders, key).Some?
    ensures o in orders && SnapshotOf(kind, o) == Some((key, LastWithKey(kind, orders, key).value))
    ensures Active(LastWithKey(kind, orders, key).value.status)
  {
    var n := |orders| - 1;
    var last := SnapshotOf(kind, orders[n]);
    if last.Some? && last.value.0 == key {
      o := orders[n];
    } else {
      o := LastIsSomeOrder(kind, orders[..n], key);
    }
  }

  /** The promise of the cache. Since the last time a stored projection was taken over, whatever other symbols were read in
      between and whichever calls failed, the open orders it offers for a symbol are exactly the active orders of the last
      reply it heard for that symbol. Each parses back to the key and the snapshot that the reply gave, exactly unless it is
      a regular order whose client id is the empty text. */
  lemma {:induction false} CacheAgreesWithExchange(st: Statuses, calls: seq<Call>, i: nat, kind: Kind, symbol: string, key: string)
    requires AllSound(calls) && OneBase(calls)
    requires i < |HeardIn(calls)| && Answers(HeardIn(calls)[i], kind, symbol)
    requires forall j | i < j < |HeardIn(calls)| :: !Answers(HeardIn(calls)[j], kind, symbol)
    requires forall j | 0 <= j < |HeardIn(calls)| :: InScope(HeardIn(calls)[j])
    requires OwnKey(HeardIn(calls), symbol, key)
    ensures var offered := OpenOrdersOf(After(st, calls));
            var reply := LastWithKey(kind, HeardIn(calls)[i].orders.value, key);
            && (reply.Some? <==> key in offered && IsAlgoKey(key) == (kind == Algo) && offered[key].symbol == Some(symbol))
            && (reply.Some? ==> (SnapshotOf(kind, offered[key]) == Some((key, reply.value)) <==> kind == Algo || reply.value.clientOrderId != Some("")))
  {
    var replies := HeardIn(calls);
    CacheIsWhatWasHeard(st, calls);
    PublishesLastReply(Base(st, calls), replies, i, kind, symbol, key);
    var reply := LastWithKey(kind, replies[i].orders.value, key);
    if reply.Some? {
      var o := LastIsSomeOrder(kind, replies[i].orders.value, key);
      LastInScope(kind, symbol, replies[i].orders.value, key);
      if kind == Regular {
        ReadRegularRoundTrip(o);
      } else {
        ReadAlgoRoundTrip(o);
      }
    }
  }

  /** A regular reply that is broken off never reaches the cache: the call fails and the symbol keeps its older orders. */
  lemma {:induction false} BrokenOffIsNotHeard(c: Call, before: seq<Read>, regular: Read, algo: Read)
    requires Sound(c) && c.sent == before + [regular, algo] && BrokenOff([regular, algo])
    ensures !c.ok && c.applied == before
  {
    var m := |c.applied|;
    assert c.sent[|before| + 1] == algo && c.sent[|before|] == regular;
    assert !c.ok;
    var lost := c.sent[m..];
    assert c.sent == c.applied + lost;
    assert m != |before| + 1;
    assert before == c.applied;
  }

  // ----- a cache in use -----

  datatype Use =
    | ForTick(now: int, stored: Option<StoredProjection>, restorePositions: bool, submitOrders: bool, requests: seq<ControlRequest>)
    | ForSymbols(symbols: seq<string>, now: int, stored: Option<StoredProjection>, refreshAccount: bool)

  function Wire(heads: seq<seq<Read>>, calls: seq<Call>): seq<Read>
    requires |heads| == |calls|
  {
    if calls == [] then []
    else var n := |calls| - 1; Wire(heads[..n], calls[..n]) + (heads[n] + calls[n].sent)
  }

  lemma {:induction false} WeightIsNonNegative(sent: seq<Read>)
    ensures TotalWeight(sent) >= 0
  {
    if sent == [] {
    } else {
      WeightIsNonNegative(sent[..|sent| - 1]);
    }
  }

  /** A turn is that of a use: a tick wants a validation when positions are restored, and must not skip it when it syncs; a
      refresh always wants one. */
  ghost predicate TurnIsOf(t: Turn, use: Use, initialized: bool, rows: seq<RiskRow>) {
    match use
    case ForTick(now, _, restorePositions, _, requests) =>
      var ready := Ready(initialized, requests);
      t.now == now && t.wanted == (restorePositions || !ready) && t.forced == !ready && (ready && t.ok ==> t.symbols == HeldSymbols(rows))
    case ForSymbols(symbols, now, _, _) => t.now == now && t.wanted && t.forced && t.symbols == symbols
  }

  method UseForTick(cache: LiveAccountStateCache, use: Use) returns (ghost head: seq<Read>, ghost call: Call, ghost turn: Turn)
    requires cache.interval >= 1 && use.ForTick?
    modifies cache, cache.client`log
    ensures cache.client.log == old(cache.client.log) + (head + call.sent)
    ensures Sound(call) && cache.orderStatuses == Effect(old(cache.orderStatuses), call)
    ensures turn.ok == call.ok && turn.asked == Requests(call.sent) && TurnIsOf(turn, use, old(cache.initialized), cache.positionRisk)
    ensures TurnFits(old(cache.lastBucket), turn, cache.interval, cache.client)
    ensures cache.lastBucket == PassBucket(turn.ok && turn.wanted, old(cache.lastBucket), turn.now, cache.interval)
  {
    ghost var pre := Controlled(cache.View(), use.requests);
    var _, _, h, c, rows := cache.Snapshot(use.now, use.stored, use.restorePositions, use.submitOrders, use.requests);
    head, call := h, c;
    TotalWeightConcat(head, call.sent);
    WeightIsNonNegative(call.sent);
    var wanted := use.restorePositions || !pre.initialized;
    turn := Turn(use.now, wanted, !pre.initialized, call.ok, wanted && !Skips(pre.lastBucket, use.now, cache.interval, !pre.initialized),
                 HeldSymbols(rows), WeightLimit(pre.initialized, pre.positionModeLoaded) - TotalWeight(head), Requests(call.sent));
  }

  method UseForSymbols(cache: LiveAccountStateCache, use: Use) returns (ghost head: seq<Read>, ghost call: Call, ghost turn: Turn)
    requires cache.interval >= 1 && use.ForSymbols?
    modifies cache, cache.client`log
    ensures cache.client.log == old(cache.client.log) + (head + call.sent)
    ensures Sound(call) && cache.orderStatuses == Effect(old(cache.orderStatuses), call)
    ensures turn.ok == call.ok && turn.asked == Requests(call.sent) && TurnIsOf(turn, use, old(cache.initialized), cache.positionRisk)
    ensures TurnFits(old(cache.lastBucket), turn, cache.interval, cache.client)
    ensures cache.lastBucket == PassBucket(turn.ok && turn.wanted, old(cache.lastBucket), turn.now, cache.interval)
  {
    var _, h, c := cache.RefreshSymbols(use.symbols, use.now, use.stored, use.refreshAccount);
    head, call := h, c;
    TotalWeightConcat(head, call.sent);
    WeightIsNonNegative(call.sent);
    turn := Turn(use.now, true, true, call.ok, true, use.symbols, ELEVATED_REQUEST_WEIGHT_LIMIT - TotalWeight(head), Requests(call.sent));
  }

  method UseOnce(cache: LiveAccountStateCache, use: Use) returns (ghost head: seq<Read>, ghost call: Call, ghost turn: Turn)
    requires cache.interval >= 1
    modifies cache, cache.client`log
    ensures cache.client.log == old(cache.client.log) + (head + call.sent)
    ensures Sound(call) && cache.orderStatuses == Effect(old(cache.orderStatuses), call)
    ensures turn.ok == call.ok && turn.asked == Requests(call.sent) && TurnIsOf(turn, use, old(cache.initialized), cache.positionRisk)
    ensures TurnFits(old(cache.lastBucket), turn, cache.interval, cache.client)
    ensures cache.lastBucket == PassBucket(turn.ok && turn.wanted, old(cache.lastBucket), turn.now, cache.interval)
  {
    if use.ForTick? {
      head, call, turn := UseForTick(cache, use);
    } else {
      head, call, turn := UseForSymbols(cache, use);
    }
  }

  /** A run so far: what the log holds, what the calls did, and how the turns fit. */
  ghost predicate RunSoFar(heads: seq<seq<Read>>, calls: seq<Call>, turns: seq<Turn>, uses: seq<Use>, interval: int, client: AccountClient,
                           before: (seq<Read>, Statuses, Option<int>), after: (seq<Read>, Statuses, Option<int>))
    requires interval >= 1
  {
    && |heads| == |calls| == |turns| <= |uses| && AllSound(calls) && TurnsFit(before.2, turns, interval, client)
    && after == (before.0 + Wire(heads, calls), After(before.1, calls), BucketAfter(before.2, turns, interval))
    && forall i | 0 <= i < |turns| :: turns[i].now == uses[i].now && turns[i].ok == calls[i].ok && turns[i].asked == Requests(calls[i].sent)
  }

  lemma {:induction false} RunOn(heads: seq<seq<Read>>, calls: seq<Call>, turns: seq<Turn>, uses: seq<Use>, interval: int, client: AccountClient,
                                 before: (seq<Read>, Statuses, Option<int>), after: (seq<Read>, Statuses, Option<int>),
                                 head: seq<Read>, call: Call, turn: Turn)
    requires interval >= 1 && RunSoFar(heads, calls, turns, uses, interval, client, before, after) && |turns| < |uses|
    requires Sound(call) && TurnFits(after.2, turn, interval, client)
    requires turn.now == uses[|turns|].now && turn.ok == call.ok && turn.asked == Requests(call.sent)
    ensures RunSoFar(heads + [head], calls + [call], turns + [turn], uses, interval, client, before,
                     (after.0 + (head + call.sent), Effect(after.1, call), PassBucket(turn.ok && turn.wanted, after.2, turn.now, interval)))
  {
    AppendWire(heads, calls, head, call);
    AppendAfter(before.1, calls, call);
    AppendTurn(before.2, turns, turn, interval, client);
    Associative(before.0, Wire(heads, calls), head + call.sent);
  }

  lemma {:induction false} AppendWire(heads: seq<seq<Read>>, calls: seq<Call>, head: seq<Read>, call: Call)
    requires |heads| == |calls|
    ensures Wire(heads + [head], calls + [call]) == Wire(heads, calls) + (head + call.sent)
  {
    assert (heads + [head])[..|heads|] == heads && (calls + [call])[..|calls|] == calls;
  }

  lemma {:induction false} AppendAfter(st: Statuses, calls: seq<Call>, call: Call)
    ensures After(st, calls + [call]) == Effect(After(st, calls), call)
  {
    assert (calls + [call])[..|calls|] == calls;
  }

  lemma {:induction false} AppendTurn(before: Option<int>, turns: seq<Turn>, turn: Turn, interval: int, client: AccountClient)
    requires interval >= 1 && TurnsFit(before, turns, interval, client) && TurnFits(BucketAfter(before, turns, interval), turn, interval, client)
    ensures TurnsFit(before, turns + [turn], interval, client)
    ensures BucketAfter(before, turns + [turn], interval)
         == PassBucket(turn.ok && turn.wanted, BucketAfter(before, turns, interval), turn.now, interval)
  {
    assert (turns + [turn])[..|turns|] == turns;
  }

  /** Any run of a cache is a run of sound calls, so `CacheAgreesWithExchange` speaks about it, and of fitting turns, so
      `ValidatedAgain` and `OncePerInterval` do. */
  method UseAll(cache: LiveAccountStateCache, uses: seq<Use>) returns (ghost heads: seq<seq<Read>>, ghost calls: seq<Call>, ghost turns: seq<Turn>)
    requires cache.interval >= 1
    modifies cache, cache.client`log
    ensures |turns| == |uses|
    ensures RunSoFar(heads, calls, turns, uses, cache.interval, cache.client,
                     old((cache.client.log, cache.orderStatuses, cache.lastBucket)), (cache.client.log, cache.orderStatuses, cache.lastBucket))
  {
    heads, calls, turns := [], [], [];
    assert cache.client.log + [] == cache.client.log;
    for i := 0 to |uses|
      invariant |turns| == i
      invariant RunSoFar(heads, calls, turns, uses, cache.interval, cache.client,
                         old((cache.client.log, cache.orderStatuses, cache.lastBucket)), (cache.client.log, cache.orderStatuses, cache.lastBucket))
    {
      ghost var seen := (cache.client.log, cache.orderStatuses, cache.lastBucket);
      ghost var head, call, turn := UseOnce(cache, uses[i]);
      RunOn(heads, calls, turns, uses, cache.interval, cache.client, old((cache.client.log, cache.orderStatuses, cache.lastBucket)), seen, head, call, turn);
      heads, calls, turns := heads + [head], calls + [call], turns + [turn];
    }
  }
}
