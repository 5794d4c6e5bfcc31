/** The gate between a tick's decision and the exchange: which positions must be covered by strategy stops before entries go
    out, what that is worth for the positions the tick read, and what a blocked tick gives back to the strategy. */
module StopGate {
  import opened Common
  import opened ClientIds
  import opened Exchange
  import opened Ordering
  import AccountReads
  import AccountCache

  // ----- coverage -----

  datatype StopStatus = Canceled | Expired | Finished | Rejected | Triggered | OtherStatus

  datatype Amount = Number(value: real) | NotANumber

  datatype OpenOrder = OpenOrder(
    symbol: Option<string>, plainType: Option<string>, orderType: Option<string>, sell: bool,
    clientOrderId: Option<string>, clientAlgoId: Option<string>, status: Option<StopStatus>, algoStatus: Option<StopStatus>,
    quantity: Option<Amount>, origQty: Option<Amount>, algoQty: Option<Amount>)

  const STOP_MARKET := "STOP_MARKET"

  /** The first field that is there. */
  function First<T>(a: Option<T>, b: Option<T>): Option<T> { if a.Some? then a else b }

  /** What an open order contributes to the protection of its symbol; nothing unless it is an active stop of the strategy. */
  function StrategyStopQuantity(o: OpenOrder): Option<real> {
    var status, raw := First(o.status, o.algoStatus), First(First(o.quantity, o.origQty), o.algoQty);
    if OrElse(o.plainType, o.orderType) != Some(STOP_MARKET) || !o.sell || !StrategyId(OrElse(o.clientOrderId, o.clientAlgoId))
       || (status.Some? && !status.value.OtherStatus?) || raw.None? || raw.value.NotANumber? || raw.value.value <= 0.0
    then None
    else Some(raw.value.value)
  }

  function Contribution(o: OpenOrder, symbol: string): real {
    if o.symbol == Some(symbol) && symbol != "" then StrategyStopQuantity(o).GetOr(0.0) else 0.0
  }

  /** How much of a symbol is covered by strategy stops. */
  function CoveredQuantity(orders: seq<OpenOrder>, symbol: string): real {
    if orders == [] then 0.0
    else CoveredQuantity(orders[..|orders| - 1], symbol) + Contribution(orders[|orders| - 1], symbol)
  }

  /** Which orders protect, and how much: a sell of type STOP_MARKET that the strategy placed, not known to be over, with a
      readable quantity above zero. The plain type, the client order id and the status come before those of algo orders, and an
      empty type or id counts as missing. */
  predicate ProtectsWith(o: OpenOrder, q: real) {
    && (if o.plainType.Some? && o.plainType.value != "" then o.plainType.value == "STOP_MARKET" else o.orderType == Some("STOP_MARKET"))
    && o.sell
    && (if o.clientOrderId.Some? && o.clientOrderId.value != "" then "ma_" <= o.clientOrderId.value
        else o.clientAlgoId.Some? && "ma_" <= o.clientAlgoId.value)
    && (if o.status.Some? then o.status.value == StopStatus.OtherStatus else o.algoStatus.None? || o.algoStatus.value == StopStatus.OtherStatus)
    && (if o.quantity.Some? then o.quantity.value == Amount.Number(q)
        else if o.origQty.Some? then o.origQty.value == Amount.Number(q)
        else o.algoQty == Some(Amount.Number(q)))
    && q > 0.0
  }

  /** One more order adds to its symbol's cover what it protects with, and nothing to any other; without orders there is none. */
  lemma {:induction false} OneMoreOrder(orders: seq<OpenOrder>, o: OpenOrder, symbol: string)
    ensures CoveredQuantity([], symbol) == 0.0
    ensures forall q :: o.symbol == Some(symbol) && symbol != "" && ProtectsWith(o, q) ==>
              CoveredQuantity(orders + [o], symbol) == CoveredQuantity(orders, symbol) + q
    ensures o.symbol != Some(symbol) || symbol == "" || (forall q :: !ProtectsWith(o, q)) ==>
              CoveredQuantity(orders + [o], symbol) == CoveredQuantity(orders, symbol)
  {
    assert (orders + [o])[..|orders|] == orders;
    ProtectsExactly(o);
  }

  lemma {:induction false} ProtectsExactly(o: OpenOrder)
    ensures forall q :: StrategyStopQuantity(o) == Some(q) <==> ProtectsWith(o, q)
  {
  }

  function Quantity(m: map<string, real>, symbol: string): real { if symbol in m then m[symbol] else 0.0 }

  method CoveredStopQuantities(orders: seq<OpenOrder>) returns (covered: map<string, real>)
    ensures forall symbol :: Quantity(covered, symbol) == CoveredQuantity(orders, symbol)
  {
    covered := map[];
    for i := 0 to |orders|
      invariant forall symbol :: Quantity(covered, symbol) == CoveredQuantity(orders[..i], symbol)
    {
      assert orders[..i + 1][..i] == orders[..i];
      var quantity := StrategyStopQuantity(orders[i]);
      var symbol := orders[i].symbol;
      if quantity.None? || symbol.None? || symbol.value == "" {
        continue;
      }
      covered := covered[symbol.value := Quantity(covered, symbol.value) + quantity.value];
    }
    assert orders[..|orders|] == orders;
  }

  predicate Uncovered(positions: map<string, real>, orders: seq<OpenOrder>, symbol: string) {
    symbol in positions && CoveredQuantity(orders, symbol) < positions[symbol]
  }

  method FindUncoveredStopSymbols(positions: map<string, real>, orders: seq<OpenOrder>) returns (symbols: set<string>)
    ensures forall symbol :: symbol in symbols <==> Uncovered(positions, orders, symbol)
  {
    var covered := CoveredStopQuantities(orders);
    symbols := set s | s in positions && Quantity(covered, s) < positions[s];
  }

  // ----- what an account read says -----

  function Restored(rows: seq<AccountReads.RiskRow>): map<string, real> {
    if rows == [] then map[]
    else
      var (before, last) := (Restored(rows[..|rows| - 1]), rows[|rows| - 1]);
      if last.amount <= 0.0 then before else before[last.symbol := last.amount]
  }

  /** What is held: of each symbol the last row with an amount above zero. */
  lemma {:induction false} RestoredExactly(rows: seq<AccountReads.RiskRow>, symbol: string, quantity: real)
    ensures symbol in Restored(rows) && Restored(rows)[symbol] == quantity
       <==> exists i :: 0 <= i < |rows| && rows[i] == AccountReads.RiskRow(symbol, quantity) && quantity > 0.0
                        && forall j | i < j < |rows| && rows[j].symbol == symbol :: rows[j].amount <= 0.0
  {
    if rows == [] {
    } else {
      var n := |rows| - 1;
      RestoredExactly(rows[..n], symbol, quantity);
      assert forall j | 0 <= j < n :: rows[..n][j] == rows[j];
      if rows[n].symbol == symbol && rows[n].amount > 0.0 {
        assert rows[n].amount == quantity ==> rows[n] == AccountReads.RiskRow(symbol, quantity);
      } else if i :| 0 <= i < |rows| && rows[i] == AccountReads.RiskRow(symbol, quantity) && quantity > 0.0
                      && forall j | i < j < |rows| && rows[j].symbol == symbol :: rows[j].amount <= 0.0 {
        assert i < n && rows[..n][i] == rows[i];
      }
    }
  }

  /** What a refresh brings: it fails, or what it shows cannot be restored, or it shows these open orders. The positions that
      it shows are no reply of the exchange, see `CheckedRows`. */
  datatype Refresh = RefreshRaised | Unrestorable | View(orders: seq<OpenOrder>)

  datatype Status = NotApplicable | PendingExecution | Confirmed | Unprotected | CheckFailed

  predicate AllCovered(positions: map<string, real>, orders: seq<OpenOrder>) {
    forall symbol | symbol in positions :: !Uncovered(positions, orders, symbol)
  }

  method VerifyStopProtection(rows: seq<AccountReads.RiskRow>, read: Refresh) returns (status: Status)
    requires !read.RefreshRaised?
    ensures status == if read.Unrestorable? then CheckFailed else if AllCovered(Restored(rows), read.orders) then Confirmed else Unprotected
  {
    if read.Unrestorable? {
      return CheckFailed;
    }
    var uncovered := FindUncoveredStopSymbols(Restored(rows), read.orders);
    if uncovered != {} {
      return Unprotected;
    }
    status := Confirmed;
  }

  // ----- the gate -----

  datatype PlannedEntry = PlannedEntry(symbol: Option<string>, clientId: Option<string>)

  datatype FailureRecord = FailureRecord(symbol: Option<string>, clientId: Option<string>, retryable: Option<bool>)

  datatype GateError = RestoreRequired | ExecuteRequired | ReadFailed

  datatype Gate = Gate(status: Status, submitted: bool, failures: seq<FailureRecord>)

  function Blocked(entries: seq<PlannedEntry>): (r: seq<FailureRecord>)
    ensures |r| == |entries|
    ensures forall i :: 0 <= i < |r| ==> r[i] == FailureRecord(entries[i].symbol, entries[i].clientId, Some(true))
  {
    seq(|entries|, i requires 0 <= i < |entries| => FailureRecord(entries[i].symbol, entries[i].clientId, Some(true)))
  }

  /** The tick's first read of positions and orders, the state that was stored before the tick, what the tick plans, and what
      happens around it: whether stop replacements are planned, whether sending them met a rate limit, what a refresh would
      bring, and the failures that submitting would report. */
  datatype Tick = Tick(submit: bool, restore: bool, execute: bool, first: seq<AccountReads.RiskRow>, orders: seq<OpenOrder>,
                       stored: Option<AccountCache.StoredProjection>, replacements: bool, rateLimited: bool, refresh: Refresh,
                       entries: seq<PlannedEntry>, reported: seq<FailureRecord>)

  /** What the tick holds, as it read it first; merging in known history keeps the quantities. */
  function Positions(t: Tick): map<string, real> { Restored(t.first) }

  /** A refresh replaces the first read when stops were missing or have just been moved. */
  predicate Refreshes(t: Tick) {
    t.restore && t.execute && (t.replacements || !AllCovered(Positions(t), t.orders))
  }

  /** The positions that a refresh shows: those stored before the tick, or the first read's if nothing is stored. */
  function CheckedRows(t: Tick): seq<AccountReads.RiskRow> { AccountCache.OfferedRows(t.stored, t.first) }

  /** Whether the positions that are checked last are covered by the orders that were read last. */
  predicate LatestShowsCovered(t: Tick) {
    if Refreshes(t) then t.refresh.View? && AllCovered(Restored(CheckedRows(t)), t.refresh.orders) else AllCovered(Positions(t), t.orders)
  }

  /** When entries go out. */
  predicate Submits(t: Tick) {
    t.submit && t.restore && t.execute && !(t.replacements && t.rateLimited) && LatestShowsCovered(t)
  }

  /** Said in full: the run submits, restores and executes, sending stop replacements met no rate limit, and every position is
      covered: those of the first read by its orders, if all are and no stop is moved, else those that the refresh shows by its
      orders. */
  lemma {:induction false} SubmitsExactly(t: Tick)
    ensures var covered := forall symbol | symbol in Restored(t.first) :: CoveredQuantity(t.orders, symbol) >= Restored(t.first)[symbol];
            var checked := Restored(if t.stored.Some? then t.stored.value.positions else t.first);
            Submits(t)
            <==> && t.submit && t.restore && t.execute && (t.replacements ==> !t.rateLimited)
                 && (t.replacements || !covered ==>
                       t.refresh.View? && forall symbol | symbol in checked :: CoveredQuantity(t.refresh.orders, symbol) >= checked[symbol])
    ensures Refreshes(t) ==> t.restore && t.execute
  {
    AllCoveredExactly(Restored(t.first), t.orders);
    if t.refresh.View? {
      AllCoveredExactly(Restored(if t.stored.Some? then t.stored.value.positions else t.first), t.refresh.orders);
    }
  }

  lemma {:induction false} AllCoveredExactly(positions: map<string, real>, orders: seq<OpenOrder>)
    ensures AllCovered(positions, orders) <==> forall symbol | symbol in positions :: CoveredQuantity(orders, symbol) >= positions[symbol]
  {
    assert forall symbol | symbol in positions :: Uncovered(positions, orders, symbol) <==> CoveredQuantity(orders, symbol) < positions[symbol];
  }

  method RunGate(t: Tick) returns (r: Result<Gate, GateError>)
    ensures t.submit && !t.restore ==> r == Err(RestoreRequired)
    ensures t.submit && t.restore && !t.execute ==> r == Err(ExecuteRequired)
    ensures r == Err(ReadFailed) <==> (t.submit ==> t.restore && t.execute) && Refreshes(t) && t.refresh.RefreshRaised?
    ensures r.Ok? ==> (r.value.submitted <==> Submits(t))
    ensures r.Ok? && t.submit ==>
              r.value.failures == if r.value.submitted then t.reported else if LatestShowsCovered(t) then [] else Blocked(t.entries)
    ensures r.Ok? && !t.submit ==> r.value.failures == []
  {
    if t.submit && !t.restore {
      return Err(RestoreRequired);
    }
    if t.submit && !t.execute {
      return Err(ExecuteRequired);
    }
    var status, rateLimited := NotApplicable, false;
    var uncovered: set<string> := {};
    if t.restore {
      uncovered := FindUncoveredStopSymbols(Positions(t), t.orders);
      if Positions(t) != map[] {
        status := if uncovered != {} then PendingExecution else Confirmed;
      }
      if t.execute && t.replacements {
        rateLimited := t.rateLimited;
      }
      assert uncovered == {} <==> AllCovered(Positions(t), t.orders);
    }
    if t.restore && t.execute && (uncovered != {} || t.replacements) {
      if t.refresh.RefreshRaised? {
        return Err(ReadFailed);
      }
      status := VerifyStopProtection(CheckedRows(t), t.refresh);
    }
    var blocked := status == Unprotected || status == CheckFailed;
    var submitted, failures := false, [];
    if t.submit {
      if !rateLimited && !blocked {
        submitted, failures := true, t.reported;
      } else if blocked {
        failures := Blocked(t.entries);
      }
    }
    r := Ok(Gate(status, submitted, failures));
  }

  // ----- what passing the gate is worth -----

  /** The orders that were read last. */
  function LatestOrders(t: Tick): seq<OpenOrder>
    requires LatestShowsCovered(t)
  {
    if Refreshes(t) then t.refresh.orders else t.orders
  }

  /** Every symbol of `held` is in `known` with at least its quantity. */
  predicate AtLeast(known: map<string, real>, held: map<string, real>) {
    forall symbol | symbol in held :: symbol in known && held[symbol] <= known[symbol]
  }

  lemma {:induction false} RestoredIsPositive(rows: seq<AccountReads.RiskRow>)
    ensures forall symbol | symbol in Restored(rows) :: Restored(rows)[symbol] > 0.0
  {
    if rows == [] {
    } else {
      RestoredIsPositive(rows[..|rows| - 1]);
    }
  }

  /** A symbol without a name is never covered. */
  lemma {:induction false} NamelessIsUncovered(orders: seq<OpenOrder>)
    ensures CoveredQuantity(orders, "") == 0.0
  {
    if orders == [] {
    } else {
      NamelessIsUncovered(orders[..|orders| - 1]);
    }
  }

  function StopOrderFor(symbol: string, quantity: real): OpenOrder {
    OpenOrder(Some(symbol), Some(STOP_MARKET), None, true, Some("ma_"), None, None, None, Some(Amount.Number(quantity)), None, None)
  }

  /** Stops that cover exactly these quantities. */
  lemma {:induction false} ExactCover(quantities: map<string, real>) returns (orders: seq<OpenOrder>)
    requires forall symbol | symbol in quantities :: quantities[symbol] > 0.0
    ensures forall symbol | symbol != "" :: CoveredQuantity(orders, symbol) == Quantity(quantities, symbol)
    decreases |quantities|
  {
    if quantities == map[] {
      orders := [];
    } else {
      var symbol :| symbol in quantities;
      var before := ExactCover(quantities - {symbol});
      var order := StopOrderFor(symbol, quantities[symbol]);
      orders := before + [order];
      assert orders[..|orders| - 1] == before;
      assert StrategyStopQuantity(order) == Some(quantities[symbol]);
    }
  }

  ghost predicate CoverCarriesOver(known: map<string, real>, held: map<string, real>) {
    forall orders :: AllCovered(known, orders) ==> AllCovered(held, orders)
  }

  /** Finding `known` covered says that `held` is covered, whatever the orders, exactly when `known` has at least as much of
      every symbol, or has a nameless one, which no stop covers. */
  lemma {:induction false} CarriesOverExactly(known: map<string, real>, held: map<string, real>)
    requires forall symbol | symbol in known :: known[symbol] > 0.0
    requires forall symbol | symbol in held :: held[symbol] > 0.0
    ensures CoverCarriesOver(known, held) <==> "" in known || AtLeast(known, held)
  {
    if "" in known {
      forall orders ensures !AllCovered(known, orders) {
        NamelessIsUncovered(orders);
        assert Uncovered(known, orders, "");
      }
    } else if AtLeast(known, held) {
      forall orders | AllCovered(known, orders) ensures AllCovered(held, orders) {
        forall symbol | symbol in held ensures !Uncovered(held, orders, symbol) {
          assert !Uncovered(known, orders, symbol);
        }
      }
    } else {
      var symbol :| symbol in held && !(symbol in known && held[symbol] <= known[symbol]);
      var orders := ExactCover(known);
      NamelessIsUncovered(orders);
      assert Uncovered(held, orders, symbol);
      assert AllCovered(known, orders);
    }
  }

  /** What the last check promises about the positions that the tick read itself, for all orders: they are covered when it
      passes, if and only if nothing is stored, or every symbol of the first read is stored with at least its quantity. */
  lemma {:induction false} CheckGuardsFirstRead(t: Tick)
    ensures CoverCarriesOver(Restored(CheckedRows(t)), Positions(t))
       <==> t.stored.None? || "" in Restored(t.stored.value.positions) || AtLeast(Restored(t.stored.value.positions), Positions(t))
  {
    RestoredIsPositive(CheckedRows(t));
    RestoredIsPositive(t.first);
    CarriesOverExactly(Restored(CheckedRows(t)), Positions(t));
  }

  /** And the other way round: covering what the tick read is enough to pass, if and only if the stored positions have no
      more than the first read. A position that is gone but still stored blocks the entries until it is saved. */
  lemma {:induction false} FirstReadPassesCheck(t: Tick)
    ensures CoverCarriesOver(Positions(t), Restored(CheckedRows(t)))
       <==> t.stored.None? || "" in Positions(t) || AtLeast(Positions(t), Restored(t.stored.value.positions))
  {
    RestoredIsPositive(CheckedRows(t));
    RestoredIsPositive(t.first);
    CarriesOverExactly(Positions(t), Restored(CheckedRows(t)));
  }

  /** Entries go out under cover: the orders read last cover what the tick holds, if that is stored, or if no refresh was
      due. */
  lemma {:induction false} SubmitsUnderCover(t: Tick)
    requires Submits(t)
    requires !Refreshes(t) || t.stored.None? || AtLeast(Restored(t.stored.value.positions), Positions(t))
    ensures AllCovered(Positions(t), LatestOrders(t))
  {
    CheckGuardsFirstRead(t);
    assert Refreshes(t) ==> CoverCarriesOver(Restored(CheckedRows(t)), Positions(t));
  }

  /** Whatever happens in a tick with this first read and this stored state: entries that go out after a refresh go out
      under cover. */
  ghost predicate GateGuards(first: seq<AccountReads.RiskRow>, stored: Option<AccountCache.StoredProjection>) {
    forall t: Tick :: t.first == first && t.stored == stored && Submits(t) && Refreshes(t) ==> AllCovered(Positions(t), LatestOrders(t))
  }

  /** The exact condition for that. */
  lemma {:induction false} GateGuardsExactly(first: seq<AccountReads.RiskRow>, stored: Option<AccountCache.StoredProjection>)
    ensures GateGuards(first, stored)
       <==> stored.None? || "" in Restored(stored.value.positions) || AtLeast(Restored(stored.value.positions), Restored(first))
  {
    var any := Tick(true, true, true, first, [], stored, true, false, View([]), [], []);
    CheckGuardsFirstRead(any);
    if CoverCarriesOver(Restored(CheckedRows(any)), Restored(first)) {
      forall t: Tick | t.first == first && t.stored == stored && Submits(t) && Refreshes(t) ensures AllCovered(Positions(t), LatestOrders(t)) {
        assert CheckedRows(t) == CheckedRows(any);
      }
    } else {
      var orders :| AllCovered(Restored(CheckedRows(any)), orders) && !AllCovered(Restored(first), orders);
      var t := any.(refresh := View(orders));
      assert CheckedRows(t) == CheckedRows(any) && Submits(t) && Refreshes(t) && LatestOrders(t) == orders;
    }
  }

  // ----- giving signals back -----

  datatype Signals = Signals(leader: Option<string>, times: map<string, int>, counts: map<string, int>)

  predicate PlannedAsBase(entries: seq<PlannedEntry>, symbol: string) {
    exists i :: 0 <= i < |entries| && entries[i].symbol == Some(symbol) && !IsAddOnId(entries[i].clientId)
  }

  predicate FailedAsBase(failures: seq<FailureRecord>, symbol: string, retryable: bool) {
    exists i :: 0 <= i < |failures| && failures[i].symbol == Some(symbol) && !IsAddOnId(failures[i].clientId) && failures[i].retryable == Some(retryable)
  }

  /** A base entry is given back when it was never planned, or when it failed in a known way. */
  predicate Released(base: set<string>, entries: seq<PlannedEntry>, failures: seq<FailureRecord>, symbol: string) {
    symbol in base && (!PlannedAsBase(entries, symbol) || FailedAsBase(failures, symbol, true) || FailedAsBase(failures, symbol, false))
  }

  predicate Retryable(base: set<string>, failures: seq<FailureRecord>, symbol: string) {
    symbol in base && FailedAsBase(failures, symbol, true)
  }

  /** A base symbol keeps its mark exactly when a base order was planned for it and none of its base orders failed in a way that
      is known, retryable or not; a failure of which that is not known keeps it. */
  lemma {:induction false} KeepsMarkExactly(base: set<string>, entries: seq<PlannedEntry>, failures: seq<FailureRecord>, symbol: string)
    requires symbol in base
    ensures !Released(base, entries, failures, symbol)
       <==> && (exists e <- entries :: e.symbol == Some(symbol) && !IsAddOnId(e.clientId))
            && (forall f <- failures :: f.symbol == Some(symbol) && !IsAddOnId(f.clientId) ==> f.retryable == None)
  {
    if e :| e in entries && e.symbol == Some(symbol) && !IsAddOnId(e.clientId) {
      var i :| 0 <= i < |entries| && entries[i] == e;
      assert PlannedAsBase(entries, symbol);
    }
    if f :| f in failures && f.symbol == Some(symbol) && !IsAddOnId(f.clientId) && f.retryable != None {
      var i :| 0 <= i < |failures| && failures[i] == f;
      assert FailedAsBase(failures, symbol, f.retryable.value);
    }
  }

  method PlannedBaseSymbols(entries: seq<PlannedEntry>) returns (planned: set<string>)
    ensures forall s :: s in planned <==> PlannedAsBase(entries, s)
  {
    planned := {};
    for i := 0 to |entries|
      invariant forall s :: s in planned <==> PlannedAsBase(entries[..i], s)
    {
      if entries[i].symbol.Some? && !IsAddOnId(entries[i].clientId) {
        planned := planned + {entries[i].symbol.value};
      }
      PlannedStep(entries, i);
    }
    assert entries[..|entries|] == entries;
  }

  lemma {:induction false} PlannedStep(entries: seq<PlannedEntry>, i: nat)
    requires i < |entries|
    ensures forall s :: PlannedAsBase(entries[..i + 1], s)
                   <==> PlannedAsBase(entries[..i], s) || (entries[i].symbol == Some(s) && !IsAddOnId(entries[i].clientId))
  {
    assert forall k :: 0 <= k < i ==> entries[..i + 1][k] == entries[..i][k];
    assert entries[..i + 1][i] == entries[i];
  }

  lemma {:induction false} FailedStep(failures: seq<FailureRecord>, i: nat, retryable: bool)
    requires i < |failures|
    ensures forall s :: FailedAsBase(failures[..i + 1], s, retryable)
                   <==> FailedAsBase(failures[..i], s, retryable)
                        || (failures[i].symbol == Some(s) && !IsAddOnId(failures[i].clientId) && failures[i].retryable == Some(retryable))
  {
    assert forall k :: 0 <= k < i ==> failures[..i + 1][k] == failures[..i][k];
    assert failures[..i + 1][i] == failures[i];
  }

  method ReleaseRejectedBaseEntries(submit: bool, base: set<string>, entries: seq<PlannedEntry>, failures: seq<FailureRecord>,
                                    previousLeader: Option<string>, state: Signals) returns (next: Signals)
    ensures !submit ==> next == state
    ensures submit ==> forall s :: s in next.times <==> s in state.times && !Released(base, entries, failures, s)
    ensures submit ==> forall s :: s in next.counts <==> s in state.counts && !Released(base, entries, failures, s)
    ensures (forall s :: s in next.times ==> next.times[s] == state.times[s]) && (forall s :: s in next.counts ==> next.counts[s] == state.counts[s])
    ensures submit ==> next.leader == if exists s :: s in base && Retryable(base, failures, s) then previousLeader else state.leader
  {
    if !submit || base == {} {
      return state;
    }
    var planned := PlannedBaseSymbols(entries);
    var released, retryable := base - planned, {};
    for i := 0 to |failures|
      invariant forall s :: s in retryable <==> Retryable(base, failures[..i], s)
      invariant forall s :: s in released <==> Released(base, entries, failures[..i], s)
    {
      var f := failures[i];
      FailedStep(failures, i, true);
      FailedStep(failures, i, false);
      if f.symbol.Some? && f.symbol.value in base && !IsAddOnId(f.clientId) {
        if f.retryable == Some(true) {
          retryable := retryable + {f.symbol.value};
          released := released + {f.symbol.value};
        } else if f.retryable == Some(false) {
          released := released + {f.symbol.value};
        }
      }
    }
    assert failures[..|failures|] == failures;
    assert forall s :: Retryable(base, failures, s) ==> Released(base, entries, failures, s);
    if released == {} {
      return state;
    }
    next := Signals(if retryable != {} then previousLeader else state.leader, state.times - released, state.counts - released);
  }

  // ----- a blocked tick -----

  /** A tick that stop protection blocks gives every base entry of the decision back, planned or not, and goes back to the
      old leader exactly when one of them was planned. */
  lemma {:induction false} BlockedTickReleasesAll(base: set<string>, entries: seq<PlannedEntry>)
    ensures forall s :: Released(base, entries, Blocked(entries), s) <==> s in base
    ensures forall s :: Retryable(base, Blocked(entries), s) <==> s in base && PlannedAsBase(entries, s)
  {
    var failures := Blocked(entries);
    forall s ensures FailedAsBase(failures, s, true) <==> PlannedAsBase(entries, s) {
      if PlannedAsBase(entries, s) {
        var i :| 0 <= i < |entries| && entries[i].symbol == Some(s) && !IsAddOnId(entries[i].clientId);
        assert failures[i].retryable == Some(true);
      }
      if FailedAsBase(failures, s, true) {
        var i :| 0 <= i < |failures| && failures[i].symbol == Some(s) && !IsAddOnId(failures[i].clientId) && failures[i].retryable == Some(true);
        assert entries[i].symbol == Some(s);
      }
    }
  }

  /** The gate and what follows it in one tick. */
  method GateAndRelease(t: Tick, base: set<string>, previousLeader: Option<string>, state: Signals)
    returns (r: Result<Gate, GateError>, next: Signals)
    ensures r.Err? ==> next == state
    ensures r.Ok? ==> (r.value.submitted <==> Submits(t))
    ensures r.Ok? && t.submit && !LatestShowsCovered(t) ==>
              && (forall s :: s in next.times <==> s in state.times && s !in base)
              && (forall s :: s in next.counts <==> s in state.counts && s !in base)
              && next.leader == if exists s :: s in base && PlannedAsBase(t.entries, s) then previousLeader else state.leader
  {
    next := state;
    r := RunGate(t);
    if r.Err? {
      return;
    }
    next := ReleaseRejectedBaseEntries(t.submit, base, t.entries, r.value.failures, previousLeader, state);
    if t.submit && !LatestShowsCovered(t) {
      BlockedTickReleasesAll(base, t.entries);
      assert (exists s :: s in base && PlannedAsBase(t.entries, s)) <==> (exists s :: s in base && Retryable(base, Blocked(t.entries), s)) by {
        if s :| s in base && PlannedAsBase(t.entries, s) {
          assert Retryable(base, Blocked(t.entries), s);
        }
        if s :| s in base && Retryable(base, Blocked(t.entries), s) {
          assert PlannedAsBase(t.entries, s);
        }
      }
    }
  }

  // ----- the plan that restores coverage -----

  datatype Market = Market(latest: real, hasPreviousHour: bool, previousHourLow: real, currentHourLow: real)

  predicate ValidStop(price: real, m: Market) { 0.0 < price < m.latest }

  /** The first valid price: the better of stored stop and previous hour's low, the current hour's low, the stored stop,
      and at last a small distance below the market. */
  function CoverageTarget(stop: real, m: Market): Option<real> {
    if m.hasPreviousHour && ValidStop(MaxReal(stop, m.previousHourLow), m) then Some(MaxReal(stop, m.previousHourLow))
    else if m.hasPreviousHour && ValidStop(m.currentHourLow, m) then Some(m.currentHourLow)
    else if ValidStop(stop, m) then Some(stop)
    else if ValidStop(m.latest * 0.999, m) then Some(m.latest * 0.999)
    else None
  }

  /** The target is the first price strictly between zero and the market among these: the higher of stored stop and previous
      hour's low, the current hour's low (both only with a previous hour), the stored stop, a thousandth below the market. */
  lemma {:induction false} TargetIsFirstValid(stop: real, m: Market, higher: real, choices: seq<real>)
    requires higher >= stop && higher >= m.previousHourLow && (higher == stop || higher == m.previousHourLow)
    requires choices == (if m.hasPreviousHour then [higher, m.currentHourLow] else []) + [stop, m.latest - m.latest / 1000.0]
    ensures match CoverageTarget(stop, m)
            case None => forall i | 0 <= i < |choices| :: !(0.0 < choices[i] < m.latest)
            case Some(price) => exists i :: 0 <= i < |choices| && choices[i] == price && 0.0 < price < m.latest
                                            && forall j | 0 <= j < i :: !(0.0 < choices[j] < m.latest)
  {
    assert m.latest - m.latest / 1000.0 == m.latest * 0.999;
    var n := |choices|;
    assert choices[n - 1] == m.latest * 0.999 && choices[n - 2] == stop;
    if m.hasPreviousHour {
      assert choices[0] == higher && choices[1] == m.currentHourLow;
    }
  }

  datatype Holding = Holding(quantity: real, stop: real)

  function PlannedStop(holdings: map<string, Holding>, market: map<string, Market>, orders: seq<OpenOrder>, symbol: string): Option<real>
    requires symbol in holdings
  {
    if CoveredQuantity(orders, symbol) >= holdings[symbol].quantity || symbol !in market || market[symbol].latest <= 0.0 then None
    else CoverageTarget(holdings[symbol].stop, market[symbol])
  }

  /** Goes through the holdings in symbol order. */
  method BuildCoveragePlan(holdings: map<string, Holding>, order: seq<string>, market: map<string, Market>, orders: seq<OpenOrder>)
    returns (plan: seq<(string, real)>)
    requires Increasing(order) && forall s :: s in order <==> s in holdings
    ensures forall i, j :: 0 <= i < j < |plan| ==> Less(plan[i].0, plan[j].0)
    ensures forall s, price :: (s, price) in plan <==> s in holdings && PlannedStop(holdings, market, orders, s) == Some(price)
  {
    plan := [];
    var covered := CoveredStopQuantities(orders);
    for i := 0 to |order|
      invariant forall p :: p in plan ==> p.0 in order[..i]
      invariant forall k, j :: 0 <= k < j < |plan| ==> Less(plan[k].0, plan[j].0)
      invariant forall s, price :: (s, price) in plan <==> s in order[..i] && PlannedStop(holdings, market, orders, s) == Some(price)
    {
      var symbol := order[i];
      assert symbol in order;
      forall p | p in plan ensures Less(p.0, symbol) {
        var k :| 0 <= k < i && order[k] == p.0;
      }
      if Quantity(covered, symbol) >= holdings[symbol].quantity || symbol !in market || market[symbol].latest <= 0.0 {
        continue;
      }
      var target := CoverageTarget(holdings[symbol].stop, market[symbol]);
      if target.None? {
        continue;
      }
      plan := plan + [(symbol, target.value)];
    }
    assert order[..|order|] == order;
  }

  /** No held position stays naked while the market has a price: exactly the uncovered symbols with a positive price get a
      stop, and it lies strictly between zero and the market. A stored stop that is still valid is lowered only to the low of
      the current hour, never to the emergency distance. */
  lemma {:induction false} CoveragePlanIsComplete(holdings: map<string, Holding>, market: map<string, Market>, orders: seq<OpenOrder>, symbol: string)
    requires symbol in holdings
    ensures var planned := PlannedStop(holdings, market, orders, symbol);
            && (planned.Some? <==> CoveredQuantity(orders, symbol) < holdings[symbol].quantity && symbol in market && market[symbol].latest > 0.0)
            && (planned.Some? ==> ValidStop(planned.value, market[symbol]))
            && (planned.Some? && ValidStop(holdings[symbol].stop, market[symbol]) && planned.value < holdings[symbol].stop ==>
                  market[symbol].hasPreviousHour && planned.value == market[symbol].currentHourLow)
  {
  }
}
