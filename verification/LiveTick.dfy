/** A live tick from the account cache to the gate: what the gate checks is what the cache offers. */
module LiveTick {
  import opened Common
  import opened AccountReads
  import opened AccountCache
  import opened StopGate
  import OrderCache
  import AccountRuns

  /** How a run is set up, and what happens between its reads. */
  datatype Course = Course(submit: bool, restore: bool, execute: bool, replacements: bool, rateLimited: bool,
                           entries: seq<PlannedEntry>, reported: seq<FailureRecord>)

  /** The open orders of a snapshot as the gate looks at them; none when the snapshot cannot be restored. */
  type Reading = AccountSnapshot -> Option<seq<OpenOrder>>

  function TickOf(c: Course, first: seq<RiskRow>, orders: seq<OpenOrder>, stored: Option<StoredProjection>, refresh: Refresh): Tick {
    Tick(c.submit, c.restore, c.execute, first, orders, stored, c.replacements, c.rateLimited, refresh, c.entries, c.reported)
  }

  function RefreshOf(reading: Reading, snapshot: AccountSnapshot): Refresh {
    var orders := reading(snapshot);
    if orders.None? then Unrestorable else View(orders.value)
  }

  predicate ListsNoPositions(info: Option<AccountInfo>) { info.None? || info.value.positions.None? }

  /** What the cache holds of the positions that are checked last: the first read, or the stored ones after a refresh. */
  predicate Checks(t: Tick, rows: seq<RiskRow>) {
    rows == if Refreshes(t) then CheckedRows(t) else t.first
  }

  /** The second read, if it is due. */
  method ReadAgain(cache: LiveAccountStateCache, now: int, before: Tick, reading: Reading)
    returns (t: Tick, ghost calls: seq<OrderCache.Call>)
    requires cache.interval >= 1 && cache.positionRisk == before.first
    modifies cache, cache.client`log
    ensures t == before.(refresh := t.refresh) && cache.accountInfo == old(cache.accountInfo)
    ensures Checks(t, cache.positionRisk)
    ensures Refreshes(t) && !t.refresh.RefreshRaised? ==> t.refresh == RefreshOf(reading, SnapshotIn(cache.View(), false))
    ensures AccountRuns.AllSound(calls) && cache.orderStatuses == AccountRuns.After(old(cache.orderStatuses), calls)
  {
    t, calls := before, [];
    if Refreshes(t) {
      var snapshot;
      ghost var head, call;
      snapshot, head, call := cache.RefreshSymbols(HeldSymbols(before.first), now, before.stored, false);
      t := before.(refresh := if snapshot.Err? then RefreshRaised else RefreshOf(reading, snapshot.value));
      calls := [call];
      assert calls[..0] == [];
    }
  }

  /** The first read; the tick so far has had no refresh. */
  method ReadFirst(cache: LiveAccountStateCache, now: int, stored: Option<StoredProjection>, requests: seq<ControlRequest>, course: Course, reading: Reading)
    returns (t: Option<Tick>, ghost calls: seq<OrderCache.Call>)
    requires cache.interval >= 1
    modifies cache, cache.client`log
    ensures AccountRuns.AllSound(calls) && cache.orderStatuses == AccountRuns.After(old(cache.orderStatuses), calls)
    ensures t.Some? ==> t.value == TickOf(course, cache.positionRisk, t.value.orders, stored, RefreshRaised)
    ensures t.Some? && Controlled(old(cache.View()), requests).initialized ==>
              cache.positionRisk == RiskFromAccount(cache.accountInfo, OfferedRows(stored, old(cache.positionRisk)))
  {
    var snapshot, _, _, call, _ := cache.Snapshot(now, stored, course.restore, course.submit, requests);
    t, calls := None, [call];
    assert calls[..0] == [];
    if snapshot.Ok? {
      var orders := if course.restore then reading(snapshot.value) else Some([]);
      if orders.Some? {
        t := Some(TickOf(course, snapshot.value.positionRisk, orders.value, stored, RefreshRaised));
      }
    }
  }

  /** What a tick that is not refused reads, and what the gate makes of it. */
  method ReadAndDecide(cache: LiveAccountStateCache, now: int, stored: Option<StoredProjection>, requests: seq<ControlRequest>, course: Course, reading: Reading)
    returns (r: Result<Gate, GateError>, ghost t: Tick, ghost calls: seq<OrderCache.Call>)
    requires cache.interval >= 1
    modifies cache, cache.client`log
    ensures t == TickOf(course, t.first, t.orders, stored, t.refresh)
    ensures AccountRuns.AllSound(calls) && cache.orderStatuses == AccountRuns.After(old(cache.orderStatuses), calls)
    ensures r.Ok? ==> (r.value.submitted <==> Submits(t)) && Checks(t, cache.positionRisk)
    ensures r.Ok? && Refreshes(t) ==> t.refresh == RefreshOf(reading, SnapshotIn(cache.View(), false))
    ensures r.Ok? && Controlled(old(cache.View()), requests).initialized ==>
              t.first == RiskFromAccount(cache.accountInfo, OfferedRows(stored, old(cache.positionRisk)))
  {
    var begun;
    begun, calls := ReadFirst(cache, now, stored, requests, course, reading);
    r, t := Err(ReadFailed), TickOf(course, [], [], stored, RefreshRaised);
    if begun.Some? {
      var tick;
      ghost var more;
      tick, more := ReadAgain(cache, now, begun.value, reading);
      AccountRuns.AfterConcat(old(cache.orderStatuses), calls, more);
      t, calls := tick, calls + more;
      r := RunGate(tick);
    }
  }

  /** From the first read to the gate. A run that must not submit as it is set up reads nothing. */
  method RunTick(cache: LiveAccountStateCache, now: int, stored: Option<StoredProjection>, requests: seq<ControlRequest>, course: Course, reading: Reading)
    returns (r: Result<Gate, GateError>, ghost t: Tick, ghost calls: seq<OrderCache.Call>)
    requires cache.interval >= 1
    modifies cache, cache.client`log
    ensures t == TickOf(course, t.first, t.orders, stored, t.refresh)
    ensures AccountRuns.AllSound(calls) && cache.orderStatuses == AccountRuns.After(old(cache.orderStatuses), calls)
    ensures course.submit && !(course.restore && course.execute) ==> r.Err? && calls == []
    ensures r.Ok? ==> (r.value.submitted <==> Submits(t)) && Checks(t, cache.positionRisk)
    ensures r.Ok? && Refreshes(t) ==> t.refresh == RefreshOf(reading, SnapshotIn(cache.View(), false))
    ensures r.Ok? && Controlled(old(cache.View()), requests).initialized ==>
              t.first == RiskFromAccount(cache.accountInfo, OfferedRows(stored, old(cache.positionRisk)))
    ensures r.Ok? && r.value.submitted && (!Refreshes(t) || stored.None? || AtLeast(Restored(stored.value.positions), Positions(t))) ==>
              AllCovered(Positions(t), LatestOrders(t))
  {
    if course.submit && !(course.restore && course.execute) {
      t, calls := TickOf(course, [], [], stored, RefreshRaised), [];
      r := RunGate(TickOf(course, [], [], stored, RefreshRaised));
    } else {
      r, t, calls := ReadAndDecide(cache, now, stored, requests, course, reading);
      if Submits(t) && (!Refreshes(t) || stored.None? || AtLeast(Restored(stored.value.positions), Positions(t))) {
        SubmitsUnderCover(t);
      }
    }
  }

  // ----- two account reads -----

  /** A ready cache whose account information lists no positions reads the stored ones, and then the gate is safe. */
  lemma {:induction false} WithoutListingsIsSafe(t: Tick, info: Option<AccountInfo>, before: seq<RiskRow>)
    requires t.first == RiskFromAccount(info, OfferedRows(t.stored, before)) && ListsNoPositions(info) && Submits(t)
    ensures AllCovered(Positions(t), LatestOrders(t))
  {
    SubmitsUnderCover(t);
  }

  /** Otherwise entries can go out past an uncovered position: the account information lists X, the stored state does not know
      it, its stop is not placed, and the refresh leaves X out of the check. */
  lemma {:induction false} EntriesPassUncovered(before: seq<RiskRow>) returns (t: Tick, info: Option<AccountInfo>)
    ensures t.first == RiskFromAccount(info, OfferedRows(t.stored, before)) && t.replacements && !t.rateLimited
    ensures Submits(t) && Refreshes(t) && Uncovered(Positions(t), t.orders, "X") && Uncovered(Positions(t), LatestOrders(t), "X")
  {
    var row := AccountRow("X", Both, 1.0);
    info := Some(AccountInfo(Some([row]), ""));
    var first := [RiskRow("X", 1.0)];
    assert [row][..0] == [] && [] + first == first;
    assert RowsOf([row]) == first;
    t := Tick(true, true, true, first, [], Some(StoredProjection(map[], [])), true, false, View([]), [], []);
    assert first[..0] == [];
    assert Positions(t) == map["X" := 1.0];
  }
}
