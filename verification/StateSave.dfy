/** One stored strategy state, two writers: the poll process and the user-stream process. Each save is
    one atomic read-modify-write; removal markers and stop-loss exit markers decide which position survives. */
module StateSave {
  import opened Common
  import opened Models
  import opened PositionMerge

  // microseconds
  const MAX_PROCESSED_EVENT_ID_AGE := 24 * 3_600_000_000

  /** The clock as a save writes it: always with a zone. */
  type Stamp = m: Marker | m.Aware? witness Aware("", 0)

  datatype OrderStatus = OrderStatus(eventTime: Option<Marker>, detail: string)

  datatype StoredState = StoredState(
    currentDay: string, previousLeader: Option<string>,
    dailyBaseSignalTimes: map<string, string>, dailyBaseSignalCounts: map<string, int>,
    positions: map<string, Position>, processedEventIds: map<string, Marker>, orderStatuses: map<string, OrderStatus>,
    recentStopLossExits: map<string, Marker>, removalMarkers: map<string, Marker>, lastAddOnHour: Option<int>)

  function Get<K, V>(m: map<K, V>, k: K): Option<V> {
    if k in m then Some(m[k]) else None
  }

  lemma {:induction false} SameEntries<K, V>(m: map<K, V>, n: map<K, V>)
    requires forall k :: Get(m, k) == Get(n, k)
    ensures m == n
  {
    forall k ensures k in m <==> k in n {
      assert Get(m, k) == Get(n, k);
    }
    forall k | k in m ensures m[k] == n[k] {
      assert Get(m, k) == Get(n, k);
    }
  }

  // ----- reading an existing state that may not be there -----

  function Positions(s: Option<StoredState>): map<string, Position> { if s.None? then map[] else s.value.positions }

  function Removals(s: Option<StoredState>): map<string, Marker> { if s.None? then map[] else s.value.removalMarkers }

  function Exits(s: Option<StoredState>): map<string, Marker> { if s.None? then map[] else s.value.recentStopLossExits }

  function SlotOf(positions: map<string, Position>, removals: map<string, Marker>, symbol: string): Slot {
    (Get(positions, symbol), Get(removals, symbol))
  }

  // ----- exit markers -----

  /** The later of two markers for one symbol; the candidate wins a tie, and a readable one beats an unreadable one. */
  function LaterMarker(existing: Option<Marker>, candidate: Option<Marker>): Option<Marker> {
    if candidate.None? then existing
    else if existing.None? then candidate
    else
      var e, c := Time(existing.value), Time(candidate.value);
      if c.Some? && (e.None? || c.value >= e.value) then candidate else existing
  }

  function MergedMarkers(existing: map<string, Marker>, candidate: map<string, Marker>): (r: map<string, Marker>)
    ensures forall k :: Get(r, k) == LaterMarker(Get(existing, k), Get(candidate, k))
  {
    map k | k in existing.Keys + candidate.Keys :: LaterMarker(Get(existing, k), Get(candidate, k)).value
  }

  method MergeLatestMarkers(existing: map<string, Marker>, candidate: map<string, Marker>) returns (merged: map<string, Marker>)
    ensures merged == MergedMarkers(existing, candidate)
  {
    merged := existing;
    var todo := candidate.Keys;
    while todo != {}
      invariant todo <= candidate.Keys
      invariant forall k :: Get(merged, k) == LaterMarker(Get(existing, k), if k in todo then None else Get(candidate, k))
      decreases todo
    {
      var symbol :| symbol in todo;
      assert Get(merged, symbol) == Get(existing, symbol);
      var value := candidate[symbol];
      if symbol !in merged {
        merged := merged[symbol := value];
      } else {
        var existingTime, candidateTime := Time(merged[symbol]), Time(value);
        if existingTime.None? && candidateTime.Some? {
          merged := merged[symbol := value];
        } else if existingTime.Some? && candidateTime.Some? && candidateTime.value >= existingTime.value {
          merged := merged[symbol := value];
        }
      }
      todo := todo - {symbol};
    }
    SameEntries(merged, MergedMarkers(existing, candidate));
  }

  // ----- the poll save, symbol by symbol -----

  predicate Removes(current: Option<Position>, expected: Option<Position>) {
    current.Some? && expected.Some? && !NewerVersion(current.value, expected.value)
  }

  /** A position and a removal marker of one symbol. */
  type Slot = (Option<Position>, Option<Marker>)

  function AfterRemoval(slot: Slot, expected: Option<Position>, now: Option<Stamp>): Slot {
    if Removes(slot.0, expected) then (None, if now.Some? then now else slot.1) else slot
  }

  function AfterExit(slot: Slot, exit: Option<Marker>): Slot {
    if slot.0.Some? && !OpenedAfterExit(slot.0.value, exit) then (None, slot.1) else slot
  }

  function AfterCandidate(slot: Slot, exit: Option<Marker>, candidate: Option<Position>): Slot {
    if candidate.None? || (slot.1.Some? && !HasLegOpenedAfter(candidate.value, slot.1.value)) then slot
    else if OpenedAfterExit(candidate.value, exit) then (Some(MergeHistory(slot.0, candidate.value)), None)
    else (slot.0, None)
  }

  /** What one symbol's position and removal marker become in a poll save. */
  function PollFate(slot: Slot, exit: Option<Marker>, expected: Option<Position>, candidate: Option<Position>, now: Option<Stamp>): Slot {
    AfterCandidate(AfterExit(AfterRemoval(slot, expected, now), exit), exit, candidate)
  }

  /** What the poll process brings to a save. `now` is the zoned text of the tick's time, if it is given. */
  datatype PollUpdate = PollUpdate(
    currentDay: string, previousLeader: Option<string>,
    dailyBaseSignalTimes: map<string, string>, dailyBaseSignalCounts: map<string, int>,
    positions: map<string, Position>, recentStopLossExits: map<string, Marker>, lastAddOnHour: Option<int>,
    removed: map<string, Position>, now: Option<Stamp>)

  function PollFateOf(s: Option<StoredState>, u: PollUpdate, symbol: string): Slot {
    PollFate(SlotOf(Positions(s), Removals(s), symbol), LaterMarker(Get(Exits(s), symbol), Get(u.recentStopLossExits, symbol)),
             Get(u.removed, symbol), Get(u.positions, symbol), u.now)
  }

  function PollSave(s: Option<StoredState>, u: PollUpdate): StoredState {
    var symbols := Positions(s).Keys + Removals(s).Keys + u.removed.Keys + u.positions.Keys;
    StoredState(
      u.currentDay, u.previousLeader, u.dailyBaseSignalTimes, u.dailyBaseSignalCounts,
      map symbol | symbol in symbols && PollFateOf(s, u, symbol).0.Some? :: PollFateOf(s, u, symbol).0.value,
      if s.None? then map[] else s.value.processedEventIds,
      if s.None? then map[] else s.value.orderStatuses,
      MergedMarkers(Exits(s), u.recentStopLossExits),
      map symbol | symbol in symbols && PollFateOf(s, u, symbol).1.Some? :: PollFateOf(s, u, symbol).1.value,
      if u.lastAddOnHour.Some? then u.lastAddOnHour else if s.Some? then s.value.lastAddOnHour else None)
  }

  // ----- the stream save, symbol by symbol -----

  function AfterStreamCandidate(slot: Slot, candidate: Option<Position>): Slot {
    if candidate.None? || (slot.1.Some? && !HasLegOpenedAfter(candidate.value, slot.1.value)) then slot
    else (Some(MergeHistory(slot.0, candidate.value)), None)
  }

  function AfterStreamRemoval(slot: Slot, removes: bool, expected: Option<Position>, now: Stamp): Slot {
    if !removes || (expected.Some? && slot.0.Some? && NewerVersion(slot.0.value, expected.value)) then slot
    else (None, Some(now))
  }

  /** What one symbol's position and removal marker become in a stream save. */
  function StreamFate(slot: Slot, candidate: Option<Position>, removes: bool, expected: Option<Position>, now: Stamp): Slot {
    AfterStreamRemoval(AfterStreamCandidate(slot, candidate), removes, expected, now)
  }

  datatype StreamUpdate = StreamUpdate(
    currentDay: string, previousLeader: Option<string>, positions: map<string, Position>,
    processedEventIds: map<string, Marker>, orderStatuses: map<string, OrderStatus>,
    recentStopLossExits: map<string, Marker>, lastAddOnHour: Option<int>,
    removedSymbols: set<string>, removed: map<string, Position>, removedOrderKeys: set<string>, now: Stamp)

  function StreamFateOf(s: Option<StoredState>, u: StreamUpdate, symbol: string): Slot {
    StreamFate(SlotOf(Positions(s), Removals(s), symbol), Get(u.positions, symbol),
               symbol in u.removedSymbols, Get(u.removed, symbol), u.now)
  }

  /** Event ids older than the cutoff are dropped; an id whose time cannot be compared is kept. */
  function PrunedIds(ids: map<string, Marker>, cutoff: int): map<string, Marker> {
    map id | id in ids && (ids[id].Aware? ==> ids[id].time >= cutoff) :: ids[id]
  }

  function EventTime(status: OrderStatus): Option<int> {
    if status.eventTime.Some? then Time(status.eventTime.value) else None
  }

  function MergedStatus(existing: Option<OrderStatus>, candidate: Option<OrderStatus>): Option<OrderStatus> {
    if candidate.None? then existing
    else if existing.None? then candidate
    else
      var e, c := EventTime(existing.value), EventTime(candidate.value);
      if e.None? || c.None? || c.value >= e.value then candidate else existing
  }

  function MergedStatuses(existing: map<string, OrderStatus>, candidate: map<string, OrderStatus>, removed: set<string>): (r: map<string, OrderStatus>)
    ensures forall k :: Get(r, k) == MergedStatus(if k in removed then None else Get(existing, k), Get(candidate, k))
  {
    var kept := existing - removed;
    map k | k in kept.Keys + candidate.Keys :: MergedStatus(Get(kept, k), Get(candidate, k)).value
  }

  function StreamSave(s: Option<StoredState>, u: StreamUpdate): StoredState {
    var symbols := Positions(s).Keys + Removals(s).Keys + u.removedSymbols + u.positions.Keys;
    StoredState(
      if s.Some? then s.value.currentDay else u.currentDay,
      if s.Some? && s.value.previousLeader.Some? then s.value.previousLeader else u.previousLeader,
      if s.Some? then s.value.dailyBaseSignalTimes else map[],
      if s.Some? then s.value.dailyBaseSignalCounts else map[],
      map symbol | symbol in symbols && StreamFateOf(s, u, symbol).0.Some? :: StreamFateOf(s, u, symbol).0.value,
      PrunedIds(u.processedEventIds, u.now.time - MAX_PROCESSED_EVENT_ID_AGE),
      MergedStatuses(if s.Some? then s.value.orderStatuses else map[], u.orderStatuses, u.removedOrderKeys),
      MergedMarkers(Exits(s), u.recentStopLossExits),
      map symbol | symbol in symbols && StreamFateOf(s, u, symbol).1.Some? :: StreamFateOf(s, u, symbol).1.value,
      if s.Some? && s.value.lastAddOnHour.Some? then s.value.lastAddOnHour else u.lastAddOnHour)
  }

  // ----- the loops of the two saves -----

  method RemoveExpected(positions0: map<string, Position>, removals0: map<string, Marker>, removed: map<string, Position>, now: Option<Stamp>)
    returns (positions: map<string, Position>, removals: map<string, Marker>)
    ensures forall k :: SlotOf(positions, removals, k) == AfterRemoval(SlotOf(positions0, removals0, k), Get(removed, k), now)
  {
    positions, removals := positions0, removals0;
    var todo := removed.Keys;
    while todo != {}
      invariant todo <= removed.Keys
      invariant forall k :: SlotOf(positions, removals, k)
                         == AfterRemoval(SlotOf(positions0, removals0, k), if k in todo then None else Get(removed, k), now)
      decreases todo
    {
      var symbol :| symbol in todo;
      assert SlotOf(positions, removals, symbol) == SlotOf(positions0, removals0, symbol);
      if symbol in positions && !NewerVersion(positions[symbol], removed[symbol]) {
        positions := positions - {symbol};
        if now.Some? {
          removals := removals[symbol := now.value];
        }
      }
      todo := todo - {symbol};
    }
  }

  method RemoveExited(positions0: map<string, Position>, exits: map<string, Marker>, ghost removals: map<string, Marker>)
    returns (positions: map<string, Position>)
    ensures forall k :: SlotOf(positions, removals, k) == AfterExit(SlotOf(positions0, removals, k), Get(exits, k))
  {
    positions := positions0;
    var todo := exits.Keys;
    while todo != {}
      invariant todo <= exits.Keys
      invariant forall k :: SlotOf(positions, removals, k)
                         == AfterExit(SlotOf(positions0, removals, k), if k in todo then None else Get(exits, k))
      decreases todo
    {
      var symbol :| symbol in todo;
      assert SlotOf(positions, removals, symbol) == SlotOf(positions0, removals, symbol);
      if symbol in positions && !OpenedAfterExit(positions[symbol], Get(exits, symbol)) {
        positions := positions - {symbol};
      }
      todo := todo - {symbol};
    }
  }

  method MergeCandidates(positions0: map<string, Position>, removals0: map<string, Marker>, exits: map<string, Marker>,
                         candidates: map<string, Position>)
    returns (positions: map<string, Position>, removals: map<string, Marker>)
    ensures forall k :: SlotOf(positions, removals, k)
                     == AfterCandidate(SlotOf(positions0, removals0, k), Get(exits, k), Get(candidates, k))
  {
    positions, removals := positions0, removals0;
    var todo := candidates.Keys;
    while todo != {}
      invariant todo <= candidates.Keys
      invariant forall k :: SlotOf(positions, removals, k)
                         == AfterCandidate(SlotOf(positions0, removals0, k), Get(exits, k), if k in todo then None else Get(candidates, k))
      decreases todo
    {
      var symbol :| symbol in todo;
      assert SlotOf(positions, removals, symbol) == SlotOf(positions0, removals0, symbol);
      var position := candidates[symbol];
      todo := todo - {symbol};
      if symbol in removals {
        if !HasLegOpenedAfter(position, removals[symbol]) {
          continue;
        }
        removals := removals - {symbol};
      }
      if symbol !in exits || OpenedAfterExit(position, Get(exits, symbol)) {
        positions := positions[symbol := MergeHistory(Get(positions, symbol), position)];
      }
    }
  }

  method MergeStreamCandidates(positions0: map<string, Position>, removals0: map<string, Marker>, candidates: map<string, Position>)
    returns (positions: map<string, Position>, removals: map<string, Marker>)
    ensures forall k :: SlotOf(positions, removals, k) == AfterStreamCandidate(SlotOf(positions0, removals0, k), Get(candidates, k))
  {
    positions, removals := positions0, removals0;
    var todo := candidates.Keys;
    while todo != {}
      invariant todo <= candidates.Keys
      invariant forall k :: SlotOf(positions, removals, k)
                         == AfterStreamCandidate(SlotOf(positions0, removals0, k), if k in todo then None else Get(candidates, k))
      decreases todo
    {
      var symbol :| symbol in todo;
      assert SlotOf(positions, removals, symbol) == SlotOf(positions0, removals0, symbol);
      var position := candidates[symbol];
      todo := todo - {symbol};
      if symbol in removals {
        if !HasLegOpenedAfter(position, removals[symbol]) {
          continue;
        }
        removals := removals - {symbol};
      }
      positions := positions[symbol := MergeHistory(Get(positions, symbol), position)];
    }
  }

  method RemoveClosed(positions0: map<string, Position>, removals0: map<string, Marker>, symbols: set<string>,
                      removed: map<string, Position>, now: Stamp)
    returns (positions: map<string, Position>, removals: map<string, Marker>)
    ensures forall k :: SlotOf(positions, removals, k)
                     == AfterStreamRemoval(SlotOf(positions0, removals0, k), k in symbols, Get(removed, k), now)
  {
    positions, removals := positions0, removals0;
    var todo := symbols;
    while todo != {}
      invariant todo <= symbols
      invariant forall k :: SlotOf(positions, removals, k)
                         == AfterStreamRemoval(SlotOf(positions0, removals0, k), k in symbols - todo, Get(removed, k), now)
      decreases todo
    {
      var symbol :| symbol in todo;
      assert SlotOf(positions, removals, symbol) == SlotOf(positions0, removals0, symbol);
      todo := todo - {symbol};
      if symbol in removed && symbol in positions && NewerVersion(positions[symbol], removed[symbol]) {
        continue;
      }
      positions := positions - {symbol};
      removals := removals[symbol := now];
    }
  }

  method MergeOrderStatuses(existing: map<string, OrderStatus>, candidate: map<string, OrderStatus>, removed: set<string>)
    returns (merged: map<string, OrderStatus>)
    ensures merged == MergedStatuses(existing, candidate, removed)
  {
    merged := existing - removed;
    var todo := candidate.Keys;
    while todo != {}
      invariant todo <= candidate.Keys
      invariant forall k :: Get(merged, k) == MergedStatus(Get(existing - removed, k), if k in todo then None else Get(candidate, k))
      decreases todo
    {
      var key :| key in todo;
      assert Get(merged, key) == Get(existing - removed, key);
      todo := todo - {key};
      if key !in merged {
        merged := merged[key := candidate[key]];
        continue;
      }
      var existingTime, candidateTime := EventTime(merged[key]), EventTime(candidate[key]);
      if existingTime.None? || candidateTime.None? || candidateTime.value >= existingTime.value {
        merged := merged[key := candidate[key]];
      }
    }
    SameEntries(merged, MergedStatuses(existing, candidate, removed));
  }

  // ----- the two writers -----

  class RuntimeStateStore {
    var stored: Option<StoredState>

    constructor ()
      ensures stored == None
    {
      stored := None;
    }

    method SaveStrategyState(u: PollUpdate)
      modifies this
      ensures stored == Some(PollSave(old(stored), u))
    {
      var positions, removals := RemoveExpected(Positions(stored), Removals(stored), u.removed, u.now);
      var exits := MergeLatestMarkers(Exits(stored), u.recentStopLossExits);
      positions := RemoveExited(positions, exits, removals);
      positions, removals := MergeCandidates(positions, removals, exits, u.positions);
      PollSlots(stored, u, positions, removals);
      stored := Some(StoredState(
        u.currentDay, u.previousLeader, u.dailyBaseSignalTimes, u.dailyBaseSignalCounts, positions,
        if stored.None? then map[] else stored.value.processedEventIds,
        if stored.None? then map[] else stored.value.orderStatuses,
        exits, removals,
        if u.lastAddOnHour.Some? then u.lastAddOnHour else if stored.Some? then stored.value.lastAddOnHour else None));
    }

    method SaveUserStreamState(u: StreamUpdate)
      modifies this
      ensures stored == Some(StreamSave(old(stored), u))
    {
      var positions, removals := MergeStreamCandidates(Positions(stored), Removals(stored), u.positions);
      positions, removals := RemoveClosed(positions, removals, u.removedSymbols, u.removed, u.now);
      var exits := MergeLatestMarkers(Exits(stored), u.recentStopLossExits);
      var statuses := MergeOrderStatuses(if stored.Some? then stored.value.orderStatuses else map[], u.orderStatuses, u.removedOrderKeys);
      StreamSlots(stored, u, positions, removals);
      stored := Some(StoredState(
        if stored.Some? then stored.value.currentDay else u.currentDay,
        if stored.Some? && stored.value.previousLeader.Some? then stored.value.previousLeader else u.previousLeader,
        if stored.Some? then stored.value.dailyBaseSignalTimes else map[],
        if stored.Some? then stored.value.dailyBaseSignalCounts else map[],
        positions, PrunedIds(u.processedEventIds, u.now.time - MAX_PROCESSED_EVENT_ID_AGE), statuses, exits, removals,
        if stored.Some? && stored.value.lastAddOnHour.Some? then stored.value.lastAddOnHour else u.lastAddOnHour));
    }
  }

  lemma {:induction false} PollSlots(s: Option<StoredState>, u: PollUpdate, positions: map<string, Position>, removals: map<string, Marker>)
    requires forall k :: SlotOf(positions, removals, k) == PollFateOf(s, u, k)
    ensures positions == PollSave(s, u).positions && removals == PollSave(s, u).removalMarkers
  {
    forall k ensures Get(positions, k) == Get(PollSave(s, u).positions, k) && Get(removals, k) == Get(PollSave(s, u).removalMarkers, k) {
      assert SlotOf(positions, removals, k) == PollFateOf(s, u, k);
    }
    SameEntries(positions, PollSave(s, u).positions);
    SameEntries(removals, PollSave(s, u).removalMarkers);
  }

  lemma {:induction false} StreamSlots(s: Option<StoredState>, u: StreamUpdate, positions: map<string, Position>, removals: map<string, Marker>)
    requires forall k :: SlotOf(positions, removals, k) == StreamFateOf(s, u, k)
    ensures positions == StreamSave(s, u).positions && removals == StreamSave(s, u).removalMarkers
  {
    forall k ensures Get(positions, k) == Get(StreamSave(s, u).positions, k) && Get(removals, k) == Get(StreamSave(s, u).removalMarkers, k) {
      assert SlotOf(positions, removals, k) == StreamFateOf(s, u, k);
    }
    SameEntries(positions, StreamSave(s, u).positions);
    SameEntries(removals, StreamSave(s, u).removalMarkers);
  }
}
