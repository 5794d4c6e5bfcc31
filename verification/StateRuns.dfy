/** What every interleaving of poll saves and stream saves keeps true of the stored state. */
module StateRuns {
  import opened Common
  import opened Models
  import opened PositionMerge
  import opened StateSave

  datatype Write = Poll(poll: PollUpdate) | Stream(stream: StreamUpdate)

  function Apply(s: Option<StoredState>, w: Write): StoredState {
    match w
    case Poll(u) => PollSave(s, u)
    case Stream(u) => StreamSave(s, u)
  }

  /** The stored state after the writes, in order. */
  function Run(s: Option<StoredState>, writes: seq<Write>): Option<StoredState>
    decreases |writes|
  {
    if writes == [] then s else Run(Some(Apply(s, writes[0])), writes[1..])
  }

  function Slot0(s: Option<StoredState>, symbol: string): Slot { SlotOf(Positions(s), Removals(s), symbol) }

  function FateOf(s: Option<StoredState>, w: Write, symbol: string): Slot {
    match w
    case Poll(u) => PollFateOf(s, u, symbol)
    case Stream(u) => StreamFateOf(s, u, symbol)
  }

  lemma {:induction false} AppliedSlot(s: Option<StoredState>, w: Write, symbol: string)
    ensures Slot0(Some(Apply(s, w)), symbol) == FateOf(s, w, symbol)
  {
  }

  // ----- what one save makes of a symbol -----

  /** The marker lets a position pass: there is none, or a leg was opened after it; an unreadable one lets nothing pass. */
  predicate PassesRemoval(p: Position, marker: Option<Marker>) {
    marker.None? || (!marker.value.Unreadable? && HasLegAfter(p, marker.value.time))
  }

  /** The exit lets a position pass: there is none, it cannot be read, or a leg was opened after it; one without a zone lets
      everything pass that has a leg. */
  predicate PassesExit(p: Position, exit: Option<Marker>) {
    exit.None? || exit.value.Unreadable? || (if exit.value.Aware? then HasLegAfter(p, exit.value.time) else p.legs != [])
  }

  lemma {:induction false} PassesExactly(p: Position, marker: Option<Marker>)
    ensures PassesRemoval(p, marker) <==> (marker.Some? ==> HasLegOpenedAfter(p, marker.value))
    ensures PassesExit(p, marker) <==> OpenedAfterExit(p, marker)
  {
    if marker.Some? && !marker.value.Unreadable? {
      OpenedAfterIsLeg(p, marker.value.time);
    }
  }

  /** The position was listed for removal, and the stored copy is no newer than the one that was read. */
  predicate Dropped(position: Option<Position>, listed: Option<Position>) {
    position.Some? && listed.Some? && !NewerVersion(position.value, listed.value)
  }

  /** The removal marker that stands once a poll save has made its own removals. */
  function Standing(slot: Slot, listed: Option<Position>, now: Option<Stamp>): Option<Marker> {
    if Dropped(slot.0, listed) && now.Some? then now else slot.1
  }

  /** What survives of the stored position: all of it, unless it is dropped or the exit does not let it pass. */
  function Surviving(slot: Slot, listed: Option<Position>, exit: Option<Marker>): Option<Position> {
    if slot.0.Some? && !Dropped(slot.0, listed) && PassesExit(slot.0.value, exit) then slot.0 else None
  }

  lemma {:induction false} FateExactly(slot: Slot, exit: Option<Marker>, listed: Option<Position>, candidate: Option<Position>, now: Option<Stamp>)
    ensures var standing, surviving := Standing(slot, listed, now), Surviving(slot, listed, exit);
            PollFate(slot, exit, listed, candidate, now)
            == if candidate.None? || !PassesRemoval(candidate.value, standing) then (surviving, standing)
               else (if PassesExit(candidate.value, exit) then Some(MergeHistory(surviving, candidate.value)) else surviving, None)
  {
    var standing := Standing(slot, listed, now);
    if slot.0.Some? {
      PassesExactly(slot.0.value, exit);
    }
    if candidate.Some? {
      PassesExactly(candidate.value, exit);
      PassesExactly(candidate.value, standing);
    }
  }

  function StandingMarker(s: Option<StoredState>, u: PollUpdate, symbol: string): Option<Marker> {
    Standing(Slot0(s, symbol), Get(u.removed, symbol), u.now)
  }

  function SurvivingPosition(s: Option<StoredState>, u: PollUpdate, symbol: string): Option<Position> {
    Surviving(Slot0(s, symbol), Get(u.removed, symbol), Get(PollSave(s, u).recentStopLossExits, symbol))
  }

  /** The poll's own position passes the standing marker and the exit. */
  predicate Enters(s: Option<StoredState>, u: PollUpdate, symbol: string) {
    symbol in u.positions && PassesRemoval(u.positions[symbol], StandingMarker(s, u, symbol))
    && PassesExit(u.positions[symbol], Get(PollSave(s, u).recentStopLossExits, symbol))
  }

  lemma {:induction false} PollFateExactly(s: Option<StoredState>, u: PollUpdate, symbol: string)
    ensures var exit := Get(PollSave(s, u).recentStopLossExits, symbol);
            Slot0(Some(PollSave(s, u)), symbol)
            == PollFate(Slot0(s, symbol), exit, Get(u.removed, symbol), Get(u.positions, symbol), u.now)
  {
    AppliedSlot(s, Poll(u), symbol);
    assert Get(PollSave(s, u).recentStopLossExits, symbol) == LaterMarker(Get(Exits(s), symbol), Get(u.recentStopLossExits, symbol));
  }

  /** What a poll save stores for a symbol. The poll's position is stored, with its own quantity and merged with the history
      of a position that survives, exactly when it passes; otherwise exactly a position that survives stays, as it was. */
  lemma {:induction false} PollSaveExactly(s: Option<StoredState>, u: PollUpdate, symbol: string)
    ensures var stored, surviving := Get(PollSave(s, u).positions, symbol), SurvivingPosition(s, u, symbol);
            if Enters(s, u, symbol) then
              && stored == Some(MergeHistory(surviving, u.positions[symbol]))
              && SumQuantity(stored.value.legs) == SumQuantity(u.positions[symbol].legs)
            else stored == surviving
  {
    PollFateExactly(s, u, symbol);
    FateExactly(Slot0(s, symbol), Get(PollSave(s, u).recentStopLossExits, symbol), Get(u.removed, symbol), Get(u.positions, symbol), u.now);
    if symbol in u.positions {
      MergeFollowsExchange(SurvivingPosition(s, u, symbol), u.positions[symbol]);
    }
  }

  /** And which removal marker it leaves: the standing one, unless a position of the poll passes it. */
  lemma {:induction false} PollMarkerExactly(s: Option<StoredState>, u: PollUpdate, symbol: string)
    ensures Get(PollSave(s, u).removalMarkers, symbol)
         == if symbol in u.positions && PassesRemoval(u.positions[symbol], StandingMarker(s, u, symbol)) then None else StandingMarker(s, u, symbol)
  {
    PollFateExactly(s, u, symbol);
    FateExactly(Slot0(s, symbol), Get(PollSave(s, u).recentStopLossExits, symbol), Get(u.removed, symbol), Get(u.positions, symbol), u.now);
  }

  /** A removal takes effect: a listed copy that is not newer is gone and marked with the time, unless the same save brings a
      position that was opened after it. */
  lemma {:induction false} RemovalTakesEffect(s: Option<StoredState>, u: PollUpdate, symbol: string)
    requires symbol in Positions(s) && symbol in u.removed && !NewerVersion(Positions(s)[symbol], u.removed[symbol]) && u.now.Some?
    requires symbol in u.positions ==> !HasLegAfter(u.positions[symbol], u.now.value.time)
    ensures symbol !in PollSave(s, u).positions && Get(PollSave(s, u).removalMarkers, symbol) == u.now
  {
    PollSaveExactly(s, u, symbol);
    PollMarkerExactly(s, u, symbol);
  }

  /** The stream's position passes the removal marker. */
  predicate StreamEnters(s: Option<StoredState>, u: StreamUpdate, symbol: string) {
    symbol in u.positions && PassesRemoval(u.positions[symbol], Get(Removals(s), symbol))
  }

  /** What is there for a symbol before a stream save removes: the stream's position if it passes, else the stored one. */
  function StreamHolds(s: Option<StoredState>, u: StreamUpdate, symbol: string): Option<Position> {
    if StreamEnters(s, u, symbol) then Some(MergeHistory(Get(Positions(s), symbol), u.positions[symbol])) else Get(Positions(s), symbol)
  }

  /** A symbol that the stream closes goes, unless what is there is newer than the copy that was closed. */
  predicate Closes(s: Option<StoredState>, u: StreamUpdate, symbol: string) {
    symbol in u.removedSymbols
    && !(symbol in u.removed && StreamHolds(s, u, symbol).Some? && NewerVersion(StreamHolds(s, u, symbol).value, u.removed[symbol]))
  }

  /** What a stream save makes of a symbol. */
  lemma {:induction false} StreamSaveExactly(s: Option<StoredState>, u: StreamUpdate, symbol: string)
    ensures var after := StreamSave(s, u);
            if Closes(s, u, symbol) then symbol !in after.positions && Get(after.removalMarkers, symbol) == Some(u.now)
            else
              && Get(after.positions, symbol) == StreamHolds(s, u, symbol)
              && Get(after.removalMarkers, symbol) == (if StreamEnters(s, u, symbol) then None else Get(Removals(s), symbol))
  {
    AppliedSlot(s, Stream(u), symbol);
    if symbol in u.positions {
      PassesExactly(u.positions[symbol], Get(Removals(s), symbol));
    }
  }

  // ----- the other fields -----

  /** A poll save takes over its own fields and leaves the stream's; an add-on hour it does not give stays. */
  lemma {:induction false} PollFieldsExactly(s: Option<StoredState>, u: PollUpdate)
    ensures var after := PollSave(s, u);
            && (after.currentDay, after.previousLeader) == (u.currentDay, u.previousLeader)
            && (after.dailyBaseSignalTimes, after.dailyBaseSignalCounts) == (u.dailyBaseSignalTimes, u.dailyBaseSignalCounts)
            && (u.lastAddOnHour != None ==> after.lastAddOnHour == u.lastAddOnHour)
            && (u.lastAddOnHour == None && s.Some? ==> after.lastAddOnHour == s.value.lastAddOnHour)
            && (u.lastAddOnHour == None && s.None? ==> after.lastAddOnHour == None)
            && (s.Some? ==> (after.processedEventIds, after.orderStatuses) == (s.value.processedEventIds, s.value.orderStatuses))
            && (s.None? ==> (after.processedEventIds, after.orderStatuses) == (map[], map[]))
  {
  }

  /** A stream save gives day, leader and add-on hour only where nothing is stored. */
  lemma {:induction false} StreamFieldsExactly(s: Option<StoredState>, u: StreamUpdate)
    ensures var after := StreamSave(s, u);
            && (s.None? ==> (after.currentDay, after.previousLeader, after.lastAddOnHour) == (u.currentDay, u.previousLeader, u.lastAddOnHour))
            && (s.Some? ==> after.currentDay == s.value.currentDay
                            && after.previousLeader == (if s.value.previousLeader == None then u.previousLeader else s.value.previousLeader)
                            && after.lastAddOnHour == (if s.value.lastAddOnHour == None then u.lastAddOnHour else s.value.lastAddOnHour)
                            && (after.dailyBaseSignalTimes, after.dailyBaseSignalCounts) == (s.value.dailyBaseSignalTimes, s.value.dailyBaseSignalCounts))
            && (s.None? ==> (after.dailyBaseSignalTimes, after.dailyBaseSignalCounts) == (map[], map[]))
  {
  }

  /** An event id of the stream is kept exactly unless it has a zoned time more than 24 hours (in microseconds) before now. */
  lemma {:induction false} EventIdsExactly(s: Option<StoredState>, u: StreamUpdate, id: string)
    ensures Get(StreamSave(s, u).processedEventIds, id)
         == if id in u.processedEventIds && u.processedEventIds[id].Aware? && u.now.time - u.processedEventIds[id].time > 86_400 * 1_000_000 then None
            else Get(u.processedEventIds, id)
  {
  }

  function EventTimeOf(status: OrderStatus): Option<int> {
    if status.eventTime == None || status.eventTime.value.Unreadable? then None else Some(status.eventTime.value.time)
  }

  /** An order status that the stream brings is stored, exactly unless one is stored that was not removed and both have a time,
      the stored one's being later; a removed key without a new status goes. */
  lemma {:induction false} StatusExactly(s: Option<StoredState>, u: StreamUpdate, key: string)
    ensures var stored, brought := if s.Some? && key !in u.removedOrderKeys then Get(s.value.orderStatuses, key) else None, Get(u.orderStatuses, key);
            Get(StreamSave(s, u).orderStatuses, key)
            == if brought == None then stored
               else if stored.Some? && EventTimeOf(stored.value).Some? && EventTimeOf(brought.value).Some?
                       && EventTimeOf(stored.value).value > EventTimeOf(brought.value).value then stored
               else brought
  {
  }

  /** Of two exit markers the one that is offered replaces the stored one exactly when nothing is stored, or it has a time and
      the stored one has none or no later one. */
  lemma {:induction false} ExitsExactly(s: Option<StoredState>, w: Write, symbol: string)
    ensures var stored, offered := Get(Exits(s), symbol), Get(ExitsOf(w), symbol);
            Get(Apply(s, w).recentStopLossExits, symbol)
            == if offered.Some? && (stored.None? || (!offered.value.Unreadable? && (stored.value.Unreadable? || stored.value.time <= offered.value.time)))
               then offered else stored
  {
  }

  // ----- a symbol is never both held and removed -----

  ghost predicate Exclusive(s: Option<StoredState>) {
    Positions(s).Keys !! Removals(s).Keys
  }

  lemma {:induction false} WriteKeepsExclusive(s: Option<StoredState>, w: Write)
    requires Exclusive(s)
    ensures Exclusive(Some(Apply(s, w)))
  {
    forall symbol ensures !(symbol in Apply(s, w).positions && symbol in Apply(s, w).removalMarkers) {
      AppliedSlot(s, w, symbol);
      var slot := Slot0(s, symbol);
      assert !(slot.0.Some? && slot.1.Some?);
    }
  }

  lemma {:induction false} RunKeepsExclusive(s: Option<StoredState>, writes: seq<Write>)
    requires Exclusive(s)
    ensures Exclusive(Run(s, writes))
    decreases |writes|
  {
    if writes == [] {
    } else {
      WriteKeepsExclusive(s, writes[0]);
      RunKeepsExclusive(Some(Apply(s, writes[0])), writes[1..]);
    }
  }

  // ----- who may delete -----

  /** A poll save deletes a stored position only when the poll listed it for removal and the stored copy is no newer
      than the one it read, or when a readable stop-loss exit marker postdates every leg. */
  lemma {:induction false} PollDeletesOnlyWithCause(s: Option<StoredState>, u: PollUpdate, symbol: string)
    requires symbol in Positions(s) && symbol !in PollSave(s, u).positions
    ensures var position := Positions(s)[symbol];
            var exit := Get(PollSave(s, u).recentStopLossExits, symbol);
            || (symbol in u.removed && !NewerVersion(position, u.removed[symbol]))
            || (exit.Some? && !exit.value.Unreadable? && forall leg :: leg in position.legs ==> exit.value.Aware? && leg.openedAt <= exit.value.time)
  {
    AppliedSlot(s, Poll(u), symbol);
    var exit := Get(PollSave(s, u).recentStopLossExits, symbol);
    assert exit == LaterMarker(Get(Exits(s), symbol), Get(u.recentStopLossExits, symbol));
    var position := Positions(s)[symbol];
    if !Removes(Some(position), Get(u.removed, symbol)) {
      assert !OpenedAfterExit(position, exit);
    }
  }

  /** A removal that was decided on an outdated copy has no effect at all. */
  lemma {:induction false} StaleRemovalIgnored(s: Option<StoredState>, u: PollUpdate, symbol: string)
    requires symbol in Positions(s) && symbol in u.removed && NewerVersion(Positions(s)[symbol], u.removed[symbol])
    ensures PollSave(s, u) == PollSave(s, u.(removed := u.removed - {symbol}))
  {
    var without := u.(removed := u.removed - {symbol});
    forall k ensures SlotOf(PollSave(s, u).positions, PollSave(s, u).removalMarkers, k) == PollFateOf(s, without, k) {
      AppliedSlot(s, Poll(u), k);
    }
    PollSlots(s, without, PollSave(s, u).positions, PollSave(s, u).removalMarkers);
  }

  // ----- stop-loss exits -----

  lemma {:induction false} FateAfterExit(slot: Slot, exit: Option<Marker>, expected: Option<Position>, candidate: Option<Position>, now: Option<Stamp>)
    requires exit.Some? && exit.value.Aware?
    ensures var kept := PollFate(slot, exit, expected, candidate, now).0;
            kept.Some? ==> OpenedAfter(kept.value, exit.value.time)
  {
    var before := AfterExit(AfterRemoval(slot, expected, now), exit);
    if AfterCandidate(before, exit, candidate).0 != before.0 {
      MergedOpenedAfter(before.0, candidate.value, exit.value.time);
    }
  }

  /** After a poll save, every position of a symbol with a readable zoned exit marker has a leg opened after that exit,
      whatever the poll or an earlier writer believed. */
  lemma {:induction false} PollLeavesOnlyReopened(s: Option<StoredState>, u: PollUpdate, symbol: string)
    requires symbol in PollSave(s, u).positions && symbol in PollSave(s, u).recentStopLossExits
    requires PollSave(s, u).recentStopLossExits[symbol].Aware?
    ensures OpenedAfter(PollSave(s, u).positions[symbol], PollSave(s, u).recentStopLossExits[symbol].time)
  {
    AppliedSlot(s, Poll(u), symbol);
    var exit := Get(PollSave(s, u).recentStopLossExits, symbol);
    assert exit == LaterMarker(Get(Exits(s), symbol), Get(u.recentStopLossExits, symbol));
    FateAfterExit(Slot0(s, symbol), exit, Get(u.removed, symbol), Get(u.positions, symbol), u.now);
  }

  function OldLeg(time: int): PositionLeg {
    PositionLeg("A", 1.0, 1.0, 1.0, time - 1, Base, None, StrategyFill)
  }

  /** Which readable markers guard: exactly those with a zone. A marker without one lets every position with a leg pass,
      because comparing its time with a leg's zoned time fails and a failed comparison keeps the position. */
  lemma {:induction false} OnlyZonedMarkersGuard(exit: Marker)
    requires !exit.Unreadable?
    ensures (forall p: Position :: OpenedAfterExit(p, Some(exit)) ==> OpenedAfter(p, exit.time)) <==> exit.Aware?
  {
    if exit.Naive? {
      var p := Position("A", 1.0, [OldLeg(exit.time)]);
      assert OpenedAfterExit(p, Some(exit)) && !OpenedAfter(p, exit.time);
    }
  }

  /** The stream save takes the symbol's candidate: there is one, and it gets past the removal marker. */
  predicate StreamTakes(s: Option<StoredState>, u: StreamUpdate, symbol: string) {
    symbol in u.positions && (symbol in Removals(s) ==> HasLegOpenedAfter(u.positions[symbol], Removals(s)[symbol]))
  }

  /** Exactly when a stream save, which does not ask for exits, leaves a position with a leg opened after a given time:
      the legs that end up stored, the candidate's or the known ones, must have one. So it is for every exit marker. */
  lemma {:induction false} StreamLeavesReopened(s: Option<StoredState>, u: StreamUpdate, symbol: string, time: int)
    requires symbol in StreamSave(s, u).positions
    ensures var existing := Get(Positions(s), symbol);
            OpenedAfter(StreamSave(s, u).positions[symbol], time)
            <==> if StreamTakes(s, u, symbol) && TakesLegs(existing, u.positions[symbol]) then OpenedAfter(u.positions[symbol], time)
                 else existing.Some? && OpenedAfter(existing.value, time)
  {
    AppliedSlot(s, Stream(u), symbol);
    if StreamTakes(s, u, symbol) {
      MergedOpenedAfter(Get(Positions(s), symbol), u.positions[symbol], time);
    }
  }

  /** For instance: it can store a position that a readable zoned marker outdates. */
  lemma {:induction false} StreamIgnoresExits() returns (s: Option<StoredState>, u: StreamUpdate)
    ensures var after := StreamSave(s, u);
            && "A" in after.positions && "A" in after.recentStopLossExits && after.recentStopLossExits["A"].Aware?
            && !OpenedAfter(after.positions["A"], after.recentStopLossExits["A"].time)
  {
    var p := Position("A", 1.0, [OldLeg(5)]);
    s := None;
    u := StreamUpdate("", None, map["A" := p], map[], map[], map["A" := Aware("", 5)], None, {}, map[], {}, Aware("", 6));
    AppliedSlot(s, Stream(u), "A");
    var after := StreamSave(s, u);
    assert Slot0(Some(after), "A") == (Some(p), None);
    StreamLeavesReopened(s, u, "A", 5);
    assert Get(after.recentStopLossExits, "A") == Some(Aware("", 5));
  }

  // ----- exit markers -----

  /** How much a marker says: nothing stored, stored but unreadable, or a time. */
  datatype Rank = Missing | NoTime | At(time: int) {
    predicate AtLeast(other: Rank) {
      match other
      case Missing => true
      case NoTime => !Missing?
      case At(t) => At? && time >= t
    }
  }

  function RankOf(m: Option<Marker>): Rank {
    if m.None? then Missing else if Time(m.value).None? then NoTime else At(Time(m.value).value)
  }

  lemma {:induction false} LaterMarkerLaws(a: Option<Marker>, b: Option<Marker>, c: Option<Marker>)
    ensures LaterMarker(a, a) == a
    ensures LaterMarker(a, LaterMarker(b, c)) == LaterMarker(LaterMarker(a, b), c)
    ensures RankOf(LaterMarker(a, b)) == RankOf(LaterMarker(b, a))
    ensures LaterMarker(a, b) in [a, b]
    ensures RankOf(LaterMarker(a, b)).AtLeast(RankOf(a)) && RankOf(LaterMarker(a, b)).AtLeast(RankOf(b))
  {
  }

  function ExitsOf(w: Write): map<string, Marker> {
    if w.Poll? then w.poll.recentStopLossExits else w.stream.recentStopLossExits
  }

  /** The stored marker after a run is the latest of all that were ever offered: nobody's is dropped, none moves back,
      and the order of the writes cannot change its time. */
  lemma {:induction false} RunMarkerIsLatest(s: Option<StoredState>, writes: seq<Write>, symbol: string)
    ensures var last := Get(Exits(Run(s, writes)), symbol);
            && RankOf(last).AtLeast(RankOf(Get(Exits(s), symbol)))
            && (forall i :: 0 <= i < |writes| ==> RankOf(last).AtLeast(RankOf(Get(ExitsOf(writes[i]), symbol))))
            && (last == Get(Exits(s), symbol) || exists i :: 0 <= i < |writes| && last == Get(ExitsOf(writes[i]), symbol))
    decreases |writes|
  {
    if writes == [] {
    } else {
      var next := Some(Apply(s, writes[0]));
      var mine := Get(Exits(next), symbol);
      assert mine == LaterMarker(Get(Exits(s), symbol), Get(ExitsOf(writes[0]), symbol));
      RunMarkerIsLatest(next, writes[1..], symbol);
      var last := Get(Exits(Run(s, writes)), symbol);
      assert last == Get(Exits(Run(next, writes[1..])), symbol);
      LaterMarkerLaws(Get(Exits(s), symbol), Get(ExitsOf(writes[0]), symbol), None);
      forall i | 0 <= i < |writes| ensures RankOf(last).AtLeast(RankOf(Get(ExitsOf(writes[i]), symbol))) {
        if i > 0 {
          assert writes[i] == writes[1..][i - 1];
        }
      }
      if last != mine {
        var i :| 0 <= i < |writes[1..]| && last == Get(ExitsOf(writes[1..][i]), symbol);
        assert writes[1..][i] == writes[i + 1];
      }
    }
  }

  // ----- removed positions stay removed -----

  function CandidateOf(w: Write, symbol: string): Option<Position> {
    Get(if w.Poll? then w.poll.positions else w.stream.positions, symbol)
  }

  /** The write carries nothing opened after `time` for the symbol, and its clock has not gone back behind it. */
  predicate Outdated(w: Write, symbol: string, time: int) {
    && (CandidateOf(w, symbol).Some? ==> !OpenedAfter(CandidateOf(w, symbol).value, time))
    && match w
       case Poll(u) => u.now.Some? ==> u.now.value.time >= time
       case Stream(u) => u.now.time >= time
  }

  predicate RemovedSince(s: Option<StoredState>, symbol: string, time: int) {
    && symbol !in Positions(s) && symbol in Removals(s)
    && Removals(s)[symbol].Aware? && Removals(s)[symbol].time >= time
  }

  lemma {:induction false} WriteKeepsRemoved(s: Option<StoredState>, w: Write, symbol: string, time: int)
    requires RemovedSince(s, symbol, time) && Outdated(w, symbol, time)
    ensures RemovedSince(Some(Apply(s, w)), symbol, time)
  {
    AppliedSlot(s, w, symbol);
    var slot := Slot0(s, symbol);
    var candidate := CandidateOf(w, symbol);
    assert candidate.Some? ==> !HasLegOpenedAfter(candidate.value, slot.1.value);
    assert FateOf(s, w, symbol).0.None?;
  }

  /** A removed position is not brought back by any run of writes that still carry an outdated view of it. */
  lemma {:induction false} NoResurrection(s: Option<StoredState>, writes: seq<Write>, symbol: string, time: int)
    requires RemovedSince(s, symbol, time)
    requires forall i :: 0 <= i < |writes| ==> Outdated(writes[i], symbol, time)
    ensures RemovedSince(Run(s, writes), symbol, time)
    decreases |writes|
  {
    if writes == [] {
    } else {
      var w := writes[0];
      assert Outdated(w, symbol, time);
      WriteKeepsRemoved(s, w, symbol, time);
      forall i | 0 <= i < |writes[1..]| ensures Outdated(writes[1..][i], symbol, time) {
        assert writes[1..][i] == writes[i + 1];
      }
      NoResurrection(Some(Apply(s, w)), writes[1..], symbol, time);
    }
  }

  /** A reopened position is accepted: for a removed symbol, a stream save that does not also remove it stores a
      candidate exactly when the candidate has a leg opened after the removal. */
  lemma {:induction false} ReopenedIsAccepted(s: Option<StoredState>, u: StreamUpdate, symbol: string)
    requires symbol !in Positions(s) && symbol in Removals(s) && symbol in u.positions && symbol !in u.removedSymbols
    ensures var m := Removals(s)[symbol];
            symbol in StreamSave(s, u).positions <==> !m.Unreadable? && exists leg :: leg in u.positions[symbol].legs && leg.openedAt > m.time
    ensures symbol in StreamSave(s, u).positions ==> StreamSave(s, u).positions[symbol] == u.positions[symbol]
  {
    AppliedSlot(s, Stream(u), symbol);
    var m := Removals(s)[symbol];
    if !m.Unreadable? && OpenedAfter(u.positions[symbol], m.time) {
      var i :| 0 <= i < |u.positions[symbol].legs| && u.positions[symbol].legs[i].openedAt > m.time;
      assert u.positions[symbol].legs[i] in u.positions[symbol].legs;
    }
  }

  // ----- ownership -----

  function StreamOwned(s: Option<StoredState>): (map<string, Marker>, map<string, OrderStatus>) {
    if s.None? then (map[], map[]) else (s.value.processedEventIds, s.value.orderStatuses)
  }

  function PollOwned(s: Option<StoredState>): (string, map<string, string>, map<string, int>)
    requires s.Some?
  {
    (s.value.currentDay, s.value.dailyBaseSignalTimes, s.value.dailyBaseSignalCounts)
  }

  /** The poll process cannot disturb the stream's fields: a run leaves them as its stream writes alone would. */
  lemma {:induction false} StreamFieldsIgnorePolls(s: Option<StoredState>, t: Option<StoredState>, writes: seq<Write>)
    requires StreamOwned(s) == StreamOwned(t)
    ensures StreamOwned(Run(s, writes)) == StreamOwned(Run(t, Filter(writes, (w: Write) => w.Stream?)))
    decreases |writes|
  {
    if writes == [] {
    } else {
      var w := writes[0];
      OneWriteOwned(s, t, w);
      FilterHead(writes, (w: Write) => w.Stream?);
      StreamFieldsIgnorePolls(Some(Apply(s, w)), if w.Stream? then Some(Apply(t, w)) else t, writes[1..]);
    }
  }

  lemma {:induction false} OneWriteOwned(s: Option<StoredState>, t: Option<StoredState>, w: Write)
    requires StreamOwned(s) == StreamOwned(t)
    ensures StreamOwned(Some(Apply(s, w))) == StreamOwned(if w.Stream? then Some(Apply(t, w)) else t)
  {
  }

  lemma {:induction false} FilterHead(writes: seq<Write>, keep: Write -> bool)
    requires writes != []
    ensures var (rest, kept) := (Filter(writes[1..], keep), Filter(writes, keep));
            if keep(writes[0]) then kept != [] && kept[0] == writes[0] && kept[1..] == rest else kept == rest
  {
  }

  /** And the other way round, once there is a state. */
  lemma {:induction false} PollFieldsIgnoreStream(s: Option<StoredState>, t: Option<StoredState>, writes: seq<Write>)
    requires s.Some? && t.Some? && PollOwned(s) == PollOwned(t)
    ensures var polls := Filter(writes, (w: Write) => w.Poll?);
            Run(s, writes).Some? && Run(t, polls).Some? && PollOwned(Run(s, writes)) == PollOwned(Run(t, polls))
    decreases |writes|
  {
    if writes == [] {
    } else {
      var w := writes[0];
      FilterHead(writes, (w: Write) => w.Poll?);
      PollFieldsIgnoreStream(Some(Apply(s, w)), if w.Poll? then Some(Apply(t, w)) else t, writes[1..]);
    }
  }
}
