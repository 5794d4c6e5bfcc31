/** How two views of one position are compared and merged, and how stored time markers are read. */
module PositionMerge {
  import opened Common
  import opened Models

  // ----- time markers -----

  /** A stored timestamp text with what parsing it gives: nothing, a time without a zone, or a time with one. */
  datatype Marker = Unreadable(text: string) | Naive(text: string, time: int) | Aware(text: string, time: int)

  /** The time of a marker; a time without a zone counts as UTC. */
  function Time(m: Marker): Option<int> {
    if m.Unreadable? then None else Some(m.time)
  }

  predicate OpenedAfter(p: Position, time: int) {
    exists i :: 0 <= i < |p.legs| && p.legs[i].openedAt > time
  }

  /** For removal markers: an unreadable marker blocks. */
  predicate HasLegOpenedAfter(p: Position, m: Marker) {
    Time(m).Some? && OpenedAfter(p, Time(m).value)
  }

  /** For stop-loss exit markers: an unreadable marker keeps the position, and so does the failed comparison
      of a leg's time with a time that has no zone. */
  predicate OpenedAfterExit(p: Position, exit: Option<Marker>) {
    match exit
    case None => true
    case Some(Unreadable(_)) => true
    case Some(Naive(_, _)) => p.legs != []
    case Some(Aware(_, time)) => OpenedAfter(p, time)
  }

  // ----- comparing -----

  function LatestOpened(legs: seq<PositionLeg>): int
    requires legs != []
  {
    if |legs| == 1 then legs[0].openedAt
    else
      var rest := LatestOpened(legs[1..]);
      if legs[0].openedAt > rest then legs[0].openedAt else rest
  }

  predicate OpenedAfterPosition(candidate: Position, reference: Position) {
    if reference.legs == [] then candidate.legs != [] else OpenedAfter(candidate, LatestOpened(reference.legs))
  }

  predicate SameFill(a: PositionLeg, b: PositionLeg) {
    a.entryPrice == b.entryPrice && a.quantity == b.quantity && a.entryOrderId == b.entryOrderId && a.legType == b.legType
  }

  /** The candidate is a changed position, not just one with another stop. */
  predicate NewerVersion(candidate: Position, reference: Position) {
    if candidate == reference then false
    else if SumQuantity(candidate.legs) != SumQuantity(reference.legs) then true
    else if |candidate.legs| != |reference.legs| then true
    else if OpenedAfterPosition(candidate, reference) then true
    else exists i :: 0 <= i < |candidate.legs| && !SameFill(candidate.legs[i], reference.legs[i])
  }

  // ----- merging -----

  function MergedStop(existing: Position, candidate: Position): real {
    if candidate.stopPrice > 0.0 then candidate.stopPrice else existing.stopPrice
  }

  /** The last known leg, adjusted so that the legs add up to the candidate's quantity and cost. */
  function ReconciledLeg(existing: Position, candidate: Position): PositionLeg
    requires existing.legs != []
    requires SumQuantity(candidate.legs) > SumQuantity(existing.legs[..|existing.legs| - 1])
  {
    var n := |existing.legs| - 1;
    var quantity := SumQuantity(candidate.legs) - SumQuantity(existing.legs[..n]);
    existing.legs[n].(quantity := quantity,
                      entryPrice := (SumCost(candidate.legs) - SumCost(existing.legs[..n])) / quantity,
                      stopPrice := MergedStop(existing, candidate),
                      legSource := Reconciliation)
  }

  predicate AllRecovered(p: Position) {
    p.legs != [] && forall leg :: leg in p.legs ==> leg.legSource == TradeRecovery
  }

  /** The candidate's legs are taken as they are: recovered trades, more legs for no less quantity, or less quantity. */
  predicate TakesLegs(existing: Option<Position>, candidate: Position) {
    existing.None? ||
    var (e, had, has) := (existing.value, SumQuantity(existing.value.legs), SumQuantity(candidate.legs));
    || AllRecovered(candidate) || (|candidate.legs| > |e.legs| && has >= had)
    || (has != had && (has < had || e.legs == [] || has <= SumQuantity(e.legs[..|e.legs| - 1])))
  }

  function MergeHistory(existing: Option<Position>, candidate: Position): Position {
    if existing.None? then candidate
    else
      var e := existing.value;
      var stop := MergedStop(e, candidate);
      var had, has := SumQuantity(e.legs), SumQuantity(candidate.legs);
      if AllRecovered(candidate) then WithStopPrice(candidate, stop)
      else if |candidate.legs| > |e.legs| && has >= had then WithStopPrice(candidate, stop)
      else if has == had then (if e.stopPrice == stop then e else WithStopPrice(e, stop))
      else if has < had || e.legs == [] || has <= SumQuantity(e.legs[..|e.legs| - 1]) then WithStopPrice(candidate, stop)
      else
        var n := |e.legs| - 1;
        Position(candidate.symbol, stop, Restop(e.legs[..n], stop) + [ReconciledLeg(e, candidate)])
  }

  // ----- facts -----

  lemma {:induction false} LatestIsLatest(legs: seq<PositionLeg>)
    requires legs != []
    ensures forall leg :: leg in legs ==> leg.openedAt <= LatestOpened(legs)
    ensures exists leg :: leg in legs && leg.openedAt == LatestOpened(legs)
  {
    assert forall leg :: leg in legs <==> leg == legs[0] || leg in legs[1..];
    if |legs| > 1 {
      LatestIsLatest(legs[1..]);
      var last :| last in legs[1..] && last.openedAt == LatestOpened(legs[1..]);
      assert last in legs && legs[0] in legs;
    } else {
      assert legs[0] in legs;
    }
  }

  /** Some leg was opened after a time. */
  predicate HasLegAfter(p: Position, time: int) { exists leg :: leg in p.legs && leg.openedAt > time }

  lemma {:induction false} OpenedAfterIsLeg(p: Position, time: int)
    ensures OpenedAfter(p, time) <==> HasLegAfter(p, time)
  {
    if OpenedAfter(p, time) {
      var i :| 0 <= i < |p.legs| && p.legs[i].openedAt > time;
      assert p.legs[i] in p.legs;
    }
  }

  /** Some leg was opened after every leg of the other position. */
  predicate HasLegAfterAll(p: Position, other: Position) {
    exists leg :: leg in p.legs && forall known :: known in other.legs ==> leg.openedAt > known.openedAt
  }

  lemma {:induction false} OpenedAfterPositionIsLeg(p: Position, other: Position)
    ensures OpenedAfterPosition(p, other) <==> HasLegAfterAll(p, other)
  {
    if other.legs == [] {
      if p.legs != [] {
        assert p.legs[0] in p.legs;
      }
    } else {
      LatestIsLatest(other.legs);
      OpenedAfterIsLeg(p, LatestOpened(other.legs));
    }
  }

  /** What was filled: the leg without its stop, time and source. */
  function Filled(leg: PositionLeg): (real, real, Option<string>, LegType) { (leg.entryPrice, leg.quantity, leg.entryOrderId, leg.legType) }

  /** What makes one copy of a position newer than another: another quantity, another number of legs, a leg opened after all
      of the other's, or a leg with another price, quantity, order or type at the same place. Another stop does not. */
  lemma {:induction false} NewerExactly(a: Position, b: Position)
    ensures NewerVersion(a, b)
       <==> || SumQuantity(a.legs) != SumQuantity(b.legs) || |a.legs| != |b.legs| || HasLegAfterAll(a, b)
            || exists i :: 0 <= i < |a.legs| && Filled(a.legs[i]) != Filled(b.legs[i])
  {
    OpenedAfterPositionIsLeg(a, b);
    assert |a.legs| == |b.legs| ==> forall i | 0 <= i < |a.legs| :: SameFill(a.legs[i], b.legs[i]) <==> Filled(a.legs[i]) == Filled(b.legs[i]);
  }

  /** Whose opening times a merge has: the candidate's when its legs are taken, the known ones otherwise. */
  lemma {:induction false} MergedOpenedAfter(existing: Option<Position>, candidate: Position, time: int)
    ensures OpenedAfter(MergeHistory(existing, candidate), time)
         <==> if TakesLegs(existing, candidate) then OpenedAfter(candidate, time) else OpenedAfter(existing.value, time)
  {
    var merged := MergeHistory(existing, candidate);
    var source := if TakesLegs(existing, candidate) then candidate else existing.value;
    assert |merged.legs| == |source.legs|;
    assert forall i :: 0 <= i < |source.legs| ==> merged.legs[i].openedAt == source.legs[i].openedAt;
  }

  lemma {:induction false} ReconciledSums(e: Position, candidate: Position)
    requires e.legs != [] && SumQuantity(candidate.legs) > SumQuantity(e.legs[..|e.legs| - 1])
    ensures var n := |e.legs| - 1;
            var legs := Restop(e.legs[..n], MergedStop(e, candidate)) + [ReconciledLeg(e, candidate)];
            SumQuantity(legs) == SumQuantity(candidate.legs) && SumCost(legs) == SumCost(candidate.legs)
  {
    var n := |e.legs| - 1;
    var stop := MergedStop(e, candidate);
    var leg := ReconciledLeg(e, candidate);
    RestopSums(e.legs[..n], stop);
    AppendSums(Restop(e.legs[..n], stop), leg);
    DivideBack(SumCost(candidate.legs) - SumCost(e.legs[..n]), leg.quantity);
  }

  lemma {:induction false} DivideBack(a: real, b: real)
    requires b != 0.0
    ensures Cost(b, a / b) == a
  {
  }

  /** The exchange's quantity always wins: a merge holds exactly the candidate's quantity. Its cost is the
      candidate's too, unless the quantities agree and the known history is kept. */
  lemma {:induction false} MergeFollowsExchange(existing: Option<Position>, candidate: Position)
    ensures var merged := MergeHistory(existing, candidate);
            && SumQuantity(merged.legs) == SumQuantity(candidate.legs)
            && (SumCost(merged.legs) == SumCost(candidate.legs)
                || (existing.Some? && SumCost(merged.legs) == SumCost(existing.value.legs)
                    && SumQuantity(existing.value.legs) == SumQuantity(candidate.legs)))
  {
    if existing.Some? {
      var e := existing.value;
      RestopSums(candidate.legs, MergedStop(e, candidate));
      RestopSums(e.legs, MergedStop(e, candidate));
      if e.legs != [] && SumQuantity(candidate.legs) > SumQuantity(e.legs[..|e.legs| - 1]) {
        ReconciledSums(e, candidate);
      }
    }
  }

  predicate TradesOnly(p: Position) { |p.legs| > 0 && forall i | 0 <= i < |p.legs| :: p.legs[i].legSource == TradeRecovery }

  /** When a view replaces the known legs: it consists of recovered trades, has more legs for no less quantity, has less
      quantity, or has more than was known without room for it in the last known leg. */
  predicate Replaces(e: Position, c: Position) {
    var had, has := SumQuantity(e.legs), SumQuantity(c.legs);
    || TradesOnly(c) || (|c.legs| > |e.legs| && has >= had) || has < had
    || (has > had && (|e.legs| == 0 || has <= SumQuantity(e.legs[..|e.legs| - 1])))
  }

  /** What a merge is made of. The stop is the view's if it has one. Where the view replaces, its legs are taken; where the
      quantities agree, the known ones are kept; otherwise only the last known leg changes: it makes up the difference in
      quantity and cost, and says that it was reconciled. */
  lemma {:induction false} MergeExactly(e: Position, c: Position, stop: real)
    requires stop == if c.stopPrice > 0.0 then c.stopPrice else e.stopPrice
    ensures MergeHistory(None, c) == c
    ensures MergeHistory(Some(e), c).stopPrice == stop
    ensures Replaces(e, c) ==> MergeHistory(Some(e), c).legs == Restop(c.legs, stop)
    ensures !Replaces(e, c) && SumQuantity(c.legs) == SumQuantity(e.legs) ==>
              MergeHistory(Some(e), c).legs == if e.stopPrice == stop then e.legs else Restop(e.legs, stop)
    ensures !Replaces(e, c) && SumQuantity(c.legs) > SumQuantity(e.legs) ==>
              var n, legs := |e.legs| - 1, MergeHistory(Some(e), c).legs;
              && |legs| == n + 1 && legs[..n] == Restop(e.legs[..n], stop)
              && legs[n] == e.legs[n].(quantity := legs[n].quantity, entryPrice := legs[n].entryPrice, stopPrice := stop, legSource := Reconciliation)
              && legs[n].quantity == SumQuantity(c.legs) - SumQuantity(e.legs[..n])
              && Cost(legs[n].quantity, legs[n].entryPrice) == SumCost(c.legs) - SumCost(e.legs[..n])
  {
    assert AllRecovered(c) <==> TradesOnly(c) by {
      if TradesOnly(c) {
        assert c.legs[0] in c.legs;
      } else if c.legs != [] {
        var i :| 0 <= i < |c.legs| && c.legs[i].legSource != TradeRecovery;
        assert c.legs[i] in c.legs;
      }
    }
    if !Replaces(e, c) && SumQuantity(c.legs) > SumQuantity(e.legs) {
      var n := |e.legs| - 1;
      DivideBack(SumCost(c.legs) - SumCost(e.legs[..n]), SumQuantity(c.legs) - SumQuantity(e.legs[..n]));
    }
  }

  /** A merge keeps a protective stop whenever either side has one. */
  lemma {:induction false} MergeKeepsStop(existing: Option<Position>, candidate: Position)
    ensures MergeHistory(existing, candidate).stopPrice > 0.0
         <==> candidate.stopPrice > 0.0 || (existing.Some? && existing.value.stopPrice > 0.0)
  {
  }

  /** Merging the same view again changes nothing: exactly unless a first view made of recovered trades
      carries a leg stop that differs from its own stop price, which the second merge then levels. */
  lemma {:induction false} MergeIsIdempotent(existing: Option<Position>, candidate: Position)
    ensures var once := MergeHistory(existing, candidate);
            MergeHistory(Some(once), candidate) == once
            <==> !(existing.None? && AllRecovered(candidate) && Restop(candidate.legs, candidate.stopPrice) != candidate.legs)
  {
    MergeFollowsExchange(existing, candidate);
    if existing.Some? {
      var stop := MergedStop(existing.value, candidate);
      assert Restop(Restop(candidate.legs, stop), stop) == Restop(candidate.legs, stop);
    }
  }
}
