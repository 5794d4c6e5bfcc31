/** Folding a stream of fills into position legs. */
module Fills {
  import opened Common
  import opened Models

  datatype Fill = Fill(symbol: string, quantity: real, entryPrice: real, stopPrice: real, legType: LegType, filledAt: int,
                       entryOrderId: Option<string>, legSource: LegSource,
                       cumulativeQuantity: Option<real>, cumulativeAveragePrice: Option<real>, newLeader: Option<string>)

  datatype FillError = DivisionByZero

  function ProjectedQuantity(f: Fill): real {
    if f.cumulativeQuantity.Some? && f.cumulativeQuantity.value > 0.0 then f.cumulativeQuantity.value else f.quantity
  }

  function ProjectedPrice(f: Fill): real {
    if f.cumulativeAveragePrice.Some? && f.cumulativeAveragePrice.value > 0.0 then f.cumulativeAveragePrice.value else f.entryPrice
  }

  function NewLeg(f: Fill): PositionLeg {
    PositionLeg(f.symbol, ProjectedQuantity(f), ProjectedPrice(f), f.stopPrice, f.filledAt, f.legType, f.entryOrderId, f.legSource)
  }

  predicate Matches(leg: PositionLeg, f: Fill) {
    leg.entryOrderId.Some? && leg.entryOrderId == f.entryOrderId && leg.legType == f.legType
  }

  /** The index of the first leg of the fill's order, or the number of legs. */
  function FirstMatch(legs: seq<PositionLeg>, f: Fill): (i: nat)
    ensures i <= |legs|
    ensures i < |legs| ==> Matches(legs[i], f)
    ensures forall k :: 0 <= k < i ==> !Matches(legs[k], f)
  {
    if legs == [] || Matches(legs[0], f) then 0 else 1 + FirstMatch(legs[1..], f)
  }

  /** The only leg was restored from a snapshot, without an order id, at just this quantity. */
  predicate RestoredAlready(legs: seq<PositionLeg>, f: Fill) {
    && |legs| == 1 && legs[0].entryOrderId.None?
    && legs[0].legSource in {RestRestore, AccountUpdate, Reconciliation}
    && legs[0].quantity == ProjectedQuantity(f)
  }

  function MergedLeg(leg: PositionLeg, f: Fill): Result<PositionLeg, FillError> {
    if f.cumulativeQuantity.Some? && f.cumulativeQuantity.value > 0.0 then
      Ok(leg.(quantity := f.cumulativeQuantity.value, entryPrice := ProjectedPrice(f), stopPrice := f.stopPrice, legSource := f.legSource))
    else
      var merged := leg.quantity + f.quantity;
      if merged == 0.0 then Err(DivisionByZero)
      else Ok(leg.(quantity := merged, entryPrice := (leg.entryPrice * leg.quantity + f.entryPrice * f.quantity) / merged,
                   stopPrice := f.stopPrice, legSource := f.legSource))
  }

  function UpdatedLegs(legs: seq<PositionLeg>, f: Fill): Result<seq<PositionLeg>, FillError> {
    if RestoredAlready(legs, f) then Ok([NewLeg(f)])
    else
      var i := FirstMatch(legs, f);
      if i == |legs| then Ok(legs + [NewLeg(f)])
      else
        var merged :- MergedLeg(legs[i], f);
        Ok(legs[i := merged])
  }

  function ApplyFill(state: StrategyState, f: Fill): Result<StrategyState, FillError> {
    var legs :- if f.symbol in state.positions then UpdatedLegs(Restop(state.positions[f.symbol].legs, f.stopPrice), f)
                else Ok([NewLeg(f)]);
    Ok(state.(positions := state.positions[f.symbol := Position(f.symbol, f.stopPrice, legs)],
              previousLeader := if f.newLeader.Some? then f.newLeader else state.previousLeader))
  }

  function FoldFills(state: StrategyState, fills: seq<Fill>): Result<StrategyState, FillError> {
    if fills == [] then Ok(state)
    else
      var before :- FoldFills(state, fills[..|fills| - 1]);
      ApplyFill(before, fills[|fills| - 1])
  }

  // ----- cumulative fills: the closed form -----

  predicate Cumulative(f: Fill) {
    f.entryOrderId.Some? && f.cumulativeQuantity.Some? && f.cumulativeQuantity.value > 0.0
  }

  type Key = (Option<string>, LegType)

  function KeyOf(f: Fill): Key { (f.entryOrderId, f.legType) }

  /** The fills of one symbol. */
  function Of(fills: seq<Fill>, symbol: string): seq<Fill> {
    if fills == [] then []
    else
      var before, last := Of(fills[..|fills| - 1], symbol), fills[|fills| - 1];
      if last.symbol == symbol then before + [last] else before
  }

  /** The orders among the fills, by first appearance. */
  function Keys(fills: seq<Fill>): seq<Key> {
    if fills == [] then []
    else
      var before, key := Keys(fills[..|fills| - 1]), KeyOf(fills[|fills| - 1]);
      if key in before then before else before + [key]
  }

  function LastOf(fills: seq<Fill>, key: Key): Fill
    requires key in Keys(fills)
  {
    var last := fills[|fills| - 1];
    if KeyOf(last) == key then last else LastOf(fills[..|fills| - 1], key)
  }

  function FirstOf(fills: seq<Fill>, key: Key): Fill
    requires key in Keys(fills)
  {
    if key in Keys(fills[..|fills| - 1]) then FirstOf(fills[..|fills| - 1], key) else fills[|fills| - 1]
  }

  /** The leg an order must have: opened at its first fill, with its last totals, at the latest stop. */
  function LegFor(fills: seq<Fill>, key: Key): PositionLeg
    requires key in Keys(fills)
  {
    var last := LastOf(fills, key);
    PositionLeg(fills[|fills| - 1].symbol, last.cumulativeQuantity.GetOr(0.0), ProjectedPrice(last), fills[|fills| - 1].stopPrice,
                FirstOf(fills, key).filledAt, key.1, key.0, last.legSource)
  }

  function LegsFor(fills: seq<Fill>): seq<PositionLeg> {
    seq(|Keys(fills)|, i requires 0 <= i < |Keys(fills)| => LegFor(fills, Keys(fills)[i]))
  }

  lemma {:induction false} KeysDistinct(fills: seq<Fill>)
    ensures forall i, j :: 0 <= i < j < |Keys(fills)| ==> Keys(fills)[i] != Keys(fills)[j]
  {
    if fills == [] {
    } else {
      KeysDistinct(fills[..|fills| - 1]);
    }
  }

  /** A leg matches a fill exactly when it is the leg of the fill's order. */
  lemma {:induction false} LegsMatchKeys(fills: seq<Fill>, f: Fill)
    requires fills != [] && forall g :: g in fills ==> Cumulative(g)
    ensures var legs := Restop(LegsFor(fills), f.stopPrice);
            |legs| == |Keys(fills)| && forall i :: 0 <= i < |legs| ==> (Matches(legs[i], f) <==> Keys(fills)[i] == KeyOf(f))
    ensures !RestoredAlready(Restop(LegsFor(fills), f.stopPrice), f)
  {
    AllKeysNamed(fills);
    var legs, keys := Restop(LegsFor(fills), f.stopPrice), Keys(fills);
    forall i | 0 <= i < |legs|
      ensures legs[i].entryOrderId.Some? && (Matches(legs[i], f) <==> keys[i] == KeyOf(f))
    {
      assert keys[i] in keys && LegsFor(fills)[i] == LegFor(fills, keys[i]);
    }
  }

  lemma {:induction false} KnownLeg(fills: seq<Fill>, f: Fill)
    requires fills != [] && KeyOf(f) in Keys(fills) && Cumulative(f)
    ensures MergedLeg(LegFor(fills, KeyOf(f)).(stopPrice := f.stopPrice, symbol := f.symbol), f) == Ok(LegFor(fills + [f], KeyOf(f)))
  {
    UntouchedLeg(fills, f, KeyOf(f));
  }

  lemma {:induction false} StepKnownOrder(fills: seq<Fill>, f: Fill)
    requires fills != [] && KeyOf(f) in Keys(fills) && fills[|fills| - 1].symbol == f.symbol
    requires Cumulative(f) && forall g :: g in fills ==> Cumulative(g)
    ensures UpdatedLegs(Restop(LegsFor(fills), f.stopPrice), f) == Ok(LegsFor(fills + [f]))
  {
    var all := fills + [f];
    assert all[..|fills|] == fills && all[|fills|] == f;
    var legs, keys, after := Restop(LegsFor(fills), f.stopPrice), Keys(fills), LegsFor(all);
    KeysDistinct(fills);
    LegsMatchKeys(fills, f);
    var i := FirstMatch(legs, f);
    assert i < |keys| && keys[i] == KeyOf(f);
    KnownLeg(fills, f);
    assert legs[i] == LegFor(fills, KeyOf(f)).(stopPrice := f.stopPrice, symbol := f.symbol);
    forall k | 0 <= k < |keys| && k != i ensures legs[k] == after[k] {
      UntouchedLeg(fills, f, keys[k]);
    }
    assert legs[i := after[i]] == after;
  }

  lemma {:induction false} StepNewOrder(fills: seq<Fill>, f: Fill)
    requires fills != [] && KeyOf(f) !in Keys(fills)
    requires forall g :: g in fills + [f] ==> Cumulative(g) && g.symbol == f.symbol
    ensures UpdatedLegs(Restop(LegsFor(fills), f.stopPrice), f) == Ok(LegsFor(fills + [f]))
  {
    var all := fills + [f];
    assert all[..|fills|] == fills && all[|fills|] == f;
    var legs, keys := Restop(LegsFor(fills), f.stopPrice), Keys(fills);
    LegsMatchKeys(fills, f);
    forall k | 0 <= k < |keys| ensures legs[k] == LegFor(all, keys[k]) {
      UntouchedLeg(fills, f, keys[k]);
    }
    assert legs + [NewLeg(f)] == LegsFor(all);
  }

  /** One more cumulative fill turns the legs for the fills so far into the legs for all of them. */
  lemma {:induction false} StepCumulative(fills: seq<Fill>, f: Fill)
    requires fills != []
    requires forall g :: g in fills + [f] ==> Cumulative(g) && g.symbol == f.symbol
    ensures UpdatedLegs(Restop(LegsFor(fills), f.stopPrice), f) == Ok(LegsFor(fills + [f]))
  {
    if KeyOf(f) in Keys(fills) {
      StepKnownOrder(fills, f);
    } else {
      StepNewOrder(fills, f);
    }
  }

  lemma {:induction false} AllKeysNamed(fills: seq<Fill>)
    requires forall g :: g in fills ==> Cumulative(g)
    ensures forall key :: key in Keys(fills) ==> key.0.Some?
  {
    if fills == [] {
    } else {
      assert fills[|fills| - 1] in fills;
      AllKeysNamed(fills[..|fills| - 1]);
    }
  }

  /** A fill of another order changes only a leg's stop price. */
  lemma {:induction false} UntouchedLeg(fills: seq<Fill>, f: Fill, key: Key)
    requires fills != [] && key in Keys(fills)
    ensures key in Keys(fills + [f]) && FirstOf(fills + [f], key) == FirstOf(fills, key)
    ensures key != KeyOf(f) ==> LegFor(fills + [f], key) == LegFor(fills, key).(stopPrice := f.stopPrice, symbol := f.symbol)
  {
    assert (fills + [f])[..|fills|] == fills;
  }

  function Held(positions: map<string, Position>, symbol: string): Option<Position> {
    if symbol in positions then Some(positions[symbol]) else None
  }

  /** One leg per order of the symbol, all at the last stop price; nothing new for a symbol without fills. */
  function Expected(state: StrategyState, fills: seq<Fill>, symbol: string): Option<Position> {
    var own := Of(fills, symbol);
    if own == [] then Held(state.positions, symbol)
    else Some(Position(symbol, own[|own| - 1].stopPrice, LegsFor(own)))
  }

  lemma {:induction false} FoldIsExpected(state: StrategyState, fills: seq<Fill>, symbol: string)
    requires forall i :: 0 <= i < |fills| ==> Cumulative(fills[i]) && fills[i].symbol !in state.positions
    ensures FoldFills(state, fills).Ok?
    ensures Held(FoldFills(state, fills).value.positions, symbol) == Expected(state, fills, symbol)
  {
    if fills == [] {
    } else {
      var n := |fills| - 1;
      FoldIsExpected(state, fills[..n], fills[n].symbol);
      if symbol != fills[n].symbol {
        FoldIsExpected(state, fills[..n], symbol);
      }
      OwnFills(fills[..n], fills[n].symbol);
      FoldStep(state, FoldFills(state, fills[..n]).value, fills, symbol);
    }
  }

  lemma {:induction false} FoldStep(state: StrategyState, before: StrategyState, fills: seq<Fill>, symbol: string)
    requires fills != [] && Cumulative(fills[|fills| - 1]) && fills[|fills| - 1].symbol !in state.positions
    requires var f, init := fills[|fills| - 1], fills[..|fills| - 1];
             && (forall g :: g in Of(init, f.symbol) ==> Cumulative(g) && g.symbol == f.symbol)
             && Held(before.positions, f.symbol) == Expected(state, init, f.symbol)
             && Held(before.positions, symbol) == Expected(state, init, symbol)
    ensures ApplyFill(before, fills[|fills| - 1]).Ok?
    ensures Held(ApplyFill(before, fills[|fills| - 1]).value.positions, symbol) == Expected(state, fills, symbol)
  {
    var f, init := fills[|fills| - 1], fills[..|fills| - 1];
    var own := Of(init, f.symbol);
    StepAnySymbol(before, own, f);
    if symbol == f.symbol {
      assert Of(fills, symbol) == own + [f];
    } else {
      assert Of(fills, symbol) == Of(init, symbol);
    }
  }

  /** The symbol had a fill of this order. */
  predicate Filled(fills: seq<Fill>, symbol: string, key: Key) {
    exists i :: 0 <= i < |fills| && fills[i].symbol == symbol && KeyOf(fills[i]) == key
  }

  lemma {:induction false} FilledStep(fills: seq<Fill>, symbol: string, key: Key)
    requires fills != []
    ensures Filled(fills, symbol, key)
       <==> Filled(fills[..|fills| - 1], symbol, key) || (fills[|fills| - 1].symbol == symbol && KeyOf(fills[|fills| - 1]) == key)
  {
    var n := |fills| - 1;
    if Filled(fills[..n], symbol, key) {
      var i :| 0 <= i < n && fills[..n][i].symbol == symbol && KeyOf(fills[..n][i]) == key;
      assert fills[i].symbol == symbol && KeyOf(fills[i]) == key;
    }
    assert forall i | 0 <= i < n :: fills[..n][i] == fills[i];
  }

  lemma {:induction false} KeysAreOrders(fills: seq<Fill>, symbol: string, key: Key)
    ensures key in Keys(Of(fills, symbol)) <==> Filled(fills, symbol, key)
  {
    if fills == [] {
    } else {
      var n := |fills| - 1;
      KeysAreOrders(fills[..n], symbol, key);
      FilledStep(fills, symbol, key);
      var own := Of(fills[..n], symbol);
      assert (own + [fills[n]])[..|own|] == own;
    }
  }

  predicate HasLeg(legs: seq<PositionLeg>, key: Key) {
    exists i :: 0 <= i < |legs| && (legs[i].entryOrderId, legs[i].legType) == key
  }

  /** From flat symbols, any sequence of cumulative fills (orders interleaved, fills repeated, symbols mixed) ends with
      exactly one leg for each order that has a fill, and no other leg: the order's last totals, opened at its first fill,
      all at the symbol's last stop price. Other symbols keep what they had. */
  lemma {:induction false} CumulativeFold(state: StrategyState, fills: seq<Fill>, symbol: string)
    requires forall i :: 0 <= i < |fills| ==> Cumulative(fills[i]) && fills[i].symbol !in state.positions
    ensures FoldFills(state, fills).Ok?
    ensures Held(FoldFills(state, fills).value.positions, symbol) == Expected(state, fills, symbol)
    ensures Of(fills, symbol) != [] ==>
              var legs := LegsFor(Of(fills, symbol));
              && (forall key: Key :: HasLeg(legs, key) <==> Filled(fills, symbol, key))
              && (forall i, j :: 0 <= i < j < |legs| ==> (legs[i].entryOrderId, legs[i].legType) != (legs[j].entryOrderId, legs[j].legType))
  {
    FoldIsExpected(state, fills, symbol);
    var own := Of(fills, symbol);
    if own != [] {
      KeysDistinct(own);
      LegKeys(own);
      forall key: Key ensures HasLeg(LegsFor(own), key) <==> Filled(fills, symbol, key) {
        KeysAreOrders(fills, symbol, key);
      }
    }
  }

  lemma {:induction false} LegKeys(fills: seq<Fill>)
    requires fills != []
    ensures var legs := LegsFor(fills);
            && |legs| == |Keys(fills)| && (forall i :: 0 <= i < |legs| ==> (legs[i].entryOrderId, legs[i].legType) == Keys(fills)[i])
            && (forall key: Key :: HasLeg(legs, key) <==> key in Keys(fills))
  {
    var legs, keys := LegsFor(fills), Keys(fills);
    forall i | 0 <= i < |legs| ensures (legs[i].entryOrderId, legs[i].legType) == keys[i] {
      assert legs[i] == LegFor(fills, keys[i]);
    }
    forall key: Key ensures HasLeg(legs, key) <==> key in keys {
      if key in keys {
        var i :| 0 <= i < |keys| && keys[i] == key;
        assert (legs[i].entryOrderId, legs[i].legType) == key;
      }
    }
  }

  lemma {:induction false} OwnFills(fills: seq<Fill>, symbol: string)
    requires forall i :: 0 <= i < |fills| ==> Cumulative(fills[i])
    ensures forall g :: g in Of(fills, symbol) ==> Cumulative(g) && g.symbol == symbol
  {
    if fills == [] {
    } else {
      OwnFills(fills[..|fills| - 1], symbol);
    }
  }

  lemma {:induction false} StepAnySymbol(before: StrategyState, own: seq<Fill>, f: Fill)
    requires Cumulative(f) && forall g :: g in own ==> Cumulative(g) && g.symbol == f.symbol
    requires if own == [] then f.symbol !in before.positions
             else f.symbol in before.positions && before.positions[f.symbol].legs == LegsFor(own)
    ensures ApplyFill(before, f).Ok?
    ensures ApplyFill(before, f).value.positions
         == before.positions[f.symbol := Position(f.symbol, f.stopPrice, LegsFor(own + [f]))]
  {
    if own == [] {
      assert (own + [f])[..0] == [];
      assert Keys(own + [f]) == [KeyOf(f)];
      assert LegsFor(own + [f]) == [NewLeg(f)];
    } else {
      StepCumulative(own, f);
    }
  }

  // ----- redelivery -----

  /** After a cumulative fill its order's leg holds the fill's totals, so merging it again changes nothing. */
  lemma {:induction false} LegsHoldFill(legs: seq<PositionLeg>, f: Fill)
    requires Cumulative(f) && forall i :: 0 <= i < |legs| ==> legs[i].stopPrice == f.stopPrice
    ensures UpdatedLegs(legs, f).Ok?
    ensures var r := UpdatedLegs(legs, f).value;
            Restop(r, f.stopPrice) == r && UpdatedLegs(r, f) == Ok(r)
  {
    var r := UpdatedLegs(legs, f).value;
    var i := FirstMatch(legs, f);
    var at := if RestoredAlready(legs, f) then 0 else i;
    assert at < |r| && Matches(r[at], f) && MergedLeg(r[at], f) == Ok(r[at]);
    assert forall k :: 0 <= k < at ==> r[k] == legs[k];
    assert FirstMatch(r, f) == at;
    assert r[at := r[at]] == r;
  }

  /** Delivering a cumulative fill a second time changes nothing, whatever the state. */
  lemma {:induction false} RedeliveryChangesNothing(state: StrategyState, f: Fill)
    requires Cumulative(f)
    ensures ApplyFill(state, f).Ok?
    ensures ApplyFill(ApplyFill(state, f).value, f) == ApplyFill(state, f)
  {
    if f.symbol in state.positions {
      LegsHoldFill(Restop(state.positions[f.symbol].legs, f.stopPrice), f);
    } else {
      LegsHoldFill([], f);
    }
    assert [] + [NewLeg(f)] == [NewLeg(f)];
    var once := ApplyFill(state, f).value;
    var p := once.positions[f.symbol];
    assert UpdatedLegs(Restop(p.legs, f.stopPrice), f) == Ok(p.legs);
    assert once.positions[f.symbol := p] == once.positions;
  }

  // ----- conservation -----

  /** The position is one leg of just this quantity that came from a snapshot: without an order id, restored over REST, taken
      from an account update, or reconciled. */
  predicate OnlyRestored(legs: seq<PositionLeg>, quantity: real) {
    && |legs| == 1 && legs[0].entryOrderId.None? && legs[0].quantity == quantity
    && (legs[0].legSource == RestRestore || legs[0].legSource == AccountUpdate || legs[0].legSource == Reconciliation)
  }

  /** The quantity and price that a fill stands for: the order's totals where they are positive, else its own. */
  predicate Stands(f: Fill, quantity: real, price: real) {
    && (if f.cumulativeQuantity.Some? && f.cumulativeQuantity.value > 0.0 then quantity == f.cumulativeQuantity.value else quantity == f.quantity)
    && (if f.cumulativeAveragePrice.Some? && f.cumulativeAveragePrice.value > 0.0 then price == f.cumulativeAveragePrice.value else price == f.entryPrice)
  }

  /** A fill opens a flat symbol, and replaces a position that was only restored: one leg with the fill's own order, quantity,
      price and source. It is not counted a second time. */
  lemma {:induction false} FillOpensOrReplaces(state: StrategyState, f: Fill, quantity: real, price: real)
    requires Stands(f, quantity, price) && (f.symbol in state.positions ==> OnlyRestored(state.positions[f.symbol].legs, quantity))
    ensures ApplyFill(state, f).Ok?
    ensures ApplyFill(state, f).value.positions
         == state.positions[f.symbol := Position(f.symbol, f.stopPrice, [PositionLeg(f.symbol, quantity, price, f.stopPrice, f.filledAt, f.legType,
                                                                                    f.entryOrderId, f.legSource)])]
  {
  }

  /** The leg of the fill's order: the same order id, which must be there, and the same leg type. */
  predicate IsLegOf(leg: PositionLeg, f: Fill) {
    leg.entryOrderId.Some? && f.entryOrderId.Some? && leg.entryOrderId.value == f.entryOrderId.value && leg.legType == f.legType
  }

  /** A fill of an order without a leg adds one and changes no other leg but its stop. */
  lemma {:induction false} FillAddsLeg(state: StrategyState, f: Fill, quantity: real, price: real)
    requires Stands(f, quantity, price) && f.symbol in state.positions && !OnlyRestored(state.positions[f.symbol].legs, quantity)
    requires forall leg <- state.positions[f.symbol].legs :: !IsLegOf(leg, f)
    ensures ApplyFill(state, f).Ok?
    ensures var legs := state.positions[f.symbol].legs;
            ApplyFill(state, f).value.positions[f.symbol]
            == Position(f.symbol, f.stopPrice, Restop(legs, f.stopPrice) + [PositionLeg(f.symbol, quantity, price, f.stopPrice, f.filledAt, f.legType,
                                                                                       f.entryOrderId, f.legSource)])
  {
    var legs := Restop(state.positions[f.symbol].legs, f.stopPrice);
    var i := FirstMatch(legs, f);
    if i < |legs| {
      assert IsLegOf(state.positions[f.symbol].legs[i], f);
    }
  }

  /** A fill of an order with a leg changes that one, the first if there are more: totals replace its quantity and price, an
      increment adds its quantity and cost. It keeps its opening time, and no other leg changes but its stop. */
  lemma {:induction false} FillUpdatesLeg(state: StrategyState, f: Fill, quantity: real, price: real, i: nat)
    requires Stands(f, quantity, price) && f.symbol in state.positions && !OnlyRestored(state.positions[f.symbol].legs, quantity)
    requires var legs := state.positions[f.symbol].legs; i < |legs| && IsLegOf(legs[i], f) && forall k | 0 <= k < i :: !IsLegOf(legs[k], f)
    ensures var leg, total := state.positions[f.symbol].legs[i], f.cumulativeQuantity.Some? && f.cumulativeQuantity.value > 0.0;
            && (ApplyFill(state, f).Ok? <==> total || leg.quantity + f.quantity != 0.0)
            && (ApplyFill(state, f).Ok? ==>
                  var after := ApplyFill(state, f).value.positions[f.symbol];
                  && after.stopPrice == f.stopPrice && after.symbol == f.symbol && |after.legs| == |state.positions[f.symbol].legs|
                  && after.legs == Restop(state.positions[f.symbol].legs, f.stopPrice)[i := after.legs[i]]
                  && after.legs[i] == leg.(quantity := after.legs[i].quantity, entryPrice := after.legs[i].entryPrice, stopPrice := f.stopPrice, legSource := f.legSource)
                  && (if total then after.legs[i].quantity == quantity && after.legs[i].entryPrice == price
                      else after.legs[i].quantity == leg.quantity + f.quantity
                           && Cost(after.legs[i].quantity, after.legs[i].entryPrice) == Cost(leg.quantity, leg.entryPrice) + Cost(f.quantity, f.entryPrice)))
  {
    var known := state.positions[f.symbol].legs;
    var legs := Restop(known, f.stopPrice);
    forall k | 0 <= k < |legs| ensures Matches(legs[k], f) <==> IsLegOf(known[k], f) {
    }
    FirstMatchIs(legs, f, i);
    UpdatesFirst(legs, f, i);
    if (f.cumulativeQuantity.None? || f.cumulativeQuantity.value <= 0.0) && MergedLeg(legs[i], f).Ok? {
      MergedLegCost(legs[i], f);
    }
  }

  lemma {:induction false} UpdatesFirst(legs: seq<PositionLeg>, f: Fill, i: nat)
    requires i < |legs| && FirstMatch(legs, f) == i && !RestoredAlready(legs, f)
    ensures UpdatedLegs(legs, f) == if MergedLeg(legs[i], f).Err? then Err(MergedLeg(legs[i], f).error) else Ok(legs[i := MergedLeg(legs[i], f).value])
  {
  }

  /** Beside positions, a fill only sets the leader, if it names one. */
  lemma {:induction false} FillKeepsRest(state: StrategyState, f: Fill)
    requires ApplyFill(state, f).Ok?
    ensures var after := ApplyFill(state, f).value;
            && (f.newLeader.Some? ==> after.previousLeader == f.newLeader) && (f.newLeader.None? ==> after.previousLeader == state.previousLeader)
            && after == state.(positions := after.positions, previousLeader := after.previousLeader)
            && after.positions.Keys == state.positions.Keys + {f.symbol}
            && (forall symbol | symbol in state.positions && symbol != f.symbol :: after.positions[symbol] == state.positions[symbol])
  {
  }

  /** An increment adds its quantity and its cost to the position: exactly when the position is not one restored leg of just
      its quantity, which it replaces. */
  lemma {:induction false} IncrementConserves(legs: seq<PositionLeg>, f: Fill)
    requires f.cumulativeQuantity.None? && f.cumulativeAveragePrice.None?
    requires f.quantity > 0.0
    requires UpdatedLegs(legs, f).Ok?
    ensures var r, restored := UpdatedLegs(legs, f).value, OnlyRestored(legs, f.quantity);
            && (SumQuantity(r) == SumQuantity(legs) + f.quantity <==> !restored)
            && (!restored ==> SumCost(r) == SumCost(legs) + Cost(f.quantity, f.entryPrice))
            && (restored ==> SumQuantity(r) == SumQuantity(legs) && SumCost(r) == Cost(f.quantity, f.entryPrice))
  {
    var i := FirstMatch(legs, f);
    if RestoredAlready(legs, f) {
      AppendSums([], NewLeg(f));
      AppendSums([], legs[0]);
      assert legs == [] + [legs[0]] && [] + [NewLeg(f)] == [NewLeg(f)];
    } else if i == |legs| {
      AppendSums(legs, NewLeg(f));
    } else {
      UpdateSums(legs, i, MergedLeg(legs[i], f).value);
      MergedLegCost(legs[i], f);
    }
  }

  lemma {:induction false} MergedLegCost(leg: PositionLeg, f: Fill)
    requires f.cumulativeQuantity.None? || f.cumulativeQuantity.value <= 0.0
    requires MergedLeg(leg, f).Ok?
    ensures var merged := MergedLeg(leg, f).value;
            && merged.quantity == leg.quantity + f.quantity
            && Cost(merged.quantity, merged.entryPrice) == Cost(leg.quantity, leg.entryPrice) + Cost(f.quantity, f.entryPrice)
  {
    DivideAndMultiply(leg.entryPrice * leg.quantity + f.entryPrice * f.quantity, leg.quantity + f.quantity);
  }

  lemma {:induction false} DivideAndMultiply(a: real, b: real)
    requires b != 0.0
    ensures b * (a / b) == a
  {
  }

  // ----- conservation over runs -----

  predicate Plain(f: Fill) { f.cumulativeQuantity.None? && f.cumulativeAveragePrice.None? && f.quantity > 0.0 }

  /** No fill of the symbol finds a leg that was restored from a snapshot at just its quantity. */
  predicate NoneReplaces(state: StrategyState, fills: seq<Fill>, symbol: string)
    requires FoldFills(state, fills).Ok?
  {
    fills == []
    || (var n := |fills| - 1;
        && NoneReplaces(state, fills[..n], symbol)
        && (fills[n].symbol == symbol ==> !OnlyRestored(LegsAt(FoldFills(state, fills[..n]).value, symbol), fills[n].quantity)))
  }

  lemma {:induction false} StepConserves(state: StrategyState, f: Fill)
    requires Plain(f) && ApplyFill(state, f).Ok?
    ensures var before, after := LegsAt(state, f.symbol), LegsAt(ApplyFill(state, f).value, f.symbol);
            && SumQuantity(after) <= SumQuantity(before) + f.quantity
            && (SumQuantity(after) == SumQuantity(before) + f.quantity <==> !OnlyRestored(before, f.quantity))
            && (!OnlyRestored(before, f.quantity) ==> SumCost(after) == SumCost(before) + Cost(f.quantity, f.entryPrice))
  {
    var before := LegsAt(state, f.symbol);
    RestopSums(before, f.stopPrice);
    ApplyFillAt(state, f);
    IncrementConserves(Restop(before, f.stopPrice), f);
  }

  lemma {:induction false} OtherSymbolKeeps(state: StrategyState, f: Fill, symbol: string)
    requires ApplyFill(state, f).Ok? && f.symbol != symbol
    ensures LegsAt(ApplyFill(state, f).value, symbol) == LegsAt(state, symbol)
  {
  }

  /** Over any run of increments, whatever the symbols and orders, a position never holds more than it held plus what was
      filled; it holds exactly that, at exactly the added cost, if and only if no fill replaced a restored leg. */
  lemma {:induction false} RunConserves(state: StrategyState, fills: seq<Fill>, symbol: string)
    requires FoldFills(state, fills).Ok?
    requires forall i | 0 <= i < |fills| :: Plain(fills[i])
    ensures var before, after, own := LegsAt(state, symbol), LegsAt(FoldFills(state, fills).value, symbol), Of(fills, symbol);
            && SumQuantity(after) <= SumQuantity(before) + FilledQuantity(own)
            && (SumQuantity(after) == SumQuantity(before) + FilledQuantity(own) <==> NoneReplaces(state, fills, symbol))
            && (NoneReplaces(state, fills, symbol) ==> SumCost(after) == SumCost(before) + FilledCost(own))
  {
    if fills == [] {
    } else {
      var n := |fills| - 1;
      RunConserves(state, fills[..n], symbol);
      var before := FoldFills(state, fills[..n]).value;
      if fills[n].symbol == symbol {
        StepConserves(before, fills[n]);
        assert Of(fills, symbol)[..|Of(fills[..n], symbol)|] == Of(fills[..n], symbol);
      } else {
        OtherSymbolKeeps(before, fills[n], symbol);
      }
    }
  }

  /** Not a single leg without an order id: nothing that a fill would replace. */
  predicate Settled(legs: seq<PositionLeg>) { |legs| >= 2 || (|legs| == 1 && legs[0].entryOrderId.Some?) }

  lemma {:induction false} StepSettles(state: StrategyState, f: Fill)
    requires f.entryOrderId.Some? && ApplyFill(state, f).Ok?
    ensures Settled(LegsAt(ApplyFill(state, f).value, f.symbol))
  {
    ApplyFillAt(state, f);
  }

  lemma {:induction false} OwnFillsSettle(state: StrategyState, fills: seq<Fill>, symbol: string)
    requires FoldFills(state, fills).Ok? && forall i | 0 <= i < |fills| :: fills[i].entryOrderId.Some?
    ensures if Of(fills, symbol) == [] then LegsAt(FoldFills(state, fills).value, symbol) == LegsAt(state, symbol)
            else Settled(LegsAt(FoldFills(state, fills).value, symbol))
  {
    if fills == [] {
    } else {
      var n := |fills| - 1;
      OwnFillsSettle(state, fills[..n], symbol);
      var before := FoldFills(state, fills[..n]).value;
      if fills[n].symbol == symbol {
        StepSettles(before, fills[n]);
      } else {
        OtherSymbolKeeps(before, fills[n], symbol);
      }
    }
  }

  /** When every fill names its order, only a symbol's first fill can replace a restored leg. */
  lemma {:induction false} OnlyFirstReplaces(state: StrategyState, fills: seq<Fill>, symbol: string)
    requires FoldFills(state, fills).Ok? && forall i | 0 <= i < |fills| :: fills[i].entryOrderId.Some?
    ensures var own := Of(fills, symbol);
            NoneReplaces(state, fills, symbol) <==> own == [] || !OnlyRestored(LegsAt(state, symbol), own[0].quantity)
  {
    if fills == [] {
    } else {
      var n := |fills| - 1;
      OnlyFirstReplaces(state, fills[..n], symbol);
      OwnFillsSettle(state, fills[..n], symbol);
    }
  }

  // ----- increments and running totals agree -----

  predicate Increment(f: Fill) {
    f.entryOrderId.Some? && f.cumulativeQuantity.None? && f.cumulativeAveragePrice.None? && f.quantity > 0.0 && f.entryPrice > 0.0
  }

  predicate OneOrder(fills: seq<Fill>, symbol: string, key: Key) {
    forall i :: 0 <= i < |fills| ==> Increment(fills[i]) && fills[i].symbol == symbol && KeyOf(fills[i]) == key
  }

  function FilledQuantity(fills: seq<Fill>): real {
    if fills == [] then 0.0 else FilledQuantity(fills[..|fills| - 1]) + fills[|fills| - 1].quantity
  }

  function FilledCost(fills: seq<Fill>): real {
    if fills == [] then 0.0
    else FilledCost(fills[..|fills| - 1]) + Cost(fills[|fills| - 1].quantity, fills[|fills| - 1].entryPrice)
  }

  /** A fill as the exchange reports it with running totals: the last of the increments, plus what the
      order has filled so far and the exact average price of that. */
  predicate ReportsTotals(g: Fill, fills: seq<Fill>)
    requires fills != []
  {
    && g == fills[|fills| - 1].(cumulativeQuantity := g.cumulativeQuantity, cumulativeAveragePrice := g.cumulativeAveragePrice)
    && g.cumulativeQuantity == Some(FilledQuantity(fills))
    && g.cumulativeAveragePrice.Some? && Cost(FilledQuantity(fills), g.cumulativeAveragePrice.value) == FilledCost(fills)
  }

  predicate RunningTotals(totals: seq<Fill>, fills: seq<Fill>) {
    |totals| == |fills| && forall i :: 0 <= i < |fills| ==> ReportsTotals(totals[i], fills[..i + 1])
  }

  lemma {:induction false} TotalsPositive(fills: seq<Fill>, symbol: string, key: Key)
    requires OneOrder(fills, symbol, key) && fills != []
    ensures FilledQuantity(fills) > 0.0 && FilledCost(fills) > 0.0
  {
    var n := |fills| - 1;
    if n > 0 { TotalsPositive(fills[..n], symbol, key); }
    CostPositive(fills[n].quantity, fills[n].entryPrice);
  }

  lemma {:induction false} CostPositive(q: real, p: real)
    requires q > 0.0
    ensures Cost(q, p) > 0.0 <==> p > 0.0
  {
  }

  lemma {:induction false} CostDeterminesPrice(q: real, p: real, p': real)
    requires q > 0.0 && Cost(q, p) == Cost(q, p')
    ensures p == p'
  {
    assert q * (p - p') == 0.0;
  }

  /** The order's leg is there and holds what the fills so far add up to. */
  predicate LegHolds(legs: seq<PositionLeg>, f: Fill, quantity: real, cost: real) {
    var i := FirstMatch(legs, f);
    i < |legs| && legs[i].quantity == quantity && Cost(quantity, legs[i].entryPrice) == cost
  }

  lemma {:induction false} SameMatch(legs: seq<PositionLeg>, f: Fill, g: Fill)
    requires KeyOf(f) == KeyOf(g)
    ensures FirstMatch(legs, f) == FirstMatch(legs, g)
  {
    if legs == [] {
    } else {
      SameMatch(legs[1..], f, g);
    }
  }

  lemma {:induction false} FirstMatchIs(legs: seq<PositionLeg>, f: Fill, i: nat)
    requires i < |legs| && Matches(legs[i], f) && forall k :: 0 <= k < i ==> !Matches(legs[k], f)
    ensures FirstMatch(legs, f) == i
  {
  }

  lemma {:induction false} FirstStepAgrees(legs: seq<PositionLeg>, f: Fill, g: Fill)
    requires Increment(f) && FirstMatch(legs, f) == |legs|
    requires ReportsTotals(g, [f])
    ensures UpdatedLegs(legs, f).Ok? && UpdatedLegs(legs, g) == UpdatedLegs(legs, f)
    ensures LegHolds(UpdatedLegs(legs, f).value, f, f.quantity, Cost(f.quantity, f.entryPrice))
  {
    assert [f][..0] == [];
    assert FilledQuantity([f]) == f.quantity && FilledCost([f]) == Cost(f.quantity, f.entryPrice);
    CostDeterminesPrice(f.quantity, f.entryPrice, g.cumulativeAveragePrice.value);
    TotalsPositive([f], f.symbol, KeyOf(f));
    CostPositive(f.quantity, f.entryPrice);
    assert NewLeg(g) == NewLeg(f);
    SameMatch(legs, f, g);
    FirstMatchIs(UpdatedLegs(legs, f).value, f, if RestoredAlready(legs, f) then 0 else |legs|);
  }

  lemma {:induction false} NextStepAgrees(legs: seq<PositionLeg>, f: Fill, g: Fill, quantity: real, cost: real)
    requires Increment(f) && LegHolds(legs, f, quantity, cost) && quantity > 0.0 && cost > 0.0
    requires g == f.(cumulativeQuantity := g.cumulativeQuantity, cumulativeAveragePrice := g.cumulativeAveragePrice)
    requires g.cumulativeQuantity == Some(quantity + f.quantity) && g.cumulativeAveragePrice.Some?
    requires Cost(quantity + f.quantity, g.cumulativeAveragePrice.value) == cost + Cost(f.quantity, f.entryPrice)
    ensures UpdatedLegs(legs, f).Ok? && UpdatedLegs(legs, g) == UpdatedLegs(legs, f)
    ensures LegHolds(UpdatedLegs(legs, f).value, f, quantity + f.quantity, cost + Cost(f.quantity, f.entryPrice))
  {
    var i := FirstMatch(legs, f);
    SameMatch(legs, f, g);
    MergedLegCost(legs[i], f);
    CostPositive(f.quantity, f.entryPrice);
    CostPositive(quantity + f.quantity, g.cumulativeAveragePrice.value);
    CostDeterminesPrice(quantity + f.quantity, MergedLeg(legs[i], f).value.entryPrice, g.cumulativeAveragePrice.value);
    assert MergedLeg(legs[i], g) == MergedLeg(legs[i], f);
    FirstMatchIs(UpdatedLegs(legs, f).value, f, i);
  }

  lemma {:induction false} RestopMatch(legs: seq<PositionLeg>, f: Fill, stopPrice: real)
    ensures FirstMatch(Restop(legs, stopPrice), f) == FirstMatch(legs, f)
  {
    if legs == [] {
    } else {
      RestopMatch(legs[1..], f, stopPrice);
      assert Restop(legs, stopPrice)[1..] == Restop(legs[1..], stopPrice);
    }
  }

  function LegsAt(state: StrategyState, symbol: string): seq<PositionLeg> {
    if symbol in state.positions then state.positions[symbol].legs else []
  }

  lemma {:induction false} ApplyFillAt(state: StrategyState, f: Fill)
    ensures var updated := UpdatedLegs(Restop(LegsAt(state, f.symbol), f.stopPrice), f);
            match ApplyFill(state, f)
            case Err(_) => updated.Err?
            case Ok(after) => updated == Ok(LegsAt(after, f.symbol))
  {
    assert [] + [NewLeg(f)] == [NewLeg(f)];
  }

  lemma {:induction false} SameUpdateSameState(state: StrategyState, f: Fill, g: Fill)
    requires g == f.(cumulativeQuantity := g.cumulativeQuantity, cumulativeAveragePrice := g.cumulativeAveragePrice)
    requires var legs := Restop(LegsAt(state, f.symbol), f.stopPrice); UpdatedLegs(legs, g) == UpdatedLegs(legs, f)
    ensures ApplyFill(state, g) == ApplyFill(state, f)
  {
    assert [] + [NewLeg(f)] == [NewLeg(f)] && [] + [NewLeg(g)] == [NewLeg(g)];
  }

  lemma {:induction false} StepAgrees(state: StrategyState, fills: seq<Fill>, g: Fill, symbol: string, key: Key)
    requires OneOrder(fills, symbol, key) && fills != [] && ReportsTotals(g, fills)
    requires var f, before := fills[|fills| - 1], fills[..|fills| - 1];
             if before == [] then FirstMatch(LegsAt(state, symbol), f) == |LegsAt(state, symbol)|
             else LegHolds(LegsAt(state, symbol), f, FilledQuantity(before), FilledCost(before))
    ensures var f := fills[|fills| - 1];
            && ApplyFill(state, f).Ok? && ApplyFill(state, g) == ApplyFill(state, f)
            && LegHolds(LegsAt(ApplyFill(state, f).value, symbol), f, FilledQuantity(fills), FilledCost(fills))
  {
    var n := |fills| - 1;
    var f := fills[n];
    var legs := Restop(LegsAt(state, symbol), f.stopPrice);
    RestopMatch(LegsAt(state, symbol), f, f.stopPrice);
    if n == 0 {
      assert fills == [f];
      FirstStepAgrees(legs, f, g);
    } else {
      TotalsPositive(fills[..n], symbol, key);
      NextStepAgrees(legs, f, g, FilledQuantity(fills[..n]), FilledCost(fills[..n]));
    }
    SameUpdateSameState(state, f, g);
    ApplyFillAt(state, f);
  }

  /** Two lists of fills that do the same at every step, as long as an invariant holds, do the same altogether. */
  lemma {:induction false} FoldsAgree(state: StrategyState, fills: seq<Fill>, totals: seq<Fill>, n: nat, inv: (StrategyState, nat) -> bool)
    requires n <= |fills| == |totals| && inv(state, 0)
    requires forall s, k: nat | k < |fills| && inv(s, k) ::
               ApplyFill(s, fills[k]).Ok? && ApplyFill(s, totals[k]) == ApplyFill(s, fills[k]) && inv(ApplyFill(s, fills[k]).value, k + 1)
    ensures FoldFills(state, fills[..n]).Ok? && FoldFills(state, totals[..n]) == FoldFills(state, fills[..n])
    ensures inv(FoldFills(state, fills[..n]).value, n)
  {
    if n > 0 {
      FoldsAgree(state, fills, totals, n - 1, inv);
      assert fills[..n][..n - 1] == fills[..n - 1] && totals[..n][..n - 1] == totals[..n - 1];
    }
  }

  /** After `n` of an order's increments it has a leg with what was filled so far; before the first the state is untouched. */
  predicate FilledSoFar(state: StrategyState, s: StrategyState, fills: seq<Fill>, symbol: string, n: nat) {
    n <= |fills|
    && if n == 0 then s == state
       else LegHolds(LegsAt(s, symbol), fills[n - 1], FilledQuantity(fills[..n]), FilledCost(fills[..n]))
  }

  lemma {:induction false} NextIncrement(state: StrategyState, s: StrategyState, fills: seq<Fill>, totals: seq<Fill>, symbol: string, key: Key, n: nat)
    requires OneOrder(fills, symbol, key) && RunningTotals(totals, fills) && n < |fills|
    requires forall leg :: leg in LegsAt(state, symbol) ==> (leg.entryOrderId, leg.legType) != key
    requires FilledSoFar(state, s, fills, symbol, n)
    ensures ApplyFill(s, fills[n]).Ok? && ApplyFill(s, totals[n]) == ApplyFill(s, fills[n])
    ensures FilledSoFar(state, ApplyFill(s, fills[n]).value, fills, symbol, n + 1)
  {
    var part := fills[..n + 1];
    assert part[..n] == fills[..n] && part[n] == fills[n];
    if n > 0 {
      SameMatch(LegsAt(s, symbol), fills[n - 1], fills[n]);
    } else {
      NoMatch(LegsAt(state, symbol), fills[0]);
    }
    StepAgrees(s, part, totals[n], symbol, key);
  }

  lemma {:induction false} FoldTogether(state: StrategyState, fills: seq<Fill>, totals: seq<Fill>, symbol: string, key: Key)
    requires OneOrder(fills, symbol, key) && RunningTotals(totals, fills)
    requires forall leg :: leg in LegsAt(state, symbol) ==> (leg.entryOrderId, leg.legType) != key
    ensures FoldFills(state, fills[..|fills|]).Ok? && FoldFills(state, totals[..|fills|]) == FoldFills(state, fills[..|fills|])
    ensures FilledSoFar(state, FoldFills(state, fills[..|fills|]).value, fills, symbol, |fills|)
  {
    var inv := (s, n: nat) => FilledSoFar(state, s, fills, symbol, n);
    forall s, n: nat | n < |fills| && inv(s, n)
      ensures ApplyFill(s, fills[n]).Ok? && ApplyFill(s, totals[n]) == ApplyFill(s, fills[n]) && inv(ApplyFill(s, fills[n]).value, n + 1)
    {
      NextIncrement(state, s, fills, totals, symbol, key, n);
    }
    FoldsAgree(state, fills, totals, |fills|, inv);
  }

  /** Whatever the position held before the order, folding its fills as plain increments and folding the
      running totals end in the same state, and the order's leg holds exactly what was filled. */
  lemma {:induction false} IncrementsAgreeWithTotals(state: StrategyState, fills: seq<Fill>, totals: seq<Fill>, symbol: string, key: Key)
    requires OneOrder(fills, symbol, key) && RunningTotals(totals, fills)
    requires forall leg :: leg in LegsAt(state, symbol) ==> (leg.entryOrderId, leg.legType) != key
    ensures FoldFills(state, fills).Ok? && FoldFills(state, totals) == FoldFills(state, fills)
    ensures fills != [] ==>
              LegHolds(LegsAt(FoldFills(state, fills).value, symbol), fills[|fills| - 1], FilledQuantity(fills), FilledCost(fills))
  {
    FoldTogether(state, fills, totals, symbol, key);
    assert fills[..|fills|] == fills && totals[..|fills|] == totals;
  }

  lemma {:induction false} NoMatch(legs: seq<PositionLeg>, f: Fill)
    requires forall leg :: leg in legs ==> (leg.entryOrderId, leg.legType) != KeyOf(f)
    ensures FirstMatch(legs, f) == |legs|
  {
    if legs == [] {
    } else {
      assert legs[0] in legs;
      NoMatch(legs[1..], f);
    }
  }
}
