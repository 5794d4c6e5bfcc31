/** Positions made of legs, and the strategy state. Amounts and prices are exact; times are integers. */
module Models {
  import opened Common

  datatype LegType = Base | AddOn

  datatype LegSource = StrategyFill | UserStream | RestRestore | AccountUpdate | Reconciliation | TradeRecovery | Legacy

  datatype PositionLeg = PositionLeg(symbol: string, quantity: real, entryPrice: real, stopPrice: real, openedAt: int,
                                     legType: LegType, entryOrderId: Option<string>, legSource: LegSource)

  datatype Position = Position(symbol: string, stopPrice: real, legs: seq<PositionLeg>)

  datatype StrategyState = StrategyState(
    currentDay: int, previousLeader: Option<string>, positions: map<string, Position>, recentStopLossExits: map<string, int>,
    dailyBaseSignalTimes: map<string, int>, dailyBaseSignalCounts: map<string, int>)

  function SumQuantity(legs: seq<PositionLeg>): real {
    if legs == [] then 0.0 else SumQuantity(legs[..|legs| - 1]) + legs[|legs| - 1].quantity
  }

  function Cost(quantity: real, price: real): real { quantity * price }

  /** What the legs cost: the sum of quantity times entry price. */
  function SumCost(legs: seq<PositionLeg>): real {
    if legs == [] then 0.0
    else SumCost(legs[..|legs| - 1]) + Cost(legs[|legs| - 1].quantity, legs[|legs| - 1].entryPrice)
  }

  method TotalQuantity(p: Position) returns (total: real)
    ensures total == SumQuantity(p.legs)
  {
    total := 0.0;
    for i := 0 to |p.legs|
      invariant total == SumQuantity(p.legs[..i])
    {
      assert p.legs[..i + 1][..i] == p.legs[..i];
      total := total + p.legs[i].quantity;
    }
    assert p.legs[..|p.legs|] == p.legs;
  }

  function Restop(legs: seq<PositionLeg>, stopPrice: real): (r: seq<PositionLeg>)
    ensures |r| == |legs|
    ensures forall i :: 0 <= i < |legs| ==> r[i] == legs[i].(stopPrice := stopPrice)
  {
    seq(|legs|, i requires 0 <= i < |legs| => legs[i].(stopPrice := stopPrice))
  }

  function WithStopPrice(p: Position, stopPrice: real): Position {
    Position(p.symbol, stopPrice, Restop(p.legs, stopPrice))
  }

  // ----- sums -----

  lemma {:induction false} RestopSums(legs: seq<PositionLeg>, stopPrice: real)
    ensures SumQuantity(Restop(legs, stopPrice)) == SumQuantity(legs)
    ensures SumCost(Restop(legs, stopPrice)) == SumCost(legs)
  {
    if legs == [] {
    } else {
      var n := |legs| - 1;
      RestopSums(legs[..n], stopPrice);
      assert Restop(legs, stopPrice)[..n] == Restop(legs[..n], stopPrice);
    }
  }

  lemma {:induction false} AppendSums(legs: seq<PositionLeg>, leg: PositionLeg)
    ensures SumQuantity(legs + [leg]) == SumQuantity(legs) + leg.quantity
    ensures SumCost(legs + [leg]) == SumCost(legs) + Cost(leg.quantity, leg.entryPrice)
  {
    assert (legs + [leg])[..|legs|] == legs;
  }

  lemma {:induction false} UpdateSums(legs: seq<PositionLeg>, i: nat, leg: PositionLeg)
    requires i < |legs|
    ensures SumQuantity(legs[i := leg]) == SumQuantity(legs) - legs[i].quantity + leg.quantity
    ensures SumCost(legs[i := leg]) == SumCost(legs) - Cost(legs[i].quantity, legs[i].entryPrice) + Cost(leg.quantity, leg.entryPrice)
  {
    var n := |legs| - 1;
    if i < n {
      UpdateSums(legs[..n], i, leg);
      assert legs[i := leg][..n] == legs[..n][i := leg];
    } else {
      assert legs[i := leg][..n] == legs[..n];
    }
  }
}
