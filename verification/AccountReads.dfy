/** The account reads of the exchange's REST interface, what each weighs, and the budget that admits them. */
module AccountReads {
  import opened Common
  import opened OrderSnapshots

  datatype AccountError = Raised | PositionModeUnknown | LimitExceeded | NegativeWeight

  datatype Side = Both | Long | OtherSide

  datatype AccountRow = AccountRow(symbol: string, side: Side, amount: real)

  /** `positions` is missing when the reply holds no list of positions. */
  datatype AccountInfo = AccountInfo(positions: Option<seq<AccountRow>>, detail: string)

  datatype RiskRow = RiskRow(symbol: string, amount: real)

  datatype Request = PositionMode | AccountInformation | PositionRisk | OpenOrders(symbol: string) | OpenAlgoOrders(symbol: string)

  function Weight(r: Request): int {
    match r
    case PositionMode => 30
    case AccountInformation => 5
    case PositionRisk => 5
    case OpenOrders(_) => 1
    case OpenAlgoOrders(_) => 1
  }

  /** One read as the HTTP client was asked for it, with the reply it gave, if it gave one. */
  datatype Read =
    | ModeRead(mode: Option<Option<bool>>)
    | AccountRead(account: Option<Option<AccountInfo>>)
    | RiskRead(rows: Option<seq<RiskRow>>)
    | OrdersRead(symbol: string, orders: Option<seq<RestOrder>>)
    | AlgoOrdersRead(symbol: string, orders: Option<seq<RestOrder>>)

  function RequestOf(r: Read): Request {
    match r
    case ModeRead(_) => PositionMode
    case AccountRead(_) => AccountInformation
    case RiskRead(_) => PositionRisk
    case OrdersRead(symbol, _) => OpenOrders(symbol)
    case AlgoOrdersRead(symbol, _) => OpenAlgoOrders(symbol)
  }

  function Requests(sent: seq<Read>): (r: seq<Request>)
    ensures |r| == |sent|
  {
    if sent == [] then [] else Requests(sent[..|sent| - 1]) + [RequestOf(sent[|sent| - 1])]
  }

  /** What the exchange charges for the reads, answered or not. */
  function TotalWeight(sent: seq<Read>): int {
    if sent == [] then 0 else TotalWeight(sent[..|sent| - 1]) + Weight(RequestOf(sent[|sent| - 1]))
  }

  lemma {:induction false} TotalWeightConcat(a: seq<Read>, b: seq<Read>)
    ensures TotalWeight(a + b) == TotalWeight(a) + TotalWeight(b)
  {
    if b == [] {
      assert a + b == a;
    } else {
      var n := |b| - 1;
      assert (a + b)[..|a + b| - 1] == a + b[..n];
      TotalWeightConcat(a, b[..n]);
    }
  }

  lemma {:induction false} RequestsConcat(a: seq<Read>, b: seq<Read>)
    ensures Requests(a + b) == Requests(a) + Requests(b)
  {
    if b == [] {
      assert a + b == a;
    } else {
      var n := |b| - 1;
      assert (a + b)[..|a + b| - 1] == a + b[..n];
      RequestsConcat(a, b[..n]);
    }
  }

  /** The exchange as the cache sees it: any reply is possible, a read that it does not serve is never sent. */
  class AccountClient {
    const servesMode: bool
    const servesAccount: bool
    const servesRisk: bool
    const servesOrders: bool
    const servesAlgoOrders: bool
    var log: seq<Read>

    constructor (mode: bool, account: bool, risk: bool, orders: bool, algoOrders: bool)
      ensures log == []
      ensures servesMode == mode && servesAccount == account && servesRisk == risk
      ensures servesOrders == orders && servesAlgoOrders == algoOrders
    {
      servesMode, servesAccount, servesRisk, servesOrders, servesAlgoOrders := mode, account, risk, orders, algoOrders;
      log := [];
    }

    method FetchPositionMode() returns (reply: Option<Option<bool>>)
      modifies this`log
      ensures log == old(log) + [ModeRead(reply)]
    {
      reply := *;
      log := log + [ModeRead(reply)];
    }

    method FetchAccountInfo() returns (reply: Option<Option<AccountInfo>>)
      modifies this`log
      ensures log == old(log) + [AccountRead(reply)]
    {
      reply := *;
      log := log + [AccountRead(reply)];
    }

    method FetchPositionRisk() returns (reply: Option<seq<RiskRow>>)
      modifies this`log
      ensures log == old(log) + [RiskRead(reply)]
    {
      reply := *;
      log := log + [RiskRead(reply)];
    }

    method FetchOpenOrders(symbol: string) returns (reply: Option<seq<RestOrder>>)
      modifies this`log
      ensures log == old(log) + [OrdersRead(symbol, reply)]
    {
      reply := *;
      log := log + [OrdersRead(symbol, reply)];
    }

    method FetchOpenAlgoOrders(symbol: string) returns (reply: Option<seq<RestOrder>>)
      modifies this`log
      ensures log == old(log) + [AlgoOrdersRead(symbol, reply)]
    {
      reply := *;
      log := log + [AlgoOrdersRead(symbol, reply)];
    }
  }

  // ----- the budget -----

  function SpentOn(entries: seq<(Request, int)>): int {
    if entries == [] then 0 else SpentOn(entries[..|entries| - 1]) + entries[|entries| - 1].1
  }

  class RequestWeightBudget {
    const limit: int
    var used: int
    var entries: seq<(Request, int)>

    /** Never overdrawn, and the book of entries explains every unit. */
    ghost predicate Valid()
      reads this
    {
      0 <= used <= limit && used == SpentOn(entries)
    }

    constructor (limit: int)
      requires limit >= 0
      ensures Valid() && this.limit == limit && used == 0
    {
      this.limit := limit;
      used, entries := 0, [];
    }

    predicate CanSpend(weight: int)
      reads this
    {
      weight >= 0 && used + weight <= limit
    }

    method Spend(weight: int, operation: Request) returns (r: Result<(), AccountError>)
      requires Valid()
      modifies this
      ensures Valid()
      ensures r == (if weight < 0 then Err(NegativeWeight) else if old(used) + weight > limit then Err(LimitExceeded) else Ok(()))
      ensures used == old(used) + (if r.Ok? then weight else 0)
      ensures entries == old(entries) + (if r.Ok? then [(operation, weight)] else [])
    {
      if weight < 0 {
        return Err(NegativeWeight);
      }
      if !CanSpend(weight) {
        return Err(LimitExceeded);
      }
      used := used + weight;
      entries := entries + [(operation, weight)];
      return Ok(());
    }
  }
}
