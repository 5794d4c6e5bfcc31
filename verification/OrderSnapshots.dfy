/** How the account cache turns an exchange order into a keyed snapshot, and a snapshot back into an order.
    Numbers and ids are their texts; a status is read without regard to letter case. */
module OrderSnapshots {
  import opened Common

  datatype Status = New | PartiallyFilled | Pending | Inactive(text: string)

  type Field = Option<string>

  datatype RestOrder = RestOrder(
    symbol: Field, status: Option<Status>, side: Field,
    orderId: Field, clientOrderId: Field, origClientOrderId: Field,
    algoId: Field, clientAlgoId: Field, algoStatus: Option<Status>,
    orderType: Field, plainType: Field, origType: Field,
    stopPrice: Field, triggerPrice: Field, origQty: Field, quantity: Field)

  datatype OrderSnapshot = OrderSnapshot(
    symbol: Field, status: Option<Status>, executionType: Field, side: Field, clientOrderId: Field,
    originalOrderType: Field, stopPrice: Field, quantity: Field, eventTime: Field)

  const ALGO_PREFIX := "algo:"
  const REST_PREFIX := "rest:"

  predicate IsAlgoKey(key: string) {
    |key| >= 5 && key[..5] == ALGO_PREFIX
  }

  predicate Truthy(f: Field) {
    f.Some? && f.value != ""
  }

  /** An active status; an order without a status counts as new. */
  predicate Active(status: Option<Status>) {
    status.Some? && !status.value.Inactive?
  }

  function StatusOrNew(status: Option<Status>): Option<Status> {
    if status.None? then Some(New) else status
  }

  /** How a missing symbol prints. */
  function Shown(f: Field): string {
    f.GetOr("None")
  }

  function RegularSnapshot(o: RestOrder): Option<(string, OrderSnapshot)> {
    var client := OrElse(o.clientOrderId, o.origClientOrderId);
    var key :=
      if Truthy(o.orderId) then o.orderId.value
      else REST_PREFIX + Shown(o.symbol) + ":" + client.GetOr("") + ":"
           + OrElse(o.plainType, o.origType).GetOr("") + ":" + o.stopPrice.GetOr("");
    if o.status.Some? && !Active(o.status) then None
    else Some((key, OrderSnapshot(o.symbol, StatusOrNew(o.status), None, o.side, client, OrElse(o.origType, o.plainType), o.stopPrice,
                                  OrElse(o.origQty, o.quantity), None)))
  }

  function AlgoSnapshot(o: RestOrder): Option<(string, OrderSnapshot)> {
    var id := OrElse(o.clientAlgoId, o.algoId);
    var text :=
      if Truthy(id) then id.value
      else REST_PREFIX + Shown(o.symbol) + ":" + OrElse(o.orderType, o.plainType).GetOr("") + ":"
           + OrElse(o.triggerPrice, o.stopPrice).GetOr("");
    var status := if o.algoStatus.Some? then o.algoStatus else o.status;
    if status.Some? && !Active(status) then None
    else Some((ALGO_PREFIX + text,
               OrderSnapshot(o.symbol, StatusOrNew(status), None, o.side, o.clientAlgoId, OrElse(o.orderType, o.plainType),
                             OrElse(o.triggerPrice, o.stopPrice), OrElse(o.quantity, o.origQty), None)))
  }

  /** The first of two texts that is there and not empty; the second if neither is. */
  predicate Picks(r: Field, a: Field, b: Field) {
    if a.Some? && a.value != "" then r == a else r == b
  }

  predicate Open(status: Option<Status>) {
    status == None || status == Some(New) || status == Some(PartiallyFilled) || status == Some(Pending)
  }

  /** What the cache keeps of a regular order: it is kept unless it is known to be over, with the exchange's id as its key if it
      has one, and each field from the names that regular orders use. */
  lemma {:induction false} RegularExactly(o: RestOrder)
    ensures RegularSnapshot(o).Some? <==> Open(o.status)
    ensures RegularSnapshot(o).Some? ==>
              var (key, s) := RegularSnapshot(o).value;
              && (o.orderId.Some? && o.orderId.value != "" ==> key == o.orderId.value)
              && (o.orderId == None || o.orderId == Some("") ==>
                    forall kind :: Picks(kind, o.plainType, o.origType) ==>
                      key == "rest:" + o.symbol.GetOr("None") + ":" + s.clientOrderId.GetOr("") + ":" + kind.GetOr("") + ":" + o.stopPrice.GetOr(""))
              && s.symbol == o.symbol && s.side == o.side && s.stopPrice == o.stopPrice
              && (if o.status.None? then s.status == Some(New) else s.status == o.status)
              && Picks(s.clientOrderId, o.clientOrderId, o.origClientOrderId)
              && Picks(s.originalOrderType, o.origType, o.plainType) && Picks(s.quantity, o.origQty, o.quantity)
              && s.executionType == None && s.eventTime == None
  {
  }

  /** And of an algo order: its client id comes first as a key, its own status, type, trigger price and quantity before those of
      regular orders. */
  lemma {:induction false} AlgoExactly(o: RestOrder)
    ensures AlgoSnapshot(o).Some? <==> Open(if o.algoStatus.Some? then o.algoStatus else o.status)
    ensures AlgoSnapshot(o).Some? ==>
              var (key, s) := AlgoSnapshot(o).value;
              && (o.clientAlgoId.Some? && o.clientAlgoId.value != "" ==> key == "algo:" + o.clientAlgoId.value)
              && ((o.clientAlgoId == None || o.clientAlgoId == Some("")) && o.algoId.Some? && o.algoId.value != "" ==> key == "algo:" + o.algoId.value)
              && ((o.clientAlgoId == None || o.clientAlgoId == Some("")) && (o.algoId == None || o.algoId == Some("")) ==>
                    key == "algo:" + ("rest:" + o.symbol.GetOr("None") + ":" + s.originalOrderType.GetOr("") + ":" + s.stopPrice.GetOr("")))
              && s.symbol == o.symbol && s.side == o.side && s.clientOrderId == o.clientAlgoId
              && (if o.algoStatus.Some? then s.status == o.algoStatus else if o.status.Some? then s.status == o.status else s.status == Some(New))
              && Picks(s.originalOrderType, o.orderType, o.plainType) && Picks(s.stopPrice, o.triggerPrice, o.stopPrice)
              && Picks(s.quantity, o.quantity, o.origQty) && s.executionType == None && s.eventTime == None
  {
  }

  function RawOrder(key: string, s: OrderSnapshot): RestOrder {
    var algo := IsAlgoKey(key);
    RestOrder(s.symbol, s.status, s.side,
              if algo then None else Some(key), if algo then None else s.clientOrderId, None,
              if algo then Some(key[5..]) else None, if algo then s.clientOrderId else None, None,
              s.originalOrderType, s.originalOrderType, None,
              s.stopPrice, s.stopPrice, s.quantity, s.quantity)
  }

  /** What is published: exactly the orders whose key starts with "algo:" have an algo id, the rest of the key, and their client
      id as that of an algo order; all others have the key as their id. Type, price and quantity stand under both names. */
  lemma {:induction false} PublishedExactly(key: string, s: OrderSnapshot)
    ensures var o := RawOrder(key, s);
            && (|key| >= 5 && key[..5] == "algo:" ==>
                  o.orderId == None && o.clientOrderId == None && o.algoId.Some? && "algo:" + o.algoId.value == key && o.clientAlgoId == s.clientOrderId)
            && (!(|key| >= 5 && key[..5] == "algo:") ==>
                  o.orderId == Some(key) && o.clientOrderId == s.clientOrderId && o.algoId == None && o.clientAlgoId == None)
            && o.symbol == s.symbol && o.status == s.status && o.side == s.side
            && o.plainType == o.orderType == s.originalOrderType && o.stopPrice == o.triggerPrice == s.stopPrice && o.origQty == o.quantity == s.quantity
            && o.origClientOrderId == None && o.algoStatus == None && o.origType == None
  {
  }

  // ----- round trips -----

  /** A snapshot holds no time and no execution type: it came from a read, not from the stream. */
  predicate FromRead(s: OrderSnapshot) {
    s.executionType.None? && s.eventTime.None?
  }

  /** What it takes for a published regular order to parse back: exact in both directions. */
  lemma {:induction false} RegularRoundTrip(key: string, s: OrderSnapshot)
    requires Active(s.status)
    ensures RegularSnapshot(RawOrder(key, s)) == Some((key, s))
         <==> !IsAlgoKey(key) && key != "" && s.clientOrderId != Some("") && FromRead(s)
  {
    var again := RegularSnapshot(RawOrder(key, s)).value.0;
    if IsAlgoKey(key) || key == "" {
      assert |again| >= 5 && again[0] == REST_PREFIX[0];
      assert again != key;
    }
  }

  /** What it takes for a published algo order to parse back: exact in both directions. */
  lemma {:induction false} AlgoRoundTrip(key: string, s: OrderSnapshot)
    requires Active(s.status) && IsAlgoKey(key)
    ensures AlgoSnapshot(RawOrder(key, s)) == Some((key, s))
         <==> (if Truthy(s.clientOrderId) then key[5..] == s.clientOrderId.value else |key| > 5) && FromRead(s)
  {
    assert key == ALGO_PREFIX + key[5..];
    var again := AlgoSnapshot(RawOrder(key, s)).value.0;
    assert again[5..] == key[5..] <==> again == key;
    if !Truthy(s.clientOrderId) && |key| == 5 {
      assert |again| > 5;
    }
  }

  /** Every order that a read of regular orders keeps is published so that it parses back to itself, exactly unless
      its id looks like an algo key or its only client id is the empty text. */
  lemma {:induction false} ReadRegularRoundTrip(o: RestOrder)
    requires RegularSnapshot(o).Some?
    ensures var (key, s) := RegularSnapshot(o).value;
            RegularSnapshot(RawOrder(key, s)) == Some((key, s)) <==> !IsAlgoKey(key) && s.clientOrderId != Some("")
  {
    var (key, s) := RegularSnapshot(o).value;
    RegularRoundTrip(key, s);
  }

  /** Every order that a read of algo orders keeps parses back to itself. */
  lemma {:induction false} ReadAlgoRoundTrip(o: RestOrder)
    requires AlgoSnapshot(o).Some?
    ensures var (key, s) := AlgoSnapshot(o).value;
            IsAlgoKey(key) && AlgoSnapshot(RawOrder(key, s)) == Some((key, s))
  {
    var (key, s) := AlgoSnapshot(o).value;
    var id := OrElse(o.clientAlgoId, o.algoId);
    assert key[..5] == ALGO_PREFIX;
    if Truthy(id) {
      assert key[5..] == id.value;
    }
    AlgoRoundTrip(key, s);
  }
}
