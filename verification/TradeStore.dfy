/** The store of trade fills, and the backfill that brings in a range of trades exactly once. */
module TradeStore {
  import opened Common
  import opened TradeFetch

  datatype Fill = Fill(symbol: string, tradeId: Option<string>, time: int, trade: Trade)

  /** Python's "missing or empty". */
  function NonEmpty(s: Option<string>): Option<string> { if s == Some("") then None else s }

  function SymbolOf(trade: Trade, symbol: string): string { Upper(OrElse(trade.symbol, Some(symbol)).value) }

  /** A stored fill of this symbol with this id; a trade without an id is never found. */
  predicate Exists(fills: seq<Fill>, symbol: string, id: Option<string>) {
    id.Some? && exists i :: 0 <= i < |fills| && fills[i].symbol == symbol && fills[i].tradeId == id
  }

  /** The store after a list of trades: known ids and trades without a time are passed over. */
  function Persisted(fills: seq<Fill>, symbol: string, trades: seq<Trade>): seq<Fill> {
    if trades == [] then fills
    else
      var before, trade := Persisted(fills, symbol, trades[..|trades| - 1]), trades[|trades| - 1];
      var id := NonEmpty(trade.id);
      if Exists(before, SymbolOf(trade, symbol), id) || trade.time.None? then before
      else before + [Fill(SymbolOf(trade, symbol), id, trade.time.value, trade)]
  }

  class TradeFillStore {
    var fills: seq<Fill>

    method TradeFillExists(symbol: string, id: Option<string>) returns (found: bool)
      ensures found == Exists(fills, symbol, id)
    {
      if id.None? {
        return false;
      }
      for i := 0 to |fills|
        invariant forall k :: 0 <= k < i ==> !(fills[k].symbol == symbol && fills[k].tradeId == id)
      {
        if fills[i].symbol == symbol && fills[i].tradeId == id {
          return true;
        }
      }
      found := false;
    }

    method PersistUserTrades(symbol: string, trades: seq<Trade>) returns (inserted: int)
      modifies this
      ensures fills == Persisted(old(fills), symbol, trades)
      ensures inserted == |fills| - |old(fills)|
    {
      inserted := 0;
      for i := 0 to |trades|
        invariant fills == Persisted(old(fills), symbol, trades[..i]) && inserted == |fills| - |old(fills)|
      {
        assert trades[..i + 1][..i] == trades[..i];
        var trade := trades[i];
        var id := NonEmpty(trade.id);
        var known := TradeFillExists(SymbolOf(trade, symbol), id);
        if known || trade.time.None? {
          continue;
        }
        fills := fills + [Fill(SymbolOf(trade, symbol), id, trade.time.value, trade)];
        inserted := inserted + 1;
      }
      assert trades[..|trades|] == trades;
    }
  }

  // ----- exactly once -----

  predicate Keyed(f: Fill, symbol: string, id: string) {
    f.symbol == symbol && f.tradeId == Some(id)
  }

  /** How many stored fills carry this symbol and id. */
  function Copies(fills: seq<Fill>, symbol: string, id: string): nat {
    if fills == [] then 0 else Copies(fills[..|fills| - 1], symbol, id) + if Keyed(fills[|fills| - 1], symbol, id) then 1 else 0
  }

  lemma {:induction false} CopiesExist(fills: seq<Fill>, symbol: string, id: string)
    ensures Copies(fills, symbol, id) > 0 <==> Exists(fills, symbol, Some(id))
  {
    if fills == [] {
    } else {
      var n := |fills| - 1;
      CopiesExist(fills[..n], symbol, id);
      if Exists(fills[..n], symbol, Some(id)) {
        var i :| 0 <= i < n && fills[..n][i].symbol == symbol && fills[..n][i].tradeId == Some(id);
        assert fills[i].symbol == symbol;
      }
      if Exists(fills, symbol, Some(id)) {
        var i :| 0 <= i < |fills| && fills[i].symbol == symbol && fills[i].tradeId == Some(id);
        assert i < n ==> fills[..n][i] == fills[i];
      }
    }
  }

  /** The trade can be stored under this symbol and id. */
  predicate Offers(trade: Trade, symbol: string, key: string, id: string) {
    trade.time.Some? && SymbolOf(trade, symbol) == key && NonEmpty(trade.id) == Some(id)
  }

  predicate Offered(trades: seq<Trade>, symbol: string, key: string, id: string) {
    trades != [] && (Offers(trades[|trades| - 1], symbol, key, id) || Offered(trades[..|trades| - 1], symbol, key, id))
  }

  /** Every id that is offered with a time ends up stored, once if it was not there before; nothing else gets copies. */
  lemma {:induction false} StoredOnce(fills: seq<Fill>, symbol: string, trades: seq<Trade>, key: string, id: string)
    requires id != ""
    ensures Copies(Persisted(fills, symbol, trades), key, id)
         == if Copies(fills, key, id) == 0 && Offered(trades, symbol, key, id) then 1 else Copies(fills, key, id)
  {
    if trades == [] {
    } else {
      var n := |trades| - 1;
      var before, after := Persisted(fills, symbol, trades[..n]), Persisted(fills, symbol, trades);
      StoredOnce(fills, symbol, trades[..n], key, id);
      CopiesExist(before, key, id);
      if after != before {
        assert after[..|before|] == before;
      }
    }
  }

  /** The symbol that a trade is stored under: its own, or the one that was asked for when it has none, in upper case. */
  function KeyFor(trade: Trade, asked: string): string {
    Upper(if trade.symbol.Some? && trade.symbol.value != "" then trade.symbol.value else asked)
  }

  /** What a stored fill says about its trade: its symbol, its id unless that is missing or empty, its time, and itself. */
  predicate Records(f: Fill, t: Trade, asked: string) {
    && f.trade == t && t.time == Some(f.time) && f.symbol == KeyFor(t, asked)
    && (if t.id == None || t.id == Some("") then f.tradeId == None else f.tradeId == t.id)
  }

  /** Persisting keeps what is there and adds records of the trades that have a time. */
  lemma {:induction false} NewFillsRecordTrades(fills: seq<Fill>, symbol: string, trades: seq<Trade>, i: nat)
    requires i < |Persisted(fills, symbol, trades)|
    ensures i < |fills| ==> Persisted(fills, symbol, trades)[i] == fills[i]
    ensures i >= |fills| ==> exists t :: t in trades && Records(Persisted(fills, symbol, trades)[i], t, symbol)
  {
    if trades == [] {
    } else {
      var n := |trades| - 1;
      var before := Persisted(fills, symbol, trades[..n]);
      PersistedKeeps(fills, symbol, trades[..n]);
      if i < |before| {
        NewFillsRecordTrades(fills, symbol, trades[..n], i);
        assert Persisted(fills, symbol, trades)[i] == before[i];
        if i >= |fills| {
          var t :| t in trades[..n] && Records(before[i], t, symbol);
          assert t in trades;
        }
      } else {
        assert trades[n] in trades && Records(Persisted(fills, symbol, trades)[i], trades[n], symbol);
      }
    }
  }

  // ----- how much is inserted -----

  /** Trades with a time but without an id: they cannot be recognized again. */
  function Anonymous(trades: seq<Trade>): nat {
    if trades == [] then 0
    else
      var last := trades[|trades| - 1];
      Anonymous(trades[..|trades| - 1]) + if last.time.Some? && NonEmpty(last.id).None? then 1 else 0
  }

  predicate AllKnown(fills: seq<Fill>, symbol: string, trades: seq<Trade>) {
    trades == []
    || (AllKnown(fills, symbol, trades[..|trades| - 1])
        && var last := trades[|trades| - 1];
           last.time.Some? && NonEmpty(last.id).Some? ==> Exists(fills, SymbolOf(last, symbol), NonEmpty(last.id)))
  }

  lemma {:induction false} PersistedKeeps(fills: seq<Fill>, symbol: string, trades: seq<Trade>)
    ensures fills <= Persisted(fills, symbol, trades)
  {
    if trades == [] {
    } else {
      PersistedKeeps(fills, symbol, trades[..|trades| - 1]);
    }
  }

  /** When all ids are known, exactly the trades without an id are inserted. */
  lemma {:induction false} KnownInsertNothing(fills: seq<Fill>, symbol: string, trades: seq<Trade>)
    requires AllKnown(fills, symbol, trades)
    ensures |Persisted(fills, symbol, trades)| == |fills| + Anonymous(trades)
  {
    if trades == [] {
    } else {
      var n := |trades| - 1;
      KnownInsertNothing(fills, symbol, trades[..n]);
      PersistedKeeps(fills, symbol, trades[..n]);
      var last, before := trades[n], Persisted(fills, symbol, trades[..n]);
      if last.time.Some? && NonEmpty(last.id).Some? {
        var i :| 0 <= i < |fills| && fills[i].symbol == SymbolOf(last, symbol) && fills[i].tradeId == NonEmpty(last.id);
        assert before[i] == fills[i];
      }
    }
  }
}
