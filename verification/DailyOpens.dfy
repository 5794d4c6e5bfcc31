/** The cache of daily opening prices: fed by a stream, completed by rationed kline reads. Times are Unix seconds; a
    symbol is its upper-case text. */
module DailyOpens {
  import opened Common

  const MINUTE := 60
  const DAY := 86400

  function DayOf(now: int): int { now / DAY }

  function MinuteOf(now: int): int { now / MINUTE }

  /** One kline read: its window in milliseconds and its reply, the opening prices of the klines, if there was one. */
  datatype KlineRead = KlineRead(symbol: string, startMs: int, endMs: int, opens: Option<seq<real>>)

  class KlineClient {
    var log: seq<KlineRead>

    method FetchKlines(symbol: string, startMs: int, endMs: int) returns (opens: Option<seq<real>>)
      modifies this
      ensures log == old(log) + [KlineRead(symbol, startMs, endMs, opens)]
    {
      opens := *;
      log := log + [KlineRead(symbol, startMs, endMs, opens)];
    }
  }

  /** What one try for a symbol gave: the reads it made and the klines, unless a read failed. */
  datatype Try = Try(symbol: string, sent: seq<KlineRead>, opens: Option<seq<real>>)

  /** One or two reads: the first minute of the day, and the whole day so far only if that minute has no kline. */
  predicate Sound(t: Try, now: int) {
    var midnight := DayOf(now) * DAY * 1000;
    && 1 <= |t.sent| <= 2
    && t.sent[0].symbol == t.symbol && t.sent[0].startMs == midnight && t.sent[0].endMs == midnight + 59_999
    && (|t.sent| == 2 <==> t.sent[0].opens == Some([]))
    && (|t.sent| == 2 ==> t.sent[1].symbol == t.symbol && t.sent[1].startMs == midnight && t.sent[1].endMs == now * 1000)
    && t.opens == t.sent[|t.sent| - 1].opens
  }

  function Sent(tries: seq<Try>): seq<KlineRead> {
    if tries == [] then [] else Sent(tries[..|tries| - 1]) + tries[|tries| - 1].sent
  }

  /** The prices after the tries: a try that found klines prices its symbol with the first one's open. */
  function Priced(prices: map<string, real>, tries: seq<Try>): map<string, real> {
    if tries == [] then prices
    else
      var last := tries[|tries| - 1];
      var before := Priced(prices, tries[..|tries| - 1]);
      if last.opens.Some? && last.opens.value != [] then before[last.symbol := last.opens.value[0]] else before
  }

  predicate AllSound(tries: seq<Try>, now: int) {
    tries == [] || (AllSound(tries[..|tries| - 1], now) && Sound(tries[|tries| - 1], now))
  }

  predicate AllAnswered(tries: seq<Try>) {
    tries == [] || (AllAnswered(tries[..|tries| - 1]) && tries[|tries| - 1].opens.Some?)
  }

  lemma {:induction false} TryAdds(prices: map<string, real>, tries: seq<Try>, attempt: Try, now: int)
    requires AllSound(tries, now) && AllAnswered(tries) && Sound(attempt, now)
    ensures Priced(prices, tries + [attempt]) == Priced(Priced(prices, tries), [attempt])
    ensures Sent(tries + [attempt]) == Sent(tries) + attempt.sent
    ensures AllSound(tries + [attempt], now) && AllAnswered(tries + [attempt]) == attempt.opens.Some?
  {
    var all := tries + [attempt];
    assert all[..|all| - 1] == tries && all[|all| - 1] == attempt;
    PricedByOne(Priced(prices, tries), attempt);
  }

  lemma {:induction false} PricedByOne(prices: map<string, real>, attempt: Try)
    ensures Priced(prices, [attempt])
         == if attempt.opens.Some? && attempt.opens.value != [] then prices[attempt.symbol := attempt.opens.value[0]] else prices
  {
    assert [attempt][..0] == [];
  }

  function Tried(tries: seq<Try>): set<string> {
    if tries == [] then {} else Tried(tries[..|tries| - 1]) + {tries[|tries| - 1].symbol}
  }

  /** Symbols in the order in which they are tried: the priority ones first. */
  function Ordered(symbols: seq<string>, priority: set<string>): seq<string> {
    Filter(symbols, s => s in priority) + Filter(symbols, s => s !in priority)
  }

  /** The symbols are kept; the first `p` are those with priority. */
  lemma {:induction false} OrderedMembers(symbols: seq<string>, priority: set<string>) returns (p: nat)
    ensures Elements(Ordered(symbols, priority)) == Elements(symbols)
    ensures forall k :: 0 <= k < |Ordered(symbols, priority)| ==> (Ordered(symbols, priority)[k] in priority <==> k < p)
  {
    FilterMembers(symbols, s => s in priority);
    FilterMembers(symbols, s => s !in priority);
    var ordered := Ordered(symbols, priority);
    var first, second := Filter(symbols, s => s in priority), Filter(symbols, s => s !in priority);
    p := |first|;
    forall k | 0 <= k < |ordered| ensures ordered[k] in priority <==> k < |first| {
      assert if k < |first| then ordered[k] in first else ordered[k] in second;
    }
    assert forall x :: x in ordered <==> x in first || x in second;
  }

  // ----- days, minutes, prices -----

  /** The day and the minute of a time in seconds, and when a symbol without priority may be tried: from two minutes after
      midnight on. */
  lemma {:induction false} TimesExactly(now: int, day: int, minute: int, symbol: string, priority: set<string>)
    ensures DayOf(now) == day <==> 86_400 * day <= now < 86_400 * day + 86_400
    ensures MinuteOf(now) == minute <==> 60 * minute <= now < 60 * minute + 60
    ensures DayOf(now) == day ==> (Allowed(symbol, priority, now) <==> symbol in priority || now - 86_400 * day >= 2 * 60)
  {
  }

  /** What a try reads: the first minute of the day, and only if that has no kline the day up to now, all in milliseconds. */
  lemma {:induction false} TryReads(t: Try, now: int, day: int)
    requires Sound(t, now) && 86_400 * day <= now < 86_400 * day + 86_400
    ensures var midnight := 86_400_000 * day;
            && 1 <= |t.sent| <= 2 && (forall read <- t.sent :: read.symbol == t.symbol && read.startMs == midnight)
            && t.sent[0].endMs == midnight + 60_000 - 1
            && (|t.sent| == 2 <==> t.sent[0].opens.Some? && |t.sent[0].opens.value| == 0)
            && (|t.sent| == 2 ==> t.sent[1].endMs == 1000 * now)
            && (if |t.sent| == 2 then t.opens == t.sent[1].opens else t.opens == t.sent[0].opens)
  {
    TimesExactly(now, day, 0, "", {});
  }

  /** The try brought a kline for the symbol. */
  predicate Prices(t: Try, symbol: string) { t.symbol == symbol && t.opens.Some? && |t.opens.value| > 0 }

  function PriceOf(prices: map<string, real>, symbol: string): Option<real> { if symbol in prices then Some(prices[symbol]) else None }

  /** What the tries make of a price: it stays as long as none of them brings a kline for the symbol. */
  lemma {:induction false} PriceStays(before: map<string, real>, tries: seq<Try>, symbol: string)
    requires forall i | 0 <= i < |tries| :: !Prices(tries[i], symbol)
    ensures PriceOf(Priced(before, tries), symbol) == PriceOf(before, symbol)
  {
    if tries == [] {
    } else {
      PriceStays(before, tries[..|tries| - 1], symbol);
    }
  }

  /** And it is the open of the first kline of the last try that brings one. */
  lemma {:induction false} LastTryPrices(before: map<string, real>, tries: seq<Try>, symbol: string, i: nat)
    requires i < |tries| && Prices(tries[i], symbol) && forall j | i < j < |tries| :: !Prices(tries[j], symbol)
    ensures PriceOf(Priced(before, tries), symbol) == Some(tries[i].opens.value[0])
  {
    var n := |tries| - 1;
    if i < n {
      LastTryPrices(before, tries[..n], symbol, i);
    }
  }

  // ----- what a pass promises -----

  /** Two minutes after midnight the stream has had its chance; a priority symbol need not wait. */
  predicate Allowed(symbol: string, priority: set<string>, now: int) {
    symbol in priority || now % DAY >= 120
  }

  /** Only symbols that are wanted, allowed and still without a price are tried. One without priority is tried only when
      every wanted priority symbol has a price or has been tried; a priority symbol never comes after one without. */
  predicate Rationed(tries: seq<Try>, before: map<string, real>, wanted: set<string>, priority: set<string>, now: int) {
    tries == [] ||
    var init, symbol := tries[..|tries| - 1], tries[|tries| - 1].symbol;
    && Rationed(init, before, wanted, priority, now)
    && symbol in wanted && Allowed(symbol, priority, now) && symbol !in Priced(before, init)
    && (if symbol in priority then Tried(init) <= priority else wanted * priority <= before.Keys + Tried(init))
  }

  /** What every try of a rationed pass has going for it: the symbol is wanted, it has priority or two minutes have passed since
      midnight, it has no price, and one without priority waits until each wanted priority symbol has a price or was tried;
      no priority symbol comes later. */
  lemma {:induction false} TryIsDue(tries: seq<Try>, before: map<string, real>, wanted: set<string>, priority: set<string>, now: int, i: nat)
    requires Rationed(tries, before, wanted, priority, now) && i < |tries|
    ensures var symbol := tries[i].symbol;
            && symbol in wanted && (symbol in priority || now - 86_400 * DayOf(now) >= 2 * 60)
            && symbol !in before && (forall j | 0 <= j < i :: !Prices(tries[j], symbol))
            && (symbol !in priority ==> forall s | s in wanted && s in priority :: s in before || exists j :: 0 <= j < i && tries[j].symbol == s)
            && (symbol in priority ==> forall j | 0 <= j < i :: tries[j].symbol in priority)
  {
    var n := |tries| - 1;
    if i < n {
      TryIsDue(tries[..n], before, wanted, priority, now, i);
    } else {
      TriedMembers(tries[..n]);
      PricedAlready(before, tries[..n], tries[n].symbol);
    }
  }

  lemma {:induction false} TriedMembers(tries: seq<Try>)
    ensures forall s :: s in Tried(tries) <==> exists j :: 0 <= j < |tries| && tries[j].symbol == s
  {
    if tries == [] {
    } else {
      var n := |tries| - 1;
      TriedMembers(tries[..n]);
      forall s ensures s in Tried(tries) <==> exists j :: 0 <= j < |tries| && tries[j].symbol == s {
        assert forall j | 0 <= j < n :: tries[..n][j].symbol == tries[j].symbol;
        if s in Tried(tries[..n]) {
          var j :| 0 <= j < n && tries[..n][j].symbol == s;
          assert tries[j].symbol == s;
        }
      }
    }
  }

  lemma {:induction false} PricedAlready(before: map<string, real>, tries: seq<Try>, symbol: string)
    requires symbol !in Priced(before, tries)
    ensures symbol !in before && forall j | 0 <= j < |tries| :: !Prices(tries[j], symbol)
  {
    if tries == [] {
    } else {
      PricedAlready(before, tries[..|tries| - 1], symbol);
    }
  }

  /** Nothing that may be tried is left out. */
  predicate Complete(tries: seq<Try>, before: map<string, real>, wanted: set<string>, priority: set<string>, now: int) {
    forall s | s in wanted && Allowed(s, priority, now) :: s in before.Keys + Tried(tries)
  }

  /** The first `i` symbols have been dealt with. */
  predicate Pass(tries: seq<Try>, before: map<string, real>, ordered: seq<string>, p: nat, priority: set<string>, now: int, i: nat)
    requires i <= |ordered|
  {
    && (forall k :: 0 <= k < i && Allowed(ordered[k], priority, now) ==> ordered[k] in before.Keys + Tried(tries))
    && (i <= p ==> Tried(tries) <= priority)
  }

  lemma {:induction false} PassGrows(tries: seq<Try>, before: map<string, real>, ordered: seq<string>, p: nat, priority: set<string>, now: int, i: nat, attempt: Try)
    requires i < |ordered| && Pass(tries, before, ordered, p, priority, now, i)
    requires forall k :: 0 <= k < |ordered| ==> (ordered[k] in priority <==> k < p)
    requires attempt.symbol == ordered[i] && attempt.symbol !in Priced(before, tries) && Allowed(attempt.symbol, priority, now)
    requires Rationed(tries, before, Elements(ordered), priority, now)
    ensures Pass(tries + [attempt], before, ordered, p, priority, now, i + 1)
    ensures Rationed(tries + [attempt], before, Elements(ordered), priority, now)
  {
    assert (tries + [attempt])[..|tries|] == tries;
    if attempt.symbol !in priority {
      forall s | s in Elements(ordered) && s in priority ensures s in before.Keys + Tried(tries) {
        var k :| 0 <= k < |ordered| && ordered[k] == s;
        assert Allowed(ordered[k], priority, now);
      }
    }
  }

  lemma {:induction false} PassSkips(tries: seq<Try>, before: map<string, real>, ordered: seq<string>, p: nat, priority: set<string>, now: int, i: nat)
    requires i < |ordered| && Pass(tries, before, ordered, p, priority, now, i)
    requires Allowed(ordered[i], priority, now) ==> ordered[i] in Priced(before, tries)
    ensures Pass(tries, before, ordered, p, priority, now, i + 1)
  {
    PricedKeys(before, tries);
  }

  lemma {:induction false} PassCompletes(tries: seq<Try>, before: map<string, real>, symbols: seq<string>, p: nat, priority: set<string>, now: int)
    requires Pass(tries, before, Ordered(symbols, priority), p, priority, now, |Ordered(symbols, priority)|)
    ensures Complete(tries, before, Elements(symbols), priority, now)
  {
    var _ := OrderedMembers(symbols, priority);
    var ordered := Ordered(symbols, priority);
    forall s | s in Elements(symbols) && Allowed(s, priority, now) ensures s in before.Keys + Tried(tries) {
      assert s in Elements(ordered);
      var k :| 0 <= k < |ordered| && ordered[k] == s;
      assert Allowed(ordered[k], priority, now);
    }
  }

  function Elements(s: seq<string>): set<string> { set x | x in s }

  lemma {:induction false} PricedKeys(before: map<string, real>, tries: seq<Try>)
    ensures Priced(before, tries).Keys <= before.Keys + Tried(tries)
  {
    if tries == [] {
    } else {
      PricedKeys(before, tries[..|tries| - 1]);
    }
  }

  // ----- the durable copy -----

  type Store = map<int, map<string, real>>

  function Load(store: Store, day: int): map<string, real> { if day in store then store[day] else map[] }

  /** Only positive prices are kept. */
  function Save(store: Store, day: int, symbol: string, price: real): Store {
    if price <= 0.0 then store else store[day := Load(store, day)[symbol := price]]
  }

  /** Every positive price in the cache is the stored one, and nothing stored is missing from the cache. */
  ghost predicate Mirrors(store: Store, day: int, prices: map<string, real>) {
    && (forall s :: s in prices && prices[s] > 0.0 ==> s in Load(store, day) && Load(store, day)[s] == prices[s])
    && (forall s :: s in Load(store, day) ==> s in prices)
  }

  /** Saving sets a positive price for its day and symbol, and nothing else. */
  lemma {:induction false} SaveExactly(store: Store, day: int, symbol: string, price: real, otherDay: int, other: string)
    ensures price > 0.0 ==> symbol in Load(Save(store, day, symbol, price), day) && Load(Save(store, day, symbol, price), day)[symbol] == price
    ensures price <= 0.0 ==> Save(store, day, symbol, price) == store
    ensures (otherDay, other) != (day, symbol) ==>
              var before, after := Load(store, otherDay), Load(Save(store, day, symbol, price), otherDay);
              (other in after <==> other in before) && (other in before ==> after[other] == before[other])
  {
  }

  lemma {:induction false} SaveMirrors(store: Store, day: int, prices: map<string, real>, symbol: string, price: real)
    requires Mirrors(store, day, prices)
    ensures Mirrors(Save(store, day, symbol, price), day, prices[symbol := price])
  {
  }

  class DailyOpenCache {
    const client: KlineClient
    const limit: int
    const hasStore: bool
    var store: Store
    var day: Option<int>
    var prices: map<string, real>
    var restMinute: Option<int>
    var restCalls: int

    ghost predicate Valid()
      reads this
    {
      && 0 <= restCalls <= limit
      && (hasStore && day.Some? ==> Mirrors(store, day.value, prices))
    }

    constructor (client: KlineClient, limitPerMinute: int, store: Option<Store>)
      ensures Valid() && this.client == client && day == None && limit == (if limitPerMinute > 0 then limitPerMinute else 0)
      ensures hasStore == store.Some? && (store.Some? ==> this.store == store.value)
      ensures restMinute == None && restCalls == 0
    {
      this.client := client;
      limit := if limitPerMinute > 0 then limitPerMinute else 0;
      hasStore, this.store := store.Some?, store.GetOr(map[]);
      day, prices, restMinute, restCalls := None, map[], None, 0;
    }

    method LoadDay(newDay: int)
      requires Valid()
      modifies this`day, this`prices
      ensures Valid() && day == Some(newDay)
      ensures prices == if old(day) == Some(newDay) then old(prices) else if hasStore then Load(store, newDay) else map[]
    {
      if day == Some(newDay) {
        return;
      }
      day := Some(newDay);
      prices := if hasStore then Load(store, newDay) else map[];
    }

    /** A price from the stream wins over whatever is cached for that day. */
    method RecordDailyOpenUpdate(symbol: string, tradingDay: int, price: real)
      requires Valid()
      modifies this`day, this`prices, this`store
      ensures Valid() && day == Some(tradingDay)
      ensures prices == (if old(day) == Some(tradingDay) then old(prices) else if hasStore then Load(old(store), tradingDay) else map[])[symbol := price]
    {
      LoadDay(tradingDay);
      if symbol in prices && prices[symbol] == price {
        assert prices == prices[symbol := price];
        return;
      }
      if hasStore {
        SaveMirrors(store, tradingDay, prices, symbol, price);
      }
      prices := prices[symbol := price];
      if hasStore {
        store := Save(store, tradingDay, symbol, price);
      }
    }

    method FetchDailyOpenKlines(symbol: string, now: int) returns (opens: Option<seq<real>>, ghost attempt: Try)
      modifies client
      ensures attempt.symbol == symbol && attempt.opens == opens && Sound(attempt, now)
      ensures client.log == old(client.log) + attempt.sent
    {
      var midnight := DayOf(now) * DAY * 1000;
      opens := client.FetchKlines(symbol, midnight, midnight + 59_999);
      var first := KlineRead(symbol, midnight, midnight + 59_999, opens);
      attempt := Try(symbol, [first], opens);
      if opens.None? || opens.value != [] {
        return;
      }
      opens := client.FetchKlines(symbol, midnight, now * 1000);
      attempt := Try(symbol, [first, KlineRead(symbol, midnight, now * 1000, opens)], opens);
    }

    /** Prices one symbol by a read, if the read finds a kline. */
    method TrySymbol(symbol: string, now: int) returns (ok: bool, ghost attempt: Try)
      requires Valid() && day == Some(DayOf(now))
      modifies client, this`prices, this`store
      ensures Valid()
      ensures attempt.symbol == symbol && Sound(attempt, now) && ok == attempt.opens.Some?
      ensures client.log == old(client.log) + attempt.sent
      ensures prices == Priced(old(prices), [attempt])
    {
      var opens;
      opens, attempt := FetchDailyOpenKlines(symbol, now);
      assert [attempt][..0] == [];
      if opens.None? || opens.value == [] {
        return opens.Some?, attempt;
      }
      var price := opens.value[0];
      if hasStore {
        SaveMirrors(store, day.value, prices, symbol, price);
        store := Save(store, day.value, symbol, price);
      }
      prices := prices[symbol := price];
      ok := true;
    }

    /** Goes through the symbols in order until the ration of reads is used up. */
    method TryAll(ordered: seq<string>, ghost p: nat, now: int, priority: set<string>) returns (ok: bool, ghost tries: seq<Try>)
      requires Valid() && day == Some(DayOf(now))
      requires forall k :: 0 <= k < |ordered| ==> (ordered[k] in priority <==> k < p)
      modifies this`restCalls, this`prices, this`store, client
      ensures Valid() && restCalls == old(restCalls) + 2 * |tries|
      ensures client.log == old(client.log) + Sent(tries)
      ensures prices == Priced(old(prices), tries)
      ensures AllSound(tries, now) && ok == AllAnswered(tries)
      ensures Rationed(tries, old(prices), Elements(ordered), priority, now)
      ensures ok && restCalls + 2 <= limit ==> Pass(tries, old(prices), ordered, p, priority, now, |ordered|)
    {
      tries := [];
      for i := 0 to |ordered|
        invariant Valid() && day == Some(DayOf(now)) && restCalls == old(restCalls) + 2 * |tries|
        invariant client.log == old(client.log) + Sent(tries)
        invariant prices == Priced(old(prices), tries)
        invariant AllSound(tries, now) && AllAnswered(tries)
        invariant Rationed(tries, old(prices), Elements(ordered), priority, now)
        invariant Pass(tries, old(prices), ordered, p, priority, now, i)
      {
        var symbol := ordered[i];
        if symbol in prices || (now % DAY < 120 && symbol !in priority) {
          PassSkips(tries, old(prices), ordered, p, priority, now, i);
          continue;
        }
        if restCalls + 2 > limit {
          return true, tries;
        }
        restCalls := restCalls + 2;
        ghost var attempt;
        ok, attempt := TrySymbol(symbol, now);
        PassGrows(tries, old(prices), ordered, p, priority, now, i, attempt);
        TryAdds(old(prices), tries, attempt, now);
        Associative(old(client.log), Sent(tries), attempt.sent);
        tries := tries + [attempt];
        if !ok {
          return;
        }
      }
      ok := true;
    }

    /** Completes the day's prices as far as the minute's ration of reads goes; fails when a read fails. */
    method EnsureDailyOpenPrices(symbols: seq<string>, now: int, priority: set<string>) returns (ok: bool, ghost tries: seq<Try>)
      requires Valid()
      modifies this, client
      ensures Valid() && day == Some(DayOf(now)) && restMinute == Some(MinuteOf(now))
      ensures restCalls == (if old(restMinute) == Some(MinuteOf(now)) then old(restCalls) else 0) + 2 * |tries|
      ensures client.log == old(client.log) + Sent(tries)
      ensures var before := if old(day) == Some(DayOf(now)) then old(prices) else if hasStore then Load(old(store), DayOf(now)) else map[];
              && prices == Priced(before, tries)
              && Rationed(tries, before, Elements(symbols), priority, now)
              && (ok && restCalls + 2 <= limit ==> Complete(tries, before, Elements(symbols), priority, now))
      ensures AllSound(tries, now) && ok == AllAnswered(tries)
    {
      LoadDay(DayOf(now));
      if restMinute != Some(MinuteOf(now)) {
        restMinute, restCalls := Some(MinuteOf(now)), 0;
      }
      ghost var p := OrderedMembers(symbols, priority);
      ghost var before := prices;
      ok, tries := TryAll(Ordered(symbols, priority), p, now, priority);
      if ok && restCalls + 2 <= limit {
        PassCompletes(tries, before, symbols, p, priority, now);
      }
    }
  }
}
