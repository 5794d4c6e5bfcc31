/** The trade backfill: every symbol, window by window; what one run brings in, and what a second run adds. */
module TradeBackfill {
  import opened Common
  import opened Ordering
  import opened TradeFetch
  import opened TradeStore

  const FETCH_LIMIT := 1000

  function AllCollected(trees: seq<Tree>): seq<Trade> {
    if trees == [] then [] else AllCollected(trees[..|trees| - 1]) + Collected(trees[|trees| - 1])
  }

  function AllFetches(trees: seq<Tree>, symbol: string): seq<Fetch> {
    if trees == [] then []
    else AllFetches(trees[..|trees| - 1], symbol) + Fetches(trees[|trees| - 1], symbol, FETCH_LIMIT)
  }

  /** One bisection for each window. */
  predicate Reads(trees: seq<Tree>, windows: seq<(int, int)>) {
    && |trees| == |windows|
    && forall j :: 0 <= j < |trees| ==> (trees[j].start, trees[j].end) == windows[j] && Bisection(trees[j], FETCH_LIMIT)
  }

  lemma {:induction false} PersistedConcat(fills: seq<Fill>, symbol: string, a: seq<Trade>, b: seq<Trade>)
    ensures Persisted(fills, symbol, a + b) == Persisted(Persisted(fills, symbol, a), symbol, b)
  {
    if b == [] {
      assert a + b == a;
    } else {
      var n := |b| - 1;
      assert (a + b)[..|a + b| - 1] == a + b[..n];
      PersistedConcat(fills, symbol, a, b[..n]);
    }
  }

  /** A symbol's part of a run, after its first `j` windows. */
  ghost predicate ReadSoFar(trees: seq<Tree>, windows: seq<(int, int)>, j: nat, symbol: string, before: (seq<Fetch>, seq<Fill>), after: (seq<Fetch>, seq<Fill>)) {
    && j <= |windows| && Reads(trees, windows[..j])
    && after == (before.0 + AllFetches(trees, symbol), Persisted(before.1, symbol, AllCollected(trees)))
  }

  lemma {:induction false} ReadOn(trees: seq<Tree>, windows: seq<(int, int)>, j: nat, symbol: string, before: (seq<Fetch>, seq<Fill>),
                                  after: (seq<Fetch>, seq<Fill>), tree: Tree)
    requires ReadSoFar(trees, windows, j, symbol, before, after) && j < |windows|
    requires (tree.start, tree.end) == windows[j] && Bisection(tree, FETCH_LIMIT)
    ensures ReadSoFar(trees + [tree], windows, j + 1, symbol, before,
                      (after.0 + Fetches(tree, symbol, FETCH_LIMIT), Persisted(after.1, symbol, Collected(tree))))
  {
    assert (trees + [tree])[..|trees|] == trees;
    PersistedConcat(before.1, symbol, AllCollected(trees), Collected(tree));
    Associative(before.0, AllFetches(trees, symbol), Fetches(tree, symbol, FETCH_LIMIT));
  }

  /** One symbol. Reading the order metadata fails on a rate limit, and then nothing more is done. */
  method BackfillSymbol(client: TradeClient, store: TradeFillStore, symbol: string, windows: seq<(int, int)>)
    returns (inserted: Option<int>, ghost trees: seq<Tree>)
    modifies client, store
    ensures inserted.Some? ==> Reads(trees, windows) && client.log == old(client.log) + AllFetches(trees, symbol)
    ensures store.fills == Persisted(old(store.fills), symbol, AllCollected(trees))
    ensures inserted.Some? ==> inserted.value == |store.fills| - |old(store.fills)|
  {
    var count := 0;
    trees := [];
    assert client.log + [] == client.log;
    for j := 0 to |windows|
      invariant ReadSoFar(trees, windows, j, symbol, old((client.log, store.fills)), (client.log, store.fills))
      invariant count == |store.fills| - |old(store.fills)|
    {
      ghost var seen := (client.log, store.fills);
      var rateLimited: bool := *;
      if rateLimited {
        return None, trees;
      }
      var trades, tree := FetchAll(client, symbol, windows[j].0, windows[j].1, FETCH_LIMIT);
      if trades.None? {
        return None, trees;
      }
      var windowInserted := store.PersistUserTrades(symbol, trades.value);
      count := count + windowInserted;
      ReadOn(trees, windows, j, symbol, old((client.log, store.fills)), seen, tree.value);
      trees := trees + [tree.value];
    }
    assert windows[..|windows|] == windows;
    inserted := Some(count);
  }

  // ----- all symbols -----

  /** What one symbol's part of a run offers to the store. */
  datatype Batch = Batch(symbol: string, trees: seq<Tree>)

  function Stored(fills: seq<Fill>, batches: seq<Batch>): seq<Fill> {
    if batches == [] then fills
    else Persisted(Stored(fills, batches[..|batches| - 1]), batches[|batches| - 1].symbol, AllCollected(batches[|batches| - 1].trees))
  }

  function Log(batches: seq<Batch>): seq<Fetch> {
    if batches == [] then [] else Log(batches[..|batches| - 1]) + AllFetches(batches[|batches| - 1].trees, batches[|batches| - 1].symbol)
  }

  /** A run over these symbols and windows. */
  predicate Covers(batches: seq<Batch>, symbols: seq<string>, windows: seq<(int, int)>) {
    |batches| == |symbols|
    && (batches != [] ==>
      var n := |batches| - 1;
      batches[n].symbol == symbols[n] && Reads(batches[n].trees, windows) && Covers(batches[..n], symbols[..n], windows))
  }

  lemma {:induction false} CoversAt(batches: seq<Batch>, symbols: seq<string>, windows: seq<(int, int)>, i: nat)
    requires Covers(batches, symbols, windows) && i < |symbols|
    ensures batches[i].symbol == symbols[i] && Reads(batches[i].trees, windows)
  {
    var n := |batches| - 1;
    if i < n {
      CoversAt(batches[..n], symbols[..n], windows, i);
    }
  }

  /** A run, after its first `i` symbols. */
  ghost predicate RunSoFar(batches: seq<Batch>, symbols: seq<string>, i: nat, windows: seq<(int, int)>, before: (seq<Fetch>, seq<Fill>), after: (seq<Fetch>, seq<Fill>)) {
    && i <= |symbols| && Covers(batches, symbols[..i], windows)
    && after == (before.0 + Log(batches), Stored(before.1, batches))
  }

  lemma {:induction false} RunOn(batches: seq<Batch>, symbols: seq<string>, i: nat, windows: seq<(int, int)>, before: (seq<Fetch>, seq<Fill>),
                                 after: (seq<Fetch>, seq<Fill>), trees: seq<Tree>)
    requires RunSoFar(batches, symbols, i, windows, before, after) && i < |symbols| && Reads(trees, windows)
    ensures RunSoFar(batches + [Batch(symbols[i], trees)], symbols, i + 1, windows, before,
                     (after.0 + AllFetches(trees, symbols[i]), Persisted(after.1, symbols[i], AllCollected(trees))))
  {
    StoredOn(before.1, batches, Batch(symbols[i], trees));
    assert symbols[..i + 1][..i] == symbols[..i];
    Associative(before.0, Log(batches), AllFetches(trees, symbols[i]));
  }

  lemma {:induction false} StoredOn(fills: seq<Fill>, batches: seq<Batch>, batch: Batch)
    ensures (batches + [batch])[..|batches|] == batches
    ensures Stored(fills, batches + [batch]) == Persisted(Stored(fills, batches), batch.symbol, AllCollected(batch.trees))
  {
    assert (batches + [batch])[..|batches|] == batches;
  }

  function NormalizedSymbols(symbols: seq<string>): seq<string> {
    SortedUnique(Map(Filter(symbols, (s: string) => s != ""), Upper))
  }

  /** The symbols of a run: those that were asked for in upper case, each once and in order, without the empty one. */
  lemma {:induction false} NormalizedExactly(symbols: seq<string>, symbol: string)
    ensures Increasing(NormalizedSymbols(symbols))
    ensures symbol in NormalizedSymbols(symbols) <==> exists asked :: asked in symbols && asked != "" && Upper(asked) == symbol
  {
    var named := Filter(symbols, (s: string) => s != "");
    FilterMembers(symbols, (s: string) => s != "");
    SortedUniqueSorts(Map(named, Upper));
    if asked :| asked in symbols && asked != "" && Upper(asked) == symbol {
      var i :| 0 <= i < |named| && named[i] == asked;
      assert Map(named, Upper)[i] == symbol;
    }
    if symbol in Map(named, Upper) {
      var i :| 0 <= i < |named| && Map(named, Upper)[i] == symbol;
      assert named[i] in named;
    }
  }

  /** The whole run; without symbols of its own it takes those that the store already knows for the range. */
  method Backfill(client: TradeClient, store: TradeFillStore, requested: seq<string>, inferred: seq<string>, start: int, end: int)
    returns (inserted: Option<int>, ghost batches: seq<Batch>, ghost windows: seq<(int, int)>)
    modifies client, store
    ensures Tiles(windows, start, end, 7 * 24 * 60 * 60 * 1_000_000)
    ensures var symbols := if NormalizedSymbols(requested) == [] then inferred else NormalizedSymbols(requested);
            inserted.Some? ==> Covers(batches, symbols, windows)
    ensures inserted.Some? ==> client.log == old(client.log) + Log(batches)
    ensures store.fills == Stored(old(store.fills), batches)
    ensures inserted.Some? ==> inserted.value == |store.fills| - |old(store.fills)|
  {
    var symbols := NormalizedSymbols(requested);
    if symbols == [] {
      symbols := inferred;
    }
    var ranges := WindowRanges(start, end, WEEK);
    windows := ranges;
    var count := 0;
    batches := [];
    assert client.log + [] == client.log;
    for i := 0 to |symbols|
      invariant RunSoFar(batches, symbols, i, windows, old((client.log, store.fills)), (client.log, store.fills))
      invariant count == |store.fills| - |old(store.fills)|
    {
      ghost var seen := (client.log, store.fills);
      var one, trees := BackfillSymbol(client, store, symbols[i], ranges);
      StoredOn(old(store.fills), batches, Batch(symbols[i], trees));
      if one.None? {
        return None, batches + [Batch(symbols[i], trees)], windows;
      }
      RunOn(batches, symbols, i, windows, old((client.log, store.fills)), seen, trees);
      batches := batches + [Batch(symbols[i], trees)];
      count := count + one.value;
    }
    assert symbols[..|symbols|] == symbols;
    inserted := Some(count);
  }

  // ----- exactly once -----

  predicate OfferedBy(batches: seq<Batch>, key: string, id: string) {
    batches != [] &&
    var n := |batches| - 1;
    Offered(AllCollected(batches[n].trees), batches[n].symbol, key, id) || OfferedBy(batches[..n], key, id)
  }

  lemma {:induction false} OfferedByOne(batches: seq<Batch>, i: nat, key: string, id: string)
    requires i < |batches| && Offered(AllCollected(batches[i].trees), batches[i].symbol, key, id)
    ensures OfferedBy(batches, key, id)
  {
    var n := |batches| - 1;
    if i < n {
      OfferedByOne(batches[..n], i, key, id);
    }
  }

  lemma {:induction false} RunStoresOnce(fills: seq<Fill>, batches: seq<Batch>, key: string, id: string)
    requires id != ""
    ensures Copies(Stored(fills, batches), key, id)
         == if Copies(fills, key, id) == 0 && OfferedBy(batches, key, id) then 1 else Copies(fills, key, id)
  {
    if batches == [] {
    } else {
      var n := |batches| - 1;
      RunStoresOnce(fills, batches[..n], key, id);
      StoredOnce(Stored(fills, batches[..n]), batches[n].symbol, AllCollected(batches[n].trees), key, id);
    }
  }

  lemma {:induction false} MemberIsOffered(trades: seq<Trade>, symbol: string, t: Trade)
    requires t in trades && t.time.Some? && NonEmpty(t.id).Some?
    ensures Offered(trades, symbol, SymbolOf(t, symbol), NonEmpty(t.id).value)
  {
    var n := |trades| - 1;
    if t != trades[n] {
      assert t in trades[..n];
      MemberIsOffered(trades[..n], symbol, t);
    }
  }

  lemma {:induction false} InCollected(trees: seq<Tree>, j: nat, t: Trade)
    requires j < |trees| && t in Collected(trees[j])
    ensures t in AllCollected(trees)
  {
    var n := |trees| - 1;
    if j < n {
      InCollected(trees[..n], j, t);
    }
  }

  lemma {:induction false} TilesReachTime(windows: seq<(int, int)>, start: int, end: int, longest: int, time: int) returns (j: nat)
    requires Tiles(windows, start, end, longest) && start < end && Ms(start) <= time <= Ms(end)
    ensures j < |windows| && Ms(windows[j].0) <= time <= Ms(windows[j].1)
  {
    var (a, b) := windows[0];
    if time <= Ms(b) {
      j := 0;
    } else {
      var k := TilesReachTime(windows[1..], b, end, longest, time);
      j := k + 1;
    }
  }

  lemma {:induction false} TilesInside(windows: seq<(int, int)>, start: int, end: int, longest: int, j: nat)
    requires Tiles(windows, start, end, longest) && j < |windows|
    ensures start <= windows[j].0 <= windows[j].1 <= end
  {
    if j > 0 {
      TilesInside(windows[1..], windows[0].1, end, longest, j - 1);
    }
  }

  lemma {:induction false} TreesTruthful(trees: seq<Tree>, symbol: string, book: set<Trade>, j: nat)
    requires AllTruthful(AllFetches(trees, symbol), book) && j < |trees|
    ensures AllTruthful(Fetches(trees[j], symbol, FETCH_LIMIT), book)
  {
    var n := |trees| - 1;
    var a, b := AllFetches(trees[..n], symbol), Fetches(trees[n], symbol, FETCH_LIMIT);
    forall i | 0 <= i < |a| ensures Truthful(a[i], book) {
      assert a[i] == AllFetches(trees, symbol)[i];
    }
    forall i | 0 <= i < |b| ensures Truthful(b[i], book) {
      assert b[i] == AllFetches(trees, symbol)[|a| + i];
    }
    if j < n {
      TreesTruthful(trees[..n], symbol, book, j);
    }
  }

  /** Nothing is missed: a symbol's part of a run collects every trade of the range, unless some minute was saturated. */
  lemma {:induction false} CollectsTheRange(trees: seq<Tree>, symbol: string, windows: seq<(int, int)>, start: int, end: int, book: set<Trade>, t: Trade)
    requires Tiles(windows, start, end, WEEK) && start < end && Reads(trees, windows)
    requires AllTruthful(AllFetches(trees, symbol), book)
    requires forall j :: 0 <= j < |trees| ==> !Saturated(trees[j], 1000)
    requires t in book && InRange(t, start, end)
    ensures t in AllCollected(trees)
  {
    WithinExactly(t, start, end);
    var j := TilesReachTime(windows, start, end, WEEK, t.time.value);
    TilesInside(windows, start, end, WEEK, j);
    TreesTruthful(trees, symbol, book, j);
    assert (trees[j].start, trees[j].end) == windows[j];
    FindsExactly(trees[j], symbol, FETCH_LIMIT, book);
    InCollected(trees, j, t);
  }

  lemma {:induction false} CollectsOnlyTheRange(trees: seq<Tree>, n: nat, symbol: string, windows: seq<(int, int)>, start: int, end: int, book: set<Trade>, t: Trade)
    requires Tiles(windows, start, end, WEEK) && Reads(trees, windows) && n <= |trees|
    requires AllTruthful(AllFetches(trees, symbol), book) && t in AllCollected(trees[..n])
    ensures t in book && Within(t, start, end)
  {
    var j := n - 1;
    assert trees[..n][..j] == trees[..j];
    if t in Collected(trees[j]) {
      TilesInside(windows, start, end, WEEK, j);
      TreesTruthful(trees, symbol, book, j);
      assert (trees[j].start, trees[j].end) == windows[j];
      FindsExactly(trees[j], symbol, FETCH_LIMIT, book);
      MsMonotone(start, trees[j].start);
      MsMonotone(trees[j].end, end);
    } else {
      CollectsOnlyTheRange(trees, j, symbol, windows, start, end, book, t);
    }
  }

  /** Each symbol's reads are answered from its own book. */
  predicate Faithful(batches: seq<Batch>, books: map<string, set<Trade>>) {
    forall i :: 0 <= i < |batches| ==>
      batches[i].symbol in books && AllTruthful(AllFetches(batches[i].trees, batches[i].symbol), books[batches[i].symbol])
  }

  predicate Unsaturated(batches: seq<Batch>) {
    forall i, j :: 0 <= i < |batches| && 0 <= j < |batches[i].trees| ==> !Saturated(batches[i].trees[j], 1000)
  }

  /** The promise of a backfill: every trade of the range that has an id is stored exactly once, under its symbol, or stays as
      it was when it was stored before. */
  lemma {:induction false} EveryTradeStoredOnce(fills: seq<Fill>, batches: seq<Batch>, symbols: seq<string>, windows: seq<(int, int)>, start: int, end: int,
                             books: map<string, set<Trade>>, i: nat, t: Trade, id: string)
    requires Tiles(windows, start, end, WEEK) && start < end && Covers(batches, symbols, windows)
    requires Faithful(batches, books) && Unsaturated(batches)
    requires i < |symbols| && symbols[i] in books && t in books[symbols[i]] && InRange(t, start, end) && t.id == Some(id) && id != ""
    ensures var key := KeyFor(t, symbols[i]);
            Copies(Stored(fills, batches), key, id) == if Copies(fills, key, id) == 0 then 1 else Copies(fills, key, id)
  {
    var symbol := symbols[i];
    CoversAt(batches, symbols, windows, i);
    CollectsTheRange(batches[i].trees, symbol, windows, start, end, books[symbol], t);
    MemberIsOffered(AllCollected(batches[i].trees), symbol, t);
    OfferedByOne(batches, i, SymbolOf(t, symbol), id);
    RunStoresOnce(fills, batches, SymbolOf(t, symbol), id);
  }

  function AnonymousIn(batches: seq<Batch>): nat {
    if batches == [] then 0 else AnonymousIn(batches[..|batches| - 1]) + Anonymous(AllCollected(batches[|batches| - 1].trees))
  }

  lemma {:induction false} KnownStays(fills: seq<Fill>, more: seq<Fill>, symbol: string, trades: seq<Trade>)
    requires AllKnown(fills, symbol, trades) && fills <= more
    ensures AllKnown(more, symbol, trades)
  {
    if trades == [] {
    } else {
      var last := trades[|trades| - 1];
      KnownStays(fills, more, symbol, trades[..|trades| - 1]);
      if last.time.Some? && NonEmpty(last.id).Some? {
        var i :| 0 <= i < |fills| && fills[i].symbol == SymbolOf(last, symbol) && fills[i].tradeId == NonEmpty(last.id);
        assert more[i] == fills[i];
      }
    }
  }

  lemma {:induction false} KnownRunInserts(fills: seq<Fill>, again: seq<Batch>)
    requires forall i :: 0 <= i < |again| ==> AllKnown(fills, again[i].symbol, AllCollected(again[i].trees))
    ensures fills <= Stored(fills, again) && |Stored(fills, again)| == |fills| + AnonymousIn(again)
  {
    if again == [] {
    } else {
      var n := |again| - 1;
      forall i | 0 <= i < n ensures AllKnown(fills, again[..n][i].symbol, AllCollected(again[..n][i].trees)) {
        assert again[..n][i] == again[i];
      }
      KnownRunInserts(fills, again[..n]);
      var before := Stored(fills, again[..n]);
      KnownStays(fills, before, again[n].symbol, AllCollected(again[n].trees));
      KnownInsertNothing(before, again[n].symbol, AllCollected(again[n].trees));
      PersistedKeeps(before, again[n].symbol, AllCollected(again[n].trees));
    }
  }

  lemma {:induction false} StoredKnows(fills: seq<Fill>, batches: seq<Batch>, symbol: string, trades: seq<Trade>)
    requires forall t | t in trades && t.time.Some? && NonEmpty(t.id).Some? :: OfferedBy(batches, SymbolOf(t, symbol), NonEmpty(t.id).value)
    ensures AllKnown(Stored(fills, batches), symbol, trades)
  {
    if trades == [] {
    } else {
      var last := trades[|trades| - 1];
      assert last in trades;
      StoredKnows(fills, batches, symbol, trades[..|trades| - 1]);
      if last.time.Some? && NonEmpty(last.id).Some? {
        var key, id := SymbolOf(last, symbol), NonEmpty(last.id).value;
        RunStoresOnce(fills, batches, key, id);
        CopiesExist(Stored(fills, batches), key, id);
      }
    }
  }

  /** A second run over the same range inserts exactly the trades without an id, however its windows were split; so it
      inserts nothing when all trades have ids. */
  lemma {:induction false} SecondRunInsertsOnlyAnonymous(fills: seq<Fill>, first: seq<Batch>, again: seq<Batch>, symbols: seq<string>, windows: seq<(int, int)>,
                                      start: int, end: int, books: map<string, set<Trade>>)
    requires Tiles(windows, start, end, WEEK) && start < end && Covers(first, symbols, windows) && Covers(again, symbols, windows)
    requires Faithful(first, books) && Faithful(again, books) && Unsaturated(first)
    ensures |Stored(Stored(fills, first), again)| == |Stored(fills, first)| + AnonymousIn(again)
  {
    var after := Stored(fills, first);
    forall i | 0 <= i < |again| ensures AllKnown(after, again[i].symbol, AllCollected(again[i].trees)) {
      var symbol, trades := symbols[i], AllCollected(again[i].trees);
      CoversAt(first, symbols, windows, i);
      CoversAt(again, symbols, windows, i);
      forall t | t in trades && t.time.Some? && NonEmpty(t.id).Some? ensures OfferedBy(first, SymbolOf(t, symbol), NonEmpty(t.id).value) {
        assert again[i].trees[..|again[i].trees|] == again[i].trees;
        CollectsOnlyTheRange(again[i].trees, |again[i].trees|, symbol, windows, start, end, books[symbol], t);
        WithinExactly(t, start, end);
        CollectsTheRange(first[i].trees, symbol, windows, start, end, books[symbol], t);
        MemberIsOffered(AllCollected(first[i].trees), symbol, t);
        OfferedByOne(first, i, SymbolOf(t, symbol), NonEmpty(t.id).value);
      }
      StoredKnows(fills, first, symbol, trades);
    }
    KnownRunInserts(after, again);
  }
}
