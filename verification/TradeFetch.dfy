/** Reading all trades of a time range through a read that returns only so many: windows, then bisection.
    Times are microseconds since the epoch; the exchange works in milliseconds. */
module TradeFetch {
  import opened Common

  const MINUTE := 60_000_000
  const WEEK := 7 * 24 * 60 * MINUTE

  datatype Trade = Trade(symbol: Option<string>, id: Option<string>, time: Option<int>, detail: string)

  /** Python's `int` of a quotient: towards zero. */
  function Ms(t: int): int { if t >= 0 then t / 1000 else -(-t / 1000) }

  /** Half a duration, rounded to the even microsecond. */
  function Half(d: int): int { if d % 2 == 0 || d / 2 % 2 == 0 then d / 2 else d / 2 + 1 }

  /** Half of an even duration is exact; of an odd one it is the even one of the two nearest. */
  lemma {:induction false} HalfExactly(d: int, h: int)
    ensures h == Half(d) <==> if d % 2 == 0 then 2 * h == d else h % 2 == 0 && -1 <= 2 * h - d <= 1
  {
  }

  function Midpoint(start: int, end: int): int { start + Half(end - start) }

  lemma {:induction false} MidpointBetween(start: int, end: int)
    requires end - start > MINUTE
    ensures start < Midpoint(start, end) < end
  {
  }

  // ----- windows -----

  /** The windows lie end to end from `start` to `end`, none empty and none longer than `longest`. */
  predicate Tiles(windows: seq<(int, int)>, start: int, end: int, longest: int) {
    if windows == [] then start >= end
    else
      var (a, b) := windows[0];
      && a == start && a < b && b <= end && b - a <= longest
      && (b < end ==> b - a == longest)
      && Tiles(windows[1..], b, end, longest)
  }

  method WindowRanges(start: int, end: int, longest: int) returns (windows: seq<(int, int)>)
    requires longest > 0
    ensures Tiles(windows, start, end, longest)
  {
    windows := [];
    var windowStart := start;
    forall rest: seq<(int, int)> ensures windows + rest == rest {
    }
    while windowStart < end
      invariant windowStart <= end || windows == []
      invariant windows == [] ==> windowStart == start
      invariant forall rest :: Tiles(rest, windowStart, end, longest) ==> Tiles(windows + rest, start, end, longest)
      decreases end - windowStart
    {
      var windowEnd := Min(windowStart + longest, end);
      forall rest | Tiles(rest, windowEnd, end, longest) ensures Tiles(windows + [(windowStart, windowEnd)] + rest, start, end, longest) {
        assert ([(windowStart, windowEnd)] + rest)[1..] == rest;
        assert Tiles([(windowStart, windowEnd)] + rest, windowStart, end, longest);
        Associative(windows, [(windowStart, windowEnd)], rest);
      }
      windows := windows + [(windowStart, windowEnd)];
      windowStart := windowEnd;
    }
    assert windows + [] == windows;
    assert Tiles([], windowStart, end, longest);
  }

  /** The i-th window begins i full lengths after the start and is as long as fits. */
  lemma {:induction false} TileAt(windows: seq<(int, int)>, start: int, end: int, longest: int, i: nat)
    requires Tiles(windows, start, end, longest) && i < |windows|
    ensures windows[i] == (start + i * longest, Min(start + (i + 1) * longest, end)) && windows[i].0 < windows[i].1
  {
    if i > 0 {
      TileAt(windows[1..], windows[0].1, end, longest, i - 1);
      assert (i - 1) * longest + longest == i * longest;
      assert windows[1..][i - 1] == windows[i];
    }
  }

  /** Every instant of the range is in a window, and no window reaches outside the range. */
  lemma {:induction false} TilesCover(windows: seq<(int, int)>, start: int, end: int, longest: int, time: int)
    requires Tiles(windows, start, end, longest)
    ensures start <= time < end <==> exists w :: w in windows && w.0 <= time < w.1
  {
    if windows == [] {
    } else {
      var (a, b) := windows[0];
      TilesCover(windows[1..], b, end, longest, time);
      if a <= time < b {
        assert windows[0] in windows;
      }
      forall w | w in windows && w.0 <= time < w.1 ensures start <= time < end {
        if w != windows[0] {
          assert w in windows[1..];
        }
      }
    }
  }

  // ----- reading -----

  datatype Fetch = Fetch(symbol: string, startMs: int, endMs: int, limit: int, reply: Option<seq<Trade>>)

  class TradeClient {
    var log: seq<Fetch>

    method FetchUserTrades(symbol: string, startMs: int, endMs: int, limit: int) returns (reply: Option<seq<Trade>>)
      modifies this
      ensures log == old(log) + [Fetch(symbol, startMs, endMs, limit, reply)]
    {
      reply := *;
      log := log + [Fetch(symbol, startMs, endMs, limit, reply)];
    }
  }

  /** How a window was read: at once, or saturated and then in two halves; a read that failed ends it. */
  datatype Tree =
    | Leaf(start: int, end: int, reply: seq<Trade>)
    | Split(start: int, end: int, reply: seq<Trade>, left: Tree, right: Tree)

  /** A window is split exactly when its reply is full and it is longer than a minute. */
  predicate Bisection(t: Tree, limit: int) {
    match t
    case Leaf(start, end, reply) => |reply| < limit || end - start <= MINUTE
    case Split(start, end, reply, left, right) =>
      && |reply| >= limit && end - start > MINUTE
      && left.start == start && left.end == Midpoint(start, end) == right.start && right.end == end
      && Bisection(left, limit) && Bisection(right, limit)
  }

  function Fetches(t: Tree, symbol: string, limit: int): seq<Fetch> {
    [Fetch(symbol, Ms(t.start), Ms(t.end), limit, Some(t.reply))]
    + if t.Leaf? then [] else Fetches(t.left, symbol, limit) + Fetches(t.right, symbol, limit)
  }

  function Collected(t: Tree): seq<Trade> {
    if t.Leaf? then t.reply else Collected(t.left) + Collected(t.right)
  }

  method FetchAll(client: TradeClient, symbol: string, start: int, end: int, limit: int)
    returns (trades: Option<seq<Trade>>, ghost tree: Option<Tree>)
    modifies client
    ensures trades.Some? == tree.Some?
    ensures tree.Some? ==> tree.value.start == start && tree.value.end == end && Bisection(tree.value, limit)
    ensures tree.Some? ==> trades.value == Collected(tree.value)
    ensures tree.Some? ==> client.log == old(client.log) + Fetches(tree.value, symbol, limit)
    decreases if end > start then end - start else 0
  {
    var reply := client.FetchUserTrades(symbol, Ms(start), Ms(end), limit);
    if reply.None? {
      return None, None;
    }
    if |reply.value| < limit || end - start <= MINUTE {
      return reply, Some(Leaf(start, end, reply.value));
    }
    MidpointBetween(start, end);
    var midpoint := Midpoint(start, end);
    var first, left := FetchAll(client, symbol, start, midpoint, limit);
    if first.None? {
      return None, None;
    }
    var second, right := FetchAll(client, symbol, midpoint, end, limit);
    if second.None? {
      return None, None;
    }
    tree := Some(Split(start, end, reply.value, left.value, right.value));
    Associative(old(client.log), [Fetch(symbol, Ms(start), Ms(end), limit, reply)], Fetches(left.value, symbol, limit));
    Associative(old(client.log), [Fetch(symbol, Ms(start), Ms(end), limit, reply)] + Fetches(left.value, symbol, limit), Fetches(right.value, symbol, limit));
    Associative([Fetch(symbol, Ms(start), Ms(end), limit, reply)], Fetches(left.value, symbol, limit), Fetches(right.value, symbol, limit));
    trades := Some(first.value + second.value);
  }

  // ----- what is found -----

  predicate Within(trade: Trade, start: int, end: int) {
    trade.time.Some? && Ms(start) <= trade.time.value <= Ms(end)
  }

  /** An exchange that holds the trades of `book`: a reply has only trades of its window, and a reply that is not full has
      all of them. */
  predicate Truthful(f: Fetch, book: set<Trade>) {
    f.reply.Some? ==>
      && (forall t | t in f.reply.value :: t in book && t.time.Some? && f.startMs <= t.time.value <= f.endMs)
      && (|f.reply.value| < f.limit ==> forall t | t in book && t.time.Some? && f.startMs <= t.time.value <= f.endMs :: t in f.reply.value)
  }

  predicate AllTruthful(log: seq<Fetch>, book: set<Trade>) {
    forall i :: 0 <= i < |log| ==> Truthful(log[i], book)
  }

  /** Some window that could not be split any further was still full. */
  predicate Saturated(t: Tree, limit: int) {
    if t.Leaf? then |t.reply| >= limit else Saturated(t.left, limit) || Saturated(t.right, limit)
  }

  /** A saturated end of the bisection is at most a minute long. */
  lemma {:induction false} OnlyMinutesSaturate(t: Tree, limit: int) returns (leaf: Tree)
    requires Bisection(t, limit) && Saturated(t, limit)
    ensures leaf.Leaf? && leaf.end - leaf.start <= 60 * 1_000_000 && |leaf.reply| >= limit
  {
    if t.Leaf? {
      leaf := t;
    } else if Saturated(t.left, limit) {
      leaf := OnlyMinutesSaturate(t.left, limit);
    } else {
      leaf := OnlyMinutesSaturate(t.right, limit);
    }
  }

  /** The trade lies in the range, to the millisecond: one that begins after zero reaches back to the start of its millisecond,
      and one that ends before zero reaches on to the end of its last. */
  predicate InRange(trade: Trade, start: int, end: int) {
    && trade.time.Some?
    && (if start >= 0 then start - 1000 < 1000 * trade.time.value else start <= 1000 * trade.time.value)
    && (if end >= 0 then 1000 * trade.time.value <= end else 1000 * trade.time.value < end + 1000)
  }

  lemma {:induction false} WithinExactly(trade: Trade, start: int, end: int)
    ensures Within(trade, start, end) <==> InRange(trade, start, end)
    ensures trade.time.Some? && start <= 1000 * trade.time.value <= end ==> Within(trade, start, end)
  {
  }

  lemma {:induction false} MsMonotone(a: int, b: int)
    requires a <= b
    ensures Ms(a) <= Ms(b)
  {
  }

  /** The bisection finds only trades of the range, and all of them unless a minute is saturated: the halves share their
      midpoint, so nothing falls between them. */
  lemma {:induction false} FindsExactly(t: Tree, symbol: string, limit: int, book: set<Trade>)
    requires Bisection(t, limit) && AllTruthful(Fetches(t, symbol, limit), book) && t.start <= t.end
    ensures forall x | x in Collected(t) :: x in book && Within(x, t.start, t.end)
    ensures !Saturated(t, limit) ==> forall x | x in book && Within(x, t.start, t.end) :: x in Collected(t)
  {
    var log := Fetches(t, symbol, limit);
    assert Truthful(log[0], book);
    if t.Split? {
      MidpointBetween(t.start, t.end);
      MsMonotone(t.start, t.left.end);
      MsMonotone(t.right.start, t.end);
      SubTruthful(log[0], Fetches(t.left, symbol, limit), Fetches(t.right, symbol, limit), book);
      FindsExactly(t.left, symbol, limit, book);
      FindsExactly(t.right, symbol, limit, book);
      if !Saturated(t, limit) {
        forall x | x in book && Within(x, t.start, t.end) ensures x in Collected(t) {
          assert Within(x, t.left.start, t.left.end) || Within(x, t.right.start, t.right.end);
        }
      }
    }
  }

  lemma {:induction false} SubTruthful(first: Fetch, a: seq<Fetch>, b: seq<Fetch>, book: set<Trade>)
    requires AllTruthful([first] + (a + b), book)
    ensures AllTruthful(a, book) && AllTruthful(b, book)
  {
    var log := [first] + (a + b);
    forall i | 0 <= i < |a| ensures Truthful(a[i], book) {
      assert a[i] == log[1 + i];
    }
    forall i | 0 <= i < |b| ensures Truthful(b[i], book) {
      assert b[i] == log[1 + |a| + i];
    }
  }
}
