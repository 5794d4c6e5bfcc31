/** The hard limit of kline reads per minute, over every run of calls. */
module DailyOpenRuns {
  import opened Common
  import opened DailyOpens

  /** Two units a try cover its one or two reads. */
  lemma {:induction false} ReservedCoversSent(tries: seq<Try>, now: int)
    requires AllSound(tries, now)
    ensures |tries| <= |Sent(tries)| <= 2 * |tries|
  {
    if tries == [] {
    } else {
      ReservedCoversSent(tries[..|tries| - 1], now);
    }
  }

  /** One call: its minute, the tries it reserved two units for, and the reads it made. */
  datatype Call = Call(minute: int, tries: nat, sent: nat)

  /** The ration counter after a run of calls, as each call leaves it. */
  function CounterAfter(calls: seq<Call>): (Option<int>, int) {
    if calls == [] then (None, 0)
    else
      var (before, last) := (CounterAfter(calls[..|calls| - 1]), calls[|calls| - 1]);
      (Some(last.minute), (if before.0 == Some(last.minute) then before.1 else 0) + 2 * last.tries)
  }

  /** A run as the cache produces it: the counter never passes the limit, and the tries cover the reads. */
  predicate Rations(calls: seq<Call>, limit: int) {
    CounterAfter(calls).1 <= limit
    && (calls != [] ==> Rations(calls[..|calls| - 1], limit) && calls[|calls| - 1].sent <= 2 * calls[|calls| - 1].tries)
  }

  function Minutes(calls: seq<Call>): (r: seq<int>)
    ensures |r| == |calls| && forall i :: 0 <= i < |r| ==> r[i] == calls[i].minute
  {
    seq(|calls|, i requires 0 <= i < |calls| => calls[i].minute)
  }

  /** No minute comes back after another one: the clock may even go back, as long as it does not return. */
  predicate NoReturn(minutes: seq<int>) {
    forall i, j, k :: 0 <= i < j < k < |minutes| && minutes[i] == minutes[k] ==> minutes[j] == minutes[i]
  }

  lemma {:induction false} ClockMovingOnNeverReturns(minutes: seq<int>)
    requires forall i, j :: 0 <= i < j < |minutes| ==> minutes[i] <= minutes[j]
    ensures NoReturn(minutes)
  {
  }

  function SentIn(calls: seq<Call>, minute: int): int {
    if calls == [] then 0
    else SentIn(calls[..|calls| - 1], minute) + if calls[|calls| - 1].minute == minute then calls[|calls| - 1].sent else 0
  }

  lemma {:induction false} CounterCoversMinute(calls: seq<Call>, limit: int)
    requires Rations(calls, limit) && NoReturn(Minutes(calls)) && calls != []
    ensures SentIn(calls, calls[|calls| - 1].minute) <= CounterAfter(calls).1
  {
    var n := |calls| - 1;
    if n > 0 {
      InitNoReturn(calls);
      assert calls[..n][n - 1] == calls[n - 1];
      if calls[n - 1].minute == calls[n].minute {
        CounterCoversMinute(calls[..n], limit);
      } else {
        forall i | 0 <= i < n ensures calls[i].minute != calls[n].minute {
          assert i < n - 1 ==> Minutes(calls)[i] != Minutes(calls)[n];
        }
        NothingYet(calls[..n], calls[n].minute);
      }
    }
  }

  lemma {:induction false} InitNoReturn(calls: seq<Call>)
    requires NoReturn(Minutes(calls)) && calls != []
    ensures NoReturn(Minutes(calls[..|calls| - 1]))
  {
    assert Minutes(calls[..|calls| - 1]) == Minutes(calls)[..|calls| - 1];
  }

  lemma {:induction false} NothingYet(calls: seq<Call>, minute: int)
    requires forall i :: 0 <= i < |calls| ==> calls[i].minute != minute
    ensures SentIn(calls, minute) == 0
  {
    if calls == [] {
    } else {
      NothingYet(calls[..|calls| - 1], minute);
    }
  }

  /** While no minute comes back after another one, no minute ever sees more kline reads than the limit. */
  lemma {:induction false} LimitHoldsEveryMinute(calls: seq<Call>, limit: nat, minute: int)
    requires Rations(calls, limit) && NoReturn(Minutes(calls))
    ensures SentIn(calls, minute) <= limit
  {
    if calls == [] {
    } else {
      if calls[|calls| - 1].minute == minute {
        CounterCoversMinute(calls, limit);
      } else {
        InitNoReturn(calls);
        LimitHoldsEveryMinute(calls[..|calls| - 1], limit, minute);
      }
    }
  }

  // ----- and only then -----

  lemma {:induction false} AppendCall(calls: seq<Call>, c: Call, limit: int, counter: (Option<int>, int))
    requires Rations(calls, limit) && c.sent <= 2 * c.tries
    requires counter == (Some(c.minute), (if CounterAfter(calls).0 == Some(c.minute) then CounterAfter(calls).1 else 0) + 2 * c.tries)
    requires counter.1 <= limit
    ensures CounterAfter(calls + [c]) == counter && Rations(calls + [c], limit)
  {
    assert (calls + [c])[..|calls|] == calls;
  }

  /** A run over these minutes that tries as often as the limit allows in two of its calls, and nothing in the others. */
  function TwoBursts(minutes: seq<int>, i: int, k: int, tries: nat): (calls: seq<Call>)
    ensures |calls| == |minutes|
  {
    if minutes == [] then []
    else
      var n := |minutes| - 1;
      TwoBursts(minutes[..n], i, k, tries) + [Burst(minutes, n, i, k, tries)]
  }

  function Burst(minutes: seq<int>, n: nat, i: int, k: int, tries: nat): Call
    requires n < |minutes|
  {
    if n == i || n == k then Call(minutes[n], tries, 2 * tries) else Call(minutes[n], 0, 0)
  }

  lemma {:induction false} BurstMinutes(minutes: seq<int>, i: int, k: int, tries: nat, n: nat)
    requires n < |minutes|
    ensures TwoBursts(minutes, i, k, tries)[n].minute == minutes[n]
  {
    if n < |minutes| - 1 {
      BurstMinutes(minutes[..|minutes| - 1], i, k, tries, n);
    }
  }

  /** What the last call of such a run makes of the counter. */
  lemma {:induction false} BurstCounts(minutes: seq<int>, i: nat, k: nat, tries: nat, before: (Option<int>, int)) returns (after: (Option<int>, int))
    requires minutes != [] && i < k && (k == |minutes| - 1 ==> minutes[k - 1] != minutes[k])
    requires before.1 <= if |minutes| - 1 <= i then 0 else 2 * tries
    requires |minutes| > 1 ==> before.0 == Some(minutes[|minutes| - 2])
    ensures var c := Burst(minutes, |minutes| - 1, i, k, tries);
            && c.minute == minutes[|minutes| - 1] && c.sent == 2 * c.tries
            && after == (Some(c.minute), (if before.0 == Some(c.minute) then before.1 else 0) + 2 * c.tries)
    ensures after.1 <= if |minutes| <= i then 0 else 2 * tries
  {
    var c := Burst(minutes, |minutes| - 1, i, k, tries);
    after := (Some(c.minute), (if before.0 == Some(c.minute) then before.1 else 0) + 2 * c.tries);
  }

  lemma {:induction false} BurstsAreRationed(minutes: seq<int>, i: nat, k: nat, tries: nat, limit: nat)
    requires i < k && 2 * tries <= limit
    requires k < |minutes| ==> minutes[k - 1] != minutes[k]
    ensures Rations(TwoBursts(minutes, i, k, tries), limit)
    ensures CounterAfter(TwoBursts(minutes, i, k, tries)).1 <= (if |minutes| <= i then 0 else 2 * tries)
    ensures minutes != [] ==> CounterAfter(TwoBursts(minutes, i, k, tries)).0 == Some(minutes[|minutes| - 1])
  {
    if minutes == [] {
    } else {
      var n := |minutes| - 1;
      BurstsAreRationed(minutes[..n], i, k, tries, limit);
      var (before, c) := (TwoBursts(minutes[..n], i, k, tries), Burst(minutes, n, i, k, tries));
      var counter := BurstCounts(minutes, i, k, tries, CounterAfter(before));
      AppendCall(before, c, limit, counter);
    }
  }

  lemma {:induction false} SentAppend(calls: seq<Call>, c: Call, minute: int)
    ensures SentIn(calls + [c], minute) == SentIn(calls, minute) + if c.minute == minute then c.sent else 0
  {
    assert (calls + [c])[..|calls|] == calls;
  }

  lemma {:induction false} BurstsAddUp(minutes: seq<int>, i: nat, k: nat, tries: nat, minute: int)
    requires i < k && (i < |minutes| ==> minutes[i] == minute) && (k < |minutes| ==> minutes[k] == minute)
    ensures SentIn(TwoBursts(minutes, i, k, tries), minute) == (if |minutes| <= i then 0 else if |minutes| <= k then 2 * tries else 4 * tries)
  {
    if minutes == [] {
    } else {
      var n := |minutes| - 1;
      BurstsAddUp(minutes[..n], i, k, tries, minute);
      SentAppend(TwoBursts(minutes[..n], i, k, tries), Burst(minutes, n, i, k, tries), minute);
    }
  }

  /** The first time a minute comes back. */
  lemma {:induction false} FirstReturn(minutes: seq<int>, i: nat, j: nat, k: nat) returns (back: nat)
    requires i < j < k < |minutes| && minutes[i] == minutes[k] != minutes[j]
    ensures j < back <= k && minutes[back] == minutes[i] && minutes[back - 1] != minutes[back]
    decreases k
  {
    if minutes[k - 1] != minutes[k] {
      back := k;
    } else {
      back := FirstReturn(minutes, i, j, k - 1);
    }
  }

  lemma {:induction false} MostTries(limit: nat) returns (tries: nat)
    requires limit >= 2
    ensures 2 * tries <= limit < 4 * tries
  {
    tries := limit / 2;
  }

  lemma {:induction false} BurstsBreakTheLimit(minutes: seq<int>, limit: nat, i: nat, back: nat) returns (calls: seq<Call>)
    requires limit >= 2 && i < back < |minutes| && minutes[i] == minutes[back] != minutes[back - 1]
    ensures Minutes(calls) == minutes && Rations(calls, limit) && SentIn(calls, minutes[i]) > limit
  {
    var tries := MostTries(limit);
    calls := TwoBursts(minutes, i, back, tries);
    BurstsAreRationed(minutes, i, back, tries, limit);
    BurstsAddUp(minutes, i, back, tries, minutes[i]);
    forall n | 0 <= n < |minutes| ensures Minutes(calls)[n] == minutes[n] {
      BurstMinutes(minutes, i, back, tries, n);
    }
  }

  /** A minute that comes back breaks the limit: the counter has forgotten it. */
  lemma {:induction false} ReturningBreaksTheLimit(minutes: seq<int>, limit: nat) returns (calls: seq<Call>, minute: int)
    requires limit >= 2 && !NoReturn(minutes)
    ensures Minutes(calls) == minutes && Rations(calls, limit) && SentIn(calls, minute) > limit
  {
    var i, j, k :| 0 <= i < j < k < |minutes| && minutes[i] == minutes[k] && minutes[j] != minutes[i];
    var back := FirstReturn(minutes, i, j, k);
    minute := minutes[i];
    calls := BurstsBreakTheLimit(minutes, limit, i, back);
  }

  ghost predicate LimitHolds(minutes: seq<int>, limit: nat) {
    forall calls, minute :: Minutes(calls) == minutes && Rations(calls, limit) ==> SentIn(calls, minute) <= limit
  }

  /** The exact condition on the clock, for every limit that lets a symbol be tried at all. */
  lemma {:induction false} LimitNeedsNoReturn(minutes: seq<int>, limit: nat)
    requires limit >= 2
    ensures LimitHolds(minutes, limit) <==> NoReturn(minutes)
  {
    if NoReturn(minutes) {
      forall calls, minute | Minutes(calls) == minutes && Rations(calls, limit) ensures SentIn(calls, minute) <= limit {
        LimitHoldsEveryMinute(calls, limit, minute);
      }
    } else {
      var calls, minute := ReturningBreaksTheLimit(minutes, limit);
      assert Minutes(calls) == minutes;
    }
  }

  // ----- the cache's own runs -----

  datatype Request = Request(symbols: seq<string>, now: int, priority: set<string>)

  /** The reads of a run, call by call. */
  function Reads(slices: seq<seq<KlineRead>>): seq<KlineRead> {
    if slices == [] then [] else Reads(slices[..|slices| - 1]) + slices[|slices| - 1]
  }

  /** Each call answers its request, and its reads are its own slice of what was sent. */
  predicate Accounts(calls: seq<Call>, slices: seq<seq<KlineRead>>, requests: seq<Request>) {
    && |calls| == |slices| <= |requests|
    && forall i :: 0 <= i < |calls| ==> calls[i].minute == MinuteOf(requests[i].now) && calls[i].sent == |slices[i]|
  }

  lemma {:induction false} AppendReads(slices: seq<seq<KlineRead>>, sent: seq<KlineRead>)
    ensures Reads(slices + [sent]) == Reads(slices) + sent
  {
    assert (slices + [sent])[..|slices|] == slices;
  }

  lemma {:induction false} AccountsGrow(calls: seq<Call>, slices: seq<seq<KlineRead>>, requests: seq<Request>, c: Call, sent: seq<KlineRead>)
    requires Accounts(calls, slices, requests) && |calls| < |requests|
    requires c.minute == MinuteOf(requests[|calls|].now) && c.sent == |sent|
    ensures Accounts(calls + [c], slices + [sent], requests)
  {
  }

  /** One request after a run: the call that it adds. */
  method EnsureOnce(cache: DailyOpenCache, request: Request, ghost calls: seq<Call>) returns (ghost c: Call, ghost sent: seq<KlineRead>)
    requires cache.Valid() && Rations(calls, cache.limit) && CounterAfter(calls) == (cache.restMinute, cache.restCalls)
    modifies cache, cache.client
    ensures cache.Valid() && cache.client.log == old(cache.client.log) + sent
    ensures c.minute == MinuteOf(request.now) && c.sent == |sent|
    ensures Rations(calls + [c], cache.limit) && CounterAfter(calls + [c]) == (cache.restMinute, cache.restCalls)
  {
    var ok;
    ghost var tries;
    ok, tries := cache.EnsureDailyOpenPrices(request.symbols, request.now, request.priority);
    ReservedCoversSent(tries, request.now);
    sent := Sent(tries);
    c := Call(MinuteOf(request.now), |tries|, |sent|);
    AppendCall(calls, c, cache.limit, (cache.restMinute, cache.restCalls));
  }

  /** Whatever is asked of a new cache, at whatever times, its calls form a rationed run, and the log is their reads, call by
      call. */
  method EnsureAll(cache: DailyOpenCache, requests: seq<Request>) returns (ghost calls: seq<Call>, ghost slices: seq<seq<KlineRead>>)
    requires cache.Valid() && cache.restMinute == None && cache.restCalls == 0
    modifies cache, cache.client
    ensures cache.Valid() && Rations(calls, cache.limit) && |calls| == |requests|
    ensures Accounts(calls, slices, requests)
    ensures cache.client.log == old(cache.client.log) + Reads(slices)
  {
    calls, slices := [], [];
    assert cache.client.log + [] == cache.client.log;
    for i := 0 to |requests|
      invariant cache.Valid() && Rations(calls, cache.limit) && |calls| == i
      invariant CounterAfter(calls) == (cache.restMinute, cache.restCalls)
      invariant Accounts(calls, slices, requests)
      invariant cache.client.log == old(cache.client.log) + Reads(slices)
    {
      ghost var c, sent := EnsureOnce(cache, requests[i], calls);
      AccountsGrow(calls, slices, requests, c, sent);
      AppendReads(slices, sent);
      Associative(old(cache.client.log), Reads(slices), sent);
      calls, slices := calls + [c], slices + [sent];
    }
  }

  /** The reads that went out in a minute. */
  function ReadsIn(slices: seq<seq<KlineRead>>, requests: seq<Request>, minute: int): nat
    requires |slices| <= |requests|
  {
    if slices == [] then 0
    else
      var n := |slices| - 1;
      ReadsIn(slices[..n], requests, minute) + if MinuteOf(requests[n].now) == minute then |slices[n]| else 0
  }

  lemma {:induction false} ReadsAreSent(calls: seq<Call>, slices: seq<seq<KlineRead>>, requests: seq<Request>, minute: int)
    requires Accounts(calls, slices, requests)
    ensures ReadsIn(slices, requests, minute) == SentIn(calls, minute)
  {
    if calls == [] {
    } else {
      var n := |calls| - 1;
      ReadsAreSent(calls[..n], slices[..n], requests, minute);
    }
  }

  /** The promise for a clock that does not go back: no minute's reads in the log pass the limit. */
  lemma {:induction false} LimitHoldsWhileClockMovesOn(calls: seq<Call>, slices: seq<seq<KlineRead>>, requests: seq<Request>, limit: nat, minute: int)
    requires Rations(calls, limit) && Accounts(calls, slices, requests)
    requires forall i, j :: 0 <= i < j < |requests| ==> requests[i].now <= requests[j].now
    ensures ReadsIn(slices, requests, minute) <= limit
  {
    ReadsAreSent(calls, slices, requests, minute);
    forall i, j | 0 <= i < j < |calls| ensures Minutes(calls)[i] <= Minutes(calls)[j] {
      assert requests[i].now <= requests[j].now;
    }
    ClockMovingOnNeverReturns(Minutes(calls));
    LimitHoldsEveryMinute(calls, limit, minute);
  }
}
