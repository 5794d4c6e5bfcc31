/** The calls that replacing stops may make, and why no symbol loses its last strategy stop. */
module StopProtocol {
  import opened Common
  import opened Exchange
  import opened Orders

  datatype Replacement = Replacement(symbol: string, quantity: real, stopPrice: real, positionSide: Option<string>)

  datatype FailureKind = ReplacementRateLimit | NotBuilt | NotPlaced | CancelRateLimit | CancelFailed(target: AlgoOrder)

  datatype ReplacementFailure = ReplacementFailure(symbol: string, kind: FailureKind)

  /** The replacement of one symbol's stop, as far as it got: the listing, the rules read (if any), the
      order placed (if any) and the cancels of the old stops. */
  datatype Swap = Swap(listing: ListReply, rules: Option<RulesReply>, rulesFor: Option<ExchangeSymbol>,
                       placed: Option<(StopOrder, PostReply)>, cancels: seq<Call>)

  datatype Pass = GoOn | Halt | Raise(error: ApiError)

  function StrategyStops(listing: seq<AlgoOrder>): seq<AlgoOrder> {
    Filter(listing, StrategyStop)
  }

  function OpeningReads(symbol: string, s: Swap): seq<Call> {
    [ListStops(symbol, s.listing)] + (if s.rules.Some? then [ReadRules(s.rules.value)] else [])
  }

  function PlacingCalls(s: Swap): seq<Call> {
    if s.placed.Some? then [PostStop(s.placed.value.0, s.placed.value.1)] else []
  }

  function OpeningCalls(symbol: string, s: Swap): seq<Call> {
    OpeningReads(symbol, s) + PlacingCalls(s)
  }

  function OrderCalls(s: Swap): seq<Call> {
    PlacingCalls(s) + s.cancels
  }

  function SwapCalls(symbol: string, s: Swap): (r: seq<Call>)
    ensures r != []
  {
    OpeningCalls(symbol, s) + s.cancels
  }

  /** The order for a replacement: rounded to the exchange's filters when they are known. */
  function ReplacementOrder(r: Replacement, clientId: string, rules: Option<ExchangeSymbol>): Result<StopOrder, BuildError> {
    if rules.None? then Ok(StopOrder(r.symbol, Some(clientId), r.quantity, r.stopPrice, r.positionSide, r.positionSide.None?))
    else StopMarketOrder(rules.value, r.quantity, r.stopPrice, Some(clientId), r.positionSide)
  }

  predicate Reached(s: Swap) {
    s.listing.Listed? && (s.rules.Some? ==> s.rules.value.Rules?)
  }

  /** Nothing is placed before the old stops are listed; nothing is cancelled before the new stop is
      accepted; the cancels are the listed strategy stops in order, cut short only by a rate limit. */
  ghost predicate Proper(r: Replacement, s: Swap) {
    && (!s.listing.Listed? ==> s.rules.None?)
    && (s.rulesFor.Some? ==> s.rulesFor.value.symbol == r.symbol)
    && (s.placed.Some? ==> Reached(s) && exists id :: StrategyId(Some(id)) && ReplacementOrder(r, id, s.rulesFor) == Ok(s.placed.value.0))
    && (s.placed.None? && Reached(s) ==> exists id :: ReplacementOrder(r, id, s.rulesFor).Err?)
    && (s.cancels != [] ==> s.placed.Some? && s.placed.value.1.Accepted?)
    && (s.placed.Some? && s.placed.value.1.Accepted? ==> CancelRun(StrategyStops(s.listing.orders), s.cancels))
  }

  predicate Cancels(c: Call, target: AlgoOrder) {
    c.CancelStop? && c.target == target
  }

  /** All these orders were cancelled or refused, and no cancel was rate limited. */
  predicate AllCancelled(targets: seq<AlgoOrder>, cancels: seq<Call>) {
    && |cancels| == |targets|
    && (cancels != [] ==>
          && AllCancelled(targets[..|targets| - 1], cancels[..|cancels| - 1])
          && Cancels(cancels[|cancels| - 1], targets[|targets| - 1]) && !HitRateLimit(cancels[|cancels| - 1]))
  }

  predicate CancelRun(targets: seq<AlgoOrder>, cancels: seq<Call>) {
    || AllCancelled(targets, cancels)
    || (var n := |cancels| - 1;
        && 0 <= n < |targets| && AllCancelled(targets[..n], cancels[..n])
        && Cancels(cancels[n], targets[n]) && HitRateLimit(cancels[n]))
  }

  lemma {:induction false} CancelNext(targets: seq<AlgoOrder>, k: nat, cancels: seq<Call>, c: Call)
    requires k < |targets| && AllCancelled(targets[..k], cancels) && Cancels(c, targets[k])
    ensures if HitRateLimit(c) then CancelRun(targets, cancels + [c]) else AllCancelled(targets[..k + 1], cancels + [c])
  {
    assert (cancels + [c])[..k] == cancels && targets[..k + 1][..k] == targets[..k];
  }

  lemma {:induction false} AppendCancel(symbol: string, cancels: seq<Call>, c: Call)
    requires c.CancelStop?
    ensures CancelFailures(symbol, cancels + [c]) == CancelFailures(symbol, cancels)
      + (if c.cancelError.None? then [] else [ReplacementFailure(symbol, if HitRateLimit(c) then CancelRateLimit else CancelFailed(c.target))])
  {
    assert (cancels + [c])[..|cancels|] == cancels;
  }

  /** The cancels made are of the targets, in order, and only the last may hit a rate limit. */
  lemma {:induction false} CancelAt(targets: seq<AlgoOrder>, cancels: seq<Call>, k: nat)
    requires CancelRun(targets, cancels) && k < |cancels|
    ensures k < |targets| && Cancels(cancels[k], targets[k])
    ensures k < |cancels| - 1 ==> !HitRateLimit(cancels[k])
  {
    if AllCancelled(targets, cancels) {
      CancelledAt(targets, cancels, k);
    } else if k < |cancels| - 1 {
      CancelledAt(targets[..|cancels| - 1], cancels[..|cancels| - 1], k);
    }
  }

  lemma {:induction false} CancelledAt(targets: seq<AlgoOrder>, cancels: seq<Call>, k: nat)
    requires AllCancelled(targets, cancels) && k < |cancels|
    ensures Cancels(cancels[k], targets[k]) && !HitRateLimit(cancels[k])
  {
    if k < |cancels| - 1 {
      CancelledAt(targets[..|targets| - 1], cancels[..|cancels| - 1], k);
    }
  }

  /** What a stop placed for a replacement protects: the symbol and position side that were asked for, reduce-only exactly
      without a side. Without rules its quantity and price are those asked for; with rules the quantity is the greatest one
      on the step grid that is not above, and the filters accept it, and the price is rounded down the same way. */
  ghost predicate Protects(o: StopOrder, r: Replacement, rules: Option<ExchangeSymbol>) {
    && o.symbol == r.symbol && StrategyId(o.clientId)
    && (o.reduceOnly <==> o.positionSide.None?)
    && if rules.None? then o.quantity == r.quantity && o.price == r.stopPrice && o.positionSide == r.positionSide
       else
         var f := rules.value.filters;
         && AcceptedQuantity(f, o.quantity) && GreatestBelow(o.quantity, r.quantity, f.stepSize)
         && OnGrid(o.price, f.tickSize) && (r.stopPrice >= 0.0 ==> GreatestBelow(o.price, r.stopPrice, f.tickSize))
         && SameSide(o.positionSide, r.positionSide)
  }

  lemma {:induction false} PlacedStopProtects(r: Replacement, s: Swap)
    requires Proper(r, s) && s.placed.Some?
    ensures Protects(s.placed.value.0, r, s.rulesFor)
  {
    var id :| StrategyId(Some(id)) && ReplacementOrder(r, id, s.rulesFor) == Ok(s.placed.value.0);
    if s.rulesFor.Some? {
      StopIsRounded(s.rulesFor.value, r.quantity, r.stopPrice, Some(id), r.positionSide);
    }
  }

  // ----- what the caller is told -----

  function LastCallOf(symbol: string, s: Swap): Call {
    if s.cancels != [] then s.cancels[|s.cancels| - 1]
    else if s.placed.Some? then PostStop(s.placed.value.0, s.placed.value.1)
    else if s.rules.Some? then ReadRules(s.rules.value)
    else ListStops(symbol, s.listing)
  }

  lemma {:induction false} SwapShape(symbol: string, s: Swap)
    ensures SwapCalls(symbol, s) == OpeningReads(symbol, s) + OrderCalls(s)
    ensures SwapCalls(symbol, s)[|SwapCalls(symbol, s)| - 1] == LastCallOf(symbol, s)
  {
  }

  function PassAfter(symbol: string, s: Swap): Pass {
    var last := LastCallOf(symbol, s);
    if HitRateLimit(last) then Halt
    else if !Reached(s) && CallError(last).Some? then Raise(CallError(last).value)
    else GoOn
  }

  function CancelFailures(symbol: string, cancels: seq<Call>): seq<ReplacementFailure> {
    if cancels == [] then []
    else
      var last := cancels[|cancels| - 1];
      CancelFailures(symbol, cancels[..|cancels| - 1])
      + (if !last.CancelStop? || last.cancelError.None? then []
         else [ReplacementFailure(symbol, if HitRateLimit(last) then CancelRateLimit else CancelFailed(last.target))])
  }

  function SwapFailures(symbol: string, s: Swap): seq<ReplacementFailure> {
    if !Reached(s) then
      if PassAfter(symbol, s).Halt? then [ReplacementFailure(symbol, ReplacementRateLimit)] else []
    else if s.placed.None? then [ReplacementFailure(symbol, NotBuilt)]
    else if s.placed.value.1.PostRaised? then
      [ReplacementFailure(symbol, if RateLimited(s.placed.value.1.error) then ReplacementRateLimit else NotPlaced)]
    else CancelFailures(symbol, s.cancels)
  }

  function SwapResponses(s: Swap): seq<OrderView> {
    if s.placed.Some? && s.placed.value.1.Accepted? then [s.placed.value.1.order] else []
  }

  /** The failure record of a call, if it failed: a rate limit by itself, anything else by what was tried. Listing and reading
      rules are recorded only for a rate limit, as other errors there are raised. */
  function RecordOf(symbol: string, c: Call): seq<ReplacementFailure> {
    match CallError(c)
    case None => []
    case Some(e) =>
      if c.CancelStop? then [ReplacementFailure(symbol, if RateLimited(e) then CancelRateLimit else CancelFailed(c.target))]
      else if RateLimited(e) then [ReplacementFailure(symbol, ReplacementRateLimit)]
      else if c.PostStop? then [ReplacementFailure(symbol, NotPlaced)]
      else []
  }

  function RecordsOf(symbol: string, calls: seq<Call>): seq<ReplacementFailure> {
    if calls == [] then [] else RecordsOf(symbol, calls[..|calls| - 1]) + RecordOf(symbol, calls[|calls| - 1])
  }

  function AcceptedStops(calls: seq<Call>): seq<OrderView> {
    if calls == [] then []
    else
      var last := calls[|calls| - 1];
      AcceptedStops(calls[..|calls| - 1]) + if last.PostStop? && last.placed.Accepted? then [last.placed.order] else []
  }

  lemma {:induction false} RecordsConcat(symbol: string, a: seq<Call>, b: seq<Call>)
    ensures RecordsOf(symbol, a + b) == RecordsOf(symbol, a) + RecordsOf(symbol, b)
  {
    if b == [] {
      assert a + b == a;
    } else {
      var n := |b| - 1;
      assert (a + b)[..|a + b| - 1] == a + b[..n] && (a + b)[|a + b| - 1] == b[n];
      RecordsConcat(symbol, a, b[..n]);
      Associative(RecordsOf(symbol, a), RecordsOf(symbol, b[..n]), RecordOf(symbol, b[n]));
    }
  }

  lemma {:induction false} AcceptedConcat(a: seq<Call>, b: seq<Call>)
    ensures AcceptedStops(a + b) == AcceptedStops(a) + AcceptedStops(b)
  {
    if b == [] {
      assert a + b == a;
    } else {
      var n := |b| - 1;
      assert (a + b)[..|a + b| - 1] == a + b[..n];
      AcceptedConcat(a, b[..n]);
    }
  }

  lemma {:induction false} CancelRecords(symbol: string, cancels: seq<Call>)
    requires forall i | 0 <= i < |cancels| :: cancels[i].CancelStop?
    ensures RecordsOf(symbol, cancels) == CancelFailures(symbol, cancels) && AcceptedStops(cancels) == []
  {
    if cancels == [] {
    } else {
      CancelRecords(symbol, cancels[..|cancels| - 1]);
    }
  }

  lemma {:induction false} OneRecord(symbol: string, c: Call)
    ensures RecordsOf(symbol, [c]) == RecordOf(symbol, c)
    ensures AcceptedStops([c]) == if c.PostStop? && c.placed.Accepted? then [c.placed.order] else []
  {
    assert [c][..0] == [];
  }

  lemma {:induction false} OpeningRecords(symbol: string, s: Swap)
    ensures RecordsOf(symbol, OpeningCalls(symbol, s))
         == RecordOf(symbol, ListStops(symbol, s.listing))
            + (if s.rules.Some? then RecordOf(symbol, ReadRules(s.rules.value)) else [])
            + (if s.placed.Some? then RecordOf(symbol, PostStop(s.placed.value.0, s.placed.value.1)) else [])
    ensures AcceptedStops(OpeningCalls(symbol, s)) == SwapResponses(s)
  {
    var list, rules, placing := [ListStops(symbol, s.listing)], if s.rules.Some? then [ReadRules(s.rules.value)] else [], PlacingCalls(s);
    RecordsConcat(symbol, list, rules);
    RecordsConcat(symbol, list + rules, placing);
    AcceptedConcat(list, rules);
    AcceptedConcat(list + rules, placing);
    OneRecord(symbol, ListStops(symbol, s.listing));
    if s.rules.Some? {
      OneRecord(symbol, ReadRules(s.rules.value));
    }
    if s.placed.Some? {
      OneRecord(symbol, PostStop(s.placed.value.0, s.placed.value.1));
    }
  }

  lemma {:induction false} SwapRecords(r: Replacement, s: Swap)
    requires Proper(r, s)
    ensures RecordsOf(r.symbol, SwapCalls(r.symbol, s)) == RecordsOf(r.symbol, OpeningCalls(r.symbol, s)) + CancelFailures(r.symbol, s.cancels)
    ensures AcceptedStops(SwapCalls(r.symbol, s)) == SwapResponses(s)
  {
    forall i | 0 <= i < |s.cancels| ensures s.cancels[i].CancelStop? {
      CancelAt(StrategyStops(s.listing.orders), s.cancels, i);
    }
    OpeningRecords(r.symbol, s);
    CancelRecords(r.symbol, s.cancels);
    RecordsConcat(r.symbol, OpeningCalls(r.symbol, s), s.cancels);
    AcceptedConcat(OpeningCalls(r.symbol, s), s.cancels);
  }

  lemma {:induction false} OpeningFailures(symbol: string, s: Swap)
    requires s.placed.Some? ==> Reached(s)
    requires !s.listing.Listed? ==> s.rules.None?
    ensures RecordsOf(symbol, OpeningCalls(symbol, s))
         == if !Reached(s) then (if PassAfter(symbol, s.(cancels := [])).Halt? then [ReplacementFailure(symbol, ReplacementRateLimit)] else [])
            else if s.placed.Some? && s.placed.value.1.PostRaised? then
              [ReplacementFailure(symbol, if RateLimited(s.placed.value.1.error) then ReplacementRateLimit else NotPlaced)]
            else []
  {
    OpeningRecords(symbol, s);
  }

  /** What a replacement reports is what its calls say: the records of the calls that failed and the stops that were accepted,
      and one record more when no order could be built. */
  lemma {:induction false} SwapReportsItsCalls(r: Replacement, s: Swap)
    requires Proper(r, s)
    ensures SwapFailures(r.symbol, s)
         == RecordsOf(r.symbol, SwapCalls(r.symbol, s)) + if Reached(s) && s.placed.None? then [ReplacementFailure(r.symbol, NotBuilt)] else []
    ensures SwapResponses(s) == AcceptedStops(SwapCalls(r.symbol, s))
  {
    SwapRecords(r, s);
    OpeningFailures(r.symbol, s);
    if s.placed.None? || s.placed.value.1.PostRaised? {
      assert s.cancels == [] && s.(cancels := []) == s;
    }
  }

  /** How a pass goes on after a replacement: it halts exactly at a rate limit, raises exactly another error of listing or of
      reading rules, and goes on otherwise. */
  lemma {:induction false} PassGoesOnUnless(r: Replacement, s: Swap)
    requires Proper(r, s)
    ensures PassAfter(r.symbol, s).Halt? <==> exists i :: 0 <= i < |SwapCalls(r.symbol, s)| && HitRateLimit(SwapCalls(r.symbol, s)[i])
    ensures forall e :: PassAfter(r.symbol, s) == Raise(e)
                   <==> !RateLimited(e) && (s.listing == ListRaised(e) || (s.listing.Listed? && s.rules == Some(RulesRaised(e))))
  {
    SwapShape(r.symbol, s);
    var calls := SwapCalls(r.symbol, s);
    if i :| 0 <= i < |calls| && HitRateLimit(calls[i]) {
      RateLimitEndsSwap(r, s, i);
    }
    assert calls[|calls| - 1] == LastCallOf(r.symbol, s);
  }

  /** Every old stop is taken down: when the new stop is accepted and no cancel meets a rate limit, each strategy stop that was
      listed has its cancel. */
  lemma {:induction false} EveryOldStopIsCancelled(r: Replacement, s: Swap, o: AlgoOrder) returns (k: nat)
    requires Proper(r, s) && s.placed.Some? && s.placed.value.1.Accepted? && PassAfter(r.symbol, s) == GoOn
    requires o in s.listing.orders && o.stopMarket && StrategyId(o.clientId)
    ensures k < |s.cancels| && s.cancels[k].CancelStop? && s.cancels[k].target == o
  {
    var targets := StrategyStops(s.listing.orders);
    FilterMembers(s.listing.orders, StrategyStop);
    k :| 0 <= k < |targets| && targets[k] == o;
    assert AllCancelled(targets, s.cancels);
    CancelledAt(targets, s.cancels, k);
  }

  // ----- a whole pass -----

  function PassCalls(replacements: seq<Replacement>, swaps: seq<Swap>): seq<Call>
    requires |swaps| <= |replacements|
  {
    if swaps == [] then []
    else PassCalls(replacements, swaps[..|swaps| - 1]) + SwapCalls(replacements[|swaps| - 1].symbol, swaps[|swaps| - 1])
  }

  function PassFailures(replacements: seq<Replacement>, swaps: seq<Swap>): seq<ReplacementFailure>
    requires |swaps| <= |replacements|
  {
    if swaps == [] then []
    else PassFailures(replacements, swaps[..|swaps| - 1]) + SwapFailures(replacements[|swaps| - 1].symbol, swaps[|swaps| - 1])
  }

  function PassResponses(swaps: seq<Swap>): seq<OrderView> {
    if swaps == [] then [] else PassResponses(swaps[..|swaps| - 1]) + SwapResponses(swaps[|swaps| - 1])
  }

  /** Swaps run in order; only the last may halt the pass or raise. */
  ghost predicate ProperPass(replacements: seq<Replacement>, swaps: seq<Swap>) {
    && |swaps| <= |replacements|
    && (swaps != [] ==>
          && ProperPass(replacements, swaps[..|swaps| - 1])
          && PassOf(replacements, swaps[..|swaps| - 1]) == GoOn
          && Proper(replacements[|swaps| - 1], swaps[|swaps| - 1]))
  }

  /** How a pass stands after its swaps so far. */
  function PassOf(replacements: seq<Replacement>, swaps: seq<Swap>): Pass
    requires |swaps| <= |replacements|
  {
    if swaps == [] then GoOn else PassAfter(replacements[|swaps| - 1].symbol, swaps[|swaps| - 1])
  }

  lemma {:induction false} AppendSwap(replacements: seq<Replacement>, swaps: seq<Swap>, s: Swap)
    requires ProperPass(replacements, swaps) && |swaps| < |replacements|
    requires PassOf(replacements, swaps) == GoOn
    requires Proper(replacements[|swaps|], s)
    ensures ProperPass(replacements, swaps + [s])
    ensures PassOf(replacements, swaps + [s]) == PassAfter(replacements[|swaps|].symbol, s)
    ensures PassCalls(replacements, swaps + [s]) == PassCalls(replacements, swaps) + SwapCalls(replacements[|swaps|].symbol, s)
    ensures PassFailures(replacements, swaps + [s]) == PassFailures(replacements, swaps) + SwapFailures(replacements[|swaps|].symbol, s)
    ensures PassResponses(swaps + [s]) == PassResponses(swaps) + SwapResponses(s)
  {
    assert (swaps + [s])[..|swaps|] == swaps;
  }

  // ----- rate limits -----

  /** Inside a swap a rate-limited call is the last call, and it halts the pass. */
  lemma {:induction false} RateLimitEndsSwap(r: Replacement, s: Swap, i: nat)
    requires Proper(r, s) && i < |SwapCalls(r.symbol, s)| && HitRateLimit(SwapCalls(r.symbol, s)[i])
    ensures i == |SwapCalls(r.symbol, s)| - 1 && PassAfter(r.symbol, s) == Halt
  {
    SwapShape(r.symbol, s);
    var m := |OpeningCalls(r.symbol, s)|;
    if i >= m {
      assert SwapCalls(r.symbol, s)[i] == s.cancels[i - m];
      CancelAt(StrategyStops(s.listing.orders), s.cancels, i - m);
    }
  }

  ghost predicate Clear(calls: seq<Call>) {
    forall i :: 0 <= i < |calls| ==> !HitRateLimit(calls[i])
  }

  lemma {:induction false} SwapIsClear(r: Replacement, s: Swap)
    requires Proper(r, s) && PassAfter(r.symbol, s) == GoOn
    ensures Clear(SwapCalls(r.symbol, s))
  {
    forall i | 0 <= i < |SwapCalls(r.symbol, s)| ensures !HitRateLimit(SwapCalls(r.symbol, s)[i]) {
      if HitRateLimit(SwapCalls(r.symbol, s)[i]) {
        RateLimitEndsSwap(r, s, i);
      }
    }
  }

  /** A pass that still goes on has met no rate limit. */
  lemma {:induction false} OpenPassIsClear(replacements: seq<Replacement>, swaps: seq<Swap>)
    requires ProperPass(replacements, swaps)
    requires PassOf(replacements, swaps) == GoOn
    ensures Clear(PassCalls(replacements, swaps))
    decreases |swaps|
  {
    if swaps == [] {
    } else {
      OpenPassIsClear(replacements, swaps[..|swaps| - 1]);
      SwapIsClear(replacements[|swaps| - 1], swaps[|swaps| - 1]);
    }
  }

  /** A rate-limited call is the last call of the pass. */
  lemma {:induction false} RateLimitEndsPass(replacements: seq<Replacement>, swaps: seq<Swap>, i: nat)
    requires ProperPass(replacements, swaps)
    requires i < |PassCalls(replacements, swaps)| && HitRateLimit(PassCalls(replacements, swaps)[i])
    ensures i == |PassCalls(replacements, swaps)| - 1
  {
    var n := |swaps| - 1;
    var before := PassCalls(replacements, swaps[..n]);
    OpenPassIsClear(replacements, swaps[..n]);
    var calls := PassCalls(replacements, swaps);
    assert forall k :: 0 <= k < |before| ==> calls[k] == before[k];
    RateLimitEndsSwap(replacements[n], swaps[n], i - |before|);
  }

  // ----- safety -----

  /** `o` is open from book `from` to book `to`. */
  ghost predicate StaysOpen(o: AlgoOrder, books: seq<StopBook>, from: nat, to: nat)
    requires to < |books|
  {
    forall i :: from <= i <= to ==> o in books[i]
  }

  /** While nothing is cancelled, an open strategy stop stays open. */
  lemma {:induction false} StaysOpenWithoutCancels(o: AlgoOrder, calls: seq<Call>, books: seq<StopBook>, from: nat, to: nat)
    requires TruthfulStops(calls, books) && from <= to < |books|
    requires o in books[from] && StrategyStop(o)
    requires forall i :: from <= i < to ==> !calls[i].CancelStop?
    ensures StaysOpen(o, books, from, to)
  {
    if from < to {
      StaysOpenWithoutCancels(o, calls, books, from, to - 1);
      assert StopStep(books[to - 1], calls[to - 1], books[to]);
    }
  }

  /** Cancels of other orders leave an open strategy stop alone. */
  lemma {:induction false} StaysOpenDespiteCancels(o: AlgoOrder, calls: seq<Call>, books: seq<StopBook>, from: nat, to: nat)
    requires TruthfulStops(calls, books) && from <= to < |books|
    requires o in books[from] && StrategyStop(o)
    requires forall i :: from <= i < to ==> calls[i].CancelStop? && !SameId(o, calls[i].target)
    ensures StaysOpen(o, books, from, to)
  {
    if from < to {
      StaysOpenDespiteCancels(o, calls, books, from, to - 1);
      assert StopStep(books[to - 1], calls[to - 1], books[to]);
    }
  }

  /** Every target was listed as an open strategy stop of the symbol, and is still open when the cancels begin. */
  lemma {:induction false} TargetWasListed(r: Replacement, s: Swap, books: seq<StopBook>, k: nat)
    requires Proper(r, s) && TruthfulStops(SwapCalls(r.symbol, s), books)
    requires k < |s.cancels|
    ensures s.cancels[k].CancelStop?
    ensures var t := s.cancels[k].target;
            && t.symbol == r.symbol && StrategyStop(t)
            && t in books[1]
            && t in books[|OpeningCalls(r.symbol, s)| - 1] && t in books[|OpeningCalls(r.symbol, s)|]
  {
    var calls := SwapCalls(r.symbol, s);
    CancelAt(StrategyStops(s.listing.orders), s.cancels, k);
    var t := s.cancels[k].target;
    FilterMembers(s.listing.orders, StrategyStop);
    assert t in StrategyStops(s.listing.orders);
    assert StopStep(books[0], calls[0], books[1]);
    StaysOpenWithoutCancels(t, calls, books, 1, |OpeningCalls(r.symbol, s)|);
  }

  /** The accepted stop is a new open strategy stop of the symbol, and no cancel of the swap can hit it. */
  lemma {:induction false} AcceptedStopIsSafe(r: Replacement, s: Swap, books: seq<StopBook>) returns (o: AlgoOrder)
    requires Proper(r, s) && TruthfulStops(SwapCalls(r.symbol, s), books)
    requires s.cancels != []
    ensures var m := |OpeningCalls(r.symbol, s)|;
            && o.symbol == r.symbol && StrategyStop(o)
            && (forall k :: 0 <= k < |s.cancels| ==> s.cancels[k].CancelStop? && !SameId(o, s.cancels[k].target))
            && StaysOpen(o, books, m, |books| - 1)
  {
    var calls := SwapCalls(r.symbol, s);
    var m := |OpeningCalls(r.symbol, s)|;
    assert calls[m - 1] == PostStop(s.placed.value.0, s.placed.value.1);
    assert StopStep(books[m - 1], calls[m - 1], books[m]);
    o :| o in books[m] && o !in books[m - 1] && Books(o, s.placed.value.0);
    forall k | 0 <= k < |s.cancels| ensures s.cancels[k].CancelStop? && !SameId(o, s.cancels[k].target) {
      TargetWasListed(r, s, books, k);
    }
    StaysOpenDespiteCancels(o, calls, books, m, |books| - 1);
  }

  /** A strategy stop of another symbol is never touched. */
  lemma {:induction false} OtherSymbolsUntouched(r: Replacement, s: Swap, books: seq<StopBook>, o: AlgoOrder)
    requires Proper(r, s) && TruthfulStops(SwapCalls(r.symbol, s), books)
    requires o in books[0] && StrategyStop(o) && o.symbol != r.symbol
    ensures StaysOpen(o, books, 0, |books| - 1)
  {
    var calls := SwapCalls(r.symbol, s);
    var m := |OpeningCalls(r.symbol, s)|;
    StaysOpenWithoutCancels(o, calls, books, 0, m);
    forall k | 0 <= k < |s.cancels| ensures s.cancels[k].CancelStop? && !SameId(o, s.cancels[k].target) {
      TargetWasListed(r, s, books, k);
    }
    StaysOpenDespiteCancels(o, calls, books, m, |books| - 1);
  }

  /** One swap: a symbol with an open strategy stop has one after every single call. */
  lemma {:induction false} SwapKeepsCover(r: Replacement, s: Swap, books: seq<StopBook>, i: nat)
    requires Proper(r, s) && TruthfulStops(SwapCalls(r.symbol, s), books)
    requires i < |books|
    ensures KeepsCover(books[0], books[i])
  {
    var calls := SwapCalls(r.symbol, s);
    var m := |OpeningCalls(r.symbol, s)|;
    forall symbol | Covered(books[0], symbol) ensures Covered(books[i], symbol) {
      var o :| o in books[0] && o.symbol == symbol && StrategyStop(o);
      if symbol != r.symbol {
        OtherSymbolsUntouched(r, s, books, o);
      } else if i <= m {
        StaysOpenWithoutCancels(o, calls, books, 0, i);
      } else {
        var newest := AcceptedStopIsSafe(r, s, books);
        assert newest in books[i];
      }
    }
  }

  /** A symbol with an open strategy stop in the first book has one in every book. */
  ghost predicate CoverKept(books: seq<StopBook>) {
    forall i :: 0 <= i < |books| ==> KeepsCover(books[0], books[i])
  }

  lemma {:induction false} JoinCover(books: seq<StopBook>, cut: nat)
    requires cut < |books| && CoverKept(books[..cut + 1]) && CoverKept(books[cut..])
    ensures CoverKept(books)
  {
    forall i | 0 <= i < |books| ensures KeepsCover(books[0], books[i]) {
      assert KeepsCover(books[..cut + 1][0], books[..cut + 1][if i <= cut then i else cut]);
      if i > cut {
        assert KeepsCover(books[cut..][0], books[cut..][i - cut]);
      }
    }
  }

  /** The main safety result. Over a whole pass, with any mix of failures, lost replies and rate limits,
      a symbol that had an open strategy stop still has one after every single call. */
  lemma {:induction false} PassKeepsCover(replacements: seq<Replacement>, swaps: seq<Swap>, books: seq<StopBook>)
    requires ProperPass(replacements, swaps) && TruthfulStops(PassCalls(replacements, swaps), books)
    ensures CoverKept(books)
    decreases |swaps|
  {
    if swaps == [] {
    } else {
      var n := |swaps| - 1;
      var before, calls := PassCalls(replacements, swaps[..n]), SwapCalls(replacements[n].symbol, swaps[n]);
      TruthfulParts(before, calls, books);
      PassKeepsCover(replacements, swaps[..n], books[..|before| + 1]);
      forall i | 0 <= i < |books| - |before| ensures KeepsCover(books[|before|..][0], books[|before|..][i]) {
        SwapKeepsCover(replacements[n], swaps[n], books[|before|..], i);
      }
      JoinCover(books, |before|);
    }
  }

  lemma {:induction false} TruthfulParts(a: seq<Call>, b: seq<Call>, books: seq<StopBook>)
    requires TruthfulStops(a + b, books)
    ensures TruthfulStops(a, books[..|a| + 1]) && TruthfulStops(b, books[|a|..])
  {
    var first, second := books[..|a| + 1], books[|a|..];
    forall i | 0 <= i < |a| ensures StopStep(first[i], a[i], first[i + 1]) {
      assert StopStep(books[i], (a + b)[i], books[i + 1]);
    }
    forall i | 0 <= i < |b| ensures StopStep(second[i], b[i], second[i + 1]) {
      assert StopStep(books[|a| + i], (a + b)[|a| + i], books[|a| + i + 1]);
    }
  }
}
