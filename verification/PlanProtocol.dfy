/** The calls that submitting a whole plan may make: the entry phase, then the stop phase. */
module PlanProtocol {
  import opened Common
  import opened Exchange
  import opened EntryProtocol
  import opened Orders

  datatype StopFailure = StopFailure(order: StopOrder, rateLimited: bool)

  // ----- entries -----

  /** One complete submission: its order, its calls and what they concluded. */
  datatype Step = Step(order: EntryOrder, calls: seq<Call>, result: Option<OrderView>, failures: seq<EntryFailure>)

  ghost predicate Submission(lookups: bool, retries: nat, s: Step) {
    && Complete(s.order, Supported(lookups, s.order), retries, s.calls)
    && (s.result, s.failures) == Conclusion(s.order, retries, s.calls)
  }

  /** The first orders were submitted, one step each; the rest have no result. */
  ghost predicate EntryPhase(orders: seq<EntryOrder>, results: seq<Option<OrderView>>, steps: seq<Step>) {
    && |steps| <= |orders| == |results|
    && (forall i :: 0 <= i < |steps| ==> OrderOf(steps[i]) == orders[i] && ResultOf(steps[i]) == results[i])
    && (forall i :: |steps| <= i < |orders| ==> results[i].None?)
  }

  function OrderOf(s: Step): EntryOrder { s.order }

  function ResultOf(s: Step): Option<OrderView> { s.result }

  ghost predicate Submissions(lookups: bool, retries: nat, steps: seq<Step>) {
    steps != [] ==> Submissions(lookups, retries, steps[..|steps| - 1]) && Submission(lookups, retries, steps[|steps| - 1])
  }

  function CallsOf(steps: seq<Step>): seq<Call> {
    if steps == [] then [] else CallsOf(steps[..|steps| - 1]) + steps[|steps| - 1].calls
  }

  function FailuresOf(steps: seq<Step>): seq<EntryFailure> {
    if steps == [] then [] else FailuresOf(steps[..|steps| - 1]) + steps[|steps| - 1].failures
  }

  function UnansweredOf(steps: seq<Step>): seq<EntryOrder> {
    if steps == [] then []
    else
      var before, last := UnansweredOf(steps[..|steps| - 1]), steps[|steps| - 1];
      if last.result.None? then before + [last.order] else before
  }

  lemma {:induction false} AppendStep(lookups: bool, retries: nat, orders: seq<EntryOrder>, results: seq<Option<OrderView>>, steps: seq<Step>, s: Step,
                   limit: Option<ApiError>)
    requires |steps| < |orders| && s.order == orders[|steps|]
    requires EntryPhase(orders[..|steps|], results, steps)
    requires Submissions(lookups, retries, steps) && Submission(lookups, retries, s)
    requires OnlyLastStepLimited(steps, None)
    requires limit == RateLimitAfter(Last(s.calls), None)
    ensures EntryPhase(orders[..|steps| + 1], results + [s.result], steps + [s])
    ensures Submissions(lookups, retries, steps + [s])
    ensures OnlyLastStepLimited(steps + [s], limit)
    ensures CallsOf(steps + [s]) == CallsOf(steps) + s.calls && FailuresOf(steps + [s]) == FailuresOf(steps) + s.failures
  {
    assert (steps + [s])[..|steps|] == steps;
  }

  lemma {:induction false} SkipOrder(orders: seq<EntryOrder>, i: nat, results: seq<Option<OrderView>>, steps: seq<Step>)
    requires i < |orders| && EntryPhase(orders[..i], results, steps)
    ensures EntryPhase(orders[..i + 1], results + [None], steps)
  {
  }

  function RateLimitAfter(last: Call, before: Option<ApiError>): Option<ApiError> {
    if HitRateLimit(last) then CallError(last) else before
  }

  function StepLimit(s: Step): Option<ApiError> {
    if s.calls == [] then None else RateLimitAfter(Last(s.calls), None)
  }

  /** A rate limit, if any was hit, was hit by the last step. */
  predicate OnlyLastStepLimited(steps: seq<Step>, limit: Option<ApiError>) {
    if steps == [] then limit == None
    else OnlyLastStepLimited(steps[..|steps| - 1], None) && limit == StepLimit(steps[|steps| - 1])
  }

  /** The entry phase after its first `i` orders. */
  ghost predicate EntriesSoFar(lookups: bool, retries: nat, orders: seq<EntryOrder>, i: nat, results: seq<Option<OrderView>>, steps: seq<Step>,
                               limit: Option<ApiError>, failures: seq<EntryFailure>) {
    && i <= |orders| && EntryPhase(orders[..i], results, steps) && Submissions(lookups, retries, steps)
    && (limit.None? ==> |steps| == i) && OnlyLastStepLimited(steps, limit) && failures == FailuresOf(steps)
  }

  lemma {:induction false} EntriesGoOn(lookups: bool, retries: nat, orders: seq<EntryOrder>, i: nat, results: seq<Option<OrderView>>, steps: seq<Step>,
                                       failures: seq<EntryFailure>, calls: seq<Call>) returns (s: Step)
    requires EntriesSoFar(lookups, retries, orders, i, results, steps, None, failures) && i < |orders|
    requires Complete(orders[i], Supported(lookups, orders[i]), retries, calls)
    ensures s.calls == calls && CallsOf(steps + [s]) == CallsOf(steps) + calls
    ensures var (result, more) := Conclusion(orders[i], retries, calls);
            EntriesSoFar(lookups, retries, orders, i + 1, results + [result], steps + [s], RateLimitAfter(Last(calls), None), failures + more)
  {
    var (result, more) := Conclusion(orders[i], retries, calls);
    s := Step(orders[i], calls, result, more);
    AppendStep(lookups, retries, orders, results, steps, s, RateLimitAfter(Last(calls), None));
  }

  lemma {:induction false} EntriesSkip(lookups: bool, retries: nat, orders: seq<EntryOrder>, i: nat, results: seq<Option<OrderView>>, steps: seq<Step>,
                                       limit: Option<ApiError>, failures: seq<EntryFailure>)
    requires EntriesSoFar(lookups, retries, orders, i, results, steps, limit, failures) && i < |orders| && limit.Some?
    ensures EntriesSoFar(lookups, retries, orders, i + 1, results + [None], steps, limit, failures)
  {
    SkipOrder(orders, i, results, steps);
  }

  /** So a rate-limited call is the last call of the entry phase. */
  lemma {:induction false} RateLimitEndsEntries(lookups: bool, retries: nat, steps: seq<Step>, limit: Option<ApiError>, i: nat)
    requires Submissions(lookups, retries, steps) && OnlyLastStepLimited(steps, limit)
    requires i < |CallsOf(steps)| && HitRateLimit(CallsOf(steps)[i])
    ensures i == |CallsOf(steps)| - 1 && limit == CallError(CallsOf(steps)[i])
  {
    var n := |steps| - 1;
    var last, before := steps[n], CallsOf(steps[..n]);
    if i < |before| {
      assert OnlyLastStepLimited(steps[..n], None);
      RateLimitEndsEntries(lookups, retries, steps[..n], None, i);
      assert false;
    } else {
      ErrorsEndSubmission(last.order, Supported(lookups, last.order), retries, last.calls, i - |before|);
    }
  }

  function OrdersOf(failures: seq<EntryFailure>): seq<EntryOrder> {
    seq(|failures|, i requires 0 <= i < |failures| => failures[i].order)
  }

  /** The failure records are, one for one and in order, for the orders that got no result. */
  lemma {:induction false} FailuresMatchResults(lookups: bool, retries: nat, steps: seq<Step>)
    requires Submissions(lookups, retries, steps)
    ensures OrdersOf(FailuresOf(steps)) == UnansweredOf(steps)
  {
    if steps == [] {
    } else {
      var n := |steps| - 1;
      FailuresMatchResults(lookups, retries, steps[..n]);
      var last := steps[n];
      OneVerdict(last.order, Supported(lookups, last.order), retries, last.calls);
      assert OrdersOf(FailuresOf(steps)) == OrdersOf(FailuresOf(steps[..n])) + OrdersOf(last.failures);
      assert OrdersOf(last.failures) == if last.result.None? then [last.order] else [];
    }
  }

  // ----- stops -----

  /** A stop is sent for an accepted entry of a known symbol, or when it has no entry beside it. */
  predicate Eligible(entries: seq<EntryOrder>, results: seq<Option<OrderView>>, index: nat)
    requires |results| == |entries|
  {
    index < |results| ==> results[index].Some? && entries[index].symbol.Some?
  }

  /** The stop as sent: its quantity is what the entry executed, when that is known and positive. */
  function EffectiveStop(stop: StopOrder, results: seq<Option<OrderView>>, index: nat): StopOrder {
    if index < |results| && results[index].Some? then
      var filled := ExecutedQuantity(results[index].value);
      if filled.Some? && filled.value > 0.0 && filled.value != stop.quantity then stop.(quantity := filled.value) else stop
    else stop
  }

  /** The stops due among the first `n`. */
  function StopsDue(stops: seq<StopOrder>, entries: seq<EntryOrder>, results: seq<Option<OrderView>>, n: nat): seq<StopOrder>
    requires |results| == |entries| && n <= |stops|
  {
    if n == 0 then []
    else
      var before := StopsDue(stops, entries, results, n - 1);
      if Eligible(entries, results, n - 1) then before + [EffectiveStop(stops[n - 1], results, n - 1)] else before
  }

  predicate Sends(c: Call, stop: StopOrder) {
    c.PostStop? && c.stop == stop
  }

  /** All these stops were sent, and none was rate limited. */
  predicate AllSent(due: seq<StopOrder>, calls: seq<Call>) {
    && |calls| == |due|
    && (calls != [] ==>
          && AllSent(due[..|due| - 1], calls[..|calls| - 1])
          && Sends(calls[|calls| - 1], due[|due| - 1]) && !HitRateLimit(calls[|calls| - 1]))
  }

  /** The calls send the due stops in order and end early only at a rate limit. */
  predicate StopPhase(due: seq<StopOrder>, calls: seq<Call>) {
    || AllSent(due, calls)
    || (var n := |calls| - 1;
        && 0 <= n < |due| && AllSent(due[..n], calls[..n])
        && Sends(calls[n], due[n]) && HitRateLimit(calls[n]))
  }

  lemma {:induction false} SendNext(due: seq<StopOrder>, calls: seq<Call>, stop: StopOrder, c: Call, all: seq<StopOrder>)
    requires AllSent(due, calls) && Sends(c, stop) && due + [stop] <= all
    ensures if HitRateLimit(c) then StopPhase(all, calls + [c]) else AllSent(due + [stop], calls + [c])
  {
    assert (calls + [c])[..|calls|] == calls && (due + [stop])[..|due|] == due;
    assert all[..|calls|] == due && all[|calls|] == (due + [stop])[|due|];
  }

  lemma {:induction false} DueGrows(stops: seq<StopOrder>, entries: seq<EntryOrder>, results: seq<Option<OrderView>>, k: nat, n: nat)
    requires |results| == |entries| && k <= n <= |stops|
    ensures StopsDue(stops, entries, results, k) <= StopsDue(stops, entries, results, n)
  {
    if k < n {
      DueGrows(stops, entries, results, k, n - 1);
    }
  }

  /** The responses to the entries, in order. */
  function Answers(results: seq<Option<OrderView>>): seq<OrderView> {
    if results == [] then []
    else
      var before, last := Answers(results[..|results| - 1]), results[|results| - 1];
      if last.Some? then before + [last.value] else before
  }

  /** The responses are those of the entries that have one, in order. */
  lemma {:induction false} AnswersGrow(results: seq<Option<OrderView>>, result: Option<OrderView>)
    ensures Answers([]) == []
    ensures result == None ==> Answers(results + [result]) == Answers(results)
    ensures forall o :: result == Some(o) ==> Answers(results + [result]) == Answers(results) + [o]
  {
    assert (results + [result])[..|results|] == results;
  }

  function Responses(calls: seq<Call>): seq<OrderView> {
    if calls == [] then []
    else
      var last := calls[|calls| - 1];
      Responses(calls[..|calls| - 1]) + (if last.PostStop? && last.placed.Accepted? then [last.placed.order] else [])
  }

  function StopFailures(calls: seq<Call>): seq<StopFailure> {
    if calls == [] then []
    else
      var last := calls[|calls| - 1];
      StopFailures(calls[..|calls| - 1])
      + (if last.PostStop? && last.placed.PostRaised? then [StopFailure(last.stop, HitRateLimit(last))] else [])
  }

  lemma {:induction false} SkipStop(stops: seq<StopOrder>, entries: seq<EntryOrder>, results: seq<Option<OrderView>>, index: nat)
    requires |results| == |entries| && index < |stops| && !Eligible(entries, results, index)
    ensures StopsDue(stops, entries, results, index + 1) == StopsDue(stops, entries, results, index)
  {
  }

  lemma {:induction false} NoLimitSeen(due: seq<StopOrder>, calls: seq<Call>, before: Option<ApiError>)
    requires AllSent(due, calls)
    ensures StopPhase(due, calls) && (calls == [] || RateLimitAfter(Last(calls), before) == before)
  {
  }

  /** A due stop that is not rate limited: the phase goes on. */
  lemma {:induction false} StopGoesOn(stops: seq<StopOrder>, entries: seq<EntryOrder>, results: seq<Option<OrderView>>, index: nat, calls: seq<Call>, reply: PostReply)
    requires |results| == |entries| && index < |stops| && Eligible(entries, results, index)
    requires AllSent(StopsDue(stops, entries, results, index), calls)
    requires reply.PostRaised? ==> !RateLimited(reply.error)
    ensures var stop := EffectiveStop(stops[index], results, index);
            var longer := calls + [PostStop(stop, reply)];
            && AllSent(StopsDue(stops, entries, results, index + 1), longer)
            && Responses(longer) == (if reply.Accepted? then Responses(calls) + [reply.order] else Responses(calls))
            && StopFailures(longer) == (if reply.PostRaised? then StopFailures(calls) + [StopFailure(stop, false)] else StopFailures(calls))
  {
    var stop := EffectiveStop(stops[index], results, index);
    var c := PostStop(stop, reply);
    SendNext(StopsDue(stops, entries, results, index), calls, stop, c, StopsDue(stops, entries, results, index + 1));
    assert (calls + [c])[..|calls|] == calls;
  }

  /** A due stop that is rate limited: the phase ends. */
  lemma {:induction false} StopEnds(stops: seq<StopOrder>, entries: seq<EntryOrder>, results: seq<Option<OrderView>>, index: nat, calls: seq<Call>, reply: PostReply)
    requires |results| == |entries| && index < |stops| && Eligible(entries, results, index)
    requires AllSent(StopsDue(stops, entries, results, index), calls)
    requires reply.PostRaised? && RateLimited(reply.error)
    ensures var stop := EffectiveStop(stops[index], results, index);
            var longer := calls + [PostStop(stop, reply)];
            && StopPhase(StopsDue(stops, entries, results, |stops|), longer)
            && Responses(longer) == Responses(calls)
            && StopFailures(longer) == StopFailures(calls) + [StopFailure(stop, true)]
  {
    var stop := EffectiveStop(stops[index], results, index);
    var c := PostStop(stop, reply);
    DueGrows(stops, entries, results, index + 1, |stops|);
    SendNext(StopsDue(stops, entries, results, index), calls, stop, c, StopsDue(stops, entries, results, |stops|));
    assert (calls + [c])[..|calls|] == calls;
  }

  /** Every stop that was sent is answered by one response or one failure; with no rate limit every
      due stop was sent. */
  lemma {:induction false} OneAnswerPerStop(due: seq<StopOrder>, calls: seq<Call>)
    requires StopPhase(due, calls)
    ensures |Responses(calls)| + |StopFailures(calls)| == |calls| <= |due|
    ensures calls == [] || !HitRateLimit(calls[|calls| - 1]) ==> |calls| == |due|
  {
    if AllSent(due, calls) {
      AnswersAddUp(due, calls);
    } else {
      AnswersAddUp(due[..|calls| - 1], calls[..|calls| - 1]);
    }
  }

  lemma {:induction false} AnswersAddUp(due: seq<StopOrder>, calls: seq<Call>)
    requires AllSent(due, calls)
    ensures |Responses(calls)| + |StopFailures(calls)| == |calls|
  {
    if calls == [] {
    } else {
      AnswersAddUp(due[..|due| - 1], calls[..|calls| - 1]);
    }
  }

  lemma {:induction false} SentInOrder(due: seq<StopOrder>, calls: seq<Call>, j: nat)
    requires AllSent(due, calls) && j < |calls|
    ensures Sends(calls[j], due[j]) && !HitRateLimit(calls[j])
  {
    if j < |calls| - 1 {
      SentInOrder(due[..|due| - 1], calls[..|calls| - 1], j);
    }
  }

  /** The stops sent are the due ones, in order, whether or not a rate limit cuts the phase; only the last may meet one. */
  lemma {:induction false} SentStopIsDue(due: seq<StopOrder>, calls: seq<Call>, j: nat)
    requires StopPhase(due, calls) && j < |calls|
    ensures j < |due| && calls[j].PostStop? && calls[j].stop == due[j]
    ensures HitRateLimit(calls[j]) ==> j == |calls| - 1
  {
    if AllSent(due, calls) {
      SentInOrder(due, calls, j);
    } else if j < |calls| - 1 {
      SentInOrder(due[..|calls| - 1], calls[..|calls| - 1], j);
    }
  }

  function AcceptedCount(results: seq<Option<OrderView>>): nat {
    if results == [] then 0
    else AcceptedCount(results[..|results| - 1]) + (if results[|results| - 1].Some? then 1 else 0)
  }

  /** A due stop protects an accepted entry: same place in the plan, executed quantity if positive. */
  lemma {:induction false} DueStopHasAcceptedEntry(stops: seq<StopOrder>, entries: seq<EntryOrder>, results: seq<Option<OrderView>>, n: nat, j: nat)
    returns (i: nat)
    requires |results| == |entries| && n <= |stops| && |stops| <= |entries|
    requires j < |StopsDue(stops, entries, results, n)|
    ensures i < n && results[i].Some? && entries[i].symbol.Some?
    ensures var sent := StopsDue(stops, entries, results, n)[j];
            var filled := ExecutedQuantity(results[i].value);
            && sent == stops[i].(quantity := sent.quantity)
            && sent.quantity == if filled.Some? && filled.value > 0.0 then filled.value else stops[i].quantity
  {
    if j < |StopsDue(stops, entries, results, n - 1)| {
      i := DueStopHasAcceptedEntry(stops, entries, results, n - 1, j);
    } else {
      i := n - 1;
    }
  }

  /** In a plan where every entry names its symbol, exactly the accepted entries have a stop due. */
  lemma {:induction false} OneStopPerAcceptedEntry(stops: seq<StopOrder>, entries: seq<EntryOrder>, results: seq<Option<OrderView>>, n: nat)
    requires |results| == |entries| == |stops| && n <= |stops|
    requires forall e :: e in entries ==> e.symbol.Some?
    ensures |StopsDue(stops, entries, results, n)| == AcceptedCount(results[..n])
  {
    if n > 0 {
      OneStopPerAcceptedEntry(stops, entries, results, n - 1);
      assert results[..n][..n - 1] == results[..n - 1];
      assert entries[n - 1] in entries;
    }
  }

  // ----- a rate limit among the entries -----

  /** What a rate limit among the entries of a built plan does: the rate-limited call is the last call of the whole plan
      exactly when no entry has been accepted. */
  lemma {:induction false} EntryLimitStopsAll(lookups: bool, retries: nat, stops: seq<StopOrder>, entries: seq<EntryOrder>,
                                              results: seq<Option<OrderView>>, steps: seq<Step>, limit: Option<ApiError>, stopCalls: seq<Call>, i: nat)
    requires |results| == |entries| == |stops| && forall e :: e in entries ==> e.symbol.Some?
    requires EntryPhase(entries, results, steps) && Submissions(lookups, retries, steps) && OnlyLastStepLimited(steps, limit)
    requires StopPhase(StopsDue(stops, entries, results, |stops|), stopCalls)
    requires i < |CallsOf(steps)| && HitRateLimit(CallsOf(steps)[i])
    ensures i == |CallsOf(steps) + stopCalls| - 1 <==> AcceptedCount(results) == 0
  {
    RateLimitEndsEntries(lookups, retries, steps, limit, i);
    OneStopPerAcceptedEntry(stops, entries, results, |stops|);
    assert results[..|stops|] == results;
  }

  /** An entry that is looked up, not found and posted once. */
  function OneTry(e: EntryOrder, reply: PostReply): seq<Call>
    requires Supported(true, e)
  {
    [Lookup(e.clientId.value, Nothing), PostEntry(e, reply)]
  }

  lemma {:induction false} OneTryIsSubmission(retries: nat, e: EntryOrder, reply: PostReply) returns (s: Step)
    requires Supported(true, e) && (reply.PostRaised? ==> !Transient(reply.error))
    ensures s.order == e && s.calls == OneTry(e, reply) && Submission(true, retries, s)
    ensures s.result == if reply.Accepted? then Some(reply.order) else None
  {
    var calls := OneTry(e, reply);
    s := Step(e, calls, Conclusion(e, retries, calls).0, Conclusion(e, retries, calls).1);
  }

  lemma {:induction false} LimitedEntryPhase(retries: nat, limit: ApiError, order: OrderView, a: EntryOrder, b: EntryOrder) returns (steps: seq<Step>)
    requires RateLimited(limit) && Supported(true, a) && Supported(true, b)
    ensures EntryPhase([a, b], [Some(order), None], steps) && Submissions(true, retries, steps) && OnlyLastStepLimited(steps, Some(limit))
    ensures CallsOf(steps) == OneTry(a, Accepted(order)) + OneTry(b, PostRaised(limit))
  {
    var s := OneTryIsSubmission(retries, a, Accepted(order));
    var limited := PostEntry(b, PostRaised(limit));
    RateLimitIsNotTransient(limited);
    assert CallError(limited) == Some(limit) && CallError(PostEntry(a, Accepted(order))) == None;
    var t := OneTryIsSubmission(retries, b, PostRaised(limit));
    steps := [s, t];
    assert steps[..1] == [s] && [s][..0] == [];
    assert CallsOf([s]) == [] + s.calls == s.calls;
  }

  lemma {:induction false} FirstStopGoesOut(entries: seq<EntryOrder>, order: OrderView, first: StopOrder, second: StopOrder) returns (stopCalls: seq<Call>)
    requires |entries| == 2 && entries[0].symbol.Some?
    ensures StopPhase(StopsDue([first, second], entries, [Some(order), None], 2), stopCalls) && |stopCalls| == 1 && stopCalls[0].PostStop?
  {
    var results := [Some(order), None];
    var due := EffectiveStop(first, results, 0);
    assert StopsDue([first, second], entries, results, 1) == [due];
    assert StopsDue([first, second], entries, results, 2) == [due];
    var c := PostStop(due, Accepted(order));
    assert !HitRateLimit(c) by { assert CallError(c) == None; }
    SendNext([], [], due, c, [due]);
    stopCalls := [c];
    assert [] + [c] == stopCalls && [] + [due] == [due];
  }

  /** The shortest plan that goes on after the limit, with any two entries that can be looked up: the first is not found, posted
      and accepted, the second is not found and its POST meets a rate limit, and the stop of the first is sent all the same. */
  lemma {:induction false} StopFollowsEntryLimit(retries: nat, limit: ApiError, order: OrderView, a: EntryOrder, b: EntryOrder,
                                                 first: StopOrder, second: StopOrder) returns (steps: seq<Step>, stopCalls: seq<Call>)
    requires RateLimited(limit) && Supported(true, a) && Supported(true, b)
    ensures EntryPhase([a, b], [Some(order), None], steps) && Submissions(true, retries, steps) && OnlyLastStepLimited(steps, Some(limit))
    ensures CallsOf(steps) == OneTry(a, Accepted(order)) + OneTry(b, PostRaised(limit))
    ensures StopPhase(StopsDue([first, second], [a, b], [Some(order), None], 2), stopCalls) && |stopCalls| == 1 && stopCalls[0].PostStop?
  {
    steps := LimitedEntryPhase(retries, limit, order, a, b);
    stopCalls := FirstStopGoesOut([a, b], order, first, second);
  }
}
