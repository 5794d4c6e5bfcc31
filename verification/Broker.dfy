/** The broker: submits entry orders so that a lost reply never books an order twice, pairs stops
    with the entries they protect, and replaces stops without uncovering a symbol. */
module Broker {
  import opened Common
  import opened Exchange
  import opened EntryProtocol
  import opened PlanProtocol
  import opened StopProtocol
  import opened Orders
  import opened ClientIds

  class BinanceBroker {
    const client: Client
    const retries: nat            // the number of entry retry delays
    const rulesTtl: int           // how long fetched exchange rules stay fresh
    var lastEntryFailures: seq<EntryFailure>
    var lastStopFailures: seq<StopFailure>
    var lastRateLimit: Option<ApiError>
    var lastReplacementFailures: seq<ReplacementFailure>
    var rules: Option<SymbolRules>
    var rulesLoadedAt: int

    constructor (client: Client, retries: nat, rulesTtl: int)
      ensures this.client == client && this.retries == retries && this.rulesTtl == rulesTtl
    {
      this.client, this.retries, this.rulesTtl := client, retries, rulesTtl;
      lastEntryFailures, lastStopFailures, lastReplacementFailures, lastRateLimit := [], [], [], None;
      rules, rulesLoadedAt := None, 0;
    }

    method FetchExistingEntryOrder(order: EntryOrder) returns (r: Result<LookupState, ApiError>, ghost calls: seq<Call>)
      modifies client
      ensures client.log == old(client.log) + calls
      ensures if Supported(client.lookups, order)
              then |calls| == 1 && calls[0].Lookup? && calls[0].id == order.clientId.value && r == Reading(calls[0])
              else calls == [] && r == Ok(Unsupported)
    {
      if !client.lookups || order.clientId.None? || order.symbol.None? {
        return Ok(Unsupported), [];
      }
      var reply := client.FetchOrder(order.clientId.value);
      calls := [Lookup(order.clientId.value, reply)];
      if reply.LookupRaised? && RateLimited(reply.error) {
        return Err(reply.error), calls;
      }
      return Ok(Classify(reply)), calls;
    }

    /** One submit and, after a transient error, the lookup that may recover the order.
        The result is absent when the submission stays open. */
    method AttemptEntry(order: EntryOrder, attempt: nat) returns (r: Option<Option<OrderView>>, ghost calls: seq<Call>)
      modifies `lastEntryFailures, `lastRateLimit, client
      ensures client.log == old(client.log) + calls
      ensures Attempt(order, Supported(client.lookups, order), calls, r.None?)
      ensures var (result, failures) := Verdict(order, retries, attempt + 1, Last(calls));
              if r.None? then lastEntryFailures == old(lastEntryFailures)
              else r.value == result && lastEntryFailures == old(lastEntryFailures) + failures
      ensures lastRateLimit == RateLimitAfter(Last(calls), old(lastRateLimit))
    {
      var reply := client.NewOrder(order);
      calls := [PostEntry(order, reply)];
      if reply.Accepted? {
        return Some(Some(reply.order)), calls;
      }
      if RateLimited(reply.error) {
        lastRateLimit := Some(reply.error);
        lastEntryFailures := lastEntryFailures + [EntryFailure(order, SubmitRateLimit, Some(attempt + 1), true)];
        return Some(None), calls;
      }
      if !Transient(reply.error) {
        lastEntryFailures := lastEntryFailures + [EntryFailure(order, SubmitFailed, Some(attempt + 1), false)];
        return Some(None), calls;
      }
      var recovered;
      ghost var more;
      recovered, more := FetchExistingEntryOrder(order);
      calls := calls + more;
      if recovered.Err? {
        lastRateLimit := Some(recovered.error);
        lastEntryFailures := lastEntryFailures + [EntryFailure(order, StatusRateLimit, Some(attempt + 1), true)];
        return Some(None), calls;
      }
      if recovered.value.Found? {
        return Some(Some(recovered.value.order)), calls;
      }
      if recovered.value.Unknown? || recovered.value.Unsupported? {
        lastEntryFailures := lastEntryFailures + [EntryFailure(order, SubmitStatusUnknown, Some(attempt + 1), true)];
        return Some(None), calls;
      }
      return None, calls;
    }

    method SubmitEntryOrder(order: EntryOrder) returns (response: Option<OrderView>, ghost calls: seq<Call>)
      modifies `lastEntryFailures, `lastRateLimit, client
      ensures client.log == old(client.log) + calls
      ensures Complete(order, Supported(client.lookups, order), retries, calls)
      ensures var (result, failures) := Conclusion(order, retries, calls);
              response == result && lastEntryFailures == old(lastEntryFailures) + failures
      ensures lastRateLimit == RateLimitAfter(Last(calls), old(lastRateLimit))
    {
      ghost var supported := Supported(client.lookups, order);
      var lookup;
      lookup, calls := FetchExistingEntryOrder(order);
      if lookup.Err? {
        lastRateLimit := Some(lookup.error);
        lastEntryFailures := lastEntryFailures + [EntryFailure(order, StatusRateLimit, None, true)];
        return None, calls;
      }
      if lookup.value.Found? {
        return Some(lookup.value.order), calls;
      }
      if lookup.value.Unknown? {
        lastEntryFailures := lastEntryFailures + [EntryFailure(order, StatusUnknown, None, true)];
        return None, calls;
      }
      var attempts := retries + 1;
      for attempt := 0 to attempts
        invariant client.log == old(client.log) + calls
        invariant lastEntryFailures == old(lastEntryFailures) && lastRateLimit == old(lastRateLimit)
        invariant if supported then StillOpen(order, 2 * attempt + 1, calls) else attempt == 0 && calls == []
      {
        var r;
        ghost var more;
        r, more := AttemptEntry(order, attempt);
        AttemptConcludes(order, supported, retries, attempt, calls, more, r.None?);
        calls := calls + more;
        if r.Some? {
          return r.value, calls;
        }
      }
      Exhausted(order, retries, calls);
      lastEntryFailures := lastEntryFailures + [EntryFailure(order, SubmitFailed, Some(attempts), true)];
      return None, calls;
    }

    /** The entry phase. A rate limit ends it: later orders get no call, no result and no failure record. */
    method SubmitEntries(orders: seq<EntryOrder>) returns (results: seq<Option<OrderView>>, ghost steps: seq<Step>)
      requires lastEntryFailures == [] && lastRateLimit == None
      modifies `lastEntryFailures, `lastRateLimit, client
      ensures client.log == old(client.log) + CallsOf(steps) && lastEntryFailures == FailuresOf(steps)
      ensures EntryPhase(orders, results, steps)
      ensures Submissions(client.lookups, retries, steps)
      ensures lastRateLimit.None? ==> |steps| == |orders|
      ensures OnlyLastStepLimited(steps, lastRateLimit)
    {
      results, steps := [], [];
      for i := 0 to |orders|
        invariant client.log == old(client.log) + CallsOf(steps)
        invariant EntriesSoFar(client.lookups, retries, orders, i, results, steps, lastRateLimit, lastEntryFailures)
      {
        if lastRateLimit.Some? {
          EntriesSkip(client.lookups, retries, orders, i, results, steps, lastRateLimit, lastEntryFailures);
          results := results + [None];
        } else {
          ghost var failures := lastEntryFailures;
          var response;
          ghost var calls;
          response, calls := SubmitEntryOrder(orders[i]);
          ghost var step := EntriesGoOn(client.lookups, retries, orders, i, results, steps, failures, calls);
          Associative(old(client.log), CallsOf(steps), calls);
          results, steps := results + [response], steps + [step];
        }
      }
      assert orders[..|orders|] == orders;
    }

    /** Sends one stop and records its failure, if it fails. */
    method SendStop(stop: StopOrder) returns (reply: PostReply)
      modifies `lastStopFailures, `lastRateLimit, client
      ensures client.log == old(client.log) + [PostStop(stop, reply)]
      ensures lastStopFailures == if reply.Accepted? then old(lastStopFailures) else old(lastStopFailures) + [StopFailure(stop, RateLimited(reply.error))]
      ensures lastRateLimit == RateLimitAfter(PostStop(stop, reply), old(lastRateLimit))
    {
      reply := client.NewAlgoOrder(stop);
      if reply.Accepted? {
        return;
      }
      if RateLimited(reply.error) {
        lastRateLimit := Some(reply.error);
      }
      lastStopFailures := lastStopFailures + [StopFailure(stop, RateLimited(reply.error))];
    }

    /** The stop phase: one order per due stop. Only a rate limit among the stops themselves ends it. */
    method SubmitStops(stops: seq<StopOrder>, entries: seq<EntryOrder>, results: seq<Option<OrderView>>)
      returns (responses: seq<OrderView>, ghost calls: seq<Call>)
      requires |results| == |entries|
      requires lastStopFailures == []
      modifies `lastStopFailures, `lastRateLimit, client
      ensures client.log == old(client.log) + calls
      ensures StopPhase(StopsDue(stops, entries, results, |stops|), calls)
      ensures responses == Responses(calls) && lastStopFailures == StopFailures(calls)
      ensures lastRateLimit == if calls == [] then old(lastRateLimit) else RateLimitAfter(Last(calls), old(lastRateLimit))
    {
      responses, calls := [], [];
      for index := 0 to |stops|
        invariant client.log == old(client.log) + calls
        invariant AllSent(StopsDue(stops, entries, results, index), calls)
        invariant responses == Responses(calls) && lastStopFailures == StopFailures(calls)
        invariant lastRateLimit == old(lastRateLimit)
      {
        if index < |results| && (results[index].None? || entries[index].symbol.None?) {
          SkipStop(stops, entries, results, index);
          continue;
        }
        var effective := EffectiveStop(stops[index], results, index);
        var reply := SendStop(effective);
        Associative(old(client.log), calls, [PostStop(effective, reply)]);
        if reply.PostRaised? && RateLimited(reply.error) {
          StopEnds(stops, entries, results, index, calls, reply);
          return responses, calls + [PostStop(effective, reply)];
        }
        StopGoesOn(stops, entries, results, index, calls, reply);
        calls := calls + [PostStop(effective, reply)];
        if reply.Accepted? {
          responses := responses + [reply.order];
        }
      }
      NoLimitSeen(StopsDue(stops, entries, results, |stops|), calls, lastRateLimit);
    }

    method SubmitExecutionPlan(plan: ExecutionPlan) returns (responses: seq<OrderView>, ghost results: seq<Option<OrderView>>, ghost steps: seq<Step>, ghost stopCalls: seq<Call>)
      modifies `lastEntryFailures, `lastStopFailures, `lastRateLimit, client
      ensures client.log == old(client.log) + CallsOf(steps) + stopCalls
      ensures EntryPhase(plan.entryOrders, results, steps) && Submissions(client.lookups, retries, steps)
      ensures StopPhase(StopsDue(plan.stopOrders, plan.entryOrders, results, |plan.stopOrders|), stopCalls)
      ensures responses == Answers(results) + Responses(stopCalls)
      ensures lastEntryFailures == FailuresOf(steps) && lastStopFailures == StopFailures(stopCalls)
      ensures exists limit ::
                && OnlyLastStepLimited(steps, limit)
                && (limit.None? ==> |steps| == |plan.entryOrders|)
                && lastRateLimit == if stopCalls == [] then limit else RateLimitAfter(Last(stopCalls), limit)
    {
      lastEntryFailures, lastStopFailures, lastRateLimit := [], [], None;
      var entryResults;
      entryResults, steps := SubmitEntries(plan.entryOrders);
      responses := Answers(entryResults);
      var stopResponses;
      stopResponses, stopCalls := SubmitStops(plan.stopOrders, plan.entryOrders, entryResults);
      responses, results := responses + stopResponses, entryResults;
    }

    // ----- stop replacement -----

    method ExchangeSymbolForReplacement(symbol: string) returns (r: Result<Option<ExchangeSymbol>, ApiError>, ghost read: Option<RulesReply>)
      modifies `rules, `rulesLoadedAt, client
      ensures client.log == old(client.log) + (if read.Some? then [ReadRules(read.value)] else [])
      ensures if read.Some? && read.value.RulesRaised? then r == Err(read.value.error) else r.Ok?
      ensures r.Ok? && r.value.Some? ==> r.value.value.symbol == symbol
      ensures read.Some? && read.value.Rules? ==> r == Ok(if symbol in read.value.rules then Some(read.value.rules[symbol]) else None)
    {
      var now: int :| true;
      read := None;
      if rules.None? || now - rulesLoadedAt >= rulesTtl {
        if !client.serves {
          return Ok(None), None;
        }
        var reply := client.FetchExchangeInfo();
        read := Some(reply);
        if reply.RulesRaised? {
          return Err(reply.error), read;
        }
        rules, rulesLoadedAt := Some(reply.rules), now;
      }
      return Ok(if symbol in rules.value then Some(rules.value[symbol]) else None), read;
    }

    method CancelOldStops(symbol: string, targets: seq<AlgoOrder>) returns (ghost cancels: seq<Call>)
      modifies `lastReplacementFailures, `lastRateLimit, client
      ensures client.log == old(client.log) + cancels
      ensures CancelRun(targets, cancels)
      ensures lastReplacementFailures == old(lastReplacementFailures) + CancelFailures(symbol, cancels)
      ensures lastRateLimit == if cancels == [] then old(lastRateLimit) else RateLimitAfter(Last(cancels), old(lastRateLimit))
    {
      cancels := [];
      for k := 0 to |targets|
        invariant client.log == old(client.log) + cancels
        invariant AllCancelled(targets[..k], cancels)
        invariant lastReplacementFailures == old(lastReplacementFailures) + CancelFailures(symbol, cancels)
        invariant lastRateLimit == old(lastRateLimit)
      {
        var error := client.CancelAlgoOrder(targets[k]);
        ghost var c := CancelStop(targets[k], error);
        CancelNext(targets, k, cancels, c);
        AppendCancel(symbol, cancels, c);
        cancels := cancels + [c];
        if error.Some? {
          if RateLimited(error.value) {
            lastRateLimit := error;
            lastReplacementFailures := lastReplacementFailures + [ReplacementFailure(symbol, CancelRateLimit)];
            return;
          }
          lastReplacementFailures := lastReplacementFailures + [ReplacementFailure(symbol, CancelFailed(targets[k]))];
        }
      }
      assert targets[..|targets|] == targets;
    }

    /** Lists the symbol's open orders and reads its rules; unless the pass ends here, nothing is recorded. */
    method ReadForReplacement(r: Replacement) returns (pass: Pass, listing: ListReply, rulesFor: Option<ExchangeSymbol>, ghost read: Option<RulesReply>)
      requires lastRateLimit == None
      modifies `lastReplacementFailures, `lastRateLimit, `rules, `rulesLoadedAt, client
      ensures var s := Swap(listing, read, None, None, []);
              && client.log == old(client.log) + OpeningReads(r.symbol, s)
              && (pass == GoOn <==> Reached(s))
              && (pass != GoOn ==> Proper(r, s) && pass == PassAfter(r.symbol, s))
              && lastReplacementFailures == old(lastReplacementFailures) + (if pass == GoOn then [] else SwapFailures(r.symbol, s))
              && lastRateLimit == RateLimitAfter(LastCallOf(r.symbol, s), None)
      ensures pass.Halt? <==> lastRateLimit.Some?
      ensures rulesFor.Some? ==> rulesFor.value.symbol == r.symbol
    {
      rulesFor, read := None, None;
      listing := client.FetchOpenAlgoOrders(r.symbol);
      if listing.ListRaised? {
        pass := RecordReadError(r.symbol, listing.error);
        return;
      }
      var found;
      found, read := ExchangeSymbolForReplacement(r.symbol);
      if found.Err? {
        pass := RecordReadError(r.symbol, found.error);
        return;
      }
      pass, rulesFor := GoOn, found.value;
    }

    method RecordReadError(symbol: string, error: ApiError) returns (pass: Pass)
      requires lastRateLimit == None
      modifies `lastReplacementFailures, `lastRateLimit
      ensures pass == if RateLimited(error) then Halt else Raise(error)
      ensures lastRateLimit == if RateLimited(error) then Some(error) else None
      ensures lastReplacementFailures
           == old(lastReplacementFailures) + (if RateLimited(error) then [ReplacementFailure(symbol, ReplacementRateLimit)] else [])
    {
      if RateLimited(error) {
        lastRateLimit := Some(error);
        lastReplacementFailures := lastReplacementFailures + [ReplacementFailure(symbol, ReplacementRateLimit)];
        return Halt;
      }
      pass := Raise(error);
    }

    /** Replaces the stop of one symbol: list, place the new stop, then cancel the old ones. */
    method ReplaceStop(r: Replacement, stamp: string, token: string) returns (pass: Pass, response: Option<OrderView>, ghost s: Swap)
      requires lastRateLimit == None
      modifies `lastReplacementFailures, `lastRateLimit, `rules, `rulesLoadedAt, client
      ensures Proper(r, s)
      ensures client.log == old(client.log) + (OpeningReads(r.symbol, s) + OrderCalls(s))
      ensures lastReplacementFailures == old(lastReplacementFailures) + SwapFailures(r.symbol, s)
      ensures SwapResponses(s) == if response.Some? then [response.value] else []
      ensures pass == PassAfter(r.symbol, s) && (pass.Halt? <==> lastRateLimit.Some?)
      ensures lastRateLimit == RateLimitAfter(LastCallOf(r.symbol, s), None)
    {
      var listing, rulesFor;
      ghost var read;
      pass, listing, rulesFor, read := ReadForReplacement(r);
      response, s := None, Swap(listing, read, None, None, []);
      if pass != GoOn {
        return;
      }
      var clientId := ReplacementStopId(stamp, token);
      assert StrategyId(Some(clientId));
      pass, response, s := PlaceAndCancel(r, clientId, listing, rulesFor, read);
      Associative(old(client.log), OpeningReads(r.symbol, s), OrderCalls(s));
    }

    method PlaceAndCancel(r: Replacement, clientId: string, listing: ListReply, rulesFor: Option<ExchangeSymbol>, ghost read: Option<RulesReply>)
      returns (pass: Pass, response: Option<OrderView>, ghost s: Swap)
      requires lastRateLimit == None
      requires listing.Listed? && (read.Some? ==> read.value.Rules?) && StrategyId(Some(clientId))
      requires rulesFor.Some? ==> rulesFor.value.symbol == r.symbol
      modifies `lastReplacementFailures, `lastRateLimit, client
      ensures Proper(r, s) && s.listing == listing && s.rules == read
      ensures client.log == old(client.log) + OrderCalls(s)
      ensures lastReplacementFailures == old(lastReplacementFailures) + SwapFailures(r.symbol, s)
      ensures SwapResponses(s) == if response.Some? then [response.value] else []
      ensures pass == PassAfter(r.symbol, s) && (pass.Halt? <==> lastRateLimit.Some?)
      ensures lastRateLimit == RateLimitAfter(LastCallOf(r.symbol, s), None)
    {
      pass, response := GoOn, None;
      var order := ReplacementOrder(r, clientId, rulesFor);
      s := Swap(listing, read, rulesFor, None, []);
      if order.Err? {
        lastReplacementFailures := lastReplacementFailures + [ReplacementFailure(r.symbol, NotBuilt)];
      } else {
        var reply := client.NewAlgoOrder(order.value);
        ghost var cancels := [];
        if reply.PostRaised? {
          pass := RecordPlacingError(r.symbol, reply.error);
        } else {
          cancels := CancelOldStops(r.symbol, StrategyStops(listing.orders));
          pass, response := if lastRateLimit.Some? then Halt else GoOn, Some(reply.order);
        }
        Associative(old(client.log), [PostStop(order.value, reply)], cancels);
        s := Swap(listing, read, rulesFor, Some((order.value, reply)), cancels);
      }
    }

    method RecordPlacingError(symbol: string, error: ApiError) returns (pass: Pass)
      modifies `lastReplacementFailures, `lastRateLimit
      ensures pass == if RateLimited(error) then Halt else GoOn
      ensures lastRateLimit == if RateLimited(error) then Some(error) else old(lastRateLimit)
      ensures lastReplacementFailures
           == old(lastReplacementFailures) + [ReplacementFailure(symbol, if RateLimited(error) then ReplacementRateLimit else NotPlaced)]
    {
      if RateLimited(error) {
        lastRateLimit := Some(error);
        lastReplacementFailures := lastReplacementFailures + [ReplacementFailure(symbol, ReplacementRateLimit)];
        return Halt;
      }
      lastReplacementFailures := lastReplacementFailures + [ReplacementFailure(symbol, NotPlaced)];
      pass := GoOn;
    }

    /** Replaces stops one after the other. `ids` gives each replacement its id parts. The pass ends at a
        rate limit, and any other error while listing or reading rules is raised. */
    method ReplaceStopOrders(replacements: seq<Replacement>, ids: seq<(string, string)>)
      returns (result: Result<seq<OrderView>, ApiError>, ghost swaps: seq<Swap>)
      requires |ids| == |replacements|
      modifies `lastReplacementFailures, `lastRateLimit, `rules, `rulesLoadedAt, client
      ensures ProperPass(replacements, swaps)
      ensures client.log == old(client.log) + PassCalls(replacements, swaps)
      ensures lastReplacementFailures == PassFailures(replacements, swaps)
      ensures result.Ok? ==> result.value == PassResponses(swaps)
      ensures PassOf(replacements, swaps) == GoOn ==> |swaps| == |replacements|
      ensures match PassOf(replacements, swaps)
              case Raise(e) => result == Err(e) && lastRateLimit == None
              case Halt => result.Ok? && lastRateLimit.Some?
              case GoOn => result.Ok? && lastRateLimit == None
    {
      var responses: seq<OrderView> := [];
      lastReplacementFailures, lastRateLimit, swaps := [], None, [];
      for i := 0 to |replacements|
        invariant |swaps| == i && ProperPass(replacements, swaps)
        invariant PassOf(replacements, swaps) == GoOn
        invariant client.log == old(client.log) + PassCalls(replacements, swaps)
        invariant lastReplacementFailures == PassFailures(replacements, swaps)
        invariant responses == PassResponses(swaps)
        invariant lastRateLimit == None
      {
        var pass, response;
        ghost var s;
        pass, response, s := ReplaceStop(replacements[i], ids[i].0, ids[i].1);
        SwapShape(replacements[i].symbol, s);
        AppendSwap(replacements, swaps, s);
        Associative(old(client.log), PassCalls(replacements, swaps), SwapCalls(replacements[i].symbol, s));
        swaps := swaps + [s];
        if response.Some? {
          responses := responses + [response.value];
        }
        if pass.Raise? {
          return Err(pass.error), swaps;
        }
        if pass.Halt? {
          return Ok(responses), swaps;
        }
      }
      return Ok(responses), swaps;
    }
  }
}
