/** Safety over whole runs: any sequence of plan submissions and stop-replacement passes. */
module BrokerRuns {
  import opened Common
  import opened Exchange
  import opened EntryProtocol
  import opened PlanProtocol
  import opened StopProtocol
  import opened Orders
  import opened Broker

  /** One use of the broker, with the calls it made: what `SubmitExecutionPlan` and `ReplaceStopOrders` promise. */
  datatype Segment =
    | Submitted(retries: nat, steps: seq<Step>, due: seq<StopOrder>, stopCalls: seq<Call>)
    | Replaced(replacements: seq<Replacement>, swaps: seq<Swap>)

  ghost predicate Proper(g: Segment) {
    match g
    case Submitted(retries, steps, due, stopCalls) =>
      && Submissions(true, retries, steps)
      && (forall s :: s in steps ==> Supported(true, s.order))
      && StopPhase(due, stopCalls)
    case Replaced(replacements, swaps) => ProperPass(replacements, swaps)
  }

  ghost function SegmentCalls(g: Segment): seq<Call>
    requires Proper(g)
  {
    match g
    case Submitted(_, steps, _, stopCalls) => CallsOf(steps) + stopCalls
    case Replaced(replacements, swaps) => PassCalls(replacements, swaps)
  }

  ghost predicate ProperRun(run: seq<Segment>) {
    forall g :: g in run ==> Proper(g)
  }

  ghost function RunCalls(run: seq<Segment>): seq<Call>
    requires ProperRun(run)
  {
    if run == [] then [] else RunCalls(run[..|run| - 1]) + SegmentCalls(run[|run| - 1])
  }

  // ----- from the broker's methods to runs -----

  datatype Use = SubmitPlan(plan: ExecutionPlan) | ReplaceStops(replacements: seq<Replacement>, ids: seq<(string, string)>)

  /** Every entry of a plan names its symbol and its client id, as those of a built plan do. */
  predicate Named(u: Use) {
    match u
    case SubmitPlan(plan) => forall e <- plan.entryOrders :: Supported(true, e)
    case ReplaceStops(replacements, ids) => |ids| == |replacements|
  }

  /** What a built plan promises about names. */
  lemma {:induction false} BuiltPlanIsNamed(c: PlanContext, intents: seq<Intent>)
    requires PlannedPairs(c, intents, |intents|).Ok?
    ensures Named(SubmitPlan(PlanOf(PlannedPairs(c, intents, |intents|).value)))
  {
    PlanIsSound(c, intents, |intents|);
    var pairs := PlannedPairs(c, intents, |intents|).value;
    forall e | e in PlanOf(pairs).entryOrders ensures Supported(true, e) {
      var i :| 0 <= i < |pairs| && pairs[i].1.entry == e;
      assert SoundPair(c, intents[pairs[i].0], pairs[i].0, pairs[i].1);
    }
  }

  lemma {:induction false} PlanIsSegment(retries: nat, entries: seq<EntryOrder>, results: seq<Option<OrderView>>, steps: seq<Step>, due: seq<StopOrder>, stopCalls: seq<Call>)
    requires EntryPhase(entries, results, steps) && Submissions(true, retries, steps) && StopPhase(due, stopCalls)
    requires forall e <- entries :: Supported(true, e)
    ensures Proper(Submitted(retries, steps, due, stopCalls))
  {
    forall s | s in steps ensures Supported(true, s.order) {
      var i :| 0 <= i < |steps| && steps[i] == s;
      assert OrderOf(steps[i]) == entries[i];
    }
  }

  /** One use of the broker is a proper segment, and its calls are what the log grows by. */
  method UseOnce(broker: BinanceBroker, u: Use) returns (ghost g: Segment)
    requires broker.client.lookups && Named(u)
    modifies broker, broker.client
    ensures Proper(g) && broker.client.log == old(broker.client.log) + SegmentCalls(g)
  {
    match u {
      case SubmitPlan(plan) =>
        var responses;
        ghost var results, steps, stopCalls;
        responses, results, steps, stopCalls := broker.SubmitExecutionPlan(plan);
        ghost var due := StopsDue(plan.stopOrders, plan.entryOrders, results, |plan.stopOrders|);
        PlanIsSegment(broker.retries, plan.entryOrders, results, steps, due, stopCalls);
        g := Submitted(broker.retries, steps, due, stopCalls);
        Associative(old(broker.client.log), CallsOf(steps), stopCalls);
      case ReplaceStops(replacements, ids) =>
        var result;
        ghost var swaps;
        result, swaps := broker.ReplaceStopOrders(replacements, ids);
        g := Replaced(replacements, swaps);
    }
  }

  lemma {:induction false} AppendSegment(run: seq<Segment>, g: Segment)
    requires ProperRun(run) && Proper(g)
    ensures ProperRun(run + [g]) && RunCalls(run + [g]) == RunCalls(run) + SegmentCalls(g)
  {
    assert (run + [g])[..|run|] == run;
  }

  /** So is any sequence of uses: the theorems below are about everything that a broker with lookups ever does. */
  method UseAll(broker: BinanceBroker, uses: seq<Use>) returns (ghost run: seq<Segment>)
    requires broker.client.lookups && forall u <- uses :: Named(u)
    modifies broker, broker.client
    ensures ProperRun(run) && |run| == |uses| && broker.client.log == old(broker.client.log) + RunCalls(run)
  {
    run := [];
    for i := 0 to |uses|
      invariant ProperRun(run) && |run| == i && broker.client.log == old(broker.client.log) + RunCalls(run)
    {
      ghost var g := UseOnce(broker, uses[i]);
      AppendSegment(run, g);
      Associative(old(broker.client.log), RunCalls(run), SegmentCalls(g));
      run := run + [g];
    }
  }

  // ----- entries -----

  lemma {:induction false} StepsSubmitOnlyWhenAbsent(retries: nat, steps: seq<Step>)
    requires Submissions(true, retries, steps) && forall s :: s in steps ==> Supported(true, s.order)
    ensures SubmitsOnlyWhenAbsent(CallsOf(steps))
  {
    if steps == [] {
    } else {
      var n := |steps| - 1;
      StepsSubmitOnlyWhenAbsent(retries, steps[..n]);
      assert steps[n] in steps;
      forall i | 0 <= i < |steps[n].calls| && steps[n].calls[i].PostEntry? ensures FollowsAbsence(steps[n].calls, i) {
        SubmitsFollowAbsence(steps[n].order, retries, steps[n].calls, i);
      }
      JoinRuns(CallsOf(steps[..n]), steps[n].calls);
    }
  }

  lemma {:induction false} PassSubmitsNoEntry(replacements: seq<Replacement>, swaps: seq<Swap>, i: nat)
    requires ProperPass(replacements, swaps) && i < |PassCalls(replacements, swaps)|
    ensures !PassCalls(replacements, swaps)[i].PostEntry?
    decreases |swaps|
  {
    var n := |swaps| - 1;
    var before := PassCalls(replacements, swaps[..n]);
    if i < |before| {
      PassSubmitsNoEntry(replacements, swaps[..n], i);
    } else {
      SwapSubmitsNoEntry(replacements[n], swaps[n], i - |before|);
    }
  }

  lemma {:induction false} SwapSubmitsNoEntry(r: Replacement, s: Swap, i: nat)
    requires StopProtocol.Proper(r, s) && i < |SwapCalls(r.symbol, s)|
    ensures !SwapCalls(r.symbol, s)[i].PostEntry?
  {
    var m := |OpeningCalls(r.symbol, s)|;
    if i >= m {
      CancelAt(StrategyStops(s.listing.orders), s.cancels, i - m);
    }
  }

  lemma {:induction false} SegmentSubmitsOnlyWhenAbsent(g: Segment)
    requires Proper(g)
    ensures SubmitsOnlyWhenAbsent(SegmentCalls(g))
  {
    match g
    case Submitted(retries, steps, due, stopCalls) =>
      StepsSubmitOnlyWhenAbsent(retries, steps);
      forall i | 0 <= i < |stopCalls| ensures stopCalls[i].PostStop? {
        SentStopIsDue(due, stopCalls, i);
      }
      JoinRuns(CallsOf(steps), stopCalls);
    case Replaced(replacements, swaps) =>
      forall i | 0 <= i < |PassCalls(replacements, swaps)| ensures !PassCalls(replacements, swaps)[i].PostEntry? {
        PassSubmitsNoEntry(replacements, swaps, i);
      }
  }

  lemma {:induction false} RunSubmitsOnlyWhenAbsent(run: seq<Segment>)
    requires ProperRun(run)
    ensures SubmitsOnlyWhenAbsent(RunCalls(run))
  {
    if run == [] {
    } else {
      var n := |run| - 1;
      RunSubmitsOnlyWhenAbsent(run[..n]);
      SegmentSubmitsOnlyWhenAbsent(run[n]);
      JoinRuns(RunCalls(run[..n]), SegmentCalls(run[n]));
    }
  }

  /** Over any run of the broker against a truthful exchange, at most one order per client id is ever live or filled. */
  lemma {:induction false} RunNeverBooksTwice(run: seq<Segment>, books: seq<seq<BookedEntry>>)
    requires ProperRun(run) && TruthfulEntries(RunCalls(run), books) && AtMostOneLive(books[0])
    ensures forall i :: 0 <= i < |books| ==> AtMostOneLive(books[i])
  {
    RunSubmitsOnlyWhenAbsent(run);
    forall i | 0 <= i < |books| ensures AtMostOneLive(books[i]) {
      NeverTwoLiveOrders(RunCalls(run), books, i);
    }
  }

  // ----- without lookups -----

  /** One order is submitted any number of times, against a truthful exchange. */
  ghost predicate Resubmits(lookups: bool, retries: nat, order: EntryOrder, steps: seq<Step>, books: seq<seq<BookedEntry>>) {
    && Submissions(lookups, retries, steps) && (forall s <- steps :: s.order == order)
    && TruthfulEntries(CallsOf(steps), books) && AtMostOneLive(books[0])
  }

  /** However often the order is submitted, at most one with its client id is ever live or filled. */
  ghost predicate SafeToSubmit(lookups: bool, retries: nat, order: EntryOrder) {
    forall steps, books :: Resubmits(lookups, retries, order, steps, books) ==> AtMostOneLive(books[|books| - 1])
  }

  lemma {:induction false} BlindCalls(lookups: bool, retries: nat, order: EntryOrder, steps: seq<Step>, i: nat)
    requires Submissions(lookups, retries, steps) && (forall s <- steps :: s.order == order) && !Supported(lookups, order)
    requires i < |CallsOf(steps)|
    ensures CallsOf(steps)[i].PostEntry? && CallsOf(steps)[i].entry == order
  {
    var n := |steps| - 1;
    var before := CallsOf(steps[..n]);
    assert steps[n] in steps;
    if i < |before| {
      BlindCalls(lookups, retries, order, steps[..n], i);
    }
  }

  /** An order without a client id cannot be booked twice under one. */
  lemma {:induction false} UnnamedIsSafe(calls: seq<Call>, books: seq<seq<BookedEntry>>, n: nat)
    requires TruthfulEntries(calls, books) && AtMostOneLive(books[0]) && n < |books|
    requires forall i :: 0 <= i < |calls| ==> calls[i].PostEntry? && calls[i].entry.clientId.None?
    ensures AtMostOneLive(books[n])
  {
    if n > 0 {
      UnnamedIsSafe(calls, books, n - 1);
      var call := calls[n - 1];
      assert EntryStep(books[n - 1], call, books[n]);
      var mid, o :| BooksEntry(mid, o, call.entry, call.posted, books[n]) && Settles(books[n - 1], mid);
      SettlingKeepsAtMostOne(books[n - 1], mid);
    }
  }

  /** Two submissions without a lookup that both lose the reply book the order twice. */
  lemma {:induction false} BlindSubmitsBookTwice(lookups: bool, retries: nat, order: EntryOrder) returns (steps: seq<Step>, books: seq<seq<BookedEntry>>)
    requires !Supported(lookups, order) && order.clientId.Some?
    ensures Resubmits(lookups, retries, order, steps, books) && !AtMostOneLive(books[|books| - 1])
  {
    var lost := PostEntry(order, PostRaised(Network));
    var s := Step(order, [lost], Conclusion(order, retries, [lost]).0, Conclusion(order, retries, [lost]).1);
    var o := BookedEntry(order.clientId, OtherStatus, 0.0);
    steps, books := [s, s], [[], [o], [o, o]];
    assert steps[..1] == [s] && [s][..0] == [];
    assert Submission(lookups, retries, s) && Submissions(lookups, retries, [s]);
    assert CallsOf([s]) == [lost] && CallsOf(steps) == [lost, lost];
    assert [] + [o] == [o] && [o] + [o] == [o, o];
    assert Settles([], []) && BooksEntry([], o, order, PostRaised(Network), [o]);
    assert Settles([o], [o]) && BooksEntry([o], o, order, PostRaised(Network), [o, o]);
    assert EntryStep(books[0], lost, books[1]) && EntryStep(books[1], lost, books[2]);
    assert LiveOrFilled(books[2][0]) && LiveOrFilled(books[2][1]);
  }

  /** The exact condition: submitting again and again is safe exactly when the order can be looked up, or has no client id
      under which it could be booked twice. */
  lemma {:induction false} LookupsAreNeeded(lookups: bool, retries: nat, order: EntryOrder)
    ensures SafeToSubmit(lookups, retries, order) <==> Supported(lookups, order) || order.clientId.None?
  {
    if Supported(lookups, order) || order.clientId.None? {
      forall steps, books | Resubmits(lookups, retries, order, steps, books) ensures AtMostOneLive(books[|books| - 1]) {
        if Supported(lookups, order) {
          StepsSubmitOnlyWhenAbsent(retries, steps);
          NeverTwoLiveOrders(CallsOf(steps), books, |books| - 1);
        } else {
          forall i | 0 <= i < |CallsOf(steps)| ensures CallsOf(steps)[i].PostEntry? && CallsOf(steps)[i].entry.clientId.None? {
            BlindCalls(lookups, retries, order, steps, i);
          }
          UnnamedIsSafe(CallsOf(steps), books, |books| - 1);
        }
      }
    } else {
      var steps, books := BlindSubmitsBookTwice(lookups, retries, order);
      assert Resubmits(lookups, retries, order, steps, books);
    }
  }

  // ----- stops -----

  lemma {:induction false} StepsCancelNothing(retries: nat, steps: seq<Step>, i: nat)
    requires Submissions(true, retries, steps) && i < |CallsOf(steps)|
    ensures !CallsOf(steps)[i].CancelStop?
  {
    var n := |steps| - 1;
    var before := CallsOf(steps[..n]);
    if i < |before| {
      StepsCancelNothing(retries, steps[..n], i);
    } else {
      assert (i - |before|) % 2 == 0 || (i - |before|) % 2 == 1;
    }
  }

  lemma {:induction false} SegmentKeepsCover(g: Segment, books: seq<StopBook>)
    requires Proper(g) && TruthfulStops(SegmentCalls(g), books)
    ensures CoverKept(books)
  {
    match g
    case Submitted(retries, steps, due, stopCalls) =>
      var calls := CallsOf(steps) + stopCalls;
      forall i | 0 <= i < |calls| ensures !calls[i].CancelStop? {
        if i < |CallsOf(steps)| {
          StepsCancelNothing(retries, steps, i);
        } else {
          SentStopIsDue(due, stopCalls, i - |CallsOf(steps)|);
        }
      }
      NoCancelsKeepCover(calls, books);
    case Replaced(replacements, swaps) =>
      PassKeepsCover(replacements, swaps, books);
  }

  lemma {:induction false} NoCancelsKeepCover(calls: seq<Call>, books: seq<StopBook>)
    requires TruthfulStops(calls, books)
    requires forall i :: 0 <= i < |calls| ==> !calls[i].CancelStop?
    ensures CoverKept(books)
  {
    forall i, symbol | 0 <= i < |books| && Covered(books[0], symbol) ensures Covered(books[i], symbol) {
      var o :| o in books[0] && o.symbol == symbol && StrategyStop(o);
      StaysOpenWithoutCancels(o, calls, books, 0, i);
    }
  }

  /** Over any run of the broker, a symbol with an open strategy stop keeps one after every single call. */
  lemma {:induction false} RunNeverUncovers(run: seq<Segment>, books: seq<StopBook>)
    requires ProperRun(run) && TruthfulStops(RunCalls(run), books)
    ensures CoverKept(books)
  {
    if run == [] {
      NothingHappens(books);
    } else {
      var n := |run| - 1;
      var before, calls := RunCalls(run[..n]), SegmentCalls(run[n]);
      assert RunCalls(run) == before + calls;
      TruthfulParts(before, calls, books);
      RunNeverUncovers(run[..n], books[..|before| + 1]);
      SegmentKeepsCover(run[n], books[|before|..]);
      JoinCover(books, |before|);
    }
  }

  lemma {:induction false} NothingHappens(books: seq<StopBook>)
    requires |books| == 1
    ensures CoverKept(books)
  {
  }
}
