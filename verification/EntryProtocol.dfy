/** The calls that submitting one entry order may make, read off their log. */
module EntryProtocol {
  import opened Common
  import opened Exchange

  datatype LookupState = Found(order: OrderView) | NotFound | Unknown | Unsupported

  datatype FailureStatus = StatusRateLimit | StatusUnknown | SubmitRateLimit | SubmitFailed | SubmitStatusUnknown

  datatype EntryFailure = EntryFailure(order: EntryOrder, status: FailureStatus, attempts: Option<nat>, retryable: bool)

  /** The first quantity field that is present decides; an unreadable one gives no answer, and no field at all means zero. */
  function ExecutedQuantity(o: OrderView): Option<real> {
    FirstPresent(QtyFields(o))
  }

  function FirstPresent(fields: seq<QtyField>): Option<real> {
    if fields == [] then Some(0.0)
    else match fields[0]
      case Absent => FirstPresent(fields[1..])
      case Unreadable => None
      case Number(v) => Some(v)
  }

  /** How the broker reads a lookup reply that is not a rate limit. */
  function Classify(reply: LookupReply): LookupState {
    match reply
    case Nothing => NotFound
    case NotADict => Unknown
    case EmptyDict => Unknown
    case Described(order) =>
      var executed := ExecutedQuantity(order);
      if TerminalStatus(order.status) && executed.Some? && executed.value <= 0.0 then NotFound else Found(order)
    case LookupRaised(e) => if OrderNotFound(e) then NotFound else Unknown
  }

  /** The broker takes the reply as proof that nothing can trade or has traded. */
  predicate SaysNotFound(reply: LookupReply) {
    !(reply.LookupRaised? && RateLimited(reply.error)) && Classify(reply).NotFound?
  }

  predicate Supported(lookups: bool, order: EntryOrder) {
    lookups && order.clientId.Some? && order.symbol.Some?
  }

  /** The call leaves the submission open: absence was confirmed, or a submit failed in a way that may be retried. */
  predicate GoesOn(c: Call) {
    match c
    case Lookup(_, reply) => SaysNotFound(reply)
    case PostEntry(_, reply) => reply.PostRaised? && Transient(reply.error)
    case _ => false
  }

  /** Lookups and submits of one order take turns, a lookup first. */
  predicate TakesTurns(order: EntryOrder, calls: seq<Call>) {
    order.clientId.Some? &&
    forall i :: 0 <= i < |calls| ==>
      if i % 2 == 0 then calls[i].Lookup? && calls[i].id == order.clientId.value
      else calls[i].PostEntry? && calls[i].entry == order
  }

  predicate StillOpen(order: EntryOrder, n: nat, calls: seq<Call>) {
    |calls| == n && TakesTurns(order, calls) && forall i :: 0 <= i < n ==> GoesOn(calls[i])
  }

  /** A complete submission: every call but the last leaves it open, and the last one closes it
      or uses up the retries. Without a lookup there is a single blind submit. */
  predicate Complete(order: EntryOrder, supported: bool, retries: nat, calls: seq<Call>) {
    if !supported then |calls| == 1 && calls[0].PostEntry? && calls[0].entry == order
    else
      && TakesTurns(order, calls)
      && 1 <= |calls| <= 2 * retries + 3
      && (forall i :: 0 <= i < |calls| - 1 ==> GoesOn(calls[i]))
      && (GoesOn(calls[|calls| - 1]) ==> |calls| == 2 * retries + 3)
  }

  function Last(calls: seq<Call>): Call
    requires calls != []
  {
    calls[|calls| - 1]
  }

  /** How the broker reads a lookup that was made. */
  function Reading(c: Call): Result<LookupState, ApiError>
    requires c.Lookup?
  {
    if c.found.LookupRaised? && RateLimited(c.found.error) then Err(c.found.error) else Ok(Classify(c.found))
  }

  /** The number of submits in a complete submission. */
  function Submits(calls: seq<Call>): nat {
    if |calls| == 1 && calls[0].PostEntry? then 1 else |calls| / 2
  }

  /** What the caller learns, from the last call and the number of submits so far. */
  function Verdict(order: EntryOrder, retries: nat, submits: nat, last: Call): (Option<OrderView>, seq<EntryFailure>) {
    match last
    case Lookup(_, reply) =>
      if HitRateLimit(last) then
        Refusal(order, StatusRateLimit, if submits == 0 then None else Some(submits), true)
      else
        (match Classify(reply)
         case Found(o) => (Some(o), [])
         case NotFound => Refusal(order, SubmitFailed, Some(retries + 1), true)
         case _ => if submits == 0 then Refusal(order, StatusUnknown, None, true)
                   else Refusal(order, SubmitStatusUnknown, Some(submits), true))
    case PostEntry(_, reply) =>
      if reply.Accepted? then (Some(reply.order), [])
      else if HitRateLimit(last) then Refusal(order, SubmitRateLimit, Some(submits), true)
      else if Transient(reply.error) then Refusal(order, SubmitStatusUnknown, Some(submits), true)
      else Refusal(order, SubmitFailed, Some(submits), false)
    case _ => (None, [])
  }

  function Conclusion(order: EntryOrder, retries: nat, calls: seq<Call>): (Option<OrderView>, seq<EntryFailure>)
    requires calls != []
  {
    Verdict(order, retries, Submits(calls), Last(calls))
  }

  function Refusal(order: EntryOrder, status: FailureStatus, attempts: Option<nat>, retryable: bool): (Option<OrderView>, seq<EntryFailure>) {
    (None, [EntryFailure(order, status, attempts, retryable)])
  }

  /** One more attempt either closes the submission or leaves it open with two more calls. */
  lemma {:induction false} FinishOrGoOn(order: EntryOrder, retries: nat, attempt: nat, calls: seq<Call>, more: seq<Call>, open: bool)
    requires StillOpen(order, 2 * attempt + 1, calls) && attempt <= retries
    requires 1 <= |more| <= 2 && more[0].PostEntry? && more[0].entry == order
    requires |more| == 2 ==> more[1].Lookup? && Some(more[1].id) == order.clientId && GoesOn(more[0])
    requires |more| == 1 ==> !GoesOn(more[0])
    requires open <==> |more| == 2 && GoesOn(more[1])
    ensures open ==> StillOpen(order, 2 * attempt + 3, calls + more)
    ensures !open ==> Complete(order, true, retries, calls + more)
    ensures !open ==> Conclusion(order, retries, calls + more) == Verdict(order, retries, attempt + 1, more[|more| - 1])
  {
    var all := calls + more;
    assert all[2 * attempt + 1] == more[0];
    assert |more| == 2 ==> all[2 * attempt + 2] == more[1];
    assert TakesTurns(order, all);
  }

  lemma {:induction false} BlindAttempt(order: EntryOrder, retries: nat, calls: seq<Call>)
    requires |calls| == 1 && calls[0].PostEntry? && calls[0].entry == order
    ensures Complete(order, false, retries, calls)
    ensures Conclusion(order, retries, calls) == Verdict(order, retries, 1, calls[0])
  {
  }

  /** One submit, followed by a lookup when the error was transient and lookups are supported. */
  predicate Attempt(order: EntryOrder, supported: bool, calls: seq<Call>, open: bool) {
    && 1 <= |calls| <= 2 && calls[0].PostEntry? && calls[0].entry == order
    && (|calls| == 2 <==> supported && GoesOn(calls[0]))
    && (|calls| == 2 ==> calls[1].Lookup? && Some(calls[1].id) == order.clientId)
    && (open <==> |calls| == 2 && GoesOn(calls[1]))
  }

  lemma {:induction false} AttemptConcludes(order: EntryOrder, supported: bool, retries: nat, attempt: nat, calls: seq<Call>, more: seq<Call>, open: bool)
    requires if supported then StillOpen(order, 2 * attempt + 1, calls) else attempt == 0 && calls == []
    requires attempt <= retries
    requires Attempt(order, supported, more, open)
    ensures open ==> supported && StillOpen(order, 2 * attempt + 3, calls + more)
    ensures !open ==> Complete(order, supported, retries, calls + more)
    ensures !open ==> Conclusion(order, retries, calls + more) == Verdict(order, retries, attempt + 1, Last(more))
  {
    if supported {
      FinishOrGoOn(order, retries, attempt, calls, more, open);
    } else {
      assert calls + more == more;
      BlindAttempt(order, retries, more);
    }
  }

  /** Once the retries are used up the last lookup found nothing, and the submission is complete. */
  lemma {:induction false} Exhausted(order: EntryOrder, retries: nat, calls: seq<Call>)
    requires StillOpen(order, 2 * retries + 3, calls)
    ensures Complete(order, true, retries, calls)
    ensures Conclusion(order, retries, calls) == Refusal(order, SubmitFailed, Some(retries + 1), true)
    ensures !HitRateLimit(calls[|calls| - 1])
  {
    assert (|calls| - 1) % 2 == 0 && GoesOn(calls[|calls| - 1]);
  }

  // ----- what every complete submission guarantees -----

  /** Every submit directly follows a lookup of the same client id that found nothing. */
  lemma {:induction false} SubmitsFollowAbsence(order: EntryOrder, retries: nat, calls: seq<Call>, i: nat)
    requires Complete(order, true, retries, calls)
    requires i < |calls| && calls[i].PostEntry?
    ensures calls[i].entry == order
    ensures i > 0 && calls[i - 1].Lookup? && Some(calls[i - 1].id) == order.clientId && SaysNotFound(calls[i - 1].found)
    ensures i <= 2 * retries + 1
  {
    assert i % 2 == 1;
    assert (i - 1) % 2 == 0 && GoesOn(calls[i - 1]);
  }

  /** What ends a submission at once: a rate limit, an accepted submit, a submit that failed for good, and a lookup that
      found the order or could not tell. */
  predicate Ends(c: Call) {
    || HitRateLimit(c)
    || (c.PostEntry? && (c.posted.Accepted? || !Transient(c.posted.error)))
    || (c.Lookup? && !Classify(c.found).NotFound?)
  }

  /** No call follows such a call; after any other one the submission goes on until its retries are used up. */
  lemma {:induction false} ErrorsEndSubmission(order: EntryOrder, supported: bool, retries: nat, calls: seq<Call>, i: nat)
    requires Complete(order, supported, retries, calls)
    requires i < |calls|
    ensures Ends(calls[i]) ==> i == |calls| - 1
    ensures supported && i == |calls| - 1 ==> Ends(calls[i]) || |calls| == 2 * retries + 3
  {
    if supported {
      assert i % 2 == 0 || i % 2 == 1;
      assert calls[i].Lookup? || calls[i].PostEntry?;
      RateLimitIsNotTransient(calls[i]);
      assert Ends(calls[i]) ==> !GoesOn(calls[i]);
    }
  }

  lemma {:induction false} RateLimitIsNotTransient(c: Call)
    ensures HitRateLimit(c) ==> !Transient(CallError(c).value)
  {
  }

  /** A submission returns an order or adds exactly one failure record, never both, never neither. */
  lemma {:induction false} OneVerdict(order: EntryOrder, supported: bool, retries: nat, calls: seq<Call>)
    requires Complete(order, supported, retries, calls)
    ensures var (result, failures) := Conclusion(order, retries, calls);
            && (result.Some? <==> failures == [])
            && (result.None? <==> |failures| == 1 && failures[0].order == order)
  {
    if supported {
      assert (|calls| - 1) % 2 == 0 || (|calls| - 1) % 2 == 1;
    }
  }

  // ----- what the caller learns -----

  function FieldValue(f: QtyField): Option<real> { if f.Number? then Some(f.value) else None }

  /** Which field tells how much an order has executed. */
  lemma {:induction false} ExecutedIsFirstField(o: OrderView)
    ensures ExecutedQuantity(o)
         == if !o.executedQty.Absent? then FieldValue(o.executedQty)
            else if !o.cumQty.Absent? then FieldValue(o.cumQty)
            else if !o.z.Absent? then FieldValue(o.z)
            else if !o.filledQty.Absent? then FieldValue(o.filledQty)
            else Some(0.0)
  {
    var f0 := QtyFields(o);
    var f1 := f0[1..];
    var f2 := f1[1..];
    var f3 := f2[1..];
    assert f0[0] == o.executedQty && f1[0] == o.cumQty && f2[0] == o.z && f3[0] == o.filledQty && f3[1..] == [];
    assert FirstPresent(f3) == if o.filledQty.Absent? then Some(0.0) else FieldValue(o.filledQty);
    assert FirstPresent(f2) == if o.z.Absent? then FirstPresent(f3) else FieldValue(o.z);
    assert FirstPresent(f1) == if o.cumQty.Absent? then FirstPresent(f2) else FieldValue(o.cumQty);
    assert FirstPresent(f0) == if o.executedQty.Absent? then FirstPresent(f1) else FieldValue(o.executedQty);
  }

  /** The description of an order that is over and has executed nothing. */
  predicate ReadsDead(o: OrderView) {
    o.status != OtherStatus && ExecutedQuantity(o).Some? && ExecutedQuantity(o).value <= 0.0
  }

  /** Which errors are rate limits, which may pass, and which say that there is no such order. */
  lemma {:induction false} ErrorsExactly(e: ApiError)
    ensures RateLimited(e) <==> e.Http? && (e.status == 418 || e.status == 429)
    ensures OrderNotFound(e) <==> e.Http? && e.code == Some(-2013)
    ensures Transient(e)
       <==> e == Network || (e.Http? && (e.status == 408 || e.status == 500 || e.status == 502 || e.status == 503 || e.status == 504))
  {
  }

  /** How a lookup is read: as "not found" exactly for an empty reply, the error that says so, and a dead order; as found
      exactly for any other description; all else tells nothing. A rate limit is not read at all. */
  lemma {:induction false} LookupExactly(reply: LookupReply)
    ensures SaysNotFound(reply)
       <==> || reply == Nothing
            || (reply.LookupRaised? && OrderNotFound(reply.error) && !RateLimited(reply.error))
            || (reply.Described? && ReadsDead(reply.order))
    ensures forall o :: Classify(reply) == Found(o) <==> reply == Described(o) && !ReadsDead(o)
    ensures Reading(Lookup("", reply)).Err? <==> reply.LookupRaised? && RateLimited(reply.error)
    ensures Reading(Lookup("", reply)).Ok? ==> (Reading(Lookup("", reply)).value == NotFound <==> SaysNotFound(reply))
  {
  }

  /** The order that a reply brings: accepted, or described and not dead. */
  predicate Brings(c: Call, o: OrderView) {
    || (c.PostEntry? && c.posted == Accepted(o))
    || (c.Lookup? && c.found == Described(o) && !ReadsDead(o))
  }

  /** The caller gets exactly the order that the last reply brings, and then no failure is recorded; a recovered order is
      never thrown away. */
  lemma {:induction false} ResultIsTheOrder(order: EntryOrder, supported: bool, retries: nat, calls: seq<Call>)
    requires Complete(order, supported, retries, calls)
    ensures var (result, failures) := Conclusion(order, retries, calls);
            && (forall o :: result == Some(o) <==> Brings(calls[|calls| - 1], o))
            && (failures == [] <==> result.Some?)
  {
    OneVerdict(order, supported, retries, calls);
    if supported {
      assert (|calls| - 1) % 2 == 0 || (|calls| - 1) % 2 == 1;
    }
  }

  /** When the last call is a truthful description of an order that is open or has traded, the caller gets it. */
  lemma {:induction false} LiveOrderIsReturned(order: EntryOrder, retries: nat, calls: seq<Call>, book: seq<BookedEntry>, id: string)
    requires Complete(order, true, retries, calls)
    requires var last := calls[|calls| - 1];
             && last.Lookup? && last.id == id && last.found.Described? && ExecutedQuantity(last.found.order).Some?
             && TruthfulLookup(last.found, book, id) && !NoneLive(book, id)
    ensures Conclusion(order, retries, calls) == (Some(calls[|calls| - 1].found.order), [])
  {
    var o := calls[|calls| - 1].found.order;
    var k: nat :| Describes(o, book, id, k);
    ReadingIsExecuted(o, book[k]);
    ResultIsTheOrder(order, true, retries, calls);
    assert Brings(calls[|calls| - 1], o);
  }

  function Posts(calls: seq<Call>): nat {
    if calls == [] then 0 else Posts(calls[..|calls| - 1]) + if calls[|calls| - 1].PostEntry? then 1 else 0
  }

  lemma {:induction false} PostsTakeTurns(order: EntryOrder, calls: seq<Call>)
    requires TakesTurns(order, calls)
    ensures Posts(calls) == |calls| / 2
  {
    if calls == [] {
    } else {
      PostsTakeTurns(order, calls[..|calls| - 1]);
      assert (|calls| - 1) % 2 == 0 || (|calls| - 1) % 2 == 1;
    }
  }

  predicate LimitedReply(c: Call) {
    || (c.Lookup? && c.found.LookupRaised? && RateLimited(c.found.error))
    || (c.PostEntry? && c.posted.PostRaised? && RateLimited(c.posted.error))
  }

  /** The POST was refused, and neither a rate limit nor a lost reply explains it. */
  predicate RefusedForGood(c: Call) {
    c.PostEntry? && c.posted.PostRaised? && !RateLimited(c.posted.error) && !Transient(c.posted.error)
  }

  /** What a failure record says: its kind and its number of attempts follow from the last call and the POSTs made, and only
      an order that was refused for good must not be tried again. */
  lemma {:induction false} FailureExplains(order: EntryOrder, supported: bool, retries: nat, calls: seq<Call>)
    requires Complete(order, supported, retries, calls) && Conclusion(order, retries, calls).0.None?
    ensures var last, f := calls[|calls| - 1], Conclusion(order, retries, calls).1[0];
            && Conclusion(order, retries, calls).1 == [f] && f.order == order
            && f.attempts == (if Posts(calls) == 0 then None else Some(Posts(calls)))
            && (!f.retryable <==> RefusedForGood(last))
            && (f.status == StatusRateLimit <==> last.Lookup? && LimitedReply(last))
            && (f.status == SubmitRateLimit <==> last.PostEntry? && LimitedReply(last))
            && (f.status == SubmitFailed <==> RefusedForGood(last) || (last.Lookup? && SaysNotFound(last.found)))
            && (f.status == StatusUnknown ==> Posts(calls) == 0)
            && (f.status == SubmitStatusUnknown ==> Posts(calls) > 0)
  {
    if supported {
      PostsTakeTurns(order, calls);
      assert (|calls| - 1) % 2 == 0 || (|calls| - 1) % 2 == 1;
    } else {
      assert calls[..0] == [] && Posts(calls) == 1;
    }
  }

  // ----- the book -----

  lemma {:induction false} FirstPresentReports(fields: seq<QtyField>, executed: real)
    requires forall f <- fields :: f.Number? ==> f.value == executed
    requires (forall f <- fields :: f.Absent?) ==> executed == 0.0
    ensures FirstPresent(fields).Some? ==> FirstPresent(fields).value == executed
  {
    if fields != [] && fields[0].Absent? {
      assert forall f :: f in fields <==> f == fields[0] || f in fields[1..];
      FirstPresentReports(fields[1..], executed);
    } else if fields != [] {
      assert fields[0] in fields;
    }
  }

  /** The quantity read from a truthful description is what the order has executed. */
  lemma {:induction false} ReadingIsExecuted(o: OrderView, b: BookedEntry)
    requires Reports(o, b)
    ensures ExecutedQuantity(o).Some? ==> ExecutedQuantity(o).value == b.executed
  {
    FirstPresentReports(QtyFields(o), b.executed);
  }

  /** What "not found" is worth: from a truthful reply it proves that no order with the id is open or has traded. */
  lemma {:induction false} NotFoundMeansNoneLive(reply: LookupReply, book: seq<BookedEntry>, id: string)
    requires TruthfulLookup(reply, book, id) && SaysNotFound(reply)
    ensures NoneLive(book, id)
  {
    if reply.Described? {
      var k: nat :| Describes(reply.order, book, id, k);
      ReadingIsExecuted(reply.order, book[k]);
    }
  }

  /** And the other way round: a readable description is taken as "found" only when there is an order with the id that
      is open or has traded. */
  lemma {:induction false} FoundMeansLive(o: OrderView, book: seq<BookedEntry>, id: string)
    requires TruthfulLookup(Described(o), book, id) && ExecutedQuantity(o).Some?
    ensures Classify(Described(o)).Found? <==> !NoneLive(book, id)
  {
    var k: nat :| Describes(o, book, id, k);
    ReadingIsExecuted(o, book[k]);
  }

  lemma {:induction false} SettlingKeepsAtMostOne(before: seq<BookedEntry>, after: seq<BookedEntry>)
    requires AtMostOneLive(before) && Settles(before, after)
    ensures AtMostOneLive(after)
  {
  }

  /** A submit right after a truthful absence leaves at most one live or filled order, lost reply or not. */
  lemma {:induction false} SubmitKeepsAtMostOne(before: seq<BookedEntry>, order: EntryOrder, reply: PostReply, after: seq<BookedEntry>)
    requires AtMostOneLive(before) && order.clientId.Some? && NoneLive(before, order.clientId.value)
    requires PostEffect(before, order, reply, after)
    ensures AtMostOneLive(after)
  {
    var mid, o :| BooksEntry(mid, o, order, reply, after) && Settles(before, mid);
    SettlingKeepsAtMostOne(before, mid);
    assert NoneLive(mid, order.clientId.value);
  }

  /** Every submit directly follows a lookup of its own client id that found nothing. */
  predicate SubmitsOnlyWhenAbsent(calls: seq<Call>) {
    forall i :: 0 <= i < |calls| && calls[i].PostEntry? ==> FollowsAbsence(calls, i)
  }

  predicate FollowsAbsence(calls: seq<Call>, i: nat)
    requires i < |calls| && calls[i].PostEntry?
  {
    i > 0 && calls[i - 1].Lookup? && Some(calls[i - 1].id) == calls[i].entry.clientId && SaysNotFound(calls[i - 1].found)
  }

  lemma {:induction false} JoinRuns(a: seq<Call>, b: seq<Call>)
    requires SubmitsOnlyWhenAbsent(a) && SubmitsOnlyWhenAbsent(b)
    ensures SubmitsOnlyWhenAbsent(a + b)
  {
    var all := a + b;
    forall i | 0 <= i < |all| && all[i].PostEntry? ensures FollowsAbsence(all, i) {
      if i < |a| {
        assert FollowsAbsence(a, i);
      } else {
        assert FollowsAbsence(b, i - |a|);
      }
    }
  }

  /** The main safety result. Over any run of calls in which submits only follow truthful absence,
      no client id ever has two live or filled orders: not after any call, however many replies are lost. */
  lemma {:induction false} NeverTwoLiveOrders(calls: seq<Call>, books: seq<seq<BookedEntry>>, i: nat)
    requires TruthfulEntries(calls, books) && AtMostOneLive(books[0])
    requires SubmitsOnlyWhenAbsent(calls)
    requires i < |books|
    ensures AtMostOneLive(books[i])
  {
    if i > 0 {
      NeverTwoLiveOrders(calls, books, i - 1);
      var call := calls[i - 1];
      assert EntryStep(books[i - 1], call, books[i]);
      if call.PostEntry? {
        assert FollowsAbsence(calls, i - 1);
        assert EntryStep(books[i - 2], calls[i - 2], books[i - 1]);
        NotFoundMeansNoneLive(calls[i - 2].found, books[i - 1], calls[i - 2].id);
        SubmitKeepsAtMostOne(books[i - 1], call.entry, call.posted, books[i]);
      } else {
        SettlingKeepsAtMostOne(books[i - 1], books[i]);
      }
    }
  }

  // ----- exchanges that always describe the latest order -----

  /** Of the orders with one id, only the one booked last can be open or have traded. */
  predicate OnlyLatestLive(book: seq<BookedEntry>) {
    forall i, j :: 0 <= i < j < |book| && book[i].clientId.Some? && book[i].clientId == book[j].clientId ==> !LiveOrFilled(book[i])
  }

  predicate DescribesLatest(o: OrderView, book: seq<BookedEntry>, id: string, k: nat) {
    && k < |book| && book[k].clientId == Some(id) && Reports(o, book[k])
    && forall i :: k < i < |book| ==> book[i].clientId != Some(id)
  }

  /** As `EntryStep`, but a description is always of the order booked last. */
  ghost predicate LatestStep(before: seq<BookedEntry>, call: Call, after: seq<BookedEntry>) {
    if call.Lookup? && call.found.Described? then
      Settles(before, after) && exists k: nat :: DescribesLatest(call.found.order, after, call.id, k)
    else EntryStep(before, call, after)
  }

  lemma {:induction false} LatestIsTruthful(before: seq<BookedEntry>, call: Call, after: seq<BookedEntry>)
    requires LatestStep(before, call, after) && OnlyLatestLive(after)
    ensures EntryStep(before, call, after)
  {
    if call.Lookup? && call.found.Described? {
      var k: nat :| DescribesLatest(call.found.order, after, call.id, k);
      assert Describes(call.found.order, after, call.id, k);
    }
  }

  lemma {:induction false} SubmitKeepsLatest(before: seq<BookedEntry>, order: EntryOrder, reply: PostReply, after: seq<BookedEntry>)
    requires OnlyLatestLive(before) && order.clientId.Some? && NoneLive(before, order.clientId.value)
    requires PostEffect(before, order, reply, after)
    ensures OnlyLatestLive(after)
  {
    var mid, o :| BooksEntry(mid, o, order, reply, after) && Settles(before, mid);
    assert NoneLive(mid, order.clientId.value);
  }

  /** The broker itself keeps such an exchange truthful: while submits follow absence, the order booked last is the only
      one of its id that can be live, so describing it is describing the right one. */
  lemma {:induction false} LatestSuffices(calls: seq<Call>, books: seq<seq<BookedEntry>>, n: nat)
    requires n <= |calls| && |books| == |calls| + 1 && OnlyLatestLive(books[0])
    requires forall i :: 0 <= i < |calls| ==> LatestStep(books[i], calls[i], books[i + 1])
    requires SubmitsOnlyWhenAbsent(calls)
    ensures OnlyLatestLive(books[n])
    ensures forall i :: 0 <= i < n ==> EntryStep(books[i], calls[i], books[i + 1])
  {
    if n > 0 {
      LatestSuffices(calls, books, n - 1);
      var call := calls[n - 1];
      assert LatestStep(books[n - 1], call, books[n]);
      if call.PostEntry? {
        assert FollowsAbsence(calls, n - 1);
        assert EntryStep(books[n - 2], calls[n - 2], books[n - 1]);
        NotFoundMeansNoneLive(calls[n - 2].found, books[n - 1], calls[n - 2].id);
        SubmitKeepsLatest(books[n - 1], call.entry, call.posted, books[n]);
      }
      LatestIsTruthful(books[n - 1], call, books[n]);
    }
  }
}
