# Momentum Alpha: a verified model

This project models the order, state and data-merge engine of a live futures trading bot and proves what it is for.
The exchange is a step machine: every call may succeed, fail, lose its reply or be rate limited, and what a call did
to the exchange's books need not match what the reply said. The bot's objects are classes whose methods change the
same fields as the original; each method is tied to a specification function or predicate, and the theorems are about
every run.

- **Orders** (`Exchange`, `ClientIds`, `Orders`, `EntryProtocol`, `PlanProtocol`, `StopProtocol`, `Broker`,
  `BrokerRuns`): planning, entry submission that survives lost replies, stop placement, stop replacement. `Client.log`
  holds the calls made; the theorems quantify over all sequences of exchange books that are consistent with a log.
- **Positions** (`Models`, `Fills`, `PositionMerge`): folding fills into legs, merging two views of a position.
- **Stored state** (`StateSave`, `StateRuns`): two writers, one state, removal markers and stop-loss exit markers.
- **Account cache** (`OrderSnapshots`, `AccountReads`, `OrderCache`, `AccountCache`, `AccountRuns`) and **daily opens**
  (`DailyOpens`, `DailyOpenRuns`): caches under hard request limits.
- **The gate** (`StopGate`, `LiveTick`): which positions must be covered before an entry may go out, what that is worth for
  the positions the tick read, and what a blocked tick gives back.
- **Backfill** (`TradeFetch`, `TradeStore`, `TradeBackfill`, `KlineScan`, `Ranking`, `CandidateTable`) and
  **dashboard series** (`Timeline`).
- `Common`, `Ordering` and `Sorting` hold shared vocabulary.

Quantities and prices are exact (`real`), times are integers, texts are `string`, a field that may be missing or null
is an `Option`.

## What the model assumes of the exchange

`Exchange.TruthfulEntries` and `Exchange.TruthfulStops` say when books fit a log. A POST that answers with an error may
or may not have booked the order; if it has, the order is on the book before the bot's next call, so a booking that arrives
only after the following lookup is outside the model. A lookup that answers with an order reports the status and, in every
quantity field that is a number, the executed quantity of a booked order with that id; all quantity fields may be missing
only if it has executed nothing, and a dead order is described only if none with the id is open or has traded. An empty
reply and the code -2013 mean that none is. Nothing here speaks of how the bot reads the reply: that "not found" is safe to
act on is proved (`EntryProtocol.NotFoundMeansNoneLive`), and so is that an exchange which always describes the order booked
last is such an exchange (`EntryProtocol.LatestSuffices`). A listing shows exactly the open orders of the symbol; a new algo
order has an id that no open order has; strategy stops leave the book only by a cancel of the bot. The last one is what "a
symbol that had a stop still has one" is about: it is the bot that must not take the last stop away.

## Where code and comments differ

- `src/momentum_alpha/broker.py:148-151` says that a rate limit during the entries ends all further calls of the tick.
  The code goes on to send the stops of the entries that were already accepted (lines 162-199). The model follows the
  code: `PlanProtocol.EntryLimitStopsAll` gives the exact condition, no entry accepted before, and
  `PlanProtocol.StopFollowsEntryLimit` the shortest plan that calls on.
- `src/momentum_alpha/dashboard_data_payloads.py:104-113` may append a point behind later ones before the timeline is
  built. `Timeline.ZeroPointFits` says exactly when the pointers then still give "the latest at or before".
- `src/momentum_alpha/poll_worker_core_live.py:512-538` refreshes before entries go out and calls the result verified. The
  refresh (`src/momentum_alpha/live_account_state.py:449-472`) reads the orders again, but it offers the positions of the
  stored state that was loaded before the tick, not those of the tick's account read. `LiveTick.EntriesPassUncovered` is a
  position that slips through; `StopGate.GateGuardsExactly` says exactly when none can.
- `src/momentum_alpha/stream_worker_core.py:147-153` does not look at exit markers, as the poll save does;
  `StateRuns.StreamLeavesReopened` says exactly which positions a stream save then leaves.
- `src/momentum_alpha/market_data_cache.py:211-214` keeps one minute's counter: the limit of kline reads per minute holds
  exactly for clocks that do not return to a minute (`DailyOpenRuns.LimitNeedsNoReturn`).

## Model

| member | source | states |
|---|---|---|
| ClientIds.ClientOrderIdRoundTrip | src/momentum_alpha/trace_ids.py:29-51 | reading a client id back recovers intent id, leg type and sequence number |
| ClientIds.IntentIdExactly | src/momentum_alpha/trace_ids.py:46-51 | exactly the strategy ids name an intent: the id without its kind letter, or all of it |
| ClientIds.DifferentOrdersDifferentIds | src/momentum_alpha/orders.py:24-34 | orders that differ in sequence or kind never share a client id, whatever symbol and time |
| ClientIds.AddOnIdStableWithinHour | src/momentum_alpha/trace_ids.py:29-36 | an add-on keeps one client id all through its hour |
| Orders.RoundDownGreatest | src/momentum_alpha/binance_filters.py:7-12 | for a value that is not negative the result is the greatest multiple not above it |
| Orders.RoundDownStable | src/momentum_alpha/binance_filters.py:7-12 | results are on the grid and rounding again changes nothing |
| Orders.RoundDownSymmetric | src/momentum_alpha/binance_filters.py:7-12 | negative values are rounded towards zero as well |
| Orders.ValidQuantityStable | src/momentum_alpha/binance_filters.py:24-30 | a quantity that passed the filters passes them again unchanged and satisfies all limits |
| Orders.ValidQuantityExactly | src/momentum_alpha/binance_filters.py:7-30 | a value that is not negative passes as x exactly when x is the greatest step multiple not above it and meets every limit |
| Orders.PairIsSound | src/momentum_alpha/execution.py:20-77 | entry and stop of one intent share symbol and valid quantity, the stop price is the best one on the grid, both ids carry the intent |
| Orders.PlanningNeverRejectsItsOwnQuantity | src/momentum_alpha/orders.py:17-21 | the builders' own quantity check cannot fail on a quantity that sizing produced |
| Orders.BuildExecutionPlan | src/momentum_alpha/execution.py:80-107 | the loop builds exactly the pairs of the intents in order, or fails with the first error |
| Orders.PlanIsSound | src/momentum_alpha/execution.py:80-107 | entry i and stop i of a plan are the two sound orders of one intent, later pairs from later intents |
| Orders.PlanIsComplete | src/momentum_alpha/execution.py:80-107 | no intent that yields orders is left out |
| Orders.IntentYieldsExactly | src/momentum_alpha/execution.py:20-77 | an intent yields orders exactly when symbol and price are known, the best stop on the grid is below the price, and the greatest quantity that the stop budget pays for is accepted and worth enough; and with these amounts |
| Orders.SizedIsPlanned | src/momentum_alpha/execution.py:80-107 | every intent that can be sized has an entry and a stop of its size at its stop in the plan |
| Orders.PairIdsExactly | src/momentum_alpha/execution.py:47-77 | the two ids share token, time, leg type and sequence and end in "e" and "s"; the time is that of planning, for an add-on the full hour |
| Orders.PairHasSide | src/momentum_alpha/orders.py:41-86 | both orders name the position side alike, and the stop is reduce-only exactly without one |
| Orders.PlanIdsDistinct | src/momentum_alpha/execution.py:35-77 | no two orders of a plan share a client id |
| EntryProtocol.NotFoundMeansNoneLive | src/momentum_alpha/broker.py:93-124 | a truthful reply that is read as "not found" proves that no order with the id is open or has traded |
| EntryProtocol.FoundMeansLive | src/momentum_alpha/broker.py:93-124 | a readable description is read as "found" exactly when such an order exists |
| EntryProtocol.LatestSuffices | src/momentum_alpha/broker.py:202-331 | while POSTs follow absence, an exchange that describes the order booked last is truthful at every call |
| EntryProtocol.SubmitsFollowAbsence | src/momentum_alpha/broker.py:202-310 | in every complete submission with lookups, each POST directly follows a lookup that found nothing |
| EntryProtocol.ErrorsEndSubmission | src/momentum_alpha/broker.py:220-310 | a rate limit, an accepted POST, a POST that failed for good and a lookup that found the order or could not tell are each the last call; with lookups, only such a call or used-up retries end it |
| EntryProtocol.OneVerdict | src/momentum_alpha/broker.py:202-310 | a result without an order comes with exactly one failure record, an order with none |
| EntryProtocol.ExecutedIsFirstField | src/momentum_alpha/broker.py:93-103 | the first quantity field that is there tells what was executed; an unreadable one tells nothing, none at all means zero |
| EntryProtocol.ErrorsExactly | src/momentum_alpha/broker.py:30-50 | which errors are rate limits, which are transient, which say that there is no such order |
| EntryProtocol.LookupExactly | src/momentum_alpha/broker.py:106-124 | a lookup is read as "not found" exactly for an empty reply, the error that says so and a dead order, as found exactly for any other description |
| EntryProtocol.ResultIsTheOrder | src/momentum_alpha/broker.py:202-310 | the caller gets exactly the order that the last reply brings, accepted or described and not dead, and then there is no failure record |
| EntryProtocol.LiveOrderIsReturned | src/momentum_alpha/broker.py:218-282 | a truthful description of an order that is open or has traded, as the last reply, is always returned: a recovered order is never thrown away |
| EntryProtocol.FailureExplains | src/momentum_alpha/broker.py:202-310 | a failure record names the order, counts the POSTs, and tells the kind of the last reply; it is not retryable exactly for an order that was refused for good |
| EntryProtocol.Exhausted | src/momentum_alpha/broker.py:296-310 | when all attempts are used up the call sequence is complete and its verdict is the final failure |
| EntryProtocol.NeverTwoLiveOrders | src/momentum_alpha/broker.py:202-310 | while POSTs follow absence, every book of a truthful exchange has at most one live or filled order per client id |
| PlanProtocol.RateLimitEndsEntries | src/momentum_alpha/broker.py:152-161 | a rate-limited entry call is the last entry call of the plan |
| PlanProtocol.FailuresMatchResults | src/momentum_alpha/broker.py:202-310 | the failure list has exactly one record for each entry without an answer, in order |
| PlanProtocol.DueStopHasAcceptedEntry | src/momentum_alpha/broker.py:162-180 | a stop that is sent belongs to the accepted entry at the same place and carries the executed quantity when positive |
| PlanProtocol.OneStopPerAcceptedEntry | src/momentum_alpha/broker.py:162-180 | exactly the accepted entries have a stop due |
| PlanProtocol.SentStopIsDue | src/momentum_alpha/broker.py:162-199 | the stops sent are the due ones in order, whether or not a rate limit cuts the phase; only the last can meet one |
| PlanProtocol.OneAnswerPerStop | src/momentum_alpha/broker.py:175-199 | each stop sent has one response or one failure; without a rate limit every due stop was sent |
| PlanProtocol.AnswersGrow | src/momentum_alpha/broker.py:140-161 | the responses are those of the entries that have one, in order |
| PlanProtocol.EntryLimitStopsAll | src/momentum_alpha/broker.py:140-199 | a rate-limited entry call is the last call of the whole plan exactly when no entry had been accepted |
| PlanProtocol.StopFollowsEntryLimit | src/momentum_alpha/broker.py:148-199 | for any two entries that can be looked up: the first not found, posted and accepted, the second not found and rate limited; a stop is sent after the limit |
| StopProtocol.CancelAt | src/momentum_alpha/broker.py:484-518 | the cancels are of the listed strategy stops in order, cut short only by a rate limit |
| StopProtocol.EveryOldStopIsCancelled | src/momentum_alpha/broker.py:484-518 | when the new stop is accepted and no cancel is rate limited, every listed strategy stop has its cancel |
| StopProtocol.PlacedStopProtects | src/momentum_alpha/broker.py:424-452 | a placed stop has the symbol, side, quantity and price that were asked for, with rules rounded down to what the filters accept; it is reduce-only exactly without a side |
| StopProtocol.SwapReportsItsCalls | src/momentum_alpha/broker.py:381-516 | the records and responses of a replacement are those of its failed and accepted calls, and one record more when no order could be built |
| StopProtocol.PassGoesOnUnless | src/momentum_alpha/broker.py:381-519 | a pass halts exactly at a rate limit, raises exactly other errors of listing or reading rules, and goes on otherwise |
| StopProtocol.RateLimitEndsPass | src/momentum_alpha/broker.py:371-519 | a rate-limited call is the last call of the whole pass |
| StopProtocol.TargetWasListed | src/momentum_alpha/broker.py:398-490 | every cancel hits a strategy stop of that symbol that was open before the new one was placed |
| StopProtocol.AcceptedStopIsSafe | src/momentum_alpha/broker.py:456-516 | cancels start only after the new stop is open, and none can hit it |
| StopProtocol.OtherSymbolsUntouched | src/momentum_alpha/broker.py:371-519 | replacing one symbol's stop leaves every other symbol's strategy stops alone |
| StopProtocol.PassKeepsCover | src/momentum_alpha/broker.py:371-519 | with any failures, lost replies and rate limits, a symbol with an open strategy stop has one after every single call |
| Broker.BinanceBroker.FetchExistingEntryOrder | src/momentum_alpha/broker.py:312-331 | at most one lookup is made and its reply alone decides the result |
| Broker.BinanceBroker.AttemptEntry | src/momentum_alpha/broker.py:220-300 | one POST and what follows it extend a complete or still open call sequence |
| Broker.BinanceBroker.SubmitEntryOrder | src/momentum_alpha/broker.py:202-310 | the calls made form a complete submission; result, failure record and rate limit are its verdict |
| Broker.BinanceBroker.SubmitEntries | src/momentum_alpha/broker.py:140-161 | the entry loop is one submission per entry, ended early only by a rate limit |
| Broker.BinanceBroker.SendStop | src/momentum_alpha/broker.py:175-199 | one stop is sent; a failure adds one record, a rate limit is remembered |
| Broker.BinanceBroker.SubmitStops | src/momentum_alpha/broker.py:162-199 | the stop loop sends the due stops in order, ended early only by a rate limit |
| Broker.BinanceBroker.SubmitExecutionPlan | src/momentum_alpha/broker.py:140-200 | both phases with their responses, failure lists and last rate limit, starting from cleared lists |
| Broker.BinanceBroker.CancelOldStops | src/momentum_alpha/broker.py:484-518 | the cancel loop with its failures and rate limit |
| Broker.BinanceBroker.ReadForReplacement | src/momentum_alpha/broker.py:381-421 | listing and rules are read before anything is placed; an error is recorded and halts the pass, or is raised |
| Broker.BinanceBroker.ReplaceStop | src/momentum_alpha/broker.py:376-519 | one replacement: list, place, then cancel; what is recorded and whether the pass goes on |
| Broker.BinanceBroker.ReplaceStopOrders | src/momentum_alpha/broker.py:371-519 | the pass is a sequence of proper replacements; any other error while listing is raised with what was done so far |
| BrokerRuns.BuiltPlanIsNamed | src/momentum_alpha/execution.py:80-107 | every entry of a built plan can be looked up: it has a symbol and a client id |
| BrokerRuns.UseAll | src/momentum_alpha/broker.py:128-519 | whatever plans and passes a broker with lookups is given, its log grows by the calls of a proper run |
| BrokerRuns.RunNeverBooksTwice | src/momentum_alpha/broker.py:128-519 | over any run of plans and replacement passes, at most one order per client id is ever live or filled |
| BrokerRuns.BlindSubmitsBookTwice | src/momentum_alpha/broker.py:312-318 | two submissions of a named order that cannot be looked up, both replies lost: two live orders |
| BrokerRuns.LookupsAreNeeded | src/momentum_alpha/broker.py:202-331 | submitting again and again is safe exactly when the order can be looked up or has no client id |
| BrokerRuns.RunNeverUncovers | src/momentum_alpha/broker.py:128-519 | over any run, a symbol with an open strategy stop keeps one after every single call |
| Models.TotalQuantity | src/momentum_alpha/models.py:49-54 | the accumulator loop gives the sum of the legs |
| Fills.CumulativeFold | src/momentum_alpha/execution.py:114-203 | from a flat symbol, any cumulative fills end with a leg for exactly the orders that have a fill, one each, with its last totals, all at the last stop, other symbols unchanged |
| Fills.StepCumulative | src/momentum_alpha/execution.py:131-203 | one cumulative fill replaces its order's leg and leaves the other orders' quantities and averages |
| Fills.RedeliveryChangesNothing | src/momentum_alpha/execution.py:131-197 | a fill delivered again changes nothing |
| Fills.FillOpensOrReplaces | src/momentum_alpha/execution.py:131-166 | a flat symbol, or one leg restored from a snapshot at just the fill's quantity, becomes exactly one leg with the fill's order, quantity, price and source |
| Fills.FillAddsLeg | src/momentum_alpha/execution.py:167-197 | otherwise a fill of an order without a leg adds one |
| Fills.FillUpdatesLeg | src/momentum_alpha/execution.py:167-195 | a fill of an order with a leg sets it to positive totals, or adds its quantity and cost; only a sum of zero fails |
| Fills.FillKeepsRest | src/momentum_alpha/execution.py:114-203 | other symbols and fields stay, and the leader changes exactly when the fill names one |
| Fills.IncrementConserves | src/momentum_alpha/execution.py:131-197 | an increment adds exactly its quantity and cost, precisely unless the position is one leg of its quantity, without an order id, that came from a snapshot |
| Fills.RunConserves | src/momentum_alpha/execution.py:114-203 | after any run of increments a position holds what it held plus what was filled exactly when no fill met one snapshot leg of its quantity, and then at exactly the added cost; it never holds more |
| Fills.OnlyFirstReplaces | src/momentum_alpha/execution.py:150-176 | when every fill names its order, that is exactly when the symbol's first fill does not meet a restored leg of its quantity |
| Fills.IncrementsAgreeWithTotals | src/momentum_alpha/execution.py:131-197 | folding one order's increments ends in the same state as folding its running totals |
| PositionMerge.MergeFollowsExchange | src/momentum_alpha/reconciliation.py:91-132 | a merge holds exactly the candidate's quantity, and its cost unless equal quantities keep the known history |
| PositionMerge.MergeExactly | src/momentum_alpha/reconciliation.py:91-132 | which side's legs a merge has: a view of recovered trades, of more legs, of less quantity or of more than fits replaces the known ones; at equal quantity they stay; else the last one makes up the difference |
| PositionMerge.MergeKeepsStop | src/momentum_alpha/reconciliation.py:97 | a merge has a protective stop exactly when either side had one |
| PositionMerge.MergedOpenedAfter | src/momentum_alpha/reconciliation.py:91-132 | a merge has a leg opened after a time exactly when the side whose legs it keeps has one |
| PositionMerge.MergeIsIdempotent | src/momentum_alpha/reconciliation.py:91-132 | merging the same view again changes nothing, with the exact exception |
| PositionMerge.NewerExactly | src/momentum_alpha/runtime_state_merge.py:36-79 | a copy is newer exactly with another quantity, another number of legs, a leg opened after all others, or a leg filled otherwise at the same place |
| StateSave.MergeLatestMarkers | src/momentum_alpha/poll_worker_core_state.py:36-55 | the loop keeps for every symbol the later marker |
| StateSave.RemoveExpected | src/momentum_alpha/poll_worker_core_state.py:74-82 | the removal loop, symbol by symbol |
| StateSave.RemoveExited | src/momentum_alpha/poll_worker_core_state.py:92-98 | the exit loop, symbol by symbol |
| StateSave.MergeCandidates | src/momentum_alpha/poll_worker_core_state.py:100-111 | the candidate loop, symbol by symbol |
| StateSave.MergeStreamCandidates | src/momentum_alpha/stream_worker_core.py:147-153 | the stream's candidate loop, symbol by symbol |
| StateSave.RemoveClosed | src/momentum_alpha/stream_worker_core.py:154-164 | the stream's removal loop, symbol by symbol |
| StateSave.MergeOrderStatuses | src/momentum_alpha/stream_worker_core.py:96-115 | the status merge keeps the newer snapshot for every key |
| StateSave.RuntimeStateStore.SaveStrategyState | src/momentum_alpha/poll_worker_core_state.py:58-131 | a poll save stores the whole new state that the specification gives for the old one |
| StateSave.RuntimeStateStore.SaveUserStreamState | src/momentum_alpha/stream_worker_core.py:118-201 | a stream save likewise |
| StateRuns.RunKeepsExclusive | src/momentum_alpha/poll_worker_core_state.py:67-111 | over any interleaving of both writers no symbol has both a position and a removal marker |
| StateRuns.PollDeletesOnlyWithCause | src/momentum_alpha/poll_worker_core_state.py:74-98 | a poll save deletes only a listed position whose stored copy is not newer, or one that a readable exit marker outdates |
| StateRuns.PollSaveExactly | src/momentum_alpha/poll_worker_core_state.py:67-111 | the poll's position is stored, with its own quantity, exactly when it passes the removal marker that stands and the exit; otherwise exactly a position that was not dropped and passes the exit stays |
| StateRuns.PollMarkerExactly | src/momentum_alpha/poll_worker_core_state.py:74-111 | the marker that stands stays, unless the poll's position has a leg opened after it |
| StateRuns.RemovalTakesEffect | src/momentum_alpha/poll_worker_core_state.py:74-82 | a listed copy that is not newer is gone and marked with the time, unless the same save brings a position opened after it |
| StateRuns.StreamSaveExactly | src/momentum_alpha/stream_worker_core.py:139-164 | the stream's position is stored exactly when it passes the removal marker; then a closed symbol goes and is marked, unless what is there is newer than the closed copy |
| StateRuns.PollFieldsExactly | src/momentum_alpha/poll_worker_core_state.py:113-128 | a poll save takes over its own fields, leaves the stream's, and keeps an add-on hour that it does not give |
| StateRuns.StreamFieldsExactly | src/momentum_alpha/stream_worker_core.py:169-195 | a stream save gives day, leader and add-on hour only where nothing is stored |
| StateRuns.EventIdsExactly | src/momentum_alpha/stream_worker_core.py:169-195 | an event id goes exactly when it has a zoned time more than 24 hours old |
| StateRuns.StatusExactly | src/momentum_alpha/stream_worker_core.py:96-115 | an order status that is brought is stored unless a stored one that was not removed has a later time |
| StateRuns.ExitsExactly | src/momentum_alpha/poll_worker_core_state.py:36-55 | an offered exit marker replaces the stored one exactly when that is missing, unreadable or not later, and it can be read or nothing is stored |
| StateRuns.StaleRemovalIgnored | src/momentum_alpha/poll_worker_core_state.py:74-79 | a removal decided on an outdated copy has no effect at all |
| StateRuns.PollLeavesOnlyReopened | src/momentum_alpha/poll_worker_core_state.py:83-111 | after a poll save every position with a readable zoned exit marker has a leg opened after it |
| StateRuns.OnlyZonedMarkersGuard | src/momentum_alpha/poll_worker_core_state.py:15-23 | a readable exit marker keeps out every position without a later leg exactly when it has a zone |
| StateRuns.StreamLeavesReopened | src/momentum_alpha/stream_worker_core.py:147-153 | a position that a stream save leaves has a leg opened after any given time exactly when the legs that are kept do: the candidate's when it is taken without known history, else the stored ones |
| StateRuns.StreamIgnoresExits | src/momentum_alpha/stream_worker_core.py:147-153 | a witness: a stream save that stores a position which a zoned exit marker outdates |
| StateRuns.LaterMarkerLaws | src/momentum_alpha/poll_worker_core_state.py:36-55 | the marker merge is idempotent and associative, commutative in time, and never moves back |
| StateRuns.RunMarkerIsLatest | src/momentum_alpha/poll_worker_core_state.py:36-91 | after any run the marker is the latest ever offered; none is dropped, the order of writes cannot change its time |
| StateRuns.NoResurrection | src/momentum_alpha/runtime_state_merge.py:18-33 | a removed position is not brought back by any run of writes with an outdated view of it |
| StateRuns.ReopenedIsAccepted | src/momentum_alpha/stream_worker_core.py:147-153 | a removed symbol's candidate is stored exactly when it has a leg opened after the removal |
| StateRuns.StreamFieldsIgnorePolls | src/momentum_alpha/poll_worker_core_state.py:113-128 | event ids and order statuses are what the stream's writes alone would have made them |
| StateRuns.PollFieldsIgnoreStream | src/momentum_alpha/stream_worker_core.py:169-181 | day and daily signal marks are what the poll's writes alone would have made them |
| OrderSnapshots.RegularRoundTrip | src/momentum_alpha/live_account_state.py:45-69 | when a published regular order parses back to its key and snapshot, in both directions |
| OrderSnapshots.AlgoRoundTrip | src/momentum_alpha/live_account_state.py:72-113 | when a published algo order parses back, in both directions |
| OrderSnapshots.ReadRegularRoundTrip | src/momentum_alpha/live_account_state.py:45-113 | a regular order that was read parses back exactly unless its id looks like an algo key or its client id is the empty text |
| OrderSnapshots.ReadAlgoRoundTrip | src/momentum_alpha/live_account_state.py:72-113 | every algo order that was read parses back |
| OrderSnapshots.RegularExactly | src/momentum_alpha/live_account_state.py:45-69 | which regular orders are kept, under which key, and which of two names each field comes from |
| OrderSnapshots.AlgoExactly | src/momentum_alpha/live_account_state.py:72-96 | the same for algo orders |
| OrderSnapshots.PublishedExactly | src/momentum_alpha/live_account_state.py:97-113 | which ids a published order has, and that type, price and quantity stand under both names |
| AccountReads.RequestWeightBudget.Spend | src/momentum_alpha/request_weight_budget.py:23-33 | spends or refuses as a whole; the entries account for every unit and the limit is never passed |
| OrderCache.PublishesLastReply | src/momentum_alpha/live_account_state.py:257-283 | over any run of reads the cache holds for a symbol exactly the last reply it got for it |
| OrderCache.LastIsTheOrder | src/momentum_alpha/live_account_state.py:265-283 | without two orders of one key, an entry is the snapshot of the one active order that has it |
| OrderCache.AppliesWhatIsHeard | src/momentum_alpha/live_account_state.py:371-400 | in any call, failed or not, a reply reaches the cache exactly unless it is a regular one whose symbol's algo read fails right after it |
| AccountCache.LiveAccountStateCache.ReplaceSymbolOrders | src/momentum_alpha/live_account_state.py:257-283 | one symbol's regular or algo entries are replaced, only by lists that were read |
| AccountCache.LiveAccountStateCache.LoadPositionMode | src/momentum_alpha/live_account_state.py:222-238 | when the mode is read, what it becomes, and when a submitting run must fail |
| AccountCache.LiveAccountStateCache.LoadAccountInfo | src/momentum_alpha/live_account_state.py:240-255 | at most one account read a minute unless forced |
| AccountCache.LiveAccountStateCache.ValidateHeldSymbols | src/momentum_alpha/live_account_state.py:371-400 | the pass follows the plan of two reads a symbol exactly as far as the budget reaches; a failed read leaves the reads before it applied |
| AccountCache.LiveAccountStateCache.ApplyStoredProjection | src/momentum_alpha/live_account_state.py:326-348 | the statuses change only when the stored projection did |
| AccountCache.LiveAccountStateCache.FullSync | src/momentum_alpha/live_account_state.py:285-324 | starts over from the stored projection and validates what is held; when it fails, the statuses follow from whether the account reads were done and which order reads were applied |
| AccountCache.LiveAccountStateCache.Tick | src/momentum_alpha/live_account_state.py:426-446 | a plain tick's reads and new statuses; a failed one takes a changed projection over only after its account reads and keeps what was applied |
| AccountCache.LiveAccountStateCache.BuildSnapshot | src/momentum_alpha/live_account_state.py:474-499 | the counter restarts with the minute; only active orders are offered |
| AccountCache.LiveAccountStateCache.Snapshot | src/momentum_alpha/live_account_state.py:402-447 | a normal tick makes reads of weight at most 18, any other at most 150, failed calls included; the budget error never surfaces; control requests are cleared only on success; success or failure, the statuses change by one sound call, and no order read is sent unless a validation is due |
| AccountCache.LiveAccountStateCache.RefreshSymbols | src/momentum_alpha/live_account_state.py:449-472 | a refresh makes reads of weight at most 150 and never runs out of budget; it offers the stored positions, or what the account information says over them when that is asked for; success or failure, the statuses change by one sound call that takes a changed projection over |
| AccountRuns.PassSpends | src/momentum_alpha/live_account_state.py:371-400 | a pass over n distinct symbols with R units left spends exactly min(2n, R) |
| AccountRuns.WhoIsValidated | src/momentum_alpha/live_account_state.py:382-399 | symbol i in order gets its regular read exactly when 2i < R and its algo read exactly when 2i + 1 < R |
| AccountRuns.SkippedExactly | src/momentum_alpha/live_account_state.py:371-381 | a wanted validation is skipped exactly when it is not forced and the last completed pass was in the same interval of the clock |
| AccountRuns.ValidatedAgain | src/momentum_alpha/live_account_state.py:371-447 | over any run, a call that wants a validation and succeeds, an interval or more after the last completed pass, asks for two reads of every held symbol as far as its budget reaches |
| AccountRuns.OncePerInterval | src/momentum_alpha/live_account_state.py:371-400 | while the clock does not go back no unforced pass is made in an interval in which one was completed |
| AccountRuns.PlainTickMaySpend18 | src/momentum_alpha/live_account_state.py:411-418 | a plain tick may spend 18, leaving 2 of 20 for the ticker read; any other 150 |
| AccountRuns.StaleExactly | src/momentum_alpha/live_account_state.py:240-255 | account information is read again exactly when forced or in another minute of the clock |
| AccountRuns.HeadExactly | src/momentum_alpha/live_account_state.py:222-300 | the account reads of a call: the mode while unknown, the information when not of this minute, the risk for a sync, in this order, and only what is served |
| AccountRuns.ProjectionTakesOver | src/momentum_alpha/live_account_state.py:302-348 | a stored projection takes over exactly at a sync or when it is not the one taken over last |
| AccountRuns.RowsGrow | src/momentum_alpha/live_account_state.py:150-172 | the rows are those of one-way and long positions that name a symbol, in order |
| AccountRuns.RiskExactly | src/momentum_alpha/live_account_state.py:140-147 | only information that lists positions replaces the rows at hand, a stored state always does, and a refresh asks for information only when told to |
| AccountRuns.ControlsExactly | src/momentum_alpha/live_account_state.py:350-361 | a control request takes effect wherever it stands among those that wait |
| AccountRuns.ReportIsMinuteSum | src/momentum_alpha/live_account_state.py:481-485 | the reported weight is the sum over the completed calls of the current minute |
| AccountRuns.UseAll | src/momentum_alpha/live_account_state.py:402-472 | whatever snapshots and refreshes a cache is asked for, failed ones included, its statuses are those after a run of sound calls, and its passes those of a run of fitting turns |
| AccountRuns.BrokenOffIsNotHeard | src/momentum_alpha/live_account_state.py:382-399 | a regular reply followed by the failed algo read of its symbol is not applied, and the call has failed |
| AccountRuns.CacheAgreesWithExchange | src/momentum_alpha/live_account_state.py:257-499 | over any run of calls since a projection was taken over, failed calls included, the offered open orders of a symbol are exactly the active orders of the last reply that was heard, and they parse back |
| DailyOpens.DailyOpenCache.RecordDailyOpenUpdate | src/momentum_alpha/market_data_cache.py:147-176 | a stream price wins for its day, and cache and store stay in step |
| DailyOpens.DailyOpenCache.FetchDailyOpenKlines | src/momentum_alpha/market_data_klines.py:8-25 | one read, and a second over the day so far only when the first minute has no kline |
| DailyOpens.DailyOpenCache.EnsureDailyOpenPrices | src/momentum_alpha/market_data_cache.py:201-254 | only wanted, allowed, unpriced symbols are tried, priority ones first, two units each; nothing is left out while the ration lasts |
| DailyOpens.OrderedMembers | src/momentum_alpha/market_data_cache.py:215-219 | the order of trying keeps all symbols and puts exactly the priority ones first |
| DailyOpens.TimesExactly | src/momentum_alpha/market_data_cache.py:207-224 | which day and minute a time is in, and that a symbol without priority waits for two minutes after midnight |
| DailyOpens.TryReads | src/momentum_alpha/market_data_klines.py:8-25 | a try reads the first minute of the day, and the day up to now only when that has no kline |
| DailyOpens.TryIsDue | src/momentum_alpha/market_data_cache.py:215-235 | every try is for a wanted symbol without a price, with priority or two minutes after midnight, and one without priority comes after all wanted priority symbols |
| DailyOpens.LastTryPrices | src/momentum_alpha/market_data_cache.py:225-254 | a price is the open of the first kline of the last try that brought one |
| DailyOpens.PriceStays | src/momentum_alpha/market_data_cache.py:225-254 | without such a try it stays |
| DailyOpens.SaveExactly | src/momentum_alpha/market_data_cache.py:147-176 | a positive price is stored for its day and symbol, and nothing else changes |
| DailyOpenRuns.ReservedCoversSent | src/momentum_alpha/market_data_klines.py:8-25 | two units a try cover its reads |
| DailyOpenRuns.LimitHoldsEveryMinute | src/momentum_alpha/market_data_cache.py:211-235 | while no minute comes back after another one, no minute sees more kline reads than the limit |
| DailyOpenRuns.LimitHoldsWhileClockMovesOn | src/momentum_alpha/market_data_cache.py:211-254 | when the times of the requests do not go back, the reads that the log has for any minute stay within the limit |
| DailyOpenRuns.ReturningBreaksTheLimit | src/momentum_alpha/market_data_cache.py:211-235 | for any sequence of minutes in which one comes back there is a rationed run that breaks the limit |
| DailyOpenRuns.LimitNeedsNoReturn | src/momentum_alpha/market_data_cache.py:211-235 | for every limit that allows a try: the limit holds for all runs over these minutes exactly when none comes back |
| DailyOpenRuns.EnsureAll | src/momentum_alpha/market_data_cache.py:201-254 | whatever is asked of a new cache, its calls form a rationed run, and the log is the reads of these calls, slice by slice |
| StopGate.CoveredStopQuantities | src/momentum_alpha/reconciliation.py:238-246 | the loop sums per symbol what active strategy stops cover |
| StopGate.OneMoreOrder | src/momentum_alpha/reconciliation.py:14-32 | one more order adds its quantity to its symbol's cover exactly when it is a sell STOP_MARKET of the strategy, not known to be over, with a positive quantity; else nothing |
| StopGate.FindUncoveredStopSymbols | src/momentum_alpha/reconciliation.py:223-235 | exactly the positions that their stops do not cover |
| StopGate.VerifyStopProtection | src/momentum_alpha/poll_worker_core_live.py:207-226 | confirmed exactly when what was read can be restored and every position in the offered rows is covered |
| StopGate.RestoredExactly | src/momentum_alpha/reconciliation.py:62-79 | of each symbol the last row with an amount above zero is held |
| StopGate.RunGate | src/momentum_alpha/poll_worker_core_live.py:443-579 | entries go out exactly when the run submits, no rate limit is set and the positions checked last are covered by the orders read last; after a refresh these are the stored positions |
| StopGate.SubmitsExactly | src/momentum_alpha/poll_worker_core_live.py:240-548 | the same said in the tick's own fields |
| StopGate.GateGuardsExactly | src/momentum_alpha/poll_worker_core_live.py:512-548 | after a refresh entries go out only with every position of the tick's own first read covered, whatever the orders, exactly when nothing is stored, every symbol of that read is stored with at least its quantity, or a nameless symbol is stored, which blocks all |
| StopGate.FirstReadPassesCheck | src/momentum_alpha/poll_worker_core_live.py:512-548 | covering what the tick read is enough to pass the refreshed check exactly when the stored positions hold no more of any symbol, save for the nameless one |
| StopGate.SubmitsUnderCover | src/momentum_alpha/poll_worker_core_live.py:443-579 | entries that go out without a refresh, or with the first read stored, go out with every position of that read covered |
| LiveTick.RunTick | src/momentum_alpha/poll_worker_core_live.py:229-579 | from the account cache to the gate: on a ready cache the first read is the account information over the stored positions, the positions checked last are exactly those the cache then holds, and every cache call is a sound one |
| LiveTick.WithoutListingsIsSafe | src/momentum_alpha/live_account_state.py:402-447 | a ready tick whose account information lists no positions submits only with everything it holds covered |
| LiveTick.EntriesPassUncovered | src/momentum_alpha/poll_worker_core_live.py:512-548 | otherwise: the account lists a position that is not stored, its stop is not placed, and the entries go out past it |
| StopGate.ReleaseRejectedBaseEntries | src/momentum_alpha/poll_worker_core_live.py:105-162 | exactly the base symbols that were not planned or failed in a known way lose their marks; the leader goes back exactly on a retryable failure |
| StopGate.KeepsMarkExactly | src/momentum_alpha/poll_worker_core_live.py:105-162 | a base symbol keeps its mark exactly when a base order was planned for it and none failed in a way that is known |
| StopGate.BlockedTickReleasesAll | src/momentum_alpha/poll_worker_core_live.py:563-585 | a blocked tick releases every base symbol, and the planned ones are retryable |
| StopGate.GateAndRelease | src/momentum_alpha/poll_worker_core_live.py:542-585 | when protection blocks the tick, by the positions checked last, all base symbols lose their marks and the old leader returns exactly if a base order was planned |
| StopGate.BuildCoveragePlan | src/momentum_alpha/reconciliation.py:173-220 | the plan lists in symbol order exactly the holdings that need and can get a stop |
| StopGate.CoveragePlanIsComplete | src/momentum_alpha/reconciliation.py:173-220 | every uncovered symbol with a market price gets a stop strictly between zero and the market |
| StopGate.TargetIsFirstValid | src/momentum_alpha/reconciliation.py:185-218 | the target is the first of the candidate prices that lies strictly between zero and the market |
| TradeFetch.WindowRanges | src/momentum_alpha/cli_backfill.py:226-232 | the windows tile the range end to end, all but the last of full length |
| TradeFetch.TilesCover | src/momentum_alpha/cli_backfill.py:226-232 | an instant is in some window exactly when it is in the range |
| TradeFetch.TileAt | src/momentum_alpha/cli_backfill.py:226-232 | the i-th window begins i full lengths after the start and is as long as fits |
| TradeFetch.WithinExactly | src/momentum_alpha/cli_backfill.py:359-386 | which times a read of a range covers, to the millisecond |
| TradeFetch.HalfExactly | src/momentum_alpha/cli_backfill.py:388 | half of a duration, rounded to the even microsecond |
| TradeFetch.FetchAll | src/momentum_alpha/cli_backfill.py:359-406 | the recursion ends and is the bisection of its window, split exactly where replies are full and longer than a minute |
| TradeFetch.FindsExactly | src/momentum_alpha/cli_backfill.py:359-406 | only trades of the range are found, and all of them unless a minute is saturated |
| TradeFetch.OnlyMinutesSaturate | src/momentum_alpha/cli_backfill.py:374-386 | a full window that is not split is at most a minute long |
| TradeStore.TradeFillStore.TradeFillExists | src/momentum_alpha/cli_backfill.py:174-193 | found exactly when a fill of that symbol and id is stored |
| TradeStore.TradeFillStore.PersistUserTrades | src/momentum_alpha/cli_backfill.py:261-317 | the loop stores what the specification says and counts it |
| TradeStore.StoredOnce | src/momentum_alpha/cli_backfill.py:174-317 | every offered id ends up stored, once if it was not there |
| TradeStore.NewFillsRecordTrades | src/momentum_alpha/cli_backfill.py:261-317 | what was stored stays, and each new fill records a trade with a time, under its symbol and id |
| TradeStore.KnownInsertNothing | src/momentum_alpha/cli_backfill.py:276-283 | when all ids are known exactly the trades without an id are inserted |
| TradeBackfill.BackfillSymbol | src/momentum_alpha/cli_backfill.py:441-469 | one bisection a window, all its trades offered to the store in order |
| TradeBackfill.Backfill | src/momentum_alpha/cli_backfill.py:409-491 | a completed run covers every symbol and window and returns the number of new rows |
| TradeBackfill.NormalizedExactly | src/momentum_alpha/cli_backfill.py:419 | the symbols of a run are those asked for in upper case, each once and in order, without the empty one |
| TradeBackfill.CollectsTheRange | src/momentum_alpha/cli_backfill.py:359-469 | no trade of the range is missed across windows and halves, unless a minute is saturated |
| TradeBackfill.EveryTradeStoredOnce | src/momentum_alpha/cli_backfill.py:409-491 | every trade of the range with an id is stored exactly once, under its own symbol or the one asked for, in upper case |
| TradeBackfill.SecondRunInsertsOnlyAnonymous | src/momentum_alpha/cli_backfill.py:409-491 | a second run inserts exactly the trades without an id, however its windows were split |
| KlineScan.RowsForSymbolDay | src/momentum_alpha/cli_backfill_candidates.py:163-234 | the single pass gives exactly the rows of the definition that looks at all klines |
| KlineScan.ScanIsDefinition | src/momentum_alpha/cli_backfill_candidates.py:182-232 | what the pass remembers answers what the definition asks |
| KlineScan.HourLowIsMinimum | src/momentum_alpha/cli_backfill_candidates.py:192-201 | an hour's low is attained and bounds all its usable klines; it is missing only when there is none |
| KlineScan.DailyOpenExactly | src/momentum_alpha/cli_backfill_candidates.py:203-214 | the day opens with the first kline within the limits that counts and has an open |
| KlineScan.RowsAreBacked | src/momentum_alpha/cli_backfill_candidates.py:182-232 | a row is put out exactly for a counting kline within the limits once the day opened above zero, with its close, its change on the open, the low of its hour so far and of the whole hour before |
| Ranking.RankCandidateRows | src/momentum_alpha/cli_backfill_candidates.py:237-271 | grouping and ranking loops give the ranking of the specification |
| Ranking.RanksAreOrdered | src/momentum_alpha/cli_backfill_candidates.py:243-271 | ranks run from one without gaps, changes never rise, the leader's gap is not negative |
| Ranking.KeepsTheBest | src/momentum_alpha/cli_backfill_candidates.py:244-247 | as many as the slice takes are kept, and nothing dropped would come before anything kept |
| Ranking.RankedByTime | src/momentum_alpha/cli_backfill_candidates.py:237-271 | the rows of one timestamp in the whole ranking are that timestamp's own ranking |
| Ranking.RankingIgnoresOrder | src/momentum_alpha/cli_backfill_candidates.py:237-271 | every permutation of the rows is ranked alike when symbols are unique per timestamp |
| Ranking.ThreadsRankAlike | src/momentum_alpha/cli_backfill_candidates.py:303-356 | any order of completion of the fetches ranks exactly as the sequential loop, even with repeated timestamps |
| Sorting.SortedPermutation | src/momentum_alpha/cli_backfill_candidates.py:244-247 | sorting a permutation gives the same list when the key identifies the element |
| CandidateTable.CandidateSnapshots.InsertBulk | src/momentum_alpha/analytics_writes_candidates.py:38-96 | select, delete and insert row by row, under upper-case symbols, give the table and count of the specification |
| CandidateTable.PrecedenceOrders | src/momentum_alpha/analytics_writes_candidates.py:11-33 | klines outrank polls, polls outrank replays, an unknown source is no better than a replay |
| CandidateTable.TableHoldsTheWinner | src/momentum_alpha/analytics_writes_candidates.py:11-61 | a time and symbol has the last written row among those of highest precedence |
| CandidateTable.CountIsEffect | src/momentum_alpha/analytics_writes_candidates.py:56-96 | the count is the number of rows that no earlier row of higher precedence shuts out |
| CandidateTable.BatchesKeepTheTable | src/momentum_alpha/analytics_writes_candidates.py:38-96 | over any batches: one row per time and symbol, the winner of the whole history, counts that add up |
| CandidateTable.CaseDoesNotSplit | src/momentum_alpha/analytics_writes_candidates.py:46-61 | however symbols are spelled, two rows of one time never differ only in the case of their symbols |
| Timeline.BuildSharedTimeline | src/momentum_alpha/dashboard_data_payloads.py:12-46 | the two pointers give for each timestamp the leading points that are not later |
| Timeline.TimelineIsAsOfJoin | src/momentum_alpha/dashboard_data_payloads.py:12-46 | on ordered lists: strictly rising timestamps, each with the last account and risk point at or before it |
| Timeline.OrderIsNeeded | src/momentum_alpha/dashboard_data_payloads.py:12-34 | at all times of the timeline a pointer gives "the last at or before" exactly unless two stamps are in the wrong order and the later one is a time, or is missing and a time lies before the earlier one |
| Timeline.ZeroPointFits | src/momentum_alpha/dashboard_data_payloads.py:102-114 | the closing point of a flat account keeps the timeline right exactly when none is added, there is no risk point, or the last one is not later |
| Timeline.FlatEndsWithoutRisk | src/momentum_alpha/dashboard_data_payloads.py:102-118 | the timeline of a flat account with any time ends with open risk zero, wherever the closing point lies |
| Timeline.AdjustEquity | src/momentum_alpha/dashboard_data_payloads.py:68-101 | each row's equity minus the sum of all external flows at or before it, whatever order the flows came in |
| Timeline.AdjustedExactly | src/momentum_alpha/dashboard_data_payloads.py:76-95 | a row's adjusted equity together with the flows so far is its equity |
| Timeline.OneMoreFlow | src/momentum_alpha/dashboard_data_payloads.py:76-81 | a flow counts with its readable change exactly when it is external and not later |

## Left out

- Exchange.Client and AccountReads.AccountClient: the attempts inside one client call. The HTTP client repeats GET and DELETE
  up to three times, after 418, 429 and network errors too (src/momentum_alpha/binance_client.py:212-298), so every bound on
  reads and weight, and "a rate-limited call is the last one", counts client calls; the requests sent can be three times as many.
- Exchange.Client: HTTP signing, response bodies that are not the documented objects, and the text of error reasons.
- Broker.BinanceBroker: log lines, sleeping between attempts, order tags that say "recovered", and replacement
  quantities that cannot be read as numbers.
- Orders.PairIsSound: decimal text of quantities and prices; symbol tokens in ids (with their digest) are inputs.
- Models: stop risk, daily change and market snapshots; decimal precision.
- Fills.CumulativeFold and Fills.IncrementsAgreeWithTotals: fills without an order id (`Fills.RunConserves` covers them).
- PositionMerge and StateSave: legs without a zoned opening time; what a stored timestamp parses to is part of the marker.
- StateRuns.PollLeavesOnlyReopened: holds for poll saves; stream saves do not look at exit markers
  (src/momentum_alpha/stream_worker_core.py:147-153; `StateRuns.StreamLeavesReopened` has the exact form), so a stream
  write may keep such a position until the next poll save.
- AccountCache: entry prices and update times of position rows, ids that are the number zero, letter case of statuses,
  and the order in which open orders are listed.
- DailyOpens.DailyOpenCache.EnsureDailyOpenPrices: stream updates that arrive in the middle of a call.
- LiveTick: strategy and stop replacement between the two reads (their outcome is an input), and how an order's texts are
  read as numbers.
- StopGate: locks that give live orders priority, audit records, and the repair of failed stops after submission.
- StopGate.RunGate: releasing signals when a rate limit stops submission; the code records no failure for skipped orders.
- TradeStore: what order metadata adds to a stored fill, and the fee and profit columns.
- TradeBackfill: inferring symbols from the runtime database (an input here).
- KlineScan: float rounding of millisecond timestamps; the choice of opening price for a start in the middle of a day is
  modelled as coded, without a claim that it equals the true open of the day.
- Common.Upper: letters outside ASCII keep their case.
- Timeline: margin usage and the other columns that are copied through; whether the account is flat and its latest
  position snapshot are inputs, and risk points come stamped and sorted, as the series builder makes them.
- Strategy decisions, dashboards, command-line parsing, health reports and analysis scripts: easy wrappers or reporting.
