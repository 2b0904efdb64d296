# Arbitrage decision logic of the PolyArb Python backend, in Dafny

The bot looks for binary prediction markets whose YES and NO asks sum to less
than 1. When they do, it buys both legs, so the position pays 1 whatever the
outcome. This project models the decisions in the Python backend that lead up to
and follow such a trade. Each part is written as pure functions over immutable
values, and proofs are stated about them:

- **Edge detection.** Two variants exist, and both are modelled:
  - the backend scanner's `analyze_market_for_arbitrage` (module `Scanner`);
  - the stand-alone demo's variant (module `DemoScanner`).

  Each turns a market's `outcomePrices` field into a sum, an edge in percent and
  a threshold decision. `Markets` models the shapes the field takes:
  - missing, an already-decoded list, the empty text or a sentinel text;
  - a text that is not JSON, or decodes to a JSON list, a JSON string, a JSON
    object (only its size) or a JSON scalar;
  - a JSON string is indexed character by character, and only an ASCII digit
    converts (`Markets.CharItem`);
  - a price item that converts, that `float()` rejects with ValueError, or a
    item of the wrong type for `float()` (a JSON null, a nested list or
    object) that makes it raise TypeError.
- **Publication.** One step of the scanning loop (`Scanner.Publish`): analyse
  the first 50 markets, sort by edge descending, keep 20.
- **Adaptive sizing** (`Risk`): `get_adaptive_position_size`, with its emergency
  stop and the capped and floored scaling steps. On a full window each call
  takes exactly one up-step or one down-step, and k such steps are solved in
  closed form.
- **Fill monitoring** (`FillMonitor`): `monitor_fills` is a fold over the finite
  sequence of poll rounds that fit before the deadline. `MonitorFillsLoop`
  gives the same computation as a loop.
- **Order execution** (`OrderManager`): `execute_arbitrage` and the partial-fill
  mitigation (retry the missing leg, or exit the filled one at the best bid).
  Every answer the exchange gives appears as an input.
- **Position validation** (`Positions`): the `PositionValidator` store, modelled
  as an insertion-ordered association list with unique keys, like a Python
  dict.
- **The execution engine** (`Engine`): `execute_arbitrage_opportunity`, which
  - maps fill statuses onto the dashboard's statuses;
  - keeps the risk history trimmed to twice the scaling window;
  - keeps the execution log newest-first and capped at 500 entries.

  The module also holds the pure aggregation behind `/api/metrics` and
  `/api/logs`. The module-level globals the source mutates form one `Engine`
  value, which each call returns updated.

Prices, sizes and PnL are Dafny `real`s: exact, with no NaN, no infinities and
no binary rounding.

Where the code differs from the design the repository describes, the model
follows the code:

- The backend's edge is not clamped at zero and can be negative.
- `executable` means `edge > min_edge * 0.1`. It does not mean `edge >= min_edge`.
- A timed-out or never-placed execution is reported as FAILED. No code path
  produces CANCELLED or PENDING (`Engine.NoCancelledOrPendingLogs`).
- The order manager books PnL 0 for a hedged (BOTH_FILLED) execution. It does
  not book `size * edge`. So with only real executions in the log, the
  dashboard's PnL is 0 (`Engine.EngineMetricsShowNoPnl`).
- The demo variant catches only ValueError. It raises instead of returning
  None on a price item of the wrong type for `float()`, a scalar JSON value, a JSON object of two or
  more keys, an already-decoded list, or a found edge on a market without
  `question`. `DemoScanner.Analysis.Raises` models this.
- The demo has no sentinel check and indexes a JSON string: it reports the
  JSON string `"00"` with a 100 percent edge, which the backend rejects.

## Model

| member | source | states |
|---|---|---|
| Markets.Truncate | backend/python/app.py:328 | the name is the first `min(len, n)` characters of the question: a prefix of it, no longer than `n` |
| Markets.CharItem | backend/python/app.py:299-300 | `float()` of a one-character string converts exactly the ASCII digits, to 0 or at least 1, and never meets an item of the wrong type |
| Markets.Indexed | backend/python/app.py:294-300 | integer indexing is available exactly for a JSON list or a JSON string; a list yields its items and a string the conversion of each character |
| Scanner.ListedItems | backend/python/app.py:290-297 | a price list is reached exactly when the field is a non-empty list, or a non-empty text outside the four sentinels that decodes to a JSON list or a JSON string; a list field already decoded yields its own items, and a string yields its characters as items; missing, empty and sentinel fields never reach it |
| Scanner.FirstTwo | backend/python/app.py:296-304 | two prices are read exactly when the list has at least two items and both convert; they are the first two items |
| Scanner.ParsePrices | backend/python/app.py:290-304 | a quote exists exactly when the list is reached and its first two items convert; the quote is then (yes, no) = (`float` of item 0, `float` of item 1) of that list; a falsy or sentinel field gives none |
| Scanner.AnalyzeMarket | backend/python/app.py:279-341 | an opportunity exists exactly when the quote parses, both prices lie strictly between 0.01 and 0.99, and the record has an id. Then: sum = yes + no; edge = (1 - sum) * 100, unclamped; executable iff edge > min_edge * 0.1; id is `arb_` + market id; name is the `question` (or "Unknown" when missing) cut to its first 80 characters; volume carried over |
| Scanner.BoundaryPricesRejected | backend/python/app.py:306-310 | a price at or above 0.99 or at or below 0.01 on either leg gives None |
| Scanner.ExecutableIffSumBelow | backend/python/app.py:313-318 | executable exactly when the prices sum below 1 - min_edge / 1000 |
| Scanner.EdgeSign | backend/python/app.py:312-314 | the edge is positive iff the sum is below 1, negative iff above 1, and lies strictly between -98 and 98 |
| Scanner.OverpricedMarketHasNegativeEdge | backend/python/app.py:313-318 | asks 0.55 and 0.50 are accepted with edge -5 and are not executable: no clamping |
| Scanner.SentinelRejected | backend/python/app.py:291-292 | the four sentinel texts are rejected whatever they decode to |
| Scanner.AnalyzeAll | backend/python/app.py:364-368 | the collected opportunities number exactly the accepted markets, and an opportunity is collected exactly when some market's analysis yields it |
| Scanner.AnalyzeAllAppend | backend/python/app.py:364-368 | collecting over two runs of markets one after the other is collecting over each run in turn; with `Scanner.AnalyzeOne` this fixes the result as the accepted analyses in market order |
| Scanner.AnalyzeOne | backend/python/app.py:366-368 | one market contributes its analysis when accepted and nothing otherwise |
| Scanner.StringPricesRejected | backend/python/app.py:294-310 | a price text that decodes to a JSON string is never accepted: its items are single digits, which lie outside the open price band (0.01, 0.99) |
| Scanner.InsertByEdge | backend/python/app.py:371 | inserting into an edge-descending list keeps it sorted and adds exactly the inserted element |
| Scanner.SortByEdge | backend/python/app.py:371 | the sort yields a permutation of its input, sorted by descending edge |
| Scanner.Publish | backend/python/app.py:365-389 | the published list is sorted by descending edge and has min(20, number of candidates) entries |
| Scanner.SortedPrefixDominates | backend/python/app.py:371-388 | a prefix of a sorted list is a sub-multiset, and no element left out has a higher edge than one kept |
| Scanner.PublishKeepsTopEdges | backend/python/app.py:371-388 | the published entries are candidates, without duplication, and no dropped candidate has a higher edge than a published one |
| Scanner.PublishUsesFirstMarkets | backend/python/app.py:365-368 | every published opportunity is the analysis of one of the first 50 markets |
| DemoScanner.ClampedEdgeIsFlooredRawEdge | backend/python/demo.py:48 | the demo edge is the raw edge floored at zero: never negative, positive iff the total cost is below 1, zero from a total of 1 on |
| DemoScanner.Analyze | backend/python/demo.py:32-63 | an opportunity is found exactly when the text decodes to a list or string of at least two elements whose first two convert, their clamped edge exceeds 0.1, and a question exists; then the label is the first 50 characters of `question` followed by "...", total cost = yes + no and the volume is `volume24hr`. It raises exactly for an already-decoded list, a JSON scalar, a JSON object of two or more keys, a first price of the wrong type for `float()` (a JSON null, a nested list or object), a numeric first price with such a second one, or a found edge without a question. Every other input, a falsy field among them, gives None |
| DemoScanner.NoOpportunityWithoutDiscount | backend/python/demo.py:45-50 | a found opportunity has total cost below 0.999 and a positive edge; a total cost of 1 or more never yields one |
| DemoScanner.UnparseablePriceYieldsNone | backend/python/demo.py:38-63 | a text that is not JSON, a list or string decoding of fewer than two elements, a first price that `float()` rejects with ValueError, or a numeric first price with a rejected second one, gives None rather than an error |
| DemoScanner.AgreesWithBackendEdge | backend/python/demo.py:45-50 | where the backend accepts a market, the demo reports it exactly when the backend's edge exceeds 0.1, and then with the same edge |
| DemoScanner.ZeroSentinelReportedAsFullEdge | backend/python/demo.py:34-50 | the text `["0", "0"]`, which the backend rejects, is reported by the demo with a 100 percent edge |
| DemoScanner.NonListDecodingsDiverge | backend/python/demo.py:38-61 | the JSON string `"00"`, which the backend rejects, is reported by the demo with a 100 percent edge; a JSON object of two keys, which the backend rejects, makes the demo raise |
| Positions.Find | backend/python/order_manager.py:640-644 | a lookup succeeds exactly for stored keys and returns a stored entry's position |
| Positions.FindEntry | backend/python/order_manager.py:644 | with unique keys, every stored entry is what a lookup of its key returns |
| Positions.Put | backend/python/order_manager.py:660-666 | recording makes the key map to the new position; every other key keeps its value; a new key is appended at the end, and an existing one leaves the store's length unchanged |
| Positions.PutKeepsPlaces | backend/python/order_manager.py:660-666 | re-recording a stored market keeps every key at its place, as assigning to an existing dict key keeps its insertion position |
| Positions.PutKeepsKeysUnique | backend/python/order_manager.py:660-666 | recording keeps keys unique |
| Positions.Delete | backend/python/order_manager.py:655 | deletion removes exactly the key, keeps every other key's value, and keeps keys unique |
| Positions.DeleteAbsent | backend/python/order_manager.py:655 | deleting a key the store does not hold leaves the store unchanged |
| Positions.DeleteKeepsOrder | backend/python/order_manager.py:655 | under unique keys, deleting the key at place i leaves exactly the entries before i followed by the entries after i, in their order, as `del` on a dict does |
| Positions.ValidateArbitrage | backend/python/order_manager.py:592-633 | valid iff both orders exist and are both filled or both unfilled. Both filled records `hedged` at the YES size; exactly one filled records `naked_yes` or `naked_no` at that leg's size; otherwise the store is unchanged |
| Positions.ValidateArbitrageKeepsKeysUnique | backend/python/order_manager.py:592-633 | validation keeps keys unique |
| Positions.ValidateExit | backend/python/order_manager.py:635-658 | valid iff the market is recorded, not hedged, and the exit order is FILLED; only then is the entry removed; every other market keeps its entry |
| Positions.NakedPositions | backend/python/order_manager.py:672-678 | the naked view holds exactly the stored entries of type naked_yes or naked_no |
| Positions.EmergencyCloseAll | backend/python/order_manager.py:680-694 | the emergency list names the markets of the naked view, one per entry and in its order; with unique keys it names exactly the markets whose recorded position is naked_yes or naked_no, each once |
| Positions.NakedViewExact | backend/python/order_manager.py:672-678 | with unique keys, a lookup in the naked view gives the store's position for every naked market and nothing for any other market |
| Positions.NakedKeysExact | backend/python/order_manager.py:672-678 | with unique keys, the naked view has unique keys and its keys are exactly the markets the store holds naked |
| Positions.MarketIds | backend/python/order_manager.py:688-692 | the ids are the entries' market ids in order, the id set is the key set, and unique keys give distinct ids |
| Positions.NakedFilterUnique | backend/python/order_manager.py:672-678 | the naked view has unique keys |
| FillMonitor.Observe | backend/python/order_manager.py:418-427 | a poll marks the order FILLED only on an exact size match, PARTIAL_FILL on any other positive size, and otherwise leaves its status; the sizes reported are copied |
| FillMonitor.Step | backend/python/order_manager.py:416-437 | one pass sets a leg's flag iff it was set or the leg exists and is reported at full size; a set flag is never cleared and its order never polled again |
| FillMonitor.Monitor | backend/python/order_manager.py:416-454 | the loop never yields NONE_FILLED; flags are monotone; orders keep presence and size; BOTH_FILLED only with both flags set |
| FillMonitor.MonitorClassifies | backend/python/order_manager.py:416-454 | BOTH_FILLED iff both legs end flagged, ONE_FILLED iff exactly one, TIMEOUT iff neither; a leg ends flagged iff it was, or a remaining round reports its full size |
| FillMonitor.MonitorLegStatus | backend/python/order_manager.py:418-437 | an unfilled leg ends FILLED iff some round reports its full size; otherwise PARTIAL_FILL after a positive report, and its old status if there was none |
| FillMonitor.FillClassification | backend/python/order_manager.py:403-454 | on fresh orders: BOTH/ONE/TIMEOUT by how many legs were seen at full size; a leg ends FILLED iff seen at full size, else PARTIAL_FILL or PENDING |
| FillMonitor.MonitorFillsLoop | backend/python/order_manager.py:403-454 | the loop with its early return computes the same status and orders as the fold |
| OrderManager.HandleOneLeg | backend/python/order_manager.py:479-579 | with an order missing: PnL 0. Re-hedged exactly when the other leg's current ask plus the filled price is below 1, the retry is placed and it reports the full size; PnL 0 then. Exit at the best bid exactly when the other book was read, no retry was due or it was placed and did not fill, and the own book has bids; the loss is (price - bid) * size and the PnL its negation. Every other case books the assumed loss of 0.01 |
| OrderManager.MitigationLossBounded | backend/python/order_manager.py:479-579 | with a best bid between 0 and the entry price, a mitigation never gains; with an order of at least one share it never loses more than the filled leg cost |
| OrderManager.HandlePartialFill | backend/python/order_manager.py:456-477 | dispatches on which single leg is FILLED; with both or neither FILLED it returns PnL 0 and the unexpected-state note |
| OrderManager.ExecuteArbitrage | backend/python/order_manager.py:288-401 | an exception before both orders exist gives NONE_FILLED, PnL 0, store untouched. Otherwise the fill status is the monitor's and the store is the validator's. NONE_FILLED, TIMEOUT and BOTH_FILLED give PnL 0; only TIMEOUT cancels, and it cancels both orders |
| OrderManager.ExecuteArbitrageKeepsKeysUnique | backend/python/order_manager.py:352-354 | an execution keeps the validator's keys unique |
| OrderManager.ExecutionClassification | backend/python/order_manager.py:288-401 | NONE_FILLED iff placement failed; otherwise BOTH_FILLED, ONE_FILLED or TIMEOUT as both, exactly one or neither leg was reported at full size |
| OrderManager.BothFilledIsHedged | backend/python/order_manager.py:357-363 | BOTH_FILLED: both orders FILLED, PnL 0, nothing cancelled, market recorded as hedged at the order size |
| OrderManager.OneFilledIsNaked | backend/python/order_manager.py:365-393 | ONE_FILLED: exactly one order FILLED, nothing cancelled, the filled side recorded as naked, PnL from the mitigation, and notes followed by both exposure warnings |
| OrderManager.NakedRecorded | backend/python/order_manager.py:592-633 | validating a pair of which exactly one order is FILLED fails and records that side as naked at the order size |
| OrderManager.PlacedLegsFollowReports | backend/python/order_manager.py:403-454 | a placed leg ends FILLED exactly when some poll round reports it at its full size |
| OrderManager.TimeoutCancelsBoth | backend/python/order_manager.py:379-386 | TIMEOUT: both orders cancelled, PnL 0, no position recorded |
| OrderManager.FailedSecondPlacementLeavesFirstOrder | backend/python/order_manager.py:323-328 | when placing NO raises after YES was placed, the YES order is neither recorded nor cancelled |
| Risk.Successes | backend/python/app.py:453-458 | the success count is at most the number of entries and is full or zero exactly when all or none of the entries are BOTH_FILLED |
| Risk.Recent | backend/python/app.py:453 | the recent window is the last `n` entries of the history |
| Risk.ScaleUp | backend/python/app.py:462-472 | the up-move never lowers the size and, when it changes it, stays within the maximum |
| Risk.ScaleDown | backend/python/app.py:473-483 | the down-move never raises the size and, when it changes it, stays at or above the initial size |
| Risk.AdaptivePositionSize | backend/python/app.py:433-485 | at or past the stop loss: size 0 and trading disabled. With less than a window of history: the current size, state unchanged. Otherwise the size is exactly one up-step (`Risk.ScaleUp`) of the current size on a good success rate and one down-step (`Risk.ScaleDown`) on a poor one, and only the size is stored |
| Risk.SizingStaysInBand | backend/python/app.py:462-483 | a size in [initial, max] stays in that band |
| Risk.ScaleUpClosedForm | backend/python/app.py:462-472 | k up-steps give min(size * factor^k, max) |
| Risk.ScaleDownClosedForm | backend/python/app.py:473-483 | k down-steps give max(size / factor^k, initial) |
| Engine.StatusOf | backend/python/app.py:613-638 | BOTH_FILLED maps to BOTH_FILLED, ONE_FILLED to PARTIAL_FILL, NONE_FILLED and TIMEOUT to FAILED |
| Engine.PushHistory | backend/python/app.py:652-672 | the history after appending is the most recent min(len + 1, 2 * window) entries, ending with the new one |
| Engine.PushLog | backend/python/app.py:701-704 | the new entry goes first, the older entries follow in order, and the log holds at most 500 entries |
| Engine.ResultOf | backend/python/app.py:613-650 | the result's status is the mapped status and its PnL the order manager's; success iff BOTH_FILLED; the details keep the notes and gain one naked-exposure warning exactly when the market is left naked |
| Engine.Settle | backend/python/app.py:583-717 | after an execution the counter advances; the result is the order manager's outcome as mapped by `Engine.ResultOf`, and the store is the outcome's; the log gains the new entry first (capped at 500); the daily PnL gains the execution's PnL; the history is the old one with the new entry appended and trimmed to twice the window |
| Engine.ExecuteOpportunity | backend/python/app.py:488-717 | trading disabled: refused, state unchanged. A non-positive size: refused, and the state is exactly the sizing's: unchanged for a caller's size, trading disabled at the stop loss. When building the missing order manager raises: the sizing's state change and the counter increment persist and nothing else changes. It executes exactly when it is neither refused nor interrupted, and the execution is then settled |
| Engine.ResultClassification | backend/python/app.py:613-638 | BOTH_FILLED, PARTIAL_FILL or FAILED as both, exactly one or no leg was reported at full size (or placement failed); never CANCELLED or PENDING; a hedge has both flags and PnL 0, a partial fill exactly one flag, a failure none and PnL 0; the YES flag is set exactly when the YES leg was placed and reported at full size, and likewise for NO |
| Engine.FlagsFollowReports | backend/python/app.py:613-637 | each leg's filled flag is set exactly when that leg was placed and reported at full size |
| Engine.LoggedEntryConsistent | backend/python/app.py:687-699 | the logged actual edge is the expected edge on BOTH_FILLED and 0 otherwise |
| Engine.PushLogKeepsWellformed | backend/python/app.py:701-704 | putting a consistent entry with the next id first keeps the log capped, newest-first and consistent |
| Engine.SettleKeepsWellformed | backend/python/app.py:583-717 | settling an outcome whose store has unique keys and whose log entry is consistent keeps the engine well-formed |
| Engine.ExecutionKeepsWellformed | backend/python/app.py:687-704 | every execution keeps the log capped, newest-first and consistent, and keeps the position keys unique |
| Engine.InitialEngineWellformed | backend/python/app.py:200-208 | the initial globals are well-formed |
| Engine.EmergencyStopIsSticky | backend/python/app.py:511-539 | once the daily PnL is at or below the stop loss, an adaptively sized execution is refused and disables trading, and every later execution is refused |
| Engine.SameWindowSameSizing | backend/python/app.py:446-459 | two histories that agree on whether a window is full, and on the most recent window when it is, give the same size |
| Engine.TrimmingKeepsSizing | backend/python/app.py:667-672 | trimming the history to twice the window never changes a sizing decision |
| Engine.FilledLogs | backend/python/app.py:809-812 | the trades are the BOTH_FILLED entries, each as often as the log holds it, and nothing else; their number is the count of BOTH_FILLED entries, and their PnL and edge totals are the conditional sums over the log |
| Engine.AverageEdge | backend/python/app.py:812-816 | the average times the number of trades is the edge total; 0 without trades |
| Engine.GetMetrics | backend/python/app.py:805-833 | trades = the number of BOTH_FILLED entries; today's PnL = their PnL total; average edge = their edge total divided by their number, 0 without trades; win rate 100 iff any trade; a seven-day history that is zero except today's total when it is positive |
| Engine.MeanFilledEdge | backend/python/app.py:812-816 | the mean is the expected-edge total of the BOTH_FILLED entries divided by their number, and 0 when there are none |
| Engine.AverageEdgeWithinBounds | backend/python/app.py:812-816 | a mean lies between the bounds of what it averages |
| Engine.AvgEdgeWithinBounds | backend/python/app.py:812-816 | the dashboard's average edge lies between the smallest and the largest edge of the trades |
| Engine.EngineMetricsShowNoPnl | backend/python/app.py:809-822 | with only real executions in the log, today's PnL and the whole PnL history are 0 |
| Engine.Head | backend/python/app.py:842 | `logs[:limit]` is a prefix of length min(limit, len), or len + limit (floored at 0) for a negative limit |
| Engine.Select | backend/python/app.py:844 | filtering keeps exactly the entries of the requested status |
| Engine.GetLogs | backend/python/app.py:836-846 | the answer holds exactly the entries of the first `limit` with the requested status; with no status, or an empty one, it is the first `limit` unchanged |
| Engine.GetLogsNewestFirst | backend/python/app.py:836-846 | the answer is newest-first whenever the log is |
| Engine.NoCancelledOrPendingLogs | backend/python/app.py:836-846 | filtering a well-formed log for CANCELLED or PENDING finds nothing |

## Left out

- HTTP: market fetching, order-book and order requests. Every exchange answer is an input (`OrderManager.Env`, `OrderManager.Recovery`), and a scan takes a list of market records.
- Threads, `time.sleep` and the wall clock. `monitor_fills` and the 10-second retry window become finite sequences of observations. Timestamps and execution times are not modelled. A log entry's id is the counter value, without the time prefix.
- Logging, and `round(...)` of prices, edges and PnL. Reals are exact. The metrics sum unrounded PnL.
- JSON details of market records: `volume` and `volume24hr` are taken as numbers. `id` and `question` are present strings or missing.
- `MockClobClient`, `ClobClient` and `wallet_manager.py` (environment variables and logging).
- `initialize_order_manager` (app.py:67-90) always assigns an order manager unless its fallback constructor raises, so the branch for a manager still missing afterwards (app.py:560-581) never runs and is not modelled. The exception of the fallback constructor escapes `execute_arbitrage_opportunity`; the input `initRaises` selects it, and it is modelled only as the response `InitialisationRaised` with the state changes made before it.
- The Flask routes themselves. `/api/execute` only simulates an execution and is not modelled; it is the one writer of BOTH_FILLED log entries with non-zero PnL. `/api/bot/config`, `/api/bot/status`, `/health`, `auto_execute_arbitrage` (whose execution step is a no-op) and `get_active_positions` (a copy) are also left out.
- The `except` branch of `execute_arbitrage_opportunity`. The order manager catches every exception itself, and nothing else in the `try` block can raise on the modelled data.
- `int(limit)` of `/api/logs` raising on a non-numeric limit.
- Notes are modelled as a sequence of `Note` fragments instead of one concatenated string. Formatted numbers are dropped except the realised exit loss.
- Risk.AdaptivePositionSize: requires a positive scaling window and factor; the source fixes them to 10 and 1.5. With a window of 0, `len(h) < 0` never holds and `h[-0:]` is the whole history, so the source rates the whole history and divides by zero only on an empty one. With a factor of 0 it divides by zero only on a poor success rate (app.py:476). Neither case is modelled.
- Risk.ScaleUpClosedForm and Risk.ScaleDownClosedForm: they iterate the scaling steps, not the sizing call. k calls on good (or poor) windows reach k steps only through the one-step contract of `Risk.AdaptivePositionSize`; no lemma iterates the call itself.
- Risk.ScaleUpClosedForm: stated for a factor of at least 1 and a start within [0, max]. With a factor below 1 the up-move leaves the size unchanged, because the source only ever raises it; the closed form does not cover that case.
- Risk.ScaleDownClosedForm: stated for a factor of at least 1 and a start at or above a positive initial size. Outside that range the down-move may leave the size unchanged, and the closed form does not cover that.
- Scanner.SortByEdge: the contract states sortedness and permutation. It does not state the order of equal edges. Python's sort is stable, and the model's insertion keeps earlier elements first, but no lemma states it.
- Reals instead of floats. A price item `"nan"` converts to NaN in Python, and NaN passes both band checks (app.py:307-310), because every comparison with NaN is false. It yields a NaN edge, and NaN edges make the order of `sorted(..., key=edge)` depend on the input order. `"inf"` and float rounding are not modelled either: every converted price is an exact real.
- Markets.CharItem: Python's `float()` of one character also accepts the non-ASCII Unicode decimal digits (the Arabic-Indic digits, for instance); the model converts only the ASCII digits and treats every other character as rejected.
