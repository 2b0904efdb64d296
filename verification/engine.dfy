/**
 * The execution side of the Flask backend (backend/python/app.py):
 * `execute_arbitrage_opportunity`, which sizes a trade, hands it to the order
 * manager, maps the result onto the dashboard's `ExecutionStatus` and keeps
 * the risk history and the execution log, and the pure aggregation behind
 * `/api/metrics` and `/api/logs`. The module-level globals the source mutates
 * (`risk_state`, `execution_logs`, `execution_counter` and the order
 * manager's position validator) are one immutable `Engine` value, and each
 * call returns the next one.
 */
module Engine {
  import opened Maybe
  import opened OrderTypes
  import opened Positions
  import opened FillMonitor
  import opened OrderManager
  import opened Risk
  import opened Scanner

  /** The execution log keeps at most this many entries. */
  const MaxLogs: nat := 500

  /** One entry of `execution_logs` (timestamps not modelled; the id is the counter value). */
  datatype LogEntry = LogEntry(
    executionId: nat,
    market: string,
    marketId: string,
    yesPrice: real,
    noPrice: real,
    expectedEdge: real,
    actualEdge: real,
    status: ExecutionStatus,
    details: seq<Note>,
    pnl: real)

  /** `ExecutionResult`. */
  datatype ExecutionResult = ExecutionResult(success: bool, status: ExecutionStatus, details: seq<Note>, pnl: real, yesFilled: bool, noFilled: bool)

  /** Why an execution was refused before any order was placed. */
  datatype Refusal = TradingDisabled | ZeroPositionSize

  /**
   * What `execute_arbitrage_opportunity` answers: a refusal (a FAILED record
   * with PnL 0), an exception escaping from building the order manager, or a
   * real execution.
   */
  datatype Response = Refused(reason: Refusal) | InitialisationRaised | Executed(result: ExecutionResult)

  /** The backend's mutable globals that an execution touches. */
  datatype Engine = Engine(risk: RiskState, logs: seq<LogEntry>, counter: nat, positions: Store)

  datatype Transition = Transition(response: Response, engine: Engine)

  function InitialEngine(c: BotConfig): Engine {
    Engine(InitialRiskState(c), [], 0, [])
  }

  /** The legacy status of a fill status: only BOTH_FILLED and ONE_FILLED keep their own. */
  function StatusOf(f: FillStatus): (r: ExecutionStatus)
    ensures r == ExecutionStatus.BothFilled <==> f == FillStatus.BothFilled
    ensures r == ExecutionStatus.PartialFill <==> f == OneFilled
    ensures r == ExecutionStatus.Failed <==> f == NoneFilled || f == Timeout
  {
    match f
    case BothFilled => ExecutionStatus.BothFilled
    case OneFilled => ExecutionStatus.PartialFill
    case _ => ExecutionStatus.Failed
  }

  /** The size handed out: the caller's override, or the adaptive size (which may update the risk state). */
  function SizeFor(c: BotConfig, st: RiskState, sizeOverride: Option<real>): Sizing
    requires ScalingConfigured(c)
  {
    match sizeOverride
    case Some(size) => Sizing(size, st)
    case None => AdaptivePositionSize(c, st)
  }

  /**
   * Appending to the risk history and keeping only the `max_history` most
   * recent entries once it grows past that.
   */
  function PushHistory(h: seq<HistoryEntry>, entry: HistoryEntry, maxHistory: nat): (r: seq<HistoryEntry>)
    requires maxHistory > 0
    ensures |r| == Min(|h| + 1, maxHistory)
    ensures h + [entry] == (h + [entry])[..|h| + 1 - |r|] + r
    ensures r[|r| - 1] == entry
  {
    var grown := h + [entry];
    if |grown| > maxHistory then grown[|grown| - maxHistory..] else grown
  }

  /** `execution_logs.insert(0, entry)` followed by the cap at `MaxLogs`. */
  function PushLog(logs: seq<LogEntry>, entry: LogEntry): (r: seq<LogEntry>)
    ensures |r| == Min(|logs| + 1, MaxLogs)
    ensures r[0] == entry && r[1..] == logs[..|r| - 1]
  {
    var grown := [entry] + logs;
    if |grown| > MaxLogs then grown[..MaxLogs] else grown
  }

  /**
   * The legacy result of an order-manager outcome. The filled flags are set
   * for both legs on BOTH_FILLED, read off the orders on ONE_FILLED and
   * cleared otherwise; the details gain a warning when the market is left
   * with a naked position.
   */
  function ResultOf(out: Outcome): (r: ExecutionResult)
    ensures r.status == StatusOf(out.execution.fillStatus) && r.pnl == out.execution.pnl
    ensures r.success <==> r.status == ExecutionStatus.BothFilled
    ensures |r.details| == |out.execution.notes| + (if out.execution.marketId in Keys(NakedPositions(out.positions)) then 1 else 0)
    ensures r.details[..|out.execution.notes|] == out.execution.notes
    ensures forall i :: |out.execution.notes| <= i < |r.details| ==> r.details[i] == NakedMarketWarning
  {
    var ex := out.execution;
    var status := StatusOf(ex.fillStatus);
    var yesFilled := ex.fillStatus == FillStatus.BothFilled || (ex.fillStatus == OneFilled && IsFilled(ex.yesOrder));
    var noFilled := ex.fillStatus == FillStatus.BothFilled || (ex.fillStatus == OneFilled && IsFilled(ex.noOrder));
    var details := ex.notes + (if ex.marketId in Keys(NakedPositions(out.positions)) then [NakedMarketWarning] else []);
    ExecutionResult(status == ExecutionStatus.BothFilled, status, details, ex.pnl, yesFilled, noFilled)
  }

  /** The log entry written for an execution. */
  function LogOf(id: nat, opp: Opportunity, r: ExecutionResult): LogEntry {
    LogEntry(id, opp.marketName, opp.marketId, opp.yesAsk, opp.noAsk, opp.edge,
             if r.yesFilled && r.noFilled then opp.edge else 0.0, r.status, r.details, r.pnl)
  }

  /**
   * The part of `execute_arbitrage_opportunity` after the order manager
   * returned `out` for a trade of `size`: append to the history and trim it to
   * twice the scaling window, add the PnL to the daily total, and put the
   * log entry first in a log capped at 500 entries.
   */
  function Settle(c: BotConfig, e: Engine, st: RiskState, opp: Opportunity, size: real, out: Outcome): (t: Transition)
    requires ScalingConfigured(c)
    ensures t.response.Executed?
    ensures t.engine.counter == e.counter + 1
    ensures var r := t.response.result;
      && |t.engine.logs| == Min(|e.logs| + 1, MaxLogs)
      && t.engine.logs[0] == LogOf(e.counter, opp, r)
      && t.engine.logs[1..] == e.logs[..|t.engine.logs| - 1]
      && t.engine.risk == st.(history := t.engine.risk.history, dailyPnl := st.dailyPnl + r.pnl)
      && 0 < |t.engine.risk.history| <= 2 * c.scalingWindow
      && t.engine.risk.history[|t.engine.risk.history| - 1] == HistoryEntry(e.counter, opp.marketId, r.status, r.pnl, size)
    ensures t.response.result == ResultOf(out)
    ensures t.engine.positions == out.positions
    ensures t.engine.risk.history == PushHistory(st.history, HistoryEntry(e.counter, opp.marketId, StatusOf(out.execution.fillStatus), out.execution.pnl, size), 2 * c.scalingWindow)
  {
    var id := e.counter;
    var result := ResultOf(out);
    var history := PushHistory(st.history, HistoryEntry(id, opp.marketId, result.status, result.pnl, size), 2 * c.scalingWindow);
    var logs := PushLog(e.logs, LogOf(id, opp, result));
    Transition(Executed(result), Engine(st.(history := history, dailyPnl := st.dailyPnl + result.pnl), logs, id + 1, out.positions))
  }

  /**
   * `execute_arbitrage_opportunity(opp, position_size)`. `initRaises` says
   * that the order manager still had to be built and that its fallback
   * construction raised; the exception then escapes after the sizing and the
   * counter increment have taken effect. Otherwise an order manager exists
   * afterwards, so the source's branch for a missing manager never runs.
   * `env` holds the exchange's answers to the order manager.
   */
  function ExecuteOpportunity(c: BotConfig, e: Engine, opp: Opportunity, sizeOverride: Option<real>, initRaises: bool, env: Env): (t: Transition)
    requires ScalingConfigured(c)
    ensures !e.risk.tradingEnabled ==> t == Transition(Refused(TradingDisabled), e)
    ensures t.response.Refused? <==> !e.risk.tradingEnabled || SizeFor(c, e.risk, sizeOverride).size <= 0.0
    ensures t.response.Refused? ==> t.engine == e.(risk := t.engine.risk) && t.engine.risk.history == e.risk.history && t.engine.risk.dailyPnl == e.risk.dailyPnl
    ensures t.response == Refused(ZeroPositionSize) ==> t.engine == e.(risk := SizeFor(c, e.risk, sizeOverride).state)
    ensures t.response == Refused(ZeroPositionSize) && sizeOverride.Some? ==> t.engine == e
    ensures e.risk.tradingEnabled && sizeOverride.None? && e.risk.dailyPnl <= c.emergencyStopLoss ==>
      t == Transition(Refused(ZeroPositionSize), e.(risk := e.risk.(tradingEnabled := false)))
    ensures t.response.Executed? <==> !t.response.Refused? && !initRaises
    ensures !t.response.Refused? ==> t.engine.counter == e.counter + 1
    ensures t.response.InitialisationRaised? ==>
      t.engine == e.(risk := SizeFor(c, e.risk, sizeOverride).state, counter := e.counter + 1)
    ensures t.response.Executed? ==>
      var sizing := SizeFor(c, e.risk, sizeOverride);
      t == Settle(c, e, sizing.state, opp, sizing.size, ExecuteArbitrage(e.positions, opp.marketId, opp.yesAsk, opp.noAsk, sizing.size, env))
  {
    if !e.risk.tradingEnabled then Transition(Refused(TradingDisabled), e)
    else
      var sizing := SizeFor(c, e.risk, sizeOverride);
      var size := sizing.size;
      if size <= 0.0 then Transition(Refused(ZeroPositionSize), e.(risk := sizing.state))
      else if initRaises then Transition(InitialisationRaised, e.(risk := sizing.state, counter := e.counter + 1))
      else Settle(c, e, sizing.state, opp, size, ExecuteArbitrage(e.positions, opp.marketId, opp.yesAsk, opp.noAsk, size, env))
  }

  /**
   * The legacy result in terms of the exchange's answers: BOTH_FILLED exactly
   * when both legs were reported at full size, PARTIAL_FILL exactly when one
   * was, FAILED otherwise (never CANCELLED or PENDING). Success is
   * BOTH_FILLED; a hedge has both flags and PnL 0, a partial fill exactly one
   * flag, a failure no flag and PnL 0. Each leg's flag is set exactly when
   * that leg was reported at full size.
   */
  lemma ResultClassification(s: Store, marketId: string, yesPrice: real, noPrice: real, size: real, env: Env)
    ensures var r := ResultOf(ExecuteArbitrage(s, marketId, yesPrice, noPrice, size, env));
      var y := Reported(env.rounds, YesLeg, size);
      var n := Reported(env.rounds, NoLeg, size);
      && (r.status == ExecutionStatus.BothFilled <==> Placed(env) && y && n)
      && (r.status == ExecutionStatus.PartialFill <==> Placed(env) && (y || n) && !(y && n))
      && (r.status == ExecutionStatus.Failed <==> !Placed(env) || (!y && !n))
      && r.status != ExecutionStatus.Cancelled && r.status != ExecutionStatus.Pending
      && (r.yesFilled && r.noFilled <==> r.status == ExecutionStatus.BothFilled)
      && (r.status == ExecutionStatus.BothFilled ==> r.pnl == 0.0)
      && (r.status == ExecutionStatus.PartialFill ==> r.yesFilled != r.noFilled)
      && (r.status == ExecutionStatus.Failed ==> !r.yesFilled && !r.noFilled && r.pnl == 0.0)
      && (r.yesFilled <==> Placed(env) && y)
      && (r.noFilled <==> Placed(env) && n)
  {
    ExecutionClassification(s, marketId, yesPrice, noPrice, size, env);
    FlagsFollowReports(s, marketId, yesPrice, noPrice, size, env);
    if ExecuteArbitrage(s, marketId, yesPrice, noPrice, size, env).execution.fillStatus == OneFilled {
      OneFilledIsNaked(s, marketId, yesPrice, noPrice, size, env);
    }
  }

  /** Each leg's filled flag is set exactly when that leg was placed and reported at full size. */
  lemma FlagsFollowReports(s: Store, marketId: string, yesPrice: real, noPrice: real, size: real, env: Env)
    ensures var r := ResultOf(ExecuteArbitrage(s, marketId, yesPrice, noPrice, size, env));
      && (r.yesFilled <==> Placed(env) && Reported(env.rounds, YesLeg, size))
      && (r.noFilled <==> Placed(env) && Reported(env.rounds, NoLeg, size))
  {
    if Placed(env) {
      PlacedAndMonitored(env, size, yesPrice, noPrice);
      PlacedLegsFollowReports(env, size, yesPrice, noPrice);
    }
  }

  /** What every log entry an execution writes satisfies. */
  predicate LogConsistent(l: LogEntry) {
    && l.status != ExecutionStatus.Cancelled && l.status != ExecutionStatus.Pending
    && (l.status == ExecutionStatus.BothFilled ==> l.pnl == 0.0 && l.actualEdge == l.expectedEdge)
    && (l.status != ExecutionStatus.BothFilled ==> l.actualEdge == 0.0)
    && (l.status == ExecutionStatus.Failed ==> l.pnl == 0.0)
  }

  /** Strictly decreasing execution ids: the newest entry first. */
  predicate NewestFirst(logs: seq<LogEntry>) {
    forall i, j :: 0 <= i < j < |logs| ==> logs[i].executionId > logs[j].executionId
  }

  /**
   * The state every sequence of executions keeps: a capped, newest-first
   * log of consistent entries whose ids the counter has already handed out,
   * and a position store with unique keys.
   */
  predicate Wellformed(e: Engine) {
    && |e.logs| <= MaxLogs
    && NewestFirst(e.logs)
    && (forall i :: 0 <= i < |e.logs| ==> e.logs[i].executionId < e.counter && LogConsistent(e.logs[i]))
    && UniqueKeys(e.positions)
  }

  lemma InitialEngineWellformed(c: BotConfig)
    ensures Wellformed(InitialEngine(c))
  {
  }

  /** The entry an execution logs is consistent, and its actual edge is the expected one exactly on a hedge. */
  lemma LoggedEntryConsistent(s: Store, id: nat, opp: Opportunity, size: real, env: Env)
    ensures var l := LogOf(id, opp, ResultOf(ExecuteArbitrage(s, opp.marketId, opp.yesAsk, opp.noAsk, size, env)));
      && LogConsistent(l)
      && l.actualEdge == (if l.status == ExecutionStatus.BothFilled then opp.edge else 0.0)
  {
    ResultClassification(s, opp.marketId, opp.yesAsk, opp.noAsk, size, env);
  }

  /** Ids below `counter`, newest first, every entry consistent, at most `MaxLogs` entries. */
  predicate LogsWellformed(logs: seq<LogEntry>, counter: nat) {
    && |logs| <= MaxLogs
    && NewestFirst(logs)
    && (forall i :: 0 <= i < |logs| ==> logs[i].executionId < counter && LogConsistent(logs[i]))
  }

  /** Putting a consistent entry with the next id first keeps the log well-formed for the incremented counter. */
  lemma PushLogKeepsWellformed(logs: seq<LogEntry>, entry: LogEntry, counter: nat)
    requires LogsWellformed(logs, counter)
    requires entry.executionId == counter && LogConsistent(entry)
    ensures LogsWellformed(PushLog(logs, entry), counter + 1)
  {
    var r := PushLog(logs, entry);
    forall i | 1 <= i < |r|
      ensures r[i] == logs[i - 1]
    {
      assert r[i] == r[1..][i - 1];
    }
  }

  /** Settling an outcome that keeps the store's keys unique and logs a consistent entry keeps the engine well-formed. */
  lemma SettleKeepsWellformed(c: BotConfig, e: Engine, st: RiskState, opp: Opportunity, size: real, out: Outcome)
    requires ScalingConfigured(c) && Wellformed(e)
    requires UniqueKeys(out.positions) && LogConsistent(LogOf(e.counter, opp, ResultOf(out)))
    ensures Wellformed(Settle(c, e, st, opp, size, out).engine)
  {
    PushLogKeepsWellformed(e.logs, LogOf(e.counter, opp, ResultOf(out)), e.counter);
  }

  /** Every execution, refused or not, keeps the engine well-formed. */
  lemma ExecutionKeepsWellformed(c: BotConfig, e: Engine, opp: Opportunity, sizeOverride: Option<real>, initRaises: bool, env: Env)
    requires ScalingConfigured(c) && Wellformed(e)
    ensures Wellformed(ExecuteOpportunity(c, e, opp, sizeOverride, initRaises, env).engine)
  {
    if ExecuteOpportunity(c, e, opp, sizeOverride, initRaises, env).response.Executed? {
      var sizing := SizeFor(c, e.risk, sizeOverride);
      LoggedEntryConsistent(e.positions, e.counter, opp, sizing.size, env);
      ExecuteArbitrageKeepsKeysUnique(e.positions, opp.marketId, opp.yesAsk, opp.noAsk, sizing.size, env);
      SettleKeepsWellformed(c, e, sizing.state, opp, sizing.size, ExecuteArbitrage(e.positions, opp.marketId, opp.yesAsk, opp.noAsk, sizing.size, env));
    }
  }

  /**
   * The emergency stop is sticky: once the daily PnL is at or below the stop
   * loss, an adaptively sized execution is refused and disables trading, and
   * every later execution is refused whatever its size, leaving the state as
   * it is.
   */
  lemma EmergencyStopIsSticky(c: BotConfig, e: Engine, opp: Opportunity, later: Opportunity, laterSize: Option<real>, initRaises: bool, env: Env)
    requires ScalingConfigured(c)
    requires e.risk.dailyPnl <= c.emergencyStopLoss
    ensures var t := ExecuteOpportunity(c, e, opp, None, initRaises, env);
      && t.response.Refused?
      && !t.engine.risk.tradingEnabled
      && ExecuteOpportunity(c, t.engine, later, laterSize, initRaises, env) == Transition(Refused(TradingDisabled), t.engine)
  {
  }

  /** A history and any suffix of it at least a window long share their most recent window. */
  lemma SuffixKeepsRecent(full: seq<HistoryEntry>, kept: seq<HistoryEntry>, w: nat)
    requires 0 < w <= |kept| <= |full|
    requires full == full[..|full| - |kept|] + kept
    ensures Recent(kept, w) == Recent(full, w)
  {
    var k := |full| - |kept|;
    assert full[k..] == kept;
    assert full[|full| - w..] == full[k..][|kept| - w..];
  }

  /** Two histories that agree on whether a window is full and on the most recent window size alike. */
  lemma SameWindowSameSizing(c: BotConfig, st: RiskState, h1: seq<HistoryEntry>, h2: seq<HistoryEntry>)
    requires ScalingConfigured(c)
    requires |h1| >= c.scalingWindow <==> |h2| >= c.scalingWindow
    requires |h1| >= c.scalingWindow ==> Recent(h1, c.scalingWindow) == Recent(h2, c.scalingWindow)
    ensures AdaptivePositionSize(c, st.(history := h1)).size == AdaptivePositionSize(c, st.(history := h2)).size
  {
    if |h1| >= c.scalingWindow {
      assert PerformingWell(c, h1) == PerformingWell(c, h2);
    }
  }

  /**
   * Trimming the history to twice the window never changes a sizing
   * decision: the success rate only reads the most recent window.
   */
  lemma TrimmingKeepsSizing(c: BotConfig, st: RiskState, entry: HistoryEntry)
    requires ScalingConfigured(c)
    ensures AdaptivePositionSize(c, st.(history := PushHistory(st.history, entry, 2 * c.scalingWindow))).size
         == AdaptivePositionSize(c, st.(history := st.history + [entry])).size
  {
    var full := st.history + [entry];
    var kept := PushHistory(st.history, entry, 2 * c.scalingWindow);
    if |full| >= c.scalingWindow {
      SuffixKeepsRecent(full, kept, c.scalingWindow);
    }
    SameWindowSameSizing(c, st, kept, full);
  }

  function SumPnl(logs: seq<LogEntry>): real {
    if logs == [] then 0.0 else logs[0].pnl + SumPnl(logs[1..])
  }

  function SumEdge(logs: seq<LogEntry>): real {
    if logs == [] then 0.0 else logs[0].expectedEdge + SumEdge(logs[1..])
  }

  /** The number of entries of status `s`. */
  function CountStatus(logs: seq<LogEntry>, s: ExecutionStatus): nat {
    if logs == [] then 0 else (if logs[0].status == s then 1 else 0) + CountStatus(logs[1..], s)
  }

  /** The PnL total of the BOTH_FILLED entries. */
  function FilledPnl(logs: seq<LogEntry>): real {
    if logs == [] then 0.0
    else (if logs[0].status == ExecutionStatus.BothFilled then logs[0].pnl else 0.0) + FilledPnl(logs[1..])
  }

  /** The expected-edge total of the BOTH_FILLED entries. */
  function FilledEdge(logs: seq<LogEntry>): real {
    if logs == [] then 0.0
    else (if logs[0].status == ExecutionStatus.BothFilled then logs[0].expectedEdge else 0.0) + FilledEdge(logs[1..])
  }

  /**
   * The log entries of status BOTH_FILLED, in log order: each as often as
   * the log holds it, and nothing else; so their number, PnL total and edge
   * total are those of the BOTH_FILLED entries of the log.
   */
  function FilledLogs(logs: seq<LogEntry>): (r: seq<LogEntry>)
    ensures forall l :: multiset(r)[l] == if l.status == ExecutionStatus.BothFilled then multiset(logs)[l] else 0
    ensures forall l :: l in r <==> l in logs && l.status == ExecutionStatus.BothFilled
    ensures |r| == CountStatus(logs, ExecutionStatus.BothFilled)
    ensures SumPnl(r) == FilledPnl(logs) && SumEdge(r) == FilledEdge(logs)
  {
    if logs == [] then []
    else
      assert logs == [logs[0]] + logs[1..];
      var rest := FilledLogs(logs[1..]);
      if logs[0].status == ExecutionStatus.BothFilled then
        assert ([logs[0]] + rest)[1..] == rest;
        [logs[0]] + rest
      else rest
  }

  /** The mean expected edge of the entries, 0 for none. */
  function AverageEdge(logs: seq<LogEntry>): (r: real)
    ensures |logs| > 0 ==> r * (|logs| as real) == SumEdge(logs)
    ensures |logs| == 0 ==> r == 0.0
  {
    if |logs| > 0 then SumEdge(logs) / (|logs| as real) else 0.0
  }

  /** Multiplying by a positive count keeps a strict order. */
  lemma MultiplyKeepsOrder(a: real, b: real, n: real)
    requires a < b && n > 0.0
    ensures a * n < b * n
  {
    assert b * n - a * n == (b - a) * n;
  }

  /** The dashboard figures of `/api/metrics` (rounding not modelled). */
  datatype Metrics = Metrics(todayPnl: real, tradesExecuted: nat, winRate: real, avgEdge: real, pnlHistory: seq<real>, opportunitiesCount: nat)

  /** The number of days in the PnL history chart. */
  const HistoryDays: nat := 7

  /**
   * `get_metrics`: the trades are the BOTH_FILLED log entries; today's PnL
   * is their PnL total, the average edge their mean expected edge, the win
   * rate 100 as soon as there is one trade, and the seven-day history is
   * all zeros except today's total on the last day when it is positive.
   */
  function GetMetrics(logs: seq<LogEntry>, opportunitiesCount: nat): (m: Metrics)
    ensures m.tradesExecuted == CountStatus(logs, ExecutionStatus.BothFilled) && m.opportunitiesCount == opportunitiesCount
    ensures m.todayPnl == FilledPnl(logs)
    ensures m.winRate == if m.tradesExecuted > 0 then 100.0 else 0.0
    ensures m.tradesExecuted > 0 ==> m.avgEdge == FilledEdge(logs) / (m.tradesExecuted as real)
    ensures m.tradesExecuted == 0 ==> m.avgEdge == 0.0 && m.todayPnl == 0.0
    ensures |m.pnlHistory| == HistoryDays
    ensures forall i :: 0 <= i < HistoryDays - 1 ==> m.pnlHistory[i] == 0.0
    ensures m.pnlHistory[HistoryDays - 1] == if m.todayPnl > 0.0 then m.todayPnl else 0.0
  {
    var trades := CountStatus(logs, ExecutionStatus.BothFilled);
    var total := FilledPnl(logs);
    Metrics(total, trades, if trades > 0 then 100.0 else 0.0, MeanFilledEdge(logs), PnlHistory(total), opportunitiesCount)
  }

  /** The mean expected edge of the BOTH_FILLED entries, 0 when there are none. */
  function MeanFilledEdge(logs: seq<LogEntry>): (r: real)
    ensures CountStatus(logs, ExecutionStatus.BothFilled) > 0 ==> r == FilledEdge(logs) / (CountStatus(logs, ExecutionStatus.BothFilled) as real)
    ensures CountStatus(logs, ExecutionStatus.BothFilled) == 0 ==> r == 0.0
  {
    AverageEdge(FilledLogs(logs))
  }

  /** The seven-day chart: zeros, except today's total on the last day when it is positive. */
  function PnlHistory(total: real): (h: seq<real>)
    ensures |h| == HistoryDays
    ensures forall i :: 0 <= i < HistoryDays - 1 ==> h[i] == 0.0
    ensures h[HistoryDays - 1] == if total > 0.0 then total else 0.0
  {
    [0.0, 0.0, 0.0, 0.0, 0.0, 0.0, if total > 0.0 then total else 0.0]
  }

  /** Every entry's edge within `[lo, hi]` puts the edge total within `|logs|` times the bounds. */
  lemma {:induction false} SumEdgeBounds(logs: seq<LogEntry>, lo: real, hi: real)
    requires forall i :: 0 <= i < |logs| ==> lo <= logs[i].expectedEdge <= hi
    ensures (|logs| as real) * lo <= SumEdge(logs) <= (|logs| as real) * hi
  {
    if logs != [] {
      SumEdgeBounds(logs[1..], lo, hi);
      assert (|logs| as real) * lo == lo + (|logs[1..]| as real) * lo;
      assert (|logs| as real) * hi == hi + (|logs[1..]| as real) * hi;
    }
  }

  /** A mean lies between the bounds of what it averages. */
  lemma AverageEdgeWithinBounds(logs: seq<LogEntry>, lo: real, hi: real)
    requires |logs| > 0
    requires forall i :: 0 <= i < |logs| ==> lo <= logs[i].expectedEdge <= hi
    ensures lo <= AverageEdge(logs) <= hi
  {
    SumEdgeBounds(logs, lo, hi);
    var n := |logs| as real;
    var avg := AverageEdge(logs);
    if avg < lo {
      MultiplyKeepsOrder(avg, lo, n);
    }
    if avg > hi {
      MultiplyKeepsOrder(hi, avg, n);
    }
  }

  /** The dashboard's average edge lies between the smallest and the largest edge of the trades. */
  lemma AvgEdgeWithinBounds(logs: seq<LogEntry>, opportunitiesCount: nat, lo: real, hi: real)
    requires forall l :: l in logs && l.status == ExecutionStatus.BothFilled ==> lo <= l.expectedEdge <= hi
    requires GetMetrics(logs, opportunitiesCount).tradesExecuted > 0
    ensures lo <= GetMetrics(logs, opportunitiesCount).avgEdge <= hi
  {
    var filled := FilledLogs(logs);
    forall i | 0 <= i < |filled| ensures lo <= filled[i].expectedEdge <= hi {
      assert filled[i] in filled;
    }
    AverageEdgeWithinBounds(filled, lo, hi);
  }

  /** A total of zero-PnL entries is zero. */
  lemma {:induction false} SumPnlOfZeros(logs: seq<LogEntry>)
    requires forall i :: 0 <= i < |logs| ==> logs[i].pnl == 0.0
    ensures SumPnl(logs) == 0.0
  {
    if logs != [] {
      SumPnlOfZeros(logs[1..]);
    }
  }

  /**
   * With only real executions in the log, the dashboard shows no PnL: a
   * hedged execution books PnL 0, and only hedged executions are trades.
   */
  lemma EngineMetricsShowNoPnl(e: Engine, opportunitiesCount: nat)
    requires Wellformed(e)
    ensures GetMetrics(e.logs, opportunitiesCount).todayPnl == 0.0
    ensures GetMetrics(e.logs, opportunitiesCount).pnlHistory == [0.0, 0.0, 0.0, 0.0, 0.0, 0.0, 0.0]
  {
    var filled := FilledLogs(e.logs);
    forall i | 0 <= i < |filled| ensures filled[i].pnl == 0.0 {
      assert filled[i] in filled;
      var j :| 0 <= j < |e.logs| && e.logs[j] == filled[i];
      assert LogConsistent(e.logs[j]);
    }
    SumPnlOfZeros(filled);
  }

  /** Python's `logs[:limit]`: the first `limit` entries, or all but the last `-limit` when it is negative. */
  function Head(logs: seq<LogEntry>, limit: int): (r: seq<LogEntry>)
    ensures r <= logs
    ensures |r| == if limit >= 0 then Min(limit, |logs|) else Max(0, |logs| + limit)
  {
    if limit >= 0 then (if limit >= |logs| then logs else logs[..limit])
    else if |logs| + limit <= 0 then []
    else logs[..|logs| + limit]
  }

  /** An entry passes the status filter; an absent or empty filter passes everything. */
  predicate Selected(l: LogEntry, statusFilter: Option<string>) {
    statusFilter.None? || statusFilter.value == "" || l.status.Value() == statusFilter.value
  }

  /** The entries that pass the filter, in order. */
  function Select(logs: seq<LogEntry>, statusFilter: Option<string>): (r: seq<LogEntry>)
    ensures |r| <= |logs|
    ensures forall l :: l in r <==> l in logs && Selected(l, statusFilter)
    ensures r == [] <==> forall l :: l in logs ==> !Selected(l, statusFilter)
  {
    if logs == [] then []
    else
      assert logs == [logs[0]] + logs[1..];
      (if Selected(logs[0], statusFilter) then [logs[0]] else []) + Select(logs[1..], statusFilter)
  }

  /**
   * `get_logs(limit, status)`: the first `limit` entries, keeping those of
   * the requested status; everything among them when no status is given.
   */
  function GetLogs(logs: seq<LogEntry>, limit: int, statusFilter: Option<string>): (r: seq<LogEntry>)
    ensures forall l :: l in r <==> l in Head(logs, limit) && Selected(l, statusFilter)
    ensures statusFilter.None? || statusFilter.value == "" ==> r == Head(logs, limit)
  {
    var head := Head(logs, limit);
    if statusFilter.None? || statusFilter.value == "" then head else Select(head, statusFilter)
  }

  /** An entry newer than every entry of a newest-first log can go in front of it. */
  lemma PrependNewest(x: LogEntry, rest: seq<LogEntry>)
    requires NewestFirst(rest)
    requires forall j :: 0 <= j < |rest| ==> x.executionId > rest[j].executionId
    ensures NewestFirst([x] + rest)
  {
    var r := [x] + rest;
    forall a, b | 0 <= a < b < |r| ensures r[a].executionId > r[b].executionId {
      assert r[b] == rest[b - 1];
      if a > 0 {
        assert r[a] == rest[a - 1];
      }
    }
  }

  /** Whatever the filter keeps of a newest-first log's tail is older than its head. */
  lemma SelectedTailIsOlder(logs: seq<LogEntry>, statusFilter: Option<string>)
    requires logs != [] && NewestFirst(logs)
    ensures forall j :: 0 <= j < |Select(logs[1..], statusFilter)| ==>
      logs[0].executionId > Select(logs[1..], statusFilter)[j].executionId
  {
    var rest := Select(logs[1..], statusFilter);
    forall j | 0 <= j < |rest| ensures logs[0].executionId > rest[j].executionId {
      assert rest[j] in rest;
      var k :| 0 <= k < |logs[1..]| && logs[1..][k] == rest[j];
      assert logs[k + 1] == rest[j];
    }
  }

  /** Filtering keeps the order of the entries. */
  lemma {:induction false} SelectKeepsNewestFirst(logs: seq<LogEntry>, statusFilter: Option<string>)
    requires NewestFirst(logs)
    ensures NewestFirst(Select(logs, statusFilter))
  {
    if logs != [] {
      SelectKeepsNewestFirst(logs[1..], statusFilter);
      if Selected(logs[0], statusFilter) {
        SelectedTailIsOlder(logs, statusFilter);
        PrependNewest(logs[0], Select(logs[1..], statusFilter));
      }
    }
  }

  /** `/api/logs` answers newest first whenever the log is kept newest first. */
  lemma GetLogsNewestFirst(logs: seq<LogEntry>, limit: int, statusFilter: Option<string>)
    requires NewestFirst(logs)
    ensures NewestFirst(GetLogs(logs, limit, statusFilter))
  {
    var head := Head(logs, limit);
    assert forall i :: 0 <= i < |head| ==> head[i] == logs[i];
    SelectKeepsNewestFirst(head, statusFilter);
  }

  /** No execution logs CANCELLED or PENDING, so filtering for them finds nothing. */
  lemma NoCancelledOrPendingLogs(e: Engine, limit: int)
    requires Wellformed(e)
    ensures GetLogs(e.logs, limit, Some("CANCELLED")) == []
    ensures GetLogs(e.logs, limit, Some("PENDING")) == []
  {
    var head := Head(e.logs, limit);
    forall l | l in head ensures !Selected(l, Some("CANCELLED")) && !Selected(l, Some("PENDING")) {
      var i :| 0 <= i < |head| && head[i] == l;
      assert l == e.logs[i];
      assert LogConsistent(e.logs[i]);
    }
  }
}
