/**
 * `OrderManager.execute_arbitrage` and its partial-fill handling
 * (backend/python/order_manager.py). Every answer of the exchange client that
 * the source obtains by a network call is an input: the market's token ids,
 * the order ids returned by placement (None when placement raises), the poll
 * rounds seen before the deadline, and the books and fills seen while a
 * one-legged fill is handled.
 */
module OrderManager {
  import opened Maybe
  import opened OrderTypes
  import opened Positions
  import opened FillMonitor

  /** Best-first price levels of an order book. */
  datatype Book = Book(asks: seq<real>, bids: seq<real>)

  /** The exchange's answers while a one-legged fill is handled. */
  datatype Recovery = Recovery(
    otherBook: Option<Book>,        // book of the unfilled leg's token; None when fetching it raises
    retryOrderId: Option<string>,   // id of the re-placed order; None when placing it raises
    retryFills: seq<real>,          // filled sizes reported for the re-placed order within the 10-second window
    ownBook: Option<Book>)          // book of the filled leg's token; None when fetching it raises

  datatype Tokens = Tokens(yes: string, no: string)

  /** The exchange's answers during one execution. */
  datatype Env = Env(
    tokens: Option<Tokens>,         // None when get_market_info raises
    yesOrderId: Option<string>,     // None when placing the YES order raises
    noOrderId: Option<string>,      // None when placing the NO order raises
    rounds: seq<Round>,             // the polls that fit in max_wait_time
    recovery: Recovery)

  datatype Mitigation = Mitigation(pnl: real, note: Note)

  /** The loss booked when the one-legged position could not be priced. */
  const AssumedLoss: real := 0.01

  /** The ask the unfilled leg would be re-placed at: the book's best ask, or the original price when the book has none. */
  function RetryAsk(book: Book, missing: OrderInfo): real {
    if book.asks != [] then book.asks[0] else missing.price
  }

  /** The re-placed order reported the full size within its window. */
  predicate RetryFilled(fills: seq<real>, size: real) {
    exists i :: 0 <= i < |fills| && fills[i] == size
  }

  /**
   * `_handle_yes_only_fill` / `_handle_no_only_fill`, with `leg` the side that
   * filled. When the other side is still cheap enough (its ask plus the
   * filled price below 1), the other side is re-placed; a full fill of the
   * retry gives PnL 0. Otherwise the filled side is sold at the best bid and
   * the PnL is minus `(entry price - bid) * size`. Any failure on the way
   * books the assumed loss of 0.01.
   */
  function HandleOneLeg(filled: Option<OrderInfo>, missing: Option<OrderInfo>, leg: Leg, env: Recovery): (r: Mitigation)
    ensures r.note == MissingOrderInformation <==> filled.None? || missing.None?
    ensures r.note == MissingOrderInformation ==> r.pnl == 0.0
    ensures r.note == RehedgedAfterRetry <==>
      && filled.Some? && missing.Some? && env.otherBook.Some?
      && RetryAsk(env.otherBook.value, missing.value) + filled.value.price < 1.0
      && env.retryOrderId.Some?
      && RetryFilled(env.retryFills, missing.value.size)
    ensures r.note == RehedgedAfterRetry ==> r.pnl == 0.0
    ensures r.note.ExitedWithLoss? <==>
      && filled.Some? && missing.Some? && env.otherBook.Some?
      && var retry := RetryAsk(env.otherBook.value, missing.value) + filled.value.price < 1.0;
      && !(retry && env.retryOrderId.None?)
      && !(retry && RetryFilled(env.retryFills, missing.value.size))
      && env.ownBook.Some? && env.ownBook.value.bids != []
    ensures r.note.ExitedWithLoss? ==>
      && filled.Some? && env.ownBook.Some? && env.ownBook.value.bids != []
      && r.note.filled == leg
      && r.note.loss == (filled.value.price - env.ownBook.value.bids[0]) * filled.value.size
      && r.pnl == -r.note.loss
    ensures r.note.SmallLossAssumed? ==> r.pnl == -AssumedLoss && r.note.filled == leg
    ensures r.note == MissingOrderInformation || r.note == RehedgedAfterRetry || r.note.ExitedWithLoss? || r.note.SmallLossAssumed?
  {
    if filled.None? || missing.None? then Mitigation(0.0, MissingOrderInformation)
    else
      var f, m := filled.value, missing.value;
      match env.otherBook
      case None => Mitigation(-AssumedLoss, SmallLossAssumed(leg))
      case Some(book) =>
        var retry := RetryAsk(book, m) + f.price < 1.0;
        if retry && env.retryOrderId.None? then Mitigation(-AssumedLoss, SmallLossAssumed(leg))
        else if retry && RetryFilled(env.retryFills, m.size) then Mitigation(0.0, RehedgedAfterRetry)
        else match env.ownBook
          case None => Mitigation(-AssumedLoss, SmallLossAssumed(leg))
          case Some(own) =>
            if own.bids != [] then
              var loss := (f.price - own.bids[0]) * f.size;
              Mitigation(-loss, ExitedWithLoss(leg, loss))
            else Mitigation(-AssumedLoss, SmallLossAssumed(leg))
  }

  /**
   * What a mitigation can cost: nothing is ever gained when the best bid is
   * at most the entry price, and the loss never exceeds what the filled leg
   * cost when the bid is not negative.
   */
  lemma MitigationLossBounded(filled: Option<OrderInfo>, missing: Option<OrderInfo>, leg: Leg, env: Recovery)
    requires filled.Some? ==> filled.value.size >= 0.0 && filled.value.price >= AssumedLoss
    requires env.ownBook.Some? && env.ownBook.value.bids != [] && filled.Some? ==>
      0.0 <= env.ownBook.value.bids[0] <= filled.value.price
    ensures var r := HandleOneLeg(filled, missing, leg, env);
      && r.pnl <= 0.0
      && (filled.Some? && filled.value.size >= 1.0 ==> r.pnl >= -(filled.value.price * filled.value.size))
  {
    var r := HandleOneLeg(filled, missing, leg, env);
    if r.note.ExitedWithLoss? {
      var f := filled.value;
      var bid := env.ownBook.value.bids[0];
      assert r.pnl == -((f.price - bid) * f.size);
      ProductNonNegative(f.price - bid, f.size);
      ProductNonNegative(bid, f.size);
      assert (f.price - bid) * f.size == f.price * f.size - bid * f.size;
    }
    if r.note.SmallLossAssumed? && filled.Some? && filled.value.size >= 1.0 {
      var f := filled.value;
      assert f.price * f.size >= f.price * 1.0;
    }
  }

  lemma ProductNonNegative(a: real, b: real)
    requires a >= 0.0 && b >= 0.0
    ensures a * b >= 0.0
  {
  }

  /** `handle_partial_fill`: dispatch on which leg's order reports FILLED. */
  function HandlePartialFill(ex: ArbExecution, env: Recovery): (r: Mitigation)
    ensures IsFilled(ex.yesOrder) && !IsFilled(ex.noOrder) ==> r == HandleOneLeg(ex.yesOrder, ex.noOrder, YesLeg, env)
    ensures IsFilled(ex.noOrder) && !IsFilled(ex.yesOrder) ==> r == HandleOneLeg(ex.noOrder, ex.yesOrder, NoLeg, env)
    ensures IsFilled(ex.yesOrder) == IsFilled(ex.noOrder) ==> r == Mitigation(0.0, UnexpectedPartialFillState)
  {
    var yesFilled := IsFilled(ex.yesOrder);
    var noFilled := IsFilled(ex.noOrder);
    if yesFilled && !noFilled then HandleOneLeg(ex.yesOrder, ex.noOrder, YesLeg, env)
    else if noFilled && !yesFilled then HandleOneLeg(ex.noOrder, ex.yesOrder, NoLeg, env)
    else Mitigation(0.0, UnexpectedPartialFillState)
  }

  /** An execution's result, the validator's store after it, and the order ids it cancelled. */
  datatype Outcome = Outcome(execution: ArbExecution, positions: Store, cancelled: seq<string>)

  /** Both orders were placed: token ids and both order ids were obtained. */
  predicate Placed(env: Env) {
    env.tokens.Some? && env.yesOrderId.Some? && env.noOrderId.Some?
  }

  function PlacedYes(env: Env, size: real, yesPrice: real): OrderInfo
    requires Placed(env)
  {
    NewBuyOrder(env.yesOrderId.value, env.tokens.value.yes, size, yesPrice)
  }

  function PlacedNo(env: Env, size: real, noPrice: real): OrderInfo
    requires Placed(env)
  {
    NewBuyOrder(env.noOrderId.value, env.tokens.value.no, size, noPrice)
  }

  /**
   * `execute_arbitrage`: place both legs, monitor the fills, validate the
   * position, and settle PnL and notes by fill status. An exception before
   * both orders exist yields NONE_FILLED with PnL 0 and the store untouched.
   */
  function ExecuteArbitrage(s: Store, marketId: string, yesPrice: real, noPrice: real, size: real, env: Env): (r: Outcome)
    ensures r.execution.marketId == marketId
    ensures !Placed(env) ==> r == Outcome(ArbExecution(marketId, None, None, NoneFilled, 0.0, [ExecutionError]), s, [])
    ensures Placed(env) ==>
      var m := MonitorFills(Some(PlacedYes(env, size, yesPrice)), Some(PlacedNo(env, size, noPrice)), env.rounds);
      && r.execution.fillStatus == m.status
      && r.execution.yesOrder == m.watch.yes
      && r.execution.noOrder == m.watch.no
      && r.positions == ValidateArbitrage(s, marketId, m.watch.yes, m.watch.no).store
    ensures r.execution.fillStatus in {NoneFilled, Timeout} ==> r.execution.pnl == 0.0
    ensures r.execution.fillStatus == Timeout ==> r.cancelled == [env.yesOrderId.value, env.noOrderId.value]
    ensures r.execution.fillStatus != Timeout ==> r.cancelled == []
    ensures r.execution.fillStatus == BothFilled ==> r.execution.pnl == 0.0
  {
    if !Placed(env) then Outcome(ArbExecution(marketId, None, None, NoneFilled, 0.0, [ExecutionError]), s, [])
    else
      var yesId, noId := env.yesOrderId.value, env.noOrderId.value;
      var m := MonitorFills(Some(PlacedYes(env, size, yesPrice)), Some(PlacedNo(env, size, noPrice)), env.rounds);
      var v := ValidateArbitrage(s, marketId, m.watch.yes, m.watch.no);
      var base := ArbExecution(marketId, m.watch.yes, m.watch.no, NoneFilled, 0.0, []);
      var settled :=
        match m.status
        case BothFilled =>
          Outcome(base.(fillStatus := BothFilled, notes := [BothLegsFilled]), v.store, [])
        case OneFilled =>
          var mitigation := HandlePartialFill(base, env.recovery);
          var notes := [mitigation.note] + (if !v.valid then [NakedExposure] else []);
          Outcome(base.(fillStatus := OneFilled, pnl := mitigation.pnl, notes := notes), v.store, [])
        case _ =>  // NONE_FILLED or TIMEOUT: cancel both orders
          Outcome(base.(fillStatus := m.status, notes := [FailedToFill(m.status)]), v.store, [yesId, noId]);
      var warning := if !v.valid && m.status != NoneFilled then [ValidationFailed] else [];
      settled.(execution := settled.execution.(notes := settled.execution.notes + warning))
  }

  /** An execution keeps the validator's keys unique. */
  lemma ExecuteArbitrageKeepsKeysUnique(s: Store, marketId: string, yesPrice: real, noPrice: real, size: real, env: Env)
    requires UniqueKeys(s)
    ensures UniqueKeys(ExecuteArbitrage(s, marketId, yesPrice, noPrice, size, env).positions)
  {
    if Placed(env) {
      var m := MonitorFills(Some(PlacedYes(env, size, yesPrice)), Some(PlacedNo(env, size, noPrice)), env.rounds);
      ValidateArbitrageKeepsKeysUnique(s, marketId, m.watch.yes, m.watch.no);
    }
  }

  /** Some poll round reports the given leg at `size`. */
  predicate Reported(rounds: seq<Round>, leg: Leg, size: real) {
    exists i :: 0 <= i < |rounds| && ObservationOf(rounds[i], leg).filledSize == size
  }

  /**
   * The fill status of an execution in terms of the exchange's answers:
   * NONE_FILLED exactly when placement failed; otherwise BOTH_FILLED exactly
   * when both legs were reported at full size, ONE_FILLED when one was, and
   * TIMEOUT when neither.
   */
  lemma ExecutionClassification(s: Store, marketId: string, yesPrice: real, noPrice: real, size: real, env: Env)
    ensures var st := ExecuteArbitrage(s, marketId, yesPrice, noPrice, size, env).execution.fillStatus;
      var y := Reported(env.rounds, YesLeg, size);
      var n := Reported(env.rounds, NoLeg, size);
      && (st == NoneFilled <==> !Placed(env))
      && (st == BothFilled <==> Placed(env) && y && n)
      && (st == OneFilled <==> Placed(env) && (y || n) && !(y && n))
      && (st == Timeout <==> Placed(env) && !y && !n)
  {
    if Placed(env) {
      var yes, no := PlacedYes(env, size, yesPrice), PlacedNo(env, size, noPrice);
      FillClassification(Some(yes), Some(no), env.rounds);
      assert Hit(Some(yes), env.rounds, YesLeg) <==> Reported(env.rounds, YesLeg, size);
      assert Hit(Some(no), env.rounds, NoLeg) <==> Reported(env.rounds, NoLeg, size);
    }
  }

  /**
   * Monitoring two placed orders keeps both present at the order size, and a
   * status other than NONE_FILLED says which of them end FILLED.
   */
  lemma PlacedAndMonitored(env: Env, size: real, yesPrice: real, noPrice: real)
    requires Placed(env)
    ensures var m := MonitorFills(Some(PlacedYes(env, size, yesPrice)), Some(PlacedNo(env, size, noPrice)), env.rounds);
      && m.watch.yes.Some? && m.watch.yes.value.size == size
      && m.watch.no.Some? && m.watch.no.value.size == size
      && (m.status == BothFilled <==> IsFilled(m.watch.yes) && IsFilled(m.watch.no))
      && (m.status == OneFilled <==> IsFilled(m.watch.yes) != IsFilled(m.watch.no))
      && (m.status == Timeout <==> !IsFilled(m.watch.yes) && !IsFilled(m.watch.no))
  {
    var yes, no := PlacedYes(env, size, yesPrice), PlacedNo(env, size, noPrice);
    var w := Watch(Some(yes), Some(no), false, false);
    var m := MonitorFills(Some(yes), Some(no), env.rounds);
    FillClassification(Some(yes), Some(no), env.rounds);
    assert OrderOf(w, YesLeg) == Some(yes) && OrderOf(w, NoLeg) == Some(no);
    assert OrderOf(m.watch, YesLeg) == m.watch.yes && OrderOf(m.watch, NoLeg) == m.watch.no;
  }

  /** A placed leg ends FILLED exactly when some round reports it at full size. */
  lemma PlacedLegsFollowReports(env: Env, size: real, yesPrice: real, noPrice: real)
    requires Placed(env)
    ensures var m := MonitorFills(Some(PlacedYes(env, size, yesPrice)), Some(PlacedNo(env, size, noPrice)), env.rounds);
      && (IsFilled(m.watch.yes) <==> Reported(env.rounds, YesLeg, size))
      && (IsFilled(m.watch.no) <==> Reported(env.rounds, NoLeg, size))
  {
    var yes, no := PlacedYes(env, size, yesPrice), PlacedNo(env, size, noPrice);
    FillClassification(Some(yes), Some(no), env.rounds);
    assert Hit(Some(yes), env.rounds, YesLeg) <==> Reported(env.rounds, YesLeg, size);
    assert Hit(Some(no), env.rounds, NoLeg) <==> Reported(env.rounds, NoLeg, size);
  }

  /**
   * A hedged outcome: both orders end FILLED, the PnL is 0, nothing is
   * cancelled, and the market is recorded as hedged at the order size.
   */
  lemma BothFilledIsHedged(s: Store, marketId: string, yesPrice: real, noPrice: real, size: real, env: Env)
    requires ExecuteArbitrage(s, marketId, yesPrice, noPrice, size, env).execution.fillStatus == BothFilled
    ensures var r := ExecuteArbitrage(s, marketId, yesPrice, noPrice, size, env);
      && IsFilled(r.execution.yesOrder) && IsFilled(r.execution.noOrder)
      && r.execution.pnl == 0.0 && r.cancelled == []
      && Find(r.positions, marketId) == Some(Position(Hedged, size))
      && r.execution.notes == [BothLegsFilled]
  {
    var m := MonitorFills(Some(PlacedYes(env, size, yesPrice)), Some(PlacedNo(env, size, noPrice)), env.rounds);
    PlacedAndMonitored(env, size, yesPrice, noPrice);
    assert IsFilled(m.watch.yes) && IsFilled(m.watch.no);
  }

  /**
   * A one-legged outcome: exactly one order ends FILLED, nothing is
   * cancelled, the filled side is recorded as naked, the PnL is the
   * mitigation's, and the notes end with both exposure warnings.
   */
  lemma OneFilledIsNaked(s: Store, marketId: string, yesPrice: real, noPrice: real, size: real, env: Env)
    requires ExecuteArbitrage(s, marketId, yesPrice, noPrice, size, env).execution.fillStatus == OneFilled
    ensures var r := ExecuteArbitrage(s, marketId, yesPrice, noPrice, size, env);
      var yesFilled := IsFilled(r.execution.yesOrder);
      && yesFilled != IsFilled(r.execution.noOrder)
      && r.cancelled == []
      && Find(r.positions, marketId) == Some(Position(if yesFilled then NakedYes else NakedNo, size))
      && r.execution.pnl == HandlePartialFill(r.execution, env.recovery).pnl
      && |r.execution.notes| == 3
      && r.execution.notes[0] == HandlePartialFill(r.execution, env.recovery).note
      && r.execution.notes[1..] == [NakedExposure, ValidationFailed]
  {
    var m := MonitorFills(Some(PlacedYes(env, size, yesPrice)), Some(PlacedNo(env, size, noPrice)), env.rounds);
    PlacedAndMonitored(env, size, yesPrice, noPrice);
    NakedRecorded(s, marketId, m.watch.yes, m.watch.no, size);
  }

  /** Validating exactly one filled order of a pair records that side as naked and fails. */
  lemma NakedRecorded(s: Store, marketId: string, yes: Option<OrderInfo>, no: Option<OrderInfo>, size: real)
    requires yes.Some? && no.Some? && yes.value.size == size && no.value.size == size
    requires IsFilled(yes) != IsFilled(no)
    ensures var v := ValidateArbitrage(s, marketId, yes, no);
      && !v.valid
      && Find(v.store, marketId) == Some(Position(if IsFilled(yes) then NakedYes else NakedNo, size))
  {
  }

  /**
   * A timed-out outcome: both orders are cancelled, PnL is 0, no position is
   * recorded, and the notes carry the timeout.
   */
  lemma TimeoutCancelsBoth(s: Store, marketId: string, yesPrice: real, noPrice: real, size: real, env: Env)
    requires ExecuteArbitrage(s, marketId, yesPrice, noPrice, size, env).execution.fillStatus == Timeout
    ensures var r := ExecuteArbitrage(s, marketId, yesPrice, noPrice, size, env);
      && r.cancelled == [env.yesOrderId.value, env.noOrderId.value]
      && r.execution.pnl == 0.0
      && r.positions == s
      && r.execution.notes == [FailedToFill(Timeout)]
      && !IsFilled(r.execution.yesOrder) && !IsFilled(r.execution.noOrder)
  {
    PlacedAndMonitored(env, size, yesPrice, noPrice);
  }

  /**
   * When the NO placement raises after the YES order was placed, the result
   * records no order and nothing is cancelled: the YES order stays live and
   * untracked.
   */
  lemma FailedSecondPlacementLeavesFirstOrder(s: Store, marketId: string, yesPrice: real, noPrice: real, size: real, env: Env)
    requires env.tokens.Some? && env.yesOrderId.Some? && env.noOrderId.None?
    ensures var r := ExecuteArbitrage(s, marketId, yesPrice, noPrice, size, env);
      && r.execution.yesOrder.None? && r.cancelled == []
      && env.yesOrderId.value !in r.cancelled
      && r.execution.fillStatus == NoneFilled
  {
  }
}
