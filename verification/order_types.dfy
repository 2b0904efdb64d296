/** Enumerations and records of the order manager (backend/python/order_manager.py). */
module OrderTypes {
  import opened Maybe

  datatype OrderStatus = Pending | PartialFill | Filled | Cancelled | Failed | Expired

  /** The classification of a two-leg execution. */
  datatype FillStatus = BothFilled | OneFilled | NoneFilled | Timeout

  datatype Side = Buy | Sell

  /** The two legs of a hedge. */
  datatype Leg = YesLeg | NoLeg

  /** One placed limit order and what polling has learnt about it. */
  datatype OrderInfo = OrderInfo(
    orderId: string,
    tokenId: string,
    side: Side,
    size: real,
    price: real,
    status: OrderStatus,
    filledSize: real,
    remainingSize: real)

  /** A freshly placed buy order: pending, nothing filled yet. */
  function NewBuyOrder(orderId: string, tokenId: string, size: real, price: real): OrderInfo {
    OrderInfo(orderId, tokenId, Buy, size, price, Pending, 0.0, 0.0)
  }

  /** `order and order.status == FILLED`. */
  predicate IsFilled(o: Option<OrderInfo>) {
    o.Some? && o.value.status == Filled
  }

  /**
   * The fragments of an execution's notes. The source builds one string by
   * appending these; the model keeps the fragments in order and drops the
   * formatted numbers except the realised loss.
   */
  datatype Note =
    | BothLegsFilled                  // "Both legs filled successfully - risk-free arbitrage position"
    | FailedToFill(status: FillStatus)
    | NakedExposure                   // "WARNING: Naked exposure detected - manual intervention required"
    | ValidationFailed                // "POSITION VALIDATION FAILED"
    | ExecutionError                  // "Execution error: ..."
    | MissingOrderInformation
    | UnexpectedPartialFillState
    | RehedgedAfterRetry              // "YES and NO both filled after retry - risk-free position"
    | ExitedWithLoss(filled: Leg, loss: real)
    | SmallLossAssumed(filled: Leg)   // "... small controlled loss assumed"
    | NakedMarketWarning              // added by the app: "Market ... has naked exposure"

  /** The result record of one arbitrage attempt (`ArbitrageExecution`). */
  datatype ArbExecution = ArbExecution(
    marketId: string,
    yesOrder: Option<OrderInfo>,
    noOrder: Option<OrderInfo>,
    fillStatus: FillStatus,
    pnl: real,
    notes: seq<Note>)
}
