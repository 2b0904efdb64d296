/**
 * Risk management of the Flask backend (backend/python/app.py): the bot's
 * configuration, the risk state and `get_adaptive_position_size`, which
 * stops trading past a daily loss and otherwise scales the position size by
 * the success rate of the most recent executions.
 */
module Risk {

  /** `ExecutionStatus` of app.py. */
  datatype ExecutionStatus = Pending | BothFilled | PartialFill | Failed | Cancelled {
    /** The enum's `.value`, as stored in execution logs. */
    function Value(): string {
      match this
      case Pending => "PENDING"
      case BothFilled => "BOTH_FILLED"
      case PartialFill => "PARTIAL_FILL"
      case Failed => "FAILED"
      case Cancelled => "CANCELLED"
    }
  }

  /** `BotConfig`, with every field the modelled logic reads. */
  datatype BotConfig = BotConfig(
    enabled: bool,
    minEdge: real,
    maxPositionSize: real,
    initialPositionSize: real,
    scalingFactor: real,
    maxScalingSize: real,
    minSuccessRate: real,
    scalingWindow: nat,
    emergencyStopLoss: real)

  /** The dataclass defaults. */
  const Defaults: BotConfig := BotConfig(false, 0.5, 100.0, 10.0, 1.5, 100.0, 0.8, 10, -50.0)

  /**
   * The scaling parameters are positive, as the source fixes them (window
   * 10, factor 1.5) with no way to change them. With a window of 0 the source
   * would take the success rate over the whole history and divide by zero
   * only on an empty one; with a factor of 0 it would divide by zero only on
   * a poor success rate.
   */
  predicate ScalingConfigured(c: BotConfig) {
    c.scalingWindow > 0 && c.scalingFactor > 0.0
  }

  /** One entry of `risk_state["execution_history"]` (timestamps and timings not modelled). */
  datatype HistoryEntry = HistoryEntry(executionId: nat, marketId: string, status: ExecutionStatus, pnl: real, positionSize: real)

  /** `risk_state` (the unused `last_scaling_check` clock reading is not modelled). */
  datatype RiskState = RiskState(currentPositionSize: real, dailyPnl: real, history: seq<HistoryEntry>, tradingEnabled: bool)

  function InitialRiskState(c: BotConfig): RiskState {
    RiskState(c.initialPositionSize, 0.0, [], true)
  }

  /** The number of BOTH_FILLED entries. */
  function Successes(h: seq<HistoryEntry>): (n: nat)
    ensures n <= |h|
    ensures n == |h| <==> forall i :: 0 <= i < |h| ==> h[i].status == BothFilled
    ensures n == 0 <==> forall i :: 0 <= i < |h| ==> h[i].status != BothFilled
  {
    if h == [] then 0
    else
      assert forall i :: 1 <= i < |h| ==> h[i] == h[1..][i - 1];
      (if h[0].status == BothFilled then 1 else 0) + Successes(h[1..])
  }

  /** `h[-n:]` for a positive `n` no larger than `|h|`: the `n` most recent entries. */
  function Recent(h: seq<HistoryEntry>, n: nat): (r: seq<HistoryEntry>)
    requires 0 < n <= |h|
    ensures |r| == n && h == h[..|h| - n] + r
  {
    h[|h| - n..]
  }

  /** The up-scaling move: multiply by the factor, cap at the maximum, and never move down. */
  function ScaleUp(c: BotConfig, size: real): (r: real)
    ensures r >= size
    ensures r == size || r <= c.maxScalingSize
  {
    var next := if size * c.scalingFactor <= c.maxScalingSize then size * c.scalingFactor else c.maxScalingSize;
    if next > size then next else size
  }

  /** The down-scaling move: divide by the factor, floor at the initial size, and never move up. */
  function ScaleDown(c: BotConfig, size: real): (r: real)
    requires c.scalingFactor > 0.0
    ensures r <= size
    ensures r == size || r >= c.initialPositionSize
  {
    var next := if size / c.scalingFactor >= c.initialPositionSize then size / c.scalingFactor else c.initialPositionSize;
    if next < size then next else size
  }

  /** The recent success rate reaches the configured minimum. */
  predicate PerformingWell(c: BotConfig, h: seq<HistoryEntry>)
    requires 0 < c.scalingWindow <= |h|
  {
    (Successes(Recent(h, c.scalingWindow)) as real) / (c.scalingWindow as real) >= c.minSuccessRate
  }

  /** The size handed out and the risk state after `get_adaptive_position_size`. */
  datatype Sizing = Sizing(size: real, state: RiskState)

  /**
   * `get_adaptive_position_size`. At or past the stop loss: size 0 and
   * trading disabled. With less than a window of history: the current size,
   * nothing changed. Otherwise the current size moves up (capped) on a good
   * success rate and down (floored) on a poor one; the new size is stored and
   * returned. Nothing but the current size and the enabled flag ever changes.
   */
  function AdaptivePositionSize(c: BotConfig, st: RiskState): (r: Sizing)
    requires ScalingConfigured(c)
    ensures st.dailyPnl <= c.emergencyStopLoss ==> r.size == 0.0 && r.state == st.(tradingEnabled := false)
    ensures st.dailyPnl > c.emergencyStopLoss && |st.history| < c.scalingWindow ==>
      r.size == st.currentPositionSize && r.state == st
    ensures st.dailyPnl > c.emergencyStopLoss ==> r.state == st.(currentPositionSize := r.size)
    ensures st.dailyPnl > c.emergencyStopLoss && |st.history| >= c.scalingWindow && PerformingWell(c, st.history) ==>
      r.size == ScaleUp(c, st.currentPositionSize)
    ensures st.dailyPnl > c.emergencyStopLoss && |st.history| >= c.scalingWindow && !PerformingWell(c, st.history) ==>
      r.size == ScaleDown(c, st.currentPositionSize)
  {
    if st.dailyPnl <= c.emergencyStopLoss then Sizing(0.0, st.(tradingEnabled := false))
    else if |st.history| < c.scalingWindow then Sizing(st.currentPositionSize, st)
    else
      var size := if PerformingWell(c, st.history) then ScaleUp(c, st.currentPositionSize)
                  else ScaleDown(c, st.currentPositionSize);
      Sizing(size, st.(currentPositionSize := size))
  }

  /** The sizing band: between the initial and the maximum scaling size. */
  predicate InBand(c: BotConfig, size: real) {
    c.initialPositionSize <= size <= c.maxScalingSize
  }

  /** A size in the band stays in the band: scaling never leaves `[initial, max]`. */
  lemma SizingStaysInBand(c: BotConfig, st: RiskState)
    requires ScalingConfigured(c)
    requires InBand(c, st.currentPositionSize)
    ensures InBand(c, AdaptivePositionSize(c, st).state.currentPositionSize)
    ensures st.dailyPnl > c.emergencyStopLoss ==> InBand(c, AdaptivePositionSize(c, st).size)
  {
  }

  /** `size * f^k`, multiplied out one factor at a time. */
  function Grown(size: real, f: real, k: nat): real {
    if k == 0 then size else Grown(size, f, k - 1) * f
  }

  /** `size / f^k`, divided out one factor at a time. */
  function Shrunk(size: real, f: real, k: nat): real
    requires f > 0.0
  {
    if k == 0 then size else Shrunk(size, f, k - 1) / f
  }

  /** `k` consecutive up-scalings. */
  function ScaleUpTimes(c: BotConfig, size: real, k: nat): real {
    if k == 0 then size else ScaleUp(c, ScaleUpTimes(c, size, k - 1))
  }

  /** `k` consecutive down-scalings. */
  function ScaleDownTimes(c: BotConfig, size: real, k: nat): real
    requires c.scalingFactor > 0.0
  {
    if k == 0 then size else ScaleDown(c, ScaleDownTimes(c, size, k - 1))
  }

  /** Capping before or after growing by a factor of at least 1 is the same. */
  lemma CapThenGrow(g: real, m: real, f: real, t: real)
    requires g >= 0.0 && m >= 0.0 && f >= 1.0
    requires t == if g <= m then g else m
    ensures (if t * f <= m then t * f else m) == (if g * f <= m then g * f else m)
  {
    if g > m {
      assert (g - m) * f >= 0.0;
      assert m * f - m == m * (f - 1.0) >= 0.0;
    }
  }

  /** Flooring before or after shrinking by a factor of at least 1 is the same. */
  lemma FloorThenShrink(g: real, lo: real, f: real)
    requires lo > 0.0 && f >= 1.0
    ensures var t := if g >= lo then g else lo;
      (if t / f >= lo then t / f else lo) == (if g / f >= lo then g / f else lo)
  {
    if g < lo {
      assert g / f <= lo / f by { assert (lo - g) / f >= 0.0; assert (lo - g) / f == lo / f - g / f; }
      assert lo / f <= lo by { assert lo / f * f == lo; assert lo / f * f >= lo / f * 1.0; }
    }
  }

  /** Below the cap and with a factor of at least 1, an up-scaling is exactly `min(size * factor, max)`. */
  lemma ScaleUpBelowCap(c: BotConfig, t: real)
    requires c.scalingFactor >= 1.0 && 0.0 <= t <= c.maxScalingSize
    ensures ScaleUp(c, t) == if t * c.scalingFactor <= c.maxScalingSize then t * c.scalingFactor else c.maxScalingSize
  {
    assert t * c.scalingFactor - t == t * (c.scalingFactor - 1.0) >= 0.0;
  }

  /** Above a positive floor and with a factor of at least 1, a down-scaling is exactly `max(size / factor, initial)`. */
  lemma ScaleDownAboveFloor(c: BotConfig, t: real)
    requires c.scalingFactor >= 1.0 && 0.0 < c.initialPositionSize <= t
    ensures ScaleDown(c, t) == if t / c.scalingFactor >= c.initialPositionSize then t / c.scalingFactor else c.initialPositionSize
  {
    assert t / c.scalingFactor <= t by {
      assert t / c.scalingFactor * c.scalingFactor == t;
      assert t / c.scalingFactor * c.scalingFactor >= t / c.scalingFactor * 1.0;
    }
  }

  /** One up-scaling of the capped `g` is the capped `g * factor`. */
  lemma UpStepFromCapped(c: BotConfig, g: real, t: real)
    requires c.scalingFactor >= 1.0 && g >= 0.0 && c.maxScalingSize >= 0.0
    requires t == if g <= c.maxScalingSize then g else c.maxScalingSize
    ensures ScaleUp(c, t) == if g * c.scalingFactor <= c.maxScalingSize then g * c.scalingFactor else c.maxScalingSize
  {
    ScaleUpBelowCap(c, t);
    CapThenGrow(g, c.maxScalingSize, c.scalingFactor, t);
  }

  lemma {:induction false} GrownNonNegative(size: real, f: real, k: nat)
    requires size >= 0.0 && f >= 1.0
    ensures Grown(size, f, k) >= 0.0
  {
    if k > 0 {
      GrownNonNegative(size, f, k - 1);
      assert Grown(size, f, k - 1) * f >= 0.0;
    }
  }

  /**
   * The scaling recurrence closed: starting from a non-negative size within
   * the cap and with a factor of at least 1, `k` good windows give
   * `min(size * factor^k, max)`.
   */
  lemma {:induction false} ScaleUpClosedForm(c: BotConfig, size: real, k: nat)
    requires c.scalingFactor >= 1.0
    requires 0.0 <= size <= c.maxScalingSize
    ensures var grown := Grown(size, c.scalingFactor, k);
      ScaleUpTimes(c, size, k) == if grown <= c.maxScalingSize then grown else c.maxScalingSize
  {
    if k > 0 {
      var g := Grown(size, c.scalingFactor, k - 1);
      assert Grown(size, c.scalingFactor, k) == g * c.scalingFactor;
      ScaleUpClosedForm(c, size, k - 1);
      GrownNonNegative(size, c.scalingFactor, k - 1);
      var m := c.maxScalingSize;
      var t := if g <= m then g else m;
      assert ScaleUpTimes(c, size, k - 1) == t;
      assert 0.0 <= t <= m;
      ScaleUpBelowCap(c, t);
      UpStepFromCapped(c, g, t);
    }
  }

  /**
   * The mirror image: starting from a size at or above a positive initial
   * size, with a factor of at least 1, `k` poor windows give
   * `max(size / factor^k, initial)`.
   */
  lemma {:induction false} ScaleDownClosedForm(c: BotConfig, size: real, k: nat)
    requires c.scalingFactor >= 1.0
    requires 0.0 < c.initialPositionSize <= size
    ensures var shrunk := Shrunk(size, c.scalingFactor, k);
      ScaleDownTimes(c, size, k) == if shrunk >= c.initialPositionSize then shrunk else c.initialPositionSize
  {
    if k > 0 {
      ScaleDownClosedForm(c, size, k - 1);
      var g := Shrunk(size, c.scalingFactor, k - 1);
      FloorThenShrink(g, c.initialPositionSize, c.scalingFactor);
      var prev := ScaleDownTimes(c, size, k - 1);
      ScaleDownAboveFloor(c, prev);
    }
  }
}
