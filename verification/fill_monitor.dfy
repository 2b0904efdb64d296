/**
 * `OrderManager.monitor_fills` (backend/python/order_manager.py). The source
 * polls both legs until a wall-clock deadline; the model replaces the clock by
 * the finite sequence of poll rounds that fit before the deadline. In each
 * round a leg that exists and is not yet marked filled is polled; the
 * observation supplied for any other leg is never read.
 */
module FillMonitor {
  import opened Maybe
  import opened OrderTypes

  /** What `get_order_status` reports for one order (zeros when the query fails). */
  datatype Observation = Observation(filledSize: real, remainingSize: real)

  /** One pass of the polling loop: an observation per leg. */
  datatype Round = Round(yes: Observation, no: Observation)

  /** The loop's state: both orders and the two per-leg filled flags. */
  datatype Watch = Watch(yes: Option<OrderInfo>, no: Option<OrderInfo>, yesFilled: bool, noFilled: bool)

  datatype Monitored = Monitored(status: FillStatus, watch: Watch)

  function OrderOf(w: Watch, leg: Leg): Option<OrderInfo> {
    match leg
    case YesLeg => w.yes
    case NoLeg => w.no
  }

  function FlagOf(w: Watch, leg: Leg): bool {
    match leg
    case YesLeg => w.yesFilled
    case NoLeg => w.noFilled
  }

  function ObservationOf(r: Round, leg: Leg): Observation {
    match leg
    case YesLeg => r.yes
    case NoLeg => r.no
  }

  /**
   * The polled order after one observation: marked filled only when the
   * filled size equals the order size exactly, marked partially filled on any
   * other positive size, and otherwise left with its previous status.
   */
  function Observe(o: OrderInfo, obs: Observation): (r: OrderInfo)
    ensures obs.filledSize == o.size ==> r.status == Filled
    ensures obs.filledSize != o.size && obs.filledSize > 0.0 ==> r.status == PartialFill
    ensures obs.filledSize != o.size && obs.filledSize <= 0.0 ==> r.status == o.status
    ensures r.filledSize == obs.filledSize && r.remainingSize == obs.remainingSize
    ensures r.orderId == o.orderId && r.tokenId == o.tokenId && r.side == o.side && r.size == o.size && r.price == o.price
  {
    var o' := o.(filledSize := obs.filledSize, remainingSize := obs.remainingSize);
    if obs.filledSize == o.size then o'.(status := Filled)
    else if obs.filledSize > 0.0 then o'.(status := PartialFill)
    else o'
  }

  /** The filled flag a poll of `o` sets. */
  predicate Matches(o: OrderInfo, obs: Observation) {
    obs.filledSize == o.size
  }

  /**
   * One pass of the loop body: poll each leg that is present and not yet
   * filled. A filled leg is never polled again and its flag never cleared.
   */
  function Step(w: Watch, r: Round): (w': Watch)
    ensures forall leg :: FlagOf(w, leg) ==> FlagOf(w', leg) && OrderOf(w', leg) == OrderOf(w, leg)
    ensures forall leg :: OrderOf(w', leg).Some? <==> OrderOf(w, leg).Some?
    ensures forall leg :: OrderOf(w, leg).Some? ==> OrderOf(w', leg).value.size == OrderOf(w, leg).value.size
    ensures forall leg :: FlagOf(w', leg) <==>
      FlagOf(w, leg) || (OrderOf(w, leg).Some? && Matches(OrderOf(w, leg).value, ObservationOf(r, leg)))
    ensures forall leg :: !FlagOf(w, leg) && OrderOf(w, leg).Some? ==>
      OrderOf(w', leg) == Some(Observe(OrderOf(w, leg).value, ObservationOf(r, leg)))
  {
    var yes := if w.yes.Some? && !w.yesFilled then Some(Observe(w.yes.value, r.yes)) else w.yes;
    var no := if w.no.Some? && !w.noFilled then Some(Observe(w.no.value, r.no)) else w.no;
    Watch(yes, no,
          w.yesFilled || (w.yes.Some? && Matches(w.yes.value, r.yes)),
          w.noFilled || (w.no.Some? && Matches(w.no.value, r.no)))
  }

  /**
   * The polling loop over the remaining rounds: stop with BOTH_FILLED as soon
   * as both flags are set; when the rounds run out, ONE_FILLED if a flag is
   * set and TIMEOUT otherwise. NONE_FILLED is never produced, and a set flag
   * survives with its order untouched.
   */
  function Monitor(w: Watch, rounds: seq<Round>): (m: Monitored)
    ensures m.status != NoneFilled
    ensures forall leg :: FlagOf(w, leg) ==> FlagOf(m.watch, leg) && OrderOf(m.watch, leg) == OrderOf(w, leg)
    ensures forall leg :: OrderOf(m.watch, leg).Some? <==> OrderOf(w, leg).Some?
    ensures forall leg :: OrderOf(w, leg).Some? ==> OrderOf(m.watch, leg).value.size == OrderOf(w, leg).value.size
    ensures m.status == BothFilled ==> m.watch.yesFilled && m.watch.noFilled
    decreases |rounds|
  {
    if rounds == [] then Monitored(if w.yesFilled || w.noFilled then OneFilled else Timeout, w)
    else
      var w' := Step(w, rounds[0]);
      if w'.yesFilled && w'.noFilled then Monitored(BothFilled, w')
      else Monitor(w', rounds[1..])
  }

  /** `monitor_fills` on freshly placed orders: both flags start cleared. */
  function MonitorFills(yes: Option<OrderInfo>, no: Option<OrderInfo>, rounds: seq<Round>): Monitored {
    Monitor(Watch(yes, no, false, false), rounds)
  }

  /** Some round reports the leg's full size. */
  predicate Hit(o: Option<OrderInfo>, rounds: seq<Round>, leg: Leg) {
    o.Some? && exists i :: 0 <= i < |rounds| && Matches(o.value, ObservationOf(rounds[i], leg))
  }

  /** Some round reports a positive filled size for the leg. */
  predicate Positive(rounds: seq<Round>, leg: Leg) {
    exists i :: 0 <= i < |rounds| && ObservationOf(rounds[i], leg).filledSize > 0.0
  }

  lemma HitSplit(o: Option<OrderInfo>, rounds: seq<Round>, leg: Leg)
    requires rounds != []
    ensures Hit(o, rounds, leg) <==> (o.Some? && Matches(o.value, ObservationOf(rounds[0], leg))) || Hit(o, rounds[1..], leg)
    ensures Positive(rounds, leg) <==> ObservationOf(rounds[0], leg).filledSize > 0.0 || Positive(rounds[1..], leg)
  {
    if Hit(o, rounds, leg) {
      var i :| 0 <= i < |rounds| && Matches(o.value, ObservationOf(rounds[i], leg));
      if i > 0 { assert rounds[1..][i - 1] == rounds[i]; }
    }
    if Hit(o, rounds[1..], leg) {
      var i :| 0 <= i < |rounds[1..]| && Matches(o.value, ObservationOf(rounds[1..][i], leg));
      assert rounds[i + 1] == rounds[1..][i];
    }
    if Positive(rounds, leg) {
      var i :| 0 <= i < |rounds| && ObservationOf(rounds[i], leg).filledSize > 0.0;
      if i > 0 { assert rounds[1..][i - 1] == rounds[i]; }
    }
    if Positive(rounds[1..], leg) {
      var i :| 0 <= i < |rounds[1..]| && ObservationOf(rounds[1..][i], leg).filledSize > 0.0;
      assert rounds[i + 1] == rounds[1..][i];
    }
  }

  /** Flags only for present orders, and not both set (the loop would have returned). */
  predicate Consistent(w: Watch) {
    && (w.yesFilled ==> w.yes.Some?)
    && (w.noFilled ==> w.no.Some?)
    && !(w.yesFilled && w.noFilled)
  }

  /** Hits of the same size are the same hits. */
  lemma HitSameSize(o: Option<OrderInfo>, o': Option<OrderInfo>, rounds: seq<Round>, leg: Leg)
    requires o.Some? <==> o'.Some?
    requires o.Some? ==> o.value.size == o'.value.size
    ensures Hit(o, rounds, leg) <==> Hit(o', rounds, leg)
  {
  }

  /**
   * The loop's classification: with `y` (resp. `n`) meaning the YES (resp.
   * NO) leg was already filled or some remaining round reports its full size,
   * the result is BOTH_FILLED iff both, ONE_FILLED iff exactly one, and
   * TIMEOUT iff neither; the final flags are exactly `y` and `n`.
   */
  lemma {:induction false} MonitorClassifies(w: Watch, rounds: seq<Round>)
    requires Consistent(w)
    ensures var m := Monitor(w, rounds);
      var y := w.yesFilled || Hit(w.yes, rounds, YesLeg);
      var n := w.noFilled || Hit(w.no, rounds, NoLeg);
      && (m.status == BothFilled <==> y && n)
      && (m.status == OneFilled <==> (y || n) && !(y && n))
      && (m.status == Timeout <==> !y && !n)
      && (m.watch.yesFilled <==> y)
      && (m.watch.noFilled <==> n)
    decreases |rounds|
  {
    if rounds != [] {
      var w' := Step(w, rounds[0]);
      HitSplit(w.yes, rounds, YesLeg);
      HitSplit(w.no, rounds, NoLeg);
      assert FlagOf(w', YesLeg) == w'.yesFilled && FlagOf(w', NoLeg) == w'.noFilled;
      assert OrderOf(w', YesLeg) == w'.yes && OrderOf(w', NoLeg) == w'.no;
      if !(w'.yesFilled && w'.noFilled) {
        MonitorClassifies(w', rounds[1..]);
        HitSameSize(w.yes, w'.yes, rounds[1..], YesLeg);
        HitSameSize(w.no, w'.no, rounds[1..], NoLeg);
      }
    }
  }

  /**
   * The final status of a leg that starts unfilled: FILLED exactly when some
   * round reports its full size; otherwise PARTIAL_FILL when some round
   * reports a positive size (or it already was), and its old status if not.
   */
  lemma {:induction false} MonitorLegStatus(w: Watch, rounds: seq<Round>, leg: Leg)
    requires Consistent(w)
    requires !FlagOf(w, leg) && OrderOf(w, leg).Some? && OrderOf(w, leg).value.status != Filled
    ensures var o := OrderOf(Monitor(w, rounds).watch, leg).value;
      var start := OrderOf(w, leg).value.status;
      && (o.status == Filled <==> Hit(OrderOf(w, leg), rounds, leg))
      && (!Hit(OrderOf(w, leg), rounds, leg) && Positive(rounds, leg) ==> o.status == PartialFill)
      && (!Hit(OrderOf(w, leg), rounds, leg) && !Positive(rounds, leg) ==> o.status == start)
    decreases |rounds|
  {
    if rounds != [] {
      var w' := Step(w, rounds[0]);
      HitSplit(OrderOf(w, leg), rounds, leg);
      var obs := ObservationOf(rounds[0], leg);
      var o := OrderOf(w, leg).value;
      if Matches(o, obs) {
        assert FlagOf(w', leg);
      } else {
        assert !FlagOf(w', leg);
        assert !(w'.yesFilled && w'.noFilled) by {
          if leg == YesLeg { assert !w'.yesFilled; } else { assert !w'.noFilled; }
        }
        MonitorLegStatus(w', rounds[1..], leg);
        HitSameSize(OrderOf(w, leg), OrderOf(w', leg), rounds[1..], leg);
      }
    }
  }

  /**
   * `monitor_fills` on fresh (pending) orders: BOTH_FILLED exactly when both
   * legs exist and were each seen at their full size, ONE_FILLED when only
   * one was, TIMEOUT when neither; a leg ends FILLED exactly when it was seen
   * at full size, PARTIAL_FILL when it was only seen at some positive size,
   * and PENDING otherwise.
   */
  lemma FillClassification(yes: Option<OrderInfo>, no: Option<OrderInfo>, rounds: seq<Round>)
    requires yes.Some? ==> yes.value.status == Pending
    requires no.Some? ==> no.value.status == Pending
    ensures var m := MonitorFills(yes, no, rounds);
      var y := Hit(yes, rounds, YesLeg);
      var n := Hit(no, rounds, NoLeg);
      && (m.status == BothFilled <==> y && n)
      && (m.status == OneFilled <==> (y || n) && !(y && n))
      && (m.status == Timeout <==> !y && !n)
      && (IsFilled(m.watch.yes) <==> y)
      && (IsFilled(m.watch.no) <==> n)
      && (yes.Some? && !y ==> m.watch.yes.value.status == (if Positive(rounds, YesLeg) then PartialFill else Pending))
      && (no.Some? && !n ==> m.watch.no.value.status == (if Positive(rounds, NoLeg) then PartialFill else Pending))
  {
    var w := Watch(yes, no, false, false);
    var m := Monitor(w, rounds);
    MonitorClassifies(w, rounds);
    assert OrderOf(m.watch, YesLeg) == m.watch.yes && OrderOf(m.watch, NoLeg) == m.watch.no;
    assert OrderOf(w, YesLeg) == yes && OrderOf(w, NoLeg) == no;
    if yes.Some? { MonitorLegStatus(w, rounds, YesLeg); }
    if no.Some? { MonitorLegStatus(w, rounds, NoLeg); }
  }

  /**
   * The source's loop, written as a loop: poll each unfilled leg, return as
   * soon as both are filled, and classify when the rounds run out. It
   * computes the same status and orders as the fold.
   */
  method MonitorFillsLoop(yes: Option<OrderInfo>, no: Option<OrderInfo>, rounds: seq<Round>)
    returns (status: FillStatus, yes': Option<OrderInfo>, no': Option<OrderInfo>)
    ensures status == MonitorFills(yes, no, rounds).status
    ensures yes' == MonitorFills(yes, no, rounds).watch.yes
    ensures no' == MonitorFills(yes, no, rounds).watch.no
  {
    yes', no' := yes, no;
    var yesFilled, noFilled := false, false;
    var k := 0;
    while k < |rounds|
      invariant 0 <= k <= |rounds|
      invariant !(yesFilled && noFilled)
      invariant Monitor(Watch(yes', no', yesFilled, noFilled), rounds[k..]) == MonitorFills(yes, no, rounds)
    {
      assert rounds[k..][0] == rounds[k] && rounds[k..][1..] == rounds[k + 1..];
      if yes'.Some? && !yesFilled {
        var polled := Observe(yes'.value, rounds[k].yes);
        yesFilled := Matches(yes'.value, rounds[k].yes);
        yes' := Some(polled);
      }
      if no'.Some? && !noFilled {
        var polled := Observe(no'.value, rounds[k].no);
        noFilled := Matches(no'.value, rounds[k].no);
        no' := Some(polled);
      }
      if yesFilled && noFilled {
        return BothFilled, yes', no';
      }
      k := k + 1;
    }
    status := if yesFilled || noFilled then OneFilled else Timeout;
  }
}
