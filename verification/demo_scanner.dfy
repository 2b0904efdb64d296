/**
 * The stand-alone demo's edge detection (backend/python/demo.py,
 * `analyze_market_for_arbitrage`): the edge is clamped at zero and reported
 * only above a fixed 0.1 percent. Unlike the backend's scanner, this variant
 * catches only ValueError, so a TypeError or KeyError escapes to its caller.
 */
module DemoScanner {
  import opened Maybe
  import opened Markets
  import Scanner

  const Threshold: real := 0.1
  const LabelLength: nat := 50

  datatype DemoOpportunity = DemoOpportunity(
    market: string,
    yesPrice: real,
    noPrice: real,
    totalCost: real,
    edgePercent: real,
    volume: real)

  /** The three ways the function can end. */
  datatype Analysis =
    | NoOpportunity          // returns None
    | Found(opportunity: DemoOpportunity)
    | Raises                 // an exception the function does not catch

  /** The percentage edge, clamped at zero. */
  function ClampedEdge(totalCost: real): real {
    if totalCost < 1.0 then (1.0 - totalCost) * 100.0 else 0.0
  }

  /** The clamped edge is the raw edge `(1 - total) * 100` floored at zero, and positive exactly below a total of 1. */
  lemma ClampedEdgeIsFlooredRawEdge(totalCost: real)
    ensures var raw := (1.0 - totalCost) * 100.0;
      ClampedEdge(totalCost) == if raw >= 0.0 then raw else 0.0
    ensures ClampedEdge(totalCost) >= 0.0
    ensures ClampedEdge(totalCost) > 0.0 <==> totalCost < 1.0
    ensures totalCost >= 1.0 ==> ClampedEdge(totalCost) == 0.0
  {
  }

  /** Outcome of converting one list item with `float()`: a value, None (ValueError) or an escape (TypeError). */
  datatype Converted = Value(v: real) | Rejected | Escapes

  function Convert(item: PriceItem): Converted {
    match item
    case Number(v) => Value(v)
    case Malformed => Rejected
    case WrongType => Escapes
  }

  /**
   * The decoded price text gets past `len()` and both indexings and the
   * result turns on the two items. Only a JSON list or string (of at least
   * two elements) gets this far.
   */
  predicate Indexable(m: Market) {
    && m.outcomePrices.Text? && m.outcomePrices.text != ""
    && Indexed(m.outcomePrices.decoded).Some?
    && |Indexed(m.outcomePrices.decoded).value| >= 2
  }

  /** The two items an indexable price text yields. */
  function Pair(m: Market): (PriceItem, PriceItem)
    requires Indexable(m)
  {
    var items := Indexed(m.outcomePrices.decoded).value;
    (items[0], items[1])
  }

  /**
   * `analyze_market_for_arbitrage` of the demo. The result is found exactly
   * when both prices convert, their clamped edge exceeds 0.1 and the record
   * has a question; its total cost is the sum of the prices. It raises
   * exactly for an already-decoded list, a scalar, an object of two or more
   * keys, a first price of the wrong type for `float()` (a null, a nested
   * list or object) or a numeric first price with such a second one, or a found edge without a question;
   * every other input gives None.
   */
  function Analyze(m: Market): (r: Analysis)
    ensures r.Found? ==>
      && Indexable(m)
      && Pair(m) == (Number(r.opportunity.yesPrice), Number(r.opportunity.noPrice))
      && r.opportunity.totalCost == r.opportunity.yesPrice + r.opportunity.noPrice
      && r.opportunity.edgePercent == ClampedEdge(r.opportunity.totalCost)
      && r.opportunity.edgePercent > Threshold
      && r.opportunity.volume == m.volume24hr
      && m.question.Some? && r.opportunity.market == Truncate(m.question.value, LabelLength) + "..."
    ensures r.Found? <==>
      && Indexable(m) && Pair(m).0.Number? && Pair(m).1.Number?
      && ClampedEdge(Pair(m).0.value + Pair(m).1.value) > Threshold
      && m.question.Some?
    ensures r.Raises? <==>
      || (m.outcomePrices.Items? && m.outcomePrices.items != [])
      || (m.outcomePrices.Text? && m.outcomePrices.text != "" && m.outcomePrices.decoded.Scalar?)
      || (m.outcomePrices.Text? && m.outcomePrices.text != "" && m.outcomePrices.decoded.Object? && m.outcomePrices.decoded.size >= 2)
      || (Indexable(m) && Pair(m).0.WrongType?)
      || (Indexable(m) && Pair(m).0.Number? && Pair(m).1.WrongType?)
      || (Indexable(m) && Pair(m).0.Number? && Pair(m).1.Number?
          && ClampedEdge(Pair(m).0.value + Pair(m).1.value) > Threshold && m.question.None?)
    ensures Falsy(m.outcomePrices) ==> r.NoOpportunity?
  {
    var f := m.outcomePrices;
    if Falsy(f) then NoOpportunity
    else match f
      case Absent => NoOpportunity
      case Items(_) => Raises                     // json.loads of a list: TypeError
      case Text(_, decoded) =>
        match decoded
        case Invalid => NoOpportunity             // JSONDecodeError is a ValueError
        case Scalar => Raises                     // len() of a scalar: TypeError
        case Object(size) => if size < 2 then NoOpportunity else Raises  // obj[0]: KeyError
        case List(items) => FromItems(m, items)
        case Str(chars) => FromItems(m, Indexed(decoded).value)
  }

  /** The demo's analysis once the price text has decoded to `items`. */
  function FromItems(m: Market, items: seq<PriceItem>): Analysis {
    if |items| < 2 then NoOpportunity
    else match (Convert(items[0]), Convert(items[1]))
      case (Escapes, _) => Raises
      case (Rejected, _) => NoOpportunity
      case (Value(_), Escapes) => Raises
      case (Value(_), Rejected) => NoOpportunity
      case (Value(yes), Value(no)) =>
        var total := yes + no;
        var edge := ClampedEdge(total);
        if edge > Threshold then
          match m.question
          case None => Raises                     // market["question"]: KeyError
          case Some(q) => Found(DemoOpportunity(Truncate(q, LabelLength) + "...", yes, no, total, edge, m.volume24hr))
        else NoOpportunity
  }

  /** A total cost of 1 or more never yields an opportunity. */
  lemma NoOpportunityWithoutDiscount(m: Market)
    requires Analyze(m).Found?
    ensures Analyze(m).opportunity.totalCost < 1.0 - Threshold / 100.0
    ensures Analyze(m).opportunity.edgePercent > 0.0
  {
  }

  /**
   * A price text that is not JSON, decodes to fewer than two elements, or
   * whose first or second price `float()` rejects with ValueError yields None,
   * not an error.
   */
  lemma UnparseablePriceYieldsNone(m: Market)
    requires m.outcomePrices.Text? && m.outcomePrices.text != ""
    requires || m.outcomePrices.decoded == Markets.Invalid
             || (Indexed(m.outcomePrices.decoded).Some? && |Indexed(m.outcomePrices.decoded).value| < 2)
             || (Indexable(m) && Pair(m).0 == Malformed)
             || (Indexable(m) && Pair(m).0.Number? && Pair(m).1 == Malformed)
    ensures Analyze(m).NoOpportunity?
  {
  }

  /**
   * Where both variants accept a market, the demo's edge is the backend's
   * edge floored at zero; so the demo reports it only when the backend's
   * edge exceeds 0.1 percent.
   */
  lemma AgreesWithBackendEdge(m: Market, minEdge: real)
    requires Scanner.AnalyzeMarket(m, minEdge).Some?
    requires m.outcomePrices.Text? && m.question.Some?
    ensures var o := Scanner.AnalyzeMarket(m, minEdge).value;
      && (Analyze(m).Found? <==> o.edge > Threshold)
      && (Analyze(m).Found? ==> Analyze(m).opportunity.edgePercent == o.edge)
  {
    var o := Scanner.AnalyzeMarket(m, minEdge).value;
    var items := Indexed(m.outcomePrices.decoded).value;
    assert Scanner.FirstTwo(items).Some?;
    assert o.sum == o.yesAsk + o.noAsk;
    ClampedEdgeIsFlooredRawEdge(o.sum);
  }

  /**
   * The demo has no sentinel check: the resolved-market text `["0", "0"]`,
   * which the backend rejects, is reported by the demo as a 100 percent edge.
   */
  lemma ZeroSentinelReportedAsFullEdge()
    ensures var m := Market(Some("m"), Some("q"), Text("[\"0\", \"0\"]", List([Number(0.0), Number(0.0)])), 0.0, 0.0);
      && Scanner.AnalyzeMarket(m, 0.5).None?
      && Analyze(m).Found? && Analyze(m).opportunity.edgePercent == 100.0
  {
    var m := Market(Some("m"), Some("q"), Text("[\"0\", \"0\"]", List([Number(0.0), Number(0.0)])), 0.0, 0.0);
    assert m.outcomePrices.text in Scanner.Sentinels;
  }

  /**
   * Two decodings the backend rejects but the demo does not: the JSON string
   * `"00"` indexes to the digits 0 and 0 and is reported as a 100 percent
   * edge, and a JSON object of two keys makes the demo raise KeyError.
   */
  lemma NonListDecodingsDiverge()
    ensures var m := Market(Some("m"), Some("q"), Text("\"00\"", Str("00")), 0.0, 0.0);
      && Scanner.AnalyzeMarket(m, 0.5).None?
      && Analyze(m).Found? && Analyze(m).opportunity.edgePercent == 100.0
    ensures var m := Market(Some("m"), Some("q"), Text("{\"a\": 1, \"b\": 2}", Object(2)), 0.0, 0.0);
      && Scanner.AnalyzeMarket(m, 0.5).None?
      && Analyze(m).Raises?
  {
    var m := Market(Some("m"), Some("q"), Text("\"00\"", Str("00")), 0.0, 0.0);
    assert Indexed(m.outcomePrices.decoded).value == [Number(0.0), Number(0.0)];
    Scanner.StringPricesRejected(m, 0.5);
  }
}
