/**
 * The opportunity scanner of the Flask backend (backend/python/app.py):
 * the per-market edge computation `analyze_market_for_arbitrage` and one
 * publication step of `scan_for_opportunities` (take the first 50 markets,
 * analyse them, sort by edge, keep the best 20).
 */
module Scanner {
  import opened Maybe
  import opened Markets

  /** `outcomePrices` texts that mark a market without usable quotes. */
  const Sentinels: set<string> := {"[]", "[\"0\", \"0\"]", "[\"1\", \"0\"]", "[\"0\", \"1\"]"}
  /** Prices at or beyond these bounds belong to a (nearly) resolved market. */
  const UpperBound: real := 0.99
  const LowerBound: real := 0.01
  /** Only the first `Scanned` markets of a fetch are analysed. */
  const Scanned: nat := 50
  /** Only the best `Published` opportunities are published. */
  const Published: nat := 20
  const NameLength: nat := 80

  datatype Quote = Quote(yes: real, no: real)

  /** An analysed market: prices, their sum, the edge in percent and whether it clears the threshold. */
  datatype Opportunity = Opportunity(
    id: string,
    marketName: string,
    marketId: string,
    yesAsk: real,
    noAsk: real,
    sum: real,
    edge: real,
    executable: bool,
    volume: real)

  /** The list `len()` is taken of, when the field gets that far. */
  function ListedItems(f: PriceField): (r: Option<seq<PriceItem>>)
    ensures r.Some? ==> !Falsy(f) && !(f.Text? && f.text in Sentinels)
    ensures r.Some? <==> (f.Items? && f.items != []) || (f.Text? && f.text != "" && f.text !in Sentinels && (f.decoded.List? || f.decoded.Str?))
    ensures r.Some? && f.Text? ==> r == Indexed(f.decoded)
    ensures r.Some? && f.Items? ==> r == Some(f.items)
  {
    match f
    case Absent => None
    case Items(items) => if items == [] then None else Some(items)
    case Text(text, decoded) =>
      if text == "" || text in Sentinels then None
      // JSONDecodeError, TypeError from len() of a scalar, and the KeyError of
      // indexing an object are all caught: None
      else Indexed(decoded)
  }

  /** The first two prices, when there are two and both convert with `float()`. */
  function FirstTwo(items: seq<PriceItem>): (r: Option<Quote>)
    ensures r.Some? <==> |items| >= 2 && items[0].Number? && items[1].Number?
    ensures r.Some? ==> r.value == Quote(items[0].value, items[1].value)
  {
    if |items| < 2 then None
    else match (items[0], items[1])
      case (Number(y), Number(n)) => Some(Quote(y, n))
      case _ => None
  }

  function ParsePrices(f: PriceField): (r: Option<Quote>)
    ensures Falsy(f) ==> r.None?
    ensures f.Text? && f.text in Sentinels ==> r.None?
    ensures r.Some? <==> ListedItems(f).Some? && FirstTwo(ListedItems(f).value).Some?
    ensures r.Some? ==> var items := ListedItems(f).value;
      r.value == Quote(items[0].value, items[1].value)
  {
    match ListedItems(f)
    case None => None
    case Some(items) => FirstTwo(items)
  }

  /** A price strictly between the two bounds. */
  predicate InBand(p: real) {
    LowerBound < p < UpperBound
  }

  /**
   * `analyze_market_for_arbitrage`: None for unusable quotes, for prices at
   * the bounds and for a record without an id; otherwise an opportunity whose
   * edge is `(1 - sum) * 100`, not clamped at zero.
   */
  function AnalyzeMarket(m: Market, minEdge: real): (r: Option<Opportunity>)
    ensures r.Some? <==>
      && ParsePrices(m.outcomePrices).Some?
      && InBand(ParsePrices(m.outcomePrices).value.yes)
      && InBand(ParsePrices(m.outcomePrices).value.no)
      && m.id.Some?
    ensures r.Some? ==>
      var q := ParsePrices(m.outcomePrices).value;
      && r.value.yesAsk == q.yes && r.value.noAsk == q.no
      && r.value.sum == q.yes + q.no
      && r.value.edge == (1.0 - r.value.sum) * 100.0
      && (r.value.executable <==> r.value.edge > minEdge * 0.1)
      && r.value.marketId == m.id.value
      && r.value.id == "arb_" + m.id.value
      && |r.value.marketName| <= NameLength
      && r.value.marketName == Truncate(m.question.GetOr("Unknown"), NameLength)
      && r.value.volume == m.volume
  {
    match ParsePrices(m.outcomePrices)
    case None => None
    case Some(q) =>
      if q.yes >= UpperBound || q.no >= UpperBound then None
      else if q.yes <= LowerBound || q.no <= LowerBound then None
      else if m.id.None? then None  // market['id'] raises KeyError, caught by the outer handler
      else
        var sum := q.yes + q.no;
        var edge := (1.0 - sum) * 100.0;
        Some(Opportunity(
          "arb_" + m.id.value,
          Truncate(m.question.GetOr("Unknown"), NameLength),
          m.id.value,
          q.yes, q.no, sum, edge,
          edge > minEdge * 0.1,
          m.volume))
  }

  /** A market is rejected whenever either price is at or beyond a bound. */
  lemma BoundaryPricesRejected(m: Market, minEdge: real)
    requires ParsePrices(m.outcomePrices).Some?
    requires var q := ParsePrices(m.outcomePrices).value;
      q.yes >= UpperBound || q.no >= UpperBound || q.yes <= LowerBound || q.no <= LowerBound
    ensures AnalyzeMarket(m, minEdge).None?
  {
  }

  /**
   * The threshold in terms of prices: an opportunity is executable exactly
   * when the prices sum below `1 - minEdge / 1000`.
   */
  lemma ExecutableIffSumBelow(m: Market, minEdge: real)
    requires AnalyzeMarket(m, minEdge).Some?
    ensures AnalyzeMarket(m, minEdge).value.executable <==> AnalyzeMarket(m, minEdge).value.sum < 1.0 - minEdge / 1000.0
  {
  }

  /** The sign of the edge follows the sum; an overpriced market has a negative edge. */
  lemma EdgeSign(m: Market, minEdge: real)
    requires AnalyzeMarket(m, minEdge).Some?
    ensures var o := AnalyzeMarket(m, minEdge).value;
      && (o.edge > 0.0 <==> o.sum < 1.0)
      && (o.edge < 0.0 <==> o.sum > 1.0)
      && -98.0 < o.edge < 98.0
  {
  }

  /** A concrete overpriced market: accepted, with edge -5 and not executable. */
  lemma OverpricedMarketHasNegativeEdge()
    ensures var m := Market(Some("m1"), Some("q"), Items([Number(0.55), Number(0.50)]), 0.0, 0.0);
      var r := AnalyzeMarket(m, 0.5);
      r.Some? && r.value.edge == -5.0 && !r.value.executable
  {
  }

  /**
   * A price text that decodes to a JSON string is never accepted: its
   * characters convert only as single digits, and every digit lies outside
   * the price band.
   */
  lemma StringPricesRejected(m: Market, minEdge: real)
    requires m.outcomePrices.Text? && m.outcomePrices.decoded.Str?
    ensures AnalyzeMarket(m, minEdge).None?
  {
    var chars := m.outcomePrices.decoded.chars;
    if ParsePrices(m.outcomePrices).Some? {
      var items := Indexed(m.outcomePrices.decoded).value;
      assert items[0] == CharItem(chars[0]) && items[1] == CharItem(chars[1]);
    }
  }

  /** The sentinel texts are rejected whatever their decoding. */
  lemma SentinelRejected(m: Market, minEdge: real)
    requires m.outcomePrices.Text? && m.outcomePrices.text in Sentinels
    ensures AnalyzeMarket(m, minEdge).None?
  {
  }

  // ---------------------------------------------------------------------
  // One publication step of the scanning loop
  // ---------------------------------------------------------------------

  /** The number of markets the analysis accepts. */
  function Accepted(ms: seq<Market>, minEdge: real): (n: nat)
    ensures n <= |ms|
  {
    if ms == [] then 0
    else (if AnalyzeMarket(ms[0], minEdge).Some? then 1 else 0) + Accepted(ms[1..], minEdge)
  }

  /** The analysed opportunities of `ms`, in market order: one per accepted market. */
  function AnalyzeAll(ms: seq<Market>, minEdge: real): (r: seq<Opportunity>)
    ensures |r| == Accepted(ms, minEdge)
    ensures forall o :: o in r <==> exists i :: 0 <= i < |ms| && AnalyzeMarket(ms[i], minEdge) == Some(o)
  {
    if ms == [] then []
    else
      var rest := AnalyzeAll(ms[1..], minEdge);
      assert forall i :: 1 <= i < |ms| ==> ms[i] == ms[1..][i - 1];
      Analyzed(ms[0], minEdge) + rest
  }

  /** What one market contributes: its analysis if accepted, and nothing otherwise. */
  function Analyzed(m: Market, minEdge: real): (r: seq<Opportunity>)
    ensures |r| == if AnalyzeMarket(m, minEdge).Some? then 1 else 0
    ensures forall o :: o in r <==> AnalyzeMarket(m, minEdge) == Some(o)
  {
    match AnalyzeMarket(m, minEdge)
    case Some(o) => [o]
    case None => []
  }

  /**
   * Analysing a concatenation analyses each part in turn: together with the
   * one-market case this fixes the result as the accepted analyses in market
   * order.
   */
  lemma {:induction false} AnalyzeAllAppend(a: seq<Market>, b: seq<Market>, minEdge: real)
    ensures AnalyzeAll(a + b, minEdge) == AnalyzeAll(a, minEdge) + AnalyzeAll(b, minEdge)
  {
    if a == [] {
      assert a + b == b;
    } else {
      assert (a + b)[0] == a[0] && (a + b)[1..] == a[1..] + b;
      AnalyzeAllAppend(a[1..], b, minEdge);
      var head := Analyzed(a[0], minEdge);
      assert head + (AnalyzeAll(a[1..], minEdge) + AnalyzeAll(b, minEdge))
          == (head + AnalyzeAll(a[1..], minEdge)) + AnalyzeAll(b, minEdge);
    }
  }

  /** A single market contributes its analysis if accepted, and nothing otherwise. */
  lemma AnalyzeOne(m: Market, minEdge: real)
    ensures AnalyzeAll([m], minEdge) == match AnalyzeMarket(m, minEdge) case Some(o) => [o] case None => []
  {
    assert [m][1..] == [];
  }

  /** The candidates of one scan: the analysed opportunities of the first 50 markets. */
  function Candidates(ms: seq<Market>, minEdge: real): seq<Opportunity> {
    AnalyzeAll(ms[..Min(Scanned, |ms|)], minEdge)
  }

  predicate SortedByEdge(s: seq<Opportunity>) {
    forall i, j :: 0 <= i < j < |s| ==> s[i].edge >= s[j].edge
  }

  /**
   * Inserts `o` before the first element whose edge is not above its own,
   * so that among equal edges earlier opportunities stay first.
   */
  function InsertByEdge(o: Opportunity, s: seq<Opportunity>): (r: seq<Opportunity>)
    requires SortedByEdge(s)
    ensures SortedByEdge(r)
    ensures multiset(r) == multiset(s) + multiset{o}
    ensures forall x :: x in r ==> x == o || x in s
  {
    if s == [] || s[0].edge <= o.edge then
      PrependSorted(o, s);
      [o] + s
    else
      var rest := InsertByEdge(o, s[1..]);
      assert s == [s[0]] + s[1..];
      PrependSorted(s[0], rest);
      [s[0]] + rest
  }

  /** An element whose edge is at least the first edge of a sorted sequence can go in front of it. */
  lemma PrependSorted(x: Opportunity, s: seq<Opportunity>)
    requires SortedByEdge(s)
    requires s != [] ==> s[0].edge <= x.edge
    ensures SortedByEdge([x] + s)
  {
    var r := [x] + s;
    forall i, j | 0 <= i < j < |r| ensures r[i].edge >= r[j].edge {
      assert r[j] == s[j - 1];
      if i > 0 {
        assert r[i] == s[i - 1];
      } else if j > 1 {
        assert s[0].edge >= s[j - 1].edge;
      }
    }
  }

  /** `opportunities.sort(key=edge, reverse=True)`: a permutation sorted by descending edge. */
  function SortByEdge(s: seq<Opportunity>): (r: seq<Opportunity>)
    ensures SortedByEdge(r)
    ensures multiset(r) == multiset(s)
  {
    if s == [] then []
    else
      assert s == [s[0]] + s[1..];
      InsertByEdge(s[0], SortByEdge(s[1..]))
  }

  /** The published list: the best 20 candidates by descending edge. */
  function Publish(ms: seq<Market>, minEdge: real): (r: seq<Opportunity>)
    ensures |r| == Min(Published, |Candidates(ms, minEdge)|)
    ensures SortedByEdge(r)
  {
    var sorted := SortByEdge(Candidates(ms, minEdge));
    assert |sorted| == |Candidates(ms, minEdge)| by {
      assert |multiset(sorted)| == |multiset(Candidates(ms, minEdge))|;
    }
    sorted[..Min(Published, |sorted|)]
  }

  /** A prefix of a sorted sequence holds its highest edges. */
  lemma {:induction false} SortedPrefixDominates(sorted: seq<Opportunity>, k: nat)
    requires SortedByEdge(sorted) && k <= |sorted|
    ensures multiset(sorted[..k]) <= multiset(sorted)
    ensures forall x, y :: x in multiset(sorted) - multiset(sorted[..k]) && y in sorted[..k] ==> x.edge <= y.edge
  {
    var r := sorted[..k];
    assert sorted == r + sorted[k..];
    assert multiset(sorted) == multiset(r) + multiset(sorted[k..]);
    forall x: Opportunity, y: Opportunity | x in multiset(sorted) - multiset(r) && y in r
      ensures x.edge <= y.edge
    {
      assert x in multiset(sorted[k..]);
      assert x in sorted[k..];
      var j :| 0 <= j < |sorted[k..]| && sorted[k..][j] == x;
      var i :| 0 <= i < k && r[i] == y;
      assert sorted[i] == y && sorted[k + j] == x;
    }
  }

  /**
   * What a publication keeps: candidates without duplication, and no dropped
   * candidate has a higher edge than a published one.
   */
  lemma PublishKeepsTopEdges(ms: seq<Market>, minEdge: real)
    ensures var r := Publish(ms, minEdge);
      && multiset(r) <= multiset(Candidates(ms, minEdge))
      && (forall x, y :: x in multiset(Candidates(ms, minEdge)) - multiset(r) && y in r ==> x.edge <= y.edge)
  {
    var sorted := SortByEdge(Candidates(ms, minEdge));
    assert |multiset(sorted)| == |multiset(Candidates(ms, minEdge))|;
    SortedPrefixDominates(sorted, Min(Published, |sorted|));
  }

  /** Every published opportunity is the analysis of one of the first 50 markets. */
  lemma {:induction false} PublishUsesFirstMarkets(ms: seq<Market>, minEdge: real)
    ensures forall o :: o in Publish(ms, minEdge) ==>
      exists i :: 0 <= i < Min(Scanned, |ms|) && AnalyzeMarket(ms[i], minEdge) == Some(o)
  {
    var cands := Candidates(ms, minEdge);
    var r := Publish(ms, minEdge);
    PublishKeepsTopEdges(ms, minEdge);
    var pre := ms[..Min(Scanned, |ms|)];
    forall o | o in r
      ensures exists i :: 0 <= i < Min(Scanned, |ms|) && AnalyzeMarket(ms[i], minEdge) == Some(o)
    {
      assert o in multiset(r);
      assert o in multiset(cands);
      assert o in cands;
      var i :| 0 <= i < |pre| && AnalyzeMarket(pre[i], minEdge) == Some(o);
      assert pre[i] == ms[i];
    }
  }
}
