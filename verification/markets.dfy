/**
 * The shape of one market as the Gamma market-data API delivers it, reduced
 * to the fields the arbitrage logic reads. HTTP fetching is not modelled: a
 * scan works on a list of these values.
 */
module Markets {
  import opened Maybe

  /** One element of the decoded `outcomePrices` list, as `float()` sees it. */
  datatype PriceItem =
    | Number(value: real)   // float() succeeds
    | Malformed             // float() raises ValueError (text such as "abc")
    | WrongType             // float() raises TypeError: a JSON null, or a nested list or object

  /** What `json.loads` makes of the `outcomePrices` text. */
  datatype Decoded =
    | List(items: seq<PriceItem>)
    | Str(chars: string)    // a JSON string: len() counts and indexing reads its characters
    | Object(size: nat)     // a JSON object with `size` distinct keys: indexing it by 0 raises KeyError
    | Scalar                // a JSON number, boolean or null: len() raises TypeError
    | Invalid               // JSONDecodeError

  /** `float()` of a one-character string: an ASCII digit converts, anything else raises ValueError. */
  function CharItem(ch: char): (r: PriceItem)
    ensures r.Number? <==> '0' <= ch <= '9'
    ensures r.Number? ==> r.value == 0.0 || r.value >= 1.0
    ensures r != WrongType
  {
    if '0' <= ch <= '9' then Number((ch as int - '0' as int) as real) else Malformed
  }

  /** What `d[0]`, `d[1]` read, for the decodings that support integer indexing. */
  function Indexed(d: Decoded): (r: Option<seq<PriceItem>>)
    ensures r.Some? <==> d.List? || d.Str?
    ensures d.List? ==> r == Some(d.items)
    ensures d.Str? ==> |r.value| == |d.chars| && forall i :: 0 <= i < |d.chars| ==> r.value[i] == CharItem(d.chars[i])
  {
    match d
    case List(items) => Some(items)
    case Str(chars) => Some(seq(|chars|, i requires 0 <= i < |chars| => CharItem(chars[i])))
    case _ => None
  }

  /** The `outcomePrices` field of a market record. */
  datatype PriceField =
    | Absent                                  // key missing or null
    | Text(text: string, decoded: Decoded)    // a JSON string, kept verbatim with its decoding
    | Items(items: seq<PriceItem>)            // already a list

  /**
   * A market record. `id` and `question` are None when the key is missing;
   * `volume` and `volume24hr` are already numbers (0 when missing).
   */
  datatype Market = Market(
    id: Option<string>,
    question: Option<string>,
    outcomePrices: PriceField,
    volume: real,
    volume24hr: real)

  /** Python truthiness of the field: `not prices`. */
  predicate Falsy(f: PriceField) {
    || f.Absent?
    || (f.Text? && f.text == "")
    || (f.Items? && f.items == [])
  }

  /** `s[:n]` on a string. */
  function Truncate(s: string, n: nat): (r: string)
    ensures |r| == Min(|s|, n)
    ensures r <= s
  {
    if |s| <= n then s else s[..n]
  }
}
