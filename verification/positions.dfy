/**
 * `PositionValidator` (backend/python/order_manager.py): a keyed store from
 * market id to the kind of position held there. The store is a Python dict,
 * so it is modelled as a list of entries in insertion order with unique keys;
 * re-recording a market keeps its place, deleting removes it.
 */
module Positions {
  import opened Maybe
  import opened OrderTypes

  datatype Kind = Hedged | NakedYes | NakedNo

  /** A recorded position (the timestamp is not modelled). */
  datatype Position = Position(kind: Kind, size: real)

  datatype Entry = Entry(marketId: string, position: Position)

  type Store = seq<Entry>

  /** Dict keys are unique. */
  predicate UniqueKeys(s: Store) {
    forall i, j :: 0 <= i < j < |s| ==> s[i].marketId != s[j].marketId
  }

  function Keys(s: Store): set<string> {
    set e | e in s :: e.marketId
  }

  predicate IsNaked(p: Position) {
    p.kind == NakedYes || p.kind == NakedNo
  }

  /** `store.get(market_id)`. */
  function Find(s: Store, k: string): (r: Option<Position>)
    ensures r.Some? <==> k in Keys(s)
    ensures r.Some? ==> Entry(k, r.value) in s
  {
    if s == [] then None
    else if s[0].marketId == k then Some(s[0].position)
    else
      assert Keys(s) == {s[0].marketId} + Keys(s[1..]) by { assert s == [s[0]] + s[1..]; }
      Find(s[1..], k)
  }

  /** In a store with unique keys every entry is what `Find` returns for its key. */
  lemma {:induction false} FindEntry(s: Store, e: Entry)
    requires UniqueKeys(s) && e in s
    ensures Find(s, e.marketId) == Some(e.position)
  {
    if s[0] != e {
      assert e in s[1..];
      var i :| 0 <= i < |s[1..]| && s[1..][i] == e;
      assert s[i + 1] == e;
      FindEntry(s[1..], e);
    }
  }

  /** `store[k] = p`: replaces the value in place, or appends a new key. */
  function Put(s: Store, k: string, p: Position): (r: Store)
    ensures Find(r, k) == Some(p)
    ensures forall k' :: k' != k ==> Find(r, k') == Find(s, k')
    ensures Keys(r) == Keys(s) + {k}
    ensures k in Keys(s) ==> |r| == |s|
    ensures k !in Keys(s) ==> r == s + [Entry(k, p)]
  {
    if s == [] then
      ConsFacts(Entry(k, p), []);
      [Entry(k, p)]
    else
      assert s == [s[0]] + s[1..];
      if s[0].marketId == k then
        PutReplaces(s[0], s[1..], p);
        [Entry(k, p)] + s[1..]
      else
        var rest := Put(s[1..], k, p);
        PutPassesOver(s[0], s[1..], k, p, rest);
        [s[0]] + rest
  }

  /** What `Put(s, k, p)` promises of its result `r`. */
  ghost predicate PutResult(s: Store, k: string, p: Position, r: Store) {
    && Find(r, k) == Some(p)
    && (forall k' :: k' != k ==> Find(r, k') == Find(s, k'))
    && Keys(r) == Keys(s) + {k}
    && (k in Keys(s) ==> |r| == |s|)
    && (k !in Keys(s) ==> r == s + [Entry(k, p)])
  }

  /** Replacing the first entry's value. */
  lemma PutReplaces(x: Entry, t: Store, p: Position)
    ensures PutResult([x] + t, x.marketId, p, [Entry(x.marketId, p)] + t)
  {
    ConsFacts(x, t);
    ConsFacts(Entry(x.marketId, p), t);
  }

  /** Putting past a first entry of another key. */
  lemma PutPassesOver(x: Entry, t: Store, k: string, p: Position, rest: Store)
    requires x.marketId != k && PutResult(t, k, p, rest)
    ensures PutResult([x] + t, k, p, [x] + rest)
  {
    ConsFacts(x, t);
    ConsFacts(x, rest);
    if k !in Keys([x] + t) {
      assert [x] + (t + [Entry(k, p)]) == ([x] + t) + [Entry(k, p)];
    }
  }

  /**
   * Re-recording a market keeps every key at its place, as assigning to an
   * existing key of a Python dict keeps its insertion position.
   */
  lemma {:induction false} PutKeepsPlaces(s: Store, k: string, p: Position)
    requires k in Keys(s)
    ensures var r := Put(s, k, p);
      |r| == |s| && forall i :: 0 <= i < |s| ==> r[i].marketId == s[i].marketId
  {
    assert s == [s[0]] + s[1..];
    if s[0].marketId == k {
      SamePlacesAfterFirst(s[0], Entry(k, p), s[1..], s[1..]);
    } else {
      ConsFacts(s[0], s[1..]);
      PutKeepsPlaces(s[1..], k, p);
      SamePlacesAfterFirst(s[0], s[0], s[1..], Put(s[1..], k, p));
    }
  }

  /** Two stores holding the same keys at the same places still do after a first entry of one key each. */
  lemma SamePlacesAfterFirst(x: Entry, y: Entry, t: Store, u: Store)
    requires x.marketId == y.marketId
    ensures |u| == |t| && (forall i :: 0 <= i < |t| ==> u[i].marketId == t[i].marketId) ==>
      |[y] + u| == |[x] + t| && forall i :: 0 <= i < |[x] + t| ==> ([y] + u)[i].marketId == ([x] + t)[i].marketId
  {
    if |u| == |t| && (forall i :: 0 <= i < |t| ==> u[i].marketId == t[i].marketId) {
      forall i | 1 <= i < |[x] + t| ensures ([y] + u)[i].marketId == ([x] + t)[i].marketId {
        assert ([y] + u)[i] == u[i - 1] && ([x] + t)[i] == t[i - 1];
      }
    }
  }

  /** Looking up and listing the keys of a store with a given first entry. */
  lemma ConsFacts(x: Entry, t: Store)
    ensures forall k :: Find([x] + t, k) == if x.marketId == k then Some(x.position) else Find(t, k)
    ensures Keys([x] + t) == {x.marketId} + Keys(t)
  {
    assert ([x] + t)[0] == x && ([x] + t)[1..] == t;
  }

  /** A first entry whose key the rest does not hold keeps keys unique. */
  lemma ConsUnique(x: Entry, t: Store)
    requires UniqueKeys(t) && x.marketId !in Keys(t)
    ensures UniqueKeys([x] + t)
  {
    var r := [x] + t;
    forall i, j | 0 <= i < j < |r| ensures r[i].marketId != r[j].marketId {
      assert r[j] == t[j - 1];
      if i == 0 {
        assert t[j - 1] in t;
      } else {
        assert r[i] == t[i - 1];
      }
    }
  }

  /** Recording a position keeps keys unique. */
  lemma {:induction false} PutKeepsKeysUnique(s: Store, k: string, p: Position)
    requires UniqueKeys(s)
    ensures UniqueKeys(Put(s, k, p))
  {
    if s != [] {
      HeadKeyNotInTail(s);
      assert UniqueKeys(s[1..]);
      if s[0].marketId == k {
        ConsUnique(Entry(k, p), s[1..]);
      } else {
        PutKeepsKeysUnique(s[1..], k, p);
        ConsUnique(s[0], Put(s[1..], k, p));
      }
    }
  }

  /** `del store[k]`: removes the key; `DeleteKeepsOrder` shows the others keep their order. */
  function Delete(s: Store, k: string): (r: Store)
    ensures Find(r, k) == None
    ensures forall k' :: k' != k ==> Find(r, k') == Find(s, k')
    ensures Keys(r) == Keys(s) - {k}
    ensures UniqueKeys(s) ==> UniqueKeys(r)
    ensures forall e :: e in r ==> e in s
  {
    assert s != [] ==> s == [s[0]] + s[1..];
    if s == [] then []
    else
      var rest := Delete(s[1..], k);
      if s[0].marketId == k then rest
      else
        assert Keys([s[0]] + rest) == {s[0].marketId} + Keys(rest);
        assert UniqueKeys(s) ==> s[0].marketId !in Keys(s[1..]);
        [s[0]] + rest
  }

  /** Deleting a key the store does not hold leaves it unchanged. */
  lemma {:induction false} DeleteAbsent(s: Store, k: string)
    requires k !in Keys(s)
    ensures Delete(s, k) == s
  {
    if s != [] {
      assert s[0] in s;
      ConsFacts(s[0], s[1..]);
      assert s == [s[0]] + s[1..];
      DeleteAbsent(s[1..], k);
    }
  }

  /**
   * Under unique keys, deleting the key stored at place `i` removes that one
   * entry and keeps every other entry in its order, as `del` does on a
   * Python dict.
   */
  lemma {:induction false} DeleteKeepsOrder(s: Store, k: string, i: nat)
    requires UniqueKeys(s) && i < |s| && s[i].marketId == k
    ensures Delete(s, k) == s[..i] + s[i + 1..]
  {
    var t := s[1..];
    if i == 0 {
      HeadKeyNotInTail(s);
      DeleteAbsent(t, k);
    } else {
      assert s[0].marketId != s[i].marketId;
      assert Delete(s, k) == [s[0]] + Delete(t, k);
      assert t[i - 1] == s[i];
      assert UniqueKeys(t);
      DeleteKeepsOrder(t, k, i - 1);
      assert [s[0]] + t[..i - 1] == s[..i];
      assert t[i..] == s[i + 1..];
      assert [s[0]] + (t[..i - 1] + t[i..]) == ([s[0]] + t[..i - 1]) + t[i..];
    }
  }

  datatype Validation = Validation(valid: bool, store: Store)

  /**
   * `validate_arbitrage_position`: true exactly when both orders exist and
   * they are both filled or both unfilled. Both filled records a hedged
   * position; one filled records the naked side; nothing else is touched.
   */
  function ValidateArbitrage(s: Store, marketId: string, yes: Option<OrderInfo>, no: Option<OrderInfo>): (r: Validation)
    ensures r.valid <==> yes.Some? && no.Some? && (IsFilled(yes) <==> IsFilled(no))
    ensures yes.Some? && no.Some? && IsFilled(yes) && IsFilled(no) ==> r.store == Put(s, marketId, Position(Hedged, yes.value.size))
    ensures yes.Some? && no.Some? && IsFilled(yes) && !IsFilled(no) ==> r.store == Put(s, marketId, Position(NakedYes, yes.value.size))
    ensures yes.Some? && no.Some? && !IsFilled(yes) && IsFilled(no) ==> r.store == Put(s, marketId, Position(NakedNo, no.value.size))
    ensures yes.None? || no.None? || (!IsFilled(yes) && !IsFilled(no)) ==> r.store == s
  {
    if yes.None? || no.None? then Validation(false, s)
    else
      var yesFilled := yes.value.status == Filled;
      var noFilled := no.value.status == Filled;
      if yesFilled && noFilled then Validation(true, Put(s, marketId, Position(Hedged, yes.value.size)))
      else if !yesFilled && !noFilled then Validation(true, s)
      else if yesFilled then Validation(false, Put(s, marketId, Position(NakedYes, yes.value.size)))
      else Validation(false, Put(s, marketId, Position(NakedNo, no.value.size)))
  }

  /** Validating an arbitrage keeps the store's keys unique. */
  lemma ValidateArbitrageKeepsKeysUnique(s: Store, marketId: string, yes: Option<OrderInfo>, no: Option<OrderInfo>)
    requires UniqueKeys(s)
    ensures UniqueKeys(ValidateArbitrage(s, marketId, yes, no).store)
  {
    if yes.Some? && no.Some? {
      PutKeepsKeysUnique(s, marketId, Position(Hedged, yes.value.size));
      PutKeepsKeysUnique(s, marketId, Position(NakedYes, yes.value.size));
      PutKeepsKeysUnique(s, marketId, Position(NakedNo, no.value.size));
    }
  }

  /**
   * `validate_exit_position`: only a recorded naked position can be exited,
   * and only a filled exit order removes it; every other market keeps its entry.
   */
  function ValidateExit(s: Store, marketId: string, exitOrder: OrderInfo): (r: Validation)
    ensures r.valid <==> Find(s, marketId).Some? && Find(s, marketId).value.kind != Hedged && exitOrder.status == Filled
    ensures r.valid ==> Find(r.store, marketId).None?
    ensures !r.valid ==> r.store == s
    ensures forall k :: k != marketId ==> Find(r.store, k) == Find(s, k)
  {
    match Find(s, marketId)
    case None => Validation(false, s)
    case Some(p) =>
      if p.kind == Hedged then Validation(false, s)
      else if exitOrder.status == Filled then Validation(true, Delete(s, marketId))
      else Validation(false, s)
  }

  /** `get_naked_positions`: the naked entries, in store order. */
  function NakedPositions(s: Store): (r: Store)
    ensures forall e :: e in r <==> e in s && IsNaked(e.position)
  {
    if s == [] then []
    else
      assert s == [s[0]] + s[1..];
      if IsNaked(s[0].position) then [s[0]] + NakedPositions(s[1..]) else NakedPositions(s[1..])
  }

  /** The market ids of a store, in store order. */
  function MarketIds(n: Store): (r: seq<string>)
    ensures |r| == |n| && forall i :: 0 <= i < |n| ==> r[i] == n[i].marketId
    ensures forall k :: k in r <==> k in Keys(n)
    ensures UniqueKeys(n) ==> forall i, j :: 0 <= i < j < |r| ==> r[i] != r[j]
  {
    if n == [] then []
    else
      assert n == [n[0]] + n[1..];
      assert Keys(n) == {n[0].marketId} + Keys(n[1..]);
      assert UniqueKeys(n) ==> n[0].marketId !in Keys(n[1..]) by {
        if UniqueKeys(n) {
          HeadKeyNotInTail(n);
        }
      }
      [n[0].marketId] + MarketIds(n[1..])
  }

  /** Under unique keys the first entry's key occurs nowhere else. */
  lemma HeadKeyNotInTail(n: Store)
    requires UniqueKeys(n) && n != []
    ensures n[0].marketId !in Keys(n[1..])
  {
    forall e | e in n[1..] ensures e.marketId != n[0].marketId {
      var i :| 0 <= i < |n[1..]| && n[1..][i] == e;
      assert n[i + 1] == e;
    }
  }

  /** Under unique keys the naked view knows exactly the markets the store holds naked. */
  lemma NakedKeysExact(s: Store)
    ensures UniqueKeys(s) ==> UniqueKeys(NakedPositions(s))
    ensures UniqueKeys(s) ==> forall k :: k in Keys(NakedPositions(s)) <==> Find(s, k).Some? && IsNaked(Find(s, k).value)
  {
    if UniqueKeys(s) {
      NakedFilterUnique(s);
      var n := NakedPositions(s);
      forall k ensures k in Keys(n) <==> Find(s, k).Some? && IsNaked(Find(s, k).value) {
        if k in Keys(n) {
          var e :| e in n && e.marketId == k;
          FindEntry(s, e);
        }
        if Find(s, k).Some? && IsNaked(Find(s, k).value) {
          assert Entry(k, Find(s, k).value) in n;
        }
      }
    }
  }

  /**
   * `emergency_close_all`: the markets with naked exposure, in store order.
   * Under unique keys these are exactly the markets the store holds naked,
   * each named once.
   */
  function EmergencyCloseAll(s: Store): (r: seq<string>)
    ensures |r| == |NakedPositions(s)|
    ensures forall i :: 0 <= i < |r| ==> r[i] == NakedPositions(s)[i].marketId
    ensures UniqueKeys(s) ==> forall k :: k in r <==> Find(s, k).Some? && IsNaked(Find(s, k).value)
    ensures UniqueKeys(s) ==> forall i, j :: 0 <= i < j < |r| ==> r[i] != r[j]
  {
    NakedKeysExact(s);
    MarketIds(NakedPositions(s))
  }

  /** The naked view agrees with the store on every naked market and knows no other market. */
  lemma {:induction false} NakedViewExact(s: Store)
    requires UniqueKeys(s)
    ensures forall k :: Find(NakedPositions(s), k) == (if Find(s, k).Some? && IsNaked(Find(s, k).value) then Find(s, k) else None)
  {
    NakedFilterUnique(s);
    var n := NakedPositions(s);
    forall k ensures Find(n, k) == (if Find(s, k).Some? && IsNaked(Find(s, k).value) then Find(s, k) else None) {
      if Find(s, k).Some? && IsNaked(Find(s, k).value) {
        assert Entry(k, Find(s, k).value) in n;
      }
      if Find(n, k).Some? {
        FindEntry(s, Entry(k, Find(n, k).value));
      }
    }
  }

  /** Filtering keeps keys unique. */
  lemma {:induction false} NakedFilterUnique(s: Store)
    requires UniqueKeys(s)
    ensures UniqueKeys(NakedPositions(s))
  {
    if s != [] {
      NakedFilterUnique(s[1..]);
      var rest := NakedPositions(s[1..]);
      if IsNaked(s[0].position) {
        forall j | 0 <= j < |rest| ensures rest[j].marketId != s[0].marketId {
          assert rest[j] in s[1..];
          var i :| 0 <= i < |s[1..]| && s[1..][i] == rest[j];
          assert s[i + 1] == rest[j];
        }
      }
    }
  }
}
