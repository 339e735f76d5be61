/**
 An order-level book replayed as price levels: the orders folded into levels, each with the number of
 orders at it. What the fold conserves, and what a fresh accumulator rests after such a replay.
 */
module AccumulatorLevels {
  import opened Wrappers
  import opened Collections
  import opened AccumulatorModel
  import opened AccumulatorFold
  import opened AccumulatorReplay

  datatype Counted = Counted(price: real, size: real, count: nat)

  function OrderSize(o: Order): real {
    o.size
  }

  function LevelSize(l: Counted): real {
    l.size
  }

  function CountOf(l: Counted): nat {
    l.count
  }

  /** The orders resting on one side at one key. */
  function At(orders: map<nat, Order>, isBid: bool, key: int): map<nat, Order> {
    map id | id in orders && orders[id].isBid == isBid && orders[id].key == key :: orders[id]
  }

  /** The level sums the orders at it, and shows the price of one of them. */
  ghost predicate Sums(l: Counted, at: map<nat, Order>) {
    && l.count == |at|
    && l.size == Total(at, OrderSize)
    && exists id :: id in at && at[id].price == l.price
  }

  /** There is a level exactly where orders rest. */
  ghost predicate LevelAt(orders: map<nat, Order>, isBid: bool, levels: map<int, Counted>, key: int) {
    if At(orders, isBid, key) == map[] then key !in levels
    else key in levels && Sums(levels[key], At(orders, isBid, key))
  }

  ghost predicate Folded(orders: map<nat, Order>, isBid: bool, levels: map<int, Counted>) {
    forall key :: LevelAt(orders, isBid, levels, key)
  }

  ghost predicate ListsCounted(levels: map<int, Counted>, isBid: bool, keys: seq<int>, rows: seq<Counted>) {
    && |rows| == |keys|
    && (forall k :: k in levels <==> k in keys)
    && (forall i :: 0 <= i < |keys| ==> keys[i] in levels && rows[i] == levels[keys[i]])
    && (forall i, j :: 0 <= i < j < |keys| ==> BetterKey(isBid, keys[i], keys[j]))
  }

  /** One side of the orders as counted levels, best first. */
  ghost predicate IsFold(orders: map<nat, Order>, isBid: bool, rows: seq<Counted>) {
    exists levels, keys :: Folded(orders, isBid, levels) && ListsCounted(levels, isBid, keys, rows)
  }

  function LevelRow(isBid: bool, l: Counted): Change {
    Row(SideOf(isBid), l.price, l.size, 0)
  }

  function RowsOf(isBid: bool, levels: seq<Counted>): seq<Change> {
    seq(|levels|, i requires 0 <= i < |levels| => LevelRow(isBid, levels[i]))
  }

  /** `b` is the whole book at level granularity. */
  ghost predicate MaterializesLevels(a: Acc, b: Batch) {
    exists bidKeys, askKeys, bidRows, askRows, bidFold, askFold ::
      && ListsLevels(a.rest.bids, true, bidKeys, bidRows)
      && ListsLevels(a.rest.asks, false, askKeys, askRows)
      && IsFold(a.rest.orders, true, bidFold)
      && IsFold(a.rest.orders, false, askFold)
      && b == ToClear(a, b.recvTs).(changes :=
                [CLEAR_BOTH] + bidRows + askRows + RowsOf(true, bidFold) + RowsOf(false, askFold))
  }

  // ---- folding one more order ----

  /** The level after one more order at its key. */
  function Joined(levels: map<int, Counted>, o: Order): map<int, Counted> {
    var was := if o.key in levels then levels[o.key] else Counted(o.price, 0.0, 0);
    levels[o.key := Counted(was.price, was.size + o.size, was.count + 1)]
  }

  lemma AtOneMore(orders: map<nat, Order>, id: nat, o: Order, isBid: bool, key: int)
    requires id !in orders
    ensures At(orders[id := o], isBid, key)
            == if o.isBid == isBid && o.key == key then At(orders, isBid, key)[id := o] else At(orders, isBid, key)
  {}

  lemma SumsOneMore(was: Counted, at: map<nat, Order>, id: nat, o: Order)
    requires id !in at
    requires if at == map[] then was == Counted(o.price, 0.0, 0) else Sums(was, at)
    ensures Sums(Counted(was.price, was.size + o.size, was.count + 1), at[id := o])
  {
    hide Total;
    var more := at[id := o];
    assert more - {id} == at;
    assert |more| == was.count + 1 by {
      SmallerWithout(more, id);
    }
    assert Total(more, OrderSize) == was.size + o.size by {
      TotalSplit(more, OrderSize, id);
      TotalOfNothing(at, OrderSize);
    }
    var x := id;
    if at != map[] {
      x := PricedBy(was, at);
    }
    assert x in more && more[x].price == was.price;
  }

  lemma PricedBy(l: Counted, at: map<nat, Order>) returns (x: nat)
    requires Sums(l, at)
    ensures x in at && at[x].price == l.price
  {
    x :| x in at && at[x].price == l.price;
  }

  lemma FoldedOneMore(orders: map<nat, Order>, levels: map<int, Counted>, id: nat, o: Order)
    requires id !in orders && Folded(orders, o.isBid, levels)
    ensures Folded(orders[id := o], o.isBid, Joined(levels, o))
  {
    hide Sums, Total, At;
    var more, next := orders[id := o], Joined(levels, o);
    forall key
      ensures LevelAt(more, o.isBid, next, key)
    {
      assert LevelAt(orders, o.isBid, levels, key);
      AtOneMore(orders, id, o, o.isBid, key);
      if key == o.key {
        var at := At(orders, o.isBid, key);
        var was := if key in levels then levels[key] else Counted(o.price, 0.0, 0);
        assert id !in at by {
          NotResting(orders, o.isBid, key, id);
        }
        SumsOneMore(was, at, id, o);
        assert id in at[id := o];
      }
    }
  }

  lemma NotResting(orders: map<nat, Order>, isBid: bool, key: int, id: nat)
    requires id !in orders
    ensures id !in At(orders, isBid, key)
  {}

  lemma OtherSideUnmoved(orders: map<nat, Order>, levels: map<int, Counted>, id: nat, o: Order)
    requires id !in orders && Folded(orders, !o.isBid, levels)
    ensures Folded(orders[id := o], !o.isBid, levels)
  {
    hide Sums, At;
    var more, other := orders[id := o], !o.isBid;
    forall key
      ensures LevelAt(more, other, levels, key)
    {
      assert LevelAt(orders, !o.isBid, levels, key);
      AtOneMore(orders, id, o, !o.isBid, key);
    }
  }

  lemma NothingFolded()
    ensures Folded(map[], true, map[]) && Folded(map[], false, map[])
  {}

  // ---- conservation ----

  lemma WithoutLevel(orders: map<nat, Order>, isBid: bool, levels: map<int, Counted>, key: int)
    requires Folded(orders, isBid, levels)
    ensures Folded(orders - At(orders, isBid, key).Keys, isBid, levels - {key})
  {
    hide Sums;
    var rest := orders - At(orders, isBid, key).Keys;
    forall k
      ensures LevelAt(rest, isBid, levels - {key}, k)
    {
      assert LevelAt(orders, isBid, levels, k);
      assert At(rest, isBid, k) == if k == key then map[] else At(orders, isBid, k);
    }
  }

  /** Folding orders into levels loses none and no size: over the levels of a side, the counts add up to
      the number of orders resting there and the sizes to all they rest. */
  lemma {:induction false} FoldConserves(orders: map<nat, Order>, isBid: bool, levels: map<int, Counted>)
    requires Folded(orders, isBid, levels)
    ensures SumBy(levels, CountOf) == |OrdersOn(orders, isBid)|
    ensures Total(levels, LevelSize) == Total(OrdersOn(orders, isBid), OrderSize)
    decreases |levels|
  {
    hide Folded, Total, SumBy, At, OrdersOn, Only;
    var side := OrdersOn(orders, isBid);
    if levels == map[] {
      NoLevelNoOrder(orders, isBid, levels);
      TotalOfNothing(side, OrderSize);
      TotalOfNothing(levels, LevelSize);
      SumOfNothing(levels, CountOf);
    } else {
      var key := HasMember(levels.Keys);
      var at := At(orders, isBid, key);
      WithoutLevel(orders, isBid, levels, key);
      SmallerWithout(levels, key);
      FoldConserves(orders - at.Keys, isBid, levels - {key});
      SideWithoutLevel(orders, isBid, key);
      TotalOfParts(side, OrderSize, at.Keys);
      TotalSplit(levels, LevelSize, key);
      SumSplit(levels, CountOf, key);
      LevelSums(orders, isBid, levels, key);
    }
  }

  lemma SideWithoutLevel(orders: map<nat, Order>, isBid: bool, key: int)
    ensures var side, at := OrdersOn(orders, isBid), At(orders, isBid, key);
            OrdersOn(orders - at.Keys, isBid) == side - at.Keys && Only(side, at.Keys) == at
  {}

  lemma LevelSums(orders: map<nat, Order>, isBid: bool, levels: map<int, Counted>, key: int)
    requires Folded(orders, isBid, levels) && key in levels
    ensures Sums(levels[key], At(orders, isBid, key)) && At(orders, isBid, key) != map[]
  {
    assert LevelAt(orders, isBid, levels, key);
  }

  lemma NoLevelNoOrder(orders: map<nat, Order>, isBid: bool, levels: map<int, Counted>)
    requires Folded(orders, isBid, levels) && levels == map[]
    ensures OrdersOn(orders, isBid) == map[]
  {
    forall id | id in orders
      ensures orders[id].isBid != isBid
    {
      assert LevelAt(orders, isBid, levels, orders[id].key);
      assert At(orders, isBid, orders[id].key) == map[];
      assert id !in At(orders, isBid, orders[id].key);
    }
  }

  // ---- what a level replay leaves resting ----

  /** A counted level as the accumulator rests it. */
  function Quotes(levels: map<int, Counted>): map<int, Quote> {
    map k | k in levels :: Quote(levels[k].price, levels[k].size)
  }

  lemma FoldedIsKeyed(orders: map<nat, Order>, isBid: bool, levels: map<int, Counted>)
    requires Folded(orders, isBid, levels) && SoundOrders(orders)
    ensures KeyedByPrice(Quotes(levels))
  {
    hide PriceKey, Total, Folded;
    forall k | k in Quotes(levels)
      ensures PriceKey(Quotes(levels)[k].price) == k
    {
      LevelSums(orders, isBid, levels, k);
      var at := At(orders, isBid, k);
      var id := PricedBy(levels[k], at);
      assert orders[id].key == k;
    }
  }

  /** A key where orders rest holds their total; any other keeps the level it had. */
  ghost predicate AggregateAt(orders: map<nat, Order>, isBid: bool, was: map<int, Quote>, now: map<int, Quote>,
                              key: int)
  {
    if At(orders, isBid, key) != map[] then key in now && now[key].size == Total(At(orders, isBid, key), OrderSize)
    else (key in now <==> key in was) && (key in now ==> now[key] == was[key])
  }

  ghost predicate Aggregates(orders: map<nat, Order>, isBid: bool, was: map<int, Quote>, now: map<int, Quote>) {
    forall key :: AggregateAt(orders, isBid, was, now, key)
  }

  /** Folding the level rows of one side onto what rests there. */
  ghost predicate SideReplayed(orders: map<nat, Order>, isBid: bool, was: map<int, Quote>, now: map<int, Quote>) {
    && Aggregates(orders, isBid, was, now)
    && (was == map[] ==> exists levels :: Folded(orders, isBid, levels) && now == Quotes(levels))
  }

  lemma FoldLevelSide(f: Folding, orders: map<nat, Order>, isBid: bool, rows: seq<Counted>)
    requires IsFold(orders, isBid, rows) && SoundOrders(orders)
    ensures var g := FoldAll(f, RowsOf(isBid, rows));
            && g == f.(rest := WithLevels(f.rest, isBid, LevelsOn(g.rest, isBid)))
            && SideReplayed(orders, isBid, LevelsOn(f.rest, isBid), LevelsOn(g.rest, isBid))
  {
    hide PriceKey, Folded, SoundOrders, Total, FoldAll;
    var levels, keys :| Folded(orders, isBid, levels) && ListsCounted(levels, isBid, keys, rows);
    FoldedIsKeyed(orders, isBid, levels);
    FoldLevels(f, Quotes(levels), isBid, keys, RowsOf(isBid, rows));
    ListedAll(Quotes(levels), keys);
    QuotesAggregate(orders, isBid, levels, LevelsOn(f.rest, isBid));
  }

  lemma QuotesAggregate(orders: map<nat, Order>, isBid: bool, levels: map<int, Counted>, was: map<int, Quote>)
    requires Folded(orders, isBid, levels)
    ensures Aggregates(orders, isBid, was, was + Quotes(levels))
    ensures was == map[] ==> was + Quotes(levels) == Quotes(levels)
  {
    hide Total, At;
    var now := was + Quotes(levels);
    forall key
      ensures AggregateAt(orders, isBid, was, now, key)
    {
      assert LevelAt(orders, isBid, levels, key);
    }
  }

  function QuoteSize(q: Quote): real {
    q.size
  }

  lemma {:induction false} QuotesConserve(levels: map<int, Counted>)
    ensures Total(Quotes(levels), QuoteSize) == Total(levels, LevelSize)
    decreases |levels|
  {
    hide Total;
    if levels == map[] {
      assert Quotes(levels) == map[];
      TotalOfNothing(levels, LevelSize);
      TotalOfNothing(Quotes(levels), QuoteSize);
    } else {
      var key := HasMember(levels.Keys);
      SmallerWithout(levels, key);
      QuotesConserve(levels - {key});
      assert Quotes(levels - {key}) == Quotes(levels) - {key};
      TotalSplit(levels, LevelSize, key);
      TotalSplit(Quotes(levels), QuoteSize, key);
    }
  }

  /** The two sides of the resting orders are all of them. */
  lemma SidesAreAll(orders: map<nat, Order>)
    ensures Total(orders, OrderSize) == Total(OrdersOn(orders, true), OrderSize) + Total(OrdersOn(orders, false), OrderSize)
  {
    var keys := OrdersOn(orders, true).Keys;
    TotalOfParts(orders, OrderSize, keys);
    assert Only(orders, keys) == OrdersOn(orders, true);
    assert orders - keys == OrdersOn(orders, false);
  }

  lemma FoldOfLevelBook(r: Resting, bidKeys: seq<int>, bidRows: seq<Change>, askKeys: seq<int>, askRows: seq<Change>,
                        bidFold: seq<Counted>, askFold: seq<Counted>)
    returns (now: Resting)
    requires SoundRest(r)
    requires ListsLevels(r.bids, true, bidKeys, bidRows) && ListsLevels(r.asks, false, askKeys, askRows)
    requires IsFold(r.orders, true, bidFold) && IsFold(r.orders, false, askFold)
    ensures now.orders == map[]
    ensures SideReplayed(r.orders, true, r.bids, now.bids) && SideReplayed(r.orders, false, r.asks, now.asks)
    ensures FoldEvent(EMPTY, false, [CLEAR_BOTH] + bidRows + askRows + RowsOf(true, bidFold) + RowsOf(false, askFold))
            == Folding(now, false, true, true)
  {
    hide FoldAll, PriceKey, IsFold, RowsOf, Aggregates, Folded, SoundOrders, KeyedByPrice;
    var f0, f1 := Folding(EMPTY, false, false, false), Folding(EMPTY, false, true, true);
    var bids, asks := RowsOf(true, bidFold), RowsOf(false, askFold);
    FoldOfOne(f0, CLEAR_BOTH);
    FoldLevels(f1, r.bids, true, bidKeys, bidRows);
    ListedAll(r.bids, bidKeys);
    assert LevelsOn(f1.rest, true) + r.bids == r.bids;
    var f2 := f1.(rest := Resting(r.bids, map[], map[]));
    FoldLevels(f2, r.asks, false, askKeys, askRows);
    ListedAll(r.asks, askKeys);
    assert LevelsOn(f2.rest, false) + r.asks == r.asks;
    var f3 := f2.(rest := Resting(r.bids, r.asks, map[]));
    FoldLevelSide(f3, r.orders, true, bidFold);
    var f4 := FoldAll(f3, bids);
    FoldLevelSide(f4, r.orders, false, askFold);
    now := FoldAll(f4, asks).rest;
    FoldOfBoth(f0, [CLEAR_BOTH], bidRows);
    FoldOfBoth(f0, [CLEAR_BOTH] + bidRows, askRows);
    FoldOfBoth(f0, [CLEAR_BOTH] + bidRows + askRows, bids);
    FoldOfBoth(f0, [CLEAR_BOTH] + bidRows + askRows + bids, asks);
  }

  lemma LevelRowsAreFinite(r: Resting, bidKeys: seq<int>, bidRows: seq<Change>, askKeys: seq<int>, askRows: seq<Change>,
                           bidFold: seq<Counted>, askFold: seq<Counted>)
    requires ListsLevels(r.bids, true, bidKeys, bidRows) && ListsLevels(r.asks, false, askKeys, askRows)
    ensures forall c :: c in [CLEAR_BOTH] + bidRows + askRows + RowsOf(true, bidFold) + RowsOf(false, askFold) ==> c.finite
  {}

  lemma LevelJoiner(a: Acc, b: Batch, symbol: string)
    requires Sound(a) && MaterializesLevels(a, b)
    ensures var j := Apply(Fresh(symbol), b);
            && j.baselined && j.pending == [] && !j.orderLevel && j.rest.orders == map[]
            && SideReplayed(a.rest.orders, true, a.rest.bids, j.rest.bids)
            && SideReplayed(a.rest.orders, false, a.rest.asks, j.rest.asks)
  {
    hide FoldEvent, ListsLevels, IsFold, SoundRest, Apply, Kept, RowsOf, SideReplayed;
    var bidKeys, askKeys, bidRows, askRows, bidFold, askFold :|
      && ListsLevels(a.rest.bids, true, bidKeys, bidRows)
      && ListsLevels(a.rest.asks, false, askKeys, askRows)
      && IsFold(a.rest.orders, true, bidFold)
      && IsFold(a.rest.orders, false, askFold)
      && b == ToClear(a, b.recvTs).(changes :=
                [CLEAR_BOTH] + bidRows + askRows + RowsOf(true, bidFold) + RowsOf(false, askFold));
    var now := FoldOfLevelBook(a.rest, bidKeys, bidRows, askKeys, askRows, bidFold, askFold);
    LevelRowsAreFinite(a.rest, bidKeys, bidRows, askKeys, askRows, bidFold, askFold);
    KeptOfFinite(b.changes);
    FreshAppliesWhole(symbol, b, now);
  }

  /** A market replayed as price levels: the joiner holds no orders, and at every price where orders rest
      one level with exactly the size they rest in all; elsewhere it holds the level the market had. */
  lemma LevelReplayAggregates(symbol: string, past: seq<Batch>, b: Batch, joined: string, isBid: bool, key: int)
    requires MaterializesLevels(Run(Fresh(symbol), past), b)
    ensures var a, j := Run(Fresh(symbol), past), Apply(Fresh(joined), b);
            var was, now, at := LevelsOn(a.rest, isBid), LevelsOn(j.rest, isBid), At(a.rest.orders, isBid, key);
            && j.baselined && !j.orderLevel && j.rest.orders == map[]
            && (if at != map[] then key in now && now[key].size == Total(at, OrderSize)
                else (key in now <==> key in was) && (key in now ==> now[key] == was[key]))
  {
    hide Total, At, Apply, Run, Sound;
    EveryRunIsSound(symbol, past);
    var a, j := Run(Fresh(symbol), past), Apply(Fresh(joined), b);
    LevelJoiner(a, b, joined);
    assert AggregateAt(a.rest.orders, isBid, LevelsOn(a.rest, isBid), LevelsOn(j.rest, isBid), key);
  }

  /** And no size is lost: the levels of a joiner of an order-level market rest as much as its orders. */
  lemma LevelReplayConserves(symbol: string, past: seq<Batch>, b: Batch, joined: string)
    requires var a := Run(Fresh(symbol), past);
             MaterializesLevels(a, b) && a.rest.bids == map[] && a.rest.asks == map[]
    ensures var a, j := Run(Fresh(symbol), past), Apply(Fresh(joined), b);
            Total(j.rest.bids, QuoteSize) + Total(j.rest.asks, QuoteSize) == Total(a.rest.orders, OrderSize)
  {
    hide Total, At, Apply, Run, Folded, Aggregates, Sound;
    EveryRunIsSound(symbol, past);
    var a, j := Run(Fresh(symbol), past), Apply(Fresh(joined), b);
    LevelJoiner(a, b, joined);
    SideConserves(a.rest.orders, true, j.rest.bids);
    SideConserves(a.rest.orders, false, j.rest.asks);
    SidesAreAll(a.rest.orders);
  }

  lemma SideConserves(orders: map<nat, Order>, isBid: bool, now: map<int, Quote>)
    requires SideReplayed(orders, isBid, map[], now)
    ensures Total(now, QuoteSize) == Total(OrdersOn(orders, isBid), OrderSize)
  {
    hide Total, Folded, Aggregates;
    var levels :| Folded(orders, isBid, levels) && now == Quotes(levels);
    FoldConserves(orders, isBid, levels);
    QuotesConserve(levels);
  }
}
