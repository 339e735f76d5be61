/** The mutable replay accumulator, proved method by method against `AccumulatorModel`. */
module AccumulatorStates {
  import opened Wrappers
  import opened Collections
  import opened AccumulatorModel
  import opened AccumulatorLevels

  class BookAccumulator {
    var symbol: string
    var bids: map<int, Quote>
    var asks: map<int, Quote>
    var orders: map<nat, Order>
    var orderLevel: bool
    var pending: seq<Change>
    var pendingTs: nat
    var sourceTs: nat
    var wireTs: nat
    var pendingWireTs: nat
    var pendingBatchId: Option<nat>
    var batchId: Option<nat>
    var batchIdExact: bool
    var baselined: bool

    function View(): Acc
      reads this
    {
      Acc(symbol, Resting(bids, asks, orders), orderLevel, pending, pendingTs, sourceTs, wireTs,
          pendingWireTs, pendingBatchId, batchId, batchIdExact, baselined)
    }

    constructor (name: string)
      ensures View() == Fresh(name)
    {
      symbol := name;
      bids, asks, orders := map[], map[], map[];
      orderLevel, pending := false, [];
      pendingTs, sourceTs, wireTs, pendingWireTs := 0, 0, 0, 0;
      pendingBatchId, batchId, batchIdExact, baselined := None, None, false, false;
    }

    method Apply(b: Batch)
      modifies this
      ensures View() == AccumulatorModel.Apply(old(View()), b)
    {
      hide FoldEvent, Kept, AccumulatorModel.Commit, AccumulatorModel.Buffer;
      Buffer(b);
      if !b.last {
        if |pending| > MAX_PENDING_CHANGES {
          pending := [];
          baselined := false;
          pendingTs, pendingBatchId, pendingWireTs := sourceTs, batchId, wireTs;
        }
        return;
      }
      Commit(b.batchId.Some?);
    }

    method Buffer(b: Batch)
      modifies this
      ensures View() == AccumulatorModel.Buffer(old(View()), b)
    {
      hide Kept;
      symbol := b.symbol;
      if b.sourceTs != 0 {
        pendingTs := b.sourceTs;
      }
      if b.batchId.Some? {
        pendingBatchId := b.batchId;
      }
      pendingWireTs := Max(pendingWireTs, b.recvTs);
      Extend(b.changes);
    }

    method Commit(named: bool)
      modifies this
      ensures View() == AccumulatorModel.Commit(old(View()), named)
    {
      hide FoldEvent, AccumulatorModel.Settle;
      var clearedBid, clearedAsk := FoldPending();
      Settle(clearedBid && clearedAsk, named);
    }

    method Settle(covered: bool, named: bool)
      modifies this
      ensures View() == AccumulatorModel.Settle(old(View()), covered, named)
    {
      baselined := baselined || covered;
      if |orders| > MAX_ACCUMULATED_ORDERS {
        orders := map[];
        baselined := false;
      }
      sourceTs, batchId, batchIdExact, wireTs := pendingTs, pendingBatchId, named, pendingWireTs;
    }

    /** Buffer the finite changes. */
    method Extend(changes: seq<Change>)
      modifies this`pending
      ensures pending == old(pending) + Kept(changes)
    {
      var i := 0;
      while i < |changes|
        invariant 0 <= i <= |changes| && pending == old(pending) + Kept(changes[..i])
      {
        if changes[i].finite {
          pending := pending + [changes[i]];
        }
        assert changes[..i + 1][..i] == changes[..i];
        i := i + 1;
      }
      assert changes[..i] == changes;
    }

    /** Fold every buffered change into the resting state, reporting the sides it cleared. */
    method FoldPending() returns (clearedBid: bool, clearedAsk: bool)
      modifies this`bids, this`asks, this`orders, this`orderLevel, this`pending
      ensures pending == []
      ensures Folding(Resting(bids, asks, orders), orderLevel, clearedBid, clearedAsk)
              == FoldEvent(old(View()).rest, old(orderLevel), old(pending))
    {
      hide FoldOne;
      clearedBid, clearedAsk := false, false;
      var changes := pending;
      pending := [];
      var i := 0;
      while i < |changes|
        invariant 0 <= i <= |changes| && pending == []
        invariant Folding(Resting(bids, asks, orders), orderLevel, clearedBid, clearedAsk)
                  == FoldEvent(old(View()).rest, old(orderLevel), changes[..i])
      {
        clearedBid, clearedAsk := FoldChange(changes[i], clearedBid, clearedAsk);
        assert changes[..i + 1][..i] == changes[..i];
        i := i + 1;
      }
      assert changes[..i] == changes;
    }

    method FoldChange(c: Change, wasBid: bool, wasAsk: bool) returns (clearedBid: bool, clearedAsk: bool)
      modifies this`bids, this`asks, this`orders, this`orderLevel
      ensures Folding(Resting(bids, asks, orders), orderLevel, clearedBid, clearedAsk)
              == FoldOne(Folding(old(View()).rest, old(orderLevel), wasBid, wasAsk), c)
    {
      clearedBid, clearedAsk := wasBid, wasAsk;
      var key := PriceKey(c.price);
      if c.orderId != 0 {
        orderLevel := orderLevel || !c.action.Clear?;
        match c.action {
          case Delete => orders := orders - {c.orderId};
          case Update =>
            if c.size == 0.0 {
              orders := orders - {c.orderId};
            } else {
              orders := orders[c.orderId := Order(c.side.Bid?, key, c.price, c.size)];
            }
          case Clear => clearedBid, clearedAsk := ClearOneOrBoth(c.side, wasBid, wasAsk);
        }
        return;
      }
      match c.action {
        case Clear => clearedBid, clearedAsk := ClearOneOrBoth(c.side, wasBid, wasAsk);
        case Delete =>
          if c.side.Bid? {
            bids := bids - {key};
          } else if c.side.Ask? {
            asks := asks - {key};
          }
        case Update =>
          if c.side.Bid? {
            bids := bids[key := Quote(c.price, c.size)];
          } else if c.side.Ask? {
            asks := asks[key := Quote(c.price, c.size)];
          }
      }
    }

    /** Discard one or both sides, across both populations. */
    method ClearOneOrBoth(side: Side, wasBid: bool, wasAsk: bool) returns (clearedBid: bool, clearedAsk: bool)
      modifies this`bids, this`asks, this`orders
      ensures Folding(Resting(bids, asks, orders), orderLevel, clearedBid, clearedAsk)
              == ClearSide(Folding(old(View()).rest, old(orderLevel), wasBid, wasAsk), side)
    {
      clearedBid, clearedAsk := wasBid, wasAsk;
      if side.Bid? || side.Both? {
        bids := map[];
        orders := OrdersOn(orders, false);
        clearedBid := true;
      }
      if side.Ask? || side.Both? {
        asks := map[];
        orders := OrdersOn(orders, true);
        clearedAsk := true;
      }
      assert side.Both? ==> orders == map[];
    }

    /** Equality of the two books; stamps and buffers do not count. */
    method SameState(other: BookAccumulator) returns (same: bool)
      ensures same <==> View().rest == other.View().rest
    {
      same := SameMap(bids, other.bids);
      if same {
        same := SameMap(asks, other.asks);
      }
      if same {
        same := SameMap(orders, other.orders);
      }
    }

    /** As many entries, and every entry of the one in the other. */
    static method SameMap<K(==), V(==)>(a: map<K, V>, b: map<K, V>) returns (same: bool)
      ensures same <==> a == b
    {
      if |a| != |b| {
        return false;
      }
      var left := a.Keys;
      while left != {}
        invariant left <= a.Keys
        invariant forall k :: k in a && k !in left ==> k in b && a[k] == b[k]
        decreases |left|
      {
        ghost var some := HasMember(left);
        var k :| k in left;
        if k !in b || a[k] != b[k] {
          return false;
        }
        left := left - {k};
      }
      SubmapOfSameSize(a, b);
      same := true;
    }

    // ---- materializing ----

    /** The whole book as one re-baseline: a clear, then every level best first, then every order, or one
        level for each price the orders rest at. */
    method ToBook(now: nat, scope: ReplayScope) returns (b: Batch)
      ensures if scope.Orders? then Materializes(View(), b) else MaterializesLevels(View(), b)
      ensures b.recvTs == now
    {
      hide Folded, ListsCounted;
      b := ToClear(View(), now);
      var bidKeys, bidRows := LevelRows(bids, true);
      var askKeys, askRows := LevelRows(asks, false);
      match scope {
        case Orders =>
          var ids, orderRows := OrderRows();
          b := b.(changes := [CLEAR_BOTH] + bidRows + askRows + orderRows);
        case Levels =>
          var bidFold, askFold := PriceFold();
          b := b.(changes := [CLEAR_BOTH] + bidRows + askRows + RowsOf(true, bidFold) + RowsOf(false, askFold));
      }
    }

    /** The orders of each side as price levels with a count, best first. */
    method PriceFold() returns (bidFold: seq<Counted>, askFold: seq<Counted>)
      ensures IsFold(orders, true, bidFold) && IsFold(orders, false, askFold)
    {
      hide Folded;
      var bidLevels, askLevels := FoldByPrice();
      var bidKeys, bidRows := CountedRows(bidLevels, true);
      var askKeys, askRows := CountedRows(askLevels, false);
      bidFold, askFold := bidRows, askRows;
    }

    static method CountedRows(levels: map<int, Counted>, isBid: bool) returns (keys: seq<int>, rows: seq<Counted>)
      ensures ListsCounted(levels, isBid, keys, rows)
    {
      keys := SortedKeys(levels.Keys, isBid);
      rows := seq(|keys|, i requires 0 <= i < |keys| && keys[i] in levels => levels[keys[i]]);
    }

    /** Each order joins the level at its side and key, in whatever order they are visited. */
    method FoldByPrice() returns (bidLevels: map<int, Counted>, askLevels: map<int, Counted>)
      ensures Folded(orders, true, bidLevels) && Folded(orders, false, askLevels)
    {
      hide Folded;
      bidLevels, askLevels := map[], map[];
      NothingFolded();
      ghost var done: map<nat, Order> := map[];
      var left := orders.Keys;
      while left != {}
        invariant left <= orders.Keys && done == orders - left
        invariant Folded(done, true, bidLevels) && Folded(done, false, askLevels)
        decreases |left|
      {
        ghost var some := HasMember(left);
        var id :| id in left;
        var o := orders[id];
        FoldedOneMore(done, if o.isBid then bidLevels else askLevels, id, o);
        OtherSideUnmoved(done, if o.isBid then askLevels else bidLevels, id, o);
        if o.isBid {
          bidLevels := Joined(bidLevels, o);
        } else {
          askLevels := Joined(askLevels, o);
        }
        assert orders - (left - {id}) == done[id := o];
        left, done := left - {id}, done[id := o];
      }
      assert done == orders;
    }

    static method SortedKeys(all: set<int>, isBid: bool) returns (keys: seq<int>)
      ensures forall k :: k in all <==> k in keys
      ensures forall i :: 0 <= i < |keys| ==> keys[i] in all
      ensures forall i, j :: 0 <= i < j < |keys| ==> BetterKey(isBid, keys[i], keys[j])
    {
      keys := [];
      var left := all;
      while left != {}
        invariant left <= all
        invariant forall k :: k in all <==> k in keys || k in left
        invariant forall i, j :: 0 <= i < j < |keys| ==> BetterKey(isBid, keys[i], keys[j])
        invariant forall i, k :: 0 <= i < |keys| && k in left ==> BetterKey(isBid, keys[i], k)
        decreases |left|
      {
        var key := BestKey(left, isBid);
        keys := keys + [key];
        left := left - {key};
      }
    }

    static method LevelRows(levels: map<int, Quote>, isBid: bool) returns (keys: seq<int>, rows: seq<Change>)
      ensures ListsLevels(levels, isBid, keys, rows)
    {
      keys := SortedKeys(levels.Keys, isBid);
      rows := seq(|keys|, i requires 0 <= i < |keys| && keys[i] in levels =>
        Row(SideOf(isBid), levels[keys[i]].price, levels[keys[i]].size, 0));
    }

    static method BestKey(keys: set<int>, isBid: bool) returns (best: int)
      requires keys != {}
      ensures best in keys && forall k :: k in keys && k != best ==> BetterKey(isBid, best, k)
    {
      ghost var some := HasMember(keys);
      best :| best in keys;
      var left := keys - {best};
      while left != {}
        invariant best in keys && left <= keys
        invariant forall k :: k in keys && k !in left && k != best ==> BetterKey(isBid, best, k)
        decreases |left|
      {
        ghost var other := HasMember(left);
        var k :| k in left;
        if BetterKey(isBid, k, best) {
          best := k;
        }
        left := left - {k};
      }
    }

    method OrderRows() returns (ids: seq<nat>, rows: seq<Change>)
      ensures ListsOrders(orders, ids, rows)
    {
      ids, rows := [], [];
      var left := orders.Keys;
      while left != {}
        invariant left <= orders.Keys && |rows| == |ids|
        invariant forall id :: id in orders <==> id in ids || id in left
        invariant forall i :: 0 <= i < |ids| ==> ids[i] in orders
        invariant forall i :: 0 <= i < |ids| ==>
                    rows[i] == Row(SideOf(orders[ids[i]].isBid), orders[ids[i]].price, orders[ids[i]].size, ids[i])
        invariant forall i, j :: 0 <= i < j < |ids| ==> OrderBefore(orders, ids[i], ids[j])
        invariant forall i, id :: 0 <= i < |ids| && id in left ==> OrderBefore(orders, ids[i], id)
        decreases |left|
      {
        var id := FirstOrder(left);
        ids := ids + [id];
        rows := rows + [Row(SideOf(orders[id].isBid), orders[id].price, orders[id].size, id)];
        left := left - {id};
      }
    }

    method FirstOrder(among: set<nat>) returns (first: nat)
      requires among != {} && among <= orders.Keys
      ensures first in among && forall id :: id in among && id != first ==> OrderBefore(orders, first, id)
    {
      first :| first in among;
      var left := among - {first};
      while left != {}
        invariant first in among && left <= among
        invariant forall id :: id in among && id !in left && id != first ==> OrderBefore(orders, first, id)
        decreases |left|
      {
        var id :| id in left;
        if OrderBefore(orders, id, first) {
          first := id;
        }
        left := left - {id};
      }
    }
  }
}
