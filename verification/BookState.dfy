/**
 The mutable book, method by method: each one leaves exactly the state its specification in
 `BookModel` names, so every property proved of that specification holds of the object.
 */
module BookStates {
  import opened Wrappers
  import opened Collections
  import opened BookModel
  import opened BookDepth

  class BookState {
    var orders: Orders
    var bids: Levels
    var asks: Levels
    var synced: bool
    var lastInstrSeq: u32
    var lastMktSeq: u64
    var building: Option<Building>
    var pending: seq<DeltaOp>
    var removed: set<u64>
    var removedOrder: seq<u64>
    var lastEventTs: u64

    function View(): Book
      reads this
    {
      Book(orders, bids, asks, synced, lastInstrSeq, lastMktSeq, building, pending, removed, removedOrder, lastEventTs)
    }

    constructor ()
      ensures View() == EMPTY_BOOK
    {
      orders, bids, asks := map[], map[], map[];
      synced, lastInstrSeq, lastMktSeq := false, 0, 0;
      building, pending := None, [];
      removed, removedOrder := {}, [];
      lastEventTs := 0;
    }

    method OnEndOfSession()
      modifies this
      ensures View() == EMPTY_BOOK
    {
      orders, bids, asks := map[], map[], map[];
      building, pending := None, [];
      ClearRemoved();
      synced := false;
      lastInstrSeq, lastMktSeq, lastEventTs := 0, 0, 0;
    }

    method ClearRemoved()
      modifies this`removed, this`removedOrder
      ensures removed == {} && removedOrder == []
    {
      removed, removedOrder := {}, [];
    }

    /** Keep only the buffered deltas past `anchor`. */
    method RetainPast(ds: seq<DeltaOp>, anchor: u64) returns (kept: seq<DeltaOp>)
      ensures kept == Past(ds, anchor)
    {
      kept := [];
      var i := 0;
      while i < |ds|
        invariant 0 <= i <= |ds|
        invariant kept + Past(ds[i..], anchor) == Past(ds, anchor)
      {
        if ds[i].mktSeq > anchor {
          kept := kept + [ds[i]];
        }
        i := i + 1;
      }
    }

    method OnInstrumentReset(anchor: u64)
      modifies this
      ensures View() == BookModel.OnInstrumentReset(old(View()), anchor)
    {
      hide Past;
      orders, bids, asks := map[], map[], map[];
      building := None;
      pending := RetainPast(pending, anchor);
      ClearRemoved();
      synced := false;
      lastEventTs := 0;
    }

    method OnSnapshotBegin(snapshotId: u32, anchor: u64, total: u32, last: u32)
      modifies this
      ensures View() == BookModel.OnSnapshotBegin(old(View()), snapshotId, anchor, total, last)
    {
      if synced && anchor <= lastMktSeq {
        building := None;
        return;
      }
      if total > MAX_ORDERS_PER_BOOK {
        building := None;
        return;
      }
      building := Some(Building(snapshotId, anchor, total, 0, last, map[], map[], map[]));
    }

    method OnSnapshotOrder(snapshotId: u32, id: u64, isBid: bool, price: i64, qty: u64)
      modifies this
      ensures View() == BookModel.OnSnapshotOrder(old(View()), snapshotId, id, RestingOrder(isBid, price, qty))
    {
      if building.Some? && building.value.snapshotId == snapshotId {
        var g := building.value;
        if |g.orders| >= MAX_ORDERS_PER_BOOK {
          return;
        }
        g := g.(orders := g.orders[id := RestingOrder(isBid, price, qty)]);
        g := g.(received := (g.received + 1) % 0x1_0000_0000);
        if isBid {
          g := g.(bids := LevelAdd(g.bids, price, qty));
        } else {
          g := g.(asks := LevelAdd(g.asks, price, qty));
        }
        building := Some(g);
      }
    }

    method OnSnapshotEnd(anchor: u64, snapshotId: u32) returns (changed: bool)
      modifies this
      ensures View() == BookModel.OnSnapshotEnd(old(View()), anchor, snapshotId)
      ensures changed == Installs(old(View()), anchor, snapshotId)
    {
      hide Replay, SortByMktSeq, Past, BookModel.Install;
      if building.None? {
        return false;
      }
      var g := building.value;
      if g.snapshotId != snapshotId || g.anchor != anchor || g.received != g.total {
        building := None;
        synced := false;
        return false;
      }
      var buffered := RetainPast(pending, g.anchor);
      buffered := SortByMktSeq(buffered);
      Install(g);
      ReplayBuffered(buffered);
      return true;
    }

    /** The assembled book becomes the book; nothing stays buffered and the guard starts over. */
    method Install(g: Building)
      modifies this
      ensures View() == BookModel.Install(old(View()), g) && synced
    {
      building := None;
      orders, bids, asks := g.orders, g.bids, g.asks;
      lastInstrSeq, lastMktSeq, synced := g.lastInstrSeq, g.anchor, true;
      pending := [];
      ClearRemoved();
    }

    /** Replay buffered deltas until one leaves the book recovering. */
    method ReplayBuffered(ds: seq<DeltaOp>)
      requires synced
      modifies this
      ensures View() == Replay(old(View()), ds)
    {
      hide BookModel.ApplyOrRecover;
      var i := 0;
      while i < |ds|
        invariant 0 <= i <= |ds|
        invariant synced && Replay(View(), ds[i..]) == Replay(old(View()), ds)
      {
        var _, _ := ApplyOrRecover(ds[i]);
        if !synced {
          return;
        }
        i := i + 1;
      }
    }

    method OnDeltaReporting(d: DeltaOp) returns (reported: seq<OrderChange>, applied: bool)
      modifies this
      ensures Outcome(View(), reported, applied) == OnDelta(old(View()), d)
    {
      if !synced {
        if |pending| < MAX_PENDING_DELTAS {
          pending := pending + [d];
        }
        return [], false;
      }
      reported, applied := ApplyOrRecover(d);
    }

    method ApplyOrRecover(d: DeltaOp) returns (reported: seq<OrderChange>, applied: bool)
      modifies this
      ensures Outcome(View(), reported, applied) == BookModel.ApplyOrRecover(old(View()), d)
    {
      if d.seqNo <= lastInstrSeq {
        return [], false;
      }
      if d.seqNo != lastInstrSeq + 1 {
        synced := false;
        pending := [d];
        return [], false;
      }
      lastInstrSeq, lastMktSeq, lastEventTs := d.seqNo, d.mktSeq, d.ts;
      match d.kind {
        case Add(id, isBid, price, qty) => reported, applied := ApplyAdd(id, isBid, price, qty);
        case Cancel(id) => reported, applied := ApplyCancel(id);
        case Execute(id, execQty, fullFill) => reported, applied := ApplyExecute(id, execQty, fullFill);
      }
    }

    method ApplyAdd(id: u64, isBid: bool, price: i64, qty: u64) returns (reported: seq<OrderChange>, applied: bool)
      modifies this
      ensures Outcome(View(), reported, applied)
              == BookModel.ApplyAdd(old(View()), id, RestingOrder(isBid, price, qty))
    {
      if id in removed {
        return [], false;
      }
      if |orders| >= MAX_ORDERS_PER_BOOK && id !in orders {
        orders, bids, asks := map[], map[], map[];
        synced := false;
        return [], true;
      }
      orders := orders[id := RestingOrder(isBid, price, qty)];
      if isBid {
        bids := LevelAdd(bids, price, qty);
      } else {
        asks := LevelAdd(asks, price, qty);
      }
      return [OrderChange(id, isBid, price, qty)], true;
    }

    method TakeFromLevel(isBid: bool, price: i64, qty: u64)
      modifies this`bids, this`asks
      ensures View() == OnSide(old(View()), isBid, LevelRemove(Side(old(View()), isBid), price, qty))
    {
      if isBid {
        bids := LevelRemove(bids, price, qty);
      } else {
        asks := LevelRemove(asks, price, qty);
      }
    }

    method ApplyCancel(id: u64) returns (reported: seq<OrderChange>, applied: bool)
      modifies this
      ensures Outcome(View(), reported, applied) == BookModel.ApplyCancel(old(View()), id)
    {
      hide LevelRemove;
      if id !in orders {
        return [], true;
      }
      var o := orders[id];
      orders := orders - {id};
      TakeFromLevel(o.isBid, o.price, o.qty);
      NoteRemoved(id);
      return [OrderChange(id, o.isBid, o.price, 0)], true;
    }

    method ApplyExecute(id: u64, execQty: u64, fullFill: bool) returns (reported: seq<OrderChange>, applied: bool)
      modifies this
      ensures Outcome(View(), reported, applied) == BookModel.ApplyExecute(old(View()), id, execQty, fullFill)
    {
      hide LevelRemove, BookModel.NoteRemoved;
      if id !in orders {
        return [], true;
      }
      var o := orders[id];
      var filled := Min(execQty, o.qty);
      var remaining := o.qty - filled;
      var remove := fullFill || remaining == 0;
      if remove {
        orders := orders - {id};
      } else {
        orders := orders[id := o.(qty := remaining)];
      }
      TakeFromLevel(o.isBid, o.price, filled);
      if remove {
        NoteRemoved(id);
      }
      return [OrderChange(id, o.isBid, o.price, if remove then 0 else remaining)], true;
    }

    /** Remember a removed id, popping the oldest while the queue is over its cap. */
    method NoteRemoved(id: u64)
      modifies this
      ensures View() == BookModel.NoteRemoved(old(View()), id)
    {
      if id in removed {
        return;
      }
      removed := removed + {id};
      removedOrder := removedOrder + [id];
      ghost var queue, known := removedOrder, removed;
      ghost var popped := 0;
      while |removedOrder| > MAX_REMOVED_ORDERS
        invariant 0 <= popped <= |queue| && removedOrder == queue[popped..]
        invariant popped == 0 || |removedOrder| >= MAX_REMOVED_ORDERS
        invariant removed == known - (set x | x in queue[..popped])
        invariant View() == old(View()).(removed := removed, removedOrder := removedOrder)
      {
        var oldest := removedOrder[0];
        removedOrder := removedOrder[1..];
        removed := removed - {oldest};
        assert queue[..popped + 1] == queue[..popped] + [oldest];
        popped := popped + 1;
      }
      PoppedIsForgotten(queue, popped);
    }

    static lemma PoppedIsForgotten(queue: seq<u64>, popped: nat)
      requires popped <= |queue| && |queue| - popped <= MAX_REMOVED_ORDERS
      requires popped == 0 || |queue| - popped >= MAX_REMOVED_ORDERS
      ensures Forgotten(queue) == queue[..popped] && Remembered(queue) == queue[popped..]
    {}

    /** The materialized order list. */
    method OrderSet() returns (out: seq<OrderChange>)
      ensures Lists(orders, out)
    {
      out := [];
      var left := orders;
      while left != map[]
        invariant forall id :: id in left ==> id in orders && left[id] == orders[id]
        invariant Lists(orders - left.Keys, out)
        decreases |left|
      {
        var id :| id in left;
        out := InsertChange(orders - left.Keys, out, id, orders[id]);
        assert |left - {id}| < |left| by {
          assert (left - {id}).Keys == left.Keys - {id};
        }
        assert orders - (left - {id}).Keys == (orders - left.Keys)[id := orders[id]];
        left := left - {id};
      }
      assert orders - left.Keys == orders;
    }

    static method InsertChange(listed: Orders, out: seq<OrderChange>, id: u64, o: RestingOrder) returns (r: seq<OrderChange>)
      requires Lists(listed, out) && id !in listed
      ensures Lists(listed[id := o], r)
    {
      var c := ChangeOf(id, o);
      var i := 0;
      while i < |out| && Before(out[i], c)
        invariant 0 <= i <= |out|
        invariant forall k :: 0 <= k < i ==> Before(out[k], c)
      {
        i := i + 1;
      }
      InsertedLists(listed, out, id, o, i);
      r := out[..i] + [c] + out[i..];
    }

    static lemma InsertedInOrder(out: seq<OrderChange>, c: OrderChange, at: nat)
      requires InOrder(out) && at <= |out| && c !in out
      requires forall k :: 0 <= k < |out| ==> out[k].id != c.id
      requires forall k :: 0 <= k < at ==> Before(out[k], c)
      requires at < |out| ==> !Before(out[at], c)
      ensures InOrder(out[..at] + [c] + out[at..])
    {
      forall k | at <= k < |out|
        ensures Before(c, out[k])
      {
        assert Before(c, out[at]);
        assert k > at ==> Before(out[at], out[k]);
      }
    }

    static lemma InsertedLists(listed: Orders, out: seq<OrderChange>, id: u64, o: RestingOrder, at: nat)
      requires Lists(listed, out) && id !in listed && at <= |out|
      requires forall k :: 0 <= k < at ==> Before(out[k], ChangeOf(id, o))
      requires at < |out| ==> !Before(out[at], ChangeOf(id, o))
      ensures Lists(listed[id := o], out[..at] + [ChangeOf(id, o)] + out[at..])
    {
      hide InOrder, Before;
      var c := ChangeOf(id, o);
      var r := out[..at] + [c] + out[at..];
      assert out == out[..at] + out[at..];
      InsertedInOrder(out, c, at);
      assert forall x :: x in r <==> x == c || x in out;
      assert OnlyOrders(listed[id := o], r) by {
        forall k | 0 <= k < |r|
          ensures r[k].id in listed[id := o] && r[k] == ChangeOf(r[k].id, listed[id := o][r[k].id])
        {
          assert r[k] == if k < at then out[k] else if k == at then c else out[k - 1];
        }
      }
    }

    /** The best `n` levels per side. */
    method TopLevels(n: nat) returns (bestBids: seq<(i64, u64)>, bestAsks: seq<(i64, u64)>)
      ensures IsTop(bids, true, n, bestBids) && IsTop(asks, false, n, bestAsks)
    {
      bestBids := Best(bids, true, n);
      bestAsks := Best(asks, false, n);
    }

    static method Best(levels: Levels, isBid: bool, n: nat) returns (top: seq<(i64, u64)>)
      ensures IsTop(levels, isBid, n, top)
    {
      hide Picked, IsTop;
      top := [];
      var left := levels;
      assert Picked(levels, isBid, top, left) by {
        NothingPicked(levels, isBid);
      }
      while |top| < n && left != map[]
        invariant |top| <= n && Picked(levels, isBid, top, left)
        decreases |left|
      {
        var p := BestPrice(left, isBid);
        PickedOneMore(levels, isBid, top, left, p);
        SmallerWithout(left, p);
        top, left := top + [(p, left[p])], left - {p};
      }
      PickedIsTop(levels, isBid, n, top, left);
    }

    static lemma NothingPicked(levels: Levels, isBid: bool)
      ensures Picked(levels, isBid, [], levels)
    {
      assert levels == levels - Prices([]);
    }

    static lemma PickedIsTop(levels: Levels, isBid: bool, n: nat, top: seq<(i64, u64)>, left: Levels)
      requires Picked(levels, isBid, top, left) && |top| <= n && (|top| < n ==> left == map[])
      ensures IsTop(levels, isBid, n, top)
    {
      hide Prices, Better;
      assert |top| == if n <= |levels| then n else |levels|;
      forall p | p in levels && p !in Prices(top)
        ensures p in left
      {}
    }

    /** `top` was picked best first and `left` is what remains, all of it worse. */
    ghost static predicate Picked(levels: Levels, isBid: bool, top: seq<(i64, u64)>, left: Levels) {
      && |top| + |left| == |levels|
      && left == levels - Prices(top)
      && (forall i :: 0 <= i < |top| ==> top[i].0 in levels && top[i].1 == levels[top[i].0])
      && (forall i, j :: 0 <= i < j < |top| ==> Better(isBid, top[i].0, top[j].0))
      && (forall p, i :: p in left && 0 <= i < |top| ==> Better(isBid, top[i].0, p))
    }

    static lemma PickedOneMore(levels: Levels, isBid: bool, top: seq<(i64, u64)>, left: Levels, p: i64)
      requires Picked(levels, isBid, top, left) && p in left
      requires forall q :: q in left && q != p ==> Better(isBid, p, q)
      ensures Picked(levels, isBid, top + [(p, left[p])], left - {p})
    {
      hide Better, Prices;
      OneMorePrice(top, p, left[p]);
      SmallerWithout(left, p);
      assert left - {p} == levels - (Prices(top) + {p});
    }

    static lemma OneMorePrice(top: seq<(i64, u64)>, p: i64, q: u64)
      ensures Prices(top + [(p, q)]) == Prices(top) + {p}
    {
      var top' := top + [(p, q)];
      forall x | x in Prices(top) + {p}
        ensures x in Prices(top')
      {
        if x == p {
          assert top'[|top|].0 == x;
        } else {
          var i :| 0 <= i < |top| && top[i].0 == x;
          assert top'[i].0 == x;
        }
      }
    }

    static method BestPrice(levels: Levels, isBid: bool) returns (best: i64)
      requires levels != map[]
      ensures best in levels
      ensures forall p :: p in levels && p != best ==> Better(isBid, best, p)
    {
      best :| best in levels;
      var left := levels.Keys - {best};
      while left != {}
        invariant best in levels && left <= levels.Keys
        invariant forall p :: p in levels && p !in left && p != best ==> Better(isBid, best, p)
        decreases |left|
      {
        var p :| p in left;
        if Better(isBid, p, best) {
          best := p;
        }
        left := left - {p};
      }
    }
  }
}
