/**
 The price-level index beside the orders map: when it agrees with the resting orders, and exactly
 which order events keep that agreement.
 */
module BookIndex {
  import opened Wrappers
  import opened Collections
  import opened BookModel

  /** One order's share of a price level. */
  function Share(isBid: bool, price: i64): RestingOrder -> nat {
    (o: RestingOrder) => if o.isBid == isBid && o.price == price then o.qty else 0
  }

  /** The quantity resting on one side at one price. */
  ghost function Resting(orders: Orders, isBid: bool, price: i64): nat {
    SumBy(orders, Share(isBid, price))
  }

  ghost predicate SideAgrees(orders: Orders, levels: Levels, isBid: bool) {
    forall p: i64 :: Level(levels, p) == Resting(orders, isBid, p)
  }

  ghost predicate IndexAgrees(orders: Orders, bids: Levels, asks: Levels) {
    SideAgrees(orders, bids, true) && SideAgrees(orders, asks, false)
  }

  /** A quantity so small that a book at its order cap stays within a level's 64 bits. */
  const QTY_LIMIT: nat := 0x4000_0000_0000

  ghost predicate Small(orders: Orders) {
    |orders| <= MAX_ORDERS_PER_BOOK && forall id :: id in orders ==> orders[id].qty < QTY_LIMIT
  }

  /** Rewriting one order moves only the level it left and the level it joined. */
  lemma RestingAfterPut(orders: Orders, id: u64, o: RestingOrder, isBid: bool, price: i64)
    ensures Resting(orders[id := o], isBid, price)
              + (if id in orders then Share(isBid, price)(orders[id]) else 0)
            == Resting(orders, isBid, price) + Share(isBid, price)(o)
  {
    SumUpdate(orders, Share(isBid, price), id, o);
  }

  lemma RestingAfterRemove(orders: Orders, id: u64, isBid: bool, price: i64)
    requires id in orders
    ensures Resting(orders, isBid, price)
            == Resting(orders - {id}, isBid, price) + Share(isBid, price)(orders[id])
  {
    SumSplit(orders, Share(isBid, price), id);
  }

  lemma RestingOfEmpty()
    ensures forall isBid: bool, p: i64 :: Resting(map[], isBid, p) == 0
    ensures IndexAgrees(map[], map[], map[])
  {}

  // ---- one order event ----

  /** What an event must not do for the index to survive it: name a resting order in an `Add`, or fill
      an order in full with less than its quantity. */
  predicate Clean(b: Book, kind: DeltaKind) {
    match kind
    case Add(id, _, _, _) => id in b.removed || id !in b.orders || b.orders[id].qty == 0
    case Cancel(_) => true
    case Execute(id, execQty, fullFill) => id in b.orders && fullFill ==> b.orders[id].qty <= execQty
  }

  ghost predicate Agrees(b: Book) {
    IndexAgrees(b.orders, b.bids, b.asks)
  }

  lemma AgreesAt(b: Book, isBid: bool, p: i64)
    requires Agrees(b)
    ensures Level(Side(b, isBid), p) == Resting(b.orders, isBid, p)
  {
    assert SideAgrees(b.orders, b.bids, true) && SideAgrees(b.orders, b.asks, false);
  }

  lemma AgreesEverywhere(b: Book)
    requires forall isBid: bool, p: i64 :: Level(Side(b, isBid), p) == Resting(b.orders, isBid, p)
    ensures Agrees(b)
  {
    assert forall p: i64 :: Level(Side(b, true), p) == Resting(b.orders, true, p);
    assert forall p: i64 :: Level(Side(b, false), p) == Resting(b.orders, false, p);
  }

  /** The book after an accepted `Add`. */
  function Added(b: Book, id: u64, o: RestingOrder): Book {
    OnSide(b, o.isBid, LevelAdd(Side(b, o.isBid), o.price, o.qty)).(orders := b.orders[id := o])
  }

  lemma LevelAfterAdd(levels: Levels, price: i64, qty: u64, p: i64)
    requires Level(levels, p) + qty < TWO_TO_THE_64
    ensures Level(LevelAdd(levels, price, qty), p) == Level(levels, p) + (if p == price then qty else 0)
  {}

  lemma CleanAddAt(b: Book, id: u64, o: RestingOrder, isBid: bool, p: i64)
    requires Agrees(b) && Small(b.orders) && o.qty < QTY_LIMIT
    requires if id in b.orders then b.orders[id].qty == 0 else |b.orders| < MAX_ORDERS_PER_BOOK
    ensures Level(Side(Added(b, id, o), isBid), p) == Resting(b.orders[id := o], isBid, p)
  {
    hide Resting, Agrees, Small, LevelAdd;
    AgreesAt(b, isBid, p);
    if isBid == o.isBid {
      assert Level(Side(b, isBid), p) + o.qty < TWO_TO_THE_64 by {
        RoomForOneMore(b.orders, id, isBid, p);
      }
      LevelAfterAdd(Side(b, isBid), o.price, o.qty, p);
    }
    RestingAfterPut(b.orders, id, o, isBid, p);
  }

  lemma DirtyAddAt(b: Book, id: u64, o: RestingOrder)
    requires Agrees(b) && Small(b.orders) && o.qty < QTY_LIMIT
    requires id in b.orders && b.orders[id].qty != 0
    ensures var q := b.orders[id];
            Level(Side(Added(b, id, o), q.isBid), q.price) != Resting(b.orders[id := o], q.isBid, q.price)
  {
    var q := b.orders[id];
    AgreesAt(b, q.isBid, q.price);
    RestingAfterPut(b.orders, id, o, q.isBid, q.price);
  }

  lemma AddKeepsIndexIffClean(b: Book, id: u64, o: RestingOrder)
    requires Agrees(b) && Small(b.orders) && o.qty < QTY_LIMIT
    ensures Agrees(ApplyAdd(b, id, o).book) <==> Clean(b, Add(id, o.isBid, o.price, o.qty))
  {
    if id in b.removed {
    } else if |b.orders| >= MAX_ORDERS_PER_BOOK && id !in b.orders {
      RestingOfEmpty();
    } else if id in b.orders && b.orders[id].qty != 0 {
      DirtyAddAt(b, id, o);
      if Agrees(Added(b, id, o)) {
        AgreesAt(Added(b, id, o), b.orders[id].isBid, b.orders[id].price);
      }
    } else {
      forall isBid: bool, p: i64
        ensures Level(Side(Added(b, id, o), isBid), p) == Resting(Added(b, id, o).orders, isBid, p)
      {
        CleanAddAt(b, id, o, isBid, p);
      }
      AgreesEverywhere(Added(b, id, o));
    }
  }

  /** With room for one more order, no level is within one quantity of wrapping. */
  lemma RoomForOneMore(orders: Orders, id: u64, isBid: bool, p: i64)
    requires Small(orders)
    requires if id in orders then orders[id].qty == 0 else |orders| < MAX_ORDERS_PER_BOOK
    ensures Resting(orders, isBid, p) + QTY_LIMIT <= TWO_TO_THE_64
  {
    var others := orders - {id};
    SumBounded(others, Share(isBid, p), QTY_LIMIT - 1);
    if id in orders {
      SumSplit(orders, Share(isBid, p), id);
      SmallerWithout(orders, id);
    } else {
      assert others == orders;
    }
    assert |others| * (QTY_LIMIT - 1) <= (MAX_ORDERS_PER_BOOK - 1) * (QTY_LIMIT - 1);
  }

  /** The book after `gone` leaves the level of an order, which then rests as `orders` says. */
  function Taken(b: Book, id: u64, gone: u64, orders: Orders): Book
    requires id in b.orders
  {
    var o := b.orders[id];
    OnSide(b, o.isBid, LevelRemove(Side(b, o.isBid), o.price, gone)).(orders := orders)
  }

  lemma TakenAt(b: Book, id: u64, gone: u64, orders: Orders, isBid: bool, p: i64)
    requires Agrees(b) && id in b.orders && gone <= b.orders[id].qty
    ensures Level(Side(Taken(b, id, gone, orders), isBid), p)
            == Resting(b.orders, isBid, p) - (if isBid == b.orders[id].isBid && p == b.orders[id].price then gone else 0)
  {
    var o := b.orders[id];
    AgreesAt(b, isBid, p);
    AgreesAt(b, o.isBid, o.price);
    RestingAfterRemove(b.orders, id, o.isBid, o.price);
  }

  lemma RemoveKeepsIndexIffWhole(b: Book, id: u64, gone: u64)
    requires Agrees(b) && id in b.orders && gone <= b.orders[id].qty
    ensures Agrees(Taken(b, id, gone, b.orders - {id})) <==> gone == b.orders[id].qty
  {
    var o := b.orders[id];
    var b' := Taken(b, id, gone, b.orders - {id});
    if gone == o.qty {
      forall isBid: bool, p: i64
        ensures Level(Side(b', isBid), p) == Resting(b'.orders, isBid, p)
      {
        TakenAt(b, id, gone, b.orders - {id}, isBid, p);
        RestingAfterRemove(b.orders, id, isBid, p);
      }
      AgreesEverywhere(b');
    } else if Agrees(b') {
      AgreesAt(b', o.isBid, o.price);
      TakenAt(b, id, gone, b.orders - {id}, o.isBid, o.price);
      RestingAfterRemove(b.orders, id, o.isBid, o.price);
      assert false;
    }
  }

  lemma PartialFillKeepsIndex(b: Book, id: u64, filled: u64)
    requires Agrees(b) && id in b.orders && filled < b.orders[id].qty
    ensures Agrees(Taken(b, id, filled, b.orders[id := b.orders[id].(qty := b.orders[id].qty - filled)]))
  {
    var o := b.orders[id];
    var left := o.(qty := o.qty - filled);
    var b' := Taken(b, id, filled, b.orders[id := left]);
    forall isBid: bool, p: i64
      ensures Level(Side(b', isBid), p) == Resting(b'.orders, isBid, p)
    {
      TakenAt(b, id, filled, b.orders[id := left], isBid, p);
      RestingAfterPut(b.orders, id, left, isBid, p);
    }
    AgreesEverywhere(b');
  }

  /** The index survives an order event exactly when the event is clean. */
  lemma IndexKeptIffClean(b: Book, kind: DeltaKind)
    requires Agrees(b) && Small(b.orders)
    requires kind.Add? ==> kind.qty < QTY_LIMIT
    ensures Agrees(Apply(b, kind).book) <==> Clean(b, kind)
  {
    match kind
    case Add(id, isBid, price, qty) =>
      AddKeepsIndexIffClean(b, id, RestingOrder(isBid, price, qty));
    case Cancel(id) =>
      if id in b.orders {
        RemoveKeepsIndexIffWhole(b, id, b.orders[id].qty);
      }
    case Execute(id, execQty, fullFill) =>
      if id in b.orders {
        var o := b.orders[id];
        var filled := Min(execQty, o.qty);
        if fullFill || o.qty - filled == 0 {
          RemoveKeepsIndexIffWhole(b, id, filled);
        } else {
          PartialFillKeepsIndex(b, id, filled);
        }
      }
  }

  // ---- a snapshot under assembly ----

  /** A snapshot order keeps the assembled index exactly when its id has not arrived already with a
      quantity. */
  lemma AssembleKeepsIndexIffFirst(g: Building, id: u64, o: RestingOrder)
    requires IndexAgrees(g.orders, g.bids, g.asks) && Small(g.orders) && o.qty < QTY_LIMIT
    requires |g.orders| < MAX_ORDERS_PER_BOOK
    ensures var g' := Assemble(g, id, o);
            IndexAgrees(g'.orders, g'.bids, g'.asks) <==> id !in g.orders || g.orders[id].qty == 0
  {
    AddKeepsIndexIffClean(EMPTY_BOOK.(orders := g.orders, bids := g.bids, asks := g.asks), id, o);
  }

  // ---- when the index is the grouping of the orders by price ----

  ghost predicate NoEmptyLevel(levels: Levels) {
    forall p :: p in levels ==> levels[p] > 0
  }

  ghost predicate AllPositive(orders: Orders) {
    forall id :: id in orders ==> orders[id].qty > 0
  }

  ghost predicate Positive(orders: Orders, bids: Levels, asks: Levels) {
    AllPositive(orders) && NoEmptyLevel(bids) && NoEmptyLevel(asks)
  }

  /** The prices at which orders rest on one side. */
  ghost function PricesOf(orders: Orders, isBid: bool): set<i64> {
    set id | id in orders && orders[id].isBid == isBid :: orders[id].price
  }

  /** The resting orders of one side grouped by price. */
  ghost function Groups(orders: Orders, isBid: bool): map<i64, nat> {
    map p: i64 | p in PricesOf(orders, isBid) :: Resting(orders, isBid, p)
  }

  /** Every order of no quantity has its level, and every level of no quantity has its order. */
  ghost predicate ZerosMatch(orders: Orders, levels: Levels, isBid: bool) {
    && (forall id :: id in orders && orders[id].isBid == isBid && orders[id].qty == 0 ==> orders[id].price in levels)
    && (forall p :: p in levels && levels[p] == 0 ==> p in PricesOf(orders, isBid))
  }

  lemma RestingAtLeast(orders: Orders, id: u64)
    requires id in orders
    ensures Resting(orders, orders[id].isBid, orders[id].price) >= orders[id].qty
  {
    RestingAfterRemove(orders, id, orders[id].isBid, orders[id].price);
  }

  /** A price holds a quantity only where an order does. */
  lemma NothingRestsUnpriced(orders: Orders, isBid: bool, p: i64)
    ensures Resting(orders, isBid, p) > 0 ==> p in PricesOf(orders, isBid)
  {
    SumZero(orders, Share(isBid, p));
  }

  /** Levels that agree with the resting sums are the orders grouped by price exactly when orders and
      levels of no quantity match: quantities that are not zero take care of themselves. */
  lemma SideIsGroupsIff(orders: Orders, levels: Levels, isBid: bool)
    requires SideAgrees(orders, levels, isBid)
    ensures levels == Groups(orders, isBid) <==> ZerosMatch(orders, levels, isBid)
  {
    hide Resting, PricesOf;
    if levels == Groups(orders, isBid) {
      ZerosMatchGroups(orders, levels, isBid);
    }
    if ZerosMatch(orders, levels, isBid) {
      forall p: i64
        ensures p in levels <==> p in PricesOf(orders, isBid)
        ensures p in levels ==> levels[p] == Resting(orders, isBid, p)
      {
        assert Level(levels, p) == Resting(orders, isBid, p);
        NothingRestsUnpriced(orders, isBid, p);
        PricedIsALevel(orders, levels, isBid, p);
      }
      assert levels == Groups(orders, isBid);
    }
  }

  lemma ZerosMatchGroups(orders: Orders, levels: Levels, isBid: bool)
    requires levels == Groups(orders, isBid)
    ensures ZerosMatch(orders, levels, isBid)
  {
    hide Resting;
  }

  lemma PricedIsALevel(orders: Orders, levels: Levels, isBid: bool, p: i64)
    requires SideAgrees(orders, levels, isBid) && ZerosMatch(orders, levels, isBid)
    ensures p in PricesOf(orders, isBid) ==> p in levels
  {
    if p in PricesOf(orders, isBid) {
      var id :| id in orders && orders[id].isBid == isBid && orders[id].price == p;
      RestingAtLeast(orders, id);
      assert Level(levels, p) == Resting(orders, isBid, p);
    }
  }

  /** In particular, when no order and no level is of no quantity. */
  lemma IndexIsGroups(orders: Orders, bids: Levels, asks: Levels)
    requires IndexAgrees(orders, bids, asks) && Positive(orders, bids, asks)
    ensures bids == Groups(orders, true) && asks == Groups(orders, false)
  {
    SideIsGroupsIff(orders, bids, true);
    SideIsGroupsIff(orders, asks, false);
  }

  lemma RemoveLeavesNoEmptyLevel(levels: Levels, price: i64, qty: u64)
    requires NoEmptyLevel(levels)
    ensures NoEmptyLevel(LevelRemove(levels, price, qty))
  {}

  lemma AddKeepsPositive(b: Book, id: u64, o: RestingOrder)
    requires Positive(b.orders, b.bids, b.asks) && o.qty > 0
    requires Agrees(ApplyAdd(b, id, o).book)
    ensures var b' := ApplyAdd(b, id, o).book; Positive(b'.orders, b'.bids, b'.asks)
  {
    var b' := ApplyAdd(b, id, o).book;
    if ApplyAdd(b, id, o).reported != [] {
      RestingAtLeast(b'.orders, id);
      AgreesAt(b', o.isBid, o.price);
    }
  }

  lemma ApplyKeepsPositive(b: Book, kind: DeltaKind)
    requires Positive(b.orders, b.bids, b.asks)
    requires kind.Add? ==> kind.qty > 0
    requires Agrees(Apply(b, kind).book)
    ensures var b' := Apply(b, kind).book; Positive(b'.orders, b'.bids, b'.asks)
  {
    match kind
    case Add(id, isBid, price, qty) =>
      AddKeepsPositive(b, id, RestingOrder(isBid, price, qty));
    case Cancel(id) =>
      if id in b.orders {
        var o := b.orders[id];
        RemoveLeavesNoEmptyLevel(Side(b, o.isBid), o.price, o.qty);
      }
    case Execute(id, execQty, _) =>
      if id in b.orders {
        var o := b.orders[id];
        RemoveLeavesNoEmptyLevel(Side(b, o.isBid), o.price, Min(execQty, o.qty));
      }
  }

  lemma AssembleKeepsPositive(g: Building, id: u64, o: RestingOrder)
    requires Positive(g.orders, g.bids, g.asks) && o.qty > 0
    requires |g.orders| < MAX_ORDERS_PER_BOOK
    requires var g' := Assemble(g, id, o); IndexAgrees(g'.orders, g'.bids, g'.asks)
    ensures var g' := Assemble(g, id, o); Positive(g'.orders, g'.bids, g'.asks)
  {
    var g' := Assemble(g, id, o);
    var b' := EMPTY_BOOK.(orders := g'.orders, bids := g'.bids, asks := g'.asks);
    RestingAtLeast(g'.orders, id);
    AgreesAt(b', o.isBid, o.price);
  }
}
