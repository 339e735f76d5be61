/**
 What the reported changes are worth to a consumer that keeps its own copy of the orders: event by event, and
 over whole runs.
 */
module BookReport {
  import opened Wrappers
  import opened Collections
  import opened BookModel
  import opened BookGuard
  import opened BookVenue
  import opened BookDepth

  // ---- what a delta reports ----

  /** What a consumer makes of one change: a quantity of 0 means that the order is gone. */
  function Heed(orders: Orders, c: OrderChange): Orders {
    if c.qty == 0 then orders - {c.id} else orders[c.id := RestingOrder(c.isBid, c.price, c.qty)]
  }

  /** A consumer's own copy of the orders, after the changes a delta reported. */
  function Follow(orders: Orders, reported: seq<OrderChange>): Orders
    decreases |reported|
  {
    if reported == [] then orders else Follow(Heed(orders, reported[0]), reported[1..])
  }

  /** An accepted `Add` of nothing rests here but reports the order gone, and an overflowing `Add`
      empties the book without reporting anything. */
  predicate Reportable(b: Book, kind: DeltaKind) {
    kind.Add? && kind.id !in b.removed ==>
      kind.qty > 0 && (kind.id in b.orders || |b.orders| < MAX_ORDERS_PER_BOOK)
  }

  /** Following the reported changes keeps a copy of the orders exact, exactly for such events. */
  lemma ReportTracksBookIff(b: Book, kind: DeltaKind)
    ensures Follow(b.orders, Apply(b, kind).reported) == Apply(b, kind).book.orders <==> Reportable(b, kind)
  {
    hide LevelAdd, LevelRemove, NoteRemoved;
    match kind
    case Add(id, isBid, price, qty) => AddReport(b, id, RestingOrder(isBid, price, qty));
    case Cancel(id) => RemovalReport(b, kind);
    case Execute(id, execQty, fullFill) => RemovalReport(b, kind);
  }

  lemma AddReport(b: Book, id: u64, o: RestingOrder)
    ensures Follow(b.orders, ApplyAdd(b, id, o).reported) == ApplyAdd(b, id, o).book.orders
            <==> Reportable(b, Add(id, o.isBid, o.price, o.qty))
  {
    hide LevelAdd;
    if id in b.removed {
    } else if |b.orders| >= MAX_ORDERS_PER_BOOK && id !in b.orders {
      assert b.orders != map[];
    } else {
      var out := ApplyAdd(b, id, o).reported;
      assert out == [OrderChange(id, o.isBid, o.price, o.qty)] && out[1..] == [];
      if o.qty == 0 {
        assert id !in b.orders - {id} && id in b.orders[id := o];
      }
    }
  }

  lemma RemovalReport(b: Book, kind: DeltaKind)
    requires !kind.Add?
    ensures Follow(b.orders, Apply(b, kind).reported) == Apply(b, kind).book.orders
  {
    hide LevelRemove, Remembered, Forgotten;
  }

  /** A delta is said to have applied if and only if it is the next of a synced book and not an add that the guard
      refuses; one that did not apply reports nothing and changes no order and no level. */
  lemma AppliedIff(b: Book, d: DeltaOp)
    ensures var out := OnDelta(b, d);
            && (out.applied <==> b.synced && d.seqNo == b.lastInstrSeq + 1 && !(d.kind.Add? && d.kind.id in b.removed))
            && (!out.applied ==> out.reported == [] && out.book.orders == b.orders && out.book.bids == b.bids && out.book.asks == b.asks)
  {
    hide LevelAdd, LevelRemove, NoteRemoved;
  }

  // ---- over a run ----

  /** The orders that hold a quantity. */
  function NonZero(orders: Orders): Orders {
    map id | id in orders && orders[id].qty != 0 :: orders[id]
  }

  /** What a consumer hears of an event: a delta's reported changes come of themselves; where a snapshot is
      installed the whole order list is sent. */
  datatype Heard = Heard(event: Event, list: seq<OrderChange>)

  function Events(heard: seq<Heard>): seq<Event> {
    seq(|heard|, i requires 0 <= i < |heard| => heard[i].event)
  }

  function BookOf(heard: seq<Heard>): Book {
    Run(EMPTY_BOOK, Events(heard))
  }

  predicate IsInstall(b: Book, e: Event) {
    e.SnapshotEnd? && Installs(b, e.anchor, e.snapshotId)
  }

  /** Every order list sent lists the orders resting then. */
  ghost predicate Honest(heard: seq<Heard>)
    decreases |heard|
  {
    heard == [] ||
    var before, h := heard[..|heard| - 1], heard[|heard| - 1];
    Honest(before) && (IsInstall(BookOf(before), h.event) ==> Lists(BookOf(heard).orders, h.list))
  }

  /** The consumer's copy: every list starts it over and every report is followed. */
  function Copy(heard: seq<Heard>): Orders
    decreases |heard|
  {
    if heard == [] then map[]
    else
      var before, h := heard[..|heard| - 1], heard[|heard| - 1];
      if h.event.Delta? then Follow(Copy(before), OnDelta(BookOf(before), h.event.d).reported)
      else if IsInstall(BookOf(before), h.event) then Follow(map[], h.list)
      else Copy(before)
  }

  lemma HeedJoins(copy: Orders, orders: Orders, id: u64)
    requires id in orders && forall x :: x in orders ==> x !in copy
    ensures Heed(copy, ChangeOf(id, orders[id])) + NonZero(orders - {id}) == copy + NonZero(orders)
  {}

  lemma {:induction false} FollowList(copy: Orders, orders: Orders, out: seq<OrderChange>)
    requires Lists(orders, out) && forall id :: id in orders ==> id !in copy
    ensures Follow(copy, out) == copy + NonZero(orders)
    decreases |out|
  {
    hide Lists, NonZero, Heed;
    if out == [] {
      NothingListed(orders);
      NothingJoins(copy);
    } else {
      ListsHead(orders, out);
      var id := out[0].id;
      HeadIsItsOrder(orders, out);
      HeedJoins(copy, orders, id);
      HeedTouchesOne(copy, out[0]);
      FollowList(Heed(copy, out[0]), orders - {id}, out[1..]);
    }
  }

  lemma HeadIsItsOrder(orders: Orders, out: seq<OrderChange>)
    requires Lists(orders, out) && out != []
    ensures out[0].id in orders && out[0] == ChangeOf(out[0].id, orders[out[0].id])
  {}

  lemma HeedTouchesOne(copy: Orders, c: OrderChange)
    ensures forall id :: id != c.id ==> (id in Heed(copy, c) <==> id in copy)
  {}

  lemma NothingJoins(copy: Orders)
    ensures copy + NonZero(map[]) == copy
  {}

  lemma NothingListed(orders: Orders)
    requires Lists(orders, [])
    ensures orders == map[]
  {}

  lemma FollowOne(orders: Orders, c: OrderChange)
    ensures Follow(orders, [c]) == Heed(orders, c)
  {
    hide Heed;
    assert [c][1..] == [];
  }

  lemma HeedPut(orders: Orders, id: u64, o: RestingOrder)
    ensures Heed(NonZero(orders), ChangeOf(id, o)) == NonZero(orders[id := o])
  {}

  lemma HeedGone(orders: Orders, id: u64, isBid: bool, price: i64)
    ensures Heed(NonZero(orders), OrderChange(id, isBid, price, 0)) == NonZero(orders - {id})
  {}

  /** An event that leaves the book synced reports what became of the one order it touched, or nothing. */
  lemma ReportFollows(b: Book, kind: DeltaKind)
    requires b.synced && Apply(b, kind).book.synced
    ensures Follow(NonZero(b.orders), Apply(b, kind).reported) == NonZero(Apply(b, kind).book.orders)
  {
    hide LevelAdd, LevelRemove, Remembered, Forgotten, Follow, NonZero, Heed;
    var id := kind.id;
    FollowNone(NonZero(b.orders));
    match kind
    case Add(_, isBid, price, qty) =>
      HeedPut(b.orders, id, RestingOrder(isBid, price, qty));
      FollowOne(NonZero(b.orders), OrderChange(id, isBid, price, qty));
    case Cancel(_) =>
      if id in b.orders {
        var o := b.orders[id];
        HeedGone(b.orders, id, o.isBid, o.price);
        FollowOne(NonZero(b.orders), OrderChange(id, o.isBid, o.price, 0));
      }
    case Execute(_, execQty, fullFill) =>
      if id in b.orders {
        var o := b.orders[id];
        var left: u64 := o.qty - Min(execQty, o.qty);
        HeedGone(b.orders, id, o.isBid, o.price);
        HeedPut(b.orders, id, o.(qty := left));
        FollowOne(NonZero(b.orders), OrderChange(id, o.isBid, o.price, 0));
        FollowOne(NonZero(b.orders), OrderChange(id, o.isBid, o.price, left));
      }
  }

  lemma FollowNone(orders: Orders)
    ensures Follow(orders, []) == orders
  {}

  lemma DeltaFollows(b: Book, d: DeltaOp)
    requires OnDelta(b, d).book.synced
    ensures b.synced && Follow(NonZero(b.orders), OnDelta(b, d).reported) == NonZero(OnDelta(b, d).book.orders)
  {
    hide Apply;
    if b.synced && d.seqNo == b.lastInstrSeq + 1 {
      ReportFollows(b.(lastInstrSeq := d.seqNo, lastMktSeq := d.mktSeq, lastEventTs := d.ts), d.kind);
    }
  }

  lemma BookOneMore(heard: seq<Heard>)
    requires heard != []
    ensures BookOf(heard) == Step(BookOf(heard[..|heard| - 1]), heard[|heard| - 1].event)
  {
    assert Events(heard)[..|heard| - 1] == Events(heard[..|heard| - 1]);
  }

  lemma OtherEventsKeepSynced(b: Book, e: Event)
    requires !e.Delta? && !IsInstall(b, e) && Step(b, e).synced
    ensures b.synced && Step(b, e).orders == b.orders
  {
    hide Assemble, Past;
  }

  /** A consumer that starts over from the list at each install and follows every report in between holds,
      whenever the book is synced, exactly the orders that rest with a quantity: over every run of arbitrary
      events. */
  lemma {:induction false} ConsumerHoldsTheBook(heard: seq<Heard>)
    requires Honest(heard)
    ensures BookOf(heard).synced ==> Copy(heard) == NonZero(BookOf(heard).orders)
    decreases |heard|
  {
    hide Lists, Follow, NonZero, Step, OnDelta;
    if heard == [] {
      assert BookOf(heard) == EMPTY_BOOK;
    } else if BookOf(heard).synced {
      var before, h := heard[..|heard| - 1], heard[|heard| - 1];
      var b := BookOf(before);
      BookOneMore(heard);
      if h.event.Delta? {
        DeltaIsStep(b, h.event.d);
        DeltaFollows(b, h.event.d);
        ConsumerHoldsTheBook(before);
      } else if IsInstall(b, h.event) {
        FollowList(map[], BookOf(heard).orders, h.list);
        assert map[] + NonZero(BookOf(heard).orders) == NonZero(BookOf(heard).orders);
      } else {
        OtherEventsKeepSynced(b, h.event);
        ConsumerHoldsTheBook(before);
      }
    }
  }

  lemma DeltaIsStep(b: Book, d: DeltaOp)
    ensures Step(b, Delta(d)) == OnDelta(b, d).book
  {}
}
