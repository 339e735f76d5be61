/**
 What a synced book serves. For a stream whose adds name no resting order and whose full fills cover what
 they fill, every price level of a synced book is what the venue's orders rest there, over every lossy run;
 and the materialized order list is one determined list.
 */
module BookDepth {
  import opened Wrappers
  import opened Collections
  import opened BookModel
  import opened BookGuard
  import opened BookIndex
  import opened BookVenue

  /** Quantities below the limit and, where `positive` says so, above zero. */
  predicate GoodQuantity(qty: u64, positive: bool) {
    qty < QTY_LIMIT && (positive ==> qty > 0)
  }

  ghost predicate GoodQuantities(orders: Orders, positive: bool) {
    forall id :: id in orders ==> GoodQuantity(orders[id].qty, positive)
  }

  /** What keeps the levels in step with the orders: an add names no id that rests with a quantity, and a
      full fill covers what it fills. */
  predicate KeepsCount(orders: Orders, kind: DeltaKind) {
    match kind
    case Add(id, _, _, _) => id in orders ==> orders[id].qty == 0
    case Cancel(_) => true
    case Execute(id, execQty, fullFill) => id in orders && fullFill ==> orders[id].qty <= execQty
  }

  predicate TidyEvent(orders: Orders, kind: DeltaKind, positive: bool) {
    KeepsCount(orders, kind) && (kind.Add? ==> GoodQuantity(kind.qty, positive))
  }

  /** The delta is tidy at the book it is numbered next after. */
  predicate TidyDelta(v: Venue, d: DeltaOp, positive: bool) {
    var n := d.seqNo - v.base - 1;
    0 <= n <= |v.deltas| ==> TidyEvent(TrueBook(v, n), d.kind, positive)
  }

  ghost predicate AllTidy(v: Venue, ds: seq<DeltaOp>, positive: bool) {
    forall d :: d in ds ==> TidyDelta(v, d, positive)
  }

  ghost predicate Tidy(v: Venue, positive: bool) {
    && GoodQuantities(v.start, positive)
    && (forall i :: 0 <= i < |v.deltas| ==> TidyAt(v, i, positive))
  }

  predicate TidyAt(v: Venue, i: nat, positive: bool)
    requires i < |v.deltas|
  {
    TidyEvent(TrueBook(v, i), v.deltas[i].kind, positive)
  }

  lemma TidyEventKeepsQuantities(orders: Orders, kind: DeltaKind, positive: bool)
    requires GoodQuantities(orders, positive) && TidyEvent(orders, kind, positive)
    ensures GoodQuantities(TrueApply(orders, kind), positive)
  {}

  lemma {:induction false} TrueQuantities(v: Venue, n: nat, positive: bool)
    requires Tidy(v, positive) && n <= |v.deltas|
    ensures GoodQuantities(TrueBook(v, n), positive)
  {
    if n > 0 {
      TrueQuantities(v, n - 1, positive);
      assert TidyAt(v, n - 1, positive);
      TidyEventKeepsQuantities(TrueBook(v, n - 1), v.deltas[n - 1].kind, positive);
    }
  }

  // ---- the index invariant ----

  ghost predicate Indexed(orders: Orders, bids: Levels, asks: Levels, positive: bool) {
    && IndexAgrees(orders, bids, asks)
    && Small(orders)
    && (positive ==> Positive(orders, bids, asks))
  }

  ghost predicate DepthTrue(v: Venue, b: Book, positive: bool) {
    && (b.building.Some? ==> var g := b.building.value; Indexed(g.orders, g.bids, g.asks, positive))
    && (b.synced ==> Indexed(b.orders, b.bids, b.asks, positive))
    && AllTidy(v, b.pending, positive)
  }

  /** The order already arrived, with a quantity, in the assembly in progress. */
  predicate Repeats(b: Book, sid: u32, id: u64) {
    && b.building.Some? && b.building.value.snapshotId == sid
    && id in b.building.value.orders && b.building.value.orders[id].qty > 0
  }

  ghost predicate TidyStep(v: Venue, b: Book, d: Delivery, positive: bool) {
    match d.event
    case Delta(x) => TidyDelta(v, x, positive)
    case SnapshotOrder(sid, id, _) => !Repeats(b, sid, id)
    case InstrumentReset(anchor) => Tidy(d.venue, positive) && AllTidy(d.venue, Past(b.pending, anchor), positive)
    case EndOfSession => Tidy(d.venue, positive)
    case _ => true
  }

  lemma SmallAfterPut(orders: Orders, id: u64, o: RestingOrder)
    requires Small(orders) && o.qty < QTY_LIMIT
    requires id in orders || |orders| < MAX_ORDERS_PER_BOOK
    ensures Small(orders[id := o])
  {
    assert orders[id := o].Keys == orders.Keys + {id};
    if id in orders {
      assert orders.Keys + {id} == orders.Keys;
    }
  }

  lemma SmallAfterRemove(orders: Orders, id: u64)
    requires Small(orders) && id in orders
    ensures Small(orders - {id})
  {
    SmallerWithout(orders, id);
  }

  lemma SmallAfterExecute(b: Book, id: u64, execQty: u64, fullFill: bool)
    requires Small(b.orders)
    ensures Small(ApplyExecute(b, id, execQty, fullFill).book.orders)
  {
    if id in b.orders {
      SmallAfterRemove(b.orders, id);
      var o := b.orders[id];
      SmallAfterPut(b.orders, id, o.(qty := o.qty - Min(execQty, o.qty)));
    }
  }

  lemma SmallIsKept(b: Book, kind: DeltaKind)
    requires Small(b.orders) && (kind.Add? ==> kind.qty < QTY_LIMIT)
    ensures Small(Apply(b, kind).book.orders)
  {
    hide LevelAdd, LevelRemove;
    match kind
    case Add(id, isBid, price, qty) =>
      if id in b.orders || |b.orders| < MAX_ORDERS_PER_BOOK {
        SmallAfterPut(b.orders, id, RestingOrder(isBid, price, qty));
      }
    case Cancel(id) =>
      if id in b.orders {
        SmallAfterRemove(b.orders, id);
      }
    case Execute(id, execQty, fullFill) => SmallAfterExecute(b, id, execQty, fullFill);
  }

  lemma ApplyKeepsIndexed(b: Book, kind: DeltaKind, positive: bool)
    requires Indexed(b.orders, b.bids, b.asks, positive) && Clean(b, kind)
    requires kind.Add? ==> GoodQuantity(kind.qty, positive)
    ensures var b' := Apply(b, kind).book; Indexed(b'.orders, b'.bids, b'.asks, positive)
  {
    hide Apply, Positive, Small, IndexAgrees;
    IndexKeptIffClean(b, kind);
    if positive {
      ApplyKeepsPositive(b, kind);
    }
    SmallIsKept(b, kind);
  }

  /** A delta tidy at the book it arrives at is clean there. */
  lemma TidyIsClean(v: Venue, b: Book, d: DeltaOp, positive: bool)
    requires TidyDelta(v, d, positive) && Truthful(v, b) && b.synced && d.seqNo == b.lastInstrSeq + 1
    ensures Clean(b, d.kind)
    ensures d.kind.Add? ==> GoodQuantity(d.kind.qty, positive)
  {}

  lemma AppliedKeepsDepth(v: Venue, b: Book, d: DeltaOp, positive: bool)
    requires DepthTrue(v, b, positive) && b.synced && d.seqNo == b.lastInstrSeq + 1 && Clean(b, d.kind)
    requires d.kind.Add? ==> GoodQuantity(d.kind.qty, positive)
    ensures DepthTrue(v, ApplyOrRecover(b, d).book, positive)
  {
    hide Apply, Indexed, TidyDelta;
    var at := b.(lastInstrSeq := d.seqNo, lastMktSeq := d.mktSeq, lastEventTs := d.ts);
    assert Clean(at, d.kind);
    ApplyKeepsIndexed(at, d.kind, positive);
    ApplyFrame(at, d.kind);
  }

  lemma DeltaKeepsDepth(v: Venue, b: Book, d: DeltaOp, positive: bool)
    requires Faithful(v, b) && DepthTrue(v, b, positive) && TidyDelta(v, d, positive)
    ensures DepthTrue(v, OnDelta(b, d).book, positive)
  {
    hide Apply, Indexed, Guarded, TidyDelta;
    if b.synced && d.seqNo == b.lastInstrSeq + 1 {
      TidyIsClean(v, b, d, positive);
      AppliedKeepsDepth(v, b, d, positive);
    }
  }

  lemma {:induction false} ReplayKeepsDepth(v: Venue, b: Book, ds: seq<DeltaOp>, positive: bool)
    requires Valid(v) && Faithful(v, b) && AllAgree(v, ds) && b.synced
    requires DepthTrue(v, b, positive) && AllTidy(v, ds, positive)
    ensures DepthTrue(v, Replay(b, ds), positive)
    decreases |ds|
  {
    if ds != [] {
      hide ApplyOrRecover, Faithful, DepthTrue, TidyDelta, Agreeing;
      assert ds[0] in ds;
      DeltaKeepsFaithful(v, b, ds[0]);
      DeltaKeepsDepth(v, b, ds[0], positive);
      var b' := ApplyOrRecover(b, ds[0]).book;
      if b'.synced {
        ReplayKeepsDepth(v, b', ds[1..], positive);
      }
    }
  }

  lemma EndKeepsDepth(v: Venue, b: Book, anchor: u64, sid: u32, positive: bool)
    requires Valid(v) && Faithful(v, b) && DepthTrue(v, b, positive)
    requires Installs(b, anchor, sid) ==> NoneRepeated(b.building.value)
    ensures DepthTrue(v, OnSnapshotEnd(b, anchor, sid), positive)
  {
    hide TidyDelta, Agreeing, Indexed, Guarded;
    if Installs(b, anchor, sid) {
      var g := b.building.value;
      InstallIsFaithful(v, b, g);
      PastIsWithin(b.pending, g.anchor);
      SortIsWithin(Past(b.pending, g.anchor));
      ReplayKeepsDepth(v, Install(b, g), SortByMktSeq(Past(b.pending, g.anchor)), positive);
    }
  }

  lemma AssembleKeepsIndexed(g: Building, id: u64, o: RestingOrder, positive: bool)
    requires Indexed(g.orders, g.bids, g.asks, positive) && |g.orders| < MAX_ORDERS_PER_BOOK
    requires (id in g.orders ==> g.orders[id].qty == 0) && GoodQuantity(o.qty, positive)
    ensures var g' := Assemble(g, id, o); Indexed(g'.orders, g'.bids, g'.asks, positive)
  {
    hide Assemble, Positive, Small, IndexAgrees;
    AssembleKeepsIndexIffFirst(g, id, o);
    if positive {
      AssembleKeepsPositive(g, id, o);
    }
    AssembleFrame(g, id, o);
    SmallAfterPut(g.orders, id, o);
  }

  lemma OrderKeepsIndexed(v: Venue, b: Book, sid: u32, id: u64, o: RestingOrder, positive: bool)
    requires Tidy(v, positive) && DepthTrue(v, b, positive) && b.building.Some? && b.building.value.snapshotId == sid
    requires IsTrueOrder(v, b.building.value, id, o) && !Repeats(b, sid, id)
    ensures var g := Assemble(b.building.value, id, o); Indexed(g.orders, g.bids, g.asks, positive)
  {
    hide Indexed, Assemble, TrueBook, TidyDelta;
    var g := b.building.value;
    TrueQuantities(v, g.lastInstrSeq - v.base, positive);
    if |g.orders| >= MAX_ORDERS_PER_BOOK {
      FullAssembly(g, id, o);
    } else {
      AssembleKeepsIndexed(g, id, o, positive);
    }
  }

  lemma EmptyIsIndexed(positive: bool)
    ensures Indexed(map[], map[], map[], positive)
  {
    RestingOfEmpty();
  }

  lemma StepKeepsDepth(v: Venue, b: Book, d: Delivery, positive: bool)
    requires Valid(v) && Tidy(v, positive) && Faithful(v, b) && DepthTrue(v, b, positive)
    requires Legal(v, b, d) && TidyStep(v, b, d, positive)
    ensures DepthTrue(d.venue, Step(b, d.event), positive) && Tidy(d.venue, positive)
  {
    hide Guarded, Indexed, TidyDelta, Agreeing, Tidy, Assemble;
    EmptyIsIndexed(positive);
    match d.event
    case Delta(x) => DeltaKeepsDepth(v, b, x, positive);
    case SnapshotBegin(_, _, _, _) =>
    case SnapshotOrder(sid, id, o) =>
      if b.building.Some? && b.building.value.snapshotId == sid {
        OrderKeepsIndexed(v, b, sid, id, o, positive);
      }
    case SnapshotEnd(anchor, sid) => EndKeepsDepth(v, b, anchor, sid, positive);
    case InstrumentReset(_) =>
    case EndOfSession =>
  }

  /** Every stream in force is tidy, and so is everything delivered. */
  ghost predicate TidyRun(v: Venue, ds: seq<Delivery>, positive: bool)
    decreases |ds|
  {
    if ds == [] then Tidy(v, positive)
    else
      var before := ds[..|ds| - 1];
      TidyRun(v, before, positive) && TidyStep(Current(v, before), Receive(before), ds[|ds| - 1], positive)
  }

  lemma {:induction false} RunKeepsDepth(v: Venue, ds: seq<Delivery>, positive: bool)
    requires Valid(v) && LegalRun(v, ds) && TidyRun(v, ds, positive)
    ensures DepthTrue(Current(v, ds), Receive(ds), positive) && Tidy(Current(v, ds), positive)
    decreases |ds|
  {
    hide DepthTrue, Tidy, TidyStep, Faithful, Step, Legal;
    if ds == [] {
      StartsWithDepth(v, positive);
    } else {
      var before := ds[..|ds| - 1];
      RunKeepsDepth(v, before, positive);
      RunIsFaithful(v, before);
      StepKeepsDepth(Current(v, before), Receive(before), ds[|ds| - 1], positive);
      ReceiveLast(ds);
    }
  }

  lemma StartsWithDepth(v: Venue, positive: bool)
    ensures DepthTrue(v, Receive([]), positive)
  {
    EmptyIsIndexed(positive);
  }

  /** Over every legal run of a tidy stream, a synced receiver's every level is the quantity the venue's
      true orders rest at its price: none drifts, wraps or saturates. The levels are those orders grouped
      by price exactly when the orders and levels of no quantity match. */
  lemma LevelsAreTheVenues(v: Venue, ds: seq<Delivery>)
    requires Valid(v) && LegalRun(v, ds) && TidyRun(v, ds, false)
    requires Receive(ds).synced
    ensures var now, b := Current(v, ds), Receive(ds);
            && InRange(now, b.lastInstrSeq)
            && var orders := After(now, b.lastInstrSeq);
               && IndexAgrees(orders, b.bids, b.asks)
               && (b.bids == Groups(orders, true) <==> ZerosMatch(orders, b.bids, true))
               && (b.asks == Groups(orders, false) <==> ZerosMatch(orders, b.asks, false))
  {
    RunKeepsDepth(v, ds, false);
    LossyRunSafety(v, ds);
    var b := Receive(ds);
    SideIsGroupsIff(b.orders, b.bids, true);
    SideIsGroupsIff(b.orders, b.asks, false);
  }

  /** And with positive quantities they are. */
  lemma LevelsAreTheVenuesGroups(v: Venue, ds: seq<Delivery>)
    requires Valid(v) && LegalRun(v, ds) && TidyRun(v, ds, true)
    requires Receive(ds).synced
    ensures var now, b := Current(v, ds), Receive(ds);
            && InRange(now, b.lastInstrSeq)
            && b.bids == Groups(After(now, b.lastInstrSeq), true)
            && b.asks == Groups(After(now, b.lastInstrSeq), false)
  {
    RunKeepsDepth(v, ds, true);
    LossyRunSafety(v, ds);
    var b := Receive(ds);
    IndexIsGroups(b.orders, b.bids, b.asks);
  }

  /** An order of no quantity outlives its level: cancelling the other order at its price drops the level
      it shared. */
  lemma ZeroOrderLosesItsLevel(b: Book)
    requires b.orders == map[] && b.bids == map[] && b.asks == map[] && b.removed == {} && b.synced
    ensures var b1 := Apply(b, Add(1, true, 100, 5)).book;
            var b2 := Apply(b1, Add(2, true, 100, 0)).book;
            var b3 := Apply(b2, Cancel(1)).book;
            && b3.synced && b3.orders == map[2 := RestingOrder(true, 100, 0)] && b3.bids == map[]
            && SideAgrees(b3.orders, b3.bids, true) && b3.bids != Groups(b3.orders, true)
  {
    hide Resting, NoteRemoved, Groups;
    var b1 := Apply(b, Add(1, true, 100, 5)).book;
    var b2 := Apply(b1, Add(2, true, 100, 0)).book;
    var o1, o2 := RestingOrder(true, 100, 5), RestingOrder(true, 100, 0);
    assert b1.orders == map[1 := o1] && b1.bids == map[100 := 5];
    assert b2.orders == map[1 := o1, 2 := o2] && b2.bids == map[100 := 5];
    NothingRests(2, o2);
    var b3 := Apply(b2, Cancel(1)).book;
    RemainingZero(b2, b3);
    SideIsGroupsIff(b3.orders, b3.bids, true);
    assert !ZerosMatch(b3.orders, b3.bids, true);
  }

  lemma RemainingZero(b: Book, b': Book)
    requires b' == Apply(b, Cancel(1)).book
    requires b.orders == map[1 := RestingOrder(true, 100, 5), 2 := RestingOrder(true, 100, 0)] && b.bids == map[100 := 5]
    ensures b'.orders == map[2 := RestingOrder(true, 100, 0)] && b'.bids == map[] && b'.synced == b.synced
  {
    hide Remembered, Forgotten;
  }

  lemma NothingRests(id: u64, o: RestingOrder)
    requires o.qty == 0
    ensures SideAgrees(map[id := o], map[], true)
  {
    forall p: i64
      ensures Resting(map[id := o], true, p) == 0
    {
      RestingAfterRemove(map[id := o], id, true, p);
      RestingOfEmpty();
      assert map[id := o] - {id} == map[];
    }
  }

  // ---- the best levels ----

  predicate Better(isBid: bool, p: i64, q: i64) {
    if isBid then p > q else p < q
  }

  ghost function Prices(top: seq<(i64, u64)>): set<i64> {
    set i | 0 <= i < |top| :: top[i].0
  }

  /** `top` is the best `n` levels, best first. */
  ghost predicate IsTop(levels: Levels, isBid: bool, n: nat, top: seq<(i64, u64)>) {
    && |top| == (if n <= |levels| then n else |levels|)
    && (forall i :: 0 <= i < |top| ==> top[i].0 in levels && top[i].1 == levels[top[i].0])
    && (forall i, j :: 0 <= i < j < |top| ==> Better(isBid, top[i].0, top[j].0))
    && (forall p, i :: p in levels && p !in Prices(top) && 0 <= i < |top| ==> Better(isBid, top[i].0, p))
  }

  // ---- the order list ----

  /** Bids first and best first, then asks best first; ties by order id. */
  predicate Before(x: OrderChange, y: OrderChange) {
    if x.isBid != y.isBid then x.isBid
    else if x.price != y.price then Better(x.isBid, x.price, y.price)
    else x.id < y.id
  }

  function ChangeOf(id: u64, o: RestingOrder): OrderChange {
    OrderChange(id, o.isBid, o.price, o.qty)
  }

  predicate OnlyOrders(orders: Orders, out: seq<OrderChange>) {
    forall i :: 0 <= i < |out| ==> out[i].id in orders && out[i] == ChangeOf(out[i].id, orders[out[i].id])
  }

  predicate Lists(orders: Orders, out: seq<OrderChange>) {
    && OnlyOrders(orders, out)
    && (forall id :: id in orders ==> ChangeOf(id, orders[id]) in out)
    && InOrder(out)
  }

  predicate InOrder(out: seq<OrderChange>) {
    forall i, j :: 0 <= i < j < |out| ==> Before(out[i], out[j])
  }

  lemma ListsHead(orders: Orders, out: seq<OrderChange>)
    requires Lists(orders, out) && out != []
    ensures out[0].id in orders && Lists(orders - {out[0].id}, out[1..])
  {
    var id0 := out[0].id;
    var orders' := orders - {id0};
    forall i | 0 <= i < |out[1..]|
      ensures out[1..][i].id in orders' && out[1..][i] == ChangeOf(out[1..][i].id, orders'[out[1..][i].id])
    {
      assert out[1..][i] == out[i + 1];
      assert Before(out[0], out[i + 1]);
    }
    forall id | id in orders'
      ensures ChangeOf(id, orders'[id]) in out[1..]
    {
      var i :| 0 <= i < |out| && out[i] == ChangeOf(id, orders[id]);
      assert out[1..][i - 1] == out[i];
    }
  }

  lemma FirstIsLeast(orders: Orders, out: seq<OrderChange>, x: OrderChange)
    requires Lists(orders, out) && x in out
    ensures x == out[0] || Before(out[0], x)
  {}

  lemma SameHead(orders: Orders, a: seq<OrderChange>, b: seq<OrderChange>)
    requires Lists(orders, a) && Lists(orders, b) && a != []
    ensures b != [] && a[0] == b[0]
  {
    assert a[0] in b;
    FirstIsLeast(orders, b, a[0]);
    assert b[0].id in orders && b[0] in a;
    FirstIsLeast(orders, a, b[0]);
  }

  /** Two publishers materializing the same book produce the same list. */
  lemma {:induction false} OrderListIsDetermined(orders: Orders, a: seq<OrderChange>, b: seq<OrderChange>)
    requires Lists(orders, a) && Lists(orders, b)
    ensures a == b
    decreases |a|
  {
    if a == [] {
      if b != [] {
        SameHead(orders, b, a);
      }
    } else {
      SameHead(orders, a, b);
      ListsHead(orders, a);
      ListsHead(orders, b);
      OrderListIsDetermined(orders - {a[0].id}, a[1..], b[1..]);
      assert a == [a[0]] + a[1..] && b == [b[0]] + b[1..];
    }
  }
}
