/**
 The replay accumulator of one market: it buffers the batches of a logical event and folds the whole
 event into its resting state on the batch marked `last`. This is the specification the
 `BookAccumulator` class is proved against.

 Prices and sizes are exact numbers; a change also says whether both were finite on the wire.
 */
module AccumulatorModel {
  import opened Wrappers

  const MAX_PENDING_CHANGES: nat := 8192
  const MAX_ACCUMULATED_ORDERS: nat := 0x4_0000

  datatype Action = Update | Delete | Clear

  datatype Side = Bid | Ask | Both

  datatype Change = Change(action: Action, side: Side, price: real, size: real, orderId: nat, finite: bool)

  /** The fields of a broadcast batch that the accumulator reads or stamps. */
  datatype Batch = Batch(
    symbol: string,
    orderLevel: bool,
    changes: seq<Change>,
    batchId: Option<nat>,
    snapshot: bool,
    last: bool,
    sourceTs: nat,
    recvTs: nat)

  // ---- the price key ----

  const I128_MAX: int := 0x7fff_ffff_ffff_ffff_ffff_ffff_ffff_ffff

  /** Round half away from zero. */
  function Round(x: real): int {
    if x >= 0.0 then (x + 0.5).Floor else -((0.5 - x).Floor)
  }

  /** A price as a 10^-8 fixed-point integer, saturating at 128 bits. */
  function PriceKey(price: real): int {
    var k := Round(price * 100000000.0);
    if k > I128_MAX then I128_MAX else if k < -I128_MAX - 1 then -I128_MAX - 1 else k
  }

  // ---- the resting state ----

  datatype Quote = Quote(price: real, size: real)

  datatype Order = Order(isBid: bool, key: int, price: real, size: real)

  datatype Resting = Resting(bids: map<int, Quote>, asks: map<int, Quote>, orders: map<nat, Order>)

  const EMPTY := Resting(map[], map[], map[])

  /** An event part-way through its fold: the state so far and which sides it has cleared. */
  datatype Folding = Folding(rest: Resting, orderLevel: bool, clearedBid: bool, clearedAsk: bool)

  function OrdersOn(orders: map<nat, Order>, isBid: bool): map<nat, Order> {
    map id | id in orders && orders[id].isBid == isBid :: orders[id]
  }

  function ClearSide(f: Folding, side: Side): Folding {
    match side
    case Bid => f.(rest := Resting(map[], f.rest.asks, OrdersOn(f.rest.orders, false)), clearedBid := true)
    case Ask => f.(rest := Resting(f.rest.bids, map[], OrdersOn(f.rest.orders, true)), clearedAsk := true)
    case Both => f.(rest := EMPTY, clearedBid := true, clearedAsk := true)
  }

  function WithOrders(f: Folding, orders: map<nat, Order>): Folding {
    f.(rest := f.rest.(orders := orders), orderLevel := true)
  }

  function FoldOrder(f: Folding, c: Change): Folding {
    match c.action
    case Clear => ClearSide(f, c.side)
    case Delete => WithOrders(f, f.rest.orders - {c.orderId})
    case Update =>
      if c.size == 0.0 then WithOrders(f, f.rest.orders - {c.orderId})
      else WithOrders(f, f.rest.orders[c.orderId := Order(c.side.Bid?, PriceKey(c.price), c.price, c.size)])
  }

  function FoldLevel(f: Folding, c: Change): Folding {
    var key := PriceKey(c.price);
    match c.action
    case Clear => ClearSide(f, c.side)
    case Delete =>
      if c.side.Bid? then f.(rest := f.rest.(bids := f.rest.bids - {key}))
      else if c.side.Ask? then f.(rest := f.rest.(asks := f.rest.asks - {key}))
      else f
    case Update =>
      if c.side.Bid? then f.(rest := f.rest.(bids := f.rest.bids[key := Quote(c.price, c.size)]))
      else if c.side.Ask? then f.(rest := f.rest.(asks := f.rest.asks[key := Quote(c.price, c.size)]))
      else f
  }

  function FoldOne(f: Folding, c: Change): Folding {
    if c.orderId != 0 then FoldOrder(f, c) else FoldLevel(f, c)
  }

  function FoldAll(f: Folding, cs: seq<Change>): Folding
    decreases |cs|
  {
    if cs == [] then f else FoldOne(FoldAll(f, cs[..|cs| - 1]), cs[|cs| - 1])
  }

  // ---- the accumulator ----

  datatype Acc = Acc(
    symbol: string,
    rest: Resting,
    orderLevel: bool,
    pending: seq<Change>,
    pendingTs: nat,
    sourceTs: nat,
    wireTs: nat,
    pendingWireTs: nat,
    pendingBatchId: Option<nat>,
    batchId: Option<nat>,
    batchIdExact: bool,
    baselined: bool)

  function Fresh(symbol: string): Acc {
    Acc(symbol, EMPTY, false, [], 0, 0, 0, 0, None, None, false, false)
  }

  function Kept(cs: seq<Change>): seq<Change>
    decreases |cs|
  {
    if cs == [] then []
    else Kept(cs[..|cs| - 1]) + if cs[|cs| - 1].finite then [cs[|cs| - 1]] else []
  }

  function Max(x: nat, y: nat): nat {
    if x >= y then x else y
  }

  /** The batch joins the buffered event and names its stamps. */
  function Buffer(a: Acc, b: Batch): Acc {
    a.(symbol := b.symbol,
       pendingTs := if b.sourceTs != 0 then b.sourceTs else a.pendingTs,
       pendingBatchId := if b.batchId.Some? then b.batchId else a.pendingBatchId,
       pendingWireTs := Max(a.pendingWireTs, b.recvTs),
       pending := a.pending + Kept(b.changes))
  }

  /** An unterminated event past the cap is given up, and its stamps with it. */
  function Abandon(a: Acc): Acc {
    a.(pending := [], baselined := false,
       pendingTs := a.sourceTs, pendingBatchId := a.batchId, pendingWireTs := a.wireTs)
  }

  /** What folding an event leaves resting; an order population over its cap is dropped. */
  function Capped(rest: Resting): Resting {
    if |rest.orders| > MAX_ACCUMULATED_ORDERS then rest.(orders := map[]) else rest
  }

  function FoldEvent(rest: Resting, orderLevel: bool, cs: seq<Change>): Folding {
    FoldAll(Folding(rest, orderLevel, false, false), cs)
  }

  /** Once the event is folded: the order cap, the baseline flag and the stamps. */
  function Settle(a: Acc, covered: bool, named: bool): Acc {
    a.(rest := Capped(a.rest),
       baselined := (a.baselined || covered) && |a.rest.orders| <= MAX_ACCUMULATED_ORDERS,
       sourceTs := a.pendingTs,
       batchId := a.pendingBatchId,
       batchIdExact := named,
       wireTs := a.pendingWireTs)
  }

  function Commit(a: Acc, named: bool): Acc {
    var f := FoldEvent(a.rest, a.orderLevel, a.pending);
    Settle(a.(rest := f.rest, orderLevel := f.orderLevel, pending := []), f.clearedBid && f.clearedAsk, named)
  }

  function Apply(a: Acc, b: Batch): Acc {
    var a' := Buffer(a, b);
    if b.last then Commit(a', b.batchId.Some?)
    else if |a'.pending| > MAX_PENDING_CHANGES then Abandon(a')
    else a'
  }

  function Run(a: Acc, bs: seq<Batch>): Acc
    decreases |bs|
  {
    if bs == [] then a else Apply(Run(a, bs[..|bs| - 1]), bs[|bs| - 1])
  }

  // ---- the re-baseline it materializes ----

  datatype ReplayScope = Levels | Orders

  const CLEAR_BOTH := Change(Clear, Both, 0.0, 0.0, 0, true)

  function Row(side: Side, price: real, size: real, orderId: nat): Change {
    Change(Update, side, price, size, orderId, true)
  }

  function SideOf(isBid: bool): Side {
    if isBid then Bid else Ask
  }

  predicate BetterKey(isBid: bool, x: int, y: int) {
    if isBid then x > y else x < y
  }

  /** One side's levels, best first. */
  ghost predicate ListsLevels(levels: map<int, Quote>, isBid: bool, keys: seq<int>, rows: seq<Change>) {
    && |rows| == |keys|
    && (forall k :: k in levels <==> k in keys)
    && (forall i :: 0 <= i < |keys| ==> keys[i] in levels)
    && (forall i :: 0 <= i < |keys| ==> rows[i] == Row(SideOf(isBid), levels[keys[i]].price, levels[keys[i]].size, 0))
    && (forall i, j :: 0 <= i < j < |keys| ==> BetterKey(isBid, keys[i], keys[j]))
  }

  /** Bids best first, then asks best first, ties by order id. */
  predicate OrderBefore(orders: map<nat, Order>, x: nat, y: nat)
    requires x in orders && y in orders
  {
    var a, b := orders[x], orders[y];
    if a.isBid != b.isBid then a.isBid
    else if a.key != b.key then BetterKey(a.isBid, a.key, b.key)
    else x < y
  }

  ghost predicate ListsOrders(orders: map<nat, Order>, ids: seq<nat>, rows: seq<Change>) {
    && |rows| == |ids|
    && (forall id :: id in orders <==> id in ids)
    && (forall i :: 0 <= i < |ids| ==> ids[i] in orders)
    && (forall i :: 0 <= i < |ids| ==>
          rows[i] == Row(SideOf(orders[ids[i]].isBid), orders[ids[i]].price, orders[ids[i]].size, ids[i]))
    && (forall i, j :: 0 <= i < j < |ids| ==> OrderBefore(orders, ids[i], ids[j]))
  }

  /** The header of a bare clear of this market, stamped with what is folded in. */
  function ToClear(a: Acc, now: nat): Batch {
    Batch(a.symbol, a.orderLevel, [CLEAR_BOTH], a.batchId, true, true, a.sourceTs, now)
  }

  /** `b` is the whole book at order granularity: a clear, then every level and every order. */
  ghost predicate Materializes(a: Acc, b: Batch) {
    exists bidKeys, askKeys, ids, bidRows, askRows, orderRows ::
      && ListsLevels(a.rest.bids, true, bidKeys, bidRows)
      && ListsLevels(a.rest.asks, false, askKeys, askRows)
      && ListsOrders(a.rest.orders, ids, orderRows)
      && b == ToClear(a, b.recvTs).(changes := [CLEAR_BOTH] + bidRows + askRows + orderRows)
  }
}
