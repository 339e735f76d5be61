/**
 The order-level (L3) book of one instrument: its state, and what each message does to it. This is
 the specification the `BookState` class is proved against; the properties are proved in
 `BookGuard`, `BookVenue`, `BookStrays`, `BookChange`, `BookReuse`, `BookRecovery`, `BookDelivery`, `BookIndex`,
 `BookDepth`, `BookLevels` and `BookReport`.
 */
module BookModel {
  import opened Wrappers

  const TWO_TO_THE_64: nat := 0x1_0000_0000_0000_0000

  type u32 = x: int | 0 <= x < 0x1_0000_0000
  type u64 = x: int | 0 <= x < TWO_TO_THE_64
  type i64 = x: int | -0x8000_0000_0000_0000 <= x < 0x8000_0000_0000_0000

  const MAX_ORDERS_PER_BOOK: nat := 0x4_0000
  const MAX_PENDING_DELTAS: nat := 0x4_0000
  const MAX_REMOVED_ORDERS: nat := 0x1_0000

  datatype RestingOrder = RestingOrder(isBid: bool, price: i64, qty: u64)

  type Orders = map<u64, RestingOrder>

  type Levels = map<i64, u64>

  /** One reported change: the order's absolute resulting quantity, 0 meaning that it is gone. */
  datatype OrderChange = OrderChange(id: u64, isBid: bool, price: i64, qty: u64)

  datatype DeltaKind =
    | Add(id: u64, isBid: bool, price: i64, qty: u64)
    | Cancel(id: u64)
    | Execute(id: u64, execQty: u64, fullFill: bool)

  datatype DeltaOp = DeltaOp(seqNo: u32, mktSeq: u64, ts: u64, kind: DeltaKind)

  /** A snapshot being assembled between its begin and its end. */
  datatype Building = Building(
    snapshotId: u32,
    anchor: u64,
    total: u32,
    received: u32,
    lastInstrSeq: u32,
    orders: Orders,
    bids: Levels,
    asks: Levels)

  datatype Book = Book(
    orders: Orders,
    bids: Levels,
    asks: Levels,
    synced: bool,
    lastInstrSeq: u32,
    lastMktSeq: u64,
    building: Option<Building>,
    pending: seq<DeltaOp>,
    removed: set<u64>,
    removedOrder: seq<u64>,
    lastEventTs: u64)

  const EMPTY_BOOK := Book(map[], map[], map[], false, 0, 0, None, [], {}, [], 0)

  /** What a delta did: the new book, the changes it reported, and whether it applied. */
  datatype Outcome = Outcome(book: Book, reported: seq<OrderChange>, applied: bool)

  // ---- price levels ----

  function Level(levels: Levels, price: i64): u64 {
    if price in levels then levels[price] else 0
  }

  /** Addition on the level's 64-bit total, which wraps in a release build. */
  function LevelAdd(levels: Levels, price: i64, qty: u64): Levels {
    levels[price := (Level(levels, price) + qty) % TWO_TO_THE_64]
  }

  /** Saturating removal; a level that reaches zero is dropped. */
  function LevelRemove(levels: Levels, price: i64, qty: u64): Levels {
    if price !in levels then levels
    else if levels[price] <= qty then levels - {price}
    else levels[price := levels[price] - qty]
  }

  // ---- the resurrection guard ----

  /** The queue past its cap forgets its oldest ids. */
  function Forgotten(order: seq<u64>): seq<u64> {
    if |order| > MAX_REMOVED_ORDERS then order[..|order| - MAX_REMOVED_ORDERS] else []
  }

  function Remembered(order: seq<u64>): seq<u64> {
    if |order| > MAX_REMOVED_ORDERS then order[|order| - MAX_REMOVED_ORDERS..] else order
  }

  function NoteRemoved(b: Book, id: u64): Book {
    if id in b.removed then b
    else
      var queue := b.removedOrder + [id];
      b.(removed := b.removed + {id} - (set x | x in Forgotten(queue)), removedOrder := Remembered(queue))
  }

  // ---- one order event ----

  function OnSide(b: Book, isBid: bool, levels: Levels): Book {
    if isBid then b.(bids := levels) else b.(asks := levels)
  }

  function Side(b: Book, isBid: bool): Levels {
    if isBid then b.bids else b.asks
  }

  function ApplyAdd(b: Book, id: u64, o: RestingOrder): Outcome {
    if id in b.removed then
      Outcome(b, [], false)
    else if |b.orders| >= MAX_ORDERS_PER_BOOK && id !in b.orders then
      Outcome(b.(orders := map[], bids := map[], asks := map[], synced := false), [], true)
    else
      var b' := OnSide(b, o.isBid, LevelAdd(Side(b, o.isBid), o.price, o.qty));
      Outcome(b'.(orders := b.orders[id := o]), [OrderChange(id, o.isBid, o.price, o.qty)], true)
  }

  function ApplyCancel(b: Book, id: u64): Outcome {
    if id !in b.orders then
      Outcome(b, [], true)
    else
      var o := b.orders[id];
      var b' := OnSide(b, o.isBid, LevelRemove(Side(b, o.isBid), o.price, o.qty));
      Outcome(NoteRemoved(b'.(orders := b.orders - {id}), id), [OrderChange(id, o.isBid, o.price, 0)], true)
  }

  function Min(x: u64, y: u64): u64 {
    if x <= y then x else y
  }

  function ApplyExecute(b: Book, id: u64, execQty: u64, fullFill: bool): Outcome {
    if id !in b.orders then
      Outcome(b, [], true)
    else
      var o := b.orders[id];
      var filled := Min(execQty, o.qty);
      var left := o.qty - filled;
      var b' := OnSide(b, o.isBid, LevelRemove(Side(b, o.isBid), o.price, filled));
      if fullFill || left == 0 then
        Outcome(NoteRemoved(b'.(orders := b.orders - {id}), id), [OrderChange(id, o.isBid, o.price, 0)], true)
      else
        Outcome(b'.(orders := b.orders[id := o.(qty := left)]), [OrderChange(id, o.isBid, o.price, left)], true)
  }

  function Apply(b: Book, kind: DeltaKind): Outcome {
    match kind
    case Add(id, isBid, price, qty) => ApplyAdd(b, id, RestingOrder(isBid, price, qty))
    case Cancel(id) => ApplyCancel(b, id)
    case Execute(id, execQty, fullFill) => ApplyExecute(b, id, execQty, fullFill)
  }

  // ---- deltas ----

  function ApplyOrRecover(b: Book, d: DeltaOp): Outcome {
    if d.seqNo <= b.lastInstrSeq then
      Outcome(b, [], false)
    else if d.seqNo != b.lastInstrSeq + 1 then
      Outcome(b.(synced := false, pending := [d]), [], false)
    else
      Apply(b.(lastInstrSeq := d.seqNo, lastMktSeq := d.mktSeq, lastEventTs := d.ts), d.kind)
  }

  function OnDelta(b: Book, d: DeltaOp): Outcome {
    if b.synced then ApplyOrRecover(b, d)
    else if |b.pending| < MAX_PENDING_DELTAS then Outcome(b.(pending := b.pending + [d]), [], false)
    else Outcome(b, [], false)
  }

  // ---- snapshots ----

  function OnSnapshotBegin(b: Book, snapshotId: u32, anchor: u64, total: u32, last: u32): Book {
    if b.synced && anchor <= b.lastMktSeq then b.(building := None)
    else if total > MAX_ORDERS_PER_BOOK then b.(building := None)
    else b.(building := Some(Building(snapshotId, anchor, total, 0, last, map[], map[], map[])))
  }

  function Assemble(g: Building, id: u64, o: RestingOrder): Building {
    if |g.orders| >= MAX_ORDERS_PER_BOOK then g
    else
      var g' := g.(orders := g.orders[id := o], received := (g.received + 1) % 0x1_0000_0000);
      if o.isBid then g'.(bids := LevelAdd(g.bids, o.price, o.qty))
      else g'.(asks := LevelAdd(g.asks, o.price, o.qty))
  }

  function OnSnapshotOrder(b: Book, snapshotId: u32, id: u64, o: RestingOrder): Book {
    if b.building.Some? && b.building.value.snapshotId == snapshotId then
      b.(building := Some(Assemble(b.building.value, id, o)))
    else b
  }

  /** The snapshot is whole: it ends as it began and as many orders arrived as were promised. */
  predicate Complete(g: Building, anchor: u64, snapshotId: u32) {
    g.snapshotId == snapshotId && g.anchor == anchor && g.received == g.total
  }

  function Install(b: Book, g: Building): Book {
    Book(g.orders, g.bids, g.asks, true, g.lastInstrSeq, g.anchor, None, [], {}, [], b.lastEventTs)
  }

  /** The buffered deltas a snapshot anchored at `anchor` does not already contain. */
  function Past(ds: seq<DeltaOp>, anchor: u64): seq<DeltaOp> {
    if ds == [] then []
    else if ds[0].mktSeq > anchor then [ds[0]] + Past(ds[1..], anchor)
    else Past(ds[1..], anchor)
  }

  /** Insert after every delta whose `mktSeq` is no larger, so equal ones keep their order. */
  function Insert(sorted: seq<DeltaOp>, d: DeltaOp): seq<DeltaOp> {
    if sorted == [] || sorted[|sorted| - 1].mktSeq <= d.mktSeq then sorted + [d]
    else Insert(sorted[..|sorted| - 1], d) + [sorted[|sorted| - 1]]
  }

  /** A stable sort by `mktSeq`. */
  function SortByMktSeq(ds: seq<DeltaOp>): seq<DeltaOp> {
    if ds == [] then [] else Insert(SortByMktSeq(ds[..|ds| - 1]), ds[|ds| - 1])
  }

  /** Apply buffered deltas in turn, stopping at the first that leaves the book recovering. */
  function Replay(b: Book, ds: seq<DeltaOp>): Book
    decreases |ds|
  {
    if ds == [] then b
    else
      var b' := ApplyOrRecover(b, ds[0]).book;
      if b'.synced then Replay(b', ds[1..]) else b'
  }

  /** Whether ending this snapshot now would install it. */
  predicate Installs(b: Book, anchor: u64, snapshotId: u32) {
    b.building.Some? && Complete(b.building.value, anchor, snapshotId)
  }

  function OnSnapshotEnd(b: Book, anchor: u64, snapshotId: u32): Book {
    if b.building.None? then b
    else
      var g := b.building.value;
      if !Complete(g, anchor, snapshotId) then b.(building := None, synced := false)
      else Replay(Install(b, g), SortByMktSeq(Past(b.pending, g.anchor)))
  }

  // ---- resets ----

  function OnInstrumentReset(b: Book, anchor: u64): Book {
    Book(map[], map[], map[], false, b.lastInstrSeq, b.lastMktSeq, None, Past(b.pending, anchor), {}, [], 0)
  }

  // ---- runs ----

  datatype Event =
    | Delta(d: DeltaOp)
    | SnapshotBegin(snapshotId: u32, anchor: u64, total: u32, last: u32)
    | SnapshotOrder(snapshotId: u32, id: u64, order: RestingOrder)
    | SnapshotEnd(anchor: u64, snapshotId: u32)
    | InstrumentReset(anchor: u64)
    | EndOfSession

  function Step(b: Book, e: Event): Book {
    match e
    case Delta(d) => OnDelta(b, d).book
    case SnapshotBegin(snapshotId, anchor, total, last) => OnSnapshotBegin(b, snapshotId, anchor, total, last)
    case SnapshotOrder(snapshotId, id, order) => OnSnapshotOrder(b, snapshotId, id, order)
    case SnapshotEnd(anchor, snapshotId) => OnSnapshotEnd(b, anchor, snapshotId)
    case InstrumentReset(anchor) => OnInstrumentReset(b, anchor)
    case EndOfSession => EMPTY_BOOK
  }

  function Run(b: Book, events: seq<Event>): Book
    decreases |events|
  {
    if events == [] then b else Step(Run(b, events[..|events| - 1]), events[|events| - 1])
  }
}
