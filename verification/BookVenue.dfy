/**
 Safety of the book under arbitrary packet loss. A venue publishes one delta stream after another and
 captures snapshots of its true book; the network drops, duplicates and reorders the deltas, delivers
 strays of other streams, and drops any message. Whenever the receiver's book says it is synced, it is the
 venue's book.
 */
module BookVenue {
  import opened Wrappers
  import opened Collections
  import opened BookModel
  import opened BookGuard

  /** What a snapshot was captured at. */
  datatype Capture = Capture(anchor: u64, last: u32)

  /** One stream: the book before its first delta, its deltas in order, and its snapshots by id. */
  datatype Venue = Venue(base: u32, start: Orders, deltas: seq<DeltaOp>, captures: map<u32, Capture>)

  /** The venue's own account of one order event: no guard, no cap, no index. */
  function TrueApply(orders: Orders, kind: DeltaKind): Orders {
    match kind
    case Add(id, isBid, price, qty) => orders[id := RestingOrder(isBid, price, qty)]
    case Cancel(id) => orders - {id}
    case Execute(id, execQty, fullFill) =>
      if id !in orders then orders
      else if fullFill || orders[id].qty <= execQty then orders - {id}
      else orders[id := orders[id].(qty := orders[id].qty - execQty)]
  }

  function TrueBook(v: Venue, n: nat): Orders
    requires n <= |v.deltas|
  {
    if n == 0 then v.start else TrueApply(TrueBook(v, n - 1), v.deltas[n - 1].kind)
  }

  /** The ids the venue's deltas from the `from`-th up to the `n`-th took away, in order. */
  function TakingsFrom(v: Venue, from: nat, n: nat): seq<u64>
    requires n <= |v.deltas|
    decreases n
  {
    if n <= from then []
    else
      var kind := v.deltas[n - 1].kind;
      TakingsFrom(v, from, n - 1) + if TakesAway(TrueBook(v, n - 1), kind) then [kind.id] else []
  }

  function Takings(v: Venue, n: nat): seq<u64>
    requires n <= |v.deltas|
  {
    TakingsFrom(v, 0, n)
  }

  predicate InRange(v: Venue, seqNo: u32) {
    v.base <= seqNo <= v.base + |v.deltas|
  }

  /** The venue's true book after the delta numbered `seqNo`. */
  function After(v: Venue, seqNo: u32): Orders
    requires InRange(v, seqNo)
  {
    TrueBook(v, seqNo - v.base)
  }

  /** The delta at `i`, if it adds an order, names none of the last 65,536 ids taken away before it. */
  predicate FreshAt(v: Venue, i: nat)
    requires i < |v.deltas|
  {
    v.deltas[i].kind.Add? ==> v.deltas[i].kind.id !in Remembered(Takings(v, i))
  }

  ghost predicate Fresh(v: Venue) {
    forall i :: 0 <= i < |v.deltas| ==> FreshAt(v, i)
  }

  /** Sequence numbers are consecutive, and snapshots are of this stream. */
  ghost predicate WellFormed(v: Venue) {
    && v.base + |v.deltas| < 0x1_0000_0000
    && (forall i :: 0 <= i < |v.deltas| ==> v.deltas[i].seqNo == v.base + i + 1)
    && (forall sid :: sid in v.captures ==> InRange(v, v.captures[sid].last))
  }

  ghost predicate Valid(v: Venue) {
    WellFormed(v) && Fresh(v)
  }

  predicate Published(v: Venue, d: DeltaOp) {
    v.base < d.seqNo <= v.base + |v.deltas| && v.deltas[d.seqNo - v.base - 1] == d
  }

  predicate AllPublished(v: Venue, ds: seq<DeltaOp>) {
    forall d :: d in ds ==> Published(v, d)
  }

  /** If the delta is the next after some book of the stream, it does to that book what the stream does
      there. It may be the stream's own, or a stray of another stream. */
  predicate Agreeing(v: Venue, d: DeltaOp) {
    var n := d.seqNo - v.base - 1;
    0 <= n <= |v.deltas| ==> n < |v.deltas| && TrueApply(TrueBook(v, n), d.kind) == TrueBook(v, n + 1)
  }

  ghost predicate AllAgree(v: Venue, ds: seq<DeltaOp>) {
    forall d :: d in ds ==> Agreeing(v, d)
  }

  lemma PublishedAgrees(v: Venue, d: DeltaOp)
    requires Published(v, d)
    ensures Agreeing(v, d)
  {}

  // ---- what the network may deliver ----

  /** One delivery, and the stream in force once it has been handled. */
  datatype Delivery = Delivery(event: Event, venue: Venue)

  /** Everything but the two resets continues the stream. Its own deltas may come at any time, and so may
      strays that agree with it; what is assembled of a snapshot describes one of its books. A snapshot order
      may come again, unless the snapshot is then installed; its end may be forged. */
  ghost predicate Legal(v: Venue, b: Book, d: Delivery) {
    match d.event
    case Delta(x) => d.venue == v && Agreeing(v, x)
    case SnapshotBegin(_, _, total, last) => d.venue == v && InRange(v, last) && total == |After(v, last)|
    case SnapshotOrder(sid, id, o) =>
      && d.venue == v
      && (b.building.Some? && b.building.value.snapshotId == sid ==> IsTrueOrder(v, b.building.value, id, o))
    case SnapshotEnd(anchor, sid) =>
      d.venue == v && (Installs(b, anchor, sid) ==> NoneRepeated(b.building.value))
    case InstrumentReset(anchor) => Valid(d.venue) && AllAgree(d.venue, Past(b.pending, anchor))
    case EndOfSession => Valid(d.venue)
  }

  ghost predicate IsTrueOrder(v: Venue, g: Building, id: u64, o: RestingOrder) {
    InRange(v, g.lastInstrSeq) && id in After(v, g.lastInstrSeq) && o == After(v, g.lastInstrSeq)[id]
  }

  /** As many orders were counted as were assembled. */
  predicate NoneRepeated(g: Building) {
    g.received == |g.orders|
  }

  function Events(ds: seq<Delivery>): seq<Event> {
    seq(|ds|, i requires 0 <= i < |ds| => ds[i].event)
  }

  /** The stream in force after the deliveries. */
  function Current(v: Venue, ds: seq<Delivery>): Venue {
    if ds == [] then v else ds[|ds| - 1].venue
  }

  /** The receiver, started empty. */
  function Receive(ds: seq<Delivery>): Book {
    Run(EMPTY_BOOK, Events(ds))
  }

  ghost predicate LegalRun(v: Venue, ds: seq<Delivery>) {
    ds == [] ||
    var before := ds[..|ds| - 1];
    LegalRun(v, before) && Legal(Current(v, before), Receive(before), ds[|ds| - 1])
  }

  lemma ReceiveLast(ds: seq<Delivery>)
    requires ds != []
    ensures Receive(ds) == Step(Receive(ds[..|ds| - 1]), ds[|ds| - 1].event)
  {
    assert Events(ds)[..|ds| - 1] == Events(ds[..|ds| - 1]);
  }

  // ---- the invariant ----

  /** An assembly whose orders are all true ones, repeats allowed. */
  ghost predicate TrueOrders(v: Venue, g: Building) {
    InRange(v, g.lastInstrSeq) &&
    var truth := After(v, g.lastInstrSeq);
    && g.total == |truth|
    && Within(g.orders, truth)
  }

  ghost predicate Assembling(v: Venue, g: Building) {
    TrueOrders(v, g) && g.total <= MAX_ORDERS_PER_BOOK
  }

  ghost predicate Synced(v: Venue, b: Book) {
    b.synced ==>
      && InRange(v, b.lastInstrSeq)
      && b.orders == After(v, b.lastInstrSeq)
      && IsSuffix(b.removedOrder, Takings(v, b.lastInstrSeq - v.base))
  }

  ghost predicate Tracks(v: Venue, b: Book) {
    && AllAgree(v, b.pending)
    && (b.building.Some? ==> Assembling(v, b.building.value))
    && Synced(v, b)
  }

  ghost predicate Faithful(v: Venue, b: Book) {
    Guarded(b) && Tracks(v, b)
  }

  // ---- the guard of a synced book is the recent past of the stream ----

  ghost predicate IsSuffix(a: seq<u64>, t: seq<u64>) {
    |a| <= |t| && a == t[|t| - |a|..]
  }

  lemma SuffixGrows(a: seq<u64>, t: seq<u64>, id: u64)
    requires IsSuffix(a, t)
    ensures IsSuffix(Remembered(a + [id]), t + [id])
  {
    var queue, all := a + [id], t + [id];
    assert queue == all[|all| - |queue|..];
    assert Remembered(queue) == all[|all| - |Remembered(queue)|..];
  }

  lemma GuardIsRecent(a: seq<u64>, t: seq<u64>, id: u64)
    requires IsSuffix(a, t) && |a| <= MAX_REMOVED_ORDERS && id in a
    ensures id in Remembered(t)
  {
    var i :| 0 <= i < |a| && a[i] == id;
    var r := Remembered(t);
    assert r[|r| - |a| + i] == id;
  }

  // ---- deltas ----

  /** An order event leaves the sequence, the assembly and the buffer alone. */
  lemma ApplyFrame(b: Book, kind: DeltaKind)
    ensures var b' := Apply(b, kind).book;
            && b'.lastInstrSeq == b.lastInstrSeq && b'.building == b.building && b'.pending == b.pending
            && (b'.synced ==> b.synced)
  {
    hide LevelAdd, LevelRemove, Remembered, Forgotten;
    match kind
    case Add(id, isBid, price, qty) =>
    case Cancel(id) =>
    case Execute(id, execQty, fullFill) =>
  }

  lemma AddIsTrue(b: Book, id: u64, o: RestingOrder)
    requires id !in b.removed
    ensures var b' := ApplyAdd(b, id, o).book; b'.synced ==> b'.orders == b.orders[id := o]
  {}

  lemma AddStaysSynced(b: Book, id: u64, o: RestingOrder)
    requires |b.orders[id := o]| <= MAX_ORDERS_PER_BOOK
    ensures ApplyAdd(b, id, o).book.synced == b.synced
  {
    if id !in b.orders {
      assert b.orders[id := o].Keys == b.orders.Keys + {id};
      assert |b.orders[id := o]| == |b.orders| + 1;
    }
  }

  lemma CancelIsTrue(b: Book, id: u64)
    ensures var b' := ApplyCancel(b, id).book; b'.orders == TrueApply(b.orders, Cancel(id)) && b'.synced == b.synced
  {
    assert id !in b.orders ==> b.orders - {id} == b.orders;
  }

  lemma ExecuteIsTrue(b: Book, id: u64, execQty: u64, fullFill: bool)
    ensures var b' := ApplyExecute(b, id, execQty, fullFill).book;
            b'.orders == TrueApply(b.orders, Execute(id, execQty, fullFill)) && b'.synced == b.synced
  {}

  /** A synced receiver does to its orders what the venue did, or hits the cap and unsyncs, exactly when
      the event does not add an id its guard still knows. */
  lemma ApplyIsTrueIff(b: Book, kind: DeltaKind)
    requires b.synced && Guarded(b)
    ensures (Apply(b, kind).book.synced ==> Apply(b, kind).book.orders == TrueApply(b.orders, kind))
            <==> !(kind.Add? && kind.id in b.removed)
    ensures |TrueApply(b.orders, kind)| <= MAX_ORDERS_PER_BOOK ==> Apply(b, kind).book.synced
  {
    match kind
    case Add(id, isBid, price, qty) =>
      var o := RestingOrder(isBid, price, qty);
      if id in b.removed {
        assert id !in b.orders && id in b.orders[id := o];
      } else {
        AddIsTrue(b, id, o);
      }
      if |TrueApply(b.orders, kind)| <= MAX_ORDERS_PER_BOOK {
        AddStaysSynced(b, id, o);
      }
    case Cancel(id) => CancelIsTrue(b, id);
    case Execute(id, execQty, fullFill) => ExecuteIsTrue(b, id, execQty, fullFill);
  }

  /** An event brings to rest no id but the one it adds. */
  lemma OnlyAddsRest(orders: Orders, kind: DeltaKind, id: u64)
    requires id in TrueApply(orders, kind) && id !in orders
    ensures kind.Add? && kind.id == id
  {}

  lemma TakingIsTrue(orders: Orders, kind: DeltaKind)
    ensures if TakesAway(orders, kind) then kind.id in orders && TrueApply(orders, kind) == orders - {kind.id}
            else orders.Keys <= TrueApply(orders, kind).Keys
  {}

  /** Events that leave the same book took the same order away. */
  lemma SameTaking(orders: Orders, x: DeltaKind, y: DeltaKind)
    requires TrueApply(orders, x) == TrueApply(orders, y)
    ensures TakesAway(orders, x) <==> TakesAway(orders, y)
    ensures TakesAway(orders, x) ==> x.id == y.id
  {
    hide TrueApply, TakesAway;
    TakingIsTrue(orders, x);
    TakingIsTrue(orders, y);
    if TakesAway(orders, x) {
      assert x.id !in orders - {x.id};
    }
    if TakesAway(orders, y) {
      assert y.id !in orders - {y.id};
    }
  }

  /** The add of an agreeing delta is none the guard of a synced book knows. */
  lemma AgreeingIsUnguarded(v: Venue, b: Book, n: nat, kind: DeltaKind)
    requires Guarded(b) && n < |v.deltas| && FreshAt(v, n) && IsSuffix(b.removedOrder, Takings(v, n))
    requires b.orders == TrueBook(v, n) && TrueApply(TrueBook(v, n), kind) == TrueBook(v, n + 1)
    ensures !(kind.Add? && kind.id in b.removed)
  {
    hide Guarded, IsSuffix, Remembered, Takings;
    if kind.Add? && kind.id in b.removed {
      GuardKnows(b, kind.id);
      GuardIsRecent(b.removedOrder, Takings(v, n), kind.id);
      OnlyAddsRest(b.orders, v.deltas[n].kind, kind.id);
    }
  }

  /** The guard follows the stream's takings. */
  lemma GuardFollows(v: Venue, b: Book, n: nat, kind: DeltaKind)
    requires Guarded(b) && n < |v.deltas| && b.orders == TrueBook(v, n)
    requires TrueApply(TrueBook(v, n), kind) == TrueBook(v, n + 1)
    requires IsSuffix(b.removedOrder, Takings(v, n))
    ensures IsSuffix(Apply(b, kind).book.removedOrder, Takings(v, n + 1))
  {
    hide Guarded, IsSuffix, Remembered, TakesAway, Apply;
    ApplyRemembers(b, kind);
    SameTaking(b.orders, kind, v.deltas[n].kind);
    SuffixGrows(b.removedOrder, Takings(v, n), kind.id);
    assert Takings(v, n) + [] == Takings(v, n);
  }

  /** The next delta of the stream, or a stray that agrees with it, turns the true book into the true book,
      or unsyncs. */
  lemma NextDeltaIsTrue(v: Venue, b: Book, d: DeltaOp)
    requires Guarded(b) && Agreeing(v, d) && b.synced && Synced(v, b)
    requires d.seqNo == b.lastInstrSeq + 1
    requires b.lastInstrSeq < v.base + |v.deltas| ==> FreshAt(v, b.lastInstrSeq - v.base)
    ensures Synced(v, ApplyOrRecover(b, d).book) && InRange(v, d.seqNo)
    ensures |After(v, d.seqNo)| <= MAX_ORDERS_PER_BOOK ==> ApplyOrRecover(b, d).book.synced
    ensures ApplyOrRecover(b, d).book.lastInstrSeq == d.seqNo
  {
    hide Apply, TrueApply, TakesAway, Guarded, IsSuffix, Takings, Remembered;
    var n := b.lastInstrSeq - v.base;
    var at := b.(lastInstrSeq := d.seqNo, lastMktSeq := d.mktSeq, lastEventTs := d.ts);
    assert n < |v.deltas| && FreshAt(v, n);
    SameGuard(b, at);
    ApplyFrame(at, d.kind);
    GuardFollows(v, at, n, d.kind);
    AgreeingIsUnguarded(v, at, n, d.kind);
    ApplyIsTrueIff(at, d.kind);
    assert After(v, d.seqNo) == TrueBook(v, n + 1) == TrueApply(b.orders, d.kind);
  }

  lemma GuardKnows(b: Book, id: u64)
    requires Guarded(b) && id in b.removed
    ensures id in b.removedOrder && |b.removedOrder| <= MAX_REMOVED_ORDERS && id !in b.orders
  {}

  lemma DeltaKeepsFaithful(v: Venue, b: Book, d: DeltaOp)
    requires Valid(v) && Faithful(v, b) && Agreeing(v, d)
    ensures Faithful(v, OnDelta(b, d).book)
  {
    hide Apply, Guarded, Agreeing, FreshAt;
    StepGuards(b, Delta(d));
    if b.synced && d.seqNo == b.lastInstrSeq + 1 {
      NextDeltaIsTrue(v, b, d);
      ApplyFrame(b.(lastInstrSeq := d.seqNo, lastMktSeq := d.mktSeq, lastEventTs := d.ts), d.kind);
    }
  }

  // ---- snapshots ----

  lemma {:induction false} PastIsWithin(ds: seq<DeltaOp>, anchor: u64)
    ensures forall d :: d in Past(ds, anchor) <==> d in ds && d.mktSeq > anchor
  {
    if ds != [] {
      PastIsWithin(ds[1..], anchor);
      assert ds == [ds[0]] + ds[1..];
    }
  }

  lemma {:induction false} InsertIsWithin(sorted: seq<DeltaOp>, d: DeltaOp)
    ensures forall x :: x in Insert(sorted, d) <==> x == d || x in sorted
  {
    if !(sorted == [] || sorted[|sorted| - 1].mktSeq <= d.mktSeq) {
      InsertIsWithin(sorted[..|sorted| - 1], d);
      assert sorted == sorted[..|sorted| - 1] + [sorted[|sorted| - 1]];
    }
  }

  lemma {:induction false} SortIsWithin(ds: seq<DeltaOp>)
    ensures forall d :: d in SortByMktSeq(ds) <==> d in ds
  {
    if ds != [] {
      SortIsWithin(ds[..|ds| - 1]);
      InsertIsWithin(SortByMktSeq(ds[..|ds| - 1]), ds[|ds| - 1]);
      assert ds == ds[..|ds| - 1] + [ds[|ds| - 1]];
    }
  }

  /** Replaying buffered deltas, in whatever order, keeps a synced book true. */
  lemma {:induction false} ReplayKeepsFaithful(v: Venue, b: Book, ds: seq<DeltaOp>)
    requires Valid(v) && Faithful(v, b) && AllAgree(v, ds) && b.synced
    ensures Faithful(v, Replay(b, ds))
    decreases |ds|
  {
    if ds != [] {
      hide ApplyOrRecover, Guarded, Tracks, Agreeing;
      assert ds[0] in ds;
      DeltaKeepsFaithful(v, b, ds[0]);
      var b' := ApplyOrRecover(b, ds[0]).book;
      if b'.synced {
        ReplayKeepsFaithful(v, b', ds[1..]);
      }
    }
  }

  /** A complete assembly with no repeat is the whole true book. */
  lemma CompleteIsTrue(v: Venue, g: Building)
    requires TrueOrders(v, g) && g.received == g.total && NoneRepeated(g)
    ensures g.orders == After(v, g.lastInstrSeq)
  {
    SubmapOfSameSize(g.orders, After(v, g.lastInstrSeq));
  }

  lemma InstallIsFaithful(v: Venue, b: Book, g: Building)
    requires Faithful(v, b) && b.building == Some(g) && g.received == g.total && NoneRepeated(g)
    ensures Faithful(v, Install(b, g))
  {
    CompleteIsTrue(v, g);
  }

  lemma EndKeepsFaithful(v: Venue, b: Book, anchor: u64, sid: u32)
    requires Valid(v) && Faithful(v, b)
    requires Installs(b, anchor, sid) ==> NoneRepeated(b.building.value)
    ensures Faithful(v, OnSnapshotEnd(b, anchor, sid))
  {
    if Installs(b, anchor, sid) {
      var g := b.building.value;
      InstallIsFaithful(v, b, g);
      PastIsWithin(b.pending, g.anchor);
      SortIsWithin(Past(b.pending, g.anchor));
      ReplayKeepsFaithful(v, Install(b, g), SortByMktSeq(Past(b.pending, g.anchor)));
    }
  }

  lemma AssembleFrame(g: Building, id: u64, o: RestingOrder)
    requires |g.orders| < MAX_ORDERS_PER_BOOK
    ensures var g' := Assemble(g, id, o);
            && g'.snapshotId == g.snapshotId && g'.anchor == g.anchor
            && g'.lastInstrSeq == g.lastInstrSeq && g'.total == g.total
            && g'.orders == g.orders[id := o] && g'.received == (g.received + 1) % 0x1_0000_0000
  {}

  lemma AssembleKeepsTrue(v: Venue, g: Building, id: u64, o: RestingOrder)
    requires Assembling(v, g) && IsTrueOrder(v, g, id, o)
    ensures Assembling(v, Assemble(g, id, o))
  {
    hide Assemble, TrueBook;
    if |g.orders| >= MAX_ORDERS_PER_BOOK {
      FullAssembly(g, id, o);
    } else {
      AssembleFrame(g, id, o);
    }
  }

  lemma FullAssembly(g: Building, id: u64, o: RestingOrder)
    requires |g.orders| >= MAX_ORDERS_PER_BOOK
    ensures Assemble(g, id, o) == g
  {}

  /** Replacing the assembly by a true one, or dropping it, keeps the rest of the invariant. */
  lemma NewAssembly(v: Venue, b: Book, g: Option<Building>)
    requires Tracks(v, b) && (g.Some? ==> Assembling(v, g.value))
    ensures Tracks(v, b.(building := g))
  {
    hide Assembling, AllAgree, After, Takings, InRange;
  }

  lemma SnapshotOrderKeepsTracks(v: Venue, b: Book, sid: u32, id: u64, o: RestingOrder)
    requires Tracks(v, b)
    requires b.building.Some? && b.building.value.snapshotId == sid ==> IsTrueOrder(v, b.building.value, id, o)
    ensures Tracks(v, OnSnapshotOrder(b, sid, id, o))
  {
    hide Assembling, Assemble;
    if b.building.Some? && b.building.value.snapshotId == sid {
      AssembleKeepsTrue(v, b.building.value, id, o);
      NewAssembly(v, b, Some(Assemble(b.building.value, id, o)));
    }
  }

  lemma SnapshotBeginKeepsTracks(v: Venue, b: Book, sid: u32, anchor: u64, total: u32, last: u32)
    requires Tracks(v, b)
    requires InRange(v, last) && total == |After(v, last)|
    ensures Tracks(v, OnSnapshotBegin(b, sid, anchor, total, last))
  {
    hide TrueBook;
    var next := OnSnapshotBegin(b, sid, anchor, total, last).building;
    assert next.Some? ==> Assembling(v, next.value);
    NewAssembly(v, b, next);
  }

  // ---- runs ----

  lemma StepKeepsFaithful(v: Venue, b: Book, d: Delivery)
    requires Valid(v) && Faithful(v, b) && Legal(v, b, d)
    ensures Valid(d.venue) && Faithful(d.venue, Step(b, d.event))
  {
    hide Guarded;
    StepGuards(b, d.event);
    match d.event
    case Delta(x) => DeltaKeepsFaithful(v, b, x);
    case SnapshotBegin(sid, anchor, total, last) => SnapshotBeginKeepsTracks(v, b, sid, anchor, total, last);
    case SnapshotOrder(sid, id, o) => SnapshotOrderKeepsTracks(v, b, sid, id, o);
    case SnapshotEnd(anchor, sid) => EndKeepsFaithful(v, b, anchor, sid);
    case InstrumentReset(_) =>
    case EndOfSession =>
  }

  lemma {:induction false} RunIsFaithful(v: Venue, ds: seq<Delivery>)
    requires Valid(v) && LegalRun(v, ds)
    ensures Valid(Current(v, ds)) && Faithful(Current(v, ds), Receive(ds))
    decreases |ds|
  {
    if ds != [] {
      var before := ds[..|ds| - 1];
      RunIsFaithful(v, before);
      StepKeepsFaithful(Current(v, before), Receive(before), ds[|ds| - 1]);
      ReceiveLast(ds);
    }
  }

  /** If the receiver says it is synced, it holds the stream's true book. */
  ghost predicate Truthful(now: Venue, b: Book) {
    b.synced ==> InRange(now, b.lastInstrSeq) && b.orders == After(now, b.lastInstrSeq)
  }

  /** Whenever the receiver says it is synced, its orders are the venue's true book after the delta it
      last applied: over every run of drops, duplicates, reorderings and agreeing strays, through gaps,
      buffering, sorted replay, re-snapshots and resets. */
  lemma LossyRunSafety(v: Venue, ds: seq<Delivery>)
    requires Valid(v) && LegalRun(v, ds)
    ensures Truthful(Current(v, ds), Receive(ds))
  {
    RunIsFaithful(v, ds);
  }

  // ---- the one duplicate that matters ----

  /** A repeated snapshot order counts towards the promised total. A snapshot that ends complete is the
      true book exactly when its count equals the number of distinct orders. */
  lemma InstalledSnapshotIsTrueIffNoRepeat(v: Venue, b: Book, anchor: u64, sid: u32)
    requires Installs(b, anchor, sid) && TrueOrders(v, b.building.value)
    ensures var g := b.building.value;
            Install(b, g).orders == After(v, g.lastInstrSeq) <==> g.received == |g.orders|
  {
    var g := b.building.value;
    if g.received == |g.orders| {
      SubmapOfSameSize(g.orders, After(v, g.lastInstrSeq));
    }
  }

  /** A stream whose book holds two orders, and the deliveries that install only one of them. */
  const TWO_ORDERS: Orders := map[7 := RestingOrder(true, 100, 1), 8 := RestingOrder(true, 101, 1)]

  lemma RepeatedOrderInstallsAWrongBook()
    ensures var v := Venue(0, TWO_ORDERS, [], map[1 := Capture(5, 0)]);
            var o := TWO_ORDERS[7];
            var b := Step(Step(Step(Step(EMPTY_BOOK, SnapshotBegin(1, 5, 2, 0)), SnapshotOrder(1, 7, o)), SnapshotOrder(1, 7, o)), SnapshotEnd(5, 1));
            Valid(v) && b.synced && InRange(v, b.lastInstrSeq) && b.orders != After(v, b.lastInstrSeq)
  {
    hide Assemble, LevelAdd;
    var o := TWO_ORDERS[7];
    var b1 := Step(EMPTY_BOOK, SnapshotBegin(1, 5, 2, 0));
    var g := b1.building.value;
    AssembleFrame(g, 7, o);
    AssembleFrame(Assemble(g, 7, o), 7, o);
    var g' := Assemble(Assemble(g, 7, o), 7, o);
    var b3 := Step(Step(b1, SnapshotOrder(1, 7, o)), SnapshotOrder(1, 7, o));
    assert b3.building == Some(g') && b3.pending == [];
    assert Step(b3, SnapshotEnd(5, 1)) == Install(b3, g');
    assert 8 in TWO_ORDERS && 8 !in g'.orders;
  }
}
