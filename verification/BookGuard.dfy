/**
 The bounded resurrection guard, for arbitrary (even forged) streams: what it always knows, and how
 long a removed order stays gone.
 */
module BookGuard {
  import opened Wrappers
  import opened Collections
  import opened BookModel

  ghost predicate Distinct(s: seq<u64>) {
    forall i, j :: 0 <= i < j < |s| ==> s[i] != s[j]
  }

  /** The queue lists the removed set once each, nothing removed is resting, and every cap holds. */
  ghost predicate Guarded(b: Book) {
    && Distinct(b.removedOrder)
    && (forall id :: id in b.removed <==> id in b.removedOrder)
    && |b.removedOrder| <= MAX_REMOVED_ORDERS
    && (forall id :: id in b.removed ==> id !in b.orders)
    && |b.orders| <= MAX_ORDERS_PER_BOOK
    && |b.pending| <= MAX_PENDING_DELTAS
    && (b.building.Some? ==> |b.building.value.orders| <= MAX_ORDERS_PER_BOOK)
  }

  /** The id was removed no more than `later` removals ago. */
  ghost predicate GoneFor(b: Book, id: u64, later: nat) {
    exists i :: 0 <= i < |b.removedOrder| && b.removedOrder[i] == id && |b.removedOrder| - 1 - i <= later
  }

  // ---- one removal ----

  lemma NoteRemovedGuards(b: Book, id: u64)
    requires Guarded(b) && id !in b.removed && id !in b.orders
    ensures Guarded(NoteRemoved(b, id))
    ensures GoneFor(NoteRemoved(b, id), id, 0)
  {
    var b' := NoteRemoved(b, id);
    var queue := b.removedOrder + [id];
    assert Distinct(queue);
    if |queue| > MAX_REMOVED_ORDERS {
      assert b'.removedOrder == queue[1..] && Forgotten(queue) == [queue[0]];
      assert forall x :: x in queue <==> x == queue[0] || x in queue[1..];
    } else {
      assert Forgotten(queue) == [];
    }
    assert b'.removedOrder[|b'.removedOrder| - 1] == id;
  }

  lemma NoteRemovedAges(b: Book, id: u64, gone: u64, later: nat)
    requires Guarded(b) && id !in b.removed && GoneFor(b, gone, later) && later + 1 < MAX_REMOVED_ORDERS
    ensures GoneFor(NoteRemoved(b, id), gone, later + 1)
  {
    var b' := NoteRemoved(b, id);
    var queue := b.removedOrder + [id];
    var i :| 0 <= i < |b.removedOrder| && b.removedOrder[i] == gone && |b.removedOrder| - 1 - i <= later;
    var shift := |queue| - |b'.removedOrder|;
    assert b'.removedOrder[i - shift] == queue[i];
  }

  // ---- one order event ----

  /** The event takes a resting order away. */
  predicate TakesAway(orders: Orders, kind: DeltaKind) {
    match kind
    case Add(_, _, _, _) => false
    case Cancel(id) => id in orders
    case Execute(id, execQty, fullFill) => id in orders && (fullFill || orders[id].qty <= execQty)
  }

  /** The book an event that takes an order away hands to the guard. */
  lemma TakingAway(b: Book, kind: DeltaKind) returns (rest: Book)
    requires TakesAway(b.orders, kind)
    ensures Apply(b, kind).book == NoteRemoved(rest, kind.id)
    ensures rest.orders == b.orders - {kind.id}
    ensures rest.(orders := b.orders, bids := b.bids, asks := b.asks) == b
  {
    var o := b.orders[kind.id];
    var taken := if kind.Cancel? then o.qty else Min(kind.execQty, o.qty);
    rest := OnSide(b, o.isBid, LevelRemove(Side(b, o.isBid), o.price, taken)).(orders := b.orders - {kind.id});
  }

  /** The guard is as it was, the order cap is kept and no id the guard knows comes to rest. */
  ghost predicate LeavesGuard(b: Book, b': Book) {
    && b'.removed == b.removed && b'.removedOrder == b.removedOrder
    && b'.pending == b.pending && b'.building == b.building
    && (forall id :: id in b'.orders && id !in b.orders ==> id !in b.removed)
    && (|b.orders| <= MAX_ORDERS_PER_BOOK ==> |b'.orders| <= MAX_ORDERS_PER_BOOK)
  }

  lemma PutLeavesGuard(b: Book, isBid: bool, levels: Levels, id: u64, o: RestingOrder)
    requires id !in b.removed || id in b.orders
    requires |b.orders| < MAX_ORDERS_PER_BOOK || id in b.orders
    ensures LeavesGuard(b, OnSide(b, isBid, levels).(orders := b.orders[id := o]))
  {
    PutGrows(b.orders, id, o);
  }

  /** Any event that takes no order away leaves the guard alone and adds no id the guard knows. */
  lemma NotTakingAway(b: Book, kind: DeltaKind)
    requires !TakesAway(b.orders, kind)
    ensures LeavesGuard(b, Apply(b, kind).book)
  {
    hide LevelAdd, LevelRemove, NoteRemoved, OnSide, LeavesGuard;
    SameLeavesGuard(b);
    match kind
    case Add(id, isBid, price, qty) => AddLeavesGuard(b, id, RestingOrder(isBid, price, qty));
    case Cancel(_) =>
    case Execute(id, execQty, _) =>
      if id in b.orders {
        var o := b.orders[id];
        PutLeavesGuard(b, o.isBid, LevelRemove(Side(b, o.isBid), o.price, Min(execQty, o.qty)), id,
                       o.(qty := o.qty - Min(execQty, o.qty)));
      }
  }

  lemma SameLeavesGuard(b: Book)
    ensures LeavesGuard(b, b)
  {}

  lemma AddLeavesGuard(b: Book, id: u64, o: RestingOrder)
    ensures LeavesGuard(b, ApplyAdd(b, id, o).book)
  {
    hide LevelAdd, OnSide;
    if id !in b.removed && (|b.orders| < MAX_ORDERS_PER_BOOK || id in b.orders) {
      PutLeavesGuard(b, o.isBid, LevelAdd(Side(b, o.isBid), o.price, o.qty), id, o);
    }
  }

  lemma PutGrows(orders: Orders, id: u64, o: RestingOrder)
    ensures orders[id := o].Keys == orders.Keys + {id}
    ensures |orders[id := o]| == |orders| + if id in orders then 0 else 1
  {
    assert id in orders ==> orders.Keys + {id} == orders.Keys;
  }

  lemma ApplyGuards(b: Book, kind: DeltaKind)
    requires Guarded(b)
    ensures Guarded(Apply(b, kind).book)
    ensures TakesAway(b.orders, kind) ==> GoneFor(Apply(b, kind).book, kind.id, 0)
  {
    hide Apply, NoteRemoved, GoneFor;
    if TakesAway(b.orders, kind) {
      var rest := TakingAway(b, kind);
      SmallerWithout(b.orders, kind.id);
      NoteRemovedGuards(rest, kind.id);
    } else {
      NotTakingAway(b, kind);
    }
  }

  /** The queue after an order event: an order taken away joins it last, and nothing else changes it. */
  lemma ApplyRemembers(b: Book, kind: DeltaKind)
    requires Guarded(b)
    ensures Apply(b, kind).book.removedOrder
            == if TakesAway(b.orders, kind) then Remembered(b.removedOrder + [kind.id]) else b.removedOrder
  {
    hide Apply;
    if TakesAway(b.orders, kind) {
      var rest := TakingAway(b, kind);
    } else {
      NotTakingAway(b, kind);
    }
  }

  lemma ApplyAges(b: Book, kind: DeltaKind, gone: u64, later: nat)
    requires Guarded(b) && GoneFor(b, gone, later)
    requires TakesAway(b.orders, kind) ==> later + 1 < MAX_REMOVED_ORDERS
    ensures GoneFor(Apply(b, kind).book, gone, later + if TakesAway(b.orders, kind) then 1 else 0)
  {
    hide Apply, NoteRemoved;
    if TakesAway(b.orders, kind) {
      var rest := TakingAway(b, kind);
      SmallerWithout(b.orders, kind.id);
      NoteRemovedAges(rest, kind.id, gone, later);
    } else {
      NotTakingAway(b, kind);
    }
  }

  // ---- every event ----

  lemma ApplyOrRecoverGuards(b: Book, d: DeltaOp)
    requires Guarded(b)
    ensures Guarded(ApplyOrRecover(b, d).book)
  {
    hide Apply;
    ApplyGuards(b.(lastInstrSeq := d.seqNo, lastMktSeq := d.mktSeq, lastEventTs := d.ts), d.kind);
  }

  lemma {:induction false} ReplayGuards(b: Book, ds: seq<DeltaOp>)
    requires Guarded(b)
    ensures Guarded(Replay(b, ds))
    decreases |ds|
  {
    hide ApplyOrRecover, Guarded;
    if ds != [] {
      ApplyOrRecoverGuards(b, ds[0]);
      var b' := ApplyOrRecover(b, ds[0]).book;
      if b'.synced {
        ReplayGuards(b', ds[1..]);
      }
    }
  }

  lemma {:induction false} PastIsShorter(ds: seq<DeltaOp>, anchor: u64)
    ensures |Past(ds, anchor)| <= |ds|
  {
    if ds != [] {
      PastIsShorter(ds[1..], anchor);
    }
  }

  lemma AssembleIsBounded(g: Building, id: u64, o: RestingOrder)
    requires |g.orders| <= MAX_ORDERS_PER_BOOK
    ensures |Assemble(g, id, o).orders| <= MAX_ORDERS_PER_BOOK
  {
    hide LevelAdd;
    assert g.orders[id := o].Keys == g.orders.Keys + {id};
  }

  lemma EndGuards(b: Book, anchor: u64, sid: u32)
    requires Guarded(b)
    ensures Guarded(OnSnapshotEnd(b, anchor, sid))
  {
    if Installs(b, anchor, sid) {
      var g := b.building.value;
      ReplayGuards(Install(b, g), SortByMktSeq(Past(b.pending, g.anchor)));
    }
  }

  lemma StepGuards(b: Book, e: Event)
    requires Guarded(b)
    ensures Guarded(Step(b, e))
  {
    match e
    case Delta(d) => ApplyOrRecoverGuards(b, d);
    case SnapshotBegin(_, _, _, _) =>
    case SnapshotOrder(_, id, o) =>
      if b.building.Some? {
        AssembleIsBounded(b.building.value, id, o);
      }
    case SnapshotEnd(anchor, sid) => EndGuards(b, anchor, sid);
    case InstrumentReset(anchor) => PastIsShorter(b.pending, anchor);
    case EndOfSession =>
  }

  /** For every run of arbitrary events: nothing removed is resting, the queue lists the removed set
      without repeats, and no collection outgrows its cap. */
  lemma {:induction false} EveryRunIsGuarded(events: seq<Event>)
    ensures Guarded(Run(EMPTY_BOOK, events))
    decreases |events|
  {
    if events != [] {
      EveryRunIsGuarded(events[..|events| - 1]);
      StepGuards(Run(EMPTY_BOOK, events[..|events| - 1]), events[|events| - 1]);
    }
  }

  // ---- how long a removed order stays gone ----

  /** The event opens a fresh id space. */
  predicate Forgets(b: Book, e: Event) {
    match e
    case SnapshotEnd(anchor, sid) => Installs(b, anchor, sid)
    case InstrumentReset(_) => true
    case EndOfSession => true
    case _ => false
  }

  /** The event is the next delta of a synced book and takes a resting order away. */
  predicate Removes(b: Book, e: Event) {
    e.Delta? && b.synced && e.d.seqNo == b.lastInstrSeq + 1 && TakesAway(b.orders, e.d.kind)
  }

  predicate EverForgets(b: Book, events: seq<Event>)
    decreases |events|
  {
    events != [] &&
    (EverForgets(b, events[..|events| - 1]) || Forgets(Run(b, events[..|events| - 1]), events[|events| - 1]))
  }

  function Removals(b: Book, events: seq<Event>): nat
    decreases |events|
  {
    if events == [] then 0
    else
      var before := events[..|events| - 1];
      Removals(b, before) + if Removes(Run(b, before), events[|events| - 1]) then 1 else 0
  }

  lemma StepAges(b: Book, e: Event, gone: u64, later: nat)
    requires Guarded(b) && GoneFor(b, gone, later) && !Forgets(b, e)
    requires later + (if Removes(b, e) then 1 else 0) < MAX_REMOVED_ORDERS
    ensures GoneFor(Step(b, e), gone, later + if Removes(b, e) then 1 else 0)
  {
    hide Apply, Guarded;
    if e.Delta? && b.synced && e.d.seqNo == b.lastInstrSeq + 1 {
      var at := b.(lastInstrSeq := e.d.seqNo, lastMktSeq := e.d.mktSeq, lastEventTs := e.d.ts);
      assert Guarded(at) by {
        SameGuard(b, at);
      }
      ApplyAges(at, e.d.kind, gone, later);
    } else {
      assert Step(b, e).removedOrder == b.removedOrder;
    }
  }

  lemma SameGuard(b: Book, b': Book)
    requires Guarded(b)
    requires b' == b.(lastInstrSeq := b'.lastInstrSeq, lastMktSeq := b'.lastMktSeq, lastEventTs := b'.lastEventTs)
    ensures Guarded(b')
  {}

  lemma {:induction false} RunAges(b: Book, gone: u64, events: seq<Event>)
    requires Guarded(b) && GoneFor(b, gone, 0)
    requires !EverForgets(b, events) && Removals(b, events) < MAX_REMOVED_ORDERS
    ensures Guarded(Run(b, events)) && GoneFor(Run(b, events), gone, Removals(b, events))
    decreases |events|
  {
    hide Guarded, GoneFor;
    if events != [] {
      var before := events[..|events| - 1];
      RunAges(b, gone, before);
      StepGuards(Run(b, before), events[|events| - 1]);
      StepAges(Run(b, before), events[|events| - 1], gone, Removals(b, before));
    }
  }

  /** An order that a delta took away rests again only after a snapshot install, an instrument reset, an
      end of session, or 65,536 later removals: for arbitrary streams. */
  lemma NoResurrection(b: Book, e: Event, later: seq<Event>)
    requires Guarded(b) && Removes(b, e)
    ensures var b' := Step(b, e);
            e.d.kind.id in Run(b', later).orders
            ==> EverForgets(b', later) || Removals(b', later) >= MAX_REMOVED_ORDERS
  {
    hide Apply;
    var b' := Step(b, e);
    var at := b.(lastInstrSeq := e.d.seqNo, lastMktSeq := e.d.mktSeq, lastEventTs := e.d.ts);
    SameGuard(b, at);
    ApplyGuards(at, e.d.kind);
    if !EverForgets(b', later) && Removals(b', later) < MAX_REMOVED_ORDERS {
      RunAges(b', e.d.kind.id, later);
    }
  }

  // ---- a stale snapshot ----

  predicate OfSnapshot(e: Event) {
    e.SnapshotOrder? || e.SnapshotEnd?
  }

  function WithoutSnapshots(events: seq<Event>): seq<Event>
    decreases |events|
  {
    if events == [] then []
    else
      WithoutSnapshots(events[..|events| - 1])
      + if OfSnapshot(events[|events| - 1]) then [] else [events[|events| - 1]]
  }

  lemma StepKeepsNoAssembly(b: Book, e: Event)
    requires b.building.None? && !e.SnapshotBegin?
    ensures Step(b, e).building.None? && (OfSnapshot(e) ==> Step(b, e) == b)
  {
    hide LevelAdd, LevelRemove, Remembered, Forgotten;
  }

  lemma RunOneMore(b: Book, events: seq<Event>, e: Event)
    ensures Run(b, events + [e]) == Step(Run(b, events), e)
  {
    assert (events + [e])[..|events|] == events;
  }

  lemma {:induction false} NothingAssembles(b: Book, events: seq<Event>)
    requires b.building.None? && forall e :: e in events ==> !e.SnapshotBegin?
    ensures Run(b, events).building.None?
    ensures Run(b, events) == Run(b, WithoutSnapshots(events))
    decreases |events|
  {
    hide Step;
    if events != [] {
      var before, e := events[..|events| - 1], events[|events| - 1];
      NothingAssembles(b, before);
      StepKeepsNoAssembly(Run(b, before), e);
      if OfSnapshot(e) {
        assert WithoutSnapshots(events) == WithoutSnapshots(before);
      } else {
        RunOneMore(b, WithoutSnapshots(before), e);
      }
    }
  }

  /** A synced book that is offered a snapshot anchored at or below what it has applied drops any assembly
      it had open, and from then on, until another snapshot begins, runs as if no message of a snapshot
      had come: whatever deltas, resets and snapshot messages arrive in between. */
  lemma StaleSnapshotIsIgnored(b: Book, sid: u32, anchor: u64, total: u32, last: u32, later: seq<Event>)
    requires b.synced && anchor <= b.lastMktSeq
    requires forall e :: e in later ==> !e.SnapshotBegin?
    ensures Run(b, [SnapshotBegin(sid, anchor, total, last)] + later)
            == Run(b.(building := None), WithoutSnapshots(later))
  {
    var begin := SnapshotBegin(sid, anchor, total, last);
    RunFrom(b, begin, later);
    NothingAssembles(b.(building := None), later);
  }

  lemma {:induction false} RunFrom(b: Book, first: Event, later: seq<Event>)
    ensures Run(b, [first] + later) == Run(Step(b, first), later)
    decreases |later|
  {
    hide Step;
    var events := [first] + later;
    if later == [] {
      assert events[..0] == [];
      assert Run(b, events[..0]) == b;
    } else {
      RunFrom(b, first, later[..|later| - 1]);
      assert events[..|events| - 1] == [first] + later[..|later| - 1];
    }
  }
}
