/**
 Exactly when a receiver may be trusted. `BookVenue` shows which deliveries keep a synced receiver on the
 venue's book; here it is shown, for any stream and any strays the network may deliver at any time, that
 every run is safe if and only if no delta does harm at any book a receiver can reach. It follows when a
 stream may give way to the next while its own deltas are still in flight.
 */
module BookStrays {
  import opened Wrappers
  import opened Collections
  import opened BookModel
  import opened BookGuard
  import opened BookVenue

  // ---- the runs of one stream ----

  predicate Captured(v: Venue, sid: u32) {
    sid in v.captures && InRange(v, v.captures[sid].last)
  }

  /** A delta the network may deliver: the stream's own, or a stray. */
  predicate Delivered(v: Venue, strays: set<DeltaOp>, d: DeltaOp) {
    Published(v, d) || d in strays
  }

  ghost predicate Sent(v: Venue, strays: set<DeltaOp>, e: Event) {
    match e
    case Delta(x) => Delivered(v, strays, x)
    case SnapshotBegin(sid, anchor, total, last) =>
      Captured(v, sid) && v.captures[sid] == Capture(anchor, last) && total == |After(v, last)|
    case SnapshotOrder(sid, id, o) =>
      Captured(v, sid) && id in After(v, v.captures[sid].last) && o == After(v, v.captures[sid].last)[id]
    case _ => true
  }

  ghost predicate MayArrive(v: Venue, strays: set<DeltaOp>, b: Book, e: Event) {
    && Sent(v, strays, e)
    && (e.SnapshotEnd? && Installs(b, e.anchor, e.snapshotId) ==> NoneRepeated(b.building.value))
  }

  /** Any drops, duplicates, reorderings, resets and strays. */
  ghost predicate StrayRun(v: Venue, strays: set<DeltaOp>, b: Book, events: seq<Event>)
    decreases |events|
  {
    events == [] ||
    var before := events[..|events| - 1];
    StrayRun(v, strays, b, before) && MayArrive(v, strays, Run(b, before), events[|events| - 1])
  }

  lemma OneMoreArrives(v: Venue, strays: set<DeltaOp>, b: Book, events: seq<Event>, e: Event)
    requires StrayRun(v, strays, b, events) && MayArrive(v, strays, Run(b, events), e)
    ensures StrayRun(v, strays, b, events + [e]) && Run(b, events + [e]) == Step(Run(b, events), e)
  {
    hide MayArrive, Step;
    assert (events + [e])[..|events|] == events;
  }

  /** The order already arrived in the assembly in progress. */
  predicate Again(b: Book, e: Event) {
    && e.SnapshotOrder? && b.building.Some? && b.building.value.snapshotId == e.snapshotId
    && e.id in b.building.value.orders
  }

  /** No snapshot order arrives twice within one assembly. */
  predicate Once(b: Book, events: seq<Event>)
    decreases |events|
  {
    events == [] ||
    var before := events[..|events| - 1];
    Once(b, before) && !Again(Run(b, before), events[|events| - 1])
  }

  lemma OneMoreOnce(b: Book, events: seq<Event>, e: Event)
    requires Once(b, events) && !Again(Run(b, events), e)
    ensures Once(b, events + [e])
  {
    hide Again, Step;
    assert (events + [e])[..|events|] == events;
  }

  // ---- where a receiver can be ----

  /** How many deltas precede the snapshot. */
  function Start(v: Venue, sid: u32): nat
    requires Captured(v, sid)
  {
    v.captures[sid].last - v.base
  }

  /** The ids that a receiver which installed the snapshot and followed through delta `n` remembers. */
  function Remembers(v: Venue, sid: u32, n: nat): seq<u64>
    requires Captured(v, sid) && n <= |v.deltas|
  {
    Remembered(TakingsFrom(v, Start(v, sid), n))
  }

  predicate FitsAt(v: Venue, n: nat)
    requires n <= |v.deltas|
  {
    |TrueBook(v, n)| <= MAX_ORDERS_PER_BOOK
  }

  /** A receiver can install the snapshot and follow the stream from there through its `n`-th delta. */
  ghost predicate Reachable(v: Venue, sid: u32, n: nat) {
    Captured(v, sid) && Start(v, sid) <= n <= |v.deltas| && forall m :: Start(v, sid) <= m <= n ==> FitsAt(v, m)
  }

  ghost predicate HasFollowed(v: Venue, sid: u32, n: nat, b: Book)
    requires Captured(v, sid) && n <= |v.deltas|
  {
    && b.synced && b.lastInstrSeq == v.base + n
    && b.orders == TrueBook(v, n)
    && b.removedOrder == Remembers(v, sid, n)
  }

  // ---- what a delta does there ----

  predicate Overflows(orders: Orders, kind: DeltaKind) {
    kind.Add? && kind.id !in orders && |orders| >= MAX_ORDERS_PER_BOOK
  }

  /** A delta numbered next after book `n` does a receiver there no harm: it does to the book what the
      stream does, or is refused where the stream does nothing, or overflows the receiver into recovery. */
  predicate HarmlessAt(v: Venue, sid: u32, n: nat, kind: DeltaKind)
    requires Captured(v, sid) && n <= |v.deltas|
  {
    if kind.Add? && kind.id in Remembers(v, sid, n) then n < |v.deltas| && TrueBook(v, n + 1) == TrueBook(v, n)
    else Overflows(TrueBook(v, n), kind) || (n < |v.deltas| && TrueApply(TrueBook(v, n), kind) == TrueBook(v, n + 1))
  }

  lemma AppliesOrOverflows(b: Book, kind: DeltaKind)
    requires b.synced && Guarded(b)
    ensures var b' := Apply(b, kind).book;
            if kind.Add? && kind.id in b.removed then b'.synced && b'.orders == b.orders
            else if Overflows(b.orders, kind) then !b'.synced
            else b'.synced && b'.orders == TrueApply(b.orders, kind)
  {
    match kind
    case Add(id, isBid, price, qty) =>
    case Cancel(id) => CancelIsTrue(b, id);
    case Execute(id, execQty, fullFill) => ExecuteIsTrue(b, id, execQty, fullFill);
  }

  lemma GuardIsQueue(b: Book, id: u64)
    requires Guarded(b)
    ensures id in b.removed <==> id in b.removedOrder
    ensures id in b.removed ==> id !in b.orders
  {}

  function At(b: Book, d: DeltaOp): Book {
    b.(lastInstrSeq := d.seqNo, lastMktSeq := d.mktSeq, lastEventTs := d.ts)
  }

  /** The exact condition on one delta: a receiver on the stream's book stays on it, or stops claiming to be
      synced, exactly when the delta is harmless there. */
  lemma NextIsTruthfulIff(v: Venue, sid: u32, n: nat, b: Book, d: DeltaOp)
    requires Captured(v, sid) && n <= |v.deltas| && HasFollowed(v, sid, n, b) && Guarded(b)
    requires d.seqNo == b.lastInstrSeq + 1
    ensures Truthful(v, ApplyOrRecover(b, d).book) <==> HarmlessAt(v, sid, n, d.kind)
  {
    hide Apply, Guarded, TrueBook, TrueApply, Remembers, Overflows;
    var at := At(b, d);
    SameGuard(b, at);
    AppliesOrOverflows(at, d.kind);
    ApplyFrame(at, d.kind);
    if d.kind.Add? {
      GuardIsQueue(at, d.kind.id);
    }
  }

  lemma RememberedOnce(t: seq<u64>, id: u64)
    ensures Remembered(Remembered(t) + [id]) == Remembered(t + [id])
  {}

  /** The queue follows the stream's takings through a delta that leaves the stream's next book. */
  lemma QueueFollows(v: Venue, sid: u32, n: nat, kind: DeltaKind, refused: bool)
    requires Captured(v, sid) && Start(v, sid) <= n < |v.deltas|
    requires TrueBook(v, n + 1) == if refused then TrueBook(v, n) else TrueApply(TrueBook(v, n), kind)
    requires refused ==> kind.Add?
    ensures Remembers(v, sid, n + 1)
            == if TakesAway(TrueBook(v, n), kind) then Remembered(Remembers(v, sid, n) + [kind.id]) else Remembers(v, sid, n)
  {
    hide Remembered, TrueApply, TakesAway, Start;
    var orders, own := TrueBook(v, n), v.deltas[n].kind;
    var t := TakingsFrom(v, Start(v, sid), n);
    RememberedOnce(t, kind.id);
    assert t + [] == t;
    if refused {
      TakingIsTrue(orders, own);
      AddTakesNothing(orders, kind);
      assert TakesAway(orders, own) ==> own.id !in orders - {own.id};
    } else {
      SameTaking(orders, kind, own);
    }
  }

  lemma AddTakesNothing(orders: Orders, kind: DeltaKind)
    requires kind.Add?
    ensures !TakesAway(orders, kind)
  {}

  /** And a harmless delta keeps the receiver following. */
  lemma HarmlessFollows(v: Venue, sid: u32, n: nat, b: Book, d: DeltaOp)
    requires Reachable(v, sid, n) && HasFollowed(v, sid, n, b) && Guarded(b)
    requires d.seqNo == b.lastInstrSeq + 1 && HarmlessAt(v, sid, n, d.kind)
    requires ApplyOrRecover(b, d).book.synced
    ensures Reachable(v, sid, n + 1) && HasFollowed(v, sid, n + 1, ApplyOrRecover(b, d).book)
  {
    hide Apply, Guarded, TrueBook, TrueApply, Remembers, TakesAway, Remembered, Overflows;
    var at, b' := At(b, d), ApplyOrRecover(b, d).book;
    SameGuard(b, at);
    AppliesOrOverflows(at, d.kind);
    ApplyFrame(at, d.kind);
    ApplyRemembers(at, d.kind);
    var refused := d.kind.Add? && d.kind.id in b.removed;
    if d.kind.Add? {
      GuardIsQueue(at, d.kind.id);
    }
    QueueFollows(v, sid, n, d.kind, refused);
    ApplyGuards(at, d.kind);
    GuardedFits(b');
    assert FitsAt(v, n + 1);
  }

  lemma GuardedFits(b: Book)
    requires Guarded(b)
    ensures |b.orders| <= MAX_ORDERS_PER_BOOK
  {}

  // ---- harmless deltas keep every run safe ----

  ghost predicate AllHarmless(v: Venue, strays: set<DeltaOp>) {
    forall sid, n, d :: HarmlessTo(v, strays, sid, n, d)
  }

  /** If the delta can come next to a receiver that followed the stream from the snapshot through `n`, it
      does no harm there. */
  ghost predicate HarmlessTo(v: Venue, strays: set<DeltaOp>, sid: u32, n: nat, d: DeltaOp) {
    Reachable(v, sid, n) && Delivered(v, strays, d) && d.seqNo == v.base + n + 1 ==> HarmlessAt(v, sid, n, d.kind)
  }

  /** What is buffered was delivered, and what is assembled is a snapshot of the stream. */
  ghost predicate Buffers(v: Venue, strays: set<DeltaOp>, ds: seq<DeltaOp>) {
    forall d :: d in ds ==> Delivered(v, strays, d)
  }

  ghost predicate OfCapture(v: Venue, g: Building) {
    && Captured(v, g.snapshotId) && v.captures[g.snapshotId] == Capture(g.anchor, g.lastInstrSeq)
    && Assembling(v, g)
  }

  ghost predicate FollowsFrom(v: Venue, sid: u32, n: nat, b: Book) {
    Reachable(v, sid, n) && HasFollowed(v, sid, n, b)
  }

  ghost predicate Follows(v: Venue, b: Book) {
    b.synced ==> exists sid, n :: FollowsFrom(v, sid, n, b)
  }

  lemma NotSyncedFollows(v: Venue, b: Book)
    requires !b.synced
    ensures Follows(v, b)
  {}

  lemma NewAssemblyFollows(v: Venue, b: Book, g: Option<Building>)
    requires Follows(v, b)
    ensures Follows(v, b.(building := g))
  {
    hide Reachable, TrueBook, Remembers;
    if b.synced {
      var sid: u32, n: nat :| FollowsFrom(v, sid, n, b);
      assert FollowsFrom(v, sid, n, b.(building := g));
    }
  }

  ghost predicate OnStream(v: Venue, strays: set<DeltaOp>, b: Book) {
    && Guarded(b) && Follows(v, b) && Buffers(v, strays, b.pending)
    && (b.building.Some? ==> OfCapture(v, b.building.value))
  }

  lemma NextFollows(v: Venue, strays: set<DeltaOp>, b: Book, d: DeltaOp)
    requires AllHarmless(v, strays) && Guarded(b) && Follows(v, b) && b.synced && Delivered(v, strays, d)
    requires d.seqNo == b.lastInstrSeq + 1
    ensures Follows(v, ApplyOrRecover(b, d).book)
  {
    hide ApplyOrRecover, Guarded, HasFollowed, Reachable, HarmlessAt, Delivered;
    var sid: u32, n: nat :| FollowsFrom(v, sid, n, b);
    FollowedIsAt(v, sid, n, b);
    if ApplyOrRecover(b, d).book.synced {
      assert HarmlessTo(v, strays, sid, n, d);
      HarmlessFollows(v, sid, n, b, d);
      assert FollowsFrom(v, sid, n + 1, ApplyOrRecover(b, d).book);
    }
  }

  lemma FollowedIsAt(v: Venue, sid: u32, n: nat, b: Book)
    requires FollowsFrom(v, sid, n, b)
    ensures b.lastInstrSeq == v.base + n && Truthful(v, b)
  {}

  lemma DeltaKeepsOnStream(v: Venue, strays: set<DeltaOp>, b: Book, d: DeltaOp)
    requires AllHarmless(v, strays) && OnStream(v, strays, b) && Delivered(v, strays, d)
    ensures OnStream(v, strays, OnDelta(b, d).book)
  {
    hide Apply, Guarded, AllHarmless, Delivered, OfCapture, HasFollowed, Reachable;
    StepGuards(b, Delta(d));
    if b.synced && d.seqNo == b.lastInstrSeq + 1 {
      NextFollows(v, strays, b, d);
      ApplyFrame(At(b, d), d.kind);
    } else if b.synced && d.seqNo <= b.lastInstrSeq {
    } else {
      assert !OnDelta(b, d).book.synced;
    }
  }

  lemma {:induction false} ReplayKeepsOnStream(v: Venue, strays: set<DeltaOp>, b: Book, ds: seq<DeltaOp>)
    requires AllHarmless(v, strays) && OnStream(v, strays, b) && b.synced && Buffers(v, strays, ds)
    ensures OnStream(v, strays, Replay(b, ds))
    decreases |ds|
  {
    hide ApplyOrRecover, AllHarmless, OnStream, Delivered;
    if ds != [] {
      assert ds[0] in ds;
      DeltaKeepsOnStream(v, strays, b, ds[0]);
      var b' := ApplyOrRecover(b, ds[0]).book;
      if b'.synced {
        ReplayKeepsOnStream(v, strays, b', ds[1..]);
      }
    }
  }

  lemma InstalledFollows(v: Venue, g: Building, b: Book)
    requires OfCapture(v, g) && g.received == g.total && NoneRepeated(g)
    ensures FollowsFrom(v, g.snapshotId, Start(v, g.snapshotId), Install(b, g))
  {
    hide TrueBook;
    CompleteIsTrue(v, g);
    assert FitsAt(v, Start(v, g.snapshotId));
  }

  lemma InstallIsOnStream(v: Venue, strays: set<DeltaOp>, b: Book, g: Building)
    requires OnStream(v, strays, b) && b.building == Some(g) && g.received == g.total && NoneRepeated(g)
    ensures OnStream(v, strays, Install(b, g))
  {
    hide FollowsFrom;
    InstalledFollows(v, g, b);
  }

  lemma EndKeepsOnStream(v: Venue, strays: set<DeltaOp>, b: Book, anchor: u64, sid: u32)
    requires AllHarmless(v, strays) && OnStream(v, strays, b)
    requires Installs(b, anchor, sid) ==> NoneRepeated(b.building.value)
    ensures OnStream(v, strays, OnSnapshotEnd(b, anchor, sid))
  {
    hide AllHarmless, Guarded, Delivered, OfCapture, HasFollowed, Reachable, Replay, SortByMktSeq, Past;
    StepGuards(b, SnapshotEnd(anchor, sid));
    if Installs(b, anchor, sid) {
      var g := b.building.value;
      InstallIsOnStream(v, strays, b, g);
      PastIsWithin(b.pending, g.anchor);
      SortIsWithin(Past(b.pending, g.anchor));
      ReplayKeepsOnStream(v, strays, Install(b, g), SortByMktSeq(Past(b.pending, g.anchor)));
    }
  }

  lemma OrderKeepsCapture(v: Venue, g: Building, id: u64, o: RestingOrder)
    requires OfCapture(v, g) && IsTrueOrder(v, g, id, o)
    ensures OfCapture(v, Assemble(g, id, o))
  {
    hide Assembling, LevelAdd;
    AssembleKeepsTrue(v, g, id, o);
  }

  lemma BeginKeepsCapture(v: Venue, b: Book, sid: u32, anchor: u64, total: u32, last: u32)
    requires Captured(v, sid) && v.captures[sid] == Capture(anchor, last) && total == |After(v, last)|
    ensures var g := OnSnapshotBegin(b, sid, anchor, total, last).building; g.Some? ==> OfCapture(v, g.value)
  {
    hide TrueBook;
  }

  lemma StepKeepsOnStream(v: Venue, strays: set<DeltaOp>, b: Book, e: Event)
    requires AllHarmless(v, strays) && OnStream(v, strays, b) && MayArrive(v, strays, b, e)
    ensures OnStream(v, strays, Step(b, e))
  {
    hide AllHarmless, Guarded, Delivered, OfCapture, Follows, Assemble;
    StepGuards(b, e);
    match e
    case Delta(d) => DeltaKeepsOnStream(v, strays, b, d);
    case SnapshotBegin(sid, anchor, total, last) =>
      BeginKeepsCapture(v, b, sid, anchor, total, last);
      NewAssemblyFollows(v, b, Step(b, e).building);
    case SnapshotOrder(sid, id, o) =>
      if b.building.Some? && b.building.value.snapshotId == sid {
        SentIsTrueOrder(v, b.building.value, id, o);
        OrderKeepsCapture(v, b.building.value, id, o);
        NewAssemblyFollows(v, b, Step(b, e).building);
      }
    case SnapshotEnd(anchor, sid) => EndKeepsOnStream(v, strays, b, anchor, sid);
    case InstrumentReset(anchor) =>
      PastIsWithin(b.pending, anchor);
      NotSyncedFollows(v, Step(b, e));
    case EndOfSession => NotSyncedFollows(v, EMPTY_BOOK);
  }

  lemma SentIsTrueOrder(v: Venue, g: Building, id: u64, o: RestingOrder)
    requires OfCapture(v, g) && id in After(v, v.captures[g.snapshotId].last)
    requires o == After(v, v.captures[g.snapshotId].last)[id]
    ensures IsTrueOrder(v, g, id, o)
  {}

  lemma {:induction false} RunStaysOnStream(v: Venue, strays: set<DeltaOp>, b: Book, events: seq<Event>)
    requires AllHarmless(v, strays) && OnStream(v, strays, b) && StrayRun(v, strays, b, events)
    ensures OnStream(v, strays, Run(b, events))
    decreases |events|
  {
    hide AllHarmless, OnStream, MayArrive, Step;
    if events != [] {
      var before := events[..|events| - 1];
      RunStaysOnStream(v, strays, b, before);
      StepKeepsOnStream(v, strays, Run(b, before), events[|events| - 1]);
    }
  }

  lemma OnStreamIsTruthful(v: Venue, strays: set<DeltaOp>, b: Book)
    requires OnStream(v, strays, b)
    ensures Truthful(v, b)
  {
    hide FollowsFrom, Guarded, Truthful;
    if b.synced {
      var sid: u32, n: nat :| FollowsFrom(v, sid, n, b);
      FollowedIsAt(v, sid, n, b);
    } else {
      NotSyncedIsTruthful(v, b);
    }
  }

  lemma NotSyncedIsTruthful(v: Venue, b: Book)
    requires !b.synced
    ensures Truthful(v, b)
  {}

  lemma EmptyIsOnStream(v: Venue, strays: set<DeltaOp>)
    ensures OnStream(v, strays, EMPTY_BOOK)
  {}

  // ---- and every reachable book is reached ----

  /** The book part-way through assembling a snapshot. */
  ghost predicate HasAssembled(v: Venue, sid: u32, some: Orders, b: Book)
    requires Captured(v, sid)
  {
    && b == EMPTY_BOOK.(building := b.building)
    && b.building.Some?
    && b.building.value.snapshotId == sid
    && b.building.value.anchor == v.captures[sid].anchor
    && b.building.value.lastInstrSeq == v.captures[sid].last
    && b.building.value.total == |After(v, v.captures[sid].last)|
    && b.building.value.received == |some|
    && b.building.value.orders == some
  }

  /** How the snapshot begins. */
  function BeginOf(v: Venue, sid: u32): Event
    requires Captured(v, sid) && FitsAt(v, Start(v, sid))
  {
    SnapshotBegin(sid, v.captures[sid].anchor, |TrueBook(v, Start(v, sid))|, v.captures[sid].last)
  }

  lemma Begins(v: Venue, sid: u32)
    requires Captured(v, sid) && FitsAt(v, Start(v, sid))
    ensures HasAssembled(v, sid, map[], Step(EMPTY_BOOK, BeginOf(v, sid)))
  {
    hide TrueBook;
  }

  lemma AssemblesOne(v: Venue, sid: u32, some: Orders, id: u64, b: Book)
    requires Captured(v, sid) && FitsAt(v, Start(v, sid)) && Within(some, After(v, v.captures[sid].last)) && id in some
    requires HasAssembled(v, sid, some - {id}, b)
    ensures HasAssembled(v, sid, some, Step(b, SnapshotOrder(sid, id, some[id])))
  {
    hide Assemble, TrueBook;
    WithinOneMore(some - {id}, After(v, v.captures[sid].last), id);
    AssembleFrame(b.building.value, id, some[id]);
    assert (some - {id})[id := some[id]] == some;
    SmallerWithout(some, id);
  }

  lemma {:induction false} CanAssemble(v: Venue, strays: set<DeltaOp>, sid: u32, some: Orders)
    returns (events: seq<Event>)
    requires Captured(v, sid) && FitsAt(v, Start(v, sid)) && Within(some, After(v, v.captures[sid].last))
    ensures StrayRun(v, strays, EMPTY_BOOK, events) && Once(EMPTY_BOOK, events) && HasAssembled(v, sid, some, Run(EMPTY_BOOK, events))
    decreases |some|
  {
    hide Step, TrueBook, HasAssembled, MayArrive;
    if some == map[] {
      var begin := BeginOf(v, sid);
      BeginMayArrive(v, strays, sid);
      OneMoreArrives(v, strays, EMPTY_BOOK, [], begin);
      OneMoreOnce(EMPTY_BOOK, [], begin);
      events := [] + [begin];
      Begins(v, sid);
    } else {
      var id := HasMember(some.Keys);
      SmallerWithout(some, id);
      var before := CanAssemble(v, strays, sid, some - {id});
      var next := SnapshotOrder(sid, id, some[id]);
      assert MayArrive(v, strays, Run(EMPTY_BOOK, before), next) by {
        OrderMayArrive(v, strays, sid, id, some[id], Run(EMPTY_BOOK, before));
      }
      OneMoreArrives(v, strays, EMPTY_BOOK, before, next);
      NotAgain(v, sid, some - {id}, Run(EMPTY_BOOK, before), id, some[id]);
      OneMoreOnce(EMPTY_BOOK, before, next);
      events := before + [next];
      AssemblesOne(v, sid, some, id, Run(EMPTY_BOOK, before));
    }
  }

  lemma NotAgain(v: Venue, sid: u32, some: Orders, b: Book, id: u64, o: RestingOrder)
    requires Captured(v, sid) && HasAssembled(v, sid, some, b) && id !in some
    ensures !Again(b, SnapshotOrder(sid, id, o))
  {}

  lemma BeginMayArrive(v: Venue, strays: set<DeltaOp>, sid: u32)
    requires Captured(v, sid) && FitsAt(v, Start(v, sid))
    ensures BeginOf(v, sid).SnapshotBegin? && MayArrive(v, strays, Run(EMPTY_BOOK, []), BeginOf(v, sid))
  {
    hide TrueBook;
  }

  lemma OrderMayArrive(v: Venue, strays: set<DeltaOp>, sid: u32, id: u64, o: RestingOrder, b: Book)
    requires Captured(v, sid) && id in After(v, v.captures[sid].last) && o == After(v, v.captures[sid].last)[id]
    ensures MayArrive(v, strays, b, SnapshotOrder(sid, id, o))
  {}

  lemma CanInstall(v: Venue, strays: set<DeltaOp>, sid: u32) returns (events: seq<Event>)
    requires Captured(v, sid) && FitsAt(v, Start(v, sid))
    ensures StrayRun(v, strays, EMPTY_BOOK, events) && Once(EMPTY_BOOK, events)
    ensures Guarded(Run(EMPTY_BOOK, events)) && HasFollowed(v, sid, Start(v, sid), Run(EMPTY_BOOK, events))
  {
    hide Step, HasAssembled, HasFollowed, MayArrive, Guarded, TrueBook;
    var before := CanAssemble(v, strays, sid, After(v, v.captures[sid].last));
    var end := SnapshotEnd(v.captures[sid].anchor, sid);
    Ends(v, strays, sid, Run(EMPTY_BOOK, before));
    OneMoreArrives(v, strays, EMPTY_BOOK, before, end);
    OneMoreOnce(EMPTY_BOOK, before, end);
    events := before + [end];
    EveryRunIsGuarded(events);
  }

  lemma Ends(v: Venue, strays: set<DeltaOp>, sid: u32, b: Book)
    requires Captured(v, sid) && HasAssembled(v, sid, After(v, v.captures[sid].last), b)
    ensures MayArrive(v, strays, b, SnapshotEnd(v.captures[sid].anchor, sid))
    ensures HasFollowed(v, sid, Start(v, sid), Step(b, SnapshotEnd(v.captures[sid].anchor, sid)))
  {
    hide TrueBook;
    assert Past(b.pending, v.captures[sid].anchor) == [] && SortByMktSeq([]) == [];
  }

  lemma FollowsOne(v: Venue, sid: u32, n: nat, b: Book)
    requires WellFormed(v) && Reachable(v, sid, n) && n < |v.deltas| && FitsAt(v, n + 1)
    requires HasFollowed(v, sid, n, b) && Guarded(b) && HarmlessAt(v, sid, n, v.deltas[n].kind)
    ensures HasFollowed(v, sid, n + 1, Step(b, Delta(v.deltas[n]))) && Guarded(Step(b, Delta(v.deltas[n])))
  {
    hide Apply, Guarded, Remembers, TrueApply, Overflows;
    var d := v.deltas[n];
    var at := At(b, d);
    SameGuard(b, at);
    ApplyIsTrueIff(at, d.kind);
    StepGuards(b, Delta(d));
    assert TrueBook(v, n + 1) == TrueApply(b.orders, d.kind);
    HarmlessFollows(v, sid, n, b, d);
  }

  lemma {:induction false} CanReach(v: Venue, strays: set<DeltaOp>, sid: u32, n: nat) returns (events: seq<Event>)
    requires WellFormed(v) && Reachable(v, sid, n)
    requires forall m :: Start(v, sid) <= m < n ==> HarmlessAt(v, sid, m, v.deltas[m].kind)
    ensures StrayRun(v, strays, EMPTY_BOOK, events) && Once(EMPTY_BOOK, events)
    ensures Guarded(Run(EMPTY_BOOK, events)) && HasFollowed(v, sid, n, Run(EMPTY_BOOK, events))
    decreases n
  {
    hide Step, HasFollowed, MayArrive, Guarded, HarmlessAt, FitsAt, WellFormed;
    assert FitsAt(v, n);
    if n == Start(v, sid) {
      events := CanInstall(v, strays, sid);
    } else {
      var before := CanReach(v, strays, sid, n - 1);
      var next := Delta(v.deltas[n - 1]);
      OwnMayArrive(v, strays, n - 1, Run(EMPTY_BOOK, before));
      OneMoreArrives(v, strays, EMPTY_BOOK, before, next);
      OneMoreOnce(EMPTY_BOOK, before, next);
      events := before + [next];
      FollowsOne(v, sid, n - 1, Run(EMPTY_BOOK, before));
    }
  }

  lemma OwnMayArrive(v: Venue, strays: set<DeltaOp>, n: nat, b: Book)
    requires WellFormed(v) && n < |v.deltas|
    ensures Published(v, v.deltas[n]) && v.deltas[n].seqNo == v.base + n + 1
    ensures MayArrive(v, strays, b, Delta(v.deltas[n]))
  {}

  // ---- so the condition is exact ----

  ghost predicate AlwaysTruthful(v: Venue, strays: set<DeltaOp>) {
    forall events :: StrayRun(v, strays, EMPTY_BOOK, events) ==> Truthful(v, Run(EMPTY_BOOK, events))
  }

  /** The first own delta that does harm on the way from a snapshot to `n`, or `n` if none does. */
  lemma FirstHarm(v: Venue, sid: u32, n: nat) returns (m: nat)
    requires Reachable(v, sid, n)
    ensures Start(v, sid) <= m <= n
    ensures m < n ==> !HarmlessAt(v, sid, m, v.deltas[m].kind)
    ensures forall i :: Start(v, sid) <= i < m ==> HarmlessAt(v, sid, i, v.deltas[i].kind)
  {
    hide HarmlessAt;
    m := Start(v, sid);
    while m < n && HarmlessAt(v, sid, m, v.deltas[m].kind)
      invariant Start(v, sid) <= m <= n
      invariant forall i :: Start(v, sid) <= i < m ==> HarmlessAt(v, sid, i, v.deltas[i].kind)
    {
      m := m + 1;
    }
  }

  lemma HarmIsReached(v: Venue, strays: set<DeltaOp>, sid: u32, n: nat, d: DeltaOp) returns (events: seq<Event>)
    requires WellFormed(v) && Reachable(v, sid, n) && Delivered(v, strays, d)
    requires d.seqNo == v.base + n + 1 && !HarmlessAt(v, sid, n, d.kind)
    ensures StrayRun(v, strays, EMPTY_BOOK, events) && !Truthful(v, Run(EMPTY_BOOK, events))
  {
    hide HarmlessAt, Delivered, HasFollowed, MayArrive, Truthful, WellFormed, Guarded, Step;
    var m := FirstHarm(v, sid, n);
    assert Reachable(v, sid, m);
    var x := d;
    if m < n {
      x := v.deltas[m];
      OwnMayArrive(v, strays, m, EMPTY_BOOK);
      PublishedIsDelivered(v, strays, x);
    }
    var before := CanReach(v, strays, sid, m);
    DeliveredMayArrive(v, strays, x, Run(EMPTY_BOOK, before));
    OneMoreArrives(v, strays, EMPTY_BOOK, before, Delta(x));
    events := before + [Delta(x)];
    HarmShows(v, sid, m, Run(EMPTY_BOOK, before), x);
  }

  lemma PublishedIsDelivered(v: Venue, strays: set<DeltaOp>, d: DeltaOp)
    requires Published(v, d)
    ensures Delivered(v, strays, d)
  {}

  lemma DeliveredMayArrive(v: Venue, strays: set<DeltaOp>, d: DeltaOp, b: Book)
    requires Delivered(v, strays, d)
    ensures MayArrive(v, strays, b, Delta(d))
  {}

  lemma HarmShows(v: Venue, sid: u32, n: nat, b: Book, d: DeltaOp)
    requires Captured(v, sid) && n <= |v.deltas| && HasFollowed(v, sid, n, b) && Guarded(b)
    requires d.seqNo == v.base + n + 1 && !HarmlessAt(v, sid, n, d.kind)
    ensures !Truthful(v, Step(b, Delta(d)))
  {
    hide HarmlessAt, Truthful, ApplyOrRecover, Guarded, TrueBook, Remembers;
    NextIsTruthfulIff(v, sid, n, b, d);
  }

  /** For any stream and any strays: every run leaves a receiver that says it is synced on the stream's book
      if and only if no delta, the stream's own or a stray, does harm at any book a receiver can reach. */
  lemma SafeIffHarmless(v: Venue, strays: set<DeltaOp>)
    requires WellFormed(v)
    ensures AlwaysTruthful(v, strays) <==> AllHarmless(v, strays)
  {
    hide StrayRun, OnStream, Truthful, HarmlessAt, Reachable, Delivered, WellFormed;
    if AllHarmless(v, strays) {
      EmptyIsOnStream(v, strays);
      forall events | StrayRun(v, strays, EMPTY_BOOK, events)
        ensures Truthful(v, Run(EMPTY_BOOK, events))
      {
        RunStaysOnStream(v, strays, EMPTY_BOOK, events);
        OnStreamIsTruthful(v, strays, Run(EMPTY_BOOK, events));
      }
    } else {
      var sid: u32, n: nat, d: DeltaOp :| !HarmlessTo(v, strays, sid, n, d);
      var events := HarmIsReached(v, strays, sid, n, d);
    }
  }
}
