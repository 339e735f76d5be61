/**
 Exactly which streams keep their price levels. `BookDepth` shows that over every run of a tidy stream each
 level is what rests at its price; here it is shown that over every run of any other stream it is not.
 */
module BookLevels {
  import opened Wrappers
  import opened BookModel
  import opened BookGuard
  import opened BookIndex
  import opened BookVenue
  import opened BookDepth
  import opened BookStrays
  import opened BookReuse

  /** Over every run of drops, duplicates and reorderings in which no snapshot order arrives twice within one
      assembly, the levels of a synced book are the quantities its orders rest. */
  ghost predicate AlwaysIndexed(v: Venue) {
    forall events :: StrayRun(v, {}, EMPTY_BOOK, events) && Once(EMPTY_BOOK, events) ==> LevelsHold(Run(EMPTY_BOOK, events))
  }

  ghost predicate LevelsHold(b: Book) {
    b.synced ==> Agrees(b)
  }

  ghost predicate SmallQuantities(v: Venue) {
    && GoodQuantities(v.start, false)
    && (forall i :: 0 <= i < |v.deltas| && v.deltas[i].kind.Add? ==> v.deltas[i].kind.qty < QTY_LIMIT)
  }

  predicate KeepsCountAt(v: Venue, i: nat)
    requires i < |v.deltas|
  {
    KeepsCount(TrueBook(v, i), v.deltas[i].kind)
  }

  ghost predicate KeepsEveryCount(v: Venue) {
    forall i :: 0 <= i < |v.deltas| ==> KeepsCountAt(v, i)
  }

  // ---- a tidy stream keeps its levels over these runs ----

  lemma KeepingIsTidy(v: Venue)
    requires WellFormed(v) && SmallQuantities(v) && KeepsEveryCount(v)
    ensures Tidy(v, false)
  {
    hide KeepsCount, TrueBook, WellFormed;
    forall i | 0 <= i < |v.deltas|
      ensures TidyAt(v, i, false)
    {
      assert KeepsCountAt(v, i);
    }
  }

  lemma PublishedIsTidy(v: Venue, d: DeltaOp)
    requires Tidy(v, false) && Published(v, d)
    ensures TidyDelta(v, d, false)
  {
    hide TidyEvent;
    assert TidyAt(v, d.seqNo - v.base - 1, false);
  }

  ghost predicate Good(v: Venue, b: Book) {
    OnStream(v, {}, b) && Faithful(v, b) && DepthTrue(v, b, false)
  }

  lemma PublishedBuffer(v: Venue, ds: seq<DeltaOp>)
    requires Tidy(v, false) && Buffers(v, {}, ds)
    ensures AllAgree(v, ds) && AllTidy(v, ds, false)
  {
    hide Tidy, TidyDelta, Agreeing;
    forall d | d in ds
      ensures Agreeing(v, d) && TidyDelta(v, d, false)
    {
      assert Delivered(v, {}, d);
      PublishedAgrees(v, d);
      PublishedIsTidy(v, d);
    }
  }

  lemma ArrivalIsLegal(v: Venue, b: Book, e: Event)
    requires Valid(v) && Tidy(v, false) && OnStream(v, {}, b) && MayArrive(v, {}, b, e) && !Again(b, e)
    ensures Legal(v, b, Delivery(e, v)) && TidyStep(v, b, Delivery(e, v), false)
  {
    hide Valid, Tidy, TidyDelta, Agreeing, Guarded, Follows, TrueBook, TrueOrders;
    match e
    case Delta(x) =>
      PublishedAgrees(v, x);
      PublishedIsTidy(v, x);
    case SnapshotOrder(sid, id, o) =>
      if b.building.Some? && b.building.value.snapshotId == sid {
        SentIsTrueOrder(v, b.building.value, id, o);
      }
    case InstrumentReset(anchor) =>
      PastIsWithin(b.pending, anchor);
      PublishedBuffer(v, Past(b.pending, anchor));
    case _ =>
  }

  lemma {:induction false} RunIsGood(v: Venue, events: seq<Event>)
    requires Valid(v) && Tidy(v, false) && AllHarmless(v, {})
    requires StrayRun(v, {}, EMPTY_BOOK, events) && Once(EMPTY_BOOK, events)
    ensures Good(v, Run(EMPTY_BOOK, events))
    decreases |events|
  {
    hide Valid, Tidy, AllHarmless, OnStream, Faithful, DepthTrue, MayArrive, Again, Legal, TidyStep, Step;
    if events == [] {
      EmptyIsGood(v);
    } else {
      var before, e := events[..|events| - 1], events[|events| - 1];
      RunIsGood(v, before);
      var b := Run(EMPTY_BOOK, before);
      ArrivalIsLegal(v, b, e);
      StepKeepsOnStream(v, {}, b, e);
      StepKeepsFaithful(v, b, Delivery(e, v));
      StepKeepsDepth(v, b, Delivery(e, v), false);
    }
  }

  lemma EmptyIsGood(v: Venue)
    ensures Good(v, EMPTY_BOOK)
  {
    EmptyIsOnStream(v, {});
  }

  // ---- and any other does not ----

  lemma {:induction false} TrueQuantitiesAreSmall(v: Venue, n: nat)
    requires SmallQuantities(v) && n <= |v.deltas|
    ensures GoodQuantities(TrueBook(v, n), false)
  {
    if n > 0 {
      TrueQuantitiesAreSmall(v, n - 1);
    }
  }

  /** A book that follows the stream has its levels unsettled by an event that does not keep the count. */
  lemma CountIsLost(v: Venue, sid: u32, n: nat, b: Book)
    requires Valid(v) && SmallQuantities(v) && Reachable(v, sid, n) && n < |v.deltas| && FitsAt(v, n + 1)
    requires HasFollowed(v, sid, n, b) && Guarded(b) && Agrees(b) && !KeepsCountAt(v, n)
    ensures !LevelsHold(Step(b, Delta(v.deltas[n])))
  {
    hide Apply, Agrees, Guarded, TrueBook, Remembers, Small, FreshAt, HarmlessAt;
    var d := v.deltas[n];
    TrueQuantitiesAreSmall(v, n);
    assert FitsAt(v, n);
    assert Small(b.orders) by {
      SmallBook(b.orders);
    }
    assert FreshAt(v, n);
    FreshIsHarmless(v, sid, n);
    FollowsOne(v, sid, n, b);
    if d.kind.Add? {
      GuardIsQueue(b, d.kind.id);
    }
    var at := At(b, d);
    AgreesToo(b, at);
    IndexKeptIffClean(at, d.kind);
  }

  lemma SmallBook(orders: Orders)
    requires GoodQuantities(orders, false) && |orders| <= MAX_ORDERS_PER_BOOK
    ensures Small(orders)
  {}

  lemma AgreesToo(b: Book, b': Book)
    requires Agrees(b) && b' == b.(lastInstrSeq := b'.lastInstrSeq, lastMktSeq := b'.lastMktSeq, lastEventTs := b'.lastEventTs)
    ensures Agrees(b')
  {}

  lemma LossIsReached(v: Venue, sid: u32, n: nat) returns (events: seq<Event>)
    requires Valid(v) && SmallQuantities(v) && Fits(v) && CapturesStart(v, sid) && n < |v.deltas| && !KeepsCountAt(v, n)
    ensures StrayRun(v, {}, EMPTY_BOOK, events) && Once(EMPTY_BOOK, events) && !LevelsHold(Run(EMPTY_BOOK, events))
  {
    hide WellFormed, SmallQuantities, FitsAt, FreshAt, HarmlessAt, HasFollowed, Guarded, Agrees, MayArrive, Step, KeepsCountAt;
    StartIsCaptured(v, sid);
    assert Reachable(v, sid, n) && FitsAt(v, n + 1);
    forall m | 0 <= m < n
      ensures HarmlessAt(v, sid, m, v.deltas[m].kind)
    {
      assert FreshAt(v, m);
      FreshIsHarmless(v, sid, m);
    }
    var before := CanReach(v, {}, sid, n);
    var b := Run(EMPTY_BOOK, before);
    FollowedIsSynced(v, sid, n, b);
    if !Agrees(b) {
      events := before;
    } else {
      var next := Delta(v.deltas[n]);
      OwnMayArrive(v, {}, n, b);
      OneMoreArrives(v, {}, EMPTY_BOOK, before, next);
      OneMoreOnce(EMPTY_BOOK, before, next);
      events := before + [next];
      CountIsLost(v, sid, n, b);
    }
  }

  lemma FollowedIsSynced(v: Venue, sid: u32, n: nat, b: Book)
    requires Captured(v, sid) && n <= |v.deltas| && HasFollowed(v, sid, n, b)
    ensures b.synced
  {}

  /** For a safe stream of bounded quantities: every run keeps every level of a synced book at what rests at its
      price if and only if no add of the stream names an id that rests with a quantity and every full fill
      covers what it fills. */
  lemma LevelsHoldIffCountIsKept(v: Venue, sid: u32)
    requires Valid(v) && SmallQuantities(v) && Fits(v) && CapturesStart(v, sid)
    ensures AlwaysIndexed(v) <==> KeepsEveryCount(v)
  {
    hide SmallQuantities, Fits, StrayRun, Once, LevelsHold, KeepsCountAt, WellFormed;
    if KeepsEveryCount(v) {
      FreshIsAllHarmless(v);
      KeepingIsTidy(v);
      forall events | StrayRun(v, {}, EMPTY_BOOK, events) && Once(EMPTY_BOOK, events)
        ensures LevelsHold(Run(EMPTY_BOOK, events))
      {
        RunIsGood(v, events);
        GoodLevelsHold(v, Run(EMPTY_BOOK, events));
      }
    } else {
      var n :| 0 <= n < |v.deltas| && !KeepsCountAt(v, n);
      var events := LossIsReached(v, sid, n);
    }
  }

  lemma GoodLevelsHold(v: Venue, b: Book)
    requires Good(v, b)
    ensures LevelsHold(b)
  {}
}
