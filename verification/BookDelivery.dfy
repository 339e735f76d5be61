/**
 What a receiver makes of what is delivered to it, read off the trace alone: which deltas it holds while it
 recovers, which one it applied last, and when a whole snapshot group takes effect. With that, recovery
 completes in terms of the messages and not of the receiver's fields.
 */
module BookDelivery {
  import opened Wrappers
  import opened Collections
  import opened BookModel
  import opened BookGuard
  import opened BookVenue
  import opened BookRecovery

  /** The receiver, started empty, after the first `i` events. */
  function At(events: seq<Event>, i: nat): Book
    requires i <= |events|
  {
    Run(EMPTY_BOOK, events[..i])
  }

  lemma AtNext(events: seq<Event>, i: nat)
    requires i < |events|
    ensures At(events, i + 1) == Step(At(events, i), events[i])
  {
    hide Step;
    assert events[..i + 1][..i] == events[..i];
  }

  lemma AtPrefix(events: seq<Event>, e: Event, i: nat)
    requires i <= |events|
    ensures At(events + [e], i) == At(events, i)
  {
    assert (events + [e])[..i] == events[..i];
  }

  // ---- what a recovering book holds ----

  /** The deltas among the events, in order. */
  function Deltas(events: seq<Event>): seq<DeltaOp>
    decreases |events|
  {
    if events == [] then []
    else
      var e := events[|events| - 1];
      Deltas(events[..|events| - 1]) + if e.Delta? then [e.d] else []
  }

  /** As many of the earliest as the buffer takes. */
  function Earliest(ds: seq<DeltaOp>): seq<DeltaOp> {
    if |ds| <= MAX_PENDING_DELTAS then ds else ds[..MAX_PENDING_DELTAS]
  }

  /** The event begins the buffer anew: a reset, an end of session or a snapshot's install. */
  predicate Renews(b: Book, e: Event) {
    e.InstrumentReset? || e.EndOfSession? || (e.SnapshotEnd? && Installs(b, e.anchor, e.snapshotId))
  }

  /** The recovery in force began with the `k`-th event, or is the one every receiver starts in. */
  ghost predicate BeganAt(events: seq<Event>, k: nat) {
    && k <= |events|
    && (forall i :: k <= i <= |events| ==> !At(events, i).synced)
    && (forall i :: k <= i < |events| ==> !Renews(At(events, i), events[i]))
    && (k == 0 || At(events, k - 1).synced || Renews(At(events, k - 1), events[k - 1]))
  }

  /** What is held when a recovery begins: the delta that showed the gap; what an instrument reset keeps; of a
      replay, the delta it stopped at; otherwise nothing. */
  ghost predicate Opens(b: Book, e: Event, b': Book) {
    match e
    case Delta(d) => b'.pending == if d.seqNo > b.lastInstrSeq + 1 then [d] else []
    case InstrumentReset(anchor) => b'.pending == Past(b.pending, anchor)
    case SnapshotEnd(anchor, sid) =>
      b'.pending != [] ==> Installs(b, anchor, sid) && exists d :: b'.pending == [d] && StoppedAt(b, anchor, b', d)
    case _ => b'.pending == []
  }

  ghost predicate StoppedAt(b: Book, anchor: u64, b': Book, d: DeltaOp) {
    d in b.pending && d.mktSeq > anchor && d.seqNo > b'.lastInstrSeq + 1
  }

  /** The deltas of the recovery in force, read off the trace. */
  function Arrived(events: seq<Event>, k: nat): seq<DeltaOp>
    requires k <= |events|
  {
    At(events, k).pending + Deltas(events[k..])
  }

  /** What a reset keeps of the buffer it keeps in its order: `Past` goes through the buffer piece by piece. */
  lemma {:induction false} PastOfBoth(xs: seq<DeltaOp>, ys: seq<DeltaOp>, anchor: u64)
    ensures Past(xs + ys, anchor) == Past(xs, anchor) + Past(ys, anchor)
    decreases |xs|
  {
    if xs == [] {
      assert xs + ys == ys;
    } else {
      assert (xs + ys)[1..] == xs[1..] + ys;
      PastOfBoth(xs[1..], ys, anchor);
    }
  }

  lemma ApplyBuffers(b: Book, kind: DeltaKind)
    ensures var b' := Apply(b, kind).book; b'.pending == b.pending && b'.lastInstrSeq == b.lastInstrSeq
  {
    hide Apply;
    ApplyFrame(b, kind);
  }

  lemma DeltaOpens(b: Book, d: DeltaOp)
    requires b.synced && b.pending == []
    ensures var b' := ApplyOrRecover(b, d).book;
            if b'.synced then b'.pending == []
            else b'.pending == (if d.seqNo > b.lastInstrSeq + 1 then [d] else [])
                 && (d.seqNo > b.lastInstrSeq + 1 ==> b'.lastInstrSeq == b.lastInstrSeq)
  {
    hide Apply;
    ApplyBuffers(b.(lastInstrSeq := d.seqNo, lastMktSeq := d.mktSeq, lastEventTs := d.ts), d.kind);
  }

  /** A replay that is broken off holds the delta that showed the gap, or nothing. */
  lemma {:induction false} ReplayOpens(b: Book, ds: seq<DeltaOp>)
    requires b.synced && b.pending == []
    ensures var b' := Replay(b, ds);
            (b'.pending == [] || (!b'.synced && exists d :: b'.pending == [d] && d in ds && d.seqNo > b'.lastInstrSeq + 1))
    decreases |ds|
  {
    hide ApplyOrRecover;
    if ds != [] {
      DeltaOpens(b, ds[0]);
      var b' := ApplyOrRecover(b, ds[0]).book;
      if b'.synced {
        ReplayOpens(b', ds[1..]);
      } else {
        assert ds[0] in ds;
      }
    }
  }

  lemma EndOpens(b: Book, anchor: u64, sid: u32)
    requires b.synced ==> b.pending == []
    requires b.synced || Installs(b, anchor, sid)
    ensures var b' := OnSnapshotEnd(b, anchor, sid);
            if b'.synced then b'.pending == [] else Opens(b, SnapshotEnd(anchor, sid), b')
  {
    hide Replay, SortByMktSeq, Past;
    if Installs(b, anchor, sid) {
      var kept := Past(b.pending, anchor);
      PastIsWithin(b.pending, anchor);
      SortIsWithin(kept);
      ReplayOpens(Install(b, b.building.value), SortByMktSeq(kept));
    }
  }

  lemma StepOpens(b: Book, e: Event)
    requires b.synced ==> b.pending == []
    requires b.synced || Renews(b, e)
    ensures var b' := Step(b, e); if b'.synced then b'.pending == [] else Opens(b, e, b')
  {
    hide ApplyOrRecover, OnSnapshotEnd, Assemble, Past;
    match e
    case Delta(d) => DeltaOpens(b, d);
    case SnapshotEnd(anchor, sid) => EndOpens(b, anchor, sid);
    case _ =>
  }

  /** While it recovers and nothing begins the buffer anew, a book adds each delta to it, up to the cap. */
  lemma StepBuffersOne(b: Book, e: Event)
    requires !b.synced && !Renews(b, e)
    ensures Step(b, e).pending
            == if e.Delta? && |b.pending| < MAX_PENDING_DELTAS then b.pending + [e.d] else b.pending
    ensures !Step(b, e).synced
  {
    hide Assemble;
  }

  /** A synced book holds nothing back. */
  lemma {:induction false} SyncedHoldsNothing(events: seq<Event>)
    ensures Run(EMPTY_BOOK, events).synced ==> Run(EMPTY_BOOK, events).pending == []
    decreases |events|
  {
    hide Step, Opens;
    if events != [] {
      var before, e := events[..|events| - 1], events[|events| - 1];
      var b := Run(EMPTY_BOOK, before);
      SyncedHoldsNothing(before);
      if b.synced || Renews(b, e) {
        StepOpens(b, e);
      } else {
        StepBuffersOne(b, e);
      }
    }
  }

  lemma BeganEarlier(events: seq<Event>, k: nat)
    requires BeganAt(events, k) && k < |events|
    ensures var before := events[..|events| - 1];
            BeganAt(before, k) && At(before, k) == At(events, k) && before[k..] == events[k..][..|events| - 1 - k]
            && Run(EMPTY_BOOK, before) == At(events, |events| - 1)
  {
    hide Run, Renews;
    var before := events[..|events| - 1];
    forall i: nat | i <= |before|
      ensures At(before, i) == At(events, i)
    {
      assert before[..i] == events[..i];
    }
  }

  /** While a book recovers it holds, in the order they came and up to the cap, the deltas delivered since the
      recovery began. */
  lemma {:induction false} HoldsWhatArrived(events: seq<Event>, k: nat)
    requires BeganAt(events, k)
    ensures Run(EMPTY_BOOK, events).pending == Earliest(Arrived(events, k))
    decreases |events|
  {
    assert k <= |events|;
    hide Step, BeganAt, Renews, Run, At, Arrived;
    if k == |events| {
      HoldsAtFirst(events);
    } else {
      BeganEarlier(events, k);
      HoldsWhatArrived(events[..|events| - 1], k);
      HoldsOneMore(events, k);
    }
  }

  lemma HoldsAtFirst(events: seq<Event>)
    ensures Run(EMPTY_BOOK, events).pending == Earliest(Arrived(events, |events|))
  {
    hide Run, Guarded;
    assert events[..|events|] == events && events[|events|..] == [];
    EveryRunIsGuarded(events);
    FitsBuffer(events);
  }

  lemma HoldsOneMore(events: seq<Event>, k: nat)
    requires BeganAt(events, k) && k < |events|
    requires Run(EMPTY_BOOK, events[..|events| - 1]).pending == Earliest(Arrived(events[..|events| - 1], k))
    ensures Run(EMPTY_BOOK, events).pending == Earliest(Arrived(events, k))
  {
    hide Step, BeganAt, Renews, Run, At, Deltas, Earliest;
    var before, e := events[..|events| - 1], events[|events| - 1];
    var b := Run(EMPTY_BOOK, before);
    BeganEarlier(events, k);
    StillRecovering(events, k);
    StepBuffersOne(b, e);
    assert Run(EMPTY_BOOK, events) == Step(b, e) by {
      RunLastStep(events);
    }
    DeltasOneMore(events[k..]);
    assert events[k..][|events[k..]| - 1] == e;
    OneMoreArrived(At(events, k).pending, Deltas(before[k..]), e);
  }

  lemma RunLastStep(events: seq<Event>)
    requires events != []
    ensures Run(EMPTY_BOOK, events) == Step(Run(EMPTY_BOOK, events[..|events| - 1]), events[|events| - 1])
  {
    hide Step;
  }

  lemma DeltasOneMore(events: seq<Event>)
    requires events != []
    ensures var e := events[|events| - 1];
            Deltas(events) == Deltas(events[..|events| - 1]) + if e.Delta? then [e.d] else []
  {}

  lemma FitsBuffer(events: seq<Event>)
    requires Guarded(Run(EMPTY_BOOK, events))
    ensures |Run(EMPTY_BOOK, events).pending| <= MAX_PENDING_DELTAS
  {}

  lemma StillRecovering(events: seq<Event>, k: nat)
    requires BeganAt(events, k) && k < |events|
    ensures !At(events, |events| - 1).synced && !Renews(At(events, |events| - 1), events[|events| - 1])
  {
    hide Renews, At;
  }

  lemma OneMoreArrived(first: seq<DeltaOp>, ds: seq<DeltaOp>, e: Event)
    ensures var held := Earliest(first + ds);
            Earliest(first + (ds + if e.Delta? then [e.d] else []))
            == if e.Delta? && |held| < MAX_PENDING_DELTAS then held + [e.d] else held
  {
    assert first + (ds + []) == first + ds;
    if e.Delta? {
      assert first + (ds + [e.d]) == (first + ds) + [e.d];
    }
  }

  /** Every recovery began somewhere, with what opened it: so every recovering book's buffer is read off the
      trace. */
  lemma {:induction false} EveryBufferIsRead(events: seq<Event>) returns (k: nat)
    requires !Run(EMPTY_BOOK, events).synced
    ensures BeganAt(events, k)
    ensures Run(EMPTY_BOOK, events).pending == Earliest(Arrived(events, k))
    ensures if k == 0 then At(events, k).pending == []
            else Opens(At(events, k - 1), events[k - 1], At(events, k))
  {
    k := SomeBeginning(events);
    HoldsWhatArrived(events, k);
    if k > 0 {
      AtNext(events, k - 1);
      SyncedHoldsNothing(events[..k - 1]);
      Opened(events, k);
      StepOpens(At(events, k - 1), events[k - 1]);
    }
  }

  lemma Opened(events: seq<Event>, k: nat)
    requires BeganAt(events, k) && k > 0
    ensures (At(events, k - 1).synced || Renews(At(events, k - 1), events[k - 1])) && !At(events, k).synced
  {}

  lemma {:induction false} SomeBeginning(events: seq<Event>) returns (k: nat)
    requires !Run(EMPTY_BOOK, events).synced
    ensures BeganAt(events, k)
    decreases |events|
  {
    hide Step, Renews;
    assert events[..|events|] == events;
    if events == [] {
      k := 0;
    } else {
      var before, e := events[..|events| - 1], events[|events| - 1];
      if At(events, |before|).synced || Renews(At(events, |before|), e) {
        k := |events|;
      } else {
        k := SomeBeginning(before);
        BeganLater(events, k);
      }
    }
  }

  lemma BeganLater(events: seq<Event>, k: nat)
    requires events != [] && BeganAt(events[..|events| - 1], k)
    requires !At(events, |events|).synced && !Renews(At(events, |events| - 1), events[|events| - 1])
    ensures BeganAt(events, k)
  {
    hide Run, Renews;
    var before := events[..|events| - 1];
    forall i: nat | i <= |before|
      ensures At(before, i) == At(events, i)
    {
      assert before[..i] == events[..i];
    }
  }

  // ---- which delta was applied last ----

  /** The book stands where the `i`-th event brought it: at the delta that event delivered, or at the snapshot
      it installed, or at a buffered delta that the install replayed. Since then it has stayed synced, and every
      delta that came was one it had. */
  ghost predicate StandsAt(events: seq<Event>, i: nat) {
    && i < |events|
    && Brought(At(events, i), events[i], Run(EMPTY_BOOK, events))
    && (forall j :: i < j <= |events| ==> Stands(At(events, j), Run(EMPTY_BOOK, events)))
    && (forall j :: i < j < |events| && events[j].Delta? ==> events[j].d.seqNo <= Run(EMPTY_BOOK, events).lastInstrSeq)
  }

  ghost predicate Stands(b: Book, now: Book) {
    b.synced && b.lastInstrSeq == now.lastInstrSeq && b.lastMktSeq == now.lastMktSeq && b.lastEventTs == now.lastEventTs
  }

  /** What the event did to where the book stands. */
  ghost predicate Brought(b: Book, e: Event, now: Book) {
    match e
    case Delta(d) => b.synced && d.seqNo == b.lastInstrSeq + 1 && StandsOn(now, d)
    case SnapshotEnd(anchor, sid) =>
      && Installs(b, anchor, sid)
      && (|| (now.lastInstrSeq == b.building.value.lastInstrSeq && now.lastMktSeq == anchor && now.lastEventTs == b.lastEventTs)
          || exists d :: d in b.pending && anchor < d.mktSeq && b.building.value.lastInstrSeq < d.seqNo && StandsOn(now, d))
    case _ => false
  }

  ghost predicate StandsOn(b: Book, d: DeltaOp) {
    b.lastInstrSeq == d.seqNo && b.lastMktSeq == d.mktSeq && b.lastEventTs == d.ts
  }

  lemma ApplyStands(b: Book, kind: DeltaKind)
    ensures var b' := Apply(b, kind).book; b'.synced ==> Stands(b', b)
  {
    hide LevelAdd, LevelRemove, Remembered, Forgotten;
    match kind
    case Add(id, isBid, price, qty) =>
    case Cancel(id) =>
    case Execute(id, execQty, fullFill) =>
  }

  lemma DeltaStands(b: Book, d: DeltaOp)
    requires b.synced && ApplyOrRecover(b, d).book.synced
    ensures var b' := ApplyOrRecover(b, d).book;
            if d.seqNo <= b.lastInstrSeq then b' == b else d.seqNo == b.lastInstrSeq + 1 && StandsOn(b', d)
  {
    hide Apply;
    ApplyStands(b.(lastInstrSeq := d.seqNo, lastMktSeq := d.mktSeq, lastEventTs := d.ts), d.kind);
  }

  lemma {:induction false} ReplayStands(b: Book, ds: seq<DeltaOp>)
    requires b.synced && Replay(b, ds).synced
    ensures var b' := Replay(b, ds);
            b.lastInstrSeq <= b'.lastInstrSeq
            && (Stands(b, b') || exists d :: d in ds && b.lastInstrSeq < d.seqNo && StandsOn(b', d))
    decreases |ds|
  {
    hide ApplyOrRecover;
    if ds != [] {
      DeltaStands(b, ds[0]);
      var b' := ApplyOrRecover(b, ds[0]).book;
      ReplayStands(b', ds[1..]);
      assert ds[0] in ds;
      assert forall d :: d in ds[1..] ==> d in ds;
    }
  }

  lemma EndStands(b: Book, anchor: u64, sid: u32)
    requires Installs(b, anchor, sid) && OnSnapshotEnd(b, anchor, sid).synced
    ensures Brought(b, SnapshotEnd(anchor, sid), OnSnapshotEnd(b, anchor, sid))
  {
    hide Replay, SortByMktSeq, Past;
    var kept := Past(b.pending, anchor);
    PastIsWithin(b.pending, anchor);
    SortIsWithin(kept);
    ReplayStands(Install(b, b.building.value), SortByMktSeq(kept));
  }

  lemma StepStands(b: Book, e: Event)
    requires Step(b, e).synced
    ensures Brought(b, e, Step(b, e))
            || (Stands(b, Step(b, e)) && (e.Delta? ==> e.d.seqNo <= b.lastInstrSeq))
  {
    hide ApplyOrRecover, Replay, SortByMktSeq, Past, Assemble;
    match e
    case Delta(d) => DeltaStands(b, d);
    case SnapshotEnd(anchor, sid) =>
      if Installs(b, anchor, sid) {
        EndStands(b, anchor, sid);
      }
    case _ =>
  }

  /** Over every run of arbitrary events, a synced book stands at the last delta it applied or at the snapshot
      it installed, in instrument sequence, datagram sequence and time; and no later delta has come. */
  lemma {:induction false} EveryBookStandsSomewhere(events: seq<Event>) returns (i: nat)
    requires Run(EMPTY_BOOK, events).synced
    ensures StandsAt(events, i)
    decreases |events|
  {
    hide Step, Brought, Stands;
    assert events[..|events|] == events;
    var before, e := events[..|events| - 1], events[|events| - 1];
    var b := Run(EMPTY_BOOK, before);
    StepStands(b, e);
    if Brought(b, e, Run(EMPTY_BOOK, events)) {
      i := |events| - 1;
      SelfStands(Run(EMPTY_BOOK, events));
    } else {
      assert Stands(b, Run(EMPTY_BOOK, events));
      SyncedIfStands(b, Run(EMPTY_BOOK, events));
      i := EveryBookStandsSomewhere(before);
      StandsStill(events, i);
    }
  }

  lemma SelfStands(b: Book)
    requires b.synced
    ensures Stands(b, b)
  {}

  lemma SyncedIfStands(b: Book, now: Book)
    requires Stands(b, now)
    ensures b.synced && b.lastInstrSeq == now.lastInstrSeq
  {}

  lemma StandsOnward(b: Book, e: Event, was: Book, now: Book)
    requires Stands(was, now)
    ensures Stands(b, was) ==> Stands(b, now)
    ensures Brought(b, e, was) ==> Brought(b, e, now)
  {
    hide Installs;
  }

  lemma StandsStill(events: seq<Event>, i: nat)
    requires events != [] && StandsAt(events[..|events| - 1], i) && Run(EMPTY_BOOK, events).synced
    requires Stands(Run(EMPTY_BOOK, events[..|events| - 1]), Run(EMPTY_BOOK, events))
    requires events[|events| - 1].Delta? ==> events[|events| - 1].d.seqNo <= Run(EMPTY_BOOK, events[..|events| - 1]).lastInstrSeq
    ensures StandsAt(events, i)
  {
    hide Run, Brought, Stands;
    var before := events[..|events| - 1];
    var was, now := Run(EMPTY_BOOK, before), Run(EMPTY_BOOK, events);
    SyncedIfStands(was, now);
    SameBefore(events, i);
    StandsOnward(At(events, i), events[i], was, now);
    forall j | i < j <= |events|
      ensures Stands(At(events, j), now)
    {
      StandsThen(events, i, j);
    }
  }

  lemma SameBefore(events: seq<Event>, j: nat)
    requires j < |events|
    ensures At(events[..|events| - 1], j) == At(events, j)
  {
    hide Run;
    assert events[..|events| - 1][..j] == events[..j];
  }

  lemma StandsThen(events: seq<Event>, i: nat, j: nat)
    requires events != [] && StandsAt(events[..|events| - 1], i) && i < j <= |events| && Run(EMPTY_BOOK, events).synced
    requires Stands(Run(EMPTY_BOOK, events[..|events| - 1]), Run(EMPTY_BOOK, events))
    ensures Stands(At(events, j), Run(EMPTY_BOOK, events))
  {
    hide Run, Brought, Stands;
    if j < |events| {
      SameBefore(events, j);
      StandsOnward(At(events, j), events[i], Run(EMPTY_BOOK, events[..|events| - 1]), Run(EMPTY_BOOK, events));
    } else {
      assert events[..|events|] == events;
      SelfStands(Run(EMPTY_BOOK, events));
    }
  }

  // ---- a whole snapshot group ----

  /** A message of the snapshot's body: an order of it, or a delta in between. */
  predicate OfBody(e: Event, sid: u32, promised: Orders) {
    e.Delta? || (e.SnapshotOrder? && (e.snapshotId == sid ==> e.id in promised && e.order == promised[e.id]))
  }

  predicate Sends(e: Event, sid: u32, id: u64) {
    e.SnapshotOrder? && e.snapshotId == sid && e.id == id
  }

  /** The body of a snapshot as it arrives: promised orders, none twice, with deltas and other snapshots'
      orders in between. */
  ghost predicate Body(mid: seq<Event>, sid: u32, promised: Orders) {
    && (forall e :: e in mid ==> OfBody(e, sid, promised))
    && (forall i, j, id :: 0 <= i < j < |mid| && Sends(mid[i], sid, id) ==> !Sends(mid[j], sid, id))
  }

  ghost predicate Sent(mid: seq<Event>, sid: u32, id: u64) {
    exists e :: e in mid && Sends(e, sid, id)
  }

  /** Every promised order arrived. */
  ghost predicate Whole(mid: seq<Event>, sid: u32, promised: Orders) {
    forall id :: id in promised ==> Sent(mid, sid, id)
  }

  /** The assembly has counted exactly the orders sent so far. */
  ghost predicate HasTaken(g: Building, mid: seq<Event>, sid: u32, anchor: u64, last: u32, promised: Orders) {
    && g.snapshotId == sid && g.anchor == anchor && g.lastInstrSeq == last && g.total == |promised|
    && Within(g.orders, promised)
    && (forall id :: id in g.orders <==> Sent(mid, sid, id))
    && g.received == |g.orders|
  }

  lemma BodyStep(b: Book, e: Event, sid: u32, promised: Orders)
    requires b.building.Some? && b.building.value.snapshotId == sid && OfBody(e, sid, promised)
    ensures Step(b, e).building
            == if e.SnapshotOrder? && e.snapshotId == sid then Some(Assemble(b.building.value, e.id, e.order)) else b.building
  {
    hide Assemble, Apply;
    if e.Delta? {
      ApplyFrame(b.(lastInstrSeq := e.d.seqNo, lastMktSeq := e.d.mktSeq, lastEventTs := e.d.ts), e.d.kind);
    }
  }

  lemma TakesOne(g: Building, mid: seq<Event>, e: Event, sid: u32, anchor: u64, last: u32, promised: Orders)
    requires HasTaken(g, mid, sid, anchor, last, promised) && |promised| <= MAX_ORDERS_PER_BOOK
    requires OfBody(e, sid, promised) && e.SnapshotOrder? && e.snapshotId == sid && !Sent(mid, sid, e.id)
    ensures HasTaken(Assemble(g, e.id, e.order), mid + [e], sid, anchor, last, promised)
  {
    hide Assemble, Sent, Sends, OfBody, Within;
    IsPromised(e, sid, promised);
    SizeOfWithin(g.orders, promised, e.id);
    AssembleFrame(g, e.id, e.order);
    CountsOne(g.received);
    PutGrows(g.orders, e.id, e.order);
    WithinOneMore(g.orders, promised, e.id);
    SentOneMore(mid, e, sid);
    SendsOnly(e, sid);
  }

  lemma CountsOne(received: u32)
    requires received < MAX_ORDERS_PER_BOOK
    ensures (received + 1) % 0x1_0000_0000 == received + 1
  {}

  lemma IsPromised(e: Event, sid: u32, promised: Orders)
    requires OfBody(e, sid, promised) && e.SnapshotOrder? && e.snapshotId == sid
    ensures e.id in promised && e.order == promised[e.id]
  {}

  lemma SendsOnly(e: Event, sid: u32)
    requires e.SnapshotOrder? && e.snapshotId == sid
    ensures forall id :: Sends(e, sid, id) <==> id == e.id
  {}

  lemma SizeOfWithin(some: Orders, all: Orders, id: u64)
    requires Within(some, all) && id in all && id !in some
    ensures |some| < |all|
  {
    SizeOfSubset(some.Keys + {id}, all.Keys);
  }

  lemma SentOneMore(mid: seq<Event>, e: Event, sid: u32)
    ensures forall id :: Sent(mid + [e], sid, id) <==> Sent(mid, sid, id) || Sends(e, sid, id)
  {
    forall id
      ensures Sent(mid + [e], sid, id) <==> Sent(mid, sid, id) || Sends(e, sid, id)
    {
      assert forall x :: x in mid + [e] <==> x in mid || x == e;
    }
  }

  /** A snapshot that begins ahead of what the book has applied is assembled as it was promised. */
  lemma {:induction false} Assembles(b: Book, sid: u32, anchor: u64, last: u32, promised: Orders, mid: seq<Event>)
    requires |promised| <= MAX_ORDERS_PER_BOOK && Body(mid, sid, promised)
    requires !(b.synced && anchor <= b.lastMktSeq)
    ensures var at := Run(OnSnapshotBegin(b, sid, anchor, |promised|, last), mid);
            at.building.Some? && HasTaken(at.building.value, mid, sid, anchor, last, promised)
    decreases |mid|
  {
    hide Step;
    if mid != [] {
      var before, e := mid[..|mid| - 1], mid[|mid| - 1];
      BodyBefore(mid, sid, promised);
      Assembles(b, sid, anchor, last, promised, before);
      var at := Run(OnSnapshotBegin(b, sid, anchor, |promised|, last), before);
      assert mid == before + [e];
      BodyStep(at, e, sid, promised);
      if e.SnapshotOrder? && e.snapshotId == sid {
        TakesOne(at.building.value, before, e, sid, anchor, last, promised);
      } else {
        SentOneMore(before, e, sid);
      }
    }
  }

  lemma BodyBefore(mid: seq<Event>, sid: u32, promised: Orders)
    requires mid != [] && Body(mid, sid, promised)
    ensures var before, e := mid[..|mid| - 1], mid[|mid| - 1];
            Body(before, sid, promised) && OfBody(e, sid, promised)
            && (e.SnapshotOrder? && e.snapshotId == sid ==> !Sent(before, sid, e.id))
  {
    var before, e := mid[..|mid| - 1], mid[|mid| - 1];
    assert e in mid && forall x :: x in before ==> x in mid;
    if e.SnapshotOrder? && e.snapshotId == sid {
      assert Sends(e, sid, e.id);
      forall i | 0 <= i < |before|
        ensures !Sends(before[i], sid, e.id)
      {
        assert before[i] == mid[i];
      }
    }
  }

  /** The book that a whole snapshot leaves. */
  ghost predicate Installed(b: Book, anchor: u64, last: u32, promised: Orders) {
    && b.synced && b.lastInstrSeq == last && b.lastMktSeq == anchor && b.orders == promised
    && b.building.None? && b.pending == [] && b.removed == {} && b.removedOrder == []
  }

  function Begin(sid: u32, anchor: u64, last: u32, promised: Orders): Event
    requires |promised| <= MAX_ORDERS_PER_BOOK
  {
    SnapshotBegin(sid, anchor, |promised|, last)
  }

  lemma StepBegins(b: Book, sid: u32, anchor: u64, last: u32, promised: Orders)
    requires |promised| <= MAX_ORDERS_PER_BOOK
    ensures Step(b, Begin(sid, anchor, last, promised)) == OnSnapshotBegin(b, sid, anchor, |promised|, last)
    ensures b.synced && anchor <= b.lastMktSeq
            ==> OnSnapshotBegin(b, sid, anchor, |promised|, last) == b.(building := None)
  {}

  /** From any book at all, a snapshot end installs the group before it if and only if it names the same snapshot
      and anchor, every promised order came, and the book was not synced at or past the anchor when it began. */
  lemma GroupInstallsIff(b: Book, sid: u32, anchor: u64, last: u32, promised: Orders, mid: seq<Event>,
                         endSid: u32, endAnchor: u64)
    requires |promised| <= MAX_ORDERS_PER_BOOK && Body(mid, sid, promised)
    ensures var at := Run(b, [Begin(sid, anchor, last, promised)] + mid);
            && (Installs(at, endAnchor, endSid)
                <==> endSid == sid && endAnchor == anchor && Whole(mid, sid, promised) && !(b.synced && anchor <= b.lastMktSeq))
            && (Installs(at, endAnchor, endSid) ==>
                  at.building.value.orders == promised && at.building.value.lastInstrSeq == last)
  {
    hide Step, Body;
    var begin := Begin(sid, anchor, last, promised);
    RunFrom(b, begin, mid);
    StepBegins(b, sid, anchor, last, promised);
    if b.synced && anchor <= b.lastMktSeq {
      BodyHasNoBegin(mid, sid, promised);
      NothingAssembles(b.(building := None), mid);
    } else {
      Assembles(b, sid, anchor, last, promised, mid);
      var g := Run(OnSnapshotBegin(b, sid, anchor, |promised|, last), mid).building.value;
      if Whole(mid, sid, promised) {
        assert g.orders == promised;
      } else if g.received == g.total {
        SubmapOfSameSize(g.orders, promised);
      }
    }
  }

  lemma BodyHasNoBegin(mid: seq<Event>, sid: u32, promised: Orders)
    requires Body(mid, sid, promised)
    ensures forall e :: e in mid ==> !e.SnapshotBegin?
  {}

  /** With nothing buffered past the anchor, the whole group leaves the book synced at `last` with exactly the
      promised orders; unless it came too late, when it leaves no trace; or not whole, when the book recovers. */
  lemma GroupOutcome(b: Book, sid: u32, anchor: u64, last: u32, promised: Orders, mid: seq<Event>)
    requires |promised| <= MAX_ORDERS_PER_BOOK && Body(mid, sid, promised)
    requires Past(Run(b, [Begin(sid, anchor, last, promised)] + mid).pending, anchor) == []
    ensures var b' := Run(b, [Begin(sid, anchor, last, promised)] + mid + [SnapshotEnd(anchor, sid)]);
            if b.synced && anchor <= b.lastMktSeq then b' == Run(b.(building := None), WithoutSnapshots(mid))
            else if Whole(mid, sid, promised) then Installed(b', anchor, last, promised)
            else !b'.synced && b'.building.None?
  {
    hide Body, Whole, Run, Step, OnSnapshotBegin, WithoutSnapshots;
    var begin, end := Begin(sid, anchor, last, promised), SnapshotEnd(anchor, sid);
    var at := Run(b, [begin] + mid);
    GroupInstallsIff(b, sid, anchor, last, promised, mid, sid, anchor);
    RunOneMore(b, [begin] + mid, end);
    StepEnds(at, anchor, sid);
    if b.synced && anchor <= b.lastMktSeq {
      BodyHasNoBegin(mid, sid, promised);
      LateGroup(b, sid, anchor, last, promised, mid);
    } else {
      RunFrom(b, begin, mid);
      StepBegins(b, sid, anchor, last, promised);
      Assembles(b, sid, anchor, last, promised, mid);
      EndOutcome(at, anchor, sid);
    }
  }

  lemma LateGroup(b: Book, sid: u32, anchor: u64, last: u32, promised: Orders, mid: seq<Event>)
    requires |promised| <= MAX_ORDERS_PER_BOOK && b.synced && anchor <= b.lastMktSeq
    requires forall e :: e in mid ==> !e.SnapshotBegin?
    ensures Run(b, [Begin(sid, anchor, last, promised)] + mid + [SnapshotEnd(anchor, sid)])
            == Run(b.(building := None), WithoutSnapshots(mid))
  {
    hide Run;
    var begin, end := Begin(sid, anchor, last, promised), SnapshotEnd(anchor, sid);
    StaleSnapshotIsIgnored(b, sid, anchor, |promised|, last, mid + [end]);
    assert [begin] + mid + [end] == [begin] + (mid + [end]);
    assert (mid + [end])[..|mid|] == mid;
    assert WithoutSnapshots(mid) + [] == WithoutSnapshots(mid);
  }

  lemma EndOutcome(b: Book, anchor: u64, sid: u32)
    requires b.building.Some? && Past(b.pending, anchor) == []
    ensures OnSnapshotEnd(b, anchor, sid)
            == if Installs(b, anchor, sid) then Install(b, b.building.value) else b.(building := None, synced := false)
  {
    assert SortByMktSeq([]) == [];
  }

  // ---- recovery completes, from the messages alone ----

  lemma {:induction false} RunAppends(b: Book, xs: seq<Event>, ys: seq<Event>)
    ensures Run(b, xs + ys) == Run(Run(b, xs), ys)
    decreases |ys|
  {
    hide Step;
    if ys == [] {
      assert xs + ys == xs;
    } else {
      RunAppends(b, xs, ys[..|ys| - 1]);
      assert (xs + ys)[..|xs + ys| - 1] == xs + ys[..|ys| - 1];
    }
  }

  /** The deltas that arrived since the recovery began are within the buffer, in step and in order, and past the
      snapshot's anchor they reach delta `n` without a hole. */
  ghost predicate Reaches(ds: seq<DeltaOp>, anchor: u64, last: u32, n: u32) {
    var kept := Past(ds, anchor);
    |ds| <= MAX_PENDING_DELTAS && FirstInOrder(kept) && InStep(kept) && last <= n && Covers(kept, last, n)
  }

  /** A lossy run that leaves the receiver recovering since event `k`, then a snapshot of which every order
      arrives, deltas in between: if the deltas delivered since `k` reach delta `n`, the snapshot's end leaves
      the receiver synced at `n` on the venue's book. */
  lemma DeliveryCompletesRecovery(v: Venue, ds: seq<Delivery>, k: nat, at: nat, sid: u32, anchor: u64, last: u32, n: u32)
    requires Valid(v) && LegalRun(v, ds) && InRange(Current(v, ds), last)
    requires |After(Current(v, ds), last)| <= MAX_ORDERS_PER_BOOK && FitsUpTo(Current(v, ds), n)
    requires BeganAt(Events(ds), k) && k <= at < |ds|
    requires Events(ds)[at] == Begin(sid, anchor, last, After(Current(v, ds), last))
    requires Body(Events(ds)[at + 1..], sid, After(Current(v, ds), last))
    requires Whole(Events(ds)[at + 1..], sid, After(Current(v, ds), last))
    requires Reaches(Arrived(Events(ds), k), anchor, last, n)
    ensures var b' := Step(Receive(ds), SnapshotEnd(anchor, sid));
            b'.synced && b'.lastInstrSeq == n && InRange(Current(v, ds), n) && b'.orders == After(Current(v, ds), n)
  {
    assert |Events(ds)| == |ds|;
    hide Step, Body, Whole, LegalRun, Valid, Faithful, Covers, FitsUpTo, FirstInOrder, InStep, TrueBook, Past, BeganAt;
    hide Run, Current, Installs, NoneRepeated, After, Events;
    var now, events := Current(v, ds), Events(ds);
    RecoveringAt(events, k, at);
    GroupIsReceived(events, at, sid, anchor, last, After(now, last));
    RunIsFaithful(v, ds);
    HoldsWhatArrived(events, k);
    RecoveryCompletes(now, Receive(ds), anchor, sid, n);
    StepEnds(Receive(ds), anchor, sid);
  }

  /** And exactly when they reach, without a hole, as far as any of them goes. */
  lemma DeliveryRecoversIffNoHole(v: Venue, ds: seq<Delivery>, k: nat, at: nat, sid: u32, anchor: u64, last: u32)
    requires Valid(v) && LegalRun(v, ds) && InRange(Current(v, ds), last)
    requires |After(Current(v, ds), last)| <= MAX_ORDERS_PER_BOOK && forall n: u32 :: FitsUpTo(Current(v, ds), n)
    requires BeganAt(Events(ds), k) && k <= at < |ds|
    requires Events(ds)[at] == Begin(sid, anchor, last, After(Current(v, ds), last))
    requires Body(Events(ds)[at + 1..], sid, After(Current(v, ds), last))
    requires Whole(Events(ds)[at + 1..], sid, After(Current(v, ds), last))
    requires var kept := Past(Earliest(Arrived(Events(ds), k)), anchor); FirstInOrder(kept) && InStep(kept)
    ensures Step(Receive(ds), SnapshotEnd(anchor, sid)).synced
            <==> exists n: u32 :: last <= n && Covers(Past(Earliest(Arrived(Events(ds), k)), anchor), last, n)
  {
    assert |Events(ds)| == |ds|;
    hide Step, Body, Whole, LegalRun, Valid, Faithful, Covers, FitsUpTo, FirstInOrder, InStep, TrueBook, Past, BeganAt;
    hide Run, Current, Installs, NoneRepeated, After, Events;
    var now, events := Current(v, ds), Events(ds);
    RecoveringAt(events, k, at);
    GroupIsReceived(events, at, sid, anchor, last, After(now, last));
    RunIsFaithful(v, ds);
    HoldsWhatArrived(events, k);
    RecoversIffNoHole(now, Receive(ds), anchor, sid);
    StepEnds(Receive(ds), anchor, sid);
  }

  lemma GroupIsReceived(events: seq<Event>, at: nat, sid: u32, anchor: u64, last: u32, promised: Orders)
    requires |promised| <= MAX_ORDERS_PER_BOOK && at < |events| && !At(events, at).synced
    requires events[at] == Begin(sid, anchor, last, promised)
    requires Body(events[at + 1..], sid, promised) && Whole(events[at + 1..], sid, promised)
    ensures var b := Run(EMPTY_BOOK, events);
            Installs(b, anchor, sid) && NoneRepeated(b.building.value) && b.building.value.lastInstrSeq == last
  {
    hide Step, Body, Whole, Run, OnSnapshotBegin;
    var mid, b := events[at + 1..], At(events, at);
    assert events == events[..at] + ([events[at]] + mid);
    RunAppends(EMPTY_BOOK, events[..at], [events[at]] + mid);
    GroupInstallsIff(b, sid, anchor, last, promised, mid, sid, anchor);
    RunFrom(b, events[at], mid);
    StepBegins(b, sid, anchor, last, promised);
    Assembles(b, sid, anchor, last, promised, mid);
  }

  lemma RecoveringAt(events: seq<Event>, k: nat, i: nat)
    requires BeganAt(events, k) && k <= i <= |events|
    ensures !At(events, i).synced
  {}

  lemma StepEnds(b: Book, anchor: u64, sid: u32)
    ensures Step(b, SnapshotEnd(anchor, sid)) == OnSnapshotEnd(b, anchor, sid)
  {}
}
