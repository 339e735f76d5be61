/**
 One stream giving way to the next. A reset or an end of session clears the receiver, but deltas of the ended
 stream may be buffered or still in flight: exactly when that is safe, and what goes wrong when it is not.
 */
module BookChange {
  import opened Wrappers
  import opened BookModel
  import opened BookGuard
  import opened BookVenue
  import opened BookStrays

  function DeltasOf(v: Venue): set<DeltaOp> {
    set d | d in v.deltas
  }

  predicate IsReset(e: Event) {
    e.InstrumentReset? || e.EndOfSession?
  }

  // ---- what is buffered was delivered ----

  lemma ApplyOrRecoverBuffers(b: Book, d: DeltaOp)
    ensures forall x :: x in ApplyOrRecover(b, d).book.pending ==> x in b.pending || x == d
  {
    hide Apply;
    ApplyFrame(At(b, d), d.kind);
  }

  lemma {:induction false} ReplayBuffers(b: Book, ds: seq<DeltaOp>)
    ensures forall x :: x in Replay(b, ds).pending ==> x in b.pending || x in ds
    decreases |ds|
  {
    hide ApplyOrRecover;
    if ds != [] {
      ApplyOrRecoverBuffers(b, ds[0]);
      var b' := ApplyOrRecover(b, ds[0]).book;
      if b'.synced {
        ReplayBuffers(b', ds[1..]);
        assert ds == [ds[0]] + ds[1..];
      }
    }
  }

  lemma StepBuffers(b: Book, e: Event)
    ensures forall x :: x in Step(b, e).pending ==> x in b.pending || e == Delta(x)
  {
    hide Replay, SortByMktSeq, Past, Assemble, ApplyOrRecover;
    match e
    case Delta(d) => ApplyOrRecoverBuffers(b, d);
    case SnapshotEnd(anchor, sid) =>
      if Installs(b, anchor, sid) {
        PastIsWithin(b.pending, anchor);
        SortIsWithin(Past(b.pending, anchor));
        ReplayBuffers(Install(b, b.building.value), SortByMktSeq(Past(b.pending, anchor)));
      }
    case InstrumentReset(anchor) => PastIsWithin(b.pending, anchor);
    case _ =>
  }

  lemma {:induction false} RunBuffers(v: Venue, strays: set<DeltaOp>, b: Book, events: seq<Event>)
    requires StrayRun(v, strays, b, events) && Buffers(v, strays, b.pending)
    ensures Buffers(v, strays, Run(b, events).pending)
    decreases |events|
  {
    hide Step, Delivered;
    if events != [] {
      var before := events[..|events| - 1];
      RunBuffers(v, strays, b, before);
      StepBuffers(Run(b, before), events[|events| - 1]);
    }
  }

  // ---- when a change of stream is safe ----

  /** Over every run of the old stream, whichever reset ends it, and every run of the next in which the old
      stream's deltas may still arrive, a receiver that says it is synced holds the next stream's book. */
  ghost predicate SafeChange(ended: Venue, next: Venue, strays: set<DeltaOp>) {
    forall past, reset, later ::
      SafeOver(ended, next, strays, past, reset, later)
  }

  ghost predicate SafeOver(ended: Venue, next: Venue, strays: set<DeltaOp>, past: seq<Event>, reset: Event, later: seq<Event>) {
    var cleared := Step(Run(EMPTY_BOOK, past), reset);
    StrayRun(ended, strays, EMPTY_BOOK, past) && IsReset(reset) && StrayRun(next, strays + DeltasOf(ended), cleared, later)
    ==> Truthful(next, Run(cleared, later))
  }

  lemma ResetIsOnNext(ended: Venue, next: Venue, strays: set<DeltaOp>, past: seq<Event>, reset: Event)
    requires StrayRun(ended, strays, EMPTY_BOOK, past) && IsReset(reset)
    ensures OnStream(next, strays + DeltasOf(ended), Step(Run(EMPTY_BOOK, past), reset))
  {
    hide StrayRun, Guarded, Past;
    var b := Run(EMPTY_BOOK, past);
    RunBuffers(ended, strays, EMPTY_BOOK, past);
    EveryRunIsGuarded(past);
    StepGuards(b, reset);
    StepBuffers(b, reset);
    forall d | d in Step(b, reset).pending
      ensures Delivered(next, strays + DeltasOf(ended), d)
    {
      assert Delivered(ended, strays, d);
    }
  }

  /** Safe if and only if no delta of the old stream, and no stray, does harm at a book the next stream brings
      a receiver to. The anchor of the reset does not enter into it. */
  lemma ChangeIsSafeIff(ended: Venue, next: Venue, strays: set<DeltaOp>)
    requires WellFormed(next)
    ensures SafeChange(ended, next, strays) <==> AllHarmless(next, strays + DeltasOf(ended))
  {
    hide StrayRun, OnStream, Truthful, AllHarmless, Step;
    var all := strays + DeltasOf(ended);
    if AllHarmless(next, all) {
      forall past, reset, later
        ensures SafeOver(ended, next, strays, past, reset, later)
      {
        var cleared := Step(Run(EMPTY_BOOK, past), reset);
        if StrayRun(ended, strays, EMPTY_BOOK, past) && IsReset(reset) && StrayRun(next, all, cleared, later) {
          ResetIsOnNext(ended, next, strays, past, reset);
          RunStaysOnStream(next, all, cleared, later);
          OnStreamIsTruthful(next, all, Run(cleared, later));
        }
      }
    }
    if SafeChange(ended, next, strays) {
      EndsAtOnce(ended, strays);
      forall events | StrayRun(next, all, EMPTY_BOOK, events)
        ensures Truthful(next, Run(EMPTY_BOOK, events))
      {
        assert SafeOver(ended, next, strays, [], EndOfSession, events);
      }
      SafeIffHarmless(next, all);
    }
  }

  lemma EndsAtOnce(v: Venue, strays: set<DeltaOp>)
    ensures StrayRun(v, strays, EMPTY_BOOK, []) && Step(Run(EMPTY_BOOK, []), EndOfSession) == EMPTY_BOOK
  {}

  // ---- what a reset forgets ----

  /** Two receivers that differ at most in the sequences they stood at, and only while neither is synced. */
  ghost predicate SameButSequence(b: Book, c: Book) {
    c == b || (!b.synced && c == b.(lastInstrSeq := c.lastInstrSeq, lastMktSeq := c.lastMktSeq))
  }

  lemma StepSameButSequence(b: Book, c: Book, e: Event)
    requires SameButSequence(b, c)
    ensures SameButSequence(Step(b, e), Step(c, e))
  {
    hide Replay, SortByMktSeq, Past, Assemble, ApplyOrRecover;
  }

  lemma {:induction false} RunSameButSequence(b: Book, c: Book, events: seq<Event>)
    requires SameButSequence(b, c)
    ensures SameButSequence(Run(b, events), Run(c, events))
    decreases |events|
  {
    hide Step, SameButSequence;
    if events != [] {
      RunSameButSequence(b, c, events[..|events| - 1]);
      StepSameButSequence(Run(b, events[..|events| - 1]), Run(c, events[..|events| - 1]), events[|events| - 1]);
    }
  }

  /** A reset forgets: whatever two receivers held and whatever time and removals they remembered, if it keeps the same
      deltas of both they are the same book from then on over every run, but for the sequences they stood at until
      they sync again; and an end of session forgets those and the deltas too. */
  lemma ResetForgets(b: Book, c: Book, reset: Event, later: seq<Event>)
    requires IsReset(reset) && (reset.InstrumentReset? ==> Past(b.pending, reset.anchor) == Past(c.pending, reset.anchor))
    ensures SameButSequence(Run(Step(b, reset), later), Run(Step(c, reset), later))
    ensures Run(Step(b, reset), later).synced ==> Run(Step(b, reset), later) == Run(Step(c, reset), later)
    ensures reset.EndOfSession? ==> Run(Step(b, reset), later) == Run(EMPTY_BOOK, later)
  {
    hide Past, Run;
    RunSameButSequence(Step(b, reset), Step(c, reset), later);
  }

  // ---- and what goes wrong otherwise ----

  const OLD_ADD: DeltaOp := DeltaOp(1, 10, 0, Add(7, true, 100, 1))

  /** A stream that restarted from nothing, and whose first deltas change nothing. */
  const RESTARTED: Venue :=
    Venue(0, map[], [DeltaOp(1, 21, 0, Cancel(9)), DeltaOp(2, 22, 0, Cancel(9))], map[1 := Capture(5, 0), 2 := Capture(20, 0)])

  lemma RestartedIsEmpty()
    ensures Valid(RESTARTED) && After(RESTARTED, 0) == map[] && After(RESTARTED, 1) == map[] && After(RESTARTED, 2) == map[]
  {
    assert TrueBook(RESTARTED, 0) == map[];
    assert TrueBook(RESTARTED, 1) == map[];
  }

  lemma OneBuffered(d: DeltaOp, anchor: u64)
    requires d.mktSeq > anchor
    ensures Past([d], anchor) == [d] && SortByMktSeq([d]) == [d]
  {
    assert [d][1..] == [] && [d][..0] == [];
    assert SortByMktSeq([d][..0]) == [] && Past([d][1..], anchor) == [];
  }

  lemma ReplayOne(b: Book, d: DeltaOp)
    ensures Replay(b, [d]) == ApplyOrRecover(b, d).book
  {
    hide ApplyOrRecover;
    assert [d][1..] == [];
  }

  /** An empty snapshot, sent and ended. */
  function EmptySnapshot(b: Book, sid: u32, anchor: u64, last: u32): Book {
    Step(Step(b, SnapshotBegin(sid, anchor, 0, last)), SnapshotEnd(anchor, sid))
  }

  lemma SnapshotEmpties(b: Book, sid: u32, anchor: u64, last: u32)
    requires !b.synced && b.pending == []
    ensures EmptySnapshot(b, sid, anchor, last) == Book(map[], map[], map[], true, last, anchor, None, [], {}, [], b.lastEventTs)
  {
    assert Past([], anchor) == [] && SortByMktSeq([]) == [];
  }

  lemma AddRests(b: Book, d: DeltaOp)
    requires b.synced && b.orders == map[] && b.removed == {} && d.kind.Add? && d.seqNo == b.lastInstrSeq + 1
    ensures var b' := Step(b, Delta(d)); b'.synced && b'.lastInstrSeq == d.seqNo && b'.orders.Keys == {d.kind.id}
  {
    hide LevelAdd;
  }

  /** A snapshot installed over one buffered delta replays it. */
  lemma SnapshotReplays(b: Book)
    requires !b.synced && b.pending == [OLD_ADD]
    ensures var b' := EmptySnapshot(b, 1, 5, 0); b'.synced && b'.lastInstrSeq == 1 && 7 in b'.orders
  {
    hide Replay, SortByMktSeq, Past, ApplyOrRecover;
    OneBuffered(OLD_ADD, 5);
    var b1 := Step(b, SnapshotBegin(1, 5, 0, 0));
    var b2 := Install(b1, b1.building.value);
    ReplayOne(b2, OLD_ADD);
    AddRests(b2, OLD_ADD);
  }

  /** A delta of the ended session, still in flight at its end, is buffered and replayed on the next. */
  lemma LateDeltaAfterEndOfSession()
    ensures var b := Step(Step(EMPTY_BOOK, EndOfSession), Delta(OLD_ADD));
            Valid(RESTARTED) && !Truthful(RESTARTED, EmptySnapshot(b, 1, 5, 0))
  {
    hide EmptySnapshot, After, Valid;
    RestartedIsEmpty();
    var b := Step(Step(EMPTY_BOOK, EndOfSession), Delta(OLD_ADD));
    assert b.pending == [OLD_ADD];
    SnapshotReplays(b);
  }

  /** So is one that an instrument reset keeps. */
  lemma ForeignDeltaInstallsAWrongBook()
    ensures var b := Step(Step(EMPTY_BOOK, Delta(OLD_ADD)), InstrumentReset(4));
            Valid(RESTARTED) && !Truthful(RESTARTED, EmptySnapshot(b, 1, 5, 0))
  {
    hide EmptySnapshot, After, Valid, Past;
    RestartedIsEmpty();
    OneBuffered(OLD_ADD, 4);
    assert EMPTY_BOOK.pending + [OLD_ADD] == [OLD_ADD];
    SnapshotReplays(Step(Step(EMPTY_BOOK, Delta(OLD_ADD)), InstrumentReset(4)));
  }

  /** One that comes after the reset and the snapshot is applied, though it lies at the reset's anchor. */
  lemma LateDeltaAfterReset()
    ensures var b := EmptySnapshot(Step(EMPTY_BOOK, InstrumentReset(10)), 2, 20, 0);
            Valid(RESTARTED) && OLD_ADD.mktSeq <= 10 && !Truthful(RESTARTED, Step(b, Delta(OLD_ADD)))
  {
    hide EmptySnapshot, After, Valid, ApplyOrRecover;
    RestartedIsEmpty();
    assert Past([], 10) == [];
    SnapshotEmpties(Step(EMPTY_BOOK, InstrumentReset(10)), 2, 20, 0);
    AddRests(EmptySnapshot(Step(EMPTY_BOOK, InstrumentReset(10)), 2, 20, 0), OLD_ADD);
  }

  /** A receiver that misses the end of a session takes the next stream's delta for the old stream's. */
  lemma LostReset()
    ensures var b := Step(EmptySnapshot(EMPTY_BOOK, 1, 5, 0), Delta(OLD_ADD));
            Valid(RESTARTED) && Published(RESTARTED, RESTARTED.deltas[1])
            && !Truthful(RESTARTED, Step(b, Delta(RESTARTED.deltas[1])))
  {
    hide EmptySnapshot, After, Valid, LevelAdd;
    RestartedIsEmpty();
    SnapshotEmpties(EMPTY_BOOK, 1, 5, 0);
    AddRests(EmptySnapshot(EMPTY_BOOK, 1, 5, 0), OLD_ADD);
    var b := Step(EmptySnapshot(EMPTY_BOOK, 1, 5, 0), Delta(OLD_ADD));
    assert b.orders.Keys == {7};
    assert Step(b, Delta(RESTARTED.deltas[1])).orders == b.orders;
  }

  /** And a snapshot of the ended stream that comes late installs its book. */
  lemma LateSnapshot()
    ensures Valid(RESTARTED) && !Truthful(RESTARTED, EmptySnapshot(Step(EMPTY_BOOK, EndOfSession), 1, 5, 3))
  {
    hide EmptySnapshot, After, Valid;
    RestartedIsEmpty();
    SnapshotEmpties(Step(EMPTY_BOOK, EndOfSession), 1, 5, 3);
  }
}
