/**
 What reusing an order id costs. A receiver's guard refuses an id it remembers removing, so a venue that
 adds such an id again leaves a receiver that says it is synced without the order. `BookVenue` proves that
 streams free of this are safe; here it is shown that no other streams are.
 */
module BookReuse {
  import opened Wrappers
  import opened BookModel
  import opened BookGuard
  import opened BookVenue
  import opened BookStrays

  /** The stream's book never outgrows the receiver's cap. */
  ghost predicate Fits(v: Venue) {
    forall n :: 0 <= n <= |v.deltas| ==> FitsAt(v, n)
  }

  /** The snapshot was captured before the first delta. */
  predicate CapturesStart(v: Venue, sid: u32) {
    sid in v.captures && v.captures[sid].last == v.base
  }

  // ---- what a receiver remembers is recent ----

  lemma {:induction false} LaterTakings(v: Venue, from: nat, n: nat)
    requires n <= |v.deltas|
    ensures IsSuffix(TakingsFrom(v, from, n), Takings(v, n))
    decreases n
  {
    hide TakesAway;
    if n > from {
      LaterTakings(v, from, n - 1);
    }
  }

  lemma RememberedIsRecent(v: Venue, sid: u32, n: nat, id: u64)
    requires Captured(v, sid) && n <= |v.deltas| && id in Remembers(v, sid, n)
    ensures id in Remembered(Takings(v, n))
  {
    hide TakingsFrom, Takings, Remembered, IsSuffix;
    var t := TakingsFrom(v, Start(v, sid), n);
    LaterTakings(v, Start(v, sid), n);
    LastOfSuffix(t, Takings(v, n));
    GuardIsRecent(Remembered(t), Takings(v, n), id);
  }

  lemma LastOfSuffix(t: seq<u64>, all: seq<u64>)
    requires IsSuffix(t, all)
    ensures IsSuffix(Remembered(t), all) && |Remembered(t)| <= MAX_REMOVED_ORDERS
  {}

  /** A fresh delta of the stream harms no receiver. */
  lemma FreshIsHarmless(v: Venue, sid: u32, n: nat)
    requires Captured(v, sid) && n < |v.deltas| && FreshAt(v, n)
    ensures HarmlessAt(v, sid, n, v.deltas[n].kind)
  {
    hide Remembered, Takings, Remembers;
    var kind := v.deltas[n].kind;
    if kind.Add? && kind.id in Remembers(v, sid, n) {
      RememberedIsRecent(v, sid, n, kind.id);
    }
  }

  lemma FreshIsAllHarmless(v: Venue)
    requires WellFormed(v) && Fresh(v)
    ensures AllHarmless(v, {})
  {
    hide HarmlessAt, FreshAt, Reachable;
    forall sid: u32, n: nat, d: DeltaOp
      ensures HarmlessTo(v, {}, sid, n, d)
    {
      if Reachable(v, sid, n) && Delivered(v, {}, d) && d.seqNo == v.base + n + 1 {
        ReachableIsCaptured(v, sid, n);
        assert d == v.deltas[n];
        FreshIsHarmless(v, sid, n);
      }
    }
  }

  lemma ReachableIsCaptured(v: Venue, sid: u32, n: nat)
    requires Reachable(v, sid, n)
    ensures Captured(v, sid) && Start(v, sid) <= n <= |v.deltas|
  {}

  // ---- the first reused id does harm ----

  lemma FirstReuse(v: Venue) returns (n: nat)
    requires !Fresh(v)
    ensures n < |v.deltas| && !FreshAt(v, n) && forall i :: 0 <= i < n ==> FreshAt(v, i)
  {
    hide FreshAt;
    n := 0;
    while FreshAt(v, n)
      invariant n < |v.deltas| && exists i :: n <= i < |v.deltas| && !FreshAt(v, i)
      invariant forall i :: 0 <= i < n ==> FreshAt(v, i)
      decreases |v.deltas| - n
    {
      n := n + 1;
    }
  }

  /** A receiver that followed a stream up to an add of an id it remembers does not hold that order, and the
      venue does. */
  lemma ReuseHarms(v: Venue, sid: u32, n: nat, b: Book)
    requires Captured(v, sid) && Start(v, sid) == 0 && n < |v.deltas| && !FreshAt(v, n)
    requires HasFollowed(v, sid, n, b) && Guarded(b)
    ensures !HarmlessAt(v, sid, n, v.deltas[n].kind)
  {
    hide Remembered, TakingsFrom, Guarded;
    GuardIsQueue(b, v.deltas[n].kind.id);
    assert v.deltas[n].kind.id in TrueBook(v, n + 1);
  }

  lemma ReuseIsHarmful(v: Venue, sid: u32)
    requires WellFormed(v) && Fits(v) && CapturesStart(v, sid) && !Fresh(v)
    ensures !AllHarmless(v, {})
  {
    hide FreshAt, HarmlessAt, WellFormed, HasFollowed, Guarded, StrayRun, FitsAt;
    StartIsCaptured(v, sid);
    var n := FirstReuse(v);
    assert Reachable(v, sid, n);
    forall m | 0 <= m < n
      ensures HarmlessAt(v, sid, m, v.deltas[m].kind)
    {
      FreshIsHarmless(v, sid, m);
    }
    var events := CanReach(v, {}, sid, n);
    ReuseHarms(v, sid, n, Run(EMPTY_BOOK, events));
    OwnMayArrive(v, {}, n, EMPTY_BOOK);
    assert !HarmlessTo(v, {}, sid, n, v.deltas[n]);
  }

  lemma StartIsCaptured(v: Venue, sid: u32)
    requires CapturesStart(v, sid)
    ensures Captured(v, sid) && Start(v, sid) == 0
  {}

  /** Safety over every run of drops, duplicates and reorderings holds of exactly those streams that never
      add one of the last 65,536 ids they took away. */
  lemma SafeIffNeverReused(v: Venue, sid: u32)
    requires WellFormed(v) && Fits(v) && CapturesStart(v, sid)
    ensures AlwaysTruthful(v, {}) <==> Fresh(v)
  {
    hide AlwaysTruthful, AllHarmless, Fits, WellFormed, Fresh;
    SafeIffHarmless(v, {});
    if Fresh(v) {
      FreshIsAllHarmless(v);
    } else {
      ReuseIsHarmful(v, sid);
    }
  }

  // ---- one such stream ----

  const REUSING: Venue :=
    Venue(0, map[],
          [DeltaOp(1, 6, 0, Add(7, true, 100, 1)), DeltaOp(2, 7, 0, Cancel(7)), DeltaOp(3, 8, 0, Add(7, true, 100, 1))],
          map[1 := Capture(5, 0)])

  lemma ReusingBooks()
    ensures TrueBook(REUSING, 0) == map[] && TrueBook(REUSING, 1) == map[7 := RestingOrder(true, 100, 1)]
    ensures TrueBook(REUSING, 2) == map[] && TrueBook(REUSING, 3) == map[7 := RestingOrder(true, 100, 1)]
    ensures Takings(REUSING, 0) == [] && Takings(REUSING, 1) == [] && Takings(REUSING, 2) == [7]
  {
    assert TrueBook(REUSING, 0) == map[];
    assert TrueBook(REUSING, 1) == map[7 := RestingOrder(true, 100, 1)];
    assert TrueBook(REUSING, 2) == map[];
    assert Takings(REUSING, 0) == [];
    assert Takings(REUSING, 1) == [];
  }

  lemma ReusingFits()
    ensures WellFormed(REUSING) && Fits(REUSING) && CapturesStart(REUSING, 1)
  {
    hide TrueBook;
    ReusingBooks();
    forall n | 0 <= n <= 3
      ensures FitsAt(REUSING, n)
    {
      assert n == 0 || n == 1 || n == 2 || n == 3;
    }
  }

  lemma OnlyTheThirdIsReused()
    ensures FreshAt(REUSING, 0) && FreshAt(REUSING, 1) && !FreshAt(REUSING, 2)
  {
    hide Takings;
    ReusingBooks();
    assert 7 in Remembered([7]);
  }

  /** An order cancelled and added again under its id rests at the venue and not at the synced receiver. */
  lemma ReusedIdLosesAnOrder()
    ensures var b := Step(Step(EMPTY_BOOK, SnapshotBegin(1, 5, 0, 0)), SnapshotEnd(5, 1));
            var b' := Step(Step(Step(b, Delta(REUSING.deltas[0])), Delta(REUSING.deltas[1])), Delta(REUSING.deltas[2]));
            WellFormed(REUSING) && Fits(REUSING) && !Truthful(REUSING, b')
  {
    hide Step, WellFormed, FreshAt, HasFollowed, HasAssembled, Truthful, HarmlessAt, FitsAt, Guarded;
    ReusingFits();
    OnlyTheThirdIsReused();
    StartIsCaptured(REUSING, 1);
    ReusingBooks();
    var begun := Step(EMPTY_BOOK, SnapshotBegin(1, 5, 0, 0));
    var b := Step(begun, SnapshotEnd(5, 1));
    assert FitsAt(REUSING, 0) && FitsAt(REUSING, 1) && FitsAt(REUSING, 2);
    assert BeginOf(REUSING, 1) == SnapshotBegin(1, 5, 0, 0);
    Begins(REUSING, 1);
    Ends(REUSING, {}, 1, begun);
    EmptyStaysGuarded(begun, b);
    var b1 := Step(b, Delta(REUSING.deltas[0]));
    FreshIsHarmless(REUSING, 1, 0);
    FollowsOne(REUSING, 1, 0, b);
    FreshIsHarmless(REUSING, 1, 1);
    FollowsOne(REUSING, 1, 1, b1);
    var b2 := Step(b1, Delta(REUSING.deltas[1]));
    ReuseHarms(REUSING, 1, 2, b2);
    HarmShows(REUSING, 1, 2, b2, REUSING.deltas[2]);
  }

  lemma EmptyStaysGuarded(begun: Book, b: Book)
    requires begun == Step(EMPTY_BOOK, SnapshotBegin(1, 5, 0, 0)) && b == Step(begun, SnapshotEnd(5, 1))
    ensures Guarded(b)
  {
    hide Step;
    StepGuards(EMPTY_BOOK, SnapshotBegin(1, 5, 0, 0));
    StepGuards(begun, SnapshotEnd(5, 1));
  }
}
