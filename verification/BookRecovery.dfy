/**
 Recovery completes. `BookVenue` shows a synced book is never wrong; this shows that buffering, the
 stable sort and replay bring a recovering book all the way to the newest buffered delta whenever
 nothing between the snapshot and that delta was lost.
 */
module BookRecovery {
  import opened Wrappers
  import opened BookModel
  import opened BookGuard
  import opened BookVenue

  /** Sorted by datagram. */
  ghost predicate ByDatagram(ds: seq<DeltaOp>) {
    forall i, j :: 0 <= i < j < |ds| ==> ds[i].mktSeq <= ds[j].mktSeq
  }

  /** The deltas of one datagram first arrive in their sequence order. Any of them may arrive again, and
      datagrams arrive in any order, as often as they like. */
  ghost predicate FirstInOrder(ds: seq<DeltaOp>) {
    forall j, x :: 0 <= j < |ds| && x in ds ==> Preceded(ds, j, x)
  }

  /** If `x` comes before the delta at `j` in one datagram, it has arrived before it. */
  ghost predicate Preceded(ds: seq<DeltaOp>, j: nat, x: DeltaOp)
    requires j < |ds|
  {
    x.mktSeq == ds[j].mktSeq && x.seqNo < ds[j].seqNo ==> x in ds[..j]
  }

  /** One datagram's deltas of the instrument, in sequence order. */
  ghost predicate IsDatagram(g: seq<DeltaOp>) {
    forall i, j :: 0 <= i < j < |g| ==> g[i].mktSeq == g[j].mktSeq && g[i].seqNo < g[j].seqNo
  }

  /** Datagrams as they arrive: any of them in any order, again and again. */
  ghost predicate AreDatagrams(gs: seq<seq<DeltaOp>>) {
    && (forall g :: g in gs ==> IsDatagram(g))
    && (forall g, h, x, y :: g in gs && h in gs && x in g && y in h && x.mktSeq == y.mktSeq ==> g == h)
  }

  function Flat(gs: seq<seq<DeltaOp>>): seq<DeltaOp>
    decreases |gs|
  {
    if gs == [] then [] else Flat(gs[..|gs| - 1]) + gs[|gs| - 1]
  }

  lemma {:induction false} FlatMember(gs: seq<seq<DeltaOp>>, x: DeltaOp) returns (g: seq<DeltaOp>)
    requires x in Flat(gs)
    ensures g in gs && x in g
    decreases |gs|
  {
    g := gs[|gs| - 1];
    if x !in g {
      g := FlatMember(gs[..|gs| - 1], x);
    }
  }

  lemma {:induction false} FlatHas(gs: seq<seq<DeltaOp>>, g: seq<DeltaOp>, x: DeltaOp)
    requires g in gs && x in g
    ensures x in Flat(gs)
    decreases |gs|
  {
    if g != gs[|gs| - 1] {
      FlatHas(gs[..|gs| - 1], g, x);
    }
  }

  lemma EarlierInDatagram(g: seq<DeltaOp>, x: DeltaOp, m: nat)
    requires IsDatagram(g) && m < |g| && x in g && x.seqNo < g[m].seqNo
    ensures x in g[..m]
  {
    var i :| 0 <= i < |g| && g[i] == x;
    assert i < m;
    assert g[..m][i] == x;
  }

  /** However whole datagrams are reordered and repeated, their deltas first arrive in order. */
  lemma {:induction false} DatagramsArriveInOrder(gs: seq<seq<DeltaOp>>)
    requires AreDatagrams(gs)
    ensures FirstInOrder(Flat(gs))
    decreases |gs|
  {
    if gs != [] {
      var before, g := gs[..|gs| - 1], gs[|gs| - 1];
      var ds := Flat(gs);
      DatagramsArriveInOrder(before);
      forall j, x | 0 <= j < |ds| && x in ds
        ensures Preceded(ds, j, x)
      {
        if x.mktSeq == ds[j].mktSeq && x.seqNo < ds[j].seqNo {
          OneMoreDatagram(gs, j, x);
        }
      }
    }
  }

  lemma OneMoreDatagram(gs: seq<seq<DeltaOp>>, j: nat, x: DeltaOp)
    requires gs != [] && AreDatagrams(gs) && FirstInOrder(Flat(gs[..|gs| - 1]))
    requires j < |Flat(gs)| && x in Flat(gs) && x.mktSeq == Flat(gs)[j].mktSeq && x.seqNo < Flat(gs)[j].seqNo
    ensures x in Flat(gs)[..j]
  {
    hide FirstInOrder, IsDatagram;
    var before, g := gs[..|gs| - 1], gs[|gs| - 1];
    var was := Flat(before);
    var h := FlatMember(gs, x);
    if j < |was| {
      var e := FlatMember(before, was[j]);
      assert e == h;
      FlatHas(before, e, x);
      OrderAt(was, j, x);
      FrontOf(was, g, j);
    } else {
      LastOf(was, g, j);
      assert g == h;
      EarlierInDatagram(g, x, j - |was|);
    }
  }

  lemma FrontOf(was: seq<DeltaOp>, g: seq<DeltaOp>, j: nat)
    requires j < |was|
    ensures (was + g)[j] == was[j] && (was + g)[..j] == was[..j]
  {}

  lemma LastOf(was: seq<DeltaOp>, g: seq<DeltaOp>, j: nat)
    requires |was| <= j < |was| + |g|
    ensures (was + g)[j] == g[j - |was|] && g[j - |was|] in g && (was + g)[..j] == was + g[..j - |was|]
  {}

  /** The venue's datagram sequence never runs backwards along its delta stream. */
  ghost predicate Monotone(v: Venue) {
    forall i, j :: 0 <= i < j < |v.deltas| ==> v.deltas[i].mktSeq <= v.deltas[j].mktSeq
  }

  lemma {:induction false} InsertSplits(sorted: seq<DeltaOp>, d: DeltaOp) returns (k: nat)
    requires ByDatagram(sorted)
    ensures k <= |sorted| && Insert(sorted, d) == sorted[..k] + [d] + sorted[k..]
    ensures forall i :: 0 <= i < k ==> sorted[i].mktSeq <= d.mktSeq
    ensures forall i :: k <= i < |sorted| ==> d.mktSeq < sorted[i].mktSeq
  {
    if sorted == [] || sorted[|sorted| - 1].mktSeq <= d.mktSeq {
      k := |sorted|;
    } else {
      var front := sorted[..|sorted| - 1];
      k := InsertSplits(front, d);
      SplitBeforeLast(sorted, k);
    }
  }

  lemma SplitBeforeLast(ds: seq<DeltaOp>, k: nat)
    requires k < |ds|
    ensures var front := ds[..|ds| - 1];
            ds[k..] == front[k..] + [ds[|ds| - 1]] && ds[..k] == front[..k]
  {}

  lemma OrderAt(ds: seq<DeltaOp>, j: nat, x: DeltaOp)
    requires FirstInOrder(ds) && j < |ds| && x in ds
    ensures Preceded(ds, j, x)
  {}

  lemma PrecededAfterInsert(sorted: seq<DeltaOp>, d: DeltaOp, k: nat, j: nat, x: DeltaOp)
    requires FirstInOrder(sorted) && k <= |sorted| && j <= |sorted| && (x == d || x in sorted)
    requires forall i :: 0 <= i < k ==> sorted[i].mktSeq <= d.mktSeq
    requires forall i :: k <= i < |sorted| ==> d.mktSeq < sorted[i].mktSeq
    requires forall y :: y in sorted && y.mktSeq == d.mktSeq && d.seqNo < y.seqNo ==> d in sorted
    ensures Preceded(sorted[..k] + [d] + sorted[k..], j, x)
  {
    hide FirstInOrder;
    var r := sorted[..k] + [d] + sorted[k..];
    if x.mktSeq == r[j].mktSeq && x.seqNo < r[j].seqNo {
      if j < k {
        assert r[j] == sorted[j] && r[..j] == sorted[..j];
        assert x in sorted;
        OrderAt(sorted, j, x);
      } else if j == k {
        var i :| 0 <= i < |sorted| && sorted[i] == x;
        assert r[..k][i] == x;
      } else {
        assert r[j] == sorted[j - 1];
        assert r[..j] == sorted[..k] + [d] + sorted[k..j - 1];
        OrderAt(sorted, j - 1, x);
        assert sorted[..j - 1] == sorted[..k] + sorted[k..j - 1];
      }
    }
  }

  /** What is inserted after every delta of its datagram keeps first arrivals in order, if whatever it
      should have preceded had come after an earlier copy of it. */
  lemma InsertKeepsOrder(sorted: seq<DeltaOp>, d: DeltaOp)
    requires ByDatagram(sorted) && FirstInOrder(sorted)
    requires forall y :: y in sorted && y.mktSeq == d.mktSeq && d.seqNo < y.seqNo ==> d in sorted
    ensures ByDatagram(Insert(sorted, d)) && FirstInOrder(Insert(sorted, d))
  {
    hide Insert;
    var k := InsertSplits(sorted, d);
    var r := sorted[..k] + [d] + sorted[k..];
    assert |r| == |sorted| + 1;
    forall j, x | 0 <= j < |r| && x in r
      ensures Preceded(r, j, x)
    {
      assert x == d || x in sorted;
      PrecededAfterInsert(sorted, d, k, j, x);
    }
    InsertKeepsDatagrams(sorted, d, k);
  }

  lemma InsertKeepsDatagrams(sorted: seq<DeltaOp>, d: DeltaOp, k: nat)
    requires ByDatagram(sorted) && k <= |sorted|
    requires forall i :: 0 <= i < k ==> sorted[i].mktSeq <= d.mktSeq
    requires forall i :: k <= i < |sorted| ==> d.mktSeq < sorted[i].mktSeq
    ensures ByDatagram(sorted[..k] + [d] + sorted[k..])
  {}

  lemma {:induction false} SortKeepsOrder(ds: seq<DeltaOp>)
    requires FirstInOrder(ds)
    ensures ByDatagram(SortByMktSeq(ds)) && FirstInOrder(SortByMktSeq(ds))
  {
    hide Insert;
    if ds != [] {
      var front, d := ds[..|ds| - 1], ds[|ds| - 1];
      assert ds == front + [d];
      FrontKeepsOrder(ds);
      SortKeepsOrder(front);
      SortIsWithin(front);
      forall y | y in front && y.mktSeq == d.mktSeq && d.seqNo < y.seqNo
        ensures d in front
      {
        var j :| 0 <= j < |front| && front[j] == y;
        assert ds[j] == y && Preceded(ds, j, d);
      }
      InsertKeepsOrder(SortByMktSeq(front), d);
    }
  }

  lemma FrontKeepsOrder(ds: seq<DeltaOp>)
    requires ds != [] && FirstInOrder(ds)
    ensures FirstInOrder(ds[..|ds| - 1])
  {
    var front := ds[..|ds| - 1];
    forall j, x | 0 <= j < |front| && x in front
      ensures Preceded(front, j, x)
    {
      assert front[j] == ds[j] && front[..j] == ds[..j] && x in ds;
      assert Preceded(ds, j, x);
    }
  }

  /** What comes later in the instrument's sequence comes in no earlier datagram. */
  ghost predicate InStep(ds: seq<DeltaOp>) {
    forall x, y :: x in ds && y in ds && x.seqNo <= y.seqNo ==> x.mktSeq <= y.mktSeq
  }

  lemma LaterInSequence(v: Venue, x: DeltaOp, y: DeltaOp)
    requires Monotone(v) && Published(v, x) && Published(v, y) && x.seqNo <= y.seqNo
    ensures x.mktSeq <= y.mktSeq
  {
    assert v.deltas[x.seqNo - v.base - 1] == x && v.deltas[y.seqNo - v.base - 1] == y;
  }

  /** As the deltas of one stream do. */
  lemma PublishedAreInStep(v: Venue, ds: seq<DeltaOp>)
    requires Monotone(v) && AllPublished(v, ds)
    ensures InStep(ds) && AllAgree(v, ds)
  {
    forall x, y | x in ds && y in ds && x.seqNo <= y.seqNo
      ensures x.mktSeq <= y.mktSeq
    {
      LaterInSequence(v, x, y);
    }
    forall d | d in ds
      ensures Agreeing(v, d)
    {
      PublishedAgrees(v, d);
    }
  }

  ghost predicate Holds(ds: seq<DeltaOp>, seqNo: u32) {
    exists d :: d in ds && d.seqNo == seqNo
  }

  /** The buffer holds every delta past `last` up to `n`, and none past `n`. */
  ghost predicate Covers(ds: seq<DeltaOp>, last: u32, n: u32) {
    && (forall q: u32 :: last < q <= n ==> Holds(ds, q))
    && (forall d :: d in ds ==> d.seqNo <= n)
  }

  /** No element runs more than one past `last` and what precedes it. */
  ghost predicate NoneSkips(ds: seq<DeltaOp>, last: u32) {
    forall j, q: u32 :: 0 <= j < |ds| && last < q < ds[j].seqNo ==> Holds(ds[..j], q)
  }

  lemma TailCovers(ds: seq<DeltaOp>, last: u32, n: u32)
    requires ds != [] && Covers(ds, last, n) && ds[0].seqNo <= last
    ensures Covers(ds[1..], last, n)
  {
    forall q: u32 | last < q <= n
      ensures Holds(ds[1..], q)
    {
      assert Holds(ds, q);
      var d :| d in ds && d.seqNo == q;
      assert d in ds[1..];
    }
  }

  lemma HeadIsNoGap(ds: seq<DeltaOp>, last: u32)
    requires ds != [] && NoneSkips(ds, last)
    ensures ds[0].seqNo <= last + 1
  {
    assert !(last + 1 < ds[0].seqNo && Holds(ds[..0], last + 1));
  }

  lemma TailSkipsNone(ds: seq<DeltaOp>, last: u32, next: u32)
    requires ds != [] && NoneSkips(ds, last) && last <= next && ds[0].seqNo <= next
    ensures NoneSkips(ds[1..], next)
  {
    var tail := ds[1..];
    forall j, q: u32 | 0 <= j < |tail| && next < q < tail[j].seqNo
      ensures Holds(tail[..j], q)
    {
      assert tail[j] == ds[j + 1] && ds[..j + 1] == [ds[0]] + tail[..j];
      assert Holds(ds[..j + 1], q);
    }
  }

  ghost predicate FitsUpTo(v: Venue, n: u32) {
    forall q: u32 :: InRange(v, q) && q <= n ==> |After(v, q)| <= MAX_ORDERS_PER_BOOK
  }

  lemma NoGapStaysSynced(v: Venue, b: Book, d: DeltaOp, n: u32)
    requires Valid(v) && Faithful(v, b) && b.synced && Agreeing(v, d) && FitsUpTo(v, n)
    requires d.seqNo <= b.lastInstrSeq + 1 && d.seqNo <= n
    ensures var b' := ApplyOrRecover(b, d).book;
            && Faithful(v, b') && b'.synced
            && b'.lastInstrSeq == if d.seqNo <= b.lastInstrSeq then b.lastInstrSeq else d.seqNo
  {
    hide Apply, Guarded, Agreeing, FreshAt;
    DeltaKeepsFaithful(v, b, d);
    if d.seqNo == b.lastInstrSeq + 1 {
      NextDeltaIsTrue(v, b, d);
    }
  }

  lemma {:induction false} ReplayReaches(v: Venue, b: Book, ds: seq<DeltaOp>, n: u32)
    requires Valid(v) && Faithful(v, b) && b.synced && AllAgree(v, ds) && FitsUpTo(v, n)
    requires NoneSkips(ds, b.lastInstrSeq) && b.lastInstrSeq <= n && Covers(ds, b.lastInstrSeq, n)
    ensures Replay(b, ds).synced && Replay(b, ds).lastInstrSeq == n
    decreases |ds|
  {
    hide ApplyOrRecover, Faithful, NoneSkips, Agreeing, Valid, FitsUpTo;
    if ds == [] {
      assert b.lastInstrSeq < n ==> Holds(ds, n);
    } else {
      assert ds[0] in ds;
      HeadIsNoGap(ds, b.lastInstrSeq);
      NoGapStaysSynced(v, b, ds[0], n);
      var b' := ApplyOrRecover(b, ds[0]).book;
      assert Covers(ds, b'.lastInstrSeq, n);
      TailCovers(ds, b'.lastInstrSeq, n);
      TailSkipsNone(ds, b.lastInstrSeq, b'.lastInstrSeq);
      ReplayReaches(v, b', ds[1..], n);
    }
  }

  /** Sorted by datagram, every delta held that comes before another in sequence stands before it. */
  lemma SortedSkipsNone(sorted: seq<DeltaOp>, last: u32, n: u32)
    requires InStep(sorted) && Covers(sorted, last, n)
    requires ByDatagram(sorted) && FirstInOrder(sorted)
    ensures NoneSkips(sorted, last)
  {
    forall j, q: u32 | 0 <= j < |sorted| && last < q < sorted[j].seqNo
      ensures Holds(sorted[..j], q)
    {
      var y := sorted[j];
      assert y in sorted && Holds(sorted, q);
      var x :| x in sorted && x.seqNo == q;
      assert x.mktSeq <= y.mktSeq;
      if x.mktSeq < y.mktSeq {
        var i :| 0 <= i < |sorted| && sorted[i] == x;
        assert i < j;
        assert sorted[..j][i] == x;
      }
      assert Preceded(sorted, j, x);
      assert x in sorted[..j];
    }
  }

  /** If the deltas buffered past the snapshot reach without a hole to delta `n`, then whatever order
      their datagrams came in, and however often, the snapshot's end leaves the book synced at `n` and
      equal to the venue's. */
  lemma RecoveryCompletes(v: Venue, b: Book, anchor: u64, sid: u32, n: u32)
    requires Valid(v) && Faithful(v, b) && Installs(b, anchor, sid) && NoneRepeated(b.building.value)
    requires FirstInOrder(Past(b.pending, anchor)) && InStep(Past(b.pending, anchor)) && FitsUpTo(v, n)
    requires b.building.value.lastInstrSeq <= n
    requires Covers(Past(b.pending, anchor), b.building.value.lastInstrSeq, n)
    ensures var b' := OnSnapshotEnd(b, anchor, sid);
            b'.synced && b'.lastInstrSeq == n && InRange(v, n) && b'.orders == After(v, n)
  {
    hide Replay, SortByMktSeq, Past, Guarded, NoneSkips, FirstInOrder, ByDatagram, Covers;
    var g := b.building.value;
    var kept := Past(b.pending, anchor);
    InstallIsFaithful(v, b, g);
    PastIsWithin(b.pending, anchor);
    SortKeepsOrder(kept);
    SortIsWithin(kept);
    SameMembersCover(kept, SortByMktSeq(kept), g.lastInstrSeq, n);
    SortedSkipsNone(SortByMktSeq(kept), g.lastInstrSeq, n);
    ReplayReaches(v, Install(b, g), SortByMktSeq(kept), n);
    EndKeepsFaithful(v, b, anchor, sid);
  }

  lemma SameMembersCover(ds: seq<DeltaOp>, sorted: seq<DeltaOp>, last: u32, n: u32)
    requires forall d :: d in ds <==> d in sorted
    requires Covers(ds, last, n)
    ensures Covers(sorted, last, n)
  {
    forall q: u32 | last < q <= n
      ensures Holds(sorted, q)
    {
      assert Holds(ds, q);
      var d :| d in ds && d.seqNo == q;
      assert d in sorted;
    }
  }

  // ---- and only then ----

  lemma ReplayTakesOne(b: Book, d: DeltaOp)
    requires b.synced && ApplyOrRecover(b, d).book.synced
    ensures var b' := ApplyOrRecover(b, d).book;
            d.seqNo <= b'.lastInstrSeq && (b'.lastInstrSeq == b.lastInstrSeq || b'.lastInstrSeq == d.seqNo == b.lastInstrSeq + 1)
  {
    hide Apply;
    ApplyFrame(b.(lastInstrSeq := d.seqNo, lastMktSeq := d.mktSeq, lastEventTs := d.ts), d.kind);
  }

  /** A replay that stays synced met every delta up to where it ended, and none past it. */
  lemma {:induction false} SyncedReplayCovers(b: Book, ds: seq<DeltaOp>)
    requires b.synced && Replay(b, ds).synced
    ensures b.lastInstrSeq <= Replay(b, ds).lastInstrSeq && Covers(ds, b.lastInstrSeq, Replay(b, ds).lastInstrSeq)
    decreases |ds|
  {
    hide ApplyOrRecover;
    if ds != [] {
      var b' := ApplyOrRecover(b, ds[0]).book;
      var n := Replay(b, ds).lastInstrSeq;
      ReplayTakesOne(b, ds[0]);
      SyncedReplayCovers(b', ds[1..]);
      assert ds == [ds[0]] + ds[1..];
      forall q: u32 | b.lastInstrSeq < q <= n
        ensures Holds(ds, q)
      {
        if q == ds[0].seqNo {
          assert ds[0] in ds;
        } else {
          assert Holds(ds[1..], q);
        }
      }
    }
  }

  /** So a snapshot's end leaves the book synced exactly when the deltas buffered past it reach, without a
      hole, as far as any of them goes. */
  lemma RecoversIffNoHole(v: Venue, b: Book, anchor: u64, sid: u32)
    requires Valid(v) && Faithful(v, b) && Installs(b, anchor, sid) && NoneRepeated(b.building.value)
    requires FirstInOrder(Past(b.pending, anchor)) && InStep(Past(b.pending, anchor))
    requires forall n: u32 :: FitsUpTo(v, n)
    ensures OnSnapshotEnd(b, anchor, sid).synced
            <==> exists n: u32 :: b.building.value.lastInstrSeq <= n
                                  && Covers(Past(b.pending, anchor), b.building.value.lastInstrSeq, n)
  {
    hide Replay, SortByMktSeq, Past, Guarded, FirstInOrder, Covers, FitsUpTo, Faithful, Valid, InStep;
    var g := b.building.value;
    var kept := Past(b.pending, anchor);
    var b' := OnSnapshotEnd(b, anchor, sid);
    if b'.synced {
      SortIsWithin(kept);
      SyncedReplayCovers(Install(b, g), SortByMktSeq(kept));
      SameMembersCover(SortByMktSeq(kept), kept, g.lastInstrSeq, b'.lastInstrSeq);
    }
    if n: u32 :| g.lastInstrSeq <= n && Covers(kept, g.lastInstrSeq, n) {
      assert FitsUpTo(v, n);
      RecoveryCompletes(v, b, anchor, sid, n);
    }
  }
}
