/**
 What folding one logical event forgets, and what `baselined` therefore means; and that the way an
 event is cut into batches does not matter.
 */
module AccumulatorFold {
  import opened Wrappers
  import opened Collections
  import opened AccumulatorModel

  predicate Clears(c: Change, isBid: bool) {
    c.action.Clear? && (c.side.Both? || c.side == SideOf(isBid))
  }

  /** The event clears this side somewhere, in any position. */
  predicate ClearsSide(cs: seq<Change>, isBid: bool) {
    exists i :: 0 <= i < |cs| && Clears(cs[i], isBid)
  }

  predicate Covers(cs: seq<Change>) {
    ClearsSide(cs, true) && ClearsSide(cs, false)
  }

  predicate Cleared(f: Folding, isBid: bool) {
    if isBid then f.clearedBid else f.clearedAsk
  }

  lemma OneClears(f: Folding, c: Change, isBid: bool)
    ensures Cleared(FoldOne(f, c), isBid) <==> Cleared(f, isBid) || Clears(c, isBid)
  {}

  lemma {:induction false} FlagsSayWhatCleared(f: Folding, cs: seq<Change>, isBid: bool)
    ensures Cleared(FoldAll(f, cs), isBid) <==> Cleared(f, isBid) || ClearsSide(cs, isBid)
    decreases |cs|
  {
    hide FoldOne, Clears;
    if cs != [] {
      var front, c := cs[..|cs| - 1], cs[|cs| - 1];
      FlagsSayWhatCleared(f, front, isBid);
      OneClears(FoldAll(f, front), c, isBid);
      if ClearsSide(front, isBid) {
        var i :| 0 <= i < |front| && Clears(front[i], isBid);
        assert cs[i] == front[i];
      }
      if ClearsSide(cs, isBid) {
        var i :| 0 <= i < |cs| && Clears(cs[i], isBid);
        assert i < |front| ==> front[i] == cs[i];
      }
    }
  }

  // ---- a re-baseline forgets the past ----

  /** Every order of `a` on this side rests in `b` too. */
  ghost predicate SideWithin(a: map<nat, Order>, b: map<nat, Order>, isBid: bool) {
    forall id :: id in a && a[id].isBid == isBid ==> id in b && b[id] == a[id]
  }

  ghost predicate SameOrdersOn(a: map<nat, Order>, b: map<nat, Order>, isBid: bool) {
    SideWithin(a, b, isBid) && SideWithin(b, a, isBid)
  }

  function LevelsOn(r: Resting, isBid: bool): map<int, Quote> {
    if isBid then r.bids else r.asks
  }

  ghost predicate SameSide(x: Resting, y: Resting, isBid: bool) {
    LevelsOn(x, isBid) == LevelsOn(y, isBid) && SameOrdersOn(x.orders, y.orders, isBid)
  }

  /** Two folds of the same event agree on every side the event has cleared so far. */
  ghost predicate InStep(f: Folding, g: Folding, isBid: bool) {
    Cleared(f, isBid) == Cleared(g, isBid) && (Cleared(f, isBid) ==> SameSide(f.rest, g.rest, isBid))
  }

  lemma ClearKeepsStep(f: Folding, g: Folding, side: Side, isBid: bool)
    requires InStep(f, g, isBid)
    ensures InStep(ClearSide(f, side), ClearSide(g, side), isBid)
  {}

  lemma RemoveKeepsStep(f: Folding, g: Folding, id: nat, isBid: bool)
    requires InStep(f, g, isBid)
    ensures InStep(WithOrders(f, f.rest.orders - {id}), WithOrders(g, g.rest.orders - {id}), isBid)
  {}

  lemma PutKeepsStep(f: Folding, g: Folding, id: nat, o: Order, isBid: bool)
    requires InStep(f, g, isBid)
    ensures InStep(WithOrders(f, f.rest.orders[id := o]), WithOrders(g, g.rest.orders[id := o]), isBid)
  {}

  lemma OrderKeepsStep(f: Folding, g: Folding, c: Change, isBid: bool)
    requires InStep(f, g, isBid)
    ensures InStep(FoldOrder(f, c), FoldOrder(g, c), isBid)
  {
    hide PriceKey, InStep, ClearSide, WithOrders;
    match c.action
    case Clear => ClearKeepsStep(f, g, c.side, isBid);
    case Delete => RemoveKeepsStep(f, g, c.orderId, isBid);
    case Update =>
      RemoveKeepsStep(f, g, c.orderId, isBid);
      PutKeepsStep(f, g, c.orderId, Order(c.side.Bid?, PriceKey(c.price), c.price, c.size), isBid);
  }

  function WithSide(f: Folding, isBid: bool, levels: map<int, Quote>): Folding {
    f.(rest := if isBid then f.rest.(bids := levels) else f.rest.(asks := levels))
  }

  lemma PutLevelKeepsStep(f: Folding, g: Folding, side: bool, key: int, q: Quote, isBid: bool)
    requires InStep(f, g, isBid)
    ensures InStep(WithSide(f, side, LevelsOn(f.rest, side)[key := q]),
                   WithSide(g, side, LevelsOn(g.rest, side)[key := q]), isBid)
  {
    hide SameOrdersOn;
  }

  lemma DropLevelKeepsStep(f: Folding, g: Folding, side: bool, key: int, isBid: bool)
    requires InStep(f, g, isBid)
    ensures InStep(WithSide(f, side, LevelsOn(f.rest, side) - {key}),
                   WithSide(g, side, LevelsOn(g.rest, side) - {key}), isBid)
  {
    hide SameOrdersOn;
  }

  lemma LevelKeepsStep(f: Folding, g: Folding, c: Change, isBid: bool)
    requires InStep(f, g, isBid)
    ensures InStep(FoldLevel(f, c), FoldLevel(g, c), isBid)
  {
    hide PriceKey, InStep, ClearSide;
    var side, key := c.side.Bid?, PriceKey(c.price);
    match c.action
    case Clear => ClearKeepsStep(f, g, c.side, isBid);
    case Delete => DropLevelKeepsStep(f, g, side, key, isBid);
    case Update => PutLevelKeepsStep(f, g, side, key, Quote(c.price, c.size), isBid);
  }

  lemma {:induction false} FoldKeepsStep(f: Folding, g: Folding, cs: seq<Change>, isBid: bool)
    requires InStep(f, g, isBid)
    ensures InStep(FoldAll(f, cs), FoldAll(g, cs), isBid)
    decreases |cs|
  {
    hide FoldOrder, FoldLevel, InStep;
    if cs != [] {
      var front, c := cs[..|cs| - 1], cs[|cs| - 1];
      FoldKeepsStep(f, g, front, isBid);
      OrderKeepsStep(FoldAll(f, front), FoldAll(g, front), c, isBid);
      LevelKeepsStep(FoldAll(f, front), FoldAll(g, front), c, isBid);
    }
  }

  lemma BothSidesIsAll(x: Resting, y: Resting)
    requires SameSide(x, y, true) && SameSide(x, y, false)
    ensures x == y
  {
    assert x.orders == y.orders;
  }

  /** What an event leaves resting. */
  function After(rest: Resting, cs: seq<Change>): Resting {
    Capped(FoldEvent(rest, false, cs).rest)
  }

  /** Whether a market was known to be order-level does not bear on what rests. */
  lemma {:induction false} OrderLevelIsApart(f: Folding, g: Folding, cs: seq<Change>)
    requires g == f.(orderLevel := g.orderLevel)
    ensures FoldAll(g, cs) == FoldAll(f, cs).(orderLevel := FoldAll(g, cs).orderLevel)
    decreases |cs|
  {
    hide PriceKey, ClearSide;
    if cs != [] {
      OrderLevelIsApart(f, g, cs[..|cs| - 1]);
      OneIsApart(FoldAll(f, cs[..|cs| - 1]), FoldAll(g, cs[..|cs| - 1]), cs[|cs| - 1]);
    }
  }

  lemma OneIsApart(f: Folding, g: Folding, c: Change)
    requires g == f.(orderLevel := g.orderLevel)
    ensures FoldOne(g, c) == FoldOne(f, c).(orderLevel := FoldOne(g, c).orderLevel)
  {
    hide PriceKey;
  }

  lemma CoveringEventForgets(x: Resting, y: Resting, cs: seq<Change>)
    requires Covers(cs)
    ensures FoldEvent(x, false, cs).rest == FoldEvent(y, false, cs).rest
    ensures After(x, cs) == After(y, cs)
  {
    var f, g := Folding(x, false, false, false), Folding(y, false, false, false);
    FoldKeepsStep(f, g, cs, true);
    FoldKeepsStep(f, g, cs, false);
    FlagsSayWhatCleared(f, cs, true);
    FlagsSayWhatCleared(f, cs, false);
    BothSidesIsAll(FoldAll(f, cs).rest, FoldAll(g, cs).rest);
  }

  // ---- and only a re-baseline does ----

  ghost predicate KeyedByPrice(levels: map<int, Quote>) {
    forall k :: k in levels ==> PriceKey(levels[k].price) == k
  }

  ghost predicate SoundOrders(orders: map<nat, Order>) {
    forall id :: id in orders ==> id != 0 && orders[id].size != 0.0 && PriceKey(orders[id].price) == orders[id].key
  }

  /** What can rest: levels under the keys of their prices, and orders of some size under theirs. */
  ghost predicate SoundRest(r: Resting) {
    KeyedByPrice(r.bids) && KeyedByPrice(r.asks) && SoundOrders(r.orders)
  }

  function KeysOf(cs: seq<Change>): set<int> {
    set i | 0 <= i < |cs| :: PriceKey(cs[i].price)
  }

  lemma {:induction false} KeysAreFew(cs: seq<Change>)
    ensures |KeysOf(cs)| <= |cs|
    decreases |cs|
  {
    hide PriceKey;
    if cs != [] {
      var front, last := cs[..|cs| - 1], PriceKey(cs[|cs| - 1].price);
      KeysAreFew(front);
      assert KeysOf(cs) == KeysOf(front) + {last};
    }
  }

  function UpTo(n: nat): set<int> {
    if n == 0 then {} else UpTo(n - 1) + {n - 1}
  }

  lemma {:induction false} UpToSize(n: nat)
    ensures |UpTo(n)| == n && forall k :: k in UpTo(n) ==> 0 <= k < n
  {
    if n > 0 {
      UpToSize(n - 1);
    }
  }

  lemma LargerHasMore(large: set<int>, small: set<int>) returns (k: int)
    requires |large| > |small|
    ensures k in large && k !in small
  {
    if forall k :: k in large ==> k in small {
      SizeOfSubset(large, small);
    }
    k :| k in large && k !in small;
  }

  /** A price key no change of the event has. */
  lemma UnusedKey(cs: seq<Change>) returns (key: nat)
    ensures key <= |cs| && key !in KeysOf(cs)
  {
    hide KeysOf, UpTo;
    KeysAreFew(cs);
    UpToSize(|cs| + 1);
    key := LargerHasMore(UpTo(|cs| + 1), KeysOf(cs));
  }

  function PriceOf(key: nat): real {
    key as real / 100000000.0
  }

  lemma KeyOfPrice(key: nat)
    requires key <= I128_MAX
    ensures PriceKey(PriceOf(key)) == key
  {
    assert PriceOf(key) * 100000000.0 == key as real;
    assert (key as real + 0.5).Floor == key;
  }

  /** A state holding one level on one side and nothing else. */
  function Lone(isBid: bool, key: nat): Resting {
    var levels := map[key := Quote(PriceOf(key), 1.0)];
    if isBid then Resting(levels, map[], map[]) else Resting(map[], levels, map[])
  }

  lemma LoneIsSound(isBid: bool, key: nat)
    requires key <= I128_MAX
    ensures SoundRest(Lone(isBid, key)) && SoundRest(EMPTY)
  {
    hide PriceKey, PriceOf;
    KeyOfPrice(key);
  }

  lemma OneKeepsFreshLevel(f: Folding, c: Change, isBid: bool, key: int)
    requires PriceKey(c.price) != key && !Clears(c, isBid)
    ensures key in LevelsOn(FoldOne(f, c).rest, isBid) <==> key in LevelsOn(f.rest, isBid)
  {
    hide PriceKey, OrdersOn;
  }

  lemma {:induction false} FreshLevelSurvives(f: Folding, cs: seq<Change>, isBid: bool, key: int)
    requires forall i :: 0 <= i < |cs| ==> PriceKey(cs[i].price) != key
    requires !ClearsSide(cs, isBid)
    ensures key in LevelsOn(FoldAll(f, cs).rest, isBid) <==> key in LevelsOn(f.rest, isBid)
    decreases |cs|
  {
    hide PriceKey, FoldOne;
    if cs != [] {
      var front := cs[..|cs| - 1];
      assert forall i :: 0 <= i < |front| ==> front[i] == cs[i];
      FreshLevelSurvives(f, front, isBid, key);
      OneKeepsFreshLevel(FoldAll(f, front), cs[|cs| - 1], isBid, key);
    }
  }

  lemma UnclearedSideRemembers(cs: seq<Change>, isBid: bool) returns (key: nat)
    requires !ClearsSide(cs, isBid)
    ensures key <= |cs| && After(Lone(isBid, key), cs) != After(EMPTY, cs)
  {
    hide PriceKey, PriceOf;
    key := UnusedKey(cs);
    assert forall i :: 0 <= i < |cs| ==> PriceKey(cs[i].price) != key by {
      forall i | 0 <= i < |cs|
        ensures PriceKey(cs[i].price) in KeysOf(cs)
      {}
    }
    FreshLevelSurvives(Folding(Lone(isBid, key), false, false, false), cs, isBid, key);
    FreshLevelSurvives(Folding(EMPTY, false, false, false), cs, isBid, key);
  }

  /** The event leaves the same state resting whatever sound state it is folded into. */
  ghost predicate Forgets(cs: seq<Change>) {
    forall x, y :: SoundRest(x) && SoundRest(y) ==> After(x, cs) == After(y, cs)
  }

  /** An event leaves the same state resting from every prior state an accumulator can rest exactly when it
      clears both sides, whatever else it holds and in whatever order. (An event of more than 2^127 changes
      could instead delete a level at every price key there is.) */
  lemma RebaselineForgetsIff(cs: seq<Change>)
    requires |cs| <= I128_MAX
    ensures Covers(cs) <==> Forgets(cs)
  {
    hide After, SoundRest, Lone;
    if Covers(cs) {
      forall x, y
        ensures After(x, cs) == After(y, cs)
      {
        CoveringEventForgets(x, y, cs);
      }
    } else {
      var isBid := !ClearsSide(cs, true);
      var key := UnclearedSideRemembers(cs, isBid);
      LoneIsSound(isBid, key);
    }
  }

  // ---- what `baselined` means ----

  /** The two accumulators buffer the same changes and, once re-baselined, rest the same book. */
  ghost predicate SameOnceBaselined(a: Acc, b: Acc) {
    && a.pending == b.pending
    && a.baselined == b.baselined
    && (a.baselined ==> a.rest == b.rest)
  }

  lemma FoldEventIsApart(rest: Resting, orderLevel: bool, cs: seq<Change>)
    ensures var f, g := FoldEvent(rest, false, cs), FoldEvent(rest, orderLevel, cs);
            g.rest == f.rest && g.clearedBid == f.clearedBid && g.clearedAsk == f.clearedAsk
  {
    OrderLevelIsApart(Folding(rest, false, false, false), Folding(rest, orderLevel, false, false), cs);
  }

  lemma EventFlags(rest: Resting, orderLevel: bool, cs: seq<Change>)
    ensures var f := FoldEvent(rest, orderLevel, cs); (f.clearedBid && f.clearedAsk) <==> Covers(cs)
  {
    var f := Folding(rest, orderLevel, false, false);
    FlagsSayWhatCleared(f, cs, true);
    FlagsSayWhatCleared(f, cs, false);
  }

  lemma CommitKeepsBaselineMeaning(a: Acc, b: Acc, named: bool)
    requires SameOnceBaselined(a, b)
    ensures SameOnceBaselined(Commit(a, named), Commit(b, named))
  {
    hide FoldEvent, Covers;
    FoldEventIsApart(a.rest, a.orderLevel, a.pending);
    FoldEventIsApart(b.rest, b.orderLevel, b.pending);
    EventFlags(a.rest, a.orderLevel, a.pending);
    EventFlags(b.rest, b.orderLevel, b.pending);
    if Covers(a.pending) {
      CoveringEventForgets(a.rest, b.rest, a.pending);
    }
  }

  lemma ApplyKeepsBaselineMeaning(a: Acc, b: Acc, batch: Batch)
    requires SameOnceBaselined(a, b)
    ensures SameOnceBaselined(Apply(a, batch), Apply(b, batch))
  {
    hide Commit, Kept;
    CommitKeepsBaselineMeaning(Buffer(a, batch), Buffer(b, batch), batch.batchId.Some?);
  }

  /** `baselined` says the levels are the market's whole book: from whatever books two accumulators
      start, not yet baselined, the same feed baselines both at once and from then on they rest exactly
      the same book, so nothing unseen before the feed began is missing from it. */
  lemma {:induction false} BaselinedMeansWhole(a: Acc, b: Acc, feed: seq<Batch>)
    requires !a.baselined && !b.baselined && a.pending == b.pending
    ensures var x, y := Run(a, feed), Run(b, feed);
            x.baselined == y.baselined && x.pending == y.pending && (x.baselined ==> x.rest == y.rest)
    decreases |feed|
  {
    hide Apply;
    if feed != [] {
      BaselinedMeansWhole(a, b, feed[..|feed| - 1]);
      ApplyKeepsBaselineMeaning(Run(a, feed[..|feed| - 1]), Run(b, feed[..|feed| - 1]), feed[|feed| - 1]);
    }
  }

  // ---- batching does not matter ----

  /** The changes of the batches, end to end. */
  function Changes(bs: seq<Batch>): seq<Change>
    decreases |bs|
  {
    if bs == [] then [] else Changes(bs[..|bs| - 1]) + bs[|bs| - 1].changes
  }

  lemma {:induction false} KeptOfBoth(xs: seq<Change>, ys: seq<Change>)
    ensures Kept(xs + ys) == Kept(xs) + Kept(ys)
    decreases |ys|
  {
    if ys == [] {
      assert xs + ys == xs;
    } else {
      var front := ys[..|ys| - 1];
      assert (xs + ys)[..|xs + ys| - 1] == xs + front;
      KeptOfBoth(xs, front);
    }
  }

  /** None of the batches closes the event, and the buffer stays within its cap after each. */
  ghost predicate Buffers(a: Acc, bs: seq<Batch>) {
    && (forall i :: 0 <= i < |bs| ==> !bs[i].last)
    && (forall n :: 0 < n <= |bs| ==> FitsAfter(a, bs, n))
  }

  /** The buffer is within its cap after the first `n` batches. */
  predicate FitsAfter(a: Acc, bs: seq<Batch>, n: nat)
    requires n <= |bs|
  {
    |a.pending + Kept(Changes(bs[..n]))| <= MAX_PENDING_CHANGES
  }

  lemma NothingKept()
    ensures Changes([]) == [] && Kept([]) == []
  {}

  lemma OpenBatchOnlyBuffers(a: Acc, b: Batch)
    requires !b.last && |a.pending + Kept(b.changes)| <= MAX_PENDING_CHANGES
    ensures Apply(a, b) == Buffer(a, b)
  {
    hide Kept, Commit;
  }

  /** Before the closing batch nothing resting moves. */
  lemma {:induction false} OpenEventRestsNothing(a: Acc, bs: seq<Batch>)
    requires Buffers(a, bs)
    ensures var x := Run(a, bs);
            && x.rest == a.rest && x.baselined == a.baselined && x.orderLevel == a.orderLevel
            && x.wireTs == a.wireTs && x.sourceTs == a.sourceTs && x.batchId == a.batchId
            && x.pending == a.pending + Kept(Changes(bs))
    decreases |bs|
  {
    hide Kept, Apply;
    if bs == [] {
      NothingKept();
    } else {
      var front, b := bs[..|bs| - 1], bs[|bs| - 1];
      assert Buffers(a, front) by {
        forall n | 0 < n <= |front|
          ensures FitsAfter(a, front, n)
        {
          assert FitsAfter(a, bs, n) && front[..n] == bs[..n];
        }
      }
      OpenEventRestsNothing(a, front);
      KeptOfBoth(Changes(front), b.changes);
      assert FitsAfter(a, bs, |bs|) && bs[..|bs|] == bs;
      assert a.pending + Kept(Changes(bs)) == Run(a, front).pending + Kept(b.changes);
      OpenBatchOnlyBuffers(Run(a, front), b);
    }
  }

  /** However one logical event is cut into batches, as long as the buffer stays within its cap, the
      closing batch leaves the levels, orders and baseline flag of the event sent whole. */
  lemma BatchingDoesNotMatter(a: Acc, open: seq<Batch>, close: Batch, whole: Batch)
    requires Buffers(a, open) && close.last
    requires whole.last && whole.changes == Changes(open + [close])
    ensures var x, y := Run(a, open + [close]), Apply(a, whole);
            x.rest == y.rest && x.orderLevel == y.orderLevel && x.baselined == y.baselined && x.pending == y.pending == []
  {
    hide FoldEvent;
    var bs := open + [close];
    assert bs[..|bs| - 1] == open;
    OpenEventRestsNothing(a, open);
    KeptOfBoth(Changes(open), close.changes);
    assert a.pending + Kept(Changes(open)) + Kept(close.changes) == a.pending + Kept(whole.changes);
  }
}
