/**
 A late joiner equals an early listener: the re-baseline an accumulator materializes, applied to a
 fresh one, rests the same book, and the two stay the same over every later feed. And the stamps of an
 accumulator are those of the batches it has folded, never of one it has only buffered or given up.
 */
module AccumulatorReplay {
  import opened Wrappers
  import opened AccumulatorModel
  import opened AccumulatorFold

  // ---- what every reachable state satisfies ----

  ghost predicate Sound(a: Acc) {
    && SoundRest(a.rest)
    && |a.rest.orders| <= MAX_ACCUMULATED_ORDERS
    && (a.batchIdExact ==> a.batchId.Some?)
    && (forall c :: c in a.pending ==> c.finite)
  }

  lemma ClearKeepsSound(f: Folding, side: Side)
    requires SoundRest(f.rest)
    ensures SoundRest(ClearSide(f, side).rest)
  {
    hide PriceKey;
  }

  lemma OrderKeepsSound(f: Folding, c: Change)
    requires SoundRest(f.rest) && c.orderId != 0
    ensures SoundRest(FoldOrder(f, c).rest)
  {
    hide PriceKey, ClearSide;
    ClearKeepsSound(f, c.side);
  }

  lemma LevelKeepsSound(f: Folding, c: Change)
    requires SoundRest(f.rest)
    ensures SoundRest(FoldLevel(f, c).rest)
  {
    hide PriceKey, ClearSide, SoundOrders;
    ClearKeepsSound(f, c.side);
  }

  lemma OneKeepsSound(f: Folding, c: Change)
    requires SoundRest(f.rest)
    ensures SoundRest(FoldOne(f, c).rest)
  {
    hide SoundRest, FoldOrder, FoldLevel;
    if c.orderId != 0 {
      OrderKeepsSound(f, c);
    } else {
      LevelKeepsSound(f, c);
    }
  }

  lemma {:induction false} FoldKeepsSound(f: Folding, cs: seq<Change>)
    requires SoundRest(f.rest)
    ensures SoundRest(FoldAll(f, cs).rest)
    decreases |cs|
  {
    hide SoundRest, FoldOne;
    if cs != [] {
      FoldKeepsSound(f, cs[..|cs| - 1]);
      OneKeepsSound(FoldAll(f, cs[..|cs| - 1]), cs[|cs| - 1]);
    }
  }

  lemma {:induction false} KeptIsFinite(cs: seq<Change>)
    ensures forall c :: c in Kept(cs) <==> c in cs && c.finite
    decreases |cs|
  {
    if cs != [] {
      KeptIsFinite(cs[..|cs| - 1]);
      assert cs == cs[..|cs| - 1] + [cs[|cs| - 1]];
    }
  }

  lemma ApplyKeepsSound(a: Acc, b: Batch)
    requires Sound(a)
    ensures Sound(Apply(a, b))
  {
    hide FoldAll, SoundRest, Kept;
    KeptIsFinite(b.changes);
    var a' := Buffer(a, b);
    FoldKeepsSound(Folding(a'.rest, a'.orderLevel, false, false), a'.pending);
    var folded := FoldEvent(a'.rest, a'.orderLevel, a'.pending).rest;
    CappedIsSound(folded);
  }

  lemma CappedIsSound(rest: Resting)
    requires SoundRest(rest)
    ensures SoundRest(Capped(rest)) && |Capped(rest).orders| <= MAX_ACCUMULATED_ORDERS
  {}

  lemma {:induction false} EveryRunIsSound(symbol: string, feed: seq<Batch>)
    ensures Sound(Run(Fresh(symbol), feed))
    decreases |feed|
  {
    hide Apply;
    if feed != [] {
      EveryRunIsSound(symbol, feed[..|feed| - 1]);
      ApplyKeepsSound(Run(Fresh(symbol), feed[..|feed| - 1]), feed[|feed| - 1]);
    }
  }

  // ---- folding what was materialized ----

  lemma {:induction false} FoldOfBoth(f: Folding, xs: seq<Change>, ys: seq<Change>)
    ensures FoldAll(f, xs + ys) == FoldAll(FoldAll(f, xs), ys)
    decreases |ys|
  {
    hide FoldOne;
    if ys == [] {
      assert xs + ys == xs;
    } else {
      var front := ys[..|ys| - 1];
      assert (xs + ys)[..|xs + ys| - 1] == xs + front;
      FoldOfBoth(f, xs, front);
    }
  }

  function WithLevels(r: Resting, isBid: bool, levels: map<int, Quote>): Resting {
    if isBid then r.(bids := levels) else r.(asks := levels)
  }

  /** The levels of the first keys listed. */
  function Listed(levels: map<int, Quote>, keys: seq<int>): map<int, Quote> {
    map k | k in keys && k in levels :: levels[k]
  }

  lemma {:induction false} FoldLevels(f: Folding, levels: map<int, Quote>, isBid: bool, keys: seq<int>, rows: seq<Change>)
    requires KeyedByPrice(levels)
    requires |rows| == |keys| && forall i :: 0 <= i < |keys| ==> keys[i] in levels
    requires forall i :: 0 <= i < |keys| ==>
               rows[i] == Row(SideOf(isBid), levels[keys[i]].price, levels[keys[i]].size, 0)
    ensures FoldAll(f, rows) == f.(rest := WithLevels(f.rest, isBid, LevelsOn(f.rest, isBid) + Listed(levels, keys)))
    decreases |rows|
  {
    hide PriceKey;
    if rows == [] {
      assert LevelsOn(f.rest, isBid) + Listed(levels, keys) == LevelsOn(f.rest, isBid);
    } else {
      hide FoldOne;
      var front := rows[..|rows| - 1];
      FoldLevels(f, levels, isBid, keys[..|keys| - 1], front);
      FoldOneMoreLevel(f, FoldAll(f, front), levels, isBid, keys);
    }
  }

  lemma FoldOneMoreLevel(f: Folding, g: Folding, levels: map<int, Quote>, isBid: bool, keys: seq<int>)
    requires keys != [] && keys[|keys| - 1] in levels && KeyedByPrice(levels)
    requires g == f.(rest := WithLevels(f.rest, isBid, LevelsOn(f.rest, isBid) + Listed(levels, keys[..|keys| - 1])))
    ensures var q := levels[keys[|keys| - 1]];
            FoldOne(g, Row(SideOf(isBid), q.price, q.size, 0))
            == f.(rest := WithLevels(f.rest, isBid, LevelsOn(f.rest, isBid) + Listed(levels, keys)))
  {
    hide PriceKey;
    var key := keys[|keys| - 1];
    var was, front := LevelsOn(f.rest, isBid), Listed(levels, keys[..|keys| - 1]);
    assert keys == keys[..|keys| - 1] + [key];
    assert Listed(levels, keys) == front[key := levels[key]];
    assert was + front[key := levels[key]] == (was + front)[key := levels[key]];
  }

  function ListedOrders(orders: map<nat, Order>, ids: seq<nat>): map<nat, Order> {
    map id | id in ids && id in orders :: orders[id]
  }

  lemma {:induction false} FoldOrders(f: Folding, orders: map<nat, Order>, ids: seq<nat>, rows: seq<Change>)
    requires SoundOrders(orders) && f.rest.orders == map[]
    requires |rows| == |ids| && forall i :: 0 <= i < |ids| ==> ids[i] in orders
    requires forall i :: 0 <= i < |ids| ==>
               rows[i] == Row(SideOf(orders[ids[i]].isBid), orders[ids[i]].price, orders[ids[i]].size, ids[i])
    ensures FoldAll(f, rows)
            == f.(rest := f.rest.(orders := ListedOrders(orders, ids)), orderLevel := f.orderLevel || ids != [])
    decreases |rows|
  {
    hide PriceKey;
    if rows == [] {
      assert ListedOrders(orders, ids) == map[];
    } else {
      var frontIds, id := ids[..|ids| - 1], ids[|ids| - 1];
      FoldOrders(f, orders, frontIds, rows[..|rows| - 1]);
      assert ids == frontIds + [id];
      assert ListedOrders(orders, ids) == ListedOrders(orders, frontIds)[id := orders[id]];
      assert rows[|rows| - 1] == Row(SideOf(orders[id].isBid), orders[id].price, orders[id].size, id);
    }
  }

  lemma {:induction false} KeptOfFinite(cs: seq<Change>)
    requires forall c :: c in cs ==> c.finite
    ensures Kept(cs) == cs
    decreases |cs|
  {
    if cs != [] {
      assert cs == cs[..|cs| - 1] + [cs[|cs| - 1]];
      KeptOfFinite(cs[..|cs| - 1]);
    }
  }

  lemma ListedAll(levels: map<int, Quote>, keys: seq<int>)
    requires forall k :: k in levels <==> k in keys
    ensures Listed(levels, keys) == levels
  {
    forall k
      ensures k in Listed(levels, keys) <==> k in levels
    {
      assert k in levels <==> k in keys;
    }
  }

  lemma ListedAllOrders(orders: map<nat, Order>, ids: seq<nat>)
    requires forall id :: id in orders <==> id in ids
    ensures ListedOrders(orders, ids) == orders
    ensures ids == [] <==> orders == map[]
  {
    assert ListedOrders(orders, ids).Keys == orders.Keys;
    if ids != [] {
      assert ids[0] in ids;
    }
  }

  lemma FoldOfWholeBook(r: Resting, bidKeys: seq<int>, bidRows: seq<Change>, askKeys: seq<int>,
                        askRows: seq<Change>, ids: seq<nat>, orderRows: seq<Change>)
    requires SoundRest(r)
    requires ListsLevels(r.bids, true, bidKeys, bidRows)
    requires ListsLevels(r.asks, false, askKeys, askRows)
    requires ListsOrders(r.orders, ids, orderRows)
    ensures var f := FoldEvent(EMPTY, false, [CLEAR_BOTH] + bidRows + askRows + orderRows);
            f == Folding(r, r.orders != map[], true, true)
  {
    hide FoldAll, PriceKey;
    var f0 := Folding(EMPTY, false, false, false);
    var f1 := Folding(EMPTY, false, true, true);
    assert FoldAll(f0, [CLEAR_BOTH]) == f1 by {
      FoldOfOne(f0, CLEAR_BOTH);
    }
    FoldLevels(f1, r.bids, true, bidKeys, bidRows);
    ListedAll(r.bids, bidKeys);
    assert LevelsOn(f1.rest, true) + r.bids == r.bids;
    var f2 := f1.(rest := WithLevels(EMPTY, true, r.bids));
    FoldLevels(f2, r.asks, false, askKeys, askRows);
    ListedAll(r.asks, askKeys);
    assert LevelsOn(f2.rest, false) + r.asks == r.asks;
    var f3 := f2.(rest := WithLevels(f2.rest, false, r.asks));
    FoldOrders(f3, r.orders, ids, orderRows);
    ListedAllOrders(r.orders, ids);
    FoldOfBoth(f0, [CLEAR_BOTH], bidRows);
    FoldOfBoth(f0, [CLEAR_BOTH] + bidRows, askRows);
    FoldOfBoth(f0, [CLEAR_BOTH] + bidRows + askRows, orderRows);
  }

  lemma FoldOfOne(f: Folding, c: Change)
    ensures FoldAll(f, [c]) == FoldOne(f, c)
  {
    assert [c][..0] == [];
    assert FoldAll(f, [c][..0]) == f;
  }

  /** A fresh accumulator after a terminated batch of finite changes that folds to a whole book. */
  function JoinerOf(b: Batch, r: Resting): Acc {
    Acc(b.symbol, r, r.orders != map[], [], b.sourceTs, b.sourceTs, b.recvTs, b.recvTs,
        b.batchId, b.batchId, b.batchId.Some?, true)
  }

  lemma FreshAppliesWhole(symbol: string, b: Batch, r: Resting)
    requires b.last && Kept(b.changes) == b.changes && |r.orders| <= MAX_ACCUMULATED_ORDERS
    requires FoldEvent(EMPTY, false, b.changes) == Folding(r, r.orders != map[], true, true)
    ensures Apply(Fresh(symbol), b) == JoinerOf(b, r)
  {
    hide FoldEvent, Kept;
    assert Buffer(Fresh(symbol), b).pending == b.changes;
  }

  /** Everything a joiner knows after the re-baseline, and so everything it does not: the market's book,
      symbol, slot and event time are as they were; its granularity, whether it stands exactly at its slot,
      and the watermark are read off the replay instead. */
  lemma JoinerHoldsTheBook(a: Acc, b: Batch, symbol: string)
    requires Sound(a) && Materializes(a, b)
    ensures Apply(Fresh(symbol), b)
            == Acc(a.symbol, a.rest, a.rest.orders != map[], [], a.sourceTs, a.sourceTs, b.recvTs, b.recvTs,
                   a.batchId, a.batchId, a.batchId.Some?, true)
  {
    hide FoldEvent, ListsLevels, ListsOrders, SoundRest, Apply, Kept;
    var bidKeys, askKeys, ids, bidRows, askRows, orderRows :|
      && ListsLevels(a.rest.bids, true, bidKeys, bidRows)
      && ListsLevels(a.rest.asks, false, askKeys, askRows)
      && ListsOrders(a.rest.orders, ids, orderRows)
      && b == ToClear(a, b.recvTs).(changes := [CLEAR_BOTH] + bidRows + askRows + orderRows);
    FoldOfWholeBook(a.rest, bidKeys, bidRows, askKeys, askRows, ids, orderRows);
    MaterializedIsFinite(a, b, bidKeys, askKeys, ids, bidRows, askRows, orderRows);
    KeptOfFinite(b.changes);
    FreshAppliesWhole(symbol, b, a.rest);
  }

  lemma MaterializedIsFinite(a: Acc, b: Batch, bidKeys: seq<int>, askKeys: seq<int>, ids: seq<nat>,
                             bidRows: seq<Change>, askRows: seq<Change>, orderRows: seq<Change>)
    requires ListsLevels(a.rest.bids, true, bidKeys, bidRows)
    requires ListsLevels(a.rest.asks, false, askKeys, askRows)
    requires ListsOrders(a.rest.orders, ids, orderRows)
    requires b.changes == [CLEAR_BOTH] + bidRows + askRows + orderRows
    ensures forall c :: c in b.changes ==> c.finite
  {}

  /** The same book rests in both and the same event is buffered. */
  ghost predicate SameState(a: Acc, b: Acc) {
    a.rest == b.rest && a.pending == b.pending
  }

  lemma ApplyKeepsSameState(a: Acc, b: Acc, batch: Batch)
    requires SameState(a, b)
    ensures SameState(Apply(a, batch), Apply(b, batch))
    ensures a.baselined == b.baselined ==> Apply(a, batch).baselined == Apply(b, batch).baselined
  {
    hide Kept, Commit;
    CommitKeepsSameState(Buffer(a, batch), Buffer(b, batch), batch.batchId.Some?);
  }

  lemma CommitKeepsSameState(a: Acc, b: Acc, named: bool)
    requires SameState(a, b)
    ensures SameState(Commit(a, named), Commit(b, named))
    ensures a.baselined == b.baselined ==> Commit(a, named).baselined == Commit(b, named).baselined
  {
    hide FoldEvent, Capped;
    FoldEventIsApart(a.rest, a.orderLevel, a.pending);
    FoldEventIsApart(b.rest, b.orderLevel, b.pending);
  }

  lemma {:induction false} RunKeepsSameState(a: Acc, b: Acc, feed: seq<Batch>)
    requires SameState(a, b)
    ensures SameState(Run(a, feed), Run(b, feed))
    ensures a.baselined == b.baselined ==> Run(a, feed).baselined == Run(b, feed).baselined
    decreases |feed|
  {
    hide Apply, SameState;
    if feed != [] {
      RunKeepsSameState(a, b, feed[..|feed| - 1]);
      ApplyKeepsSameState(Run(a, feed[..|feed| - 1]), Run(b, feed[..|feed| - 1]), feed[|feed| - 1]);
    }
  }

  /** A client that joins at an event boundary on the materialized re-baseline rests, from then on and
      over every later feed, exactly what a client that listened from the start rests; and it is
      baselined whenever that one is. */
  lemma LateJoinerEqualsEarlyListener(symbol: string, past: seq<Batch>, b: Batch, joined: string, later: seq<Batch>)
    requires var a := Run(Fresh(symbol), past); a.pending == [] && Materializes(a, b)
    ensures var a := Run(Fresh(symbol), past);
            var j := Apply(Fresh(joined), b);
            && SameState(j, a) && j.baselined
            && SameState(Run(j, later), Run(a, later))
            && (a.baselined ==> Run(j, later).baselined == Run(a, later).baselined)
  {
    hide Apply;
    EveryRunIsSound(symbol, past);
    var a := Run(Fresh(symbol), past);
    JoinerHoldsTheBook(a, b, joined);
    RunKeepsSameState(Apply(Fresh(joined), b), a, later);
  }

  /** An order-level market whose book is empty joins as a market of unknown granularity. The joiner knows
      the market is order-level exactly when orders rest. */
  lemma JoinerKnowsGranularityIff(a: Acc, b: Batch, symbol: string)
    requires Sound(a) && Materializes(a, b) && a.orderLevel
    ensures Apply(Fresh(symbol), b).orderLevel == a.orderLevel <==> a.rest.orders != map[]
  {
    JoinerHoldsTheBook(a, b, symbol);
  }

  /** The slot the state stands exactly at, if it does. */
  function ExactSlot(a: Acc): Option<nat> {
    if a.batchIdExact then a.batchId else None
  }

  /** A joiner claims to stand exactly at the last slot named. That is the market's own claim exactly when
      no slot was ever named or the last fold was closed by a batch that named one. */
  lemma JoinerKnowsItsSlotIff(symbol: string, past: seq<Batch>, b: Batch, joined: string)
    requires Materializes(Run(Fresh(symbol), past), b)
    ensures var a, j := Run(Fresh(symbol), past), Apply(Fresh(joined), b);
            && (ExactSlot(j) == ExactSlot(a) <==> a.batchId.None? || a.batchIdExact)
            && (j.batchIdExact == a.batchIdExact <==> a.batchId.None? || a.batchIdExact)
  {
    hide Apply;
    EveryRunIsSound(symbol, past);
    JoinerHoldsTheBook(Run(Fresh(symbol), past), b, joined);
  }

  /** A feed after which a joiner overstates its slot: a batch that names slot 5, then one that names none. */
  const LAPSED: seq<Batch> :=
    [Batch("X", false, [CLEAR_BOTH], Some(5), true, true, 1, 1), Batch("X", false, [], None, false, true, 2, 2)]

  lemma JoinerCanOverstateItsSlot(b: Batch, joined: string)
    requires Materializes(Run(Fresh("X"), LAPSED), b)
    ensures ExactSlot(Run(Fresh("X"), LAPSED)) == None && ExactSlot(Apply(Fresh(joined), b)) == Some(5)
  {
    hide FoldEvent, Kept, Materializes;
    var a := Run(Fresh("X"), LAPSED);
    assert a.batchId == Some(5) && !a.batchIdExact by {
      LapsedStamps();
    }
    EveryRunIsSound("X", LAPSED);
    JoinerHoldsTheBook(a, b, joined);
  }

  lemma LapsedStamps()
    ensures Run(Fresh("X"), LAPSED).batchId == Some(5) && !Run(Fresh("X"), LAPSED).batchIdExact
  {
    hide FoldEvent, Kept;
    assert LAPSED[..1][..0] == [];
    assert Run(Fresh("X"), LAPSED[..1][..0]) == Fresh("X");
    assert Run(Fresh("X"), LAPSED[..1]) == Apply(Fresh("X"), LAPSED[0]);
    assert Run(Fresh("X"), LAPSED) == Apply(Apply(Fresh("X"), LAPSED[0]), LAPSED[1]);
  }

  // ---- stamps ----

  /** The feed sorted into the batches folded so far, in order, and those of the event still open. */
  datatype Log = Log(folded: seq<Batch>, open: seq<Batch>)

  function Sorted(feed: seq<Batch>): Log
    decreases |feed|
  {
    if feed == [] then Log([], [])
    else
      var before, b := Sorted(feed[..|feed| - 1]), feed[|feed| - 1];
      if b.last then Log(before.folded + before.open + [b], [])
      else if |Kept(Changes(before.open + [b]))| > MAX_PENDING_CHANGES then Log(before.folded, [])
      else Log(before.folded, before.open + [b])
  }

  function NewestRecv(bs: seq<Batch>): nat
    decreases |bs|
  {
    if bs == [] then 0 else Max(NewestRecv(bs[..|bs| - 1]), bs[|bs| - 1].recvTs)
  }

  function LastSlot(bs: seq<Batch>): Option<nat>
    decreases |bs|
  {
    if bs == [] then None
    else if bs[|bs| - 1].batchId.Some? then bs[|bs| - 1].batchId
    else LastSlot(bs[..|bs| - 1])
  }

  function LastEventTime(bs: seq<Batch>): nat
    decreases |bs|
  {
    if bs == [] then 0
    else if bs[|bs| - 1].sourceTs != 0 then bs[|bs| - 1].sourceTs
    else LastEventTime(bs[..|bs| - 1])
  }

  /** Everything a fresh accumulator says about its feed, read off the sorted log instead. */
  ghost predicate StampedBy(a: Acc, log: Log) {
    var seen := log.folded + log.open;
    && a.pending == Kept(Changes(log.open))
    && |a.pending| <= MAX_PENDING_CHANGES
    && a.wireTs == NewestRecv(log.folded) && a.pendingWireTs == NewestRecv(seen)
    && a.batchId == LastSlot(log.folded) && a.pendingBatchId == LastSlot(seen)
    && a.sourceTs == LastEventTime(log.folded) && a.pendingTs == LastEventTime(seen)
    && (log.folded != [] ==> a.batchIdExact == log.folded[|log.folded| - 1].batchId.Some?)
  }

  lemma SeenOneMore(folded: seq<Batch>, open: seq<Batch>, b: Batch)
    ensures var seen, more := folded + open, folded + (open + [b]);
            && more == folded + open + [b]
            && NewestRecv(more) == Max(NewestRecv(seen), b.recvTs)
            && LastSlot(more) == (if b.batchId.Some? then b.batchId else LastSlot(seen))
            && LastEventTime(more) == (if b.sourceTs != 0 then b.sourceTs else LastEventTime(seen))
    ensures Kept(Changes(open + [b])) == Kept(Changes(open)) + Kept(b.changes)
  {
    var more := folded + (open + [b]);
    assert more == folded + open + [b];
    assert more[..|more| - 1] == folded + open;
    assert (open + [b])[..|open + [b]| - 1] == open;
    KeptOfBoth(Changes(open), b.changes);
  }

  lemma ApplyKeepsStamps(a: Acc, log: Log, b: Batch, next: Log)
    requires StampedBy(a, log)
    requires next == if b.last then Log(log.folded + log.open + [b], [])
                     else if |Kept(Changes(log.open + [b]))| > MAX_PENDING_CHANGES then Log(log.folded, [])
                     else Log(log.folded, log.open + [b])
    ensures StampedBy(Apply(a, b), next)
  {
    hide FoldEvent, Kept, Changes, NewestRecv, LastSlot, LastEventTime, Capped;
    SeenOneMore(log.folded, log.open, b);
    NothingKept();
    assert log.folded + log.open + [b] + [] == log.folded + log.open + [b];
    assert log.folded + [] == log.folded;
  }

  /** Stamps never run ahead of the folded state: over every feed the watermark is the newest arrival
      among folded batches, the slot and event time are the last ones those name, an abandoned event
      contributes nothing, and the buffer stays within its cap. */
  lemma {:induction false} StampsFollowTheFold(symbol: string, feed: seq<Batch>)
    ensures StampedBy(Run(Fresh(symbol), feed), Sorted(feed))
    decreases |feed|
  {
    hide Apply, StampedBy;
    if feed == [] {
      FreshIsStamped(symbol);
    } else {
      StampsFollowTheFold(symbol, feed[..|feed| - 1]);
      ApplyKeepsStamps(Run(Fresh(symbol), feed[..|feed| - 1]), Sorted(feed[..|feed| - 1]), feed[|feed| - 1], Sorted(feed));
    }
  }

  lemma FreshIsStamped(symbol: string)
    ensures StampedBy(Fresh(symbol), Log([], []))
  {
    NothingKept();
  }

  lemma NewestRecvGrows(folded: seq<Batch>, more: seq<Batch>)
    ensures NewestRecv(folded) <= NewestRecv(folded + more)
    decreases |more|
  {
    if more == [] {
      assert folded + more == folded;
    } else {
      NewestRecvGrows(folded, more[..|more| - 1]);
      assert (folded + more)[..|folded + more| - 1] == folded + more[..|more| - 1];
    }
  }

  /** The join watermark never runs backwards. */
  lemma WatermarkNeverDecreases(symbol: string, feed: seq<Batch>, b: Batch)
    ensures Run(Fresh(symbol), feed).wireTs <= Run(Fresh(symbol), feed + [b]).wireTs
  {
    hide Apply;
    assert (feed + [b])[..|feed + [b]| - 1] == feed;
    StampsFollowTheFold(symbol, feed);
    StampsFollowTheFold(symbol, feed + [b]);
    var log := Sorted(feed);
    NewestRecvGrows(log.folded, log.open + [b]);
    assert log.folded + (log.open + [b]) == log.folded + log.open + [b];
  }
}
