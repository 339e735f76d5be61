/**
 The last word wins. What rests after any event, and after any feed, is said change by change: an order or a
 level rests as the last change that bears on it left it.
 */
module AccumulatorTrace {
  import opened Wrappers
  import opened Collections
  import opened AccumulatorModel
  import opened AccumulatorFold
  import opened AccumulatorReplay

  // ---- one order ----

  /** The change puts the order at rest or takes it away; a clear names a side and never an order. */
  predicate Names(c: Change, id: nat) {
    id != 0 && c.orderId == id && !c.action.Clear?
  }

  /** From change `from` on, none names the order and none clears the side. */
  ghost predicate LeftAlone(cs: seq<Change>, from: nat, id: nat, isBid: bool) {
    forall j :: from <= j < |cs| ==> !Names(cs[j], id) && !Clears(cs[j], isBid)
  }

  /** The `i`-th change is the last word on the order, and rests it. */
  ghost predicate RestsSince(cs: seq<Change>, i: nat, id: nat) {
    && i < |cs| && Names(cs[i], id) && cs[i].action.Update? && cs[i].size != 0.0
    && LeftAlone(cs, i + 1, id, cs[i].side.Bid?)
  }

  /** The order was at rest before the event, and nothing in the event bears on it. */
  ghost predicate RestsThroughout(orders: map<nat, Order>, cs: seq<Change>, id: nat) {
    id in orders && LeftAlone(cs, 0, id, orders[id].isBid)
  }

  /** An order as a change states it. */
  function Stated(c: Change): Order {
    Order(c.side.Bid?, PriceKey(c.price), c.price, c.size)
  }

  /** The order rests if and only if it did before and nothing bears on it, or the last change that does is an
      update of some size; and it rests as that change, or as before. */
  ghost predicate LastWordOnOrder(was: map<nat, Order>, cs: seq<Change>, now: map<nat, Order>, id: nat) {
    && (id in now <==> RestsThroughout(was, cs, id) || exists i: nat :: RestsSince(cs, i, id))
    && (RestsThroughout(was, cs, id) ==> id in now && now[id] == was[id])
    && (forall i: nat :: RestsSince(cs, i, id) ==> id in now && now[id] == Stated(cs[i]))
  }

  lemma OneOnOrder(f: Folding, c: Change, id: nat)
    requires id != 0
    ensures var r, s := f.rest.orders, FoldOne(f, c).rest.orders;
            if Names(c, id) then
              (if c.action.Update? && c.size != 0.0 then id in s && s[id] == Stated(c) else id !in s)
            else if id in r && !Clears(c, r[id].isBid) then id in s && s[id] == r[id]
            else id !in s
  {
    hide PriceKey, ClearSide, Clears;
    if c.action.Clear? {
      ClearOnOrder(f, c, id);
    } else if c.orderId == 0 {
      assert FoldOne(f, c).rest.orders == f.rest.orders && !Clears(c, true) && !Clears(c, false) by {
        LevelLeavesOrders(f, c);
      }
    } else {
      assert !Clears(c, true) && !Clears(c, false) by {
        LevelLeavesOrders(f, c);
      }
    }
  }

  lemma ClearOnOrder(f: Folding, c: Change, id: nat)
    requires c.action.Clear?
    ensures var r, s := f.rest.orders, FoldOne(f, c).rest.orders;
            if id in r && !Clears(c, r[id].isBid) then id in s && s[id] == r[id] else id !in s
  {}

  lemma LevelLeavesOrders(f: Folding, c: Change)
    requires !c.action.Clear?
    ensures c.orderId == 0 ==> FoldOne(f, c).rest.orders == f.rest.orders
    ensures !Clears(c, true) && !Clears(c, false)
  {
    hide PriceKey;
  }

  lemma LeftAloneOneMore(cs: seq<Change>, from: nat, id: nat, isBid: bool)
    requires cs != [] && from <= |cs| - 1
    ensures LeftAlone(cs, from, id, isBid)
            <==> LeftAlone(cs[..|cs| - 1], from, id, isBid) && !Names(cs[|cs| - 1], id) && !Clears(cs[|cs| - 1], isBid)
  {
    hide Names, Clears;
    var front := cs[..|cs| - 1];
    assert forall j :: 0 <= j < |front| ==> front[j] == cs[j];
  }

  lemma RestsSinceOneMore(cs: seq<Change>, i: nat, id: nat)
    requires cs != []
    ensures var front, c := cs[..|cs| - 1], cs[|cs| - 1];
            RestsSince(cs, i, id)
            <==> if i == |cs| - 1 then Names(c, id) && c.action.Update? && c.size != 0.0
                 else RestsSince(front, i, id) && !Names(c, id) && !Clears(c, front[i].side.Bid?)
  {
    hide Names, Clears, LeftAlone;
    if i < |cs| - 1 {
      LeftAloneOneMore(cs, i + 1, id, cs[i].side.Bid?);
    } else if i == |cs| - 1 {
      LeftAloneAtEnd(cs, id, cs[i].side.Bid?);
    }
  }

  lemma LeftAloneAtEnd(cs: seq<Change>, id: nat, isBid: bool)
    ensures LeftAlone(cs, |cs|, id, isBid)
  {}

  lemma LastWordOneMore(was: map<nat, Order>, cs: seq<Change>, f: Folding, id: nat)
    requires cs != [] && id != 0 && LastWordOnOrder(was, cs[..|cs| - 1], f.rest.orders, id)
    ensures LastWordOnOrder(was, cs, FoldOne(f, cs[|cs| - 1]).rest.orders, id)
  {
    hide FoldOne, Names, Clears, LeftAlone, PriceKey;
    var front, c := cs[..|cs| - 1], cs[|cs| - 1];
    OneOnOrder(f, c, id);
    if id in was {
      LeftAloneOneMore(cs, 0, id, was[id].isBid);
    }
    forall i: nat
      ensures RestsSince(cs, i, id)
              <==> if i == |cs| - 1 then Names(c, id) && c.action.Update? && c.size != 0.0
                   else RestsSince(front, i, id) && !Names(c, id) && !Clears(c, front[i].side.Bid?)
    {
      RestsSinceOneMore(cs, i, id);
    }
    if Names(c, id) {
      assert c.action.Update? && c.size != 0.0 ==> RestsSince(cs, |cs| - 1, id);
    } else if i: nat :| RestsSince(front, i, id) {
      assert front[i] == cs[i] && f.rest.orders[id] == Stated(front[i]);
    }
  }

  /** The last word decides, for any event folded into any state. */
  lemma {:induction false} LastWordOnOrderDecides(f: Folding, cs: seq<Change>, id: nat)
    requires id != 0
    ensures LastWordOnOrder(f.rest.orders, cs, FoldAll(f, cs).rest.orders, id)
    decreases |cs|
  {
    hide FoldOne, Names, Clears, Stated;
    if cs != [] {
      LastWordOnOrderDecides(f, cs[..|cs| - 1], id);
      LastWordOneMore(f.rest.orders, cs, FoldAll(f, cs[..|cs| - 1]), id);
    }
  }

  // ---- one level ----

  /** The change sets or deletes the level, or clears its side. */
  predicate Bears(c: Change, isBid: bool, key: int) {
    Clears(c, isBid) || (c.orderId == 0 && !c.action.Clear? && c.side == SideOf(isBid) && PriceKey(c.price) == key)
  }

  ghost predicate LevelLeftAlone(cs: seq<Change>, from: nat, isBid: bool, key: int) {
    forall j :: from <= j < |cs| ==> !Bears(cs[j], isBid, key)
  }

  /** The `i`-th change is the last word on the level, and sets it. */
  ghost predicate SetSince(cs: seq<Change>, i: nat, isBid: bool, key: int) {
    && i < |cs| && Bears(cs[i], isBid, key) && cs[i].action.Update?
    && LevelLeftAlone(cs, i + 1, isBid, key)
  }

  ghost predicate SetThroughout(levels: map<int, Quote>, cs: seq<Change>, isBid: bool, key: int) {
    key in levels && LevelLeftAlone(cs, 0, isBid, key)
  }

  /** The level is there if and only if it was and nothing bears on it, or the last change that does is an update,
      of whatever size. */
  ghost predicate LastWordOnLevel(was: map<int, Quote>, cs: seq<Change>, now: map<int, Quote>, isBid: bool, key: int) {
    && (key in now <==> SetThroughout(was, cs, isBid, key) || exists i: nat :: SetSince(cs, i, isBid, key))
    && (SetThroughout(was, cs, isBid, key) ==> key in now && now[key] == was[key])
    && (forall i: nat :: SetSince(cs, i, isBid, key) ==> key in now && now[key] == Quote(cs[i].price, cs[i].size))
  }

  lemma OneOnLevel(f: Folding, c: Change, isBid: bool, key: int)
    ensures var r, s := LevelsOn(f.rest, isBid), LevelsOn(FoldOne(f, c).rest, isBid);
            if Bears(c, isBid, key) then
              (if c.action.Update? then key in s && s[key] == Quote(c.price, c.size) else key !in s)
            else (key in s <==> key in r) && (key in r ==> s[key] == r[key])
  {
    hide PriceKey;
  }

  lemma SetSinceOneMore(cs: seq<Change>, i: nat, isBid: bool, key: int)
    requires cs != []
    ensures var front, c := cs[..|cs| - 1], cs[|cs| - 1];
            SetSince(cs, i, isBid, key)
            <==> if i == |cs| - 1 then Bears(c, isBid, key) && c.action.Update?
                 else SetSince(front, i, isBid, key) && !Bears(c, isBid, key)
  {
    hide Bears;
    if i < |cs| - 1 {
      LevelLeftAloneOneMore(cs, i + 1, isBid, key);
    }
  }

  lemma LevelLeftAloneOneMore(cs: seq<Change>, from: nat, isBid: bool, key: int)
    requires cs != [] && from <= |cs| - 1
    ensures LevelLeftAlone(cs, from, isBid, key)
            <==> LevelLeftAlone(cs[..|cs| - 1], from, isBid, key) && !Bears(cs[|cs| - 1], isBid, key)
  {
    hide Bears;
    var front := cs[..|cs| - 1];
    assert forall j :: 0 <= j < |front| ==> front[j] == cs[j];
  }

  lemma LastWordOnLevelOneMore(was: map<int, Quote>, cs: seq<Change>, f: Folding, isBid: bool, key: int)
    requires cs != [] && LastWordOnLevel(was, cs[..|cs| - 1], LevelsOn(f.rest, isBid), isBid, key)
    ensures LastWordOnLevel(was, cs, LevelsOn(FoldOne(f, cs[|cs| - 1]).rest, isBid), isBid, key)
  {
    hide FoldOne, Bears, LevelLeftAlone, LevelsOn;
    var front, c := cs[..|cs| - 1], cs[|cs| - 1];
    OneOnLevel(f, c, isBid, key);
    LevelLeftAloneOneMore(cs, 0, isBid, key);
    forall i: nat
      ensures SetSince(cs, i, isBid, key)
              <==> if i == |cs| - 1 then Bears(c, isBid, key) && c.action.Update?
                   else SetSince(front, i, isBid, key) && !Bears(c, isBid, key)
    {
      SetSinceOneMore(cs, i, isBid, key);
    }
    if Bears(c, isBid, key) {
      assert c.action.Update? ==> SetSince(cs, |cs| - 1, isBid, key);
    } else if i: nat :| SetSince(front, i, isBid, key) {
      assert front[i] == cs[i] && SetSince(cs, i, isBid, key);
    }
  }

  lemma {:induction false} LastWordOnLevelDecides(f: Folding, cs: seq<Change>, isBid: bool, key: int)
    ensures LastWordOnLevel(LevelsOn(f.rest, isBid), cs, LevelsOn(FoldAll(f, cs).rest, isBid), isBid, key)
    decreases |cs|
  {
    hide FoldOne, Bears, LevelsOn;
    if cs != [] {
      LastWordOnLevelDecides(f, cs[..|cs| - 1], isBid, key);
      LastWordOnLevelOneMore(LevelsOn(f.rest, isBid), cs, FoldAll(f, cs[..|cs| - 1]), isBid, key);
    }
  }

  // ---- granularity ----

  /** A market is order-level once a change has named an order. */
  lemma {:induction false} OrderLevelIff(f: Folding, cs: seq<Change>)
    ensures FoldAll(f, cs).orderLevel <==> f.orderLevel || exists i :: 0 <= i < |cs| && Names(cs[i], cs[i].orderId)
    decreases |cs|
  {
    hide PriceKey;
    if cs != [] {
      var front, c := cs[..|cs| - 1], cs[|cs| - 1];
      OrderLevelIff(f, front);
      OneNames(FoldAll(f, front), c);
      if i :| 0 <= i < |front| && Names(front[i], front[i].orderId) {
        assert cs[i] == front[i];
      }
      if i :| 0 <= i < |cs| && Names(cs[i], cs[i].orderId) {
        assert i < |front| ==> front[i] == cs[i];
      }
    }
  }

  lemma OneNames(f: Folding, c: Change)
    ensures FoldOne(f, c).orderLevel <==> f.orderLevel || Names(c, c.orderId)
  {
    hide PriceKey;
  }

  // ---- one closed event ----

  /** Every order and every level of `now` is as the last word of the changes left it. */
  ghost predicate LastWord(was: Resting, cs: seq<Change>, now: Resting) {
    && (forall id: nat :: id != 0 ==> LastWordOnOrder(was.orders, cs, now.orders, id))
    && (forall isBid, key :: LastWordOnLevel(LevelsOn(was, isBid), cs, LevelsOn(now, isBid), isBid, key))
  }

  /** So it is for any event folded into any state. */
  lemma LastWordDecides(f: Folding, cs: seq<Change>)
    ensures LastWord(f.rest, cs, FoldAll(f, cs).rest)
  {
    hide LastWordOnOrder, LastWordOnLevel, FoldAll, LevelsOn;
    forall id: nat | id != 0
      ensures LastWordOnOrder(f.rest.orders, cs, FoldAll(f, cs).rest.orders, id)
    {
      LastWordOnOrderDecides(f, cs, id);
    }
    forall isBid, key
      ensures LastWordOnLevel(LevelsOn(f.rest, isBid), cs, LevelsOn(FoldAll(f, cs).rest, isBid), isBid, key)
    {
      LastWordOnLevelDecides(f, cs, isBid, key);
    }
  }

  /** The last word fixes what rests: there is no other state it describes. */
  lemma LastWordIsOne(was: Resting, cs: seq<Change>, now: Resting, other: Resting)
    requires LastWord(was, cs, now) && LastWord(was, cs, other)
    requires 0 !in now.orders && 0 !in other.orders
    ensures now == other
  {
    hide RestsSince, RestsThroughout, SetSince, SetThroughout, Stated, LevelsOn;
    forall id: nat
      ensures id in now.orders <==> id in other.orders
      ensures id in now.orders ==> now.orders[id] == other.orders[id]
    {
      if id != 0 {
        assert LastWordOnOrder(was.orders, cs, now.orders, id) && LastWordOnOrder(was.orders, cs, other.orders, id);
      }
    }
    assert now.orders == other.orders;
    SameLevels(was, cs, now, other, true);
    SameLevels(was, cs, now, other, false);
    SidesAreAll(now, other);
  }

  lemma SidesAreAll(now: Resting, other: Resting)
    requires LevelsOn(now, true) == LevelsOn(other, true) && LevelsOn(now, false) == LevelsOn(other, false)
    requires now.orders == other.orders
    ensures now == other
  {}

  lemma SameLevels(was: Resting, cs: seq<Change>, now: Resting, other: Resting, isBid: bool)
    requires LastWord(was, cs, now) && LastWord(was, cs, other)
    ensures LevelsOn(now, isBid) == LevelsOn(other, isBid)
  {
    hide SetSince, SetThroughout, LastWordOnOrder, LevelsOn;
    var x, y := LevelsOn(now, isBid), LevelsOn(other, isBid);
    forall key
      ensures key in x <==> key in y
      ensures key in x ==> x[key] == y[key]
    {
      assert LastWordOnLevel(LevelsOn(was, isBid), cs, x, isBid, key) && LastWordOnLevel(LevelsOn(was, isBid), cs, y, isBid, key);
    }
    assert x == y;
  }

  // ---- every feed ----

  /** The finite changes of everything folded so far. */
  function FoldedChanges(feed: seq<Batch>): seq<Change> {
    Kept(Changes(Sorted(feed).folded))
  }

  /** What a feed whose order population has never passed its cap leaves resting. */
  ghost predicate NeverOverflows(feed: seq<Batch>) {
    forall n :: 0 <= n <= |feed| ==> FitsCap(feed[..n])
  }

  predicate FitsCap(feed: seq<Batch>) {
    |FoldEvent(EMPTY, false, FoldedChanges(feed)).rest.orders| <= MAX_ACCUMULATED_ORDERS
  }

  lemma {:induction false} ChangesOfBoth(xs: seq<Batch>, ys: seq<Batch>)
    ensures Changes(xs + ys) == Changes(xs) + Changes(ys)
    decreases |ys|
  {
    hide Changes;
    if ys == [] {
      assert xs + ys == xs;
      NothingKept();
    } else {
      var front, b := ys[..|ys| - 1], ys[|ys| - 1];
      assert xs + ys == (xs + front) + [b] && ys == front + [b];
      ChangesOfBoth(xs, front);
      ChangesOfOneMore(xs + front, b);
      ChangesOfOneMore(front, b);
    }
  }

  /** The changes of the event a closing batch folds. */
  function EventAt(before: seq<Batch>, b: Batch): seq<Change> {
    Kept(Changes(Sorted(before).open + [b]))
  }

  lemma SortedLast(before: seq<Batch>, b: Batch)
    ensures Sorted(before + [b])
            == if b.last then Log(Sorted(before).folded + Sorted(before).open + [b], [])
               else if |EventAt(before, b)| > MAX_PENDING_CHANGES then Log(Sorted(before).folded, [])
               else Log(Sorted(before).folded, Sorted(before).open + [b])
    ensures b.last ==> FoldedChanges(before + [b]) == FoldedChanges(before) + EventAt(before, b)
    ensures !b.last ==> FoldedChanges(before + [b]) == FoldedChanges(before)
  {
    hide Kept, Changes;
    assert (before + [b])[..|before|] == before;
    if b.last {
      var log := Sorted(before);
      assert log.folded + log.open + [b] == log.folded + (log.open + [b]);
      ChangesOfBoth(log.folded, log.open + [b]);
      KeptOfBoth(Changes(log.folded), Changes(log.open + [b]));
    }
  }

  lemma BufferedAt(symbol: string, before: seq<Batch>, b: Batch)
    ensures Buffer(Run(Fresh(symbol), before), b).pending == EventAt(before, b)
    ensures Buffer(Run(Fresh(symbol), before), b).rest == Run(Fresh(symbol), before).rest
  {
    hide Kept, Changes, Run, Sorted;
    StampsFollowTheFold(symbol, before);
    var log := Sorted(before);
    assert (log.open + [b])[..|log.open|] == log.open;
    assert Changes(log.open + [b]) == Changes(log.open) + b.changes by {
      ChangesOfOneMore(log.open, b);
    }
    KeptOfBoth(Changes(log.open), b.changes);
  }

  lemma ChangesOfOneMore(bs: seq<Batch>, b: Batch)
    ensures Changes(bs + [b]) == Changes(bs) + b.changes
  {
    assert (bs + [b])[..|bs|] == bs;
  }

  lemma RunLast(symbol: string, before: seq<Batch>, b: Batch)
    ensures Run(Fresh(symbol), before + [b]) == Apply(Run(Fresh(symbol), before), b)
  {
    hide Apply;
    assert (before + [b])[..|before|] == before;
  }

  /** What the next batch does to what rests. */
  lemma ApplyRests(symbol: string, before: seq<Batch>, b: Batch)
    ensures Run(Fresh(symbol), before + [b]).rest
            == if b.last then Capped(FoldEvent(Run(Fresh(symbol), before).rest, false, EventAt(before, b)).rest)
               else Run(Fresh(symbol), before).rest
  {
    hide Run, EventAt, FoldEvent;
    RunLast(symbol, before, b);
    BufferedAt(symbol, before, b);
    var a := Buffer(Run(Fresh(symbol), before), b);
    FoldEventIsApart(a.rest, a.orderLevel, a.pending);
  }

  lemma FoldEventOfBoth(xs: seq<Change>, ys: seq<Change>)
    ensures FoldEvent(FoldEvent(EMPTY, false, xs).rest, false, ys).rest == FoldEvent(EMPTY, false, xs + ys).rest
  {
    hide FoldAll;
    var f := FoldEvent(EMPTY, false, xs);
    FoldOfBoth(Folding(EMPTY, false, false, false), xs, ys);
    FlagsAreApart(Folding(f.rest, false, false, false), f, ys);
  }

  /** Neither flag bears on what rests. */
  lemma {:induction false} FlagsAreApart(f: Folding, g: Folding, cs: seq<Change>)
    requires f.rest == g.rest
    ensures FoldAll(f, cs).rest == FoldAll(g, cs).rest
    decreases |cs|
  {
    hide FoldOne;
    if cs != [] {
      FlagsAreApart(f, g, cs[..|cs| - 1]);
      OneFlagsApart(FoldAll(f, cs[..|cs| - 1]), FoldAll(g, cs[..|cs| - 1]), cs[|cs| - 1]);
    }
  }

  lemma ClearFlagsApart(f: Folding, g: Folding, side: Side)
    requires f.rest == g.rest
    ensures ClearSide(f, side).rest == ClearSide(g, side).rest
  {
    hide OrdersOn;
  }

  lemma OrderFlagsApart(f: Folding, g: Folding, c: Change)
    requires f.rest == g.rest
    ensures FoldOrder(f, c).rest == FoldOrder(g, c).rest
  {
    hide PriceKey, ClearSide;
    ClearFlagsApart(f, g, c.side);
  }

  lemma LevelFlagsApart(f: Folding, g: Folding, c: Change)
    requires f.rest == g.rest
    ensures FoldLevel(f, c).rest == FoldLevel(g, c).rest
  {
    hide PriceKey, ClearSide;
    ClearFlagsApart(f, g, c.side);
  }

  lemma OneFlagsApart(f: Folding, g: Folding, c: Change)
    requires f.rest == g.rest
    ensures FoldOne(f, c).rest == FoldOne(g, c).rest
  {
    hide FoldOrder, FoldLevel;
    OrderFlagsApart(f, g, c);
    LevelFlagsApart(f, g, c);
  }

  lemma {:induction false} RestsWhatWasFolded(symbol: string, feed: seq<Batch>)
    requires NeverOverflows(feed)
    ensures Run(Fresh(symbol), feed).rest == FoldEvent(EMPTY, false, FoldedChanges(feed)).rest
    decreases |feed|
  {
    hide Apply, FoldEvent, FoldedChanges, EventAt;
    if feed == [] {
      NothingFolded();
    } else {
      var before, b := feed[..|feed| - 1], feed[|feed| - 1];
      assert feed == before + [b];
      OverflowsEarlier(feed);
      RestsWhatWasFolded(symbol, before);
      ApplyRests(symbol, before, b);
      SortedLast(before, b);
      FoldEventOfBoth(FoldedChanges(before), EventAt(before, b));
      assert feed[..|feed|] == feed && FitsCap(feed[..|feed|]);
    }
  }

  lemma NothingFolded()
    ensures FoldEvent(EMPTY, false, FoldedChanges([])).rest == EMPTY
  {
    NothingKept();
  }

  lemma OverflowsEarlier(feed: seq<Batch>)
    requires feed != [] && NeverOverflows(feed)
    ensures NeverOverflows(feed[..|feed| - 1])
  {
    hide FitsCap;
    var before := feed[..|feed| - 1];
    forall n | 0 <= n <= |before|
      ensures FitsCap(before[..n])
    {
      assert before[..n] == feed[..n];
    }
  }

  /** Over every feed whose orders stay within their cap: what rests is the last word of all that has been folded,
      of nothing still buffered and of nothing given up. */
  lemma FeedLeavesTheLastWord(symbol: string, feed: seq<Batch>)
    requires NeverOverflows(feed)
    ensures LastWord(EMPTY, FoldedChanges(feed), Run(Fresh(symbol), feed).rest)
    ensures 0 !in Run(Fresh(symbol), feed).rest.orders
  {
    hide LastWord, FoldAll, FoldedChanges, Run;
    EveryRunIsSound(symbol, feed);
    RestsWhatWasFolded(symbol, feed);
    LastWordDecides(Folding(EMPTY, false, false, false), FoldedChanges(feed));
  }

  // ---- when the levels are the whole book ----

  /** The closing batch re-baselines. */
  ghost predicate RebaselinesAt(feed: seq<Batch>, i: nat)
    requires i < |feed|
  {
    feed[i].last && Covers(EventAt(feed[..i], feed[i]))
  }

  /** The batch gives up the event, or folds one that overflows the order cap. */
  ghost predicate LosesAt(symbol: string, feed: seq<Batch>, i: nat)
    requires i < |feed|
  {
    if feed[i].last then
      |FoldEvent(Run(Fresh(symbol), feed[..i]).rest, false, EventAt(feed[..i], feed[i])).rest.orders| > MAX_ACCUMULATED_ORDERS
    else |EventAt(feed[..i], feed[i])| > MAX_PENDING_CHANGES
  }

  ghost predicate BaselinedSince(symbol: string, feed: seq<Batch>, i: nat) {
    i < |feed| && RebaselinesAt(feed, i) && forall j :: i <= j < |feed| ==> !LosesAt(symbol, feed, j)
  }

  lemma ApplyBaselines(symbol: string, before: seq<Batch>, b: Batch)
    ensures var feed := before + [b];
            Run(Fresh(symbol), feed).baselined
            <==> (Run(Fresh(symbol), before).baselined || RebaselinesAt(feed, |before|)) && !LosesAt(symbol, feed, |before|)
  {
    hide Run, EventAt, FoldEvent, Covers;
    assert (before + [b])[..|before|] == before;
    RunLast(symbol, before, b);
    BufferedAt(symbol, before, b);
    var a := Buffer(Run(Fresh(symbol), before), b);
    FoldEventIsApart(a.rest, a.orderLevel, a.pending);
    EventFlags(a.rest, a.orderLevel, a.pending);
  }

  lemma SinceOneMore(symbol: string, before: seq<Batch>, b: Batch, i: nat)
    ensures var feed := before + [b];
            BaselinedSince(symbol, feed, i)
            <==> (if i == |before| then RebaselinesAt(feed, i) else BaselinedSince(symbol, before, i))
                 && i <= |before| && !LosesAt(symbol, feed, |before|)
  {
    var feed := before + [b];
    hide RebaselinesAt, LosesAt;
    forall j: nat | j < |before|
      ensures LosesAt(symbol, feed, j) <==> LosesAt(symbol, before, j)
      ensures RebaselinesAt(feed, j) <==> RebaselinesAt(before, j)
    {
      EarlierAlike(symbol, before, b, j);
    }
  }

  lemma EarlierAlike(symbol: string, before: seq<Batch>, b: Batch, j: nat)
    requires j < |before|
    ensures LosesAt(symbol, before + [b], j) <==> LosesAt(symbol, before, j)
    ensures RebaselinesAt(before + [b], j) <==> RebaselinesAt(before, j)
  {
    hide Run, EventAt, FoldEvent, Covers;
    assert (before + [b])[..j] == before[..j];
  }

  /** Over every feed, an accumulator says it is baselined if and only if some folded event cleared both sides and
      since then no event was given up and none overflowed the orders. */
  lemma {:induction false} BaselinedIff(symbol: string, feed: seq<Batch>)
    ensures Run(Fresh(symbol), feed).baselined <==> exists i: nat :: BaselinedSince(symbol, feed, i)
    decreases |feed|
  {
    hide Apply, RebaselinesAt, LosesAt;
    if feed != [] {
      hide BaselinedSince;
      var before, b := feed[..|feed| - 1], feed[|feed| - 1];
      assert feed == before + [b];
      BaselinedIff(symbol, before);
      ApplyBaselines(symbol, before, b);
      forall i: nat
        ensures BaselinedSince(symbol, feed, i)
                <==> (if i == |before| then RebaselinesAt(feed, i) else BaselinedSince(symbol, before, i))
                     && i <= |before| && !LosesAt(symbol, feed, |before|)
      {
        SinceOneMore(symbol, before, b, i);
      }
      if i: nat :| BaselinedSince(symbol, before, i) {
        SinceWithin(symbol, before, i);
        assert !LosesAt(symbol, feed, |before|) ==> BaselinedSince(symbol, feed, i);
      }
    }
  }

  lemma SinceWithin(symbol: string, feed: seq<Batch>, i: nat)
    requires BaselinedSince(symbol, feed, i)
    ensures i < |feed|
  {}

  // ---- what the replay's header says ----

  ghost predicate NamesAny(cs: seq<Change>) {
    exists c :: c in cs && Names(c, c.orderId)
  }

  lemma NamesAnyOfBoth(xs: seq<Change>, ys: seq<Change>)
    ensures NamesAny(xs + ys) <==> NamesAny(xs) || NamesAny(ys)
  {
    hide Names;
    if c :| c in xs && Names(c, c.orderId) {
      assert c in xs + ys;
    }
    if c :| c in ys && Names(c, c.orderId) {
      assert c in xs + ys;
    }
  }

  lemma FoldNames(f: Folding, cs: seq<Change>)
    ensures FoldAll(f, cs).orderLevel <==> f.orderLevel || NamesAny(cs)
  {
    hide FoldAll, Names;
    OrderLevelIff(f, cs);
    if c :| c in cs && Names(c, c.orderId) {
      var i :| 0 <= i < |cs| && cs[i] == c;
      assert Names(cs[i], cs[i].orderId);
    }
    if i :| 0 <= i < |cs| && Names(cs[i], cs[i].orderId) {
      assert cs[i] in cs;
    }
  }

  /** Over every feed, a market is order-level if and only if something folded has named an order; its symbol is the
      last one on the wire. */
  lemma {:induction false} GranularityIff(symbol: string, feed: seq<Batch>)
    ensures Run(Fresh(symbol), feed).orderLevel <==> NamesAny(FoldedChanges(feed))
    ensures Run(Fresh(symbol), feed).symbol == if feed == [] then symbol else feed[|feed| - 1].symbol
    decreases |feed|
  {
    hide Run, Apply, Buffer, FoldedChanges, EventAt, NamesAny;
    if feed == [] {
      NoneNamed(symbol);
    } else {
      var before, b := feed[..|feed| - 1], feed[|feed| - 1];
      assert feed == before + [b];
      GranularityIff(symbol, before);
      RunLast(symbol, before, b);
      BufferedAt(symbol, before, b);
      SortedLast(before, b);
      NamesAnyOfBoth(FoldedChanges(before), EventAt(before, b));
      ApplyNames(Run(Fresh(symbol), before), b);
    }
  }

  lemma ApplyNames(a: Acc, b: Batch)
    ensures Apply(a, b).orderLevel <==> a.orderLevel || (b.last && NamesAny(Buffer(a, b).pending))
    ensures Apply(a, b).symbol == b.symbol
  {
    hide FoldAll, NamesAny, Kept;
    FoldNames(Folding(a.rest, a.orderLevel, false, false), Buffer(a, b).pending);
  }

  lemma NoneNamed(symbol: string)
    ensures Run(Fresh(symbol), []) == Fresh(symbol) && !NamesAny(FoldedChanges([]))
  {
    NothingKept();
  }

  /** The replay of any feed says of itself that it is a whole book, closed, of the granularity, slot, time and
      symbol that the feed folded so far has. */
  lemma ReplayHeaderIsTheFeeds(symbol: string, feed: seq<Batch>, b: Batch)
    requires Materializes(Run(Fresh(symbol), feed), b)
    ensures b.snapshot && b.last
    ensures b.orderLevel <==> NamesAny(FoldedChanges(feed))
    ensures b.symbol == if feed == [] then symbol else feed[|feed| - 1].symbol
    ensures b.batchId == LastSlot(Sorted(feed).folded) && b.sourceTs == LastEventTime(Sorted(feed).folded)
    ensures b.changes != [] && b.changes[0] == CLEAR_BOTH
  {
    hide Run, FoldedChanges, NamesAny, ListsLevels, ListsOrders;
    GranularityIff(symbol, feed);
    StampsFollowTheFold(symbol, feed);
  }

  // ---- price keys, and the order of the replay ----

  /** The integer is nearest to the number; of two that are, it is the one further from zero. */
  predicate Nearest(x: real, n: int) {
    if x >= 0.0 then n as real - 0.5 <= x < n as real + 0.5 else n as real - 0.5 < x <= n as real + 0.5
  }

  lemma RoundIff(x: real, n: int)
    ensures Round(x) == n <==> Nearest(x, n)
  {}

  /** A price's key is the nearest count of 10^-8, within 128 bits and stuck at their ends. */
  lemma PriceKeyIff(price: real, key: int)
    ensures var x := price * 100000000.0;
            PriceKey(price) == key
            <==> -I128_MAX - 1 <= key <= I128_MAX
                 && (Nearest(x, key)
                     || (key == I128_MAX && x >= I128_MAX as real + 0.5)
                     || (key == -I128_MAX - 1 && x <= -I128_MAX as real - 1.5))
  {
    var x := price * 100000000.0;
    RoundIff(x, Round(x));
    RoundIff(x, key);
  }

  lemma RoundIsMonotone(x: real, y: real)
    requires x <= y
    ensures Round(x) <= Round(y)
  {
    RoundIff(x, Round(x));
    RoundIff(y, Round(y));
  }

  /** A better key is a better price. */
  lemma KeysOrderPrices(isBid: bool, x: real, y: real)
    requires BetterKey(isBid, PriceKey(x), PriceKey(y))
    ensures if isBid then x > y else x < y
  {
    hide Round;
    if x <= y {
      RoundIsMonotone(x * 100000000.0, y * 100000000.0);
    }
    if y <= x {
      RoundIsMonotone(y * 100000000.0, x * 100000000.0);
    }
  }

  /** The first row is ahead of the second: the better price of its side. */
  predicate BetterPrice(isBid: bool, x: Change, y: Change) {
    if isBid then x.price > y.price else x.price < y.price
  }

  ghost predicate LevelsBestFirst(rows: seq<Change>, isBid: bool) {
    && (forall i :: 0 <= i < |rows| ==> rows[i].side == SideOf(isBid))
    && (forall i, j :: 0 <= i < j < |rows| ==> BetterPrice(isBid, rows[i], rows[j]))
  }

  /** Bids before asks, better keys first, and at one key the lower order id. */
  predicate OrderAhead(x: Change, y: Change) {
    if x.side != y.side then x.side.Bid? && y.side.Ask?
    else BetterPrice(x.side.Bid?, x, y) || (PriceKey(x.price) == PriceKey(y.price) && x.orderId < y.orderId)
  }

  ghost predicate OrdersBestFirst(rows: seq<Change>) {
    forall i, j :: 0 <= i < j < |rows| ==> OrderAhead(rows[i], rows[j])
  }

  lemma ListedBestFirst(levels: map<int, Quote>, isBid: bool, keys: seq<int>, rows: seq<Change>)
    requires KeyedByPrice(levels) && ListsLevels(levels, isBid, keys, rows)
    ensures LevelsBestFirst(rows, isBid)
  {
    hide PriceKey;
    forall i, j | 0 <= i < j < |rows|
      ensures BetterPrice(isBid, rows[i], rows[j])
    {
      KeysOrderPrices(isBid, rows[i].price, rows[j].price);
    }
  }

  lemma ListedOrdersBestFirst(orders: map<nat, Order>, ids: seq<nat>, rows: seq<Change>)
    requires SoundOrders(orders) && ListsOrders(orders, ids, rows)
    ensures OrdersBestFirst(rows)
  {
    hide PriceKey, BetterKey;
    forall i, j | 0 <= i < j < |rows|
      ensures OrderAhead(rows[i], rows[j])
    {
      var x, y := orders[ids[i]], orders[ids[j]];
      assert OrderBefore(orders, ids[i], ids[j]);
      if x.isBid == y.isBid && x.key != y.key {
        KeysOrderPrices(x.isBid, x.price, y.price);
      }
    }
  }

  /** The replay is a clear, the bids best first, the asks best first, and then the orders, bids first, best first, ties
      by id. */
  lemma ReplayIsBestFirst(a: Acc, b: Batch)
    requires Sound(a) && Materializes(a, b)
    ensures exists bids, asks, orders ::
              b.changes == [CLEAR_BOTH] + bids + asks + orders
              && LevelsBestFirst(bids, true) && LevelsBestFirst(asks, false) && OrdersBestFirst(orders)
  {
    hide ListsLevels, ListsOrders, KeyedByPrice, SoundOrders, LevelsBestFirst, OrdersBestFirst;
    var bidKeys, askKeys, ids, bidRows, askRows, orderRows :|
      && ListsLevels(a.rest.bids, true, bidKeys, bidRows)
      && ListsLevels(a.rest.asks, false, askKeys, askRows)
      && ListsOrders(a.rest.orders, ids, orderRows)
      && b == ToClear(a, b.recvTs).(changes := [CLEAR_BOTH] + bidRows + askRows + orderRows);
    ListedBestFirst(a.rest.bids, true, bidKeys, bidRows);
    ListedBestFirst(a.rest.asks, false, askKeys, askRows);
    ListedOrdersBestFirst(a.rest.orders, ids, orderRows);
  }
}
