/**
 The store's clock and counters are the trace's: least recently traded means exactly that, and forgetting a channel
 spares every other universe.
 */
module HistoryTrace {
  import opened Wrappers
  import opened Collections
  import opened HistoryModel
  import opened HistoryStore
  import opened HistoryLog

  // ---- who was traded last ----

  ghost predicate Trades(events: seq<Event>, i: nat)
    requires i < |events|
  {
    events[i].Arrive? && !Late(Run(EMPTY_STORE, events[..i]), events[i].k, events[i].p)
  }

  /** How many of the first `n` events were accepted prints, of any product. */
  ghost function Traded(events: seq<Event>, n: nat): nat
    requires n <= |events|
  {
    if n == 0 then 0 else Traded(events, n - 1) + if Trades(events, n - 1) then 1 else 0
  }

  ghost function Refused(events: seq<Event>, n: nat): nat
    requires n <= |events|
  {
    if n == 0 then 0 else Refused(events, n - 1) + if events[n - 1].Arrive? && !Trades(events, n - 1) then 1 else 0
  }

  /** The `i`-th event was the product's last accepted print. */
  ghost predicate LastTraded(events: seq<Event>, i: nat, k: Key) {
    && i < |events| && Trades(events, i) && events[i].k == k
    && forall j :: i < j < |events| && Trades(events, j) ==> events[j].k != k
  }

  lemma BudgetKeepsClock(t: Store)
    ensures EnforceBudget(t).touchClock == t.touchClock && EnforceBudget(t).lateDrops == t.lateDrops
    decreases |t.products|
  {
    if !(t.bucketsTotal <= MAX_BUCKETS || t.products == map[]) {
      SmallerWithout(t.products, Oldest(t.products));
      BudgetKeepsClock(Evict(t, Oldest(t.products)));
    }
  }

  lemma StepClock(s: Store, e: Event)
    ensures var t := Step(s, e);
            && t.touchClock == s.touchClock + (if e.Arrive? && !Late(s, e.k, e.p) then 1 else 0)
            && t.lateDrops == s.lateDrops + (if e.Arrive? && Late(s, e.k, e.p) then 1 else 0)
  {
    hide Fold;
    if e.Arrive? && !Late(s, e.k, e.p) {
      BudgetKeepsClock(Recorded(s, e.k, e.p));
    }
  }

  lemma StepTouches(s: Store, e: Event, k: Key)
    requires StoreOk(s) && k in Step(s, e).products
    ensures if Accepts(s, e, k) then Step(s, e).products[k].lastTouch == s.touchClock + 1
            else k in s.products && Step(s, e).products[k].lastTouch == s.products[k].lastTouch
  {
    hide Step, StoreOk;
    StepOnProduct(s, e, k);
  }

  lemma TradesEarlier(events: seq<Event>, i: nat)
    requires events != [] && i < |events| - 1
    ensures Trades(events[..|events| - 1], i) <==> Trades(events, i)
  {
    hide Run;
    assert events[..|events| - 1][..i] == events[..i];
  }

  lemma {:induction false} CountsEarlier(events: seq<Event>, n: nat)
    requires events != [] && n <= |events| - 1
    ensures Traded(events[..|events| - 1], n) == Traded(events, n)
    ensures Refused(events[..|events| - 1], n) == Refused(events, n)
  {
    hide Trades;
    if n > 0 {
      CountsEarlier(events, n - 1);
      TradesEarlier(events, n - 1);
    }
  }

  /** Over every run the store's clock counts accepted prints and its late drops the refused ones. */
  lemma {:induction false} CountersAreTheTraces(events: seq<Event>)
    ensures Run(EMPTY_STORE, events).touchClock == Traded(events, |events|)
    ensures Run(EMPTY_STORE, events).lateDrops == Refused(events, |events|)
    decreases |events|
  {
    hide Step, Late;
    if events != [] {
      var before, e := events[..|events| - 1], events[|events| - 1];
      CountersAreTheTraces(before);
      CountsEarlier(events, |before|);
      StepClock(Run(EMPTY_STORE, before), e);
    }
  }

  /** A tracked product's tick is the store's clock at its last accepted print. */
  lemma {:induction false} TicksAreTrades(events: seq<Event>, k: Key) returns (i: nat)
    requires k in Run(EMPTY_STORE, events).products
    ensures LastTraded(events, i, k) && Run(EMPTY_STORE, events).products[k].lastTouch == Traded(events, i + 1)
    decreases |events|
  {
    hide Step, Late, StoreOk;
    var before, e := events[..|events| - 1], events[|events| - 1];
    var s := Run(EMPTY_STORE, before);
    EveryRunIsOk(before);
    StepTouches(s, e, k);
    CountersAreTheTraces(before);
    CountsEarlier(events, |before|);
    if Accepts(s, e, k) {
      i := |events| - 1;
    } else {
      i := TicksAreTrades(before, k);
      CountsEarlier(events, i + 1);
      TradesEarlier(events, i);
      forall j | i < j < |events| && Trades(events, j)
        ensures events[j].k != k
      {
        if j < |before| {
          TradesEarlier(events, j);
          assert before[j] == events[j];
        }
      }
    }
  }

  lemma {:induction false} TradedGrows(events: seq<Event>, m: nat, n: nat)
    requires m <= n <= |events|
    ensures Traded(events, m) <= Traded(events, n)
    ensures m < n && Trades(events, n - 1) ==> Traded(events, m) < Traded(events, n)
    decreases n
  {
    hide Trades;
    if m < n {
      TradedGrows(events, m, n - 1);
    }
  }

  /** Over every run, of two tracked products the one with the lower tick is the one whose last accepted print came
      first. So the least recently traded product is what the caps evict. */
  lemma TickOrderIsTradeOrder(events: seq<Event>, j: Key, k: Key, x: nat, y: nat)
    requires j in Run(EMPTY_STORE, events).products && k in Run(EMPTY_STORE, events).products
    requires LastTraded(events, x, j) && LastTraded(events, y, k)
    ensures var products := Run(EMPTY_STORE, events).products;
            products[j].lastTouch < products[k].lastTouch <==> x < y
  {
    hide Run, Trades;
    var m := TicksAreTrades(events, j);
    var n := TicksAreTrades(events, k);
    assert m == x && n == y;
    if x < y {
      TradedGrows(events, x + 1, y + 1);
    } else {
      TradedGrows(events, y + 1, x + 1);
    }
  }

  // ---- forgetting a channel ----

  /** Forgetting drops a product if and only if its source, its category and its channel are all the ones named; so a
      product of another universe on the same channel stays as it is. */
  lemma ForgetsOnlyTheUniverse(s: Store, sources: seq<nat>, category: string, channel: nat, k: Key)
    requires StoreOk(s)
    ensures var t := ForgetChannel(s, sources, category, channel);
            && (k in t.products <==> k in s.products && !(k.source in sources && k.category == category && k.channel == channel))
            && (k in t.products ==> t.products[k] == s.products[k])
            && t.bucketsTotal == SumBy(t.products, Count())
            && t.(products := s.products, bucketsTotal := s.bucketsTotal) == s
  {
    hide AllOk, TouchesOk;
  }
}
