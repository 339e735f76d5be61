/**
 Buckets refine the print log: the buckets of a tracked product are exactly the summaries, second by
 second, of the prints it accepted that are still within its window, and its ring is the newest of them.
 */
module HistoryLog {
  import opened Wrappers
  import opened Collections
  import opened HistoryModel
  import opened HistoryStore

  // ---- the summary of one second's prints ----

  /** The log's prints at second `t`, in arrival order. */
  function At(log: seq<Print>, t: nat): seq<Print>
    decreases |log|
  {
    if log == [] then []
    else At(log[..|log| - 1], t) + if Second(log[|log| - 1]) == t then [log[|log| - 1]] else []
  }

  function Highest(ps: seq<Print>): real
    requires ps != []
    decreases |ps|
  {
    if |ps| == 1 then ps[0].price else Higher(Highest(ps[..|ps| - 1]), ps[|ps| - 1].price)
  }

  function Lowest(ps: seq<Print>): real
    requires ps != []
    decreases |ps|
  {
    if |ps| == 1 then ps[0].price else Lower(Lowest(ps[..|ps| - 1]), ps[|ps| - 1].price)
  }

  function TotalSize(ps: seq<Print>): real
    decreases |ps|
  {
    if ps == [] then 0.0 else TotalSize(ps[..|ps| - 1]) + ps[|ps| - 1].size
  }

  /** First, maximum, minimum, last and sum. */
  function Summary(ps: seq<Print>): Bucket
    requires ps != []
  {
    Bucket(ps[0].price, Highest(ps), Lowest(ps), ps[|ps| - 1].price, TotalSize(ps))
  }

  lemma {:induction false} HighestIsMax(ps: seq<Print>)
    requires ps != []
    ensures forall i :: 0 <= i < |ps| ==> ps[i].price <= Highest(ps)
    ensures exists i :: 0 <= i < |ps| && ps[i].price == Highest(ps)
    decreases |ps|
  {
    if |ps| > 1 {
      var front := ps[..|ps| - 1];
      HighestIsMax(front);
      assert forall i :: 0 <= i < |front| ==> front[i] == ps[i];
      var i :| 0 <= i < |front| && front[i].price == Highest(front);
      var j := if Highest(front) >= ps[|ps| - 1].price then i else |ps| - 1;
      assert ps[j].price == Highest(ps);
    } else {
      assert ps[0].price == Highest(ps);
    }
  }

  lemma {:induction false} LowestIsMin(ps: seq<Print>)
    requires ps != []
    ensures forall i :: 0 <= i < |ps| ==> Lowest(ps) <= ps[i].price
    ensures exists i :: 0 <= i < |ps| && ps[i].price == Lowest(ps)
    decreases |ps|
  {
    if |ps| > 1 {
      var front := ps[..|ps| - 1];
      LowestIsMin(front);
      assert forall i :: 0 <= i < |front| ==> front[i] == ps[i];
      var i :| 0 <= i < |front| && front[i].price == Lowest(front);
      var j := if Lowest(front) <= ps[|ps| - 1].price then i else |ps| - 1;
      assert ps[j].price == Lowest(ps);
    } else {
      assert ps[0].price == Lowest(ps);
    }
  }

  lemma SummaryOneMore(ps: seq<Print>, p: Print)
    ensures Summary(ps + [p]) == if ps == [] then OpenedBy(p) else Widen(Summary(ps), p)
  {
    var more := ps + [p];
    assert more[..|more| - 1] == ps;
    assert TotalSize(more) == TotalSize(ps) + p.size;
  }

  // ---- refinement of one product ----

  function NewestOf(log: seq<Print>): nat
    decreases |log|
  {
    if log == [] then 0
    else
      var n, t := NewestOf(log[..|log| - 1]), Second(log[|log| - 1]);
      if n >= t then n else t
  }

  /** Second `t` is within the window of the newest second logged. */
  predicate InWindow(log: seq<Print>, t: nat) {
    NewestOf(log) <= t + WINDOW_SECS
  }

  function LastPrints(log: seq<Print>): seq<Print> {
    if |log| > TRADE_RING then log[|log| - TRADE_RING..] else log
  }

  /** A bucket exists exactly for the seconds in the window at which a print was accepted, and is the
      summary of those prints. */
  ghost predicate BucketsRefine(buckets: map<nat, Bucket>, log: seq<Print>) {
    forall t: nat :: BucketRefines(buckets, log, t)
  }

  predicate BucketRefines(buckets: map<nat, Bucket>, log: seq<Print>, t: nat) {
    && (t in buckets <==> At(log, t) != [] && InWindow(log, t))
    && (t in buckets ==> buckets[t] == Summary(At(log, t)))
  }

  ghost predicate Refines(p: Product, log: seq<Print>) {
    && log != [] && p.newest == Some(NewestOf(log))
    && BucketsRefine(p.buckets, log)
    && p.ring == LastPrints(log)
  }

  lemma LogOneMore(log: seq<Print>, p: Print)
    ensures NewestOf(log + [p]) == if NewestOf(log) >= Second(p) then NewestOf(log) else Second(p)
    ensures forall t: nat :: At(log + [p], t) == At(log, t) + if Second(p) == t then [p] else []
  {
    assert (log + [p])[..|log|] == log;
  }

  lemma FoldRefinesBucket(buckets: map<nat, Bucket>, log: seq<Print>, p: Print, t: nat)
    requires BucketRefines(buckets, log, t) && InWindow(log, Second(p))
    ensures BucketRefines(From(Upsert(buckets, p), Minus(NewestOf(log + [p]), WINDOW_SECS)), log + [p], t)
  {
    hide Summary, At, Widen, NewestOf;
    LogOneMore(log, p);
    SummaryOneMore(At(log, Second(p)), p);
    assert t >= Minus(NewestOf(log + [p]), WINDOW_SECS) <==> InWindow(log + [p], t);
    assert t != Second(p) ==> At(log + [p], t) == At(log, t);
  }

  lemma PushedIsLast(log: seq<Print>, p: Print)
    ensures Pushed(LastPrints(log), p) == LastPrints(log + [p])
  {}

  lemma FoldRefines(product: Product, log: seq<Print>, p: Print)
    requires if product.newest.None? then log == [] && product.buckets == map[] && product.ring == [] else Refines(product, log)
    requires product.newest.Some? ==> product.newest.value <= Second(p) + WINDOW_SECS
    ensures Refines(Fold(product, p), log + [p])
  {
    hide From, Upsert, BucketRefines, InWindow, At;
    LogOneMore(log, p);
    PushedIsLast(log, p);
    if product.newest.None? {
      EmptyRefines(p);
    }
    assert InWindow(log, Second(p)) by {
      WithinWindow(log, Second(p));
    }
    forall t: nat
      ensures BucketRefines(Fold(product, p).buckets, log + [p], t)
    {
      assert BucketRefines(product.buckets, log, t);
      FoldRefinesBucket(product.buckets, log, p, t);
    }
  }

  lemma EmptyRefines(p: Print)
    ensures BucketsRefine(map[], []) && NewestOf([]) == 0
  {}

  lemma WithinWindow(log: seq<Print>, t: nat)
    requires NewestOf(log) <= t + WINDOW_SECS
    ensures InWindow(log, t)
  {}

  // ---- the log of a product over a run ----

  ghost predicate Accepts(s: Store, e: Event, k: Key) {
    e.Arrive? && e.k == k && !Late(s, k, e.p)
  }

  /** The prints a product has accepted since it was last created; none while it is not tracked. */
  ghost function Accepted(events: seq<Event>, k: Key): seq<Print>
    decreases |events|
  {
    if events == [] || k !in Run(EMPTY_STORE, events).products then []
    else
      var before, e := events[..|events| - 1], events[|events| - 1];
      Accepted(before, k) + if Accepts(Run(EMPTY_STORE, before), e, k) then [e.p] else []
  }

  lemma BudgetSparesTheWritten(t: Store, k: Key)
    requires AllOk(t.products) && TouchesOk(t) && TotalOk(t) && t.bucketsTotal <= MAX_BUCKETS + 1
    requires k in t.products && t.products[k].lastTouch == t.touchClock
    ensures k in EnforceBudget(t).products && EnforceBudget(t).products[k] == t.products[k]
  {
    hide AllOk, TotalOk, TouchesOk;
    if t.bucketsTotal > MAX_BUCKETS {
      BudgetEvictsOne(t, k);
      OldestIsTracked(t.products);
    }
  }

  /** What one step does to one product that is tracked after it. */
  lemma StepOnProduct(s: Store, e: Event, k: Key)
    requires StoreOk(s) && k in Step(s, e).products
    ensures if Accepts(s, e, k) then Step(s, e).products[k] == Fold(Opened(s, k), e.p)
            else k in s.products && Step(s, e).products[k] == s.products[k]
  {
    hide Fold, StoreOk, Recorded, EnforceBudget;
    match e
    case Forget(_, _, _) =>
    case Arrive(j, p) =>
      if !Late(s, j, p) {
        if j == k {
          RecordedUnfolds(s, k, p);
          RecordedIsOk(s, k, p);
          BudgetSparesTheWritten(Recorded(s, k, p), k);
        } else {
          OneEvictionAtMost(s, j, p);
        }
      }
  }

  /** Over every run the buckets of a tracked product are exactly the summaries of the prints it accepted
      since it was created that lie within its window, so late rejection and window eviction meet
      exactly; and its ring is the newest of those prints. */
  lemma {:induction false} BucketsRefineTheLog(events: seq<Event>, k: Key)
    requires k in Run(EMPTY_STORE, events).products
    ensures Refines(Run(EMPTY_STORE, events).products[k], Accepted(events, k))
    decreases |events|
  {
    hide Step, Refines, Fold, StoreOk;
    if events != [] {
      var before, e := events[..|events| - 1], events[|events| - 1];
      var s := Run(EMPTY_STORE, before);
      EveryRunIsOk(before);
      StepOnProduct(s, e, k);
      if k in s.products {
        BucketsRefineTheLog(before, k);
      }
      if Accepts(s, e, k) {
        OpenedIsReady(s, k, e.p, Accepted(before, k));
        FoldRefines(Opened(s, k), Accepted(before, k), e.p);
      } else {
        assert Accepted(events, k) == Accepted(before, k);
      }
    }
  }

  lemma OpenedIsReady(s: Store, k: Key, p: Print, log: seq<Print>)
    requires StoreOk(s) && !Late(s, k, p)
    requires if k in s.products then Refines(s.products[k], log) else log == []
    ensures var o := Opened(s, k);
            if o.newest.None? then log == [] && o.buckets == map[] && o.ring == [] else Refines(o, log)
    ensures Opened(s, k).newest.Some? ==> Opened(s, k).newest.value <= Second(p) + WINDOW_SECS
  {
    hide BucketsRefine, LastPrints, NewestOf, Second;
  }

  /** A second's bucket is gone for good once its window passes: no later print can reach it. */
  lemma RejectedExactlyOutsideTheWindow(events: seq<Event>, k: Key, p: Print)
    requires k in Run(EMPTY_STORE, events).products
    ensures Late(Run(EMPTY_STORE, events), k, p) <==> !InWindow(Accepted(events, k), Second(p))
  {
    hide Run, BucketsRefine, NewestOf, Second;
    BucketsRefineTheLog(events, k);
  }
}
