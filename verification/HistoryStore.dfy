/**
 The history store over every run: its running total is the recount, each print evicts at most one
 product and never the one it wrote, and the buckets of a tracked product are exactly the summary of the
 prints it accepted that are still within its window.
 */
module HistoryStore {
  import opened Wrappers
  import opened Collections
  import opened HistoryModel

  // ---- what every reachable store satisfies ----

  /** A tracked product holds its newest second, and only seconds within its window of that. */
  ghost predicate ProductOk(p: Product) {
    && p.newest.Some?
    && p.newest.value in p.buckets
    && forall t :: t in p.buckets ==> t <= p.newest.value && p.newest.value <= t + WINDOW_SECS
  }

  /** No two products were touched at the same tick, and none in the future. */
  ghost predicate TouchesOk(s: Store) {
    && (forall k :: k in s.products ==> s.products[k].lastTouch <= s.touchClock)
    && DistinctTouches(s.products)
  }

  ghost predicate DistinctTouches(products: map<Key, Product>) {
    forall j, k :: j in products && k in products && products[j].lastTouch == products[k].lastTouch ==> j == k
  }

  ghost predicate AllOk(products: map<Key, Product>) {
    forall k :: k in products ==> ProductOk(products[k])
  }

  ghost predicate TotalOk(s: Store) {
    s.bucketsTotal == SumBy(s.products, Count())
  }

  ghost predicate StoreOk(s: Store) {
    && AllOk(s.products) && TouchesOk(s) && TotalOk(s)
    && |s.products| <= MAX_PRODUCTS
    && s.bucketsTotal <= MAX_BUCKETS
  }

  /** The least recently traded product is the only one. */
  lemma OldestIsUnique(products: map<Key, Product>, j: Key, k: Key)
    requires DistinctTouches(products) && IsOldest(products, j) && IsOldest(products, k)
    ensures j == k
  {}

  // ---- one product ----

  lemma FoldKeepsProductOk(product: Product, p: Print)
    requires product.newest.Some? ==> ProductOk(product)
    requires product.newest.None? ==> product.buckets == map[]
    requires product.newest.Some? ==> product.newest.value <= Second(p) + WINDOW_SECS
    ensures ProductOk(Fold(product, p))
  {}

  /** A product holds at most a window's worth of buckets and the newest second. */
  lemma WindowBoundsBuckets(p: Product)
    requires ProductOk(p)
    ensures 1 <= |p.buckets| <= WINDOW_SECS + 1
  {
    var newest := p.newest.value;
    var lo := Minus(newest, WINDOW_SECS);
    SpanSize(lo, newest - lo + 1);
    assert p.buckets.Keys <= Span(lo, newest - lo + 1);
    SizeOfSubset(p.buckets.Keys, Span(lo, newest - lo + 1));
    SmallerWithout(p.buckets, newest);
  }

  /** The `n` seconds from `lo` on. */
  function Span(lo: nat, n: nat): set<nat> {
    if n == 0 then {} else Span(lo, n - 1) + {lo + n - 1}
  }

  lemma {:induction false} SpanSize(lo: nat, n: nat)
    ensures |Span(lo, n)| == n
    ensures forall t: nat :: t in Span(lo, n) <==> lo <= t < lo + n
  {
    if n > 0 {
      SpanSize(lo, n - 1);
    }
  }

  /** A fold adds at most the print's own bucket. */
  lemma FoldAddsAtMostOne(product: Product, p: Print)
    ensures |Fold(product, p).buckets| <= |product.buckets| + 1
  {
    var up := Upsert(product.buckets, p);
    assert up.Keys == product.buckets.Keys + {Second(p)};
    assert Fold(product, p).buckets.Keys <= up.Keys;
    SizeOfSubset(Fold(product, p).buckets.Keys, up.Keys);
  }

  // ---- eviction ----

  lemma EvictKeepsTotal(s: Store, k: Key)
    requires TotalOk(s) && k in s.products
    ensures TotalOk(Evict(s, k))
  {
    SumSplit(s.products, Count(), k);
  }

  lemma EvictKeepsRest(s: Store, k: Key)
    requires AllOk(s.products) && TouchesOk(s) && k in s.products
    ensures AllOk(Evict(s, k).products) && TouchesOk(Evict(s, k))
    ensures |Evict(s, k).products| == |s.products| - 1
  {
    SmallerWithout(s.products, k);
  }

  /** The product a new key would push out by the cardinality cap. */
  ghost predicate AtCap(s: Store, k: Key) {
    k !in s.products && |s.products| >= MAX_PRODUCTS
  }

  ghost function Roomed(s: Store, k: Key): Store {
    if AtCap(s, k) then Evict(s, Oldest(s.products)) else s
  }

  lemma RoomedIsOk(s: Store, k: Key)
    requires StoreOk(s)
    ensures var t := Roomed(s, k);
            && AllOk(t.products) && TouchesOk(t) && TotalOk(t) && t.bucketsTotal <= MAX_BUCKETS
            && (k !in t.products ==> |t.products| < MAX_PRODUCTS)
            && |t.products| <= MAX_PRODUCTS
            && (AtCap(s, k) ==> t.bucketsTotal < MAX_BUCKETS)
            && (k in t.products <==> k in s.products) && t.touchClock == s.touchClock
  {
    hide AllOk, TouchesOk;
    if AtCap(s, k) {
      assert s.products != map[];
      var old_ := Oldest(s.products);
      EvictKeepsTotal(s, old_);
      EvictKeepsRest(s, old_);
      assert ProductOk(s.products[old_]) by {
        AllOkAt(s.products, old_);
      }
      WindowBoundsBuckets(s.products[old_]);
    }
  }

  lemma AllOkAt(products: map<Key, Product>, k: Key)
    requires AllOk(products) && k in products
    ensures ProductOk(products[k])
  {}

  /** The product before its print, touched. */
  ghost function Opened(s: Store, k: Key): Product {
    (if k in s.products then s.products[k] else NEW_PRODUCT).(lastTouch := s.touchClock + 1)
  }

  lemma RecordedUnfolds(s: Store, k: Key, p: Print)
    ensures var t, after := Roomed(s, k), Fold(Opened(s, k), p);
            k in t.products <==> k in s.products
    ensures var t, after := Roomed(s, k), Fold(Opened(s, k), p);
            var held := if k in s.products then |s.products[k].buckets| else 0;
            Recorded(s, k, p)
            == t.(touchClock := s.touchClock + 1, products := t.products[k := after],
                  bucketsTotal := t.bucketsTotal + |after.buckets| - held)
  {
    hide Fold;
    var t := Roomed(s, k);
    var after := Fold(Opened(s, k), p);
    assert t.products[k := Opened(s, k)][k := after] == t.products[k := after];
  }

  lemma PutKeepsTouches(t: Store, k: Key, after: Product, clock: nat, total: int)
    requires TouchesOk(t) && clock > t.touchClock && after.lastTouch == clock
    ensures TouchesOk(t.(touchClock := clock, products := t.products[k := after], bucketsTotal := total))
  {}

  lemma PutKeepsTotal(t: Store, k: Key, after: Product, clock: nat)
    requires TotalOk(t)
    ensures var held := if k in t.products then |t.products[k].buckets| else 0;
            TotalOk(t.(touchClock := clock, products := t.products[k := after],
                       bucketsTotal := t.bucketsTotal + |after.buckets| - held))
  {
    SumUpdate(t.products, Count(), k, after);
  }

  lemma PutKeepsAllOk(products: map<Key, Product>, k: Key, after: Product)
    requires AllOk(products) && ProductOk(after)
    ensures AllOk(products[k := after])
  {
    hide ProductOk;
  }

  lemma OpenedFolds(s: Store, k: Key, p: Print)
    requires AllOk(s.products) && !Late(s, k, p)
    ensures ProductOk(Fold(Opened(s, k), p))
    ensures |Fold(Opened(s, k), p).buckets| <= (if k in s.products then |s.products[k].buckets| else 0) + 1
    ensures Fold(Opened(s, k), p).lastTouch == s.touchClock + 1
  {
    FoldKeepsProductOk(Opened(s, k), p);
    FoldAddsAtMostOne(Opened(s, k), p);
  }

  lemma RecordedIsOk(s: Store, k: Key, p: Print)
    requires StoreOk(s) && !Late(s, k, p)
    ensures var t := Recorded(s, k, p);
            && AllOk(t.products) && TouchesOk(t) && TotalOk(t)
            && |t.products| <= MAX_PRODUCTS
            && t.bucketsTotal <= MAX_BUCKETS + (if AtCap(s, k) then 0 else 1)
            && k in t.products && t.products[k].lastTouch == t.touchClock
  {
    hide AllOk, TouchesOk, TotalOk, Fold, ProductOk, Recorded, Opened, Roomed;
    RoomedIsOk(s, k);
    RecordedUnfolds(s, k, p);
    var t, after := Roomed(s, k), Fold(Opened(s, k), p);
    OpenedFolds(s, k, p);
    PutKeepsTouches(t, k, after, s.touchClock + 1,
                    t.bucketsTotal + |after.buckets| - if k in s.products then |s.products[k].buckets| else 0);
    assert k in t.products ==> t.products[k] == s.products[k] by {
      RoomedKeeps(s, k);
    }
    PutKeepsTotal(t, k, after, s.touchClock + 1);
    PutKeepsAllOk(t.products, k, after);
    assert t.products[k := after].Keys == t.products.Keys + {k};
  }

  lemma RoomedKeeps(s: Store, k: Key)
    ensures var t := Roomed(s, k);
            forall j :: j in t.products ==> j in s.products && t.products[j] == s.products[j]
  {}

  // ---- the bucket budget ----

  lemma OthersHoldSome(t: Store, k: Key)
    requires AllOk(t.products) && TotalOk(t) && k in t.products && t.bucketsTotal > MAX_BUCKETS
    ensures t.products - {k} != map[]
  {
    SumSplit(t.products, Count(), k);
    WindowBoundsBuckets(t.products[k]);
    SumOfNothing(t.products - {k}, Count());
  }

  /** The oldest of an over-budget store is not the product just written, and evicting it is enough. */
  lemma BudgetEvictsOne(t: Store, k: Key)
    requires AllOk(t.products) && TouchesOk(t) && TotalOk(t) && k in t.products
    requires t.products[k].lastTouch == t.touchClock && t.bucketsTotal == MAX_BUCKETS + 1
    ensures t.products != map[] && Oldest(t.products) != k
    ensures EnforceBudget(t) == Evict(t, Oldest(t.products))
    ensures Evict(t, Oldest(t.products)).bucketsTotal <= MAX_BUCKETS
  {
    OthersHoldSome(t, k);
    var j :| j in t.products - {k};
    var old_ := Oldest(t.products);
    assert t.products[old_].lastTouch <= t.products[j].lastTouch;
    WindowBoundsBuckets(t.products[old_]);
    SmallerWithout(t.products, old_);
  }

  /** What a print evicts: nothing, or the one product named. */
  ghost predicate Evicts(s: Store, k: Key, p: Print, gone: set<Key>) {
    var t := Ingest(s, k, p);
    && gone <= s.products.Keys && |gone| <= 1 && k !in gone
    && t.products.Keys == s.products.Keys + {k} - gone
    && t.evicted == s.evicted + |gone|
    && (forall j :: j in t.products && j != k ==> t.products[j] == s.products[j])
    && (forall x, j :: x in gone && j in s.products && j != x && j != k ==>
          s.products[x].lastTouch < s.products[j].lastTouch)
  }

  /** The keys and the untouched products after the write, before the budget is enforced. */
  lemma RecordedProducts(s: Store, k: Key, p: Print)
    ensures var t := Recorded(s, k, p);
            && t.products.Keys == Roomed(s, k).products.Keys + {k}
            && (forall j :: j in t.products && j != k ==> j in s.products && t.products[j] == s.products[j])
            && t.evicted == Roomed(s, k).evicted
  {
    hide Recorded, Fold, Roomed;
    RecordedUnfolds(s, k, p);
    RoomedKeeps(s, k);
  }

  lemma StrictlyOldest(s: Store, x: Key)
    requires TouchesOk(s) && IsOldest(s.products, x)
    ensures forall j :: j in s.products && j != x ==> s.products[x].lastTouch < s.products[j].lastTouch
  {}

  lemma CapEvicts(s: Store, k: Key, p: Print)
    requires TouchesOk(s) && AtCap(s, k) && Ingest(s, k, p) == Recorded(s, k, p) && s.products != map[]
    ensures Evicts(s, k, p, {Oldest(s.products)})
  {
    hide Recorded, Ingest, TouchesOk, IsOldest;
    RecordedProducts(s, k, p);
    var x := Oldest(s.products);
    assert x in s.products by {
      OldestIsTracked(s.products);
    }
    StrictlyOldest(s, x);
    assert Ingest(s, k, p).products.Keys == s.products.Keys + {k} - {x};
  }

  lemma OldestIsTracked(products: map<Key, Product>)
    requires products != map[]
    ensures Oldest(products) in products
  {}

  lemma NothingEvicted(s: Store, k: Key, p: Print)
    requires !AtCap(s, k) && Ingest(s, k, p) == Recorded(s, k, p)
    ensures Evicts(s, k, p, {})
  {
    hide Recorded, Ingest;
    RecordedProducts(s, k, p);
    assert Ingest(s, k, p).products.Keys == s.products.Keys + {k} - {};
  }

  lemma EvictedIs(s: Store, k: Key, p: Print, x: Key)
    requires TouchesOk(s) && !AtCap(s, k) && x != k && IsOldest(Recorded(s, k, p).products, x)
    requires Ingest(s, k, p) == Evict(Recorded(s, k, p), x)
    ensures Evicts(s, k, p, {x})
  {
    hide Recorded, Ingest, IsOldest, TouchesOk, Fold;
    RecordedProducts(s, k, p);
    var t := Recorded(s, k, p);
    WrittenAlone(s, k, t);
    OldestOfTheOthers(s, k, t.products[k], x);
    EvictedKeys(s, k, t, x);
  }

  lemma WrittenAlone(s: Store, k: Key, t: Store)
    requires t.products.Keys == s.products.Keys + {k}
    requires forall j :: j in t.products && j != k ==> j in s.products && t.products[j] == s.products[j]
    ensures t.products == s.products[k := t.products[k]]
  {}

  lemma EvictedKeys(s: Store, k: Key, t: Store, x: Key)
    requires k in t.products && t.products == s.products[k := t.products[k]] && x in t.products
    ensures Evict(t, x).products.Keys == s.products.Keys + {k} - {x}
  {}

  /** The oldest product after the write, when it is another, was the oldest other product before. */
  lemma OldestOfTheOthers(s: Store, k: Key, after: Product, x: Key)
    requires TouchesOk(s) && x != k && IsOldest(s.products[k := after], x)
    ensures x in s.products
    ensures forall j :: j in s.products && j != x && j != k ==> s.products[x].lastTouch < s.products[j].lastTouch
  {
    var products := s.products[k := after];
    assert x in products;
    forall j | j in s.products && j != x && j != k
      ensures s.products[x].lastTouch < s.products[j].lastTouch
    {
      assert products[x].lastTouch <= products[j].lastTouch;
    }
  }

  /** The budget leaves a sound store, by evicting the oldest product or none. */
  lemma BudgetKeepsOk(t: Store, k: Key)
    requires AllOk(t.products) && TouchesOk(t) && TotalOk(t) && |t.products| <= MAX_PRODUCTS
    requires k in t.products && t.products[k].lastTouch == t.touchClock && t.bucketsTotal <= MAX_BUCKETS + 1
    ensures StoreOk(EnforceBudget(t)) && t.products != map[]
    ensures if t.bucketsTotal > MAX_BUCKETS then EnforceBudget(t) == Evict(t, Oldest(t.products)) && Oldest(t.products) != k
            else EnforceBudget(t) == t
  {
    hide AllOk, TotalOk, TouchesOk, Evict, IsOldest;
    if t.bucketsTotal > MAX_BUCKETS {
      BudgetEvictsOne(t, k);
      OldestIsTracked(t.products);
      EvictKeepsTotal(t, Oldest(t.products));
      EvictKeepsRest(t, Oldest(t.products));
    }
  }

  /** Each print evicts at most one product across both caps: never the one just written, and always
      the unique least recently traded of the others. It evicts exactly when a new product meets a full
      table or the recount passes the bucket budget. */
  lemma OneEvictionAtMost(s: Store, k: Key, p: Print)
    requires StoreOk(s)
    ensures StoreOk(Ingest(s, k, p))
    ensures exists gone :: Evicts(s, k, p, gone)
                           && (gone != {} <==> !Late(s, k, p) && (AtCap(s, k) || Recorded(s, k, p).bucketsTotal > MAX_BUCKETS))
  {
    hide Recorded, EnforceBudget, AllOk, TotalOk, TouchesOk, Evicts, IsOldest;
    if Late(s, k, p) {
      LatePrintEvictsNothing(s, k, p);
      assert Evicts(s, k, p, {});
    } else {
      RecordedIsOk(s, k, p);
      var t := Recorded(s, k, p);
      BudgetKeepsOk(t, k);
      if t.bucketsTotal > MAX_BUCKETS {
        EvictedIs(s, k, p, Oldest(t.products));
        assert Evicts(s, k, p, {Oldest(t.products)});
      } else if AtCap(s, k) {
        CapEvicts(s, k, p);
        assert Evicts(s, k, p, {Oldest(s.products)});
      } else {
        NothingEvicted(s, k, p);
        assert Evicts(s, k, p, {});
      }
    }
  }

  lemma LatePrintEvictsNothing(s: Store, k: Key, p: Print)
    requires StoreOk(s) && Late(s, k, p)
    ensures Evicts(s, k, p, {}) && StoreOk(Ingest(s, k, p))
  {
    assert s.products.Keys + {k} - {} == s.products.Keys;
  }

  lemma ForgetKeepsOk(s: Store, sources: seq<nat>, category: string, channel: nat)
    requires StoreOk(s)
    ensures StoreOk(ForgetChannel(s, sources, category, channel))
  {
    var gone := MatchingKeys(s, sources, category, channel);
    SizeOfSubset((s.products - gone).Keys, s.products.Keys);
    SumOfRest(s.products, Count(), gone);
  }

  /** Over every run the running bucket total is the recount, at most the budget, and the caps hold. */
  lemma {:induction false} EveryRunIsOk(events: seq<Event>)
    ensures StoreOk(Run(EMPTY_STORE, events))
    decreases |events|
  {
    hide Step, StoreOk;
    if events == [] {
      EmptyIsOk();
    } else {
      EveryRunIsOk(events[..|events| - 1]);
      StepKeepsOk(Run(EMPTY_STORE, events[..|events| - 1]), events[|events| - 1]);
    }
  }

  lemma EmptyIsOk()
    ensures StoreOk(EMPTY_STORE)
  {}

  lemma StepKeepsOk(s: Store, e: Event)
    requires StoreOk(s)
    ensures StoreOk(Step(s, e))
  {
    hide StoreOk, Ingest, ForgetChannel;
    match e
    case Arrive(k, p) => OneEvictionAtMost(s, k, p);
    case Forget(sources, category, channel) => ForgetKeepsOk(s, sources, category, channel);
  }
}
