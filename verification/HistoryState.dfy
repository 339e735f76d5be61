/** The mutable store, proved method by method against `HistoryModel`. */
module HistoryStates {
  import opened Wrappers
  import opened Collections
  import opened HistoryModel
  import opened HistoryStore
  import HistoryRollup

  /** What a query can be relied on to have covered. */
  datatype Retention = Retention(windowSeconds: nat, oldest: nat, newest: nat, truncated: bool, held: bool)

  class Store {
    var products: map<Key, Product>
    var touchClock: nat
    var lateDrops: nat
    var evicted: nat
    var bucketsTotal: nat

    function View(): HistoryModel.Store
      reads this
    {
      HistoryModel.Store(products, touchClock, lateDrops, evicted, bucketsTotal)
    }

    ghost predicate Valid()
      reads this
    {
      StoreOk(View())
    }

    constructor ()
      ensures View() == EMPTY_STORE && Valid()
    {
      products := map[];
      touchClock, lateDrops, evicted, bucketsTotal := 0, 0, 0, 0;
      new;
      EmptyIsOk();
    }

    /** Scan for the least recently traded product. */
    static method FindOldest(products: map<Key, Product>) returns (oldest: Key)
      requires products != map[] && DistinctTouches(products)
      ensures oldest == Oldest(products)
    {
      var left := products.Keys;
      ghost var first := HasMember(left);
      oldest :| oldest in left;
      left := left - {oldest};
      while left != {}
        invariant left <= products.Keys && oldest in products
        invariant forall j :: j in products && j !in left ==> products[oldest].lastTouch <= products[j].lastTouch
        decreases |left|
      {
        ghost var some := HasMember(left);
        var k :| k in left;
        if products[k].lastTouch < products[oldest].lastTouch {
          oldest := k;
        }
        left := left - {k};
      }
      OldestIsUnique(products, oldest, Oldest(products));
    }

    method EvictOldest()
      requires products != map[] && DistinctTouches(products) && TotalOk(View())
      modifies this`products, this`bucketsTotal, this`evicted
      ensures View() == Evict(old(View()), Oldest(old(products)))
      ensures DistinctTouches(products) && TotalOk(View())
    {
      var oldest := FindOldest(products);
      SumSplit(products, Count(), oldest);
      EvictKeepsTotal(View(), oldest);
      bucketsTotal := bucketsTotal - |products[oldest].buckets|;
      products := products - {oldest};
      evicted := evicted + 1;
    }

    /** Fetch or create the product and mark it most recently traded. */
    method Touch(k: Key)
      requires Valid()
      modifies this
      ensures View() == HistoryModel.Touch(old(View()), k)
    {
      hide AllOk;
      touchClock := touchClock + 1;
      if k !in products && |products| >= MAX_PRODUCTS {
        assert products != map[];
        EvictOldest();
      }
      var product := if k in products then products[k] else NEW_PRODUCT;
      products := products[k := product.(lastTouch := touchClock)];
    }

    /** Evict whole products, oldest first, until the bucket total is back under budget. */
    method EnforceBucketBudget()
      requires DistinctTouches(products) && TotalOk(View())
      modifies this`products, this`bucketsTotal, this`evicted
      ensures View() == EnforceBudget(old(View()))
    {
      hide TotalOk, DistinctTouches;
      while bucketsTotal > MAX_BUCKETS && products != map[]
        invariant DistinctTouches(products) && TotalOk(View())
        invariant EnforceBudget(View()) == EnforceBudget(old(View()))
        decreases |products|
      {
        SmallerWithout(products, Oldest(products));
        EvictOldest();
      }
    }

    /** The least second that holds a bucket. */
    static method FirstSecond(buckets: map<nat, Bucket>) returns (first: nat)
      requires buckets != map[]
      ensures first in buckets && forall t :: t in buckets ==> first <= t
    {
      var left := buckets.Keys;
      ghost var some := HasMember(left);
      first :| first in left;
      left := left - {first};
      while left != {}
        invariant left <= buckets.Keys && first in buckets
        invariant forall t :: t in buckets && t !in left ==> first <= t
        decreases |left|
      {
        ghost var other := HasMember(left);
        var t :| t in left;
        if t < first {
          first := t;
        }
        left := left - {t};
      }
    }

    /** Pop buckets from the front until the floor is reached. */
    static method PopBelow(buckets: map<nat, Bucket>, floor: nat) returns (kept: map<nat, Bucket>, popped: nat)
      ensures kept == From(buckets, floor) && popped == |buckets| - |kept|
    {
      kept, popped := buckets, 0;
      while kept != map[]
        invariant forall t :: t in kept ==> t in buckets && kept[t] == buckets[t]
        invariant forall t :: t in buckets && t >= floor ==> t in kept
        invariant popped == |buckets| - |kept|
        decreases |kept|
      {
        var start := FirstSecond(kept);
        if start >= floor {
          break;
        }
        SmallerWithout(kept, start);
        kept := kept - {start};
        popped := popped + 1;
      }
      assert kept == From(buckets, floor);
    }

    static method Push(ring: seq<Print>, p: Print) returns (r: seq<Print>)
      requires |ring| <= TRADE_RING
      ensures r == Pushed(ring, p)
    {
      r := ring + [p];
      ghost var full := r;
      while |r| > TRADE_RING
        invariant r == full || (|r| == |full| - 1 == TRADE_RING && r == full[1..])
        decreases |r|
      {
        r := r[1..];
      }
    }

    method Ingest(k: Key, p: Print)
      requires Valid() && RingsOk()
      modifies this
      ensures View() == HistoryModel.Ingest(old(View()), k, p)
      ensures Valid() && RingsOk()
    {
      hide EnforceBudget, StoreOk;
      ghost var before := View();
      OneEvictionAtMost(before, k, p);
      if k in products && products[k].newest.Some? && Second(p) + WINDOW_SECS < products[k].newest.value {
        lateDrops := lateDrops + 1;
        return;
      }
      RecordedIsValid(before, k, p);
      Record(k, p);
      EnforceBucketBudget();
      KeepsRings(before, k, p);
    }

    /** No ring outgrows its cap. */
    ghost predicate RingsOk()
      reads this
    {
      RingsWithin(products)
    }

    static ghost predicate RingsWithin(products: map<Key, Product>) {
      forall k :: k in products ==> |products[k].ring| <= TRADE_RING
    }

    static lemma RecordedIsValid(s: HistoryModel.Store, k: Key, p: Print)
      requires StoreOk(s) && !Late(s, k, p)
      ensures DistinctTouches(Recorded(s, k, p).products) && TotalOk(Recorded(s, k, p))
      ensures Recorded(s, k, p).bucketsTotal >= 0
    {
      hide Recorded, AllOk;
      RecordedIsOk(s, k, p);
    }

    static lemma KeepsRings(s: HistoryModel.Store, k: Key, p: Print)
      requires StoreOk(s) && !Late(s, k, p) && RingsWithin(s.products)
      ensures RingsWithin(HistoryModel.Ingest(s, k, p).products)
    {
      hide StoreOk, HistoryModel.Ingest, Recorded;
      IngestKeeps(s, k, p);
    }

    static lemma IngestKeeps(s: HistoryModel.Store, k: Key, p: Print)
      requires StoreOk(s) && !Late(s, k, p)
      ensures var t := HistoryModel.Ingest(s, k, p);
              forall j :: j in t.products ==>
                (j in s.products && t.products[j] == s.products[j]) || |t.products[j].ring| <= TRADE_RING
    {
      hide StoreOk, EnforceBudget, Recorded;
      OneEvictionAtMost(s, k, p);
      WrittenRing(s, k, p);
    }

    static lemma WrittenRing(s: HistoryModel.Store, k: Key, p: Print)
      requires StoreOk(s) && !Late(s, k, p)
      ensures k in HistoryModel.Ingest(s, k, p).products ==> |HistoryModel.Ingest(s, k, p).products[k].ring| <= TRADE_RING
    {
      hide StoreOk, EnforceBudget, Recorded, From, Upsert;
      EnforceKeepsProducts(Recorded(s, k, p));
      RecordedUnfolds(s, k, p);
    }

    static lemma {:induction false} EnforceKeepsProducts(s: HistoryModel.Store)
      ensures var t := EnforceBudget(s);
              forall j :: j in t.products ==> j in s.products && t.products[j] == s.products[j]
      decreases |s.products|
    {
      if s.bucketsTotal > MAX_BUCKETS && s.products != map[] {
        SmallerWithout(s.products, Oldest(s.products));
        EnforceKeepsProducts(Evict(s, Oldest(s.products)));
      }
    }

    /** The touched product takes the print, and the running total follows. */
    method Record(k: Key, p: Print)
      requires Valid() && RingsOk() && !Late(View(), k, p)
      modifies this
      ensures View() == Recorded(old(View()), k, p)
    {
      hide StoreOk, Upsert, From;
      ghost var before := View();
      RecordedIsValid(before, k, p);
      RingOfTouched(before, k);
      Touch(k);
      var product := products[k];
      var newest := NewestWith(product.newest, Second(p));
      var isNew := Second(p) !in product.buckets;
      var buckets := Upsert(product.buckets, p);
      UpsertSize(product.buckets, p);
      var gone;
      buckets, gone := PopBelow(buckets, Minus(newest, WINDOW_SECS));
      var ring := Push(product.ring, p);
      products := products[k := Product(buckets, Some(newest), ring, product.lastTouch)];
      if isNew {
        bucketsTotal := bucketsTotal + 1;
      }
      bucketsTotal := bucketsTotal - gone;
    }

    static lemma UpsertSize(buckets: map<nat, Bucket>, p: Print)
      ensures |Upsert(buckets, p)| == |buckets| + if Second(p) in buckets then 0 else 1
    {
      assert Upsert(buckets, p).Keys == buckets.Keys + {Second(p)};
    }

    static lemma RingOfTouched(s: HistoryModel.Store, k: Key)
      requires RingsWithin(s.products)
      ensures |HistoryModel.Touch(s, k).products[k].ring| <= TRADE_RING
    {}

    // ---- forgetting a channel ----

    method ForgetChannel(sources: seq<nat>, category: string, channel: nat) returns (dropped: nat)
      requires Valid()
      modifies this`products, this`bucketsTotal
      ensures View() == HistoryModel.ForgetChannel(old(View()), sources, category, channel) && Valid()
      ensures dropped == |MatchingKeys(old(View()), sources, category, channel)|
    {
      hide StoreOk, SumBy;
      ForgetKeepsOk(View(), sources, category, channel);
      OkMeansTotal(View());
      var doomed := MatchingKeys(View(), sources, category, channel);
      dropped := DropAll(doomed);
    }

    method DropOne(k: Key)
      requires k in products && bucketsTotal == SumBy(products, Count())
      modifies this`products, this`bucketsTotal
      ensures products == old(products) - {k} && bucketsTotal == SumBy(products, Count())
    {
      SumSplit(products, Count(), k);
      bucketsTotal := bucketsTotal - |products[k].buckets|;
      products := products - {k};
    }

    method DropAll(doomed: set<Key>) returns (dropped: nat)
      requires doomed <= products.Keys && bucketsTotal == SumBy(products, Count())
      modifies this`products, this`bucketsTotal
      ensures products == old(products) - doomed && bucketsTotal == SumBy(products, Count())
      ensures dropped == |doomed|
    {
      hide SumBy;
      var left := doomed;
      dropped := 0;
      while left != {}
        invariant left <= doomed && dropped == |doomed| - |left|
        invariant forall j :: j in products <==> j in old(products) && (j in left || j !in doomed)
        invariant forall j :: j in products ==> products[j] == old(products)[j]
        invariant bucketsTotal == SumBy(products, Count())
        decreases |left|
      {
        ghost var some := HasMember(left);
        var k :| k in left;
        DropOne(k);
        left := left - {k};
        dropped := dropped + 1;
      }
      assert products == old(products) - doomed;
    }

    static lemma OkMeansTotal(s: HistoryModel.Store)
      requires StoreOk(s)
      ensures s.bucketsTotal == SumBy(s.products, Count())
    {}

    /** How many products the channel tracks: what forgetting it would drop. */
    method ProductsFor(sources: seq<nat>, category: string, channel: nat) returns (n: nat)
      ensures n == |MatchingKeys(View(), sources, category, channel)|
    {
      n := 0;
      ghost var counted: set<Key> := {};
      var left := products.Keys;
      while left != {}
        invariant left <= products.Keys && n == |counted|
        invariant counted == set k | k in products && k !in left && Matches(k, sources, category, channel)
        decreases |left|
      {
        ghost var some := HasMember(left);
        var k :| k in left;
        left := left - {k};
        if Matches(k, sources, category, channel) {
          n := n + 1;
          counted := counted + {k};
        }
      }
      assert counted == MatchingKeys(View(), sources, category, channel);
    }

    // ---- queries ----

    method Rollup(k: Key, granularity: nat, now: nat) returns (candles: seq<Candle>)
      ensures candles == HistoryModel.Rollup(View(), k, granularity, now)
    {
      if k !in products {
        return [];
      }
      var g := if granularity == 0 then 1 else granularity;
      var buckets := products[k].buckets;
      var seconds := Seconds(buckets, Minus(now, WINDOW_SECS), now);
      SecondsHold(buckets, Minus(now, WINDOW_SECS), now);
      candles := GroupSeconds(buckets, seconds, g);
      candles := Reversed(candles);
    }

    /** One pass over the range, widening the last candle or opening the next. */
    static method GroupSeconds(buckets: map<nat, Bucket>, seconds: seq<nat>, g: nat) returns (candles: seq<Candle>)
      requires g > 0 && forall t :: t in seconds ==> t in buckets
      ensures candles == Group(buckets, seconds, g)
    {
      hide GroupStart, Absorb;
      candles := [];
      var i := 0;
      while i < |seconds|
        invariant 0 <= i <= |seconds|
        invariant candles == Group(buckets, seconds[..i], g)
      {
        var t := seconds[i];
        var b := buckets[t];
        var start := GroupStart(t, g);
        LastReplaced(candles);
        if candles != [] && candles[|candles| - 1].start == start {
          candles := candles[|candles| - 1 := Absorb(candles[|candles| - 1], b)];
        } else {
          candles := candles + [CandleOf(start, b)];
        }
        assert seconds[..i + 1][..i] == seconds[..i];
        i := i + 1;
      }
      assert seconds[..i] == seconds;
    }

    static lemma LastReplaced(candles: seq<Candle>)
      ensures forall c :: candles != [] ==> candles[|candles| - 1 := c] == candles[..|candles| - 1] + [c]
    {}

    method Candles(k: Key, granularity: nat, limit: nat, now: nat) returns (page: seq<Candle>)
      ensures page <= HistoryModel.Rollup(View(), k, granularity, now)
      ensures |page| <= limit
      ensures |page| < limit ==> page == HistoryModel.Rollup(View(), k, granularity, now)
    {
      page := Rollup(k, granularity, now);
      if |page| > limit {
        page := page[..limit];
      }
    }

    /** The span before the limit; `truncated` says whether the limit cut anything off. */
    method RetentionOf(k: Key, granularity: nat, limit: nat, now: nat) returns (r: Retention)
      ensures var all := HistoryModel.Rollup(View(), k, granularity, now);
              && r.windowSeconds == WINDOW_SECS && r.held == (k in products)
              && r.truncated == (|all| > limit)
              && (all == [] ==> r.oldest == r.newest == now)
              && (all != [] ==> (exists c :: c in all && c.start == r.oldest) && (exists c :: c in all && c.start == r.newest))
              && (forall c :: c in all ==> r.oldest <= c.start <= r.newest)
    {
      var all := Rollup(k, granularity, now);
      r := Retention(WINDOW_SECS,
                     if all == [] then now else all[|all| - 1].start,
                     if all == [] then now else all[0].start,
                     |all| > limit,
                     k in products);
      if k in products {
        HistoryRollup.RollupIsLawful(View(), k, granularity, now);
        if all != [] {
          assert all[0] in all && all[|all| - 1] in all;
        }
      }
    }

    method RecentTrades(k: Key, limit: nat) returns (prints: seq<Print>)
      ensures k !in products ==> prints == []
      ensures k in products ==> prints <= Reversed(products[k].ring)
                                && |prints| == if limit <= |products[k].ring| then limit else |products[k].ring|
    {
      if k !in products {
        return [];
      }
      prints := Reversed(products[k].ring);
      if |prints| > limit {
        prints := prints[..limit];
      }
    }
  }
}
