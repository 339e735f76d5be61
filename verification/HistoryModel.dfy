/**
 The rolling market-data history: one-second buckets per product over an hour, a ring of recent prints,
 least-recently-traded eviction under two caps, and the roll-up into candles. Prices and sizes are exact
 numbers. This is the specification the `Store` class is proved against.
 */
module HistoryModel {
  import opened Wrappers
  import opened Collections

  const WINDOW_SECS: nat := 3_600
  const TRADE_RING: nat := 1_000
  const MAX_PRODUCTS: nat := 8_192
  const MAX_BUCKETS: nat := 0x10_0000
  const NANOS: nat := 1_000_000_000

  datatype Key = Key(source: nat, category: string, channel: nat, instrument: nat)

  datatype Print = Print(ts: nat, price: real, size: real)

  function Second(p: Print): nat {
    p.ts / NANOS
  }

  datatype Bucket = Bucket(open: real, high: real, low: real, close: real, volume: real)

  function Higher(x: real, y: real): real {
    if x >= y then x else y
  }

  function Lower(x: real, y: real): real {
    if x <= y then x else y
  }

  function OpenedBy(p: Print): Bucket {
    Bucket(p.price, p.price, p.price, p.price, p.size)
  }

  function Widen(b: Bucket, p: Print): Bucket {
    b.(high := Higher(b.high, p.price), low := Lower(b.low, p.price), close := p.price, volume := b.volume + p.size)
  }

  datatype Product = Product(buckets: map<nat, Bucket>, newest: Option<nat>, ring: seq<Print>, lastTouch: nat)

  const NEW_PRODUCT := Product(map[], None, [], 0)

  datatype Store = Store(products: map<Key, Product>, touchClock: nat, lateDrops: nat, evicted: nat, bucketsTotal: int)

  const EMPTY_STORE := Store(map[], 0, 0, 0, 0)

  // ---- one print into one product ----

  /** Saturating subtraction. */
  function Minus(x: nat, y: nat): nat {
    if x >= y then x - y else 0
  }

  function NewestWith(newest: Option<nat>, second: nat): nat {
    if newest.Some? && newest.value >= second then newest.value else second
  }

  function Upsert(buckets: map<nat, Bucket>, p: Print): map<nat, Bucket> {
    var t := Second(p);
    buckets[t := if t in buckets then Widen(buckets[t], p) else OpenedBy(p)]
  }

  function From(buckets: map<nat, Bucket>, floor: nat): map<nat, Bucket> {
    map t | t in buckets && t >= floor :: buckets[t]
  }

  function Pushed(ring: seq<Print>, p: Print): seq<Print> {
    var r := ring + [p];
    if |r| > TRADE_RING then r[|r| - TRADE_RING..] else r
  }

  function Fold(product: Product, p: Print): Product {
    var newest := NewestWith(product.newest, Second(p));
    Product(From(Upsert(product.buckets, p), Minus(newest, WINDOW_SECS)), Some(newest), Pushed(product.ring, p),
            product.lastTouch)
  }

  // ---- eviction ----

  function Count(): Product -> nat {
    (p: Product) => |p.buckets|
  }

  /** The least recently traded product. */
  ghost predicate IsOldest(products: map<Key, Product>, k: Key) {
    k in products && forall j :: j in products ==> products[k].lastTouch <= products[j].lastTouch
  }

  ghost function Oldest(products: map<Key, Product>): (k: Key)
    requires products != map[]
    ensures IsOldest(products, k)
  {
    var j :| j in products;
    HasOldest(products, j);
    var k :| IsOldest(products, k);
    k
  }

  lemma {:induction false} HasOldest(products: map<Key, Product>, j: Key)
    requires j in products
    ensures exists k :: IsOldest(products, k)
    decreases |products|
  {
    var rest := products - {j};
    SmallerWithout(products, j);
    if rest == map[] {
      assert forall i :: i in products ==> i == j by {
        forall i | i in products
          ensures i == j
        {
          assert i != j ==> i in rest;
        }
      }
      assert IsOldest(products, j);
    } else {
      var i :| i in rest;
      HasOldest(rest, i);
      var k :| IsOldest(rest, k);
      var best := if products[j].lastTouch < products[k].lastTouch then j else k;
      forall x | x in products
        ensures products[best].lastTouch <= products[x].lastTouch
      {
        if x != j {
          assert x in rest;
        }
      }
      assert IsOldest(products, best);
    }
  }

  function Evict(s: Store, k: Key): Store
    requires k in s.products
  {
    s.(products := s.products - {k}, bucketsTotal := s.bucketsTotal - |s.products[k].buckets|, evicted := s.evicted + 1)
  }

  ghost function Touch(s: Store, k: Key): Store {
    var clock := s.touchClock + 1;
    var t := if k !in s.products && |s.products| >= MAX_PRODUCTS then Evict(s, Oldest(s.products)) else s;
    var product := if k in t.products then t.products[k] else NEW_PRODUCT;
    t.(touchClock := clock, products := t.products[k := product.(lastTouch := clock)])
  }

  ghost function EnforceBudget(s: Store): Store
    decreases |s.products|
  {
    if s.bucketsTotal <= MAX_BUCKETS || s.products == map[] then s
    else
      SmallerWithout(s.products, Oldest(s.products));
      EnforceBudget(Evict(s, Oldest(s.products)))
  }

  // ---- ingest ----

  predicate Late(s: Store, k: Key, p: Print) {
    k in s.products && s.products[k].newest.Some? && Second(p) + WINDOW_SECS < s.products[k].newest.value
  }

  /** The touched product takes the print; the running total moves by what that changed. */
  ghost function Recorded(s: Store, k: Key, p: Print): Store {
    var t := Touch(s, k);
    var before := t.products[k];
    var after := Fold(before, p);
    t.(products := t.products[k := after], bucketsTotal := t.bucketsTotal + |after.buckets| - |before.buckets|)
  }

  ghost function Ingest(s: Store, k: Key, p: Print): Store {
    if Late(s, k, p) then s.(lateDrops := s.lateDrops + 1) else EnforceBudget(Recorded(s, k, p))
  }

  // ---- forgetting a channel ----

  predicate Matches(k: Key, sources: seq<nat>, category: string, channel: nat) {
    k.source in sources && k.category == category && k.channel == channel
  }

  function MatchingKeys(s: Store, sources: seq<nat>, category: string, channel: nat): set<Key> {
    set k | k in s.products && Matches(k, sources, category, channel)
  }

  ghost function ForgetChannel(s: Store, sources: seq<nat>, category: string, channel: nat): Store {
    var kept := s.products - MatchingKeys(s, sources, category, channel);
    s.(products := kept, bucketsTotal := s.bucketsTotal - SumBy(s.products, Count()) + SumBy(kept, Count()))
  }

  // ---- runs ----

  datatype Event =
    | Arrive(k: Key, p: Print)
    | Forget(sources: seq<nat>, category: string, channel: nat)

  ghost function Step(s: Store, e: Event): Store {
    match e
    case Arrive(k, p) => Ingest(s, k, p)
    case Forget(sources, category, channel) => ForgetChannel(s, sources, category, channel)
  }

  ghost function Run(s: Store, events: seq<Event>): Store
    decreases |events|
  {
    if events == [] then s else Step(Run(s, events[..|events| - 1]), events[|events| - 1])
  }

  // ---- roll-up ----

  datatype Candle = Candle(start: nat, open: real, high: real, low: real, close: real, volume: real)

  /** The seconds of the range that hold a bucket, ascending. */
  function Seconds(buckets: map<nat, Bucket>, lo: nat, hi: nat): seq<nat>
    decreases hi
  {
    if hi <= lo then [] else Seconds(buckets, lo, hi - 1) + if hi - 1 in buckets then [hi - 1] else []
  }

  function GroupStart(t: nat, g: nat): nat
    requires g > 0
  {
    t / g * g
  }

  function CandleOf(start: nat, b: Bucket): Candle {
    Candle(start, b.open, b.high, b.low, b.close, b.volume)
  }

  function Absorb(c: Candle, b: Bucket): Candle {
    c.(high := Higher(c.high, b.high), low := Lower(c.low, b.low), close := b.close, volume := c.volume + b.volume)
  }

  function GroupOne(groups: seq<Candle>, t: nat, b: Bucket, g: nat): seq<Candle>
    requires g > 0
  {
    var start := GroupStart(t, g);
    if groups != [] && groups[|groups| - 1].start == start then
      groups[..|groups| - 1] + [Absorb(groups[|groups| - 1], b)]
    else groups + [CandleOf(start, b)]
  }

  /** Candles oldest first. */
  function Group(buckets: map<nat, Bucket>, seconds: seq<nat>, g: nat): seq<Candle>
    requires g > 0 && forall t :: t in seconds ==> t in buckets
    decreases |seconds|
  {
    if seconds == [] then []
    else
      var t := seconds[|seconds| - 1];
      GroupOne(Group(buckets, seconds[..|seconds| - 1], g), t, buckets[t], g)
  }

  function Reversed<T>(xs: seq<T>): seq<T> {
    seq(|xs|, i requires 0 <= i < |xs| => xs[|xs| - 1 - i])
  }

  function AtLeastOne(g: nat): nat {
    if g == 0 then 1 else g
  }

  lemma {:induction false} SecondsHold(buckets: map<nat, Bucket>, lo: nat, hi: nat)
    ensures forall t :: t in Seconds(buckets, lo, hi) <==> lo <= t < hi && t in buckets
    decreases hi
  {
    if hi > lo {
      SecondsHold(buckets, lo, hi - 1);
    }
  }

  /** The window's buckets, newest candle first. */
  function Rollup(s: Store, k: Key, granularity: nat, now: nat): seq<Candle> {
    if k !in s.products then []
    else
      var buckets := s.products[k].buckets;
      var seconds := Seconds(buckets, Minus(now, WINDOW_SECS), now);
      SecondsHold(buckets, Minus(now, WINDOW_SECS), now);
      Reversed(Group(buckets, seconds, AtLeastOne(granularity)))
  }
}
