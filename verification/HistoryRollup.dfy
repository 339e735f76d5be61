/**
 The roll-up is a lawful aggregation: every bucket of the window lands in exactly one candle, a candle
 is the summary of its buckets, volume is conserved, and rolling up a roll-up is rolling up once.
 */
module HistoryRollup {
  import opened Wrappers
  import opened HistoryModel

  // ---- arithmetic of group starts ----

  lemma QuotientIs(x: nat, g: nat, k: nat)
    requires g > 0 && k * g <= x < k * g + g
    ensures x / g == k
  {
    assert x == g * (x / g) + x % g;
    if x / g < k {
      ProductStep(x / g, k, g);
    } else if x / g > k {
      ProductStep(k, x / g, g);
    }
  }

  lemma ProductStep(i: nat, j: nat, g: nat)
    requires i < j
    ensures i * g + g <= j * g
  {
    assert (i + 1) * g == i * g + g;
    ProductMonotone(i + 1, j, g);
  }

  lemma ProductMonotone(i: nat, j: nat, g: nat)
    requires i <= j
    ensures i * g <= j * g
  {}

  lemma StartBounds(t: nat, g: nat)
    requires g > 0
    ensures GroupStart(t, g) <= t < GroupStart(t, g) + g
    ensures GroupStart(t, g) % g == 0
  {
    assert t == g * (t / g) + t % g;
    assert GroupStart(t, g) == g * (t / g);
    MultipleHasNoRest(t / g, g);
  }

  lemma MultipleHasNoRest(k: nat, g: nat)
    requires g > 0
    ensures (k * g) % g == 0 && (k * g) / g == k
  {
    QuotientIs(k * g, g, k);
    assert k * g == g * ((k * g) / g) + (k * g) % g;
  }

  lemma StartsAreMonotone(t: nat, u: nat, g: nat)
    requires g > 0 && t <= u
    ensures GroupStart(t, g) <= GroupStart(u, g)
  {
    StartBounds(t, g);
    StartBounds(u, g);
    if u / g < t / g {
      ProductStep(u / g, t / g, g);
    } else {
      ProductMonotone(t / g, u / g, g);
    }
  }

  /** A coarser group contains the whole of a finer one. */
  lemma StartOfStart(t: nat, g: nat, m: nat)
    requires g > 0 && m > 0
    ensures g * m > 0 && GroupStart(GroupStart(t, g), g * m) == GroupStart(t, g * m)
  {
    ProductMonotone(1, m, g);
    var h, k := g * m, t / (g * m);
    StartBounds(t, g);
    StartBounds(t, h);
    assert k * h == (k * m) * g;
    if t / g < k * m {
      ProductStep(t / g, k * m, g);
    } else {
      ProductMonotone(k * m, t / g, g);
    }
    QuotientIs(GroupStart(t, g), h, k);
  }

  // ---- one candle per group ----

  predicate Ascending(seconds: seq<nat>) {
    forall i, j :: 0 <= i < j < |seconds| ==> seconds[i] < seconds[j]
  }

  lemma {:induction false} SecondsAscend(buckets: map<nat, Bucket>, lo: nat, hi: nat)
    ensures Ascending(Seconds(buckets, lo, hi))
    ensures forall t :: t in Seconds(buckets, lo, hi) <==> lo <= t < hi && t in buckets
    decreases hi
  {
    if hi > lo {
      SecondsAscend(buckets, lo, hi - 1);
      var front := Seconds(buckets, lo, hi - 1);
      assert forall i :: 0 <= i < |front| ==> front[i] in front;
    }
  }

  /** The seconds whose group starts at `start`. */
  function Members(seconds: seq<nat>, start: nat, g: nat): seq<nat>
    requires g > 0
    decreases |seconds|
  {
    if seconds == [] then []
    else
      var t := seconds[|seconds| - 1];
      Members(seconds[..|seconds| - 1], start, g) + if GroupStart(t, g) == start then [t] else []
  }

  /** First open, greatest high, least low, last close, total volume. */
  function Aggregate(buckets: map<nat, Bucket>, start: nat, ts: seq<nat>): Candle
    requires ts != [] && forall t :: t in ts ==> t in buckets
    decreases |ts|
  {
    var b := buckets[ts[|ts| - 1]];
    if |ts| == 1 then CandleOf(start, b)
    else
      var c := Aggregate(buckets, start, ts[..|ts| - 1]);
      Candle(start, buckets[ts[0]].open, Higher(c.high, b.high), Lower(c.low, b.low), b.close, c.volume + b.volume)
  }

  lemma {:induction false} MembersAre(seconds: seq<nat>, start: nat, g: nat)
    requires g > 0
    ensures forall t :: t in Members(seconds, start, g) <==> t in seconds && GroupStart(t, g) == start
    decreases |seconds|
  {
    hide GroupStart;
    if seconds != [] {
      MembersAre(seconds[..|seconds| - 1], start, g);
      assert seconds == seconds[..|seconds| - 1] + [seconds[|seconds| - 1]];
    }
  }

  /** The starts ascend strictly, and each candle is the aggregate of its own members. */
  ghost predicate Lawful(buckets: map<nat, Bucket>, seconds: seq<nat>, g: nat, candles: seq<Candle>)
    requires g > 0 && forall t :: t in seconds ==> t in buckets
  {
    && (forall i, j :: 0 <= i < j < |candles| ==> candles[i].start < candles[j].start)
    && (forall i :: 0 <= i < |candles| ==> CandleIsLawful(buckets, seconds, g, candles[i]))
    && (forall t :: t in seconds ==> HasCandle(candles, GroupStart(t, g)))
  }

  ghost predicate HasCandle(candles: seq<Candle>, start: nat) {
    exists i :: 0 <= i < |candles| && candles[i].start == start
  }

  ghost predicate CandleIsLawful(buckets: map<nat, Bucket>, seconds: seq<nat>, g: nat, c: Candle)
    requires g > 0 && forall t :: t in seconds ==> t in buckets
  {
    MembersAre(seconds, c.start, g);
    var ts := Members(seconds, c.start, g);
    ts != [] && c.start % g == 0 && c == Aggregate(buckets, c.start, ts)
  }

  lemma AggregateOneMore(buckets: map<nat, Bucket>, start: nat, ts: seq<nat>, t: nat)
    requires t in buckets && forall u :: u in ts ==> u in buckets
    ensures Aggregate(buckets, start, ts + [t])
            == if ts == [] then CandleOf(start, buckets[t]) else Absorb(Aggregate(buckets, start, ts), buckets[t])
  {
    var more := ts + [t];
    assert more[..|more| - 1] == ts;
    if ts != [] {
      AggregateOpen(buckets, start, ts);
    }
  }

  lemma {:induction false} AggregateOpen(buckets: map<nat, Bucket>, start: nat, ts: seq<nat>)
    requires ts != [] && forall u :: u in ts ==> u in buckets
    ensures var c := Aggregate(buckets, start, ts);
            c.start == start && c.open == buckets[ts[0]].open && c.close == buckets[ts[|ts| - 1]].close
  {}

  lemma MembersOneMore(seconds: seq<nat>, t: nat, start: nat, g: nat)
    requires g > 0
    ensures Members(seconds + [t], start, g) == Members(seconds, start, g) + if GroupStart(t, g) == start then [t] else []
  {
    var more := seconds + [t];
    assert more[..|more| - 1] == seconds;
  }

  /** A candle of another group is untouched by one more second. */
  lemma OtherCandleStays(buckets: map<nat, Bucket>, seconds: seq<nat>, t: nat, g: nat, c: Candle)
    requires g > 0 && t in buckets && forall u :: u in seconds ==> u in buckets
    requires CandleIsLawful(buckets, seconds, g, c) && GroupStart(t, g) != c.start
    ensures CandleIsLawful(buckets, seconds + [t], g, c)
  {
    hide GroupStart;
    MembersAre(seconds, c.start, g);
    MembersOneMore(seconds, t, c.start, g);
    assert Members(seconds + [t], c.start, g) == Members(seconds, c.start, g);
  }

  /** The candle of the second's own group absorbs it. */
  lemma OwnCandleGrows(buckets: map<nat, Bucket>, seconds: seq<nat>, t: nat, g: nat, c: Candle)
    requires g > 0 && t in buckets && forall u :: u in seconds ==> u in buckets
    requires CandleIsLawful(buckets, seconds, g, c) && GroupStart(t, g) == c.start
    ensures CandleIsLawful(buckets, seconds + [t], g, Absorb(c, buckets[t]))
  {
    hide GroupStart;
    MembersAre(seconds, c.start, g);
    MembersOneMore(seconds, t, c.start, g);
    AggregateOneMore(buckets, c.start, Members(seconds, c.start, g), t);
  }

  lemma NewCandleOpens(buckets: map<nat, Bucket>, seconds: seq<nat>, t: nat, g: nat)
    requires g > 0 && t in buckets && forall u :: u in seconds ==> u in buckets
    requires forall u :: u in seconds ==> GroupStart(u, g) != GroupStart(t, g)
    ensures CandleIsLawful(buckets, seconds + [t], g, CandleOf(GroupStart(t, g), buckets[t]))
  {
    var start := GroupStart(t, g);
    StartBounds(t, g);
    hide GroupStart;
    MembersAre(seconds, start, g);
    assert Members(seconds, start, g) == [] by {
      if Members(seconds, start, g) != [] {
        assert Members(seconds, start, g)[0] in Members(seconds, start, g);
      }
    }
    MembersOneMore(seconds, t, start, g);
    AggregateOneMore(buckets, start, [], t);
    assert [] + [t] == [t];
  }

  /** Earlier seconds fall in groups that start no later, so only the last candle can be the group's. */
  lemma LastCandleOrNone(buckets: map<nat, Bucket>, seconds: seq<nat>, t: nat, g: nat, candles: seq<Candle>)
    requires g > 0 && forall u :: u in seconds ==> u in buckets && u < t
    requires Lawful(buckets, seconds, g, candles)
    ensures forall i :: 0 <= i < |candles| ==> candles[i].start <= GroupStart(t, g)
    ensures (candles == [] || candles[|candles| - 1].start != GroupStart(t, g)) ==>
              forall u :: u in seconds ==> GroupStart(u, g) != GroupStart(t, g)
  {
    hide GroupStart, Aggregate;
    forall i | 0 <= i < |candles|
      ensures candles[i].start <= GroupStart(t, g)
    {
      assert CandleIsLawful(buckets, seconds, g, candles[i]);
      var ts := Members(seconds, candles[i].start, g);
      MembersAre(seconds, candles[i].start, g);
      assert ts[0] in ts;
      StartsAreMonotone(ts[0], t, g);
    }
    forall u | u in seconds && GroupStart(u, g) == GroupStart(t, g)
      ensures candles != [] && candles[|candles| - 1].start == GroupStart(t, g)
    {
      assert HasCandle(candles, GroupStart(u, g));
      var i :| 0 <= i < |candles| && candles[i].start == GroupStart(t, g);
      assert candles[i].start <= candles[|candles| - 1].start;
    }
  }

  lemma GroupOneKeepsLawful(buckets: map<nat, Bucket>, seconds: seq<nat>, t: nat, g: nat, candles: seq<Candle>)
    requires g > 0 && t in buckets && forall u :: u in seconds ==> u in buckets && u < t
    requires Lawful(buckets, seconds, g, candles)
    ensures Lawful(buckets, seconds + [t], g, GroupOne(candles, t, buckets[t], g))
  {
    hide GroupStart, CandleIsLawful;
    LastCandleOrNone(buckets, seconds, t, g, candles);
    var start := GroupStart(t, g);
    var next := GroupOne(candles, t, buckets[t], g);
    if candles != [] && candles[|candles| - 1].start == start {
      OwnCandleGrows(buckets, seconds, t, g, candles[|candles| - 1]);
    } else {
      NewCandleOpens(buckets, seconds, t, g);
    }
    assert next[|next| - 1].start == start && CandleIsLawful(buckets, seconds + [t], g, next[|next| - 1]);
    assert forall i :: 0 <= i < |next| - 1 ==> next[i] == candles[i] && next[i].start < start;
    forall i | 0 <= i < |next| - 1
      ensures CandleIsLawful(buckets, seconds + [t], g, next[i])
    {
      OtherCandleStays(buckets, seconds, t, g, candles[i]);
    }
    forall u | u in seconds + [t]
      ensures HasCandle(next, GroupStart(u, g))
    {
      if u in seconds {
        assert HasCandle(candles, GroupStart(u, g));
        var i :| 0 <= i < |candles| && candles[i].start == GroupStart(u, g);
        assert next[i].start == GroupStart(u, g);
      }
    }
  }

  lemma {:induction false} GroupIsLawful(buckets: map<nat, Bucket>, seconds: seq<nat>, g: nat)
    requires g > 0 && Ascending(seconds) && forall t :: t in seconds ==> t in buckets
    ensures Lawful(buckets, seconds, g, Group(buckets, seconds, g))
    decreases |seconds|
  {
    hide GroupOne, CandleIsLawful, GroupStart;
    if seconds != [] {
      var front, t := seconds[..|seconds| - 1], seconds[|seconds| - 1];
      assert seconds == front + [t];
      assert forall i :: 0 <= i < |front| ==> front[i] == seconds[i] && front[i] < t;
      GroupIsLawful(buckets, front, g);
      GroupOneKeepsLawful(buckets, front, t, g, Group(buckets, front, g));
    }
  }

  // ---- volume ----

  function BucketVolume(buckets: map<nat, Bucket>, seconds: seq<nat>): real
    requires forall t :: t in seconds ==> t in buckets
    decreases |seconds|
  {
    if seconds == [] then 0.0
    else BucketVolume(buckets, seconds[..|seconds| - 1]) + buckets[seconds[|seconds| - 1]].volume
  }

  function CandleVolume(candles: seq<Candle>): real
    decreases |candles|
  {
    if candles == [] then 0.0 else CandleVolume(candles[..|candles| - 1]) + candles[|candles| - 1].volume
  }

  lemma CandleVolumeOneMore(candles: seq<Candle>, c: Candle)
    ensures CandleVolume(candles + [c]) == CandleVolume(candles) + c.volume
  {
    assert (candles + [c])[..|candles + [c]| - 1] == candles;
  }

  /** No volume is lost or counted twice. */
  lemma {:induction false} VolumeIsConserved(buckets: map<nat, Bucket>, seconds: seq<nat>, g: nat)
    requires g > 0 && forall t :: t in seconds ==> t in buckets
    ensures CandleVolume(Group(buckets, seconds, g)) == BucketVolume(buckets, seconds)
    decreases |seconds|
  {
    hide GroupStart;
    if seconds != [] {
      var front, t := seconds[..|seconds| - 1], seconds[|seconds| - 1];
      VolumeIsConserved(buckets, front, g);
      var groups := Group(buckets, front, g);
      CandleVolumeOneMore(groups, CandleOf(GroupStart(t, g), buckets[t]));
      if groups != [] {
        CandleVolumeOneMore(groups[..|groups| - 1], Absorb(groups[|groups| - 1], buckets[t]));
      }
    }
  }

  // ---- rolling up a roll-up ----

  function AsBucket(c: Candle): Bucket {
    Bucket(c.open, c.high, c.low, c.close, c.volume)
  }

  /** Group candles, oldest first, as if each were the bucket of its start. */
  function Regroup(candles: seq<Candle>, g: nat): seq<Candle>
    requires g > 0
    decreases |candles|
  {
    if candles == [] then []
    else
      var c := candles[|candles| - 1];
      GroupOne(Regroup(candles[..|candles| - 1], g), c.start, AsBucket(c), g)
  }

  lemma RegroupOneMore(candles: seq<Candle>, c: Candle, g: nat)
    requires g > 0
    ensures Regroup(candles + [c], g) == GroupOne(Regroup(candles, g), c.start, AsBucket(c), g)
  {
    assert (candles + [c])[..|candles + [c]| - 1] == candles;
  }

  /** Absorbing in two steps is absorbing the absorbed. */
  lemma AbsorbTwice(groups: seq<Candle>, c: Candle, t: nat, b: Bucket, g: nat)
    requires g > 0 && GroupStart(c.start, g) == GroupStart(t, g)
    ensures GroupOne(GroupOne(groups, c.start, AsBucket(c), g), t, b, g)
            == GroupOne(groups, c.start, AsBucket(Absorb(c, b)), g)
  {
    hide GroupStart;
  }

  lemma SameStartSameGroup(groups: seq<Candle>, t: nat, u: nat, b: Bucket, g: nat)
    requires g > 0 && GroupStart(t, g) == GroupStart(u, g)
    ensures GroupOne(groups, t, b, g) == GroupOne(groups, u, b, g)
  {}

  /** When one granularity divides another, regrouping the finer candles gives the coarser ones. */
  lemma {:induction false} RegroupingComposes(buckets: map<nat, Bucket>, seconds: seq<nat>, g: nat, m: nat)
    requires g > 0 && m > 0 && g * m > 0 && forall t :: t in seconds ==> t in buckets
    ensures Regroup(Group(buckets, seconds, g), g * m) == Group(buckets, seconds, g * m)
    decreases |seconds|
  {
    hide GroupStart;
    if seconds != [] {
      var front, t := seconds[..|seconds| - 1], seconds[|seconds| - 1];
      var fine, b, h := Group(buckets, front, g), buckets[t], g * m;
      RegroupingComposes(buckets, front, g, m);
      StartOfStart(t, g, m);
      if fine != [] && fine[|fine| - 1].start == GroupStart(t, g) {
        var c, rest := fine[|fine| - 1], fine[..|fine| - 1];
        assert Group(buckets, seconds, g) == rest + [Absorb(c, b)];
        RegroupOneMore(rest, Absorb(c, b), h);
        AbsorbTwice(Regroup(rest, h), c, t, b, h);
      } else {
        var c := CandleOf(GroupStart(t, g), b);
        assert Group(buckets, seconds, g) == fine + [c];
        RegroupOneMore(fine, c, h);
        SameStartSameGroup(Regroup(fine, h), c.start, t, b, h);
      }
    }
  }

  // ---- the served roll-up ----

  /** The seconds a query at `now` considers. */
  function WindowOf(p: Product, now: nat): seq<nat> {
    Seconds(p.buckets, Minus(now, WINDOW_SECS), now)
  }

  /** A served roll-up, newest first, read oldest first. */
  lemma RollupReversed(s: Store, k: Key, granularity: nat, now: nat)
    requires k in s.products
    ensures forall t :: t in WindowOf(s.products[k], now) ==> t in s.products[k].buckets
    ensures Reversed(Rollup(s, k, granularity, now))
            == Group(s.products[k].buckets, WindowOf(s.products[k], now), AtLeastOne(granularity))
  {
    hide Reversed, Group, Seconds;
    SecondsHold(s.products[k].buckets, Minus(now, WINDOW_SECS), now);
    ReversedTwice(Group(s.products[k].buckets, WindowOf(s.products[k], now), AtLeastOne(granularity)));
  }

  lemma ReversedTwice<T>(xs: seq<T>)
    ensures Reversed(Reversed(xs)) == xs
  {}

  /** The served candles descend strictly from multiples of the granularity; each is the aggregate of
      the window's buckets of its group, every such bucket lands in exactly one, and none is empty. */
  lemma RollupIsLawful(s: Store, k: Key, granularity: nat, now: nat)
    requires k in s.products
    ensures var g: nat, buckets := if granularity == 0 then 1 else granularity, s.products[k].buckets;
            var seconds := WindowOf(s.products[k], now);
            var candles := Rollup(s, k, granularity, now);
            && (forall t :: t in seconds <==> Minus(now, WINDOW_SECS) <= t < now && t in buckets)
            && (forall i, j :: 0 <= i < j < |candles| ==> candles[i].start > candles[j].start)
            && (forall i :: 0 <= i < |candles| ==> CandleIsLawful(buckets, seconds, g, candles[i]))
            && (forall t :: t in seconds ==> HasCandle(candles, GroupStart(t, g)))
  {
    hide GroupStart, CandleIsLawful, Group, Rollup, HasCandle;
    var g, buckets, seconds := AtLeastOne(granularity), s.products[k].buckets, WindowOf(s.products[k], now);
    SecondsAscend(buckets, Minus(now, WINDOW_SECS), now);
    GroupIsLawful(buckets, seconds, g);
    RollupReversed(s, k, granularity, now);
    NewestFirst(Group(buckets, seconds, g), Rollup(s, k, granularity, now));
  }

  lemma NewestFirst(groups: seq<Candle>, candles: seq<Candle>)
    requires groups == Reversed(candles)
    requires forall i, j :: 0 <= i < j < |groups| ==> groups[i].start < groups[j].start
    ensures forall i, j :: 0 <= i < j < |candles| ==> candles[i].start > candles[j].start
    ensures forall i :: 0 <= i < |candles| ==> candles[i] in groups
    ensures forall start :: HasCandle(groups, start) ==> HasCandle(candles, start)
  {
    assert forall i :: 0 <= i < |candles| ==> candles[i] == groups[|candles| - 1 - i];
    forall start | HasCandle(groups, start)
      ensures HasCandle(candles, start)
    {
      var i :| 0 <= i < |groups| && groups[i].start == start;
      assert candles[|groups| - 1 - i].start == start;
    }
  }

  /** Two granularities of one query agree: regrouping the finer answer gives the coarser. */
  lemma GranularitiesAgree(s: Store, k: Key, granularity: nat, m: nat, now: nat)
    requires k in s.products && granularity > 0 && m > 0 && granularity * m > 0
    ensures Regroup(Reversed(Rollup(s, k, granularity, now)), granularity * m)
            == Reversed(Rollup(s, k, granularity * m, now))
  {
    RollupReversed(s, k, granularity, now);
    RollupReversed(s, k, granularity * m, now);
    RegroupingComposes(s.products[k].buckets, WindowOf(s.products[k], now), granularity, m);
  }
}
