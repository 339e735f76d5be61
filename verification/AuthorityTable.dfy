/**
 The bounded table of markets. A market leaves it when it is forgotten, or when the oldest entry of the queue that
 names it comes to the front: so one that was forgotten and came back may leave before its turn.
 */
module AuthorityTable {
  import opened Wrappers
  import opened AuthorityModel
  import opened AuthorityHold
  import opened AuthorityElection

  // ---- one insertion ----

  /** Tracking another market drops this one if and only if the queue is full and this one's entry is at its front. */
  lemma TrackDropsIff(a: Authority, j: MarketKey, k: MarketKey)
    requires MarketsOk(a) && k in a.markets && j != k
    ensures k !in Track(a, j).markets <==> j !in a.markets && |a.order| == MAX_TRACKED_MARKETS && a.order[0] == k
  {
    if j !in a.markets && |a.order| >= MAX_TRACKED_MARKETS {
      assert Overflow(a.order) == 1;
      assert (set i | 0 <= i < 1 :: a.order[i]) == {a.order[0]};
    }
  }

  lemma TrackQueue(a: Authority, j: MarketKey)
    requires MarketsOk(a) && j !in a.markets
    ensures Track(a, j).order == (if |a.order| == MAX_TRACKED_MARKETS then a.order[1..] else a.order) + [j]
  {
    assert a.order[0..] == a.order;
  }

  /** The market an event inserts, if it inserts one: the one emitted on, or reported unwell, that is not tracked. */
  ghost function Inserts(a: Authority, e: Event): Option<MarketKey> {
    match e
    case Arrive(k, p, at) => if k !in a.markets && Admit(a, k, p, at).admission.Emitted? then Some(k) else None
    case Health(k, p, healthy) =>
      if k !in a.markets && !healthy && Labelled(Register(a, k.scope, p), k.scope, p) then Some(k) else None
    case _ => None
  }

  /** What a step does to the table. */
  ghost predicate TableStep(a: Authority, e: Event, b: Authority) {
    match Inserts(a, e)
    case Some(k) => b.order == Track(a, k).order && b.markets.Keys == Track(a, k).markets.Keys
    case None => b.order == a.order && b.markets.Keys == a.markets.Keys - if e.Forget? then {e.k} else {}
  }

  /** Tracking looks at the table alone. */
  lemma TrackAlike(a: Authority, b: Authority, k: MarketKey)
    requires a.order == b.order && a.markets.Keys == b.markets.Keys
    ensures Track(a, k).order == Track(b, k).order && Track(a, k).markets.Keys == Track(b, k).markets.Keys
  {}

  lemma TrackTracked(a: Authority, k: MarketKey)
    requires k in a.markets
    ensures Track(a, k) == a
  {}

  lemma AdmitTable(a: Authority, k: MarketKey, p: Transport, at: nat)
    ensures TableStep(a, Arrive(k, p, at), Admit(a, k, p, at).authority)
  {
    hide RefreshHold, Serving, Ready, Register, Track;
    AdmitUnfolds(a, k, p, at);
    var r := Register(a.(released := None), k.scope, p);
    RegisterFrame(a.(released := None), k.scope, p);
    if k in a.markets {
      TrackTracked(a, k);
    }
    if k.scope in a.scopes {
      ReadyFrame(a, k, p, at);
      ReadyQueue(a, k, p, at);
      var d := RefreshHold(Ready(a, k, p, at), k, p, at);
      RefreshFrame(Ready(a, k, p, at), k, p, at);
      TrackAlike(a, d, k);
      TrackFrame(d, k);
    } else {
      var c := r.(scopes := r.scopes[k.scope := Scope(p, map[p := Path(at, [])], at)]);
      TrackAlike(a, c, k);
      TrackFrame(c, k);
    }
  }

  lemma ReadyQueue(a: Authority, k: MarketKey, p: Transport, at: nat)
    requires k.scope in a.scopes
    ensures Ready(a, k, p, at).order == a.order
    ensures Ready(a, k, p, at) == Arrived(Register(a.(released := None), k.scope, p), k.scope, p, at)
  {
    hide Register;
    RegisterFrame(a.(released := None), k.scope, p);
  }

  lemma HealthTable(a: Authority, k: MarketKey, p: Transport, healthy: bool)
    ensures TableStep(a, Health(k, p, healthy), SetHealth(a, k, p, healthy))
  {
    hide Register, Track;
    var b := Register(a, k.scope, p);
    RegisterFrame(a, k.scope, p);
    TrackAlike(a, b, k);
    TrackFrame(b, k);
    if k in b.markets {
      TrackTracked(b, k);
    }
  }

  lemma StepTable(a: Authority, e: Event)
    ensures TableStep(a, e, Step(a, e))
  {
    hide Admit, SetHealth, Observe, Register, Track;
    match e
    case Arrive(k, p, at) => AdmitTable(a, k, p, at);
    case Health(k, p, healthy) => HealthTable(a, k, p, healthy);
    case Lead(s, p, lead) => ObserveFrame(a, s, p, lead);
    case Label(s, p) => RegisterFrame(a, s, p);
    case Rebaseline(k, p) => RebaselineTable(a, k, p);
    case Unpin(k) => UnpinTable(a, k);
    case _ =>
  }

  lemma RebaselineTable(a: Authority, k: MarketKey, p: Transport)
    ensures NoteRebaseline(a, k, p).order == a.order && NoteRebaseline(a, k, p).markets.Keys == a.markets.Keys - {}
  {}

  lemma UnpinTable(a: Authority, k: MarketKey)
    ensures DropHold(a, k).order == a.order && DropHold(a, k).markets.Keys == a.markets.Keys - {}
  {}

  // ---- how long a market stays ----

  /** The markets inserted by the events, in order. */
  ghost function Inserted(a: Authority, events: seq<Event>): seq<MarketKey>
    decreases |events|
  {
    if events == [] then []
    else
      var before := events[..|events| - 1];
      Inserted(a, before) + match Inserts(Run(a, before), events[|events| - 1]) { case Some(k) => [k] case None => [] }
  }

  /** How many entries have left the front of the queue. */
  function Gone(queue: nat, inserted: nat): nat {
    if queue + inserted > MAX_TRACKED_MARKETS then queue + inserted - MAX_TRACKED_MARKETS else 0
  }

  /** The queue is everything listed, less what has left its front; and the market is tracked. */
  ghost predicate StandsIn(b: Authority, all: seq<MarketKey>, gone: nat, k: MarketKey) {
    gone <= |all| && b.order == all[gone..] && k in b.markets
  }

  lemma InsertShifts(b: Authority, all: seq<MarketKey>, gone: nat, j: MarketKey, k: MarketKey, i: nat)
    requires MarketsOk(b) && StandsIn(b, all, gone, k) && j !in b.markets
    requires i < |all| && all[i] == k && k !in all[..i]
    requires |b.order| == MAX_TRACKED_MARKETS ==> gone <= i
    ensures Track(b, j).order == (all + [j])[if |b.order| == MAX_TRACKED_MARKETS then gone + 1 else gone..]
    ensures k in Track(b, j).markets <==> !(|b.order| == MAX_TRACKED_MARKETS && gone == i)
  {
    hide Track, MarketsOk;
    TrackQueue(b, j);
    TrackDropsIff(b, j, k);
    QueueCap(b);
    assert (all + [j])[gone..] == all[gone..] + [j];
    if |b.order| == MAX_TRACKED_MARKETS {
      assert b.order[0] == all[gone] && all[gone..][1..] == all[gone + 1..];
      assert (all + [j])[gone + 1..] == all[gone + 1..] + [j];
      if gone < i {
        assert all[gone] in all[..i];
      }
    }
  }

  lemma QueueCap(b: Authority)
    requires MarketsOk(b)
    ensures |b.order| <= MAX_TRACKED_MARKETS
  {}

  lemma {:induction false} QueueMoves(a: Authority, events: seq<Event>, k: MarketKey, i: nat)
    requires MarketsOk(a) && k in a.markets && i < |a.order| && a.order[i] == k && k !in a.order[..i]
    requires Forget(k) !in events && Gone(|a.order|, |Inserted(a, events)|) <= i
    ensures MarketsOk(Run(a, events))
    ensures StandsIn(Run(a, events), a.order + Inserted(a, events), Gone(|a.order|, |Inserted(a, events)|), k)
    decreases |events|
  {
    hide Step, MarketsOk, Track, Inserts;
    if events == [] {
      assert a.order + [] == a.order && a.order[0..] == a.order;
      QueueCap(a);
    } else {
      var before, e := events[..|events| - 1], events[|events| - 1];
      QueueMoves(a, before, k, i);
      var b, all, gone := Run(a, before), a.order + Inserted(a, before), Gone(|a.order|, |Inserted(a, before)|);
      assert all[i] == k && all[..i] == a.order[..i];
      StepTable(b, e);
      StepKeepsMarketsOk(b, e);
      if Inserts(b, e).Some? {
        var j := Inserts(b, e).value;
        InsertsNew(b, e);
        QueueCap(b);
        InsertShifts(b, all, gone, j, k, i);
        assert all + [j] == a.order + Inserted(a, events);
      } else {
        assert Inserted(a, events) == Inserted(a, before);
        assert e != Forget(k);
      }
    }
  }

  lemma InsertsNew(a: Authority, e: Event)
    ensures Inserts(a, e).Some? ==> Inserts(a, e).value !in a.markets
  {}

  /** A tracked market that is not forgotten stays until so many others have been inserted that its first entry comes
      to the front of a full queue; and the next insertion drops it, however recently it was tracked. */
  lemma StaysUntilItsTurn(a: Authority, events: seq<Event>, k: MarketKey, i: nat)
    requires MarketsOk(a) && k in a.markets && i < |a.order| && a.order[i] == k && k !in a.order[..i]
    requires Forget(k) !in events && |a.order| + |Inserted(a, events)| <= MAX_TRACKED_MARKETS + i
    ensures k in Run(a, events).markets
    ensures forall e :: e != Forget(k) ==>
              (k !in Step(Run(a, events), e).markets
               <==> Inserts(Run(a, events), e).Some? && |a.order| + |Inserted(a, events)| == MAX_TRACKED_MARKETS + i)
  {
    hide Step, MarketsOk, Track, Inserts, Run, Inserted;
    QueueMoves(a, events, k, i);
    var b, all, gone := Run(a, events), a.order + Inserted(a, events), Gone(|a.order|, |Inserted(a, events)|);
    assert all[i] == k && all[..i] == a.order[..i];
    QueueCap(b);
    QueueCap(a);
    forall e | e != Forget(k)
      ensures k !in Step(b, e).markets <==> Inserts(b, e).Some? && |a.order| + |Inserted(a, events)| == MAX_TRACKED_MARKETS + i
    {
      StepTable(b, e);
      if Inserts(b, e).Some? {
        InsertsNew(b, e);
        InsertShifts(b, all, gone, Inserts(b, e).value, k, i);
      }
    }
  }

  // ---- a market that came back leaves before its turn ----

  function NthMarket(i: nat): MarketKey {
    MarketKey(ScopeKey(0, ""), 0, i)
  }

  /** Market 0 is tracked and forgotten; then the markets up to `n` are tracked. */
  function Filling(n: nat): seq<Event> {
    if n == 0 then [Health(NthMarket(0), 1, false), Forget(NthMarket(0))]
    else Filling(n - 1) + [Health(NthMarket(n), 1, false)]
  }

  function Markets(n: nat): seq<MarketKey> {
    if n == 0 then [NthMarket(0)] else Markets(n - 1) + [NthMarket(n)]
  }

  /** The queue still names market 0; the table holds the others. */
  ghost predicate Filled(a: Authority, n: nat) {
    && a.order == Markets(n)
    && (forall i: nat :: NthMarket(i) in a.markets <==> 0 < i <= n)
    && Labelled(a, NthMarket(0).scope, 1)
  }

  lemma {:induction false} MarketsSize(n: nat)
    ensures |Markets(n)| == n + 1 && Markets(n)[0] == NthMarket(0)
  {
    if n > 0 {
      MarketsSize(n - 1);
    }
  }

  lemma UnwellInserts(a: Authority, i: nat)
    requires MarketsOk(a) && Labelled(a, NthMarket(0).scope, 1) && NthMarket(i) !in a.markets && |a.order| < MAX_TRACKED_MARKETS
    ensures var b := Step(a, Health(NthMarket(i), 1, false));
            && MarketsOk(b) && b.order == a.order + [NthMarket(i)]
            && b.markets.Keys == a.markets.Keys + {NthMarket(i)} && Labelled(b, NthMarket(0).scope, 1)
  {
    hide Track, SetHealth, Register, MarketsOk;
    var e := Health(NthMarket(i), 1, false);
    StepTable(a, e);
    StepKeepsMarketsOk(a, e);
    RegisterLabels(a, NthMarket(0).scope, 1);
    LabelsOnlyGrow(a, e, NthMarket(0).scope, 1);
    TrackQueue(a, NthMarket(i));
    TrackKeys(a, NthMarket(i));
  }

  lemma TrackKeys(a: Authority, k: MarketKey)
    requires MarketsOk(a) && k !in a.markets && |a.order| < MAX_TRACKED_MARKETS
    ensures Track(a, k).markets.Keys == a.markets.Keys + {k}
  {
    hide Track, MarketsOk;
    TrackFrame(a, k);
    forall j | j in a.markets
      ensures j in Track(a, k).markets
    {
      TrackDropsIff(a, k, j);
    }
  }

  lemma {:induction false} Fills(cfg: Config, n: nat)
    requires n + 2 <= MAX_TRACKED_MARKETS
    ensures var a := Run(New(cfg), Filling(n)); MarketsOk(a) && Filled(a, n)
  {
    hide Step, MarketsOk, LabelsOf;
    if n == 0 {
      FirstComesAndGoes(cfg);
    } else {
      Fills(cfg, n - 1);
      MarketsSize(n - 1);
      var e := Health(NthMarket(n), 1, false);
      assert Filling(n)[..|Filling(n)| - 1] == Filling(n - 1);
      UnwellInserts(Run(New(cfg), Filling(n - 1)), n);
    }
  }

  lemma FirstComesAndGoes(cfg: Config)
    ensures var a := Run(New(cfg), Filling(0)); MarketsOk(a) && Filled(a, 0)
  {
    hide Step, MarketsOk, Track, SetHealth;
    var k := NthMarket(0);
    var events := Filling(0);
    var first := [events[0]];
    assert events[..1] == first && first[..0] == [];
    assert Run(New(cfg), first[..0]) == New(cfg);
    assert Run(New(cfg), first) == Step(New(cfg), events[0]);
    assert Run(New(cfg), events) == Step(Run(New(cfg), first), Forget(k));
    FirstComes(cfg);
    StepTable(Run(New(cfg), first), Forget(k));
    StepKeepsMarketsOk(Run(New(cfg), first), Forget(k));
    LabelsOnlyGrow(Run(New(cfg), first), Forget(k), k.scope, 1);
    assert Markets(0) == [k];
  }

  lemma FirstComes(cfg: Config)
    ensures var a := Step(New(cfg), Health(NthMarket(0), 1, false));
            MarketsOk(a) && a.order == [NthMarket(0)] && a.markets.Keys == {NthMarket(0)} && Labelled(a, NthMarket(0).scope, 1)
  {
    var k := NthMarket(0);
    var b := Register(New(cfg), k.scope, 1);
    assert Labelled(b, k.scope, 1);
    assert Track(b, k).order == [k];
  }

  /** A market forgotten and tracked again is dropped by the very next insertion of a full queue, though every other
      market there has been tracked for longer; because its old entry still stands at the front. */
  lemma ReturnedMarketIsDroppedEarly(cfg: Config)
    ensures var a := Run(New(cfg), Filling(MAX_TRACKED_MARKETS - 2) + [Health(NthMarket(0), 1, false)]);
            var b := Step(a, Health(NthMarket(MAX_TRACKED_MARKETS), 1, false));
            && MarketsOk(a) && |a.order| == MAX_TRACKED_MARKETS && a.order[MAX_TRACKED_MARKETS - 1] == NthMarket(0)
            && NthMarket(0) in a.markets && NthMarket(1) in a.markets
            && NthMarket(0) !in b.markets && NthMarket(1) in b.markets
  {
    hide Step, MarketsOk, Track, Filling, Markets, Labelled;
    var n: nat := MAX_TRACKED_MARKETS - 2;
    Fills(cfg, n);
    MarketsSize(n);
    var full := Run(New(cfg), Filling(n));
    var events := Filling(n) + [Health(NthMarket(0), 1, false)];
    assert events[..|events| - 1] == Filling(n);
    assert Run(New(cfg), events) == Step(full, Health(NthMarket(0), 1, false)) by {
      RunAppendsOne(New(cfg), Filling(n), Health(NthMarket(0), 1, false));
    }
    UnwellInserts(full, 0);
    OneIsDropped(Run(New(cfg), events));
  }

  lemma RunAppendsOne(a: Authority, events: seq<Event>, e: Event)
    ensures Run(a, events + [e]) == Step(Run(a, events), e)
  {
    hide Step;
    assert (events + [e])[..|events|] == events;
  }

  lemma OneIsDropped(a: Authority)
    requires MarketsOk(a) && Labelled(a, NthMarket(0).scope, 1) && |a.order| == MAX_TRACKED_MARKETS && a.order[0] == NthMarket(0)
    requires NthMarket(0) in a.markets && NthMarket(1) in a.markets && NthMarket(MAX_TRACKED_MARKETS) !in a.markets
    ensures var b := Step(a, Health(NthMarket(MAX_TRACKED_MARKETS), 1, false));
            NthMarket(0) !in b.markets && NthMarket(1) in b.markets
  {
    hide Track, SetHealth, MarketsOk, Register;
    var j := NthMarket(MAX_TRACKED_MARKETS);
    StepTable(a, Health(j, 1, false));
    RegisterLabels(a, j.scope, 1);
    TrackDropsIff(a, j, NthMarket(0));
    TrackDropsIff(a, j, NthMarket(1));
  }

  // ---- the settings in force ----

  function LastConfigured(cfg: Config, events: seq<Event>): Config
    decreases |events|
  {
    if events == [] then cfg
    else if events[|events| - 1].Configure? then events[|events| - 1].cfg
    else LastConfigured(cfg, events[..|events| - 1])
  }

  /** The tunables in force are the last ones configured. */
  lemma {:induction false} ConfigIsTheLast(cfg: Config, events: seq<Event>)
    ensures Run(New(cfg), events).cfg == LastConfigured(cfg, events)
    decreases |events|
  {
    hide Step;
    if events != [] {
      ConfigIsTheLast(cfg, events[..|events| - 1]);
      StepConfig(Run(New(cfg), events[..|events| - 1]), events[|events| - 1]);
    }
  }

  lemma StepConfig(a: Authority, e: Event)
    ensures Step(a, e).cfg == if e.Configure? then e.cfg else a.cfg
  {
    hide Admit, SetHealth, Observe, Register;
    match e
    case Arrive(k, p, at) => AdmitElects(a, k, p, at);
    case Health(k, p, healthy) => HealthFrame(a, k, p, healthy);
    case Lead(s, p, lead) => ObserveFrames(a, s, p, lead);
    case Label(s, p) => RegisterFrame(a, s, p);
    case _ =>
  }
}
