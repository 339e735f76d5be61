/**
 Every handover of a market from one path to another has a cause. A market follows one path; the path
 it follows changes only when the scope's leader moved, the leader is unhealthy there, or the hold that
 pinned it ended for one of the named reasons.
 */
module AuthorityHold {
  import opened Wrappers
  import opened AuthorityModel

  // ---- what each piece of a step leaves alone ----

  lemma TrackFrame(a: Authority, k: MarketKey)
    ensures var b := Track(a, k);
            && k in b.markets
            && (forall j :: j in b.markets && j != k ==> j in a.markets && b.markets[j] == a.markets[j])
            && b.markets[k] == (if k in a.markets then a.markets[k] else NEW_MARKET)
            && b == a.(markets := b.markets, order := b.order)
  {}

  lemma RegisterFrame(a: Authority, s: ScopeKey, p: Transport)
    ensures Register(a, s, p) == a.(ordinals := Register(a, s, p).ordinals)
  {}

  /** Refreshing a hold changes that market's hold and the last release, and nothing else. */
  lemma RefreshFrame(a: Authority, k: MarketKey, publisher: Transport, now: nat)
    ensures var b := RefreshHold(a, k, publisher, now);
            && b == a.(markets := b.markets, released := b.released)
            && b.markets.Keys == a.markets.Keys
            && (forall j :: j in a.markets && j != k ==> b.markets[j] == a.markets[j])
            && (k in a.markets ==> b.markets[k] == a.markets[k].(hold := b.markets[k].hold))
  {
    hide Stands, ReleaseOf, Clocked;
    if k !in a.markets && k.scope in a.scopes {
      assert !Stands(a, k, a.scopes[k.scope].leader, now) by {
        NoHoldDoesNotStand(a, k, now);
      }
    }
    if k in a.markets {
      assert Track(a, k) == a && Track(a.(released := None), k) == a.(released := None);
    }
  }

  lemma NoHoldDoesNotStand(a: Authority, k: MarketKey, now: nat)
    requires HoldOf(a, k).None? && k.scope in a.scopes
    ensures !Stands(a, k, a.scopes[k.scope].leader, now)
  {}

  lemma HealthAfterRefresh(a: Authority, k: MarketKey, publisher: Transport, now: nat, p: Transport)
    ensures Healthy(RefreshHold(a, k, publisher, now), k, p) <==> Healthy(a, k, p)
  {
    hide RefreshHold;
    RefreshFrame(a, k, publisher, now);
  }

  // ---- holds are of another path ----

  /** A hold names a path other than its leader, in a scope that has been elected. */
  ghost predicate HoldsOk(a: Authority) {
    forall k :: k in a.markets && a.markets[k].hold.Some? ==>
      k.scope in a.scopes && a.markets[k].hold.value.holder != a.markets[k].hold.value.leader
  }

  /** What the market's hold is after a refresh. */
  lemma RefreshedHold(a: Authority, k: MarketKey, publisher: Transport, now: nat)
    requires k.scope in a.scopes
    ensures var leader := a.scopes[k.scope].leader;
            var b := RefreshHold(a, k, publisher, now);
            HoldOf(b, k) ==
              if Stands(a, k, leader, now) then
                var h := Clocked(HoldOf(a, k).value, Healthy(a, k, leader), now);
                if ReleaseOf(a, k, h, publisher, now).None? then Some(h) else None
              else if !Healthy(a, k, leader) && publisher != leader && Healthy(a, k, publisher) then
                Some(Hold(publisher, leader, None))
              else None
    ensures var leader := a.scopes[k.scope].leader;
            RefreshHold(a, k, publisher, now).released ==
              if Stands(a, k, leader, now) then
                ReleaseOf(a, k, Clocked(HoldOf(a, k).value, Healthy(a, k, leader), now), publisher, now)
              else a.released
  {
    hide HolderLive, ReleaseOf, Clocked, Track;
    TrackFrame(a, k);
    var leader := a.scopes[k.scope].leader;
    if Stands(a, k, leader, now) {
      var h := Clocked(HoldOf(a, k).value, Healthy(a, k, leader), now);
      TrackFrame(a.(released := ReleaseOf(a, k, h, publisher, now)), k);
    }
  }

  lemma RefreshKeepsHoldsOk(a: Authority, k: MarketKey, publisher: Transport, now: nat)
    requires HoldsOk(a)
    ensures HoldsOk(RefreshHold(a, k, publisher, now))
  {
    hide RefreshHold, HolderLive, ReleaseOf;
    RefreshFrame(a, k, publisher, now);
    if k.scope in a.scopes {
      RefreshedHold(a, k, publisher, now);
    } else {
      assert RefreshHold(a, k, publisher, now) == a by {
        NoScopeNoRefresh(a, k, publisher, now);
      }
    }
  }

  lemma NoScopeNoRefresh(a: Authority, k: MarketKey, publisher: Transport, now: nat)
    requires k.scope !in a.scopes
    ensures RefreshHold(a, k, publisher, now) == a
  {}

  // ---- who is served after a refresh ----

  /** The market's last emission was `p`'s: as the leader with no hold standing, or pinned to it. */
  ghost predicate Pinned(a: Authority, k: MarketKey, p: Transport) {
    k.scope in a.scopes &&
    var leader := a.scopes[k.scope].leader;
    var hold := HoldOf(a, k);
    if p == leader then hold.None?
    else hold.Some? && hold.value.holder == p && hold.value.leader == leader
  }

  lemma AlternateIsHealthy(a: Authority, k: MarketKey, leader: Transport)
    ensures Alternate(a, k, leader).Some? ==>
              Alternate(a, k, leader).value != leader && Healthy(a, k, Alternate(a, k, leader).value)
  {}

  /** Serving the sender right after its refresh leaves the market pinned to it. */
  lemma ServedIsPinned(a: Authority, k: MarketKey, p: Transport, now: nat)
    requires HoldsOk(a) && k.scope in a.scopes
    requires Serving(RefreshHold(a, k, p, now), k) == Some(p)
    ensures Pinned(RefreshHold(a, k, p, now), k, p)
  {
    hide RefreshHold, HolderLive, Alternate;
    var b := RefreshHold(a, k, p, now);
    var leader := a.scopes[k.scope].leader;
    RefreshFrame(a, k, p, now);
    RefreshedHold(a, k, p, now);
    RefreshKeepsHoldsOk(a, k, p, now);
    HealthAfterRefresh(a, k, p, now, leader);
    HealthAfterRefresh(a, k, p, now, p);
    AlternateIsHealthy(b, k, leader);
    if HoldOf(b, k).Some? {
      HealthAfterRefresh(a, k, p, now, HoldOf(b, k).value.holder);
      assert b.markets[k].hold == HoldOf(b, k);
    }
  }

  // ---- one admission ----

  /** An admission that is neither the scope's first nor refused for want of a label. */
  lemma AdmitUnfolds(a: Authority, k: MarketKey, p: Transport, at: nat)
    ensures var b := Register(a.(released := None), k.scope, p);
            Admit(a, k, p, at) ==
              if !Labelled(b, k.scope, p) then Decision(b, Dropped)
              else if k.scope !in b.scopes then Decision(FirstScope(b, k, p, at), Emitted(true))
              else
                var c := RefreshHold(Arrived(b, k.scope, p, at), k, p, at);
                if Serving(c, k) != Some(p) then Decision(c, Dropped) else Serve(c, k, p)
  {}

  lemma ServeFrame(a: Authority, k: MarketKey, p: Transport)
    ensures var b := Serve(a, k, p).authority;
            && b == a.(markets := b.markets, order := b.order)
            && k in b.markets && b.markets[k].lastAdmitted == Some(p) && HoldOf(b, k) == HoldOf(a, k)
            && (forall q :: Healthy(b, k, q) <==> Healthy(a, k, q))
            && (forall j :: j in b.markets && j != k ==> j in a.markets && b.markets[j] == a.markets[j])
            && Serve(a, k, p).admission.Emitted?
  {
    TrackFrame(a, k);
  }

  /** Learning a label and hearing a path touch no market. */
  lemma ArrivedFrame(a: Authority, s: ScopeKey, p: Transport, at: nat)
    requires s in a.scopes
    ensures var b := Arrived(a, s, p, at);
            && b == a.(scopes := b.scopes) && b.scopes.Keys == a.scopes.Keys
            && (forall t :: t in a.scopes && t != s ==> b.scopes[t] == a.scopes[t])
            && b.scopes[s].leader in {a.scopes[s].leader, p}
  {}

  lemma ScopesGrowKeepsHoldsOk(a: Authority, b: Authority)
    requires HoldsOk(a) && b.markets == a.markets && a.scopes.Keys <= b.scopes.Keys
    ensures HoldsOk(b)
  {}

  /** What an emission leaves behind: the market follows its path. */
  ghost predicate Follows(a: Authority, k: MarketKey, p: Transport) {
    k in a.markets && LastAdmitted(a, k) == Some(p) && Pinned(a, k, p)
  }

  lemma FirstScopeIsFollowed(a: Authority, k: MarketKey, p: Transport, at: nat)
    requires HoldsOk(a) && k.scope !in a.scopes
    ensures HoldsOk(FirstScope(a, k, p, at)) && Follows(FirstScope(a, k, p, at), k, p)
  {
    var scoped := a.(scopes := a.scopes[k.scope := Scope(p, map[p := Path(at, [])], at)]);
    TrackFrame(scoped, k);
    assert k in a.markets ==> a.markets[k].hold.None?;
  }

  /** Every emission leaves the market pinned to the path it served; a non-leader's emission leaves a
      hold naming that path and the current leader. */
  lemma EmissionPins(a: Authority, k: MarketKey, p: Transport, at: nat)
    requires HoldsOk(a)
    ensures HoldsOk(Admit(a, k, p, at).authority)
    ensures Admit(a, k, p, at).admission.Emitted? ==> Follows(Admit(a, k, p, at).authority, k, p)
  {
    hide RefreshHold, Serving, FirstScope, Serve, Arrived, Register, Pinned;
    AdmitUnfolds(a, k, p, at);
    var b := Register(a.(released := None), k.scope, p);
    RegisterFrame(a.(released := None), k.scope, p);
    if Labelled(b, k.scope, p) {
      if k.scope !in b.scopes {
        FirstScopeIsFollowed(b, k, p, at);
      } else {
        var c := Arrived(b, k.scope, p, at);
        ArrivedFrame(b, k.scope, p, at);
        ScopesGrowKeepsHoldsOk(b, c);
        RefreshKeepsHoldsOk(c, k, p, at);
        RefreshFrame(c, k, p, at);
        var d := RefreshHold(c, k, p, at);
        if Serving(d, k) == Some(p) {
          ServedIsPinned(c, k, p, at);
          ServeFrame(d, k, p);
          ServeKeepsHoldsOk(d, k, p);
          assert Pinned(Serve(d, k, p).authority, k, p) by {
            PinnedIsTheHold(d, Serve(d, k, p).authority, k, p);
          }
        }
      }
    }
  }

  lemma PinnedIsTheHold(a: Authority, b: Authority, k: MarketKey, p: Transport)
    requires Pinned(a, k, p) && b.scopes == a.scopes && HoldOf(b, k) == HoldOf(a, k)
    ensures Pinned(b, k, p)
  {}

  lemma ServeKeepsHoldsOk(a: Authority, k: MarketKey, p: Transport)
    requires HoldsOk(a)
    ensures HoldsOk(Serve(a, k, p).authority)
  {
    TrackFrame(a, k);
  }

  // ---- what happens to a followed market between two emissions ----

  /** A datagram's batch of the market is emitted. */
  ghost predicate EmitsOn(a: Authority, e: Event, k: MarketKey) {
    e.Arrive? && e.k == k && Admit(a, k, e.p, e.at).admission.Emitted?
  }

  /** The event ends the pin on `p`: the hold is dropped, or an admission finds its holder unhealthy or
      silent past the timeout, or it is released on its leader's own admission. */
  ghost predicate HoldEnds(a: Authority, e: Event, k: MarketKey, p: Transport) {
    || e == Unpin(k)
    || (e.Arrive? && e.k == k
        && (|| !Healthy(a, k, p)
            || (e.p != p && !HolderLive(a, k.scope, p, e.at))
            || Step(a, e).released.Some?))
  }

  /** The state an eligible admission refreshes its hold in. */
  function Ready(a: Authority, k: MarketKey, q: Transport, at: nat): Authority
    requires k.scope in a.scopes
  {
    Arrived(Register(a.(released := None), k.scope, q), k.scope, q, at)
  }

  lemma ReadyFrame(a: Authority, k: MarketKey, q: Transport, at: nat)
    requires k.scope in a.scopes
    ensures var b := Ready(a, k, q, at);
            && b.markets == a.markets && b.cfg == a.cfg && b.released == None
            && b.scopes.Keys == a.scopes.Keys
            && (forall t :: t in a.scopes && t != k.scope ==> b.scopes[t] == a.scopes[t])
    ensures forall p :: HolderLive(Ready(a, k, q, at), k.scope, p, at) <==> p == q || HolderLive(a, k.scope, p, at)
  {
    hide Register;
    RegisterFrame(a.(released := None), k.scope, q);
    var v := a.scopes[k.scope];
    var w := Contested(v, q, at, a.cfg.leaderTimeout);
    assert w.paths.Keys == v.paths.Keys + {q};
    assert forall p :: p in w.paths ==> w.paths[p].lastSeen == if p == q then at else v.paths[p].lastSeen;
  }

  /** While the hold does not end, refreshing it keeps the market pinned to the same path, unless an
      unhealthy leader's market is just then taken by the sender. */
  lemma RefreshKeepsPin(a: Authority, k: MarketKey, q: Transport, at: nat, p: Transport)
    requires HoldsOk(a) && Pinned(a, k, p) && a.released.None?
    requires Healthy(a, k, p) && HolderLive(a, k.scope, p, at)
    requires RefreshHold(a, k, q, at).released.None?
    ensures Pinned(RefreshHold(a, k, q, at), k, p)
            || (p == a.scopes[k.scope].leader && !Healthy(a, k, p))
  {
    hide RefreshHold, HolderLive;
    RefreshedHold(a, k, q, at);
    RefreshFrame(a, k, q, at);
  }

  lemma NoHoldKeepsNone(a: Authority, k: MarketKey, q: Transport, at: nat)
    requires k.scope in a.scopes && HoldOf(a, k).None?
    requires Healthy(a, k, a.scopes[k.scope].leader) || q == a.scopes[k.scope].leader || !Healthy(a, k, q)
    ensures HoldOf(RefreshHold(a, k, q, at), k).None?
  {
    hide RefreshHold, HolderLive;
    RefreshedHold(a, k, q, at);
  }

  /** The sender that takes an unheld market is served at once. */
  lemma TakerIsServed(a: Authority, k: MarketKey, q: Transport, at: nat)
    requires k.scope in a.scopes && HoldOf(a, k).None?
    requires !Healthy(a, k, a.scopes[k.scope].leader) && q != a.scopes[k.scope].leader && Healthy(a, k, q)
    ensures Serving(RefreshHold(a, k, q, at), k) == Some(q)
  {
    hide RefreshHold, HolderLive;
    RefreshedHold(a, k, q, at);
    RefreshFrame(a, k, q, at);
    HealthAfterRefresh(a, k, q, at, q);
  }

  /** A pinned market is served from the path it is pinned to, as long as that path is healthy. */
  lemma PinnedIsServed(a: Authority, k: MarketKey, p: Transport)
    requires Pinned(a, k, p) && Healthy(a, k, p)
    ensures Serving(a, k) == Some(p)
  {}

  /** A refused admission of a followed market leaves it followed, unless its hold ended. */
  lemma RefusalKeepsFollowing(a: Authority, k: MarketKey, q: Transport, at: nat, p: Transport)
    requires HoldsOk(a) && Follows(a, k, p)
    requires Admit(a, k, q, at).admission.Dropped?
    requires Leader(Admit(a, k, q, at).authority, k.scope) == Leader(a, k.scope)
    requires p == a.scopes[k.scope].leader || !HoldEnds(a, Arrive(k, q, at), k, p)
    ensures Follows(Admit(a, k, q, at).authority, k, p)
  {
    hide RefreshHold, Serving, Arrived, Register, HolderLive, Serve, FirstScope;
    AdmitUnfolds(a, k, q, at);
    RegisterFrame(a.(released := None), k.scope, q);
    if Labelled(Register(a.(released := None), k.scope, q), k.scope, q) {
      var b := Ready(a, k, q, at);
      ReadyFrame(a, k, q, at);
      RefreshFrame(b, k, q, at);
      ScopesGrowKeepsHoldsOk(a, b);
      var c := RefreshHold(b, k, q, at);
      ServeFrame(c, k, q);
      assert Admit(a, k, q, at) == Decision(c, Dropped);
      if p == a.scopes[k.scope].leader {
        if !Healthy(b, k, p) && q != p && Healthy(b, k, q) {
          TakerIsServed(b, k, q, at);
        }
        NoHoldKeepsNone(b, k, q, at);
      } else {
        assert !HoldEnds(a, Arrive(k, q, at), k, p);
        assert Step(a, Arrive(k, q, at)) == c;
        RefreshKeepsPin(b, k, q, at, p);
      }
    }
  }

  lemma SameLeaderSamePin(a: Authority, b: Authority, k: MarketKey, p: Transport)
    requires Pinned(a, k, p) && HoldOf(b, k) == HoldOf(a, k)
    requires k.scope in b.scopes && b.scopes[k.scope].leader == a.scopes[k.scope].leader
    ensures Pinned(b, k, p)
  {}

  /** A healthy leader's market with no hold stays the leader's whoever sends. */
  lemma LeaderStaysServed(a: Authority, k: MarketKey, q: Transport, at: nat)
    requires k.scope in a.scopes
    requires Pinned(a, k, a.scopes[k.scope].leader) && Healthy(a, k, a.scopes[k.scope].leader)
    ensures Serving(RefreshHold(a, k, q, at), k) == Some(a.scopes[k.scope].leader)
  {
    hide RefreshHold;
    NoHoldKeepsNone(a, k, q, at);
    RefreshFrame(a, k, q, at);
    HealthAfterRefresh(a, k, q, at, a.scopes[k.scope].leader);
  }

  /** An emission from another path, with a healthy unmoved leader, ends the hold of the path it
      displaces. */
  lemma DisplacementEndsTheHold(a: Authority, k: MarketKey, q: Transport, at: nat, p: Transport)
    requires HoldsOk(a) && Follows(a, k, p) && q != p
    requires Admit(a, k, q, at).admission.Emitted?
    requires Leader(Admit(a, k, q, at).authority, k.scope) == Leader(a, k.scope)
    requires Healthy(Admit(a, k, q, at).authority, k, a.scopes[k.scope].leader)
    ensures p != a.scopes[k.scope].leader && HoldEnds(a, Arrive(k, q, at), k, p)
  {
    assert k.scope in a.scopes;
    hide RefreshHold, Serving, Arrived, Register, HolderLive, Serve, FirstScope, Pinned;
    AdmitUnfolds(a, k, q, at);
    RegisterFrame(a.(released := None), k.scope, q);
    var b := Ready(a, k, q, at);
    ReadyFrame(a, k, q, at);
    RefreshFrame(b, k, q, at);
    ScopesGrowKeepsHoldsOk(a, b);
    var c := RefreshHold(b, k, q, at);
    ServeFrame(c, k, q);
    var leader := a.scopes[k.scope].leader;
    HealthAfterRefresh(b, k, q, at, leader);
    HealthAfterRefresh(b, k, q, at, p);
    assert Healthy(b, k, leader) && b.scopes[k.scope].leader == leader;
    SameLeaderSamePin(a, b, k, p);
    if p == leader {
      LeaderStaysServed(b, k, q, at);
    } else if !HoldEnds(a, Arrive(k, q, at), k, p) {
      assert Step(a, Arrive(k, q, at)) == Serve(c, k, q).authority;
      RefreshKeepsPin(b, k, q, at, p);
      PinnedIsServed(c, k, p);
    }
  }

  // ---- the other events ----

  lemma OtherAdmissionsKeepMarket(a: Authority, j: MarketKey, q: Transport, at: nat, k: MarketKey)
    requires j != k
    ensures var b := Admit(a, j, q, at).authority;
            && (k in b.markets ==> k in a.markets && b.markets[k] == a.markets[k])
            && a.scopes.Keys <= b.scopes.Keys
  {
    hide RefreshHold, Serving, Arrived, Register, Serve, Track;
    AdmitUnfolds(a, j, q, at);
    var r := Register(a.(released := None), j.scope, q);
    RegisterFrame(a.(released := None), j.scope, q);
    if j.scope in a.scopes {
      ReadyFrame(a, j, q, at);
      var b := Ready(a, j, q, at);
      RefreshFrame(b, j, q, at);
      ServeFrame(RefreshHold(b, j, q, at), j, q);
    } else {
      TrackFrame(r.(scopes := r.scopes[j.scope := Scope(q, map[q := Path(at, [])], at)]), j);
    }
  }

  lemma HealthKeepsFollowing(a: Authority, j: MarketKey, q: Transport, healthy: bool, k: MarketKey, p: Transport)
    requires Follows(a, k, p) && k in SetHealth(a, j, q, healthy).markets
    ensures Follows(SetHealth(a, j, q, healthy), k, p)
  {
    hide Register, Track, Labelled;
    var b := Register(a, j.scope, q);
    RegisterFrame(a, j.scope, q);
    TrackFrame(b, j);
  }

  lemma ObserveFrame(a: Authority, s: ScopeKey, p: Transport, lead: int)
    ensures var b := Observe(a, s, p, lead);
            && b == a.(scopes := b.scopes, ordinals := b.ordinals)
            && b.scopes.Keys == a.scopes.Keys
            && (forall t :: t in a.scopes ==> b.scopes[t].leader == a.scopes[t].leader)
  {
    hide Register, Labelled;
    RegisterFrame(a, s, p);
  }

  /** Between two emissions a followed market stays followed, unless its leader moves, it is no longer
      tracked, or its hold ends. */
  lemma StepKeepsFollowing(a: Authority, e: Event, k: MarketKey, p: Transport)
    requires HoldsOk(a) && Follows(a, k, p) && !EmitsOn(a, e, k)
    requires k in Step(a, e).markets && Leader(Step(a, e), k.scope) == Leader(a, k.scope)
    requires p == a.scopes[k.scope].leader || !HoldEnds(a, e, k, p)
    ensures Follows(Step(a, e), k, p)
  {
    hide Admit, SetHealth, Observe, Register;
    match e
    case Arrive(j, q, at) =>
      if j == k {
        RefusalKeepsFollowing(a, k, q, at, p);
      } else {
        OtherAdmissionsKeepMarket(a, j, q, at, k);
        SameLeaderSamePin(a, Step(a, e), k, p);
      }
    case Synthesize(_, _) =>
    case Health(j, q, healthy) => HealthKeepsFollowing(a, j, q, healthy, k, p);
    case Rebaseline(_, _) =>
    case Unpin(_) =>
    case Forget(_) =>
    case Lead(s, q, lead) => ObserveFrame(a, s, q, lead);
    case Close(_, _) =>
    case Label(s, q) => RegisterFrame(a, s, q);
    case Configure(_) =>
  }

  lemma StepKeepsHoldsOk(a: Authority, e: Event)
    requires HoldsOk(a)
    ensures HoldsOk(Step(a, e))
  {
    hide Admit, SetHealth, Observe, Register;
    match e
    case Arrive(k, q, at) => EmissionPins(a, k, q, at);
    case Synthesize(_, _) =>
    case Health(k, q, healthy) => HealthKeepsHoldsOk(a, k, q, healthy);
    case Rebaseline(_, _) =>
    case Unpin(_) =>
    case Forget(_) =>
    case Lead(s, q, lead) => ObserveFrame(a, s, q, lead);
    case Close(_, _) =>
    case Label(s, q) => RegisterFrame(a, s, q);
    case Configure(_) =>
  }

  lemma HealthKeepsHoldsOk(a: Authority, k: MarketKey, q: Transport, healthy: bool)
    requires HoldsOk(a)
    ensures HoldsOk(SetHealth(a, k, q, healthy))
  {
    hide Register, Track, Labelled;
    RegisterFrame(a, k.scope, q);
    TrackFrame(Register(a, k.scope, q), k);
  }

  // ---- runs ----

  /** At step `i` no datagram of the market is emitted and the market stays tracked. */
  ghost predicate QuietAt(a: Authority, events: seq<Event>, k: MarketKey, i: nat)
    requires i < |events|
  {
    !EmitsOn(Run(a, events[..i]), events[i], k) && k in Run(a, events[..i + 1]).markets
  }

  ghost predicate Quiet(a: Authority, events: seq<Event>, k: MarketKey) {
    forall i :: 0 <= i < |events| ==> QuietAt(a, events, k, i)
  }

  ghost predicate LeaderMoves(a: Authority, events: seq<Event>, s: ScopeKey) {
    exists i :: 0 <= i <= |events| && Leader(Run(a, events[..i]), s) != Leader(a, s)
  }

  ghost predicate EndsAt(a: Authority, events: seq<Event>, k: MarketKey, p: Transport, i: nat)
    requires i < |events|
  {
    HoldEnds(Run(a, events[..i]), events[i], k, p)
  }

  ghost predicate HoldEnded(a: Authority, events: seq<Event>, k: MarketKey, p: Transport) {
    exists i :: 0 <= i < |events| && EndsAt(a, events, k, p, i)
  }

  lemma RunOneMore(a: Authority, events: seq<Event>, i: nat)
    requires i < |events|
    ensures Run(a, events[..i + 1]) == Step(Run(a, events[..i]), events[i])
  {
    assert events[..i + 1][..i] == events[..i];
  }

  lemma {:induction false} QuietRunKeepsFollowing(a: Authority, events: seq<Event>, k: MarketKey, p: Transport, n: nat)
    requires HoldsOk(a) && Follows(a, k, p) && n <= |events| && Quiet(a, events, k)
    requires !LeaderMoves(a, events, k.scope)
    requires p == a.scopes[k.scope].leader || !HoldEnded(a, events, k, p)
    ensures HoldsOk(Run(a, events[..n])) && Follows(Run(a, events[..n]), k, p)
    ensures Leader(Run(a, events[..n]), k.scope) == Leader(a, k.scope)
    decreases n
  {
    hide Step, HoldEnds, EmitsOn, HoldsOk;
    if n > 0 {
      QuietRunKeepsFollowing(a, events, k, p, n - 1);
      RunOneMore(a, events, n - 1);
      var b := Run(a, events[..n - 1]);
      assert QuietAt(a, events, k, n - 1);
      assert Leader(Run(a, events[..n]), k.scope) == Leader(a, k.scope);
      assert p == a.scopes[k.scope].leader || !EndsAt(a, events, k, p, n - 1);
      StepKeepsFollowing(b, events[n - 1], k, p);
      StepKeepsHoldsOk(b, events[n - 1]);
    }
  }

  /** Every handover has a cause. While a market stays tracked, if two consecutive emissions on it come
      from different paths, then the scope's leader moved in between, or the leader is unhealthy there,
      or the path displaced was an override whose hold ended. */
  lemma HandoverHasCause(a: Authority, first: Event, between: seq<Event>, second: Event, k: MarketKey)
    requires HoldsOk(a) && EmitsOn(a, first, k)
    requires Quiet(Step(a, first), between, k)
    requires EmitsOn(Run(Step(a, first), between), second, k) && second.p != first.p
    ensures var start, events := Step(a, first), between + [second];
            && k.scope in start.scopes
            && (|| LeaderMoves(start, events, k.scope)
                || !Healthy(Run(start, events), k, start.scopes[k.scope].leader)
                || (first.p != start.scopes[k.scope].leader && HoldEnded(start, events, k, first.p)))
  {
    hide Admit, HoldEnds, QuietAt, HoldsOk;
    var start, events := Step(a, first), between + [second];
    EmissionPins(a, k, first.p, first.at);
    var leader := start.scopes[k.scope].leader;
    SplitRun(start, between, second, k, first.p);
    if !LeaderMoves(start, events, k.scope) && Healthy(Run(start, events), k, leader) {
      if first.p == leader || !HoldEnded(start, between, k, first.p) {
        QuietRunKeepsFollowing(start, between, k, first.p, |between|);
        assert between[..|between|] == between;
        var last := Run(start, between);
        DisplacementEndsTheHold(last, k, second.p, second.at, first.p);
        assert HoldEnds(last, second, k, first.p);
      }
    }
  }

  /** A run of one more event, seen through its causes. */
  lemma SplitRun(a: Authority, between: seq<Event>, second: Event, k: MarketKey, p: Transport)
    ensures var events := between + [second];
            && Run(a, events) == Step(Run(a, between), second)
            && (LeaderMoves(a, between, k.scope) ==> LeaderMoves(a, events, k.scope))
            && (Leader(Run(a, events), k.scope) != Leader(a, k.scope) ==> LeaderMoves(a, events, k.scope))
            && (Leader(Run(a, between), k.scope) != Leader(a, k.scope) ==> LeaderMoves(a, events, k.scope))
            && (HoldEnded(a, between, k, p) ==> HoldEnded(a, events, k, p))
            && (HoldEnds(Run(a, between), second, k, p) ==> HoldEnded(a, events, k, p))
  {
    hide Step, HoldEnds;
    var events := between + [second];
    assert events[..|between|] == between && events[..|events|] == events;
    RunOneMore(a, events, |between|);
    assert EndsAt(a, events, k, p, |between|) <==> HoldEnds(Run(a, between), second, k, p);
    if LeaderMoves(a, between, k.scope) {
      var i :| 0 <= i <= |between| && Leader(Run(a, between[..i]), k.scope) != Leader(a, k.scope);
      assert events[..i] == between[..i];
    }
    if HoldEnded(a, between, k, p) {
      var i :| 0 <= i < |between| && EndsAt(a, between, k, p, i);
      assert events[..i] == between[..i] && events[i] == between[i];
      assert EndsAt(a, events, k, p, i);
    }
  }

  // ---- synthesized batches never hand over ----

  lemma StepKeepsLastAdmitted(a: Authority, e: Event, k: MarketKey)
    requires k in a.markets && k in Step(a, e).markets && !EmitsOn(a, e, k)
    ensures LastAdmitted(Step(a, e), k) == LastAdmitted(a, k)
  {
    hide Admit, SetHealth, Observe, Register;
    match e
    case Arrive(j, q, at) =>
      if j == k {
        RefusalKeepsLastAdmitted(a, k, q, at);
      } else {
        OtherAdmissionsKeepMarket(a, j, q, at, k);
      }
    case Synthesize(_, _) =>
    case Health(j, q, healthy) => HealthKeepsLastAdmitted(a, j, q, healthy, k);
    case Rebaseline(_, _) =>
    case Unpin(_) =>
    case Forget(_) =>
    case Lead(s, q, lead) => ObserveFrame(a, s, q, lead);
    case Close(_, _) =>
    case Label(s, q) => RegisterFrame(a, s, q);
    case Configure(_) =>
  }

  lemma HealthKeepsLastAdmitted(a: Authority, j: MarketKey, q: Transport, healthy: bool, k: MarketKey)
    requires k in a.markets && k in SetHealth(a, j, q, healthy).markets
    ensures LastAdmitted(SetHealth(a, j, q, healthy), k) == LastAdmitted(a, k)
  {
    hide Register, Track, Labelled;
    RegisterFrame(a, j.scope, q);
    TrackFrame(Register(a, j.scope, q), j);
  }

  lemma RefusalKeepsLastAdmitted(a: Authority, k: MarketKey, q: Transport, at: nat)
    requires k in a.markets && Admit(a, k, q, at).admission.Dropped?
    ensures LastAdmitted(Admit(a, k, q, at).authority, k) == LastAdmitted(a, k)
  {
    hide RefreshHold, Serving, Arrived, Register, Serve, FirstScope;
    AdmitUnfolds(a, k, q, at);
    RegisterFrame(a.(released := None), k.scope, q);
    if k.scope in a.scopes {
      ReadyFrame(a, k, q, at);
      RefreshFrame(Ready(a, k, q, at), k, q, at);
      ServeFrame(RefreshHold(Ready(a, k, q, at), k, q, at), k, q);
    }
  }

  lemma {:induction false} QuietRunKeepsLastAdmitted(a: Authority, events: seq<Event>, k: MarketKey, n: nat)
    requires k in a.markets && n <= |events| && Quiet(a, events, k)
    ensures k in Run(a, events[..n]).markets && LastAdmitted(Run(a, events[..n]), k) == LastAdmitted(a, k)
    decreases n
  {
    hide Step, EmitsOn;
    if n > 0 {
      QuietRunKeepsLastAdmitted(a, events, k, n - 1);
      RunOneMore(a, events, n - 1);
      assert QuietAt(a, events, k, n - 1);
      StepKeepsLastAdmitted(Run(a, events[..n - 1]), events[n - 1], k);
    }
  }

  /** A batch synthesized after an emission is served only from the path that emission came from, so
      only a datagram can hand a tracked market over. */
  lemma SynthesizedNeverHandsOver(a: Authority, first: Event, between: seq<Event>, k: MarketKey, q: Transport)
    requires HoldsOk(a) && EmitsOn(a, first, k) && Quiet(Step(a, first), between, k)
    requires AdmitSynthesized(Run(Step(a, first), between), k, q).admission.Emitted?
    ensures q == first.p
  {
    hide Admit, HoldsOk, Serving;
    EmissionPins(a, k, first.p, first.at);
    QuietRunKeepsLastAdmitted(Step(a, first), between, k, |between|);
    assert between[..|between|] == between;
  }
}
