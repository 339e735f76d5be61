/**
 Who is let through. When a batch is emitted, said of the hold, the leader, the health reports and the times
 paths were last heard, and not of how the code finds its path: no path that is unwell on a market is followed
 there while the scope has heard one that is well.
 */
module AuthorityServing {
  import opened Wrappers
  import opened Collections
  import opened AuthorityModel
  import opened AuthorityHold
  import opened AuthorityElection
  import opened AuthorityRelease

  // ---- the state an arrival is judged in, in terms of the state it found ----

  predicate Eligible(a: Authority, s: ScopeKey, p: Transport) {
    p in LabelsOf(a, s) || |LabelsOf(a, s)| < MAX_LABELLED_PATHS
  }

  /** The leader once the arrival is heard: the sender, if the leader has been silent past the timeout. */
  function LeaderAt(a: Authority, s: ScopeKey, p: Transport, at: nat): Transport
    requires s in a.scopes
  {
    var v := a.scopes[s];
    if v.leader != p && Since(at, LastSeen(v.paths, v.leader)) > a.cfg.leaderTimeout then p else v.leader
  }

  /** The path has been heard in the scope, counting this arrival. */
  predicate HeardBy(a: Authority, s: ScopeKey, p: Transport, q: Transport) {
    q == p || (s in a.scopes && q in a.scopes[s].paths)
  }

  /** The market's hold outlasts the arrival: no election moved its leader, and its holder is well there and was
      heard within the timeout. */
  predicate KeepsHold(a: Authority, k: MarketKey, p: Transport, at: nat)
    requires k.scope in a.scopes
  {
    var hold := HoldOf(a, k);
    && hold.Some?
    && hold.value.leader == LeaderAt(a, k.scope, p, at)
    && Healthy(a, k, hold.value.holder)
    && (hold.value.holder == p || HolderLive(a, k.scope, hold.value.holder, at))
  }

  /** The leader has been seen well here for `wait`. */
  predicate WellFor(a: Authority, k: MarketKey, at: nat, wait: nat)
    requires HoldOf(a, k).Some?
  {
    var h := HoldOf(a, k).value;
    Healthy(a, k, h.leader) && h.healthySince.Some? && Since(at, h.healthySince.value) >= wait
  }

  predicate NaturalDue(a: Authority, k: MarketKey, p: Transport, at: nat)
    requires k.scope in a.scopes
  {
    KeepsHold(a, k, p, at) && p == HoldOf(a, k).value.leader && Reinstalled(a, k, p) && WellFor(a, k, at, REVERT_HOLD_NS)
  }

  predicate DeadlineDue(a: Authority, k: MarketKey, p: Transport, at: nat)
    requires k.scope in a.scopes
  {
    KeepsHold(a, k, p, at) && p == HoldOf(a, k).value.leader && WellFor(a, k, at, REVERT_DEADLINE_NS)
  }

  /** When an eligible arrival is emitted. A held market: from its holder, or from its leader once its wait is
      over. Any other: from the leader, if it is well there or nobody else who was heard is; from another path, if
      the leader is not well there and that path is. */
  predicate Deserves(a: Authority, k: MarketKey, p: Transport, at: nat)
    requires k.scope in a.scopes
  {
    if KeepsHold(a, k, p, at) then p == HoldOf(a, k).value.holder || NaturalDue(a, k, p, at) || DeadlineDue(a, k, p, at)
    else if p == LeaderAt(a, k.scope, p, at) then
      Healthy(a, k, p) || forall q :: q in a.scopes[k.scope].paths && q != p ==> !Healthy(a, k, q)
    else Healthy(a, k, p) && !Healthy(a, k, LeaderAt(a, k.scope, p, at))
  }

  // ---- the freshest healthy path exists whenever there is a healthy one ----

  lemma {:induction false} FreshestOf(a: Authority, s: ScopeKey, some: set<Transport>) returns (p: Transport)
    requires some != {} && s in a.scopes && some <= a.scopes[s].paths.Keys
    ensures p in some && forall q :: q in some ==> NoFresher(a, s, q, p)
    decreases |some|
  {
    hide Rank;
    ghost var found := HasMember(some);
    var first :| first in some;
    var rest := some - {first};
    p := first;
    if rest != {} {
      var best := FreshestOf(a, s, rest);
      if NoFresher(a, s, first, best) {
        p := best;
      }
      forall q | q in some
        ensures NoFresher(a, s, q, p)
      {
        assert q == first || q in rest;
      }
    } else {
      assert some == {first};
    }
  }

  /** A scope that has heard a healthy path other than the leader has an alternate. */
  lemma AlternateIffCandidate(a: Authority, k: MarketKey, leader: Transport)
    ensures Alternate(a, k, leader).Some? <==> exists q :: Candidate(a, k, leader, q)
  {
    hide NoFresher;
    if q :| Candidate(a, k, leader, q) {
      var some := set p | p in a.scopes[k.scope].paths && Candidate(a, k, leader, p);
      assert q in some;
      var best := FreshestOf(a, k.scope, some);
      assert IsAlternate(a, k, leader, best);
    }
  }

  /** No two candidates are equally fresh, because no two paths share a label. */
  lemma AlternateIsUnique(a: Authority, k: MarketKey, leader: Transport, p: Transport, q: Transport)
    requires LabelsOk(a) && ScopeOk(a, k.scope)
    requires IsAlternate(a, k, leader, p) && IsAlternate(a, k, leader, q)
    ensures p == q
  {
    assert NoFresher(a, k.scope, p, q) && NoFresher(a, k.scope, q, p);
    assert Labelled(a, k.scope, p) && Labelled(a, k.scope, q);
    assert Injective(LabelsOf(a, k.scope));
  }

  // ---- the decision ----

  lemma ReadyLeads(a: Authority, k: MarketKey, p: Transport, at: nat)
    requires k.scope in a.scopes
    ensures var b := Ready(a, k, p, at);
            && b.scopes[k.scope].leader == LeaderAt(a, k.scope, p, at)
            && (forall q :: q in b.scopes[k.scope].paths <==> HeardBy(a, k.scope, p, q))
  {
    hide Register;
    RegisterFrame(a.(released := None), k.scope, p);
    var v := a.scopes[k.scope];
    assert Contested(v, p, at, a.cfg.leaderTimeout).paths.Keys == v.paths.Keys + {p};
  }

  lemma StandsIff(a: Authority, k: MarketKey, p: Transport, at: nat)
    requires k.scope in a.scopes
    ensures Stands(Ready(a, k, p, at), k, LeaderAt(a, k.scope, p, at), at) <==> KeepsHold(a, k, p, at)
  {
    hide Ready, HolderLive, LeaderAt;
    ReadyFrame(a, k, p, at);
  }

  /** The hold an eligible arrival leaves. One that lasts runs its clock from the first arrival that finds the leader
      well, and ends when its wait is over; the first well path to send in place of an unwell leader takes one. */
  function HoldThen(a: Authority, k: MarketKey, p: Transport, at: nat): Option<Hold>
    requires k.scope in a.scopes
  {
    var leader := LeaderAt(a, k.scope, p, at);
    if KeepsHold(a, k, p, at) then
      var h := HoldOf(a, k).value;
      if NaturalDue(a, k, p, at) || DeadlineDue(a, k, p, at) then None
      else if !Healthy(a, k, leader) then Some(Hold(h.holder, leader, None))
      else Some(Hold(h.holder, leader, Some(if h.healthySince.Some? then h.healthySince.value else at)))
    else if p != leader && Healthy(a, k, p) && !Healthy(a, k, leader) then Some(Hold(p, leader, None))
    else None
  }

  function ReleaseThen(a: Authority, k: MarketKey, p: Transport, at: nat): Option<Release>
    requires k.scope in a.scopes
  {
    if NaturalDue(a, k, p, at) then Some(Natural) else if DeadlineDue(a, k, p, at) then Some(Deadline) else None
  }

  lemma RefreshOutcome(a: Authority, k: MarketKey, p: Transport, at: nat)
    requires k.scope in a.scopes
    ensures var d := RefreshHold(Ready(a, k, p, at), k, p, at);
            HoldOf(d, k) == HoldThen(a, k, p, at) && d.released == ReleaseThen(a, k, p, at)
  {
    hide Ready, HolderLive, RefreshHold, LeaderAt, Stands;
    ReadyFrame(a, k, p, at);
    ReadyLeads(a, k, p, at);
    StandsIff(a, k, p, at);
    RefreshedHold(Ready(a, k, p, at), k, p, at);
  }

  /** The market is pinned to a path that is well there, in place of the leader in force. */
  predicate IsHeld(a: Authority, k: MarketKey)
    requires k.scope in a.scopes
  {
    var hold := HoldOf(a, k);
    hold.Some? && hold.value.leader == a.scopes[k.scope].leader && Healthy(a, k, hold.value.holder)
  }

  lemma HeldIsServed(a: Authority, k: MarketKey)
    requires k.scope in a.scopes && IsHeld(a, k)
    ensures Serving(a, k) == Some(HoldOf(a, k).value.holder)
  {}

  lemma UnheldIsServed(a: Authority, k: MarketKey)
    requires k.scope in a.scopes && !IsHeld(a, k)
    ensures var leader := a.scopes[k.scope].leader;
            && Serving(a, k).Some?
            && (Healthy(a, k, leader) ==> Serving(a, k) == Some(leader))
            && (!Healthy(a, k, leader) && (exists q :: Candidate(a, k, leader, q)) ==>
                  IsAlternate(a, k, leader, Serving(a, k).value))
            && (!(exists q :: Candidate(a, k, leader, q)) ==> Serving(a, k) == Some(leader))
  {
    hide NoFresher;
    AlternateIffCandidate(a, k, a.scopes[k.scope].leader);
  }

  lemma ServesSender(a: Authority, k: MarketKey, p: Transport, at: nat)
    requires k.scope in a.scopes
    ensures Serving(RefreshHold(Ready(a, k, p, at), k, p, at), k) == Some(p) <==> Deserves(a, k, p, at)
  {
    hide Ready, HolderLive, RefreshHold, LeaderAt, Serving, NoFresher;
    var leader := LeaderAt(a, k.scope, p, at);
    var d := RefreshHold(Ready(a, k, p, at), k, p, at);
    ReadyFrame(a, k, p, at);
    ReadyLeads(a, k, p, at);
    RefreshFrame(Ready(a, k, p, at), k, p, at);
    RefreshOutcome(a, k, p, at);
    forall q
      ensures Healthy(d, k, q) <==> Healthy(a, k, q)
    {
      HealthAfterRefresh(Ready(a, k, p, at), k, p, at, q);
    }
    if HoldOf(d, k).Some? {
      HeldIsServed(d, k);
    } else {
      UnheldIsServed(d, k);
      assert forall q :: Candidate(d, k, leader, q) <==> q != leader && HeardBy(a, k.scope, p, q) && Healthy(a, k, q);
    }
  }

  /** An arrival is emitted if and only if its path is eligible and is the scope's first, or deserves the market. So
      a silent holder is displaced, and a leader whose wait is over is released, at the next arrival. */
  lemma AdmittedIff(a: Authority, k: MarketKey, p: Transport, at: nat)
    ensures Admit(a, k, p, at).admission.Emitted?
            <==> Eligible(a, k.scope, p) && (k.scope !in a.scopes || Deserves(a, k, p, at))
    ensures Eligible(a, k.scope, p) && k.scope in a.scopes ==>
              HoldOf(Admit(a, k, p, at).authority, k) == HoldThen(a, k, p, at)
              && Admit(a, k, p, at).authority.released == ReleaseThen(a, k, p, at)
  {
    hide RefreshHold, Serving, Arrived, Serve, FirstScope, Deserves, HoldThen, ReleaseThen;
    AdmitUnfolds(a, k, p, at);
    RegisterFrame(a.(released := None), k.scope, p);
    RegistersEligible(a.(released := None), k.scope, p);
    if Eligible(a, k.scope, p) && k.scope in a.scopes {
      ServesSender(a, k, p, at);
      RefreshOutcome(a, k, p, at);
      ServeFrame(RefreshHold(Ready(a, k, p, at), k, p, at), k, p);
    }
  }

  lemma RegistersEligible(a: Authority, s: ScopeKey, p: Transport)
    ensures Labelled(Register(a, s, p), s, p) <==> Eligible(a, s, p)
  {}

  /** What is emitted comes from a path that is well on the market, unless no path the scope has heard is. */
  lemma EmissionIsHealthy(a: Authority, k: MarketKey, p: Transport, at: nat)
    requires Admit(a, k, p, at).admission.Emitted?
    ensures Healthy(a, k, p) || forall q :: HeardBy(a, k.scope, p, q) ==> !Healthy(a, k, q)
  {
    hide Admit, HolderLive;
    AdmittedIff(a, k, p, at);
  }

  /** `p` was heard later than `q`, or at the same time under the higher label. */
  predicate Fresher(a: Authority, s: ScopeKey, p: Transport, q: Transport)
    requires s in a.scopes && p in a.scopes[s].paths && q in a.scopes[s].paths
  {
    var paths := a.scopes[s].paths;
    paths[q].lastSeen < paths[p].lastSeen || (paths[q].lastSeen == paths[p].lastSeen && Rank(a, s, q) < Rank(a, s, p))
  }

  /** The path serves the market: its holder; where none holds it, the leader, if it is well there or no path the scope
      knows is; otherwise the freshest of those that are. */
  predicate IsServed(a: Authority, k: MarketKey, p: Transport) {
    k.scope in a.scopes &&
    var leader, paths := a.scopes[k.scope].leader, a.scopes[k.scope].paths;
    if IsHeld(a, k) then p == HoldOf(a, k).value.holder
    else if Healthy(a, k, leader) then p == leader
    else if forall q :: q in paths ==> !Healthy(a, k, q) then p == leader
    else p in paths && Healthy(a, k, p) && forall q :: q in paths && q != p && Healthy(a, k, q) ==> Fresher(a, k.scope, p, q)
  }

  lemma FresherIff(a: Authority, s: ScopeKey, p: Transport, q: Transport)
    requires LabelsOk(a) && ScopeOk(a, s) && s in a.scopes
    requires p in a.scopes[s].paths && q in a.scopes[s].paths && p != q
    ensures Fresher(a, s, p, q) <==> NoFresher(a, s, q, p)
  {
    assert Labelled(a, s, p) && Labelled(a, s, q);
    assert Injective(LabelsOf(a, s));
  }

  /** Who is served, asked at any time. */
  lemma ServedIff(a: Authority, k: MarketKey, p: Transport)
    requires LabelsOk(a) && ScopeOk(a, k.scope)
    ensures Serving(a, k) == Some(p) <==> IsServed(a, k, p)
  {
    hide NoFresher, Fresher, LabelsOk, Healthy, Serving, HoldOf;
    if k.scope in a.scopes {
      var leader, paths := a.scopes[k.scope].leader, a.scopes[k.scope].paths;
      assert leader in paths;
      if IsHeld(a, k) {
        HeldIsServed(a, k);
      } else {
        UnheldIsServed(a, k);
        if !Healthy(a, k, leader) {
          UnwellIsServed(a, k, p);
        }
      }
    } else {
      NotServed(a, k);
    }
  }

  lemma NotServed(a: Authority, k: MarketKey)
    requires k.scope !in a.scopes
    ensures Serving(a, k).None?
  {}

  lemma UnwellIsServed(a: Authority, k: MarketKey, p: Transport)
    requires LabelsOk(a) && ScopeOk(a, k.scope) && k.scope in a.scopes && !IsHeld(a, k)
    requires !Healthy(a, k, a.scopes[k.scope].leader)
    ensures Serving(a, k) == Some(p) <==> IsServed(a, k, p)
  {
    hide NoFresher, Fresher, LabelsOk, Healthy, Serving, HoldOf;
    var leader, paths := a.scopes[k.scope].leader, a.scopes[k.scope].paths;
    assert leader in paths;
    UnheldIsServed(a, k);
    assert forall q :: Candidate(a, k, leader, q) <==> q in paths && Healthy(a, k, q);
    if x :| x in paths && Healthy(a, k, x) {
      assert Candidate(a, k, leader, x);
      AlternateIffIsServed(a, k, leader, p);
      if p in paths {
        forall q | q in paths
          ensures NoFresher(a, k.scope, q, p) <==> q == p || Fresher(a, k.scope, p, q)
        {
          if q == p {
            NoFresherSelf(a, k.scope, p);
          } else {
            FresherIff(a, k.scope, p, q);
          }
        }
      }
    }
  }

  lemma NoFresherSelf(a: Authority, s: ScopeKey, p: Transport)
    requires s in a.scopes && p in a.scopes[s].paths
    ensures NoFresher(a, s, p, p)
  {}

  lemma AlternateIffIsServed(a: Authority, k: MarketKey, leader: Transport, p: Transport)
    requires LabelsOk(a) && ScopeOk(a, k.scope) && k.scope in a.scopes && !IsHeld(a, k)
    requires leader == a.scopes[k.scope].leader && !Healthy(a, k, leader)
    requires exists q :: Candidate(a, k, leader, q)
    ensures Serving(a, k) == Some(p) <==> IsAlternate(a, k, leader, p)
  {
    hide NoFresher, LabelsOk, ScopeOk, Serving, Healthy, IsAlternate;
    UnheldIsServed(a, k);
    if IsAlternate(a, k, leader, p) {
      AlternateIsUnique(a, k, leader, p, Serving(a, k).value);
    }
  }

  /** A batch that no datagram delivered is emitted if and only if its path serves the market and is the one the
      consumer follows. */
  lemma SynthesizedIff(a: Authority, k: MarketKey, p: Transport)
    requires LabelsOk(a) && ScopeOk(a, k.scope)
    ensures AdmitSynthesized(a, k, p).admission
            == if IsServed(a, k, p) && LastAdmitted(a, k) == Some(p) then Emitted(false) else Dropped
    ensures AdmitSynthesized(a, k, p).authority == a.(released := None)
  {
    hide Serving, IsServed, LabelsOk, ScopeOk;
    ServedIff(a, k, p);
  }

  /** Once a market's hold is dropped, its leader is emitted as soon as it sends there and is well. */
  lemma UnpinGivesBack(a: Authority, k: MarketKey, at: nat)
    requires k.scope in a.scopes
    requires var leader := a.scopes[k.scope].leader; Eligible(a, k.scope, leader) && Healthy(a, k, leader)
    ensures Admit(Step(a, Unpin(k)), k, a.scopes[k.scope].leader, at).admission.Emitted?
  {
    hide Admit;
    AdmittedIff(Step(a, Unpin(k)), k, a.scopes[k.scope].leader, at);
  }

  // ---- what an emission marks ----

  lemma EmissionMarks(a: Authority, k: MarketKey, p: Transport, at: nat)
    requires k.scope in a.scopes && Admit(a, k, p, at).admission.Emitted?
    ensures var b := Admit(a, k, p, at).authority;
            && Admit(a, k, p, at).admission.openedTick == (LastAdmitted(a, k) != Some(p))
            && k in b.markets
            && b.markets[k].lastAdmitted == Some(p)
            && b.markets[k].overriddenFrom
               == (if p == LeaderAt(a, k.scope, p, at) then None else Some(LeaderAt(a, k.scope, p, at)))
  {
    hide RefreshHold, Serving, Ready, Track, LeaderAt;
    AdmitUnfolds(a, k, p, at);
    RegisterFrame(a.(released := None), k.scope, p);
    var d := RefreshHold(Ready(a, k, p, at), k, p, at);
    ReadyFrame(a, k, p, at);
    ReadyLeads(a, k, p, at);
    RefreshFrame(Ready(a, k, p, at), k, p, at);
    TrackFrame(d, k);
    assert Ready(a, k, p, at) == Arrived(Register(a.(released := None), k.scope, p), k.scope, p, at) by {
      ReadyIs(a, k, p, at);
    }
  }

  lemma ReadyIs(a: Authority, k: MarketKey, p: Transport, at: nat)
    requires k.scope in a.scopes
    ensures Ready(a, k, p, at) == Arrived(Register(a.(released := None), k.scope, p), k.scope, p, at)
  {}

  lemma {:induction false} ScopesStay(a: Authority, events: seq<Event>, s: ScopeKey)
    requires s in a.scopes
    ensures s in Run(a, events).scopes
    decreases |events|
  {
    hide Step;
    if events != [] {
      ScopesStay(a, events[..|events| - 1], s);
      StepOnScope(Run(a, events[..|events| - 1]), events[|events| - 1], s);
    }
  }

  /** Of two consecutive emissions on a tracked market, the second says that it opens a new book to follow if and
      only if it comes from another path. */
  lemma TickOpensIffPathChanges(a: Authority, first: Event, between: seq<Event>, second: Event, k: MarketKey)
    requires HoldsOk(a) && EmitsOn(a, first, k) && Quiet(Step(a, first), between, k)
    requires EmitsOn(Run(Step(a, first), between), second, k)
    ensures Admit(Run(Step(a, first), between), k, second.p, second.at).admission.openedTick <==> second.p != first.p
  {
    hide Admit, HoldsOk, QuietAt, Run;
    EmissionPins(a, k, first.p, first.at);
    QuietRunKeepsLastAdmitted(Step(a, first), between, k, |between|);
    assert between[..|between|] == between;
    ScopesStay(Step(a, first), between, k.scope);
    EmissionMarks(Run(Step(a, first), between), k, second.p, second.at);
  }

  // ---- health and memos are the last report's ----

  /** The path's last health report on the market since it came to be tracked, well if there is none. */
  ghost function LastReport(cfg: Config, events: seq<Event>, k: MarketKey, p: Transport): bool
    decreases |events|
  {
    if events == [] || k !in Run(New(cfg), events).markets then true
    else
      var e := events[|events| - 1];
      if e.Health? && e.k == k && e.p == p then e.healthy else LastReport(cfg, events[..|events| - 1], k, p)
  }

  /** Its last word on the market since then was a clear-led batch, not an unhealthy report. */
  ghost function LastWasClear(cfg: Config, events: seq<Event>, k: MarketKey, p: Transport): bool
    decreases |events|
  {
    if events == [] || k !in Run(New(cfg), events).markets then false
    else
      var e := events[|events| - 1];
      if e == Rebaseline(k, p) then true
      else if e == Health(k, p, false) then false
      else LastWasClear(cfg, events[..|events| - 1], k, p)
  }

  /** Both facts about one path on one market. */
  predicate SameOn(a: Authority, b: Authority, k: MarketKey, p: Transport) {
    k in b.markets ==> (Healthy(b, k, p) <==> Healthy(a, k, p)) && (Reinstalled(b, k, p) <==> Reinstalled(a, k, p))
  }

  lemma AdmitKeepsReports(a: Authority, j: MarketKey, q: Transport, at: nat, k: MarketKey, p: Transport)
    ensures SameOn(a, Admit(a, j, q, at).authority, k, p)
  {
    hide RefreshHold, Serving, Arrived, Track, Register, Serve;
    if j != k {
      OtherAdmissionsKeepMarket(a, j, q, at, k);
    } else {
      AdmitUnfolds(a, k, q, at);
      var r := Register(a.(released := None), k.scope, q);
      RegisterFrame(a.(released := None), k.scope, q);
      if k.scope in a.scopes {
        ReadyFrame(a, k, q, at);
        var c := RefreshHold(Ready(a, k, q, at), k, q, at);
        RefreshFrame(Ready(a, k, q, at), k, q, at);
        AdmitKeepsReinstalled(a, k, q, at);
        ServeFrame(c, k, q);
      } else {
        TrackFrame(r.(scopes := r.scopes[k.scope := Scope(q, map[q := Path(at, [])], at)]), k);
      }
    }
  }

  lemma HealthReports(a: Authority, j: MarketKey, q: Transport, healthy: bool, k: MarketKey, p: Transport)
    requires !Barred(SetHealth(a, j, q, healthy), k.scope, p)
    ensures var b := SetHealth(a, j, q, healthy);
            if j == k && q == p then
              k in b.markets ==> Healthy(b, k, p) == healthy && Reinstalled(b, k, p) == (healthy && Reinstalled(a, k, p))
            else SameOn(a, b, k, p)
  {
    hide Register, Track;
    RegisterFrame(a, j.scope, q);
    RegisterLabels(a, j.scope, q);
    TrackFrame(Register(a, j.scope, q), j);
  }

  lemma StepReports(a: Authority, e: Event, k: MarketKey, p: Transport)
    requires !Barred(Step(a, e), k.scope, p) && k in Step(a, e).markets
    ensures Healthy(Step(a, e), k, p) == if e.Health? && e.k == k && e.p == p then e.healthy else Healthy(a, k, p)
    ensures Reinstalled(Step(a, e), k, p)
            == if e == Rebaseline(k, p) then true else if e == Health(k, p, false) then false else Reinstalled(a, k, p)
  {
    hide Admit, SetHealth, Observe, Register, Barred;
    match e
    case Arrive(j, q, at) => AdmitKeepsReports(a, j, q, at, k, p);
    case Health(j, q, healthy) => HealthReports(a, j, q, healthy, k, p);
    case Lead(s, q, lead) => ObserveFrame(a, s, q, lead);
    case Label(s, q) => RegisterFrame(a, s, q);
    case _ =>
  }

  /** Over every run, an eligible path is unwell on a market if and only if its last report there since the market
      has been tracked says so, and its memo stands if and only if its last word there was a clear-led batch. */
  lemma {:induction false} ReportsAreTheLast(cfg: Config, events: seq<Event>, k: MarketKey, p: Transport)
    requires !Barred(Run(New(cfg), events), k.scope, p)
    ensures Healthy(Run(New(cfg), events), k, p) <==> LastReport(cfg, events, k, p)
    ensures Reinstalled(Run(New(cfg), events), k, p) <==> LastWasClear(cfg, events, k, p)
    decreases |events|
  {
    hide Step, Barred;
    if events != [] && k in Run(New(cfg), events).markets {
      var before, e := events[..|events| - 1], events[|events| - 1];
      LabelsOnlyGrow(Run(New(cfg), before), e, k.scope, p);
      ReportsAreTheLast(cfg, before, k, p);
      StepReports(Run(New(cfg), before), e, k, p);
    }
  }
}
