/**
 When a held market goes back to its leader. The hold's clock and its re-baseline memo are read off the
 trace: a release is always the leader's own admission, long enough after an admission that saw the
 leader healthy with no unhealthy report since.
 */
module AuthorityRelease {
  import opened Wrappers
  import opened AuthorityModel
  import opened AuthorityHold
  import opened AuthorityElection

  // ---- what one step does to a hold ----

  /** The hold names a labelled leader, healthy whenever its clock runs. */
  ghost predicate HoldSound(a: Authority, k: MarketKey) {
    HoldOf(a, k).Some? ==>
      var h := HoldOf(a, k).value;
      Labelled(a, k.scope, h.leader) && (h.healthySince.Some? ==> Healthy(a, k, h.leader))
  }

  /** The clock after the step was running before it, or was started by this very admission. */
  ghost predicate ClockFrom(a: Authority, e: Event, b: Authority, k: MarketKey) {
    HoldOf(b, k).Some? && HoldOf(b, k).value.healthySince.Some? ==>
      var h := HoldOf(b, k).value;
      && e != Health(k, h.leader, false)
      && (|| (e.Arrive? && e.k == k && h.healthySince == Some(e.at))
          || (HoldOf(a, k).Some? && HoldOf(a, k).value.leader == h.leader
              && HoldOf(a, k).value.healthySince == h.healthySince))
  }

  predicate Refreshes(a: Authority, k: MarketKey, p: Transport) {
    k.scope in a.scopes && Labelled(Register(a, k.scope, p), k.scope, p)
  }

  lemma ReadyOf(a: Authority, k: MarketKey, p: Transport, at: nat)
    requires k.scope in a.scopes
    ensures Ready(a, k, p, at).ordinals == Register(a, k.scope, p).ordinals
    ensures Ready(a, k, p, at).scopes[k.scope] == Contested(a.scopes[k.scope], p, at, a.cfg.leaderTimeout)
  {
    hide Contested;
    RegisterFrame(a, k.scope, p);
  }

  /** An admission's hold and release are those of the refresh, if it gets that far. */
  lemma AdmitHold(a: Authority, k: MarketKey, p: Transport, at: nat)
    ensures var b := Admit(a, k, p, at).authority;
            if Refreshes(a, k, p) then
              var c := RefreshHold(Ready(a, k, p, at), k, p, at);
              HoldOf(b, k) == HoldOf(c, k) && b.released == c.released
            else HoldOf(b, k) == HoldOf(a, k) && b.released == None
    ensures forall q :: Healthy(Admit(a, k, p, at).authority, k, q) <==> Healthy(a, k, q)
  {
    hide RefreshHold, Serving, Arrived, Serve, Track, Register;
    AdmitUnfolds(a, k, p, at);
    var r := Register(a.(released := None), k.scope, p);
    RegisterFrame(a.(released := None), k.scope, p);
    SameLabels(a, k.scope, p);
    if Refreshes(a, k, p) {
      ReadyFrame(a, k, p, at);
      var c := RefreshHold(Ready(a, k, p, at), k, p, at);
      RefreshFrame(Ready(a, k, p, at), k, p, at);
      ServeFrame(c, k, p);
    } else {
      TrackFrame(r.(scopes := r.scopes[k.scope := Scope(p, map[p := Path(at, [])], at)]), k);
    }
  }

  lemma SameLabels(a: Authority, s: ScopeKey, p: Transport)
    ensures Register(a.(released := None), s, p).ordinals == Register(a, s, p).ordinals
  {}

  lemma ContestedLeaderIsAPath(v: Scope, p: Transport, at: nat, timeout: nat)
    ensures Contested(v, p, at, timeout).leader in {v.leader, p}
  {}

  lemma AdmitKeepsHoldSound(a: Authority, k: MarketKey, p: Transport, at: nat)
    requires HoldSound(a, k) && ScopeOk(a, k.scope)
    ensures HoldSound(Admit(a, k, p, at).authority, k)
    ensures ClockFrom(a, Arrive(k, p, at), Admit(a, k, p, at).authority, k)
  {
    hide Admit, RefreshHold, Register, Contested, HolderLive, ReleaseOf;
    AdmitHold(a, k, p, at);
    AdmitElects(a, k, p, at);
    RegisterLabels(a, k.scope, p);
    if Refreshes(a, k, p) {
      var x := Ready(a, k, p, at);
      ReadyFrame(a, k, p, at);
      ReadyOf(a, k, p, at);
      ContestedLeaderIsAPath(a.scopes[k.scope], p, at, a.cfg.leaderTimeout);
      RefreshedHold(x, k, p, at);
    }
  }

  lemma HealthKeepsHoldSound(a: Authority, j: MarketKey, p: Transport, healthy: bool, k: MarketKey)
    requires HoldSound(a, k)
    ensures HoldSound(SetHealth(a, j, p, healthy), k)
    ensures ClockFrom(a, Health(j, p, healthy), SetHealth(a, j, p, healthy), k)
  {
    hide Register, Track;
    RegisterFrame(a, j.scope, p);
    RegisterLabels(a, j.scope, p);
    TrackFrame(Register(a, j.scope, p), j);
  }

  lemma OtherStepKeepsHoldSound(a: Authority, b: Authority, k: MarketKey)
    requires HoldSound(a, k)
    requires k in b.markets ==> k in a.markets && b.markets[k] == a.markets[k]
    requires forall p :: Labelled(a, k.scope, p) ==> Labelled(b, k.scope, p)
    ensures HoldSound(b, k)
  {}

  lemma StepKeepsHoldSound(a: Authority, e: Event, k: MarketKey)
    requires HoldSound(a, k) && ScopeOk(a, k.scope)
    ensures HoldSound(Step(a, e), k)
    ensures ClockFrom(a, e, Step(a, e), k)
  {
    hide Admit, SetHealth, Observe, Register, HoldSound;
    forall p
      ensures Labelled(a, k.scope, p) ==> Labelled(Step(a, e), k.scope, p)
    {
      LabelsOnlyGrow(a, e, k.scope, p);
    }
    match e
    case Arrive(j, p, at) =>
      if j == k {
        AdmitKeepsHoldSound(a, k, p, at);
      } else {
        OtherAdmissionsKeepMarket(a, j, p, at, k);
        OtherStepKeepsHoldSound(a, Step(a, e), k);
      }
    case Health(j, p, healthy) => HealthKeepsHoldSound(a, j, p, healthy, k);
    case Lead(s, p, lead) =>
      ObserveFrame(a, s, p, lead);
      OtherStepKeepsHoldSound(a, Step(a, e), k);
    case Label(s, p) =>
      RegisterFrame(a, s, p);
      OtherStepKeepsHoldSound(a, Step(a, e), k);
    case Rebaseline(j, p) => TouchedHold(a, Step(a, e), k);
    case Unpin(j) => TouchedHold(a, Step(a, e), k);
    case _ => TouchedHold(a, Step(a, e), k);
  }

  /** The hold is as before or gone, and health is untouched. */
  lemma TouchedHold(a: Authority, b: Authority, k: MarketKey)
    requires HoldSound(a, k)
    requires HoldOf(b, k).Some? ==> HoldOf(b, k) == HoldOf(a, k) && k in a.markets && b.markets[k].unhealthy == a.markets[k].unhealthy
    requires forall p :: Labelled(a, k.scope, p) ==> Labelled(b, k.scope, p)
    ensures HoldSound(b, k)
  {}

  // ---- the clock, read off the trace ----

  /** No unhealthy report of the path on the market follows event `i`. */
  ghost predicate CleanSince(events: seq<Event>, i: nat, k: MarketKey, p: Transport) {
    i < |events| && forall j :: i < j < |events| ==> events[j] != Health(k, p, false)
  }

  /** Event `i` is an admission on the market at `t`, and the path has been healthy there in every state
      since, with no unhealthy report. */
  ghost predicate SeenHealthyFrom(cfg: Config, events: seq<Event>, i: nat, k: MarketKey, p: Transport, t: nat) {
    && CleanSince(events, i, k, p)
    && events[i].Arrive? && events[i].k == k && events[i].at == t
    && forall j :: i < j <= |events| ==> HealthyAt(cfg, events, j, k, p)
  }

  ghost predicate HealthyAt(cfg: Config, events: seq<Event>, j: nat, k: MarketKey, p: Transport)
    requires j <= |events|
  {
    Healthy(Run(New(cfg), events[..j]), k, p)
  }

  lemma SeenHealthyStill(cfg: Config, events: seq<Event>, e: Event, i: nat, k: MarketKey, p: Transport, t: nat)
    requires SeenHealthyFrom(cfg, events, i, k, p, t) && e != Health(k, p, false)
    requires Healthy(Run(New(cfg), events + [e]), k, p)
    ensures SeenHealthyFrom(cfg, events + [e], i, k, p, t)
  {
    hide Healthy;
    var more := events + [e];
    forall j | i < j <= |more|
      ensures HealthyAt(cfg, more, j, k, p)
    {
      if j <= |events| {
        assert more[..j] == events[..j] && HealthyAt(cfg, events, j, k, p);
      } else {
        assert more[..j] == more;
      }
    }
  }

  /** A running hold clock was started by an admission of the trace that saw the leader healthy, and the
      leader has been healthy ever since. */
  ghost predicate ClockIsFromTrace(cfg: Config, events: seq<Event>, k: MarketKey) {
    var hold := HoldOf(Run(New(cfg), events), k);
    hold.Some? && hold.value.healthySince.Some? ==>
      exists i :: SeenHealthyFrom(cfg, events, i, k, hold.value.leader, hold.value.healthySince.value)
  }

  lemma {:induction false} ClocksAreFromTheTrace(cfg: Config, events: seq<Event>, k: MarketKey)
    requires LegalRun(New(cfg), events)
    ensures HoldSound(Run(New(cfg), events), k) && ClockIsFromTrace(cfg, events, k)
    decreases |events|
  {
    hide Step, SeenHealthyFrom, LabelsOk, MarketsOk, HoldsOk, Outcome;
    if events != [] {
      var before, e := events[..|events| - 1], events[|events| - 1];
      var a, b := Run(New(cfg), before), Run(New(cfg), events);
      assert events == before + [e];
      ClocksAreFromTheTrace(cfg, before, k);
      EveryRunIsBounded(cfg, before);
      assert ScopeOk(a, k.scope);
      StepKeepsHoldSound(a, e, k);
      var hold := HoldOf(b, k);
      if hold.Some? && hold.value.healthySince.Some? {
        var h := hold.value;
        if e.Arrive? && e.k == k && h.healthySince == Some(e.at) {
          StartsSeen(cfg, before, e, k, h.leader);
          assert SeenHealthyFrom(cfg, events, |before|, k, h.leader, e.at);
        } else {
          var i :| SeenHealthyFrom(cfg, before, i, k, h.leader, h.healthySince.value);
          SeenHealthyStill(cfg, before, e, i, k, h.leader, h.healthySince.value);
        }
      }
    }
  }

  lemma StartsSeen(cfg: Config, before: seq<Event>, e: Event, k: MarketKey, p: Transport)
    requires e.Arrive? && e.k == k && Healthy(Run(New(cfg), before + [e]), k, p)
    ensures SeenHealthyFrom(cfg, before + [e], |before|, k, p, e.at)
  {
    hide Healthy, Run, New, HealthyAt;
    var events := before + [e];
    assert events[|before|] == e;
    HealthyNow(cfg, events, k, p);
    assert CleanSince(events, |before|, k, p);
  }

  lemma HealthyNow(cfg: Config, events: seq<Event>, k: MarketKey, p: Transport)
    ensures HealthyAt(cfg, events, |events|, k, p) <==> Healthy(Run(New(cfg), events), k, p)
  {
    hide Healthy, Run, New;
    assert events[..|events|] == events;
  }

  // ---- the re-baseline memo, read off the trace ----

  lemma StepReinstalled(a: Authority, e: Event, k: MarketKey, p: Transport)
    ensures Reinstalled(Step(a, e), k, p) && e != Rebaseline(k, p) ==> Reinstalled(a, k, p)
    ensures e == Health(k, p, false) ==> !Reinstalled(Step(a, e), k, p) || Barred(Step(a, e), k.scope, p)
  {
    hide Admit, SetHealth, Observe, Register;
    match e
    case Arrive(j, q, at) =>
      if j == k {
        AdmitKeepsReinstalled(a, k, q, at);
      } else {
        OtherAdmissionsKeepMarket(a, j, q, at, k);
      }
    case Health(j, q, healthy) => HealthReinstalled(a, j, q, healthy, k, p);
    case Lead(s, q, lead) => ObserveFrame(a, s, q, lead);
    case Label(s, q) => RegisterFrame(a, s, q);
    case _ =>
  }

  lemma AdmitKeepsReinstalled(a: Authority, k: MarketKey, q: Transport, at: nat)
    ensures forall p :: Reinstalled(Admit(a, k, q, at).authority, k, p) <==> Reinstalled(a, k, p)
  {
    hide RefreshHold, Serving, Arrived, Track, Register;
    AdmitUnfolds(a, k, q, at);
    var r := Register(a.(released := None), k.scope, q);
    RegisterFrame(a.(released := None), k.scope, q);
    if k.scope in a.scopes {
      ReadyFrame(a, k, q, at);
      var c := RefreshHold(Ready(a, k, q, at), k, q, at);
      RefreshFrame(Ready(a, k, q, at), k, q, at);
      TrackFrame(c, k);
    } else {
      TrackFrame(r.(scopes := r.scopes[k.scope := Scope(q, map[q := Path(at, [])], at)]), k);
    }
  }

  lemma HealthReinstalled(a: Authority, j: MarketKey, q: Transport, healthy: bool, k: MarketKey, p: Transport)
    ensures Reinstalled(SetHealth(a, j, q, healthy), k, p) ==> Reinstalled(a, k, p)
    ensures j == k && q == p && !healthy ==>
              !Reinstalled(SetHealth(a, j, q, healthy), k, p) || Barred(SetHealth(a, j, q, healthy), k.scope, p)
  {
    hide Register, Track;
    RegisterFrame(a, j.scope, q);
    RegisterLabels(a, j.scope, q);
    TrackFrame(Register(a, j.scope, q), j);
  }

  /** Event `m` is the path's own clear-led batch on the market, with no unhealthy report since. */
  ghost predicate RebaselinedAt(events: seq<Event>, m: nat, k: MarketKey, p: Transport) {
    CleanSince(events, m, k, p) && events[m] == Rebaseline(k, p)
  }

  lemma {:induction false} MemosAreFromTheTrace(cfg: Config, events: seq<Event>, k: MarketKey, p: Transport)
    requires Reinstalled(Run(New(cfg), events), k, p) && !Barred(Run(New(cfg), events), k.scope, p)
    ensures exists m :: RebaselinedAt(events, m, k, p)
    decreases |events|
  {
    hide Step, Barred, Reinstalled;
    if events == [] {
      NothingReinstalled(cfg, k, p);
    } else {
      var before, e := events[..|events| - 1], events[|events| - 1];
      var a := Run(New(cfg), before);
      StepReinstalled(a, e, k, p);
      LabelsOnlyGrow(a, e, k.scope, p);
      if e == Rebaseline(k, p) {
        assert RebaselinedAt(events, |before|, k, p);
      } else {
        MemosAreFromTheTrace(cfg, before, k, p);
        var m :| RebaselinedAt(before, m, k, p);
        assert RebaselinedAt(events, m, k, p);
      }
    }
  }

  lemma NothingReinstalled(cfg: Config, k: MarketKey, p: Transport)
    ensures !Reinstalled(New(cfg), k, p)
  {}

  // ---- releases ----

  /** The wait a release of this kind promises. */
  function Wait(r: Release): nat {
    if r.Natural? then REVERT_HOLD_NS else REVERT_DEADLINE_NS
  }

  /** Over every run: a hold is released only on its leader's own admission; at least 15 s, or 60 s for a
      deadline release, after an admission on that market that saw the leader healthy, with the leader
      healthy and no unhealthy report of it since; and a natural release only after the leader's own
      clear-led batch since its last unhealthy report. */
  lemma ReleaseIsTimedByTheTrace(cfg: Config, events: seq<Event>, k: MarketKey, p: Transport, now: nat)
    requires LegalRun(New(cfg), events)
    requires Step(Run(New(cfg), events), Arrive(k, p, now)).released.Some?
    ensures var b := Step(Run(New(cfg), events), Arrive(k, p, now));
            && Leader(b, k.scope) == Some(p)
            && (exists i, t :: SeenHealthyFrom(cfg, events, i, k, p, t) && Since(now, t) >= Wait(b.released.value))
            && (b.released == Some(Natural) ==> exists m :: RebaselinedAt(events, m, k, p))
  {
    hide Run, Admit, RefreshHold, Register, Contested, HolderLive, SeenHealthyFrom, RebaselinedAt, LabelsOk, MarketsOk, HoldsOk;
    var a := Run(New(cfg), events);
    AdmitHold(a, k, p, now);
    AdmitElects(a, k, p, now);
    var x := Ready(a, k, p, now);
    ReadyFrame(a, k, p, now);
    ReadyOf(a, k, p, now);
    RefreshedHold(x, k, p, now);
    RefreshFrame(x, k, p, now);
    ClocksAreFromTheTrace(cfg, events, k);
    EveryRunIsBounded(cfg, events);
    assert ScopeOk(a, k.scope);
    var h := HoldOf(a, k).value;
    assert HoldOf(x, k) == HoldOf(a, k) && h.leader == p && h.healthySince.Some?;
    var i :| SeenHealthyFrom(cfg, events, i, k, p, h.healthySince.value);
    if Step(a, Arrive(k, p, now)).released == Some(Natural) {
      assert Reinstalled(a, k, p) && Labelled(a, k.scope, p);
      MemosAreFromTheTrace(cfg, events, k, p);
    }
  }
}
