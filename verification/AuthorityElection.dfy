/**
 Elections over whole runs. Only silence across the whole scope, or a window's fresh evidence, moves a
 leader; nothing outside a scope touches its election; and every table stays within its cap.
 */
module AuthorityElection {
  import opened Wrappers
  import opened AuthorityModel
  import opened AuthorityHold

  // ---- what one admission does to the elections ----

  function AdmittedScopes(a: Authority, k: MarketKey, p: Transport, at: nat): map<ScopeKey, Scope> {
    if !Labelled(Register(a, k.scope, p), k.scope, p) then a.scopes
    else if k.scope !in a.scopes then a.scopes[k.scope := Scope(p, map[p := Path(at, [])], at)]
    else a.scopes[k.scope := Contested(a.scopes[k.scope], p, at, a.cfg.leaderTimeout)]
  }

  lemma AdmitElects(a: Authority, k: MarketKey, p: Transport, at: nat)
    ensures var b := Admit(a, k, p, at).authority;
            && b.scopes == AdmittedScopes(a, k, p, at)
            && b.ordinals == Register(a, k.scope, p).ordinals
            && b.cfg == a.cfg
  {
    hide RefreshHold, Serving, Serve, Contested, Track, Admit;
    AdmitUnfolds(a, k, p, at);
    var b := Register(a.(released := None), k.scope, p);
    assert b == Register(a, k.scope, p).(released := None);
    RegisterFrame(a, k.scope, p);
    if Labelled(b, k.scope, p) {
      if k.scope in a.scopes {
        var c := Arrived(b, k.scope, p, at);
        RefreshFrame(c, k, p, at);
        ServeFrame(RefreshHold(c, k, p, at), k, p);
      } else {
        TrackFrame(b.(scopes := b.scopes[k.scope := Scope(p, map[p := Path(at, [])], at)]), k);
      }
    }
  }

  /** The scope an event is about; a closing window is about all of them. */
  function About(e: Event): Option<ScopeKey> {
    match e
    case Arrive(k, _, _) => Some(k.scope)
    case Lead(s, _, _) => Some(s)
    case _ => None
  }

  /** No step on one scope changes another scope's election. */
  lemma ScopesAreIsolated(a: Authority, e: Event, s: ScopeKey)
    requires !e.Close? && About(e) != Some(s)
    ensures s in Step(a, e).scopes <==> s in a.scopes
    ensures s in a.scopes ==> Step(a, e).scopes[s] == a.scopes[s]
  {
    hide Admit, SetHealth, Observe, Register;
    match e
    case Arrive(k, p, at) => AdmitElects(a, k, p, at);
    case Health(k, p, healthy) => HealthFrame(a, k, p, healthy);
    case Lead(t, p, lead) => ObserveOtherScope(a, t, p, lead, s);
    case Label(t, p) => RegisterFrame(a, t, p);
    case _ =>
  }

  lemma ObserveOtherScope(a: Authority, t: ScopeKey, p: Transport, lead: int, s: ScopeKey)
    requires s != t
    ensures s in Observe(a, t, p, lead).scopes <==> s in a.scopes
    ensures s in a.scopes ==> Observe(a, t, p, lead).scopes[s] == a.scopes[s]
  {
    hide Register;
    RegisterFrame(a, t, p);
  }

  lemma HealthFrame(a: Authority, k: MarketKey, p: Transport, healthy: bool)
    ensures var b := SetHealth(a, k, p, healthy);
            b.scopes == a.scopes && b.ordinals == Register(a, k.scope, p).ordinals && b.cfg == a.cfg
  {
    hide Register, Track;
    RegisterFrame(a, k.scope, p);
    TrackFrame(Register(a, k.scope, p), k);
  }

  // ---- labels and paths ----

  ghost predicate LabelsOk(a: Authority) {
    forall s :: s in a.ordinals ==> LabelMapOk(a.ordinals[s])
  }

  ghost predicate LabelMapOk(m: map<Transport, nat>) {
    && |m| <= MAX_LABELLED_PATHS
    && (forall p :: p in m ==> m[p] < |m|)
    && Injective(m)
  }

  ghost predicate Injective(m: map<Transport, nat>) {
    forall p, q :: p in m && q in m && m[p] == m[q] ==> p == q
  }

  /** The scope elected a path of its own, and holds only labelled paths. */
  ghost predicate ScopeOk(a: Authority, s: ScopeKey) {
    s in a.scopes ==>
      && a.scopes[s].leader in a.scopes[s].paths
      && forall p :: p in a.scopes[s].paths ==> Labelled(a, s, p)
  }

  ghost predicate ScopesOk(a: Authority) {
    forall s :: ScopeOk(a, s)
  }

  /** Past the cap: the path has no label and never will. */
  predicate Barred(a: Authority, s: ScopeKey, p: Transport) {
    !Labelled(a, s, p) && |LabelsOf(a, s)| >= MAX_LABELLED_PATHS
  }

  lemma RegisterLabels(a: Authority, s: ScopeKey, p: Transport)
    ensures var b := Register(a, s, p);
            && (Labelled(b, s, p) || Barred(b, s, p))
            && (forall t, q :: Labelled(a, t, q) ==> Labelled(b, t, q) && LabelsOf(b, t)[q] == LabelsOf(a, t)[q])
            && (forall t, q :: Labelled(b, t, q) && !(t == s && q == p) ==> Labelled(a, t, q))
            && (forall t, q :: Barred(a, t, q) ==> Barred(b, t, q))
  {}

  lemma OneMoreIsInjective(m: map<Transport, nat>, p: Transport, label_: nat)
    requires Injective(m) && p !in m && forall q :: q in m ==> m[q] != label_
    ensures Injective(m[p := label_])
  {}

  lemma OneMoreLabel(m: map<Transport, nat>, p: Transport)
    requires LabelMapOk(m) && p !in m && |m| < MAX_LABELLED_PATHS
    ensures LabelMapOk(m[p := |m|])
  {
    OneMoreIsInjective(m, p, |m|);
    hide Injective;
    var n := m[p := |m|];
    assert n.Keys == m.Keys + {p};
    assert |n| == |m| + 1;
  }

  lemma RegisterKeepsLabelsOk(a: Authority, s: ScopeKey, p: Transport)
    requires LabelsOk(a)
    ensures LabelsOk(Register(a, s, p))
  {
    hide LabelMapOk;
    var m := LabelsOf(a, s);
    if p !in m && |m| < MAX_LABELLED_PATHS {
      assert LabelMapOk(m) by {
        NoLabelsOk();
      }
      OneMoreLabel(m, p);
    }
  }

  lemma NoLabelsOk()
    ensures LabelMapOk(map[])
  {}

  /** The labels after any step. */
  lemma StepLabels(a: Authority, e: Event)
    ensures var b := Step(a, e);
            match e {
              case Arrive(k, p, _) => b.ordinals == Register(a, k.scope, p).ordinals
              case Health(k, p, _) => b.ordinals == Register(a, k.scope, p).ordinals
              case Lead(s, p, _) => b.ordinals == Register(a, s, p).ordinals
              case Label(s, p) => b.ordinals == Register(a, s, p).ordinals
              case _ => b.ordinals == a.ordinals
            }
  {
    hide Admit, SetHealth, Observe, Register;
    match e
    case Arrive(k, p, at) => AdmitElects(a, k, p, at);
    case Health(k, p, healthy) => HealthFrame(a, k, p, healthy);
    case Lead(s, p, lead) => ObserveFrames(a, s, p, lead);
    case _ =>
  }

  lemma ObserveFrames(a: Authority, s: ScopeKey, p: Transport, lead: int)
    ensures var b := Observe(a, s, p, lead); b.ordinals == Register(a, s, p).ordinals && b.cfg == a.cfg
  {
    hide Register;
    RegisterFrame(a, s, p);
  }

  /** Labels are only ever added, and a path past the cap stays out for good. */
  lemma LabelsOnlyGrow(a: Authority, e: Event, t: ScopeKey, q: Transport)
    ensures Labelled(a, t, q) ==> Labelled(Step(a, e), t, q)
    ensures Barred(a, t, q) ==> Barred(Step(a, e), t, q)
    ensures Labelled(a, t, q) ==> !Barred(Step(a, e), t, q)
  {
    hide Step, Register;
    StepLabels(a, e);
    match e
    case Arrive(k, p, _) => RegisterLabels(a, k.scope, p);
    case Health(k, p, _) => RegisterLabels(a, k.scope, p);
    case Lead(s, p, _) => RegisterLabels(a, s, p);
    case Label(s, p) => RegisterLabels(a, s, p);
    case _ =>
  }

  lemma StepKeepsLabelsOk(a: Authority, e: Event)
    requires LabelsOk(a)
    ensures LabelsOk(Step(a, e))
  {
    hide Step, Register, LabelMapOk;
    StepLabels(a, e);
    match e
    case Arrive(k, p, _) => RegisterKeepsLabelsOk(a, k.scope, p);
    case Health(k, p, _) => RegisterKeepsLabelsOk(a, k.scope, p);
    case Lead(s, p, _) => RegisterKeepsLabelsOk(a, s, p);
    case Label(s, p) => RegisterKeepsLabelsOk(a, s, p);
    case _ =>
  }

  // ---- one scope through one step ----

  function ScopeOf(a: Authority, s: ScopeKey): Option<Scope> {
    if s in a.scopes then Some(a.scopes[s]) else None
  }

  /** What a step does to one scope. */
  ghost function ScopeStep(a: Authority, e: Event, s: ScopeKey): Option<Scope> {
    match e
    case Arrive(k, p, at) =>
      if k.scope != s || !Labelled(Step(a, e), s, p) then ScopeOf(a, s)
      else if s !in a.scopes then Some(Scope(p, map[p := Path(at, [])], at))
      else Some(Contested(a.scopes[s], p, at, a.cfg.leaderTimeout))
    case Lead(t, p, lead) =>
      if t != s || s !in a.scopes || !Labelled(Step(a, e), s, p) || a.scopes[s].leader == p then ScopeOf(a, s)
      else
        var v := a.scopes[s];
        var held := SamplesOf(v.paths, p);
        Some(v.(paths := v.paths[p := Path(LastSeen(v.paths, p), if |held| < MAX_WINDOW_SAMPLES then held + [lead] else held)]))
    case Close(now, winners) =>
      if s in a.scopes then Some(ClosedScope(a.scopes[s], a.cfg, now, WinnerOf(winners, s))) else None
    case _ => ScopeOf(a, s)
  }

  lemma StepOnScope(a: Authority, e: Event, s: ScopeKey)
    ensures ScopeOf(Step(a, e), s) == ScopeStep(a, e, s)
  {
    hide Admit, SetHealth, Register, Contested;
    match e
    case Arrive(k, p, at) => AdmitElects(a, k, p, at);
    case Health(k, p, healthy) => HealthFrame(a, k, p, healthy);
    case Lead(t, p, lead) => RegisterFrame(a, t, p);
    case Label(t, p) => RegisterFrame(a, t, p);
    case _ =>
  }

  lemma StepKeepsScopeOk(a: Authority, e: Event, s: ScopeKey)
    requires ScopeOk(a, s) && (e.Close? ==> Outcome(a, e.now, e.winners))
    ensures ScopeOk(Step(a, e), s)
  {
    hide Step, Qualifies, Median;
    StepOnScope(a, e, s);
    forall p
      ensures Labelled(a, s, p) ==> Labelled(Step(a, e), s, p)
    {
      LabelsOnlyGrow(a, e, s, p);
    }
    if e.Close? && s in e.winners {
      assert s in a.scopes && MayWin(a.scopes[s], a.cfg, e.winners[s]);
    }
  }

  // ---- the market table ----

  ghost predicate MarketsOk(a: Authority) {
    && |a.order| <= MAX_TRACKED_MARKETS
    && forall k :: k in a.markets ==> k in a.order
  }

  lemma TrackKeepsMarketsOk(a: Authority, k: MarketKey)
    requires MarketsOk(a)
    ensures MarketsOk(Track(a, k))
  {
    if k !in a.markets {
      var gone := Overflow(a.order);
      forall j | j in Track(a, k).markets && j != k
        ensures j in a.order[gone..]
      {
        var i :| 0 <= i < |a.order| && a.order[i] == j;
        assert i >= gone;
        assert a.order[gone..][i - gone] == j;
      }
    }
  }

  lemma MarketTable(a: Authority, b: Authority)
    requires MarketsOk(a) && b.order == a.order && b.markets.Keys <= a.markets.Keys
    ensures MarketsOk(b)
  {}

  lemma AdmitKeepsMarketsOk(a: Authority, k: MarketKey, p: Transport, at: nat)
    requires MarketsOk(a)
    ensures MarketsOk(Admit(a, k, p, at).authority)
  {
    hide RefreshHold, Serving, Arrived, Register, Track, MarketsOk;
    AdmitUnfolds(a, k, p, at);
    var b := Register(a.(released := None), k.scope, p);
    RegisterFrame(a.(released := None), k.scope, p);
    MarketTable(a, b);
    if Labelled(b, k.scope, p) {
      if k.scope in a.scopes {
        ReadyFrame(a, k, p, at);
        var c := RefreshHold(Ready(a, k, p, at), k, p, at);
        ArrivedFrame(b, k.scope, p, at);
        RefreshFrame(Ready(a, k, p, at), k, p, at);
        MarketTable(a, c);
        TrackKeepsMarketsOk(c, k);
        TrackFrame(c, k);
        MarketTable(Track(c, k), Serve(c, k, p).authority);
      } else {
        var c := b.(scopes := b.scopes[k.scope := Scope(p, map[p := Path(at, [])], at)]);
        MarketTable(b, c);
        TrackKeepsMarketsOk(c, k);
        TrackFrame(c, k);
        MarketTable(Track(c, k), FirstScope(b, k, p, at));
      }
    }
  }

  lemma HealthKeepsMarketsOk(a: Authority, k: MarketKey, p: Transport, healthy: bool)
    requires MarketsOk(a)
    ensures MarketsOk(SetHealth(a, k, p, healthy))
  {
    hide Register, Track, MarketsOk;
    var b := Register(a, k.scope, p);
    RegisterFrame(a, k.scope, p);
    MarketTable(a, b);
    TrackKeepsMarketsOk(b, k);
    TrackFrame(b, k);
    if Labelled(b, k.scope, p) && !(healthy && k !in b.markets) {
      MarketTable(Track(b, k), SetHealth(a, k, p, healthy));
    }
  }

  lemma StepKeepsMarketsOk(a: Authority, e: Event)
    requires MarketsOk(a)
    ensures MarketsOk(Step(a, e))
  {
    hide Admit, SetHealth, Observe, Register;
    match e
    case Arrive(k, p, at) => AdmitKeepsMarketsOk(a, k, p, at);
    case Health(k, p, healthy) => HealthKeepsMarketsOk(a, k, p, healthy);
    case Lead(s, p, lead) => ObserveFrame(a, s, p, lead);
    case Label(s, p) => RegisterFrame(a, s, p);
    case _ =>
  }

  // ---- every run ----

  ghost predicate Inv(a: Authority) {
    HoldsOk(a) && LabelsOk(a) && ScopesOk(a) && MarketsOk(a)
  }

  lemma StepKeepsInv(a: Authority, e: Event)
    requires Inv(a) && (e.Close? ==> Outcome(a, e.now, e.winners))
    ensures Inv(Step(a, e))
  {
    hide Step, HoldsOk, LabelsOk, MarketsOk, ScopeOk;
    StepKeepsHoldsOk(a, e);
    StepKeepsLabelsOk(a, e);
    StepKeepsMarketsOk(a, e);
    forall s
      ensures ScopeOk(Step(a, e), s)
    {
      assert ScopeOk(a, s);
      StepKeepsScopeOk(a, e, s);
    }
  }

  /** Over every run: labels are distinct and capped, each scope's leader is one of its labelled paths,
      holds name a path other than their leader, and the market table stays within its cap. */
  lemma {:induction false} EveryRunIsBounded(cfg: Config, events: seq<Event>)
    requires LegalRun(New(cfg), events)
    ensures Inv(Run(New(cfg), events))
    decreases |events|
  {
    hide Step, Outcome;
    if events != [] {
      EveryRunIsBounded(cfg, events[..|events| - 1]);
      StepKeepsInv(Run(New(cfg), events[..|events| - 1]), events[|events| - 1]);
    }
  }

  // ---- silence ----

  /** The arrival of the path's last message anywhere in the scope, 0 if it never sent one. */
  function LastSpoke(events: seq<Event>, s: ScopeKey, p: Transport): nat
    decreases |events|
  {
    if events == [] then 0
    else
      var e := events[|events| - 1];
      if e.Arrive? && e.k.scope == s && e.p == p then e.at else LastSpoke(events[..|events| - 1], s, p)
  }

  function Clock(a: Authority, s: ScopeKey, p: Transport): nat {
    if s in a.scopes then LastSeen(a.scopes[s].paths, p) else 0
  }

  lemma ContestedClock(v: Scope, q: Transport, at: nat, timeout: nat, p: Transport)
    ensures LastSeen(Contested(v, q, at, timeout).paths, p) == if p == q then at else LastSeen(v.paths, p)
  {}

  lemma StepClock(a: Authority, e: Event, s: ScopeKey, p: Transport)
    requires !Barred(Step(a, e), s, p)
    ensures Clock(Step(a, e), s, p) == if e.Arrive? && e.k.scope == s && e.p == p then e.at else Clock(a, s, p)
  {
    hide Step, Contested;
    StepOnScope(a, e, s);
    if e.Arrive? && e.k.scope == s {
      StepLabels(a, e);
      RegisterLabels(a, s, e.p);
      if s in a.scopes {
        ContestedClock(a.scopes[s], e.p, e.at, a.cfg.leaderTimeout, p);
      }
    }
  }

  /** The silence clock of an eligible path is its last message anywhere in the scope. */
  lemma {:induction false} ClockIsLastMessage(cfg: Config, events: seq<Event>, s: ScopeKey, p: Transport)
    requires !Barred(Run(New(cfg), events), s, p)
    ensures Clock(Run(New(cfg), events), s, p) == LastSpoke(events, s, p)
    decreases |events|
  {
    hide Step, Barred;
    if events != [] {
      var before, e := events[..|events| - 1], events[|events| - 1];
      var a := Run(New(cfg), before);
      if Barred(a, s, p) {
        LabelsOnlyGrow(a, e, s, p);
      }
      ClockIsLastMessage(cfg, before, s, p);
      StepClock(a, e, s, p);
    }
  }

  lemma ContestMovesIff(v: Scope, p: Transport, at: nat, timeout: nat)
    ensures Contested(v, p, at, timeout).leader != v.leader
            <==> p != v.leader && Since(at, LastSeen(v.paths, v.leader)) > timeout
    ensures Contested(v, p, at, timeout).leader != v.leader ==> Contested(v, p, at, timeout).leader == p
  {}

  /** Idle markets never flap. An admission moves its scope's leader exactly when another eligible path
      sends while the leader's last message on any market of the scope is older than the timeout. */
  lemma SilenceAloneMovesTheLeader(cfg: Config, events: seq<Event>, k: MarketKey, p: Transport, at: nat)
    requires LegalRun(New(cfg), events) && k.scope in Run(New(cfg), events).scopes
    ensures var a := Run(New(cfg), events);
            var b := Step(a, Arrive(k, p, at));
            var leader := a.scopes[k.scope].leader;
            && (Leader(b, k.scope) != Some(leader)
                <==> Labelled(b, k.scope, p) && p != leader
                     && Since(at, LastSpoke(events, k.scope, leader)) > a.cfg.leaderTimeout)
            && (Leader(b, k.scope) != Some(leader) ==> Leader(b, k.scope) == Some(p))
  {
    hide Step, Contested, HoldsOk, LabelsOk, MarketsOk;
    var a := Run(New(cfg), events);
    EveryRunIsBounded(cfg, events);
    StepOnScope(a, Arrive(k, p, at), k.scope);
    assert ScopeOk(a, k.scope);
    ClockIsLastMessage(cfg, events, k.scope, a.scopes[k.scope].leader);
    ContestMovesIff(a.scopes[k.scope], p, at, a.cfg.leaderTimeout);
  }

  /** Every later message of the scope arrives while its leader has spoken, on whatever market, within
      the timeout; and no window elects another. */
  ghost predicate LeaderKeepsSpeaking(cfg: Config, past: seq<Event>, more: seq<Event>, s: ScopeKey, leader: Transport) {
    forall i :: 0 <= i < |more| ==> SpeaksAt(cfg, past, more, s, leader, i)
  }

  ghost predicate SpeaksAt(cfg: Config, past: seq<Event>, more: seq<Event>, s: ScopeKey, leader: Transport, i: nat)
    requires i < |more|
  {
    var seen := past + more[..i];
    && (more[i].Arrive? && more[i].k.scope == s && more[i].p != leader ==>
          Since(more[i].at, LastSpoke(seen, s, leader)) <= Run(New(cfg), seen).cfg.leaderTimeout)
    && (more[i].Close? ==> s !in more[i].winners)
  }

  lemma {:induction false} BusyLeaderIsNeverDisplaced(cfg: Config, past: seq<Event>, more: seq<Event>, s: ScopeKey)
    requires LegalRun(New(cfg), past + more) && LegalRun(New(cfg), past)
    requires s in Run(New(cfg), past).scopes
    requires LeaderKeepsSpeaking(cfg, past, more, s, Run(New(cfg), past).scopes[s].leader)
    ensures Leader(Run(New(cfg), past + more), s) == Leader(Run(New(cfg), past), s)
    decreases |more|
  {
    hide Step, Outcome;
    if more == [] {
      assert past + more == past;
    } else {
      var before, e := more[..|more| - 1], more[|more| - 1];
      var leader := Run(New(cfg), past).scopes[s].leader;
      assert (past + more)[..|past + more| - 1] == past + before;
      forall i | 0 <= i < |before|
        ensures SpeaksAt(cfg, past, before, s, leader, i)
      {
        assert SpeaksAt(cfg, past, more, s, leader, i) && before[..i] == more[..i];
      }
      BusyLeaderIsNeverDisplaced(cfg, past, before, s);
      assert SpeaksAt(cfg, past, more, s, leader, |more| - 1);
      var a := Run(New(cfg), past + before);
      if e.Arrive? && e.k.scope == s {
        SilenceAloneMovesTheLeader(cfg, past + before, e.k, e.p, e.at);
      } else {
        StepOnScope(a, e, s);
      }
    }
  }
}
