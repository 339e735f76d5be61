/** The mutable authority, proved method by method against `AuthorityModel`. */
module AuthorityStates {
  import opened Wrappers
  import opened Collections
  import opened AuthorityModel
  import opened AuthorityHold
  import opened AuthorityElection
  import opened AuthorityServing

  lemma ClearedTwice(paths: map<Transport, Path>)
    ensures Cleared(Cleared(paths)) == Cleared(paths)
  {}

  class StickyAuthority {
    var scopes: map<ScopeKey, Scope>
    var markets: map<MarketKey, Market>
    var order: seq<MarketKey>
    var ordinals: map<ScopeKey, map<Transport, nat>>
    var cfg: Config
    var released: Option<Release>

    function View(): Authority
      reads this
    {
      Authority(scopes, markets, order, ordinals, cfg, released)
    }

    constructor (config: Config)
      ensures View() == New(config)
    {
      scopes, markets, order, ordinals := map[], map[], [], map[];
      cfg, released := config, None;
    }

    method SetConfig(config: Config)
      modifies this`cfg
      ensures cfg == config
    {
      cfg := config;
    }

    method TakeHoldRelease() returns (r: Option<Release>)
      modifies this`released
      ensures r == old(released) && released == None
    {
      r := released;
      released := None;
    }

    // ---- tables ----

    /** Track the market, evicting the oldest entries while the table is full. */
    method MarketMut(k: MarketKey)
      modifies this`markets, this`order
      ensures View() == Track(old(View()), k)
    {
      if k in markets {
        return;
      }
      ghost var popped := 0;
      while |order| >= MAX_TRACKED_MARKETS
        invariant 0 <= popped <= Overflow(old(order)) && order == old(order)[popped..]
        invariant markets == old(markets) - (set i | 0 <= i < popped :: old(order)[i])
        decreases |order|
      {
        var oldest := order[0];
        order := order[1..];
        markets := markets - {oldest};
        assert (set i | 0 <= i < popped + 1 :: old(order)[i])
            == (set i | 0 <= i < popped :: old(order)[i]) + {old(order)[popped]};
        popped := popped + 1;
      }
      order := order + [k];
      markets := markets[k := NEW_MARKET];
    }

    /** The path's label, minted while the scope has one left. */
    method PathOrdinal(s: ScopeKey, p: Transport) returns (mark: Option<nat>)
      modifies this`ordinals
      ensures View() == Register(old(View()), s, p)
      ensures mark == if Labelled(View(), s, p) then Some(LabelsOf(View(), s)[p]) else None
    {
      if s in ordinals && p in ordinals[s] {
        return Some(ordinals[s][p]);
      }
      var labels := if s in ordinals then ordinals[s] else map[];
      if |labels| >= MAX_LABELLED_PATHS {
        return None;
      }
      mark := Some(|labels|);
      ordinals := ordinals[s := labels[p := |labels|]];
    }

    // ---- health, re-baselines, holds ----

    method SetHealth(k: MarketKey, p: Transport, healthy: bool)
      modifies this
      ensures View() == AuthorityModel.SetHealth(old(View()), k, p, healthy)
    {
      hide Register, Track;
      var mark := PathOrdinal(k.scope, p);
      if mark.None? {
        return;
      }
      if healthy && k !in markets {
        return;
      }
      TrackFrame(View(), k);
      MarketMut(k);
      var m := markets[k];
      if healthy {
        m := m.(unhealthy := m.unhealthy - {p});
      } else {
        m := m.(unhealthy := m.unhealthy + {p}, reinstalled := m.reinstalled - {p});
        if m.hold.Some? && m.hold.value.leader == p {
          m := m.(hold := Some(m.hold.value.(healthySince := None)));
        }
      }
      markets := markets[k := m];
    }

    method NoteRebaselinePoint(k: MarketKey, p: Transport)
      modifies this`markets
      ensures View() == NoteRebaseline(old(View()), k, p)
    {
      if k in markets {
        markets := markets[k := markets[k].(reinstalled := markets[k].reinstalled + {p})];
      }
    }

    method DropHold(k: MarketKey)
      modifies this`markets
      ensures View() == AuthorityModel.DropHold(old(View()), k)
    {
      if k in markets {
        markets := markets[k := markets[k].(hold := None)];
      }
    }

    method ForgetMarket(k: MarketKey)
      modifies this`markets
      ensures View() == old(View()).(markets := old(markets) - {k})
    {
      markets := markets - {k};
    }

    // ---- who serves ----

    method AlternatePath(k: MarketKey, leader: Transport) returns (best: Option<Transport>)
      requires LabelsOk(View()) && ScopeOk(View(), k.scope) && k.scope in scopes
      ensures best == Alternate(View(), k, leader)
    {
      hide LabelsOk, ScopeOk, Healthy, Rank;
      best := None;
      var left := scopes[k.scope].paths.Keys;
      while left != {}
        invariant left <= scopes[k.scope].paths.Keys
        invariant best.Some? ==> Candidate(View(), k, leader, best.value)
        invariant forall q :: q !in left && Candidate(View(), k, leader, q) ==>
                    best.Some? && NoFresher(View(), k.scope, q, best.value)
        decreases |left|
      {
        ghost var some := HasMember(left);
        var p :| p in left;
        if p != leader && Healthy(View(), k, p) {
          if best.None? || !NoFresher(View(), k.scope, p, best.value) {
            best := Some(p);
          }
        }
        left := left - {p};
      }
      if best.Some? {
        assert IsAlternate(View(), k, leader, best.value);
        AlternateIsUnique(View(), k, leader, best.value, Alternate(View(), k, leader).value);
      }
    }

    method ServingPath(k: MarketKey) returns (p: Option<Transport>)
      requires LabelsOk(View()) && ScopeOk(View(), k.scope)
      ensures p == Serving(View(), k)
    {
      hide Alternate, LabelsOk, ScopeOk;
      if k.scope !in scopes {
        return None;
      }
      var leader := scopes[k.scope].leader;
      var hold := HoldOf(View(), k);
      if hold.Some? && hold.value.leader == leader && Healthy(View(), k, hold.value.holder) {
        return Some(hold.value.holder);
      }
      if Healthy(View(), k, leader) {
        return Some(leader);
      }
      p := AlternatePath(k, leader);
      if p.None? {
        p := Some(leader);
      }
    }

    // ---- admission ----

    /** Take, keep, discard or release the market's hold before an admission. */
    method RefreshHold(k: MarketKey, publisher: Transport, now: nat)
      requires released == None
      modifies this`markets, this`order, this`released
      ensures View() == AuthorityModel.RefreshHold(old(View()), k, publisher, now)
    {
      hide Track, Healthy, HolderLive;
      if k.scope !in scopes {
        return;
      }
      var leader := scopes[k.scope].leader;
      var leaderHealthy := Healthy(View(), k, leader);
      var stored := HoldOf(View(), k);
      if stored.None? && leaderHealthy {
        return;
      }
      var next: Option<Hold> := None;
      if !Stands(View(), k, leader, now) {
        if !(leaderHealthy || publisher == leader || !Healthy(View(), k, publisher)) {
          next := Some(Hold(publisher, leader, None));
        }
      } else {
        var h := Clocked(stored.value, leaderHealthy, now);
        released := ReleaseOf(View(), k, h, publisher, now);
        next := if released.None? then Some(h) else None;
      }
      if stored.Some? || next.Some? {
        TrackFrame(View(), k);
        MarketMut(k);
        markets := markets[k := markets[k].(hold := next)];
      }
    }

    /** The path is heard in the scope, and takes it from a leader silent past the timeout. */
    method Hear(s: ScopeKey, p: Transport, at: nat)
      requires s in scopes
      modifies this`scopes
      ensures View() == Arrived(old(View()), s, p, at)
    {
      hide Cleared;
      var v := scopes[s];
      v := v.(paths := v.paths[p := Path(at, SamplesOf(v.paths, p))]);
      var leaderLast := LastSeen(v.paths, v.leader);
      if v.leader != p && Since(at, leaderLast) > cfg.leaderTimeout {
        v := TakeAuthority(v, p, at);
      }
      scopes := scopes[s := v];
    }

    method Admit(k: MarketKey, p: Transport, at: nat) returns (admission: Admission)
      requires Inv(View())
      modifies this
      ensures Decision(View(), admission) == AuthorityModel.Admit(old(View()), k, p, at)
      ensures Inv(View())
    {
      hide AuthorityModel.RefreshHold, Serving, Arrived, Register, Track, Inv;
      ghost var before := View();
      StepKeepsInv(before, Arrive(k, p, at));
      AdmitUnfolds(before, k, p, at);
      released := None;
      var mark := PathOrdinal(k.scope, p);
      assert View() == Register(before.(released := None), k.scope, p);
      if mark.None? {
        return Dropped;
      }
      RegisterFrame(before.(released := None), k.scope, p);
      if k.scope !in scopes {
        scopes := scopes[k.scope := Scope(p, map[p := Path(at, [])], at)];
        TrackFrame(View(), k);
        MarketMut(k);
        markets := markets[k := markets[k].(lastAdmitted := Some(p))];
        return Emitted(true);
      }
      Hear(k.scope, p, at);
      ArrivedFrame(Register(before.(released := None), k.scope, p), k.scope, p, at);
      RefreshHold(k, p, at);
      RefreshedIsValid(before, k, p, at);
      var serving := ServingPath(k);
      if serving != Some(p) {
        return Dropped;
      }
      var from := if scopes[k.scope].leader == p then None else Some(scopes[k.scope].leader);
      RefreshFrame(Arrived(Register(before.(released := None), k.scope, p), k.scope, p, at), k, p, at);
      TrackFrame(View(), k);
      MarketMut(k);
      admission := Emitted(markets[k].lastAdmitted != Some(p));
      markets := markets[k := markets[k].(lastAdmitted := Some(p), overriddenFrom := from)];
    }

    /** The state the server is picked in has sound labels and paths. */
    static lemma RefreshedIsValid(a: Authority, k: MarketKey, p: Transport, at: nat)
      requires Inv(a) && k.scope in a.scopes && Labelled(Register(a.(released := None), k.scope, p), k.scope, p)
      ensures var c := AuthorityModel.RefreshHold(Arrived(Register(a.(released := None), k.scope, p), k.scope, p, at), k, p, at);
              LabelsOk(c) && ScopeOk(c, k.scope)
    {
      hide AuthorityModel.RefreshHold, Register, Contested, LabelMapOk;
      var b := Register(a.(released := None), k.scope, p);
      RegisterKeepsLabelsOk(a.(released := None), k.scope, p);
      RegisterLabels(a.(released := None), k.scope, p);
      RegisterFrame(a.(released := None), k.scope, p);
      assert ScopeOk(a, k.scope);
      ContestedPaths(a.scopes[k.scope], p, at, a.cfg.leaderTimeout);
      RefreshFrame(Arrived(b, k.scope, p, at), k, p, at);
    }

    static lemma ContestedPaths(v: Scope, p: Transport, at: nat, timeout: nat)
      ensures Contested(v, p, at, timeout).paths.Keys == v.paths.Keys + {p}
      ensures Contested(v, p, at, timeout).leader in {v.leader, p}
    {}

    method AdmitSynthesized(k: MarketKey, p: Transport) returns (admission: Admission)
      requires Inv(View())
      modifies this`released
      ensures Decision(View(), admission) == AuthorityModel.AdmitSynthesized(old(View()), k, p)
      ensures Inv(View())
    {
      hide Alternate, Inv, Healthy;
      ghost var before := View();
      StepKeepsInv(before, Synthesize(k, p));
      released := None;
      assert LabelsOk(View()) && ScopeOk(View(), k.scope) by {
        InvParts(View(), k.scope);
      }
      SameServing(before, k);
      var serving := ServingPath(k);
      if serving == Some(p) && LastAdmitted(View(), k) == Some(p) {
        return Emitted(false);
      }
      return Dropped;
    }

    static lemma InvParts(a: Authority, s: ScopeKey)
      requires Inv(a)
      ensures LabelsOk(a) && ScopeOk(a, s)
    {}

    static lemma SameServing(a: Authority, k: MarketKey)
      requires LabelsOk(a) && ScopeOk(a, k.scope)
      ensures Serving(a.(released := None), k) == Serving(a, k)
    {
      if k.scope in a.scopes {
        SameAlternate(a, k, a.scopes[k.scope].leader);
      }
    }

    static lemma SameAlternate(a: Authority, k: MarketKey, leader: Transport)
      requires LabelsOk(a) && ScopeOk(a, k.scope)
      ensures Alternate(a.(released := None), k, leader) == Alternate(a, k, leader)
    {
      hide LabelsOk, ScopeOk;
      var b := a.(released := None);
      forall p
        ensures IsAlternate(b, k, leader, p) <==> IsAlternate(a, k, leader, p)
      {
        assert forall q :: Candidate(b, k, leader, q) <==> Candidate(a, k, leader, q);
        if k.scope in a.scopes && p in a.scopes[k.scope].paths {
          assert forall q :: q in a.scopes[k.scope].paths ==> (NoFresher(b, k.scope, q, p) <==> NoFresher(a, k.scope, q, p));
        }
      }
      if Alternate(a, k, leader).Some? {
        AlternateIsUnique(a, k, leader, Alternate(a, k, leader).value, Alternate(b, k, leader).value);
      }
    }

    // ---- margin elections ----

    method ObserveMatchedLead(s: ScopeKey, p: Transport, lead: int)
      modifies this`scopes, this`ordinals
      ensures View() == Observe(old(View()), s, p, lead)
    {
      hide Register;
      RegisterFrame(View(), s, p);
      var mark := PathOrdinal(s, p);
      if mark.None? || s !in scopes || scopes[s].leader == p {
        return;
      }
      var v := scopes[s];
      var path := Path(LastSeen(v.paths, p), SamplesOf(v.paths, p));
      if |path.samples| < MAX_WINDOW_SAMPLES {
        path := path.(samples := path.samples + [lead]);
      }
      scopes := scopes[s := v.(paths := v.paths[p := path])];
    }

    /** The challenger that passed every test with the least median, if any passed. */
    static method BestChallenger(v: Scope, config: Config) returns (best: Option<Transport>)
      ensures best.Some? ==> MayWin(v, config, best.value)
      ensures best.None? ==> forall p :: !Challenges(v, config, p)
    {
      best := None;
      var bestMedian := 0;
      var margin := Margin(config);
      var left := v.paths.Keys;
      while left != {}
        invariant left <= v.paths.Keys
        invariant best.Some? ==> Challenges(v, config, best.value) && bestMedian == Median(v.paths[best.value].samples)
        invariant forall q :: Challenges(v, config, q) && q !in left ==>
                    best.Some? && bestMedian <= Median(v.paths[q].samples)
        decreases |left|
      {
        hide Below, SortInts;
        ghost var some := HasMember(left);
        var p :| p in left;
        left := left - {p};
        var samples := v.paths[p].samples;
        if p == v.leader || |samples| < config.minSamples || |samples| < 1 {
          continue;
        }
        var wins := Below(samples, -margin);
        if wins * config.winDen < config.winNum * |samples| {
          continue;
        }
        var median := SortInts(samples)[|samples| / 2];
        if median > -margin {
          continue;
        }
        if best.None? || median < bestMedian {
          best, bestMedian := Some(p), median;
        }
      }
    }

    method TransferScopeTo(s: ScopeKey, to: Transport, at: nat) returns (moved: bool)
      modifies this`scopes
      ensures moved == (s in old(scopes) && old(scopes)[s].leader != to)
      ensures scopes == if moved then old(scopes)[s := TakeAuthority(old(scopes)[s], to, at)] else old(scopes)
    {
      if s in scopes && scopes[s].leader != to {
        scopes := scopes[s := TakeAuthority(scopes[s], to, at)];
        return true;
      }
      return false;
    }

    /** Close every elapsed window, moving the scopes whose challenger proved itself. */
    method CloseWindow(now: nat) returns (moved: map<ScopeKey, Transport>)
      modifies this`scopes
      ensures Outcome(old(View()), now, moved)
      ensures View() == AuthorityModel.CloseWindow(old(View()), now, moved)
    {
      hide Challenges, MayWin, Cleared, Elapsed;
      moved := map[];
      ghost var start := scopes;
      var left := scopes.Keys;
      while left != {}
        invariant left <= start.Keys && moved.Keys <= start.Keys - left
        invariant scopes == map s | s in start :: if s in left then start[s] else ClosedScope(start[s], cfg, now, None)
        invariant forall s :: s in moved ==> Elapsed(start[s], cfg, now) && MayWin(start[s], cfg, moved[s])
        invariant forall s :: s in start && s !in left && s !in moved && Elapsed(start[s], cfg, now) ==>
                    forall p :: !Challenges(start[s], cfg, p)
        decreases |left|
      {
        ghost var some := HasMember(left);
        var s :| s in left;
        left := left - {s};
        var v := scopes[s];
        assert v == start[s];
        if Elapsed(v, cfg, now) {
          var winner := BestChallenger(v, cfg);
          scopes := scopes[s := Scope(v.leader, Cleared(v.paths), now)];
          if winner.Some? {
            moved := moved[s := winner.value];
          }
        }
      }
      TransferAll(start, moved, now);
    }

    /** Hand each moved scope to its winner. */
    method TransferAll(ghost start: map<ScopeKey, Scope>, moved: map<ScopeKey, Transport>, now: nat)
      requires moved.Keys <= start.Keys
      requires scopes == map s | s in start :: ClosedScope(start[s], cfg, now, None)
      requires forall s :: s in moved ==> Elapsed(start[s], cfg, now)
      modifies this`scopes
      ensures scopes == map s | s in start :: ClosedScope(start[s], cfg, now, WinnerOf(moved, s))
    {
      hide Cleared;
      var left := moved.Keys;
      while left != {}
        invariant left <= moved.Keys
        invariant scopes == map s | s in start :: ClosedScope(start[s], cfg, now, if s in left then None else WinnerOf(moved, s))
        decreases |left|
      {
        ghost var some := HasMember(left);
        var s :| s in left;
        left := left - {s};
        ClearedTwice(start[s].paths);
        var _ := TransferScopeTo(s, moved[s], now);
      }
    }
  }
}
