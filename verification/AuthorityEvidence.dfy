/**
 Margin elections use only fresh evidence: every sample held was observed under the current leader and
 since the scope's last reset, and a window moves a leader only to the challenger whose fresh samples
 pass every test with the least median.
 */
module AuthorityEvidence {
  import opened Wrappers
  import opened AuthorityModel
  import opened AuthorityHold
  import opened AuthorityElection

  // ---- the median ----

  lemma {:induction false} BelowOfBoth(xs: seq<int>, ys: seq<int>, bound: int)
    ensures Below(xs + ys, bound) == Below(xs, bound) + Below(ys, bound)
    decreases |ys|
  {
    if ys == [] {
      assert xs + ys == xs;
    } else {
      assert (xs + ys)[..|xs + ys| - 1] == xs + ys[..|ys| - 1];
      BelowOfBoth(xs, ys[..|ys| - 1], bound);
    }
  }

  lemma BelowOfOne(x: int, bound: int)
    ensures Below([x], bound) == if x < bound then 1 else 0
  {
    assert [x][..0] == [];
  }

  ghost predicate Ascending(xs: seq<int>) {
    forall i, j :: 0 <= i < j < |xs| ==> xs[i] <= xs[j]
  }

  lemma {:induction false} InsertKeepsCount(sorted: seq<int>, x: int, bound: int)
    ensures Below(InsertInt(sorted, x), bound) == Below(sorted, bound) + if x < bound then 1 else 0
  {
    BelowOfOne(x, bound);
    if sorted == [] || sorted[|sorted| - 1] <= x {
      BelowOfBoth(sorted, [x], bound);
    } else {
      var front, last := sorted[..|sorted| - 1], sorted[|sorted| - 1];
      assert sorted == front + [last];
      InsertKeepsCount(front, x, bound);
      BelowOfBoth(InsertInt(front, x), [last], bound);
      BelowOfBoth(front, [last], bound);
    }
  }

  lemma {:induction false} InsertKeepsOrder(sorted: seq<int>, x: int)
    requires Ascending(sorted)
    ensures Ascending(InsertInt(sorted, x))
    ensures forall y :: y in InsertInt(sorted, x) ==> y == x || y in sorted
  {
    if !(sorted == [] || sorted[|sorted| - 1] <= x) {
      var front, last := sorted[..|sorted| - 1], sorted[|sorted| - 1];
      InsertKeepsOrder(front, x);
      forall y | y in InsertInt(front, x)
        ensures y <= last && (y == x || y in sorted)
      {
        if y != x {
          var i :| 0 <= i < |front| && front[i] == y;
          assert sorted[i] <= sorted[|sorted| - 1] && sorted[i] == y;
        }
      }
      var r := InsertInt(front, x);
      assert InsertInt(sorted, x) == r + [last];
      assert forall i :: 0 <= i < |r| ==> r[i] in r;
    } else {
      forall i | 0 <= i < |sorted|
        ensures sorted[i] <= x
      {
        assert i < |sorted| - 1 ==> sorted[i] <= sorted[|sorted| - 1];
      }
    }
  }

  lemma {:induction false} SortKeepsCounts(xs: seq<int>, bound: int)
    ensures Ascending(SortInts(xs)) && Below(SortInts(xs), bound) == Below(xs, bound)
    decreases |xs|
  {
    if xs != [] {
      SortKeepsCounts(xs[..|xs| - 1], bound);
      InsertKeepsOrder(SortInts(xs[..|xs| - 1]), xs[|xs| - 1]);
      InsertKeepsCount(SortInts(xs[..|xs| - 1]), xs[|xs| - 1], bound);
    }
  }

  /** In ascending order the `j`-th element is below a bound exactly when more than `j` elements are. */
  lemma {:induction false} RankIsCount(xs: seq<int>, j: nat, bound: int)
    requires Ascending(xs) && j < |xs|
    ensures xs[j] < bound <==> Below(xs, bound) > j
    ensures Below(xs, bound) <= |xs|
    decreases |xs|
  {
    var front, last := xs[..|xs| - 1], xs[|xs| - 1];
    if front == [] {
      BelowOfOne(last, bound);
      assert xs == [last];
    } else {
      RankIsCount(front, if j < |front| then j else |front| - 1, bound);
      assert forall i :: 0 <= i < |front| ==> front[i] == xs[i];
      assert xs[|front| - 1] <= last;
      assert j < |front| ==> xs[j] <= last;
    }
  }

  /** The median beats a bound exactly when more than half the samples, rounded down, do. */
  lemma MedianBelowIffMajority(xs: seq<int>, bound: int)
    requires xs != []
    ensures Median(xs) < bound <==> Below(xs, bound) > |xs| / 2
  {
    SortKeepsCounts(xs, bound);
    RankIsCount(SortInts(xs), |xs| / 2, bound);
  }

  /** What evidence qualifies: enough samples, a winning share of them ahead of the leader by more than the margin, and
      more than half, rounded down, ahead by at least the margin; which is capped at 63 bits. */
  lemma QualifiesIff(xs: seq<int>, cfg: Config)
    ensures var margin := if cfg.transferMargin <= I64_MAX then cfg.transferMargin else I64_MAX;
            Qualifies(xs, cfg)
            <==> |xs| > 0 && |xs| >= cfg.minSamples && Below(xs, -margin) * cfg.winDen >= cfg.winNum * |xs|
                 && Below(xs, 1 - margin) > |xs| / 2
  {
    hide Below, Median;
    if xs != [] {
      MedianBelowIffMajority(xs, 1 - Margin(cfg));
    }
  }

  predicate MedianTest(xs: seq<int>, margin: int)
    requires xs != []
  {
    Median(xs) <= -margin
  }

  lemma RateAboveHalfIsMajority(wins: nat, n: nat, num: nat, den: nat)
    requires wins * den >= num * n && 2 * num > den && n > 0
    ensures wins > n / 2
  {
    ProductBound(den + 1, 2 * num, n);
    assert (den + 1) * n == den * n + n;
    assert 2 * num * n == 2 * (num * n) && 2 * wins * den == 2 * (wins * den);
    assert 2 * wins * den > n * den;
    ProductOrder(2 * wins, n, den);
  }

  lemma ProductBound(x: nat, y: nat, z: nat)
    requires x <= y
    ensures x * z <= y * z
  {}

  lemma ProductOrder(x: nat, y: nat, z: nat)
    requires x * z > y * z
    ensures x > y
  {
    if x <= y {
      ProductBound(x, y, z);
    }
  }

  lemma RateForcesMedian(xs: seq<int>, margin: int, cfg: Config)
    requires xs != [] && WinsOften(xs, margin, cfg) && 2 * cfg.winNum > cfg.winDen
    ensures MedianTest(xs, margin)
  {
    hide Below, Median;
    RateAboveHalfIsMajority(Below(xs, -margin), |xs|, cfg.winNum, cfg.winDen);
    MedianBelowIffMajority(xs, -margin);
  }

  lemma HalfRatePassesAlone(margin: int, cfg: Config)
    requires margin >= 0 && cfg.winDen > 0 && 2 * cfg.winNum <= cfg.winDen
    ensures WinsOften([-margin - 1, 1], margin, cfg) && !MedianTest([-margin - 1, 1], margin)
  {
    hide Below, Median;
    HalfWins(margin);
    MedianBelowIffMajority([-margin - 1, 1], -margin + 1);
  }

  /** The median test adds nothing to the win rate exactly when the rate is above one half: then the
      counted wins alone force the median past the margin, and at one half or below some samples pass
      the rate and fail the median. */
  lemma WinsForceTheMedianIff(margin: int, cfg: Config)
    requires margin >= 0 && cfg.winDen > 0
    ensures (forall xs: seq<int> :: xs != [] && WinsOften(xs, margin, cfg) ==> MedianTest(xs, margin))
            <==> 2 * cfg.winNum > cfg.winDen
  {
    hide WinsOften, MedianTest;
    if 2 * cfg.winNum > cfg.winDen {
      forall xs: seq<int> | xs != [] && WinsOften(xs, margin, cfg)
        ensures MedianTest(xs, margin)
      {
        RateForcesMedian(xs, margin, cfg);
      }
    } else {
      HalfRatePassesAlone(margin, cfg);
      assert [-margin - 1, 1] != [];
    }
  }

  lemma HalfWins(margin: int)
    requires margin >= 0
    ensures Below([-margin - 1, 1], -margin) == 1
    ensures Below([-margin - 1, 1], -margin + 1) == 1
  {
    var xs := [-margin - 1, 1];
    assert xs == [-margin - 1] + [1];
    BelowOfBoth([-margin - 1], [1], -margin);
    BelowOfOne(-margin - 1, -margin);
    BelowOfOne(1, -margin);
    BelowOfBoth([-margin - 1], [1], -margin + 1);
    BelowOfOne(-margin - 1, -margin + 1);
    BelowOfOne(1, -margin + 1);
  }

  // ---- fresh evidence ----

  /** The step elects the scope anew or closes its window. */
  ghost predicate Resets(a: Authority, e: Event, s: ScopeKey) {
    || Leader(Step(a, e), s) != Leader(a, s)
    || (e.Close? && s in a.scopes && Elapsed(a.scopes[s], a.cfg, e.now))
  }

  /** How many events had happened when the scope was last reset. */
  ghost function LastReset(cfg: Config, events: seq<Event>, s: ScopeKey): (n: nat)
    ensures n <= |events|
    decreases |events|
  {
    if events == [] then 0
    else if Resets(Run(New(cfg), events[..|events| - 1]), events[|events| - 1], s) then |events|
    else LastReset(cfg, events[..|events| - 1], s)
  }

  /** The leads reported for a path from event `from` on. */
  function LeadsSince(events: seq<Event>, from: nat, s: ScopeKey, p: Transport): seq<int>
    decreases |events|
  {
    if |events| <= from then []
    else
      var e := events[|events| - 1];
      LeadsSince(events[..|events| - 1], from, s, p) + if e.Lead? && e.s == s && e.p == p then [e.lead] else []
  }

  function Take(xs: seq<int>, n: nat): seq<int> {
    if |xs| <= n then xs else xs[..n]
  }

  /** The evidence a path has: its first leads since the last reset, none for the leader itself. */
  ghost function Evidence(cfg: Config, events: seq<Event>, s: ScopeKey, p: Transport): seq<int> {
    if Leader(Run(New(cfg), events), s) == Some(p) then []
    else Take(LeadsSince(events, LastReset(cfg, events, s), s, p), MAX_WINDOW_SAMPLES)
  }

  function Samples(a: Authority, s: ScopeKey, p: Transport): seq<int> {
    if s in a.scopes then SamplesOf(a.scopes[s].paths, p) else []
  }

  lemma ContestedSamples(v: Scope, q: Transport, at: nat, timeout: nat, p: Transport)
    ensures SamplesOf(Contested(v, q, at, timeout).paths, p)
            == if Contested(v, q, at, timeout).leader != v.leader then [] else SamplesOf(v.paths, p)
  {}

  /** A step that resets the scope leaves no sample; one that observes a lead of an eligible challenger
      keeps it while there is room; any other leaves the samples alone. */
  lemma StepSamples(a: Authority, e: Event, s: ScopeKey, p: Transport)
    requires !Barred(Step(a, e), s, p) && s in Step(a, e).scopes
    ensures Samples(Step(a, e), s, p) ==
              if Resets(a, e, s) then []
              else if e.Lead? && e.s == s && e.p == p && Leader(a, s) != Some(p) && |Samples(a, s, p)| < MAX_WINDOW_SAMPLES
              then Samples(a, s, p) + [e.lead]
              else Samples(a, s, p)
  {
    hide Step, Contested;
    StepOnScope(a, e, s);
    match e
    case Arrive(k, q, at) =>
      if s in a.scopes {
        ContestedSamples(a.scopes[s], q, at, a.cfg.leaderTimeout, p);
      }
    case Lead(t, q, lead) =>
      if t == s {
        StepLabels(a, e);
        RegisterLabels(a, s, q);
      }
    case _ =>
  }

  lemma TakeOneMore(xs: seq<int>, x: int, n: nat)
    ensures Take(xs + [x], n) == if |Take(xs, n)| < n then Take(xs, n) + [x] else Take(xs, n)
  {}

  lemma {:induction false} LeadsSinceEnd(events: seq<Event>, s: ScopeKey, p: Transport)
    ensures LeadsSince(events, |events|, s, p) == []
  {}

  /** Every sample held was recorded under the current leader and since the scope's last reset, in
      order and up to the cap, and the leader holds none: over every run, for every eligible path. */
  lemma {:induction false} EvidenceIsFresh(cfg: Config, events: seq<Event>, s: ScopeKey, p: Transport)
    requires !Barred(Run(New(cfg), events), s, p) && s in Run(New(cfg), events).scopes
    ensures Samples(Run(New(cfg), events), s, p) == Evidence(cfg, events, s, p)
    decreases |events|
  {
    hide Step, Barred, Resets;
    if events != [] {
      var before, e := events[..|events| - 1], events[|events| - 1];
      var a := Run(New(cfg), before);
      LabelsOnlyGrow(a, e, s, p);
      StepSamples(a, e, s, p);
      if Resets(a, e, s) {
        LeadsSinceEnd(events, s, p);
      } else {
        assert Leader(Step(a, e), s) == Leader(a, s) by {
          NoResetSameLeader(a, e, s);
        }
        EvidenceIsFresh(cfg, before, s, p);
        var from := LastReset(cfg, before, s);
        if e.Lead? && e.s == s && e.p == p {
          TakeOneMore(LeadsSince(before, from, s, p), e.lead, MAX_WINDOW_SAMPLES);
        } else {
          assert LeadsSince(events, from, s, p) == LeadsSince(before, from, s, p);
        }
      }
    }
  }

  lemma NoResetSameLeader(a: Authority, e: Event, s: ScopeKey)
    requires !Resets(a, e, s)
    ensures Leader(Step(a, e), s) == Leader(a, s)
  {}

  // ---- the window's own clock ----

  /** The time of an event that can reset a scope. */
  function TimeOf(e: Event): nat {
    match e
    case Arrive(_, _, at) => at
    case Close(now, _) => now
    case _ => 0
  }

  lemma StepOpens(a: Authority, e: Event, s: ScopeKey)
    requires s in Step(a, e).scopes
    ensures if Resets(a, e, s) then Step(a, e).scopes[s].windowOpened == TimeOf(e)
            else s in a.scopes && Step(a, e).scopes[s].windowOpened == a.scopes[s].windowOpened
  {
    hide Step, Contested, Cleared;
    StepOnScope(a, e, s);
    if e.Arrive? && s in a.scopes {
      ContestedOpens(a.scopes[s], e.p, e.at, a.cfg.leaderTimeout);
    }
  }

  lemma ContestedOpens(v: Scope, p: Transport, at: nat, timeout: nat)
    ensures var w := Contested(v, p, at, timeout);
            w.windowOpened == if w.leader != v.leader then at else v.windowOpened
  {}

  /** Over every run, a scope's window opened when it was last elected or closed: its first election, a handover,
      or the close of an elapsed window. */
  lemma {:induction false} WindowOpensAtTheLastReset(cfg: Config, events: seq<Event>, s: ScopeKey)
    requires s in Run(New(cfg), events).scopes
    ensures LastReset(cfg, events, s) > 0
    ensures Run(New(cfg), events).scopes[s].windowOpened == TimeOf(events[LastReset(cfg, events, s) - 1])
    decreases |events|
  {
    hide Step, Resets;
    if events != [] {
      var before, e := events[..|events| - 1], events[|events| - 1];
      StepOpens(Run(New(cfg), before), e, s);
      if !Resets(Run(New(cfg), before), e, s) {
        WindowOpensAtTheLastReset(cfg, before, s);
      }
    }
  }

  /** The path challenges its leader on fresh evidence that passes every test. */
  ghost predicate Proven(cfg: Config, events: seq<Event>, s: ScopeKey, p: Transport) {
    var a := Run(New(cfg), events);
    && s in a.scopes && a.scopes[s].leader != p && !Barred(a, s, p)
    && Qualifies(Evidence(cfg, events, s, p), a.cfg)
  }

  lemma ProvenIsChallenge(cfg: Config, events: seq<Event>, s: ScopeKey, p: Transport)
    requires LegalRun(New(cfg), events) && s in Run(New(cfg), events).scopes
    ensures var a := Run(New(cfg), events);
            Challenges(a.scopes[s], a.cfg, p) <==> Proven(cfg, events, s, p)
  {
    hide Run, Qualifies, Evidence, HoldsOk, LabelsOk, MarketsOk;
    var a := Run(New(cfg), events);
    EveryRunIsBounded(cfg, events);
    assert ScopeOk(a, s);
    if !Barred(a, s, p) {
      EvidenceIsFresh(cfg, events, s, p);
    }
    assert !Qualifies([], a.cfg) by {
      NothingQualifiesOnNothing(a.cfg);
    }
  }

  lemma NothingQualifiesOnNothing(cfg: Config)
    ensures !Qualifies([], cfg)
  {}

  /** Closing an elapsed window moves its scope's leader exactly when some path's fresh evidence clears
      the sample floor, the win rate and the median; and then to one with the least median of those. */
  lemma WindowMovesOnFreshEvidence(cfg: Config, events: seq<Event>, now: nat, winners: map<ScopeKey, Transport>, s: ScopeKey)
    requires LegalRun(New(cfg), events) && Outcome(Run(New(cfg), events), now, winners)
    requires s in Run(New(cfg), events).scopes
    ensures var a := Run(New(cfg), events);
            var b := CloseWindow(a, now, winners);
            && (b.scopes[s].leader != a.scopes[s].leader
                <==> Elapsed(a.scopes[s], a.cfg, now) && exists p :: Proven(cfg, events, s, p))
            && (b.scopes[s].leader != a.scopes[s].leader ==>
                  && Proven(cfg, events, s, b.scopes[s].leader)
                  && forall q :: Proven(cfg, events, s, q) ==>
                       Median(Evidence(cfg, events, s, b.scopes[s].leader)) <= Median(Evidence(cfg, events, s, q)))
  {
    hide Run, Qualifies, Evidence, Proven, Challenges;
    var a := Run(New(cfg), events);
    var v := a.scopes[s];
    forall p
      ensures Challenges(v, a.cfg, p) <==> Proven(cfg, events, s, p)
      ensures Proven(cfg, events, s, p) ==>
                p in v.paths && p != v.leader && v.paths[p].samples == Evidence(cfg, events, s, p)
    {
      ProvenIsChallenge(cfg, events, s, p);
      if Proven(cfg, events, s, p) {
        ProvenSamples(cfg, events, s, p);
      }
    }
    if s in winners {
      assert MayWin(v, a.cfg, winners[s]);
    }
  }

  lemma ProvenSamples(cfg: Config, events: seq<Event>, s: ScopeKey, p: Transport)
    requires LegalRun(New(cfg), events) && Proven(cfg, events, s, p)
    ensures var v := Run(New(cfg), events).scopes[s];
            p in v.paths && p != v.leader && v.paths[p].samples == Evidence(cfg, events, s, p)
    ensures Evidence(cfg, events, s, p) != []
  {
    hide Run, Evidence;
    ProvenIsChallenge(cfg, events, s, p);
    EvidenceIsFresh(cfg, events, s, p);
    NothingQualifiesOnNothing(Run(New(cfg), events).cfg);
  }
}
