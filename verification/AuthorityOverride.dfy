/**
 One override from end to end: a market leaves its unhealthy leader, stays with its holder, and goes back
 fifteen seconds after the leader was seen well. The events the theorems on handovers and releases speak of
 do occur, in the least time they allow.
 */
module AuthorityOverride {
  import opened Wrappers
  import opened AuthorityModel
  import opened AuthorityHold
  import opened AuthorityRelease

  const K: MarketKey := MarketKey(ScopeKey(1, "perps"), 0, 41)
  const CFG: Config := Config(20_000_000_000, 300_000_000_000, 1_000_000, 4, 5, 32)
  const BACK: nat := 2 + REVERT_HOLD_NS

  /** Path 1 leads; the paths heard, their labels and the market are as given. */
  function World(m: Market, paths: map<Transport, Path>, labels: map<Transport, nat>, released: Option<Release>): Authority {
    Authority(map[K.scope := Scope(1, paths, 0)], map[K := m], [K], map[K.scope := labels], CFG, released)
  }

  const LED: Authority := World(Market({}, {}, None, Some(1), None), map[1 := Path(0, [])], map[1 := 0], None)
  const SICK: Authority := World(Market({1}, {}, None, Some(1), None), map[1 := Path(0, [])], map[1 := 0], None)
  const HELD: Authority :=
    World(Market({1}, {}, Some(Hold(2, 1, None)), Some(2), Some(1)),
          map[1 := Path(0, []), 2 := Path(1, [])], map[1 := 0, 2 := 1], None)
  const WELL: Authority :=
    World(Market({}, {1}, Some(Hold(2, 1, None)), Some(2), Some(1)),
          map[1 := Path(0, []), 2 := Path(1, [])], map[1 := 0, 2 := 1], None)
  const CLOCKED: Authority :=
    World(Market({}, {1}, Some(Hold(2, 1, Some(2))), Some(2), Some(1)),
          map[1 := Path(0, []), 2 := Path(2, [])], map[1 := 0, 2 := 1], None)
  const FREE: Authority :=
    World(Market({}, {1}, None, Some(1), None),
          map[1 := Path(BACK, []), 2 := Path(2, [])], map[1 := 0, 2 := 1], Some(Natural))

  lemma FirstPathLeads()
    ensures Admit(New(CFG), K, 1, 0) == Decision(LED, Emitted(true))
  {
    var b := Register(New(CFG), K.scope, 1);
    assert b.ordinals[K.scope] == map[1 := 0];
    assert Track(b, K).markets == map[K := NEW_MARKET];
  }

  lemma LeaderFallsIll()
    ensures SetHealth(LED, K, 1, false) == SICK
  {}

  lemma OverrideTakesTheMarket()
    ensures Admit(SICK, K, 2, 1) == Decision(HELD, Emitted(true))
  {
    hide Cleared;
    var b := Register(SICK, K.scope, 2);
    assert |LabelsOf(SICK, K.scope)| == 1;
    assert b.ordinals == map[K.scope := map[1 := 0, 2 := 1]];
    var c := Arrived(b, K.scope, 2, 1);
    assert c.scopes == map[K.scope := Scope(1, map[1 := Path(0, []), 2 := Path(1, [])], 0)];
    var d := RefreshHold(c, K, 2, 1);
    assert d.markets == map[K := SICK.markets[K].(hold := Some(Hold(2, 1, None)))];
  }

  lemma LeaderRecovers()
    ensures NoteRebaseline(SetHealth(HELD, K, 1, true), K, 1) == WELL
  {}

  lemma ClockStarts()
    ensures Admit(WELL, K, 2, 2) == Decision(CLOCKED, Emitted(false))
  {
    hide Cleared;
    assert WELL.scopes[K.scope].paths[2 := Path(2, [])] == map[1 := Path(0, []), 2 := Path(2, [])];
    var c := Arrived(WELL, K.scope, 2, 2);
    assert c.scopes == map[K.scope := Scope(1, map[1 := Path(0, []), 2 := Path(2, [])], 0)];
    var d := RefreshHold(c, K, 2, 2);
    assert d.markets == map[K := WELL.markets[K].(hold := Some(Hold(2, 1, Some(2))))];
  }

  lemma MarketGoesBack()
    ensures Admit(CLOCKED, K, 1, BACK) == Decision(FREE, Emitted(true))
  {
    hide Cleared;
    assert CLOCKED.scopes[K.scope].paths[1 := Path(BACK, [])] == map[1 := Path(BACK, []), 2 := Path(2, [])];
    var c := Arrived(CLOCKED, K.scope, 1, BACK);
    assert c.scopes == map[K.scope := Scope(1, map[1 := Path(BACK, []), 2 := Path(2, [])], 0)];
    var d := RefreshHold(c, K, 1, BACK);
    assert d.markets == map[K := CLOCKED.markets[K].(hold := None)];
  }

  const EVENTS: seq<Event> :=
    [Arrive(K, 1, 0), Health(K, 1, false), Arrive(K, 2, 1), Health(K, 1, true), Rebaseline(K, 1), Arrive(K, 2, 2)]

  lemma Next(i: nat, a: Authority)
    requires i < |EVENTS| && Run(New(CFG), EVENTS[..i]) == a
    ensures Run(New(CFG), EVENTS[..i + 1]) == Step(a, EVENTS[i])
  {
    assert EVENTS[..i + 1][..i] == EVENTS[..i];
  }

  lemma TheRun()
    ensures Run(New(CFG), EVENTS) == CLOCKED
  {
    hide Admit, SetHealth, NoteRebaseline, Run;
    FirstPathLeads();
    LeaderFallsIll();
    OverrideTakesTheMarket();
    LeaderRecovers();
    ClockStarts();
    NoEvents();
    assert EVENTS[..0] == [];
    Next(0, New(CFG));
    Next(1, LED);
    Next(2, SICK);
    Next(3, HELD);
    Next(4, SetHealth(HELD, K, 1, true));
    Next(5, WELL);
    assert EVENTS[..6] == EVENTS;
  }

  lemma NoEvents()
    ensures Run(New(CFG), []) == New(CFG)
  {}

  /** The market is handed over, at once, from its unhealthy leader to the other path. */
  lemma HandoverHappens()
    ensures HoldsOk(New(CFG)) && EmitsOn(New(CFG), EVENTS[0], K)
    ensures Quiet(Step(New(CFG), EVENTS[0]), [EVENTS[1]], K)
    ensures EmitsOn(Run(Step(New(CFG), EVENTS[0]), [EVENTS[1]]), EVENTS[2], K)
  {
    hide Admit, SetHealth, Run;
    FirstPathLeads();
    LeaderFallsIll();
    OverrideTakesTheMarket();
    assert Run(LED, [EVENTS[1]]) == SICK by {
      RunOneEvent(LED, EVENTS[1]);
    }
    assert QuietAt(LED, [EVENTS[1]], K, 0) by {
      assert [EVENTS[1]][..1] == [EVENTS[1]];
    }
  }

  lemma RunOneEvent(a: Authority, e: Event)
    ensures Run(a, [e]) == Step(a, e)
  {
    assert [e][..0] == [];
    assert Run(a, [e][..0]) == a;
  }

  /** And it goes back on the leader's first admission fifteen seconds after one that saw it well. */
  lemma ReleaseHappens()
    ensures LegalRun(New(CFG), EVENTS)
    ensures HoldOf(Run(New(CFG), EVENTS), K) == Some(Hold(2, 1, Some(2)))
    ensures Step(Run(New(CFG), EVENTS), Arrive(K, 1, 2 + REVERT_HOLD_NS)).released == Some(Natural)
  {
    hide Admit, Run;
    TheRun();
    MarketGoesBack();
    NoWindowIsLegal(EVENTS);
  }

  lemma {:induction false} NoWindowIsLegal(events: seq<Event>)
    requires forall e :: e in events ==> !e.Close?
    ensures LegalRun(New(CFG), events)
    decreases |events|
  {
    hide Run, Outcome;
    if events != [] {
      NoWindowIsLegal(events[..|events| - 1]);
    }
  }
}
