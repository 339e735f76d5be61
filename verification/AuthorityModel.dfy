/**
 Single-path authority: one elected leader per scope, a per-market health override pinned to one
 holder, and the evidence a margin election is judged on. This is the specification the
 `StickyAuthority` class is proved against.
 */
module AuthorityModel {
  import opened Wrappers

  const MAX_LABELLED_PATHS: nat := 8
  const MAX_TRACKED_MARKETS: nat := 0x1_0000
  const MAX_WINDOW_SAMPLES: nat := 4096
  const REVERT_HOLD_NS: nat := 15_000_000_000
  const REVERT_DEADLINE_NS: nat := 60_000_000_000
  const I64_MAX: int := 0x7fff_ffff_ffff_ffff

  /** A publisher's path, known by its address. */
  type Transport = nat

  datatype ScopeKey = ScopeKey(source: nat, category: string)

  datatype MarketKey = MarketKey(scope: ScopeKey, channel: nat, instrument: nat)

  /** The tunables; the win rate is the fraction `winNum / winDen`. */
  datatype Config = Config(
    leaderTimeout: nat,
    sampleInterval: nat,
    transferMargin: nat,
    winNum: nat,
    winDen: nat,
    minSamples: nat)

  datatype Path = Path(lastSeen: nat, samples: seq<int>)

  datatype Scope = Scope(leader: Transport, paths: map<Transport, Path>, windowOpened: nat)

  /** The override of one market: who serves it, in whose place, and since when that leader has been well. */
  datatype Hold = Hold(holder: Transport, leader: Transport, healthySince: Option<nat>)

  datatype Market = Market(
    unhealthy: set<Transport>,
    reinstalled: set<Transport>,
    hold: Option<Hold>,
    lastAdmitted: Option<Transport>,
    overriddenFrom: Option<Transport>)

  const NEW_MARKET := Market({}, {}, None, None, None)

  datatype Release = Natural | Deadline

  datatype Authority = Authority(
    scopes: map<ScopeKey, Scope>,
    markets: map<MarketKey, Market>,
    order: seq<MarketKey>,
    ordinals: map<ScopeKey, map<Transport, nat>>,
    cfg: Config,
    released: Option<Release>)

  function New(cfg: Config): Authority {
    Authority(map[], map[], [], map[], cfg, None)
  }

  datatype Admission = Emitted(openedTick: bool) | Dropped

  datatype Decision = Decision(authority: Authority, admission: Admission)

  /** Saturating subtraction of clocks. */
  function Since(now: nat, then_: nat): nat {
    if now >= then_ then now - then_ else 0
  }

  // ---- path labels, which are also the admission bound ----

  function LabelsOf(a: Authority, s: ScopeKey): map<Transport, nat> {
    if s in a.ordinals then a.ordinals[s] else map[]
  }

  predicate Labelled(a: Authority, s: ScopeKey, p: Transport) {
    p in LabelsOf(a, s)
  }

  /** Label the path if it has no label and the scope has one left. */
  function Register(a: Authority, s: ScopeKey, p: Transport): Authority {
    var labels := LabelsOf(a, s);
    if p in labels || |labels| >= MAX_LABELLED_PATHS then a
    else a.(ordinals := a.ordinals[s := labels[p := |labels|]])
  }

  // ---- the bounded market table ----

  /** The oldest entries that must go before one more market is tracked. */
  function Overflow(order: seq<MarketKey>): nat {
    if |order| >= MAX_TRACKED_MARKETS then |order| - MAX_TRACKED_MARKETS + 1 else 0
  }

  function Track(a: Authority, k: MarketKey): Authority {
    if k in a.markets then a
    else
      var gone := Overflow(a.order);
      var kept := a.markets - (set i | 0 <= i < gone :: a.order[i]);
      a.(markets := kept[k := NEW_MARKET], order := a.order[gone..] + [k])
  }

  function WithMarket(a: Authority, k: MarketKey, m: Market): Authority {
    a.(markets := a.markets[k := m])
  }

  function HoldOf(a: Authority, k: MarketKey): Option<Hold> {
    if k in a.markets then a.markets[k].hold else None
  }

  function LastAdmitted(a: Authority, k: MarketKey): Option<Transport> {
    if k in a.markets then a.markets[k].lastAdmitted else None
  }

  // ---- health ----

  predicate Healthy(a: Authority, k: MarketKey, p: Transport) {
    k in a.markets ==> p !in a.markets[k].unhealthy
  }

  /** An unhealthy report restarts both conditions of the path's own revert. */
  function Reported(m: Market, p: Transport, healthy: bool): Market {
    if healthy then m.(unhealthy := m.unhealthy - {p})
    else
      m.(unhealthy := m.unhealthy + {p},
         reinstalled := m.reinstalled - {p},
         hold := if m.hold.Some? && m.hold.value.leader == p then Some(m.hold.value.(healthySince := None)) else m.hold)
  }

  function SetHealth(a: Authority, k: MarketKey, p: Transport, healthy: bool): Authority {
    var b := Register(a, k.scope, p);
    if !Labelled(b, k.scope, p) then b
    else if healthy && k !in b.markets then b
    else
      var c := Track(b, k);
      WithMarket(c, k, Reported(c.markets[k], p, healthy))
  }

  function NoteRebaseline(a: Authority, k: MarketKey, p: Transport): Authority {
    if k in a.markets then WithMarket(a, k, a.markets[k].(reinstalled := a.markets[k].reinstalled + {p})) else a
  }

  function DropHold(a: Authority, k: MarketKey): Authority {
    if k in a.markets then WithMarket(a, k, a.markets[k].(hold := None)) else a
  }

  // ---- who leads ----

  function Leader(a: Authority, s: ScopeKey): Option<Transport> {
    if s in a.scopes then Some(a.scopes[s].leader) else None
  }

  function LastSeen(paths: map<Transport, Path>, p: Transport): nat {
    if p in paths then paths[p].lastSeen else 0
  }

  function SamplesOf(paths: map<Transport, Path>, p: Transport): seq<int> {
    if p in paths then paths[p].samples else []
  }

  function Cleared(paths: map<Transport, Path>): map<Transport, Path> {
    map p | p in paths :: paths[p].(samples := [])
  }

  function TakeAuthority(v: Scope, p: Transport, at: nat): Scope {
    Scope(p, Cleared(v.paths), at)
  }

  function Heard(v: Scope, p: Transport, at: nat): Scope {
    v.(paths := v.paths[p := Path(at, SamplesOf(v.paths, p))])
  }

  /** The silence rule: a live challenger displaces a leader silent across the whole scope. */
  function Contested(v: Scope, p: Transport, at: nat, timeout: nat): Scope {
    var w := Heard(v, p, at);
    if w.leader != p && Since(at, LastSeen(w.paths, w.leader)) > timeout then TakeAuthority(w, p, at) else w
  }

  // ---- the override hold ----

  predicate HolderLive(a: Authority, s: ScopeKey, holder: Transport, now: nat) {
    s in a.scopes && holder in a.scopes[s].paths
    && Since(now, a.scopes[s].paths[holder].lastSeen) <= a.cfg.leaderTimeout
  }

  /** The stored hold still stands under this leader at this time. */
  predicate Stands(a: Authority, k: MarketKey, leader: Transport, now: nat) {
    var stored := HoldOf(a, k);
    && stored.Some? && stored.value.leader == leader
    && Healthy(a, k, stored.value.holder) && HolderLive(a, k.scope, stored.value.holder, now)
  }

  function Reinstalled(a: Authority, k: MarketKey, p: Transport): bool {
    k in a.markets && p in a.markets[k].reinstalled
  }

  /** A standing hold, its clock running while the leader is healthy. */
  function Clocked(h: Hold, leaderHealthy: bool, now: nat): Hold {
    h.(healthySince := if !leaderHealthy then None else if h.healthySince.Some? then h.healthySince else Some(now))
  }

  function ReleaseOf(a: Authority, k: MarketKey, h: Hold, publisher: Transport, now: nat): Option<Release> {
    if h.healthySince.None? || publisher != h.leader then None
    else if Reinstalled(a, k, h.leader) && Since(now, h.healthySince.value) >= REVERT_HOLD_NS then Some(Natural)
    else if Since(now, h.healthySince.value) >= REVERT_DEADLINE_NS then Some(Deadline)
    else None
  }

  function WithHold(a: Authority, k: MarketKey, hold: Option<Hold>): Authority {
    var b := Track(a, k);
    WithMarket(b, k, b.markets[k].(hold := hold))
  }

  function RefreshHold(a: Authority, k: MarketKey, publisher: Transport, now: nat): Authority {
    if k.scope !in a.scopes then a
    else
      var leader := a.scopes[k.scope].leader;
      var leaderHealthy := Healthy(a, k, leader);
      var stored := HoldOf(a, k);
      if Stands(a, k, leader, now) then
        var h := Clocked(stored.value, leaderHealthy, now);
        var release := ReleaseOf(a, k, h, publisher, now);
        WithHold(a.(released := release), k, if release.None? then Some(h) else None)
      else if !leaderHealthy && publisher != leader && Healthy(a, k, publisher) then
        WithHold(a, k, Some(Hold(publisher, leader, None)))
      else if stored.Some? then WithHold(a, k, None)
      else a
  }

  // ---- who serves ----

  predicate Candidate(a: Authority, k: MarketKey, leader: Transport, p: Transport) {
    k.scope in a.scopes && p in a.scopes[k.scope].paths && p != leader && Healthy(a, k, p)
  }

  /** Its label's rank; an unlabelled path ranks below every label. */
  function Rank(a: Authority, s: ScopeKey, p: Transport): int {
    if Labelled(a, s, p) then LabelsOf(a, s)[p] else -1
  }

  /** `p` was heard no later than `q`, ties going to the higher label. */
  predicate NoFresher(a: Authority, s: ScopeKey, p: Transport, q: Transport)
    requires s in a.scopes && p in a.scopes[s].paths && q in a.scopes[s].paths
  {
    var x, y := a.scopes[s].paths[p].lastSeen, a.scopes[s].paths[q].lastSeen;
    x < y || (x == y && Rank(a, s, p) <= Rank(a, s, q))
  }

  /** `p` is a healthy non-leader path heard no less recently than any other. */
  ghost predicate IsAlternate(a: Authority, k: MarketKey, leader: Transport, p: Transport) {
    Candidate(a, k, leader, p) && forall q :: Candidate(a, k, leader, q) ==> NoFresher(a, k.scope, q, p)
  }

  ghost function Alternate(a: Authority, k: MarketKey, leader: Transport): Option<Transport> {
    if exists p :: IsAlternate(a, k, leader, p) then
      var p :| IsAlternate(a, k, leader, p); Some(p)
    else None
  }

  ghost function Serving(a: Authority, k: MarketKey): Option<Transport> {
    if k.scope !in a.scopes then None
    else
      var leader := a.scopes[k.scope].leader;
      var hold := HoldOf(a, k);
      if hold.Some? && hold.value.leader == leader && Healthy(a, k, hold.value.holder) then Some(hold.value.holder)
      else if Healthy(a, k, leader) then Some(leader)
      else if Alternate(a, k, leader).Some? then Alternate(a, k, leader)
      else Some(leader)
  }

  // ---- admission ----

  /** The scope's first eligible path leads it at once. */
  function FirstScope(a: Authority, k: MarketKey, p: Transport, at: nat): Authority {
    var b := Track(a.(scopes := a.scopes[k.scope := Scope(p, map[p := Path(at, [])], at)]), k);
    WithMarket(b, k, b.markets[k].(lastAdmitted := Some(p)))
  }

  /** The state the hold is refreshed in: the path registered, heard, and any silence transfer made. */
  function Arrived(a: Authority, s: ScopeKey, p: Transport, at: nat): Authority
    requires s in a.scopes
  {
    a.(scopes := a.scopes[s := Contested(a.scopes[s], p, at, a.cfg.leaderTimeout)])
  }

  function Serve(a: Authority, k: MarketKey, p: Transport): Decision {
    var b := Track(a, k);
    var m := b.markets[k];
    var from := if Leader(a, k.scope) == Some(p) then None else Leader(a, k.scope);
    Decision(WithMarket(b, k, m.(lastAdmitted := Some(p), overriddenFrom := from)), Emitted(m.lastAdmitted != Some(p)))
  }

  ghost function Admit(a: Authority, k: MarketKey, p: Transport, at: nat): Decision {
    var b := Register(a.(released := None), k.scope, p);
    if !Labelled(b, k.scope, p) then Decision(b, Dropped)
    else if k.scope !in b.scopes then Decision(FirstScope(b, k, p, at), Emitted(true))
    else
      var c := RefreshHold(Arrived(b, k.scope, p, at), k, p, at);
      if Serving(c, k) != Some(p) then Decision(c, Dropped) else Serve(c, k, p)
  }

  /** A batch no datagram delivered moves nothing and is served only to who already follows its path. */
  ghost function AdmitSynthesized(a: Authority, k: MarketKey, p: Transport): Decision {
    Decision(a.(released := None),
             if Serving(a, k) == Some(p) && LastAdmitted(a, k) == Some(p) then Emitted(false) else Dropped)
  }

  // ---- margin elections ----

  function Observe(a: Authority, s: ScopeKey, p: Transport, lead: int): Authority {
    var b := Register(a, s, p);
    if !Labelled(b, s, p) || s !in b.scopes || b.scopes[s].leader == p then b
    else
      var v := b.scopes[s];
      var held := SamplesOf(v.paths, p);
      var held' := if |held| < MAX_WINDOW_SAMPLES then held + [lead] else held;
      b.(scopes := b.scopes[s := v.(paths := v.paths[p := Path(LastSeen(v.paths, p), held')])])
  }

  function Margin(cfg: Config): int {
    if cfg.transferMargin <= I64_MAX then cfg.transferMargin else I64_MAX
  }

  function Below(xs: seq<int>, bound: int): nat
    decreases |xs|
  {
    if xs == [] then 0 else Below(xs[..|xs| - 1], bound) + if xs[|xs| - 1] < bound then 1 else 0
  }

  function InsertInt(sorted: seq<int>, x: int): seq<int> {
    if sorted == [] || sorted[|sorted| - 1] <= x then sorted + [x]
    else InsertInt(sorted[..|sorted| - 1], x) + [sorted[|sorted| - 1]]
  }

  function SortInts(xs: seq<int>): (r: seq<int>)
    ensures |r| == |xs|
    decreases |xs|
  {
    if xs == [] then []
    else
      InsertLength(SortInts(xs[..|xs| - 1]), xs[|xs| - 1]);
      InsertInt(SortInts(xs[..|xs| - 1]), xs[|xs| - 1])
  }

  lemma {:induction false} InsertLength(sorted: seq<int>, x: int)
    ensures |InsertInt(sorted, x)| == |sorted| + 1
  {
    if !(sorted == [] || sorted[|sorted| - 1] <= x) {
      InsertLength(sorted[..|sorted| - 1], x);
    }
  }

  function Median(xs: seq<int>): int
    requires xs != []
  {
    SortInts(xs)[|xs| / 2]
  }

  predicate EnoughSamples(xs: seq<int>, cfg: Config) {
    |xs| >= 1 && |xs| >= cfg.minSamples
  }

  predicate WinsOften(xs: seq<int>, margin: int, cfg: Config) {
    Below(xs, -margin) * cfg.winDen >= cfg.winNum * |xs|
  }

  predicate Qualifies(xs: seq<int>, cfg: Config) {
    EnoughSamples(xs, cfg) && WinsOften(xs, Margin(cfg), cfg) && Median(xs) <= -Margin(cfg)
  }

  predicate Challenges(v: Scope, cfg: Config, p: Transport) {
    p in v.paths && p != v.leader && Qualifies(v.paths[p].samples, cfg)
  }

  /** A challenger whose median is the least among those that qualify; which of two equal ones is
      picked depends on the iteration order of a hash map. */
  ghost predicate MayWin(v: Scope, cfg: Config, p: Transport) {
    && Challenges(v, cfg, p)
    && forall q :: Challenges(v, cfg, q) ==> Median(v.paths[p].samples) <= Median(v.paths[q].samples)
  }

  predicate Elapsed(v: Scope, cfg: Config, now: nat) {
    Since(now, v.windowOpened) >= cfg.sampleInterval
  }

  /** `winners` is a possible outcome of closing the elapsed windows. */
  ghost predicate Outcome(a: Authority, now: nat, winners: map<ScopeKey, Transport>) {
    forall s ::
      if s in winners then s in a.scopes && Elapsed(a.scopes[s], a.cfg, now) && MayWin(a.scopes[s], a.cfg, winners[s])
      else s in a.scopes && Elapsed(a.scopes[s], a.cfg, now) ==> forall p :: !Challenges(a.scopes[s], a.cfg, p)
  }

  function ClosedScope(v: Scope, cfg: Config, now: nat, winner: Option<Transport>): Scope {
    if !Elapsed(v, cfg, now) then v
    else Scope(if winner.Some? then winner.value else v.leader, Cleared(v.paths), now)
  }

  function WinnerOf(winners: map<ScopeKey, Transport>, s: ScopeKey): Option<Transport> {
    if s in winners then Some(winners[s]) else None
  }

  function CloseWindow(a: Authority, now: nat, winners: map<ScopeKey, Transport>): Authority {
    a.(scopes := map s | s in a.scopes :: ClosedScope(a.scopes[s], a.cfg, now, WinnerOf(winners, s)))
  }

  // ---- runs ----

  datatype Event =
    | Arrive(k: MarketKey, p: Transport, at: nat)
    | Synthesize(k: MarketKey, p: Transport)
    | Health(k: MarketKey, p: Transport, healthy: bool)
    | Rebaseline(k: MarketKey, p: Transport)
    | Unpin(k: MarketKey)
    | Forget(k: MarketKey)
    | Lead(s: ScopeKey, p: Transport, lead: int)
    | Close(now: nat, winners: map<ScopeKey, Transport>)
    | Label(s: ScopeKey, p: Transport)
    | Configure(cfg: Config)

  ghost function Step(a: Authority, e: Event): Authority {
    match e
    case Arrive(k, p, at) => Admit(a, k, p, at).authority
    case Synthesize(k, p) => AdmitSynthesized(a, k, p).authority
    case Health(k, p, healthy) => SetHealth(a, k, p, healthy)
    case Rebaseline(k, p) => NoteRebaseline(a, k, p)
    case Unpin(k) => DropHold(a, k)
    case Forget(k) => a.(markets := a.markets - {k})
    case Lead(s, p, lead) => Observe(a, s, p, lead)
    case Close(now, winners) => CloseWindow(a, now, winners)
    case Label(s, p) => Register(a, s, p)
    case Configure(cfg) => a.(cfg := cfg)
  }

  ghost function Run(a: Authority, events: seq<Event>): Authority
    decreases |events|
  {
    if events == [] then a else Step(Run(a, events[..|events| - 1]), events[|events| - 1])
  }

  /** Every window closed along the run closes with a possible outcome. */
  ghost predicate LegalRun(a: Authority, events: seq<Event>)
    decreases |events|
  {
    events == [] ||
    var before, e := events[..|events| - 1], events[|events| - 1];
    LegalRun(a, before) && (e.Close? ==> Outcome(Run(a, before), e.now, e.winners))
  }
}
