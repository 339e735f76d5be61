/**
 The channel filter: the strict server-side parser of a filter spec, the lenient client-side preview of
 one, and the law that ties them. Each parser is a loop proved against a function of the spec's clauses.
 */
module ChannelFilters {
  import opened Wrappers
  import opened Text

  const U8_MAX: nat := 255
  const U64_MAX: nat := 0xffff_ffff_ffff_ffff

  type u8 = x: nat | x <= U8_MAX

  /** A publisher's port block, and the channel it was derived from if it was. */
  datatype Publisher = Publisher(port: nat, channel: Option<u8>)

  datatype Feed = Feed(venue: string, category: string, code: string, publishers: seq<Publisher>)

  datatype Selection = Selection(ids: set<u8>, publishedSize: nat)

  type Filter = map<string, Selection>

  datatype FilterError =
    | MissingIds(clause: string)
    | UnknownCode(code: string)
    | RepeatedCode(code: string)
    | EmptySelection(code: string)
    | BadId(code: string, text: string)
    | UnknownChannel(code: string, feed: Feed, id: u8)
    | FlatRow(code: string, feed: Feed)

  datatype Result<T> = Ok(value: T) | Err(error: FilterError)

  // ---- feeds ----

  /** The channels a feed's publishers were derived from; empty for a flat feed. */
  function PublishedSet(f: Feed): set<u8> {
    set p | p in f.publishers && p.channel.Some? :: p.channel.value
  }

  function Matching(rows: seq<Feed>, code: string): seq<Feed> {
    if rows == [] then []
    else (if rows[0].code == code then [rows[0]] else []) + Matching(rows[1..], code)
  }

  function FirstFlat(feeds: seq<Feed>): Option<Feed> {
    if feeds == [] then None
    else if PublishedSet(feeds[0]) == {} then Some(feeds[0])
    else FirstFlat(feeds[1..])
  }

  function FirstWithout(feeds: seq<Feed>, id: u8): Option<Feed> {
    if feeds == [] then None
    else if id !in PublishedSet(feeds[0]) then Some(feeds[0])
    else FirstWithout(feeds[1..], id)
  }

  function AllPublished(feeds: seq<Feed>): set<u8> {
    if feeds == [] then {} else PublishedSet(feeds[0]) + AllPublished(feeds[1..])
  }

  // ---- the strict parser, clause by clause ----

  function StrictId(feeds: seq<Feed>, code: string, token: string, wanted: set<u8>): Result<set<u8>> {
    var text := Trim(token);
    if text == "" then Ok(wanted)
    else
      match ParseUnsigned(text, U8_MAX)
      case None => Err(BadId(code, text))
      case Some(id) =>
        match FirstWithout(feeds, id)
        case Some(f) => Err(UnknownChannel(code, f, id))
        case None => Ok(wanted + {id})
  }

  function StrictIds(feeds: seq<Feed>, code: string, tokens: seq<string>, wanted: set<u8>): Result<set<u8>>
    decreases |tokens|
  {
    if tokens == [] then Ok(wanted)
    else
      match StrictId(feeds, code, tokens[0], wanted)
      case Err(e) => Err(e)
      case Ok(more) => StrictIds(feeds, code, tokens[1..], more)
  }

  function StrictClause(rows: seq<Feed>, clause: string, admitted: Filter): Result<Filter> {
    match SplitOnce(clause, '=')
    case None => Err(MissingIds(clause))
    case Some((name, ids)) =>
      var code := Trim(name);
      var feeds := Matching(rows, code);
      if feeds == [] then Err(UnknownCode(code))
      else if FirstFlat(feeds).Some? then Err(FlatRow(code, FirstFlat(feeds).value))
      else
        match StrictIds(feeds, code, Split(ids, ','), {})
        case Err(e) => Err(e)
        case Ok(wanted) =>
          if wanted == {} then Err(EmptySelection(code))
          else if code in admitted then Err(RepeatedCode(code))
          else Ok(admitted[code := Selection(wanted, |AllPublished(feeds)|)])
  }

  function StrictStep(rows: seq<Feed>, clause: string, admitted: Filter): Result<Filter> {
    if Trim(clause) == "" then Ok(admitted) else StrictClause(rows, Trim(clause), admitted)
  }

  function StrictClauses(rows: seq<Feed>, clauses: seq<string>, admitted: Filter): Result<Filter>
    decreases |clauses|
  {
    if clauses == [] then Ok(admitted)
    else
      match StrictStep(rows, clauses[0], admitted)
      case Err(e) => Err(e)
      case Ok(more) => StrictClauses(rows, clauses[1..], more)
  }

  function Parsed(rows: seq<Feed>, spec: string): Result<Filter> {
    StrictClauses(rows, Split(spec, ';'), map[])
  }

  /** The server's parser. */
  method ParseWithin(rows: seq<Feed>, spec: string) returns (r: Result<Filter>)
    ensures r == Parsed(rows, spec)
  {
    hide StrictClause, Split;
    var admitted: Filter := map[];
    var clauses := Split(spec, ';');
    var i := 0;
    while i < |clauses|
      invariant 0 <= i <= |clauses|
      invariant StrictClauses(rows, clauses[i..], admitted) == Parsed(rows, spec)
    {
      var clause := Trim(clauses[i]);
      if clause != "" {
        var step := ParseClause(rows, clause, admitted);
        if step.Err? {
          return step;
        }
        admitted := step.value;
      }
      i := i + 1;
    }
    return Ok(admitted);
  }

  method ParseClause(rows: seq<Feed>, clause: string, admitted: Filter) returns (r: Result<Filter>)
    ensures r == StrictClause(rows, clause, admitted)
  {
    hide StrictId, Split;
    var parts := SplitOnce(clause, '=');
    if parts.None? {
      return Err(MissingIds(clause));
    }
    var code := Trim(parts.value.0);
    var feeds := Matching(rows, code);
    if feeds == [] {
      return Err(UnknownCode(code));
    }
    var flat := FirstFlat(feeds);
    if flat.Some? {
      return Err(FlatRow(code, flat.value));
    }
    var wanted: set<u8> := {};
    var tokens := Split(parts.value.1, ',');
    var i := 0;
    while i < |tokens|
      invariant 0 <= i <= |tokens|
      invariant StrictIds(feeds, code, tokens[i..], wanted) == StrictIds(feeds, code, tokens, {})
    {
      var step := ParseId(feeds, code, tokens[i], wanted);
      if step.Err? {
        return Err(step.error);
      }
      wanted := step.value;
      i := i + 1;
    }
    if wanted == {} {
      return Err(EmptySelection(code));
    }
    if code in admitted {
      return Err(RepeatedCode(code));
    }
    return Ok(admitted[code := Selection(wanted, |AllPublished(feeds)|)]);
  }

  method ParseId(feeds: seq<Feed>, code: string, token: string, wanted: set<u8>) returns (r: Result<set<u8>>)
    ensures r == StrictId(feeds, code, token, wanted)
  {
    var text := Trim(token);
    if text == "" {
      return Ok(wanted);
    }
    var id := ParseUnsigned(text, U8_MAX);
    if id.None? {
      return Err(BadId(code, text));
    }
    var i := 0;
    while i < |feeds|
      invariant 0 <= i <= |feeds| && FirstWithout(feeds[i..], id.value) == FirstWithout(feeds, id.value)
    {
      if id.value !in PublishedSet(feeds[i]) {
        return Err(UnknownChannel(code, feeds[i], id.value));
      }
      i := i + 1;
    }
    return Ok(wanted + {id.value});
  }

  predicate Admits(f: Filter, code: string, channel: u8) {
    code in f ==> channel in f[code].ids
  }

  function Chosen(publishers: seq<Publisher>, ids: set<u8>): seq<Publisher> {
    if publishers == [] then []
    else
      (if publishers[0].channel.Some? && publishers[0].channel.value in ids then [publishers[0]] else [])
      + Chosen(publishers[1..], ids)
  }

  /** The publishers of a feed this process binds. */
  function PublishersFor(f: Filter, feed: Feed): seq<Publisher> {
    if feed.code in f then Chosen(feed.publishers, f[feed.code].ids) else feed.publishers
  }

  // ---- the lenient preview ----

  type Preview = map<string, set<nat>>

  function LenientId(token: string, ids: set<nat>): set<nat> {
    match ParseUnsigned(Trim(token), U64_MAX)
    case None => ids
    case Some(id) => ids + {id}
  }

  function LenientIds(tokens: seq<string>, ids: set<nat>): set<nat>
    decreases |tokens|
  {
    if tokens == [] then ids else LenientIds(tokens[1..], LenientId(tokens[0], ids))
  }

  function LenientStep(clause: string, seen: Preview): Preview {
    var text := Trim(clause);
    if text == "" then seen
    else
      match SplitOnce(text, '=')
      case None => seen
      case Some((name, ids)) => seen[Trim(name) := LenientIds(Split(ids, ','), {})]
  }

  function LenientClauses(clauses: seq<string>, seen: Preview): Preview
    decreases |clauses|
  {
    if clauses == [] then seen else LenientClauses(clauses[1..], LenientStep(clauses[0], seen))
  }

  function Previewed(spec: string): Preview {
    LenientClauses(Split(spec, ';'), map[])
  }

  /** The client's reading: a clause it cannot make sense of is skipped. */
  method ParsePreview(spec: string) returns (seen: Preview)
    ensures seen == Previewed(spec)
  {
    hide Split;
    seen := map[];
    var clauses := Split(spec, ';');
    var i := 0;
    while i < |clauses|
      invariant 0 <= i <= |clauses|
      invariant LenientClauses(clauses[i..], seen) == Previewed(spec)
    {
      var clause := Trim(clauses[i]);
      if clause != "" {
        var parts := SplitOnce(clause, '=');
        if parts.Some? {
          var ids := CollectIds(Split(parts.value.1, ','));
          seen := seen[Trim(parts.value.0) := ids];
        }
      }
      i := i + 1;
    }
  }

  method CollectIds(tokens: seq<string>) returns (ids: set<nat>)
    ensures ids == LenientIds(tokens, {})
  {
    ids := {};
    var i := 0;
    while i < |tokens|
      invariant 0 <= i <= |tokens| && LenientIds(tokens[i..], ids) == LenientIds(tokens, {})
    {
      var id := ParseUnsigned(Trim(tokens[i]), U64_MAX);
      if id.Some? {
        ids := ids + {id.value};
      }
      i := i + 1;
    }
  }

  predicate PreviewAdmits(seen: Preview, code: string, channel: nat) {
    code in seen ==> channel in seen[code]
  }

  // ---- the drops a proposed filter would cause ----

  datatype ChannelRow = ChannelRow(channel: u8, allowed: bool, products: nat)

  datatype FeedRow = FeedRow(venue: string, category: string, code: string, channels: seq<ChannelRow>)

  datatype Drop = Drop(venue: string, category: string, code: string, channel: u8, products: nat)

  /** The channel is populated and admitted today, and the spec's preview does not admit it. */
  predicate WouldDrop(row: FeedRow, c: ChannelRow, seen: Preview) {
    c.allowed && c.products > 0 && !PreviewAdmits(seen, row.code, c.channel)
  }

  function RowDrops(row: FeedRow, channels: seq<ChannelRow>, seen: Preview): seq<Drop> {
    if channels == [] then []
    else
      var c := channels[0];
      (if WouldDrop(row, c, seen) then [Drop(row.venue, row.category, row.code, c.channel, c.products)] else [])
      + RowDrops(row, channels[1..], seen)
  }

  function Drops(rows: seq<FeedRow>, seen: Preview): seq<Drop> {
    if rows == [] then [] else RowDrops(rows[0], rows[0].channels, seen) + Drops(rows[1..], seen)
  }

  method ComputeDrops(rows: seq<FeedRow>, spec: string) returns (drops: seq<Drop>)
    ensures drops == Drops(rows, Previewed(spec))
  {
    hide Previewed, RowDrops;
    var seen := ParsePreview(spec);
    drops := [];
    var i := 0;
    while i < |rows|
      invariant 0 <= i <= |rows| && drops + Drops(rows[i..], seen) == Drops(rows, seen)
    {
      var found := ComputeRowDrops(rows[i], seen);
      drops := drops + found;
      i := i + 1;
    }
  }

  method ComputeRowDrops(row: FeedRow, seen: Preview) returns (found: seq<Drop>)
    ensures found == RowDrops(row, row.channels, seen)
  {
    hide WouldDrop;
    found := [];
    var j := 0;
    while j < |row.channels|
      invariant 0 <= j <= |row.channels|
      invariant found + RowDrops(row, row.channels[j..], seen) == RowDrops(row, row.channels, seen)
    {
      var c := row.channels[j];
      if WouldDrop(row, c, seen) {
        found := found + [Drop(row.venue, row.category, row.code, c.channel, c.products)];
      }
      j := j + 1;
    }
  }

  // ---- the two parsers agree ----

  lemma StrictIdIsLenient(feeds: seq<Feed>, code: string, token: string, wanted: set<u8>)
    requires StrictId(feeds, code, token, wanted).Ok?
    ensures LenientId(token, wanted) == StrictId(feeds, code, token, wanted).value
  {
    hide Trim;
    var text := Trim(token);
    ParseWider(text, U8_MAX, U64_MAX);
  }

  lemma {:induction false} StrictIdsAreLenient(feeds: seq<Feed>, code: string, tokens: seq<string>, wanted: set<u8>)
    requires StrictIds(feeds, code, tokens, wanted).Ok?
    ensures LenientIds(tokens, wanted) == StrictIds(feeds, code, tokens, wanted).value
    decreases |tokens|
  {
    hide StrictId, LenientId;
    if tokens != [] {
      StrictIdIsLenient(feeds, code, tokens[0], wanted);
      StrictIdsAreLenient(feeds, code, tokens[1..], StrictId(feeds, code, tokens[0], wanted).value);
    }
  }

  /** The preview holds exactly the filter's codes and ids. */
  ghost predicate Mirrors(seen: Preview, f: Filter) {
    && (forall code :: code in seen <==> code in f)
    && (forall code :: code in f ==> seen[code] == f[code].ids)
  }

  lemma StepMirrors(rows: seq<Feed>, clause: string, f: Filter, seen: Preview)
    requires Mirrors(seen, f) && StrictStep(rows, clause, f).Ok?
    ensures Mirrors(LenientStep(clause, seen), StrictStep(rows, clause, f).value)
  {
    hide Trim, Split, StrictIds, LenientIds, Matching, FirstFlat, AllPublished;
    var text := Trim(clause);
    if text != "" {
      var parts := SplitOnce(text, '=').value;
      var code := Trim(parts.0);
      StrictIdsAreLenient(Matching(rows, code), code, Split(parts.1, ','), {});
    }
  }

  lemma {:induction false} ClausesMirror(rows: seq<Feed>, clauses: seq<string>, f: Filter, seen: Preview)
    requires Mirrors(seen, f) && StrictClauses(rows, clauses, f).Ok?
    ensures Mirrors(LenientClauses(clauses, seen), StrictClauses(rows, clauses, f).value)
    decreases |clauses|
  {
    hide StrictStep, LenientStep, Mirrors;
    if clauses != [] {
      StepMirrors(rows, clauses[0], f, seen);
      ClausesMirror(rows, clauses[1..], StrictStep(rows, clauses[0], f).value, LenientStep(clauses[0], seen));
    }
  }

  /** For every spec the server accepts, the client's preview admits exactly the same channels of the
      same codes. */
  lemma PreviewAgrees(rows: seq<Feed>, spec: string)
    requires Parsed(rows, spec).Ok?
    ensures forall code: string, channel: u8 ::
              PreviewAdmits(Previewed(spec), code, channel) <==> Admits(Parsed(rows, spec).value, code, channel)
  {
    hide StrictClauses, LenientClauses, Split;
    ClausesMirror(rows, Split(spec, ';'), map[], map[]);
  }

  lemma {:induction false} RowDropsAre(row: FeedRow, channels: seq<ChannelRow>, seen: Preview, d: Drop)
    ensures d in RowDrops(row, channels, seen) <==>
              exists c :: c in channels && WouldDrop(row, c, seen)
                          && d == Drop(row.venue, row.category, row.code, c.channel, c.products)
    decreases |channels|
  {
    hide WouldDrop;
    if channels != [] {
      RowDropsAre(row, channels[1..], seen, d);
      assert channels == [channels[0]] + channels[1..];
    }
  }

  /** A previewed drop, for an accepted spec: a populated admitted channel the new filter refuses. */
  ghost predicate Loses(f: Filter, row: FeedRow, c: ChannelRow, d: Drop) {
    && c in row.channels && c.allowed && c.products > 0 && !Admits(f, row.code, c.channel)
    && d == Drop(row.venue, row.category, row.code, c.channel, c.products)
  }

  /** The preview of an accepted spec lists exactly the populated channels the new filter would stop
      admitting. */
  lemma {:induction false} PreviewListsWhatIsLost(feeds: seq<Feed>, spec: string, rows: seq<FeedRow>, d: Drop)
    requires Parsed(feeds, spec).Ok?
    ensures d in Drops(rows, Previewed(spec)) <==>
              exists row, c :: row in rows && Loses(Parsed(feeds, spec).value, row, c, d)
    decreases |rows|
  {
    hide Parsed, Previewed, Admits, PreviewAdmits;
    PreviewAgrees(feeds, spec);
    if rows != [] {
      PreviewListsWhatIsLost(feeds, spec, rows[1..], d);
      RowDropsAre(rows[0], rows[0].channels, Previewed(spec), d);
      assert rows == [rows[0]] + rows[1..];
      if exists c :: c in rows[0].channels && WouldDrop(rows[0], c, Previewed(spec))
                     && d == Drop(rows[0].venue, rows[0].category, rows[0].code, c.channel, c.products) {
        var c :| c in rows[0].channels && WouldDrop(rows[0], c, Previewed(spec))
                 && d == Drop(rows[0].venue, rows[0].category, rows[0].code, c.channel, c.products);
        assert Loses(Parsed(feeds, spec).value, rows[0], c, d);
      }
      forall row, c | row in rows && Loses(Parsed(feeds, spec).value, row, c, d)
        ensures d in Drops(rows, Previewed(spec))
      {
        if row == rows[0] {
          assert WouldDrop(rows[0], c, Previewed(spec));
        }
      }
    }
  }

  // ---- an accepted filter empties no feed ----

  lemma {:induction false} MatchingIs(rows: seq<Feed>, code: string)
    ensures forall f :: f in Matching(rows, code) <==> f in rows && f.code == code
  {
    if rows != [] {
      MatchingIs(rows[1..], code);
      assert rows == [rows[0]] + rows[1..];
    }
  }

  lemma {:induction false} NoneWithout(feeds: seq<Feed>, id: u8)
    ensures FirstWithout(feeds, id).None? <==> forall f :: f in feeds ==> id in PublishedSet(f)
  {
    hide PublishedSet;
    if feeds != [] {
      NoneWithout(feeds[1..], id);
      assert feeds == [feeds[0]] + feeds[1..];
    }
  }

  /** Every selected id is published by every feed. */
  ghost predicate PublishedByAll(feeds: seq<Feed>, ids: set<u8>) {
    forall id, f :: id in ids && f in feeds ==> id in PublishedSet(f)
  }

  lemma {:induction false} StrictIdsArePublished(feeds: seq<Feed>, code: string, tokens: seq<string>, wanted: set<u8>)
    requires StrictIds(feeds, code, tokens, wanted).Ok? && PublishedByAll(feeds, wanted)
    ensures PublishedByAll(feeds, StrictIds(feeds, code, tokens, wanted).value)
    decreases |tokens|
  {
    hide PublishedSet, Trim;
    if tokens != [] {
      var id := ParseUnsigned(Trim(tokens[0]), U8_MAX);
      if id.Some? && id.value <= U8_MAX {
        NoneWithout(feeds, id.value);
      }
      StrictIdsArePublished(feeds, code, tokens[1..], StrictId(feeds, code, tokens[0], wanted).value);
    }
  }

  /** Each selection is non-empty and every feed carrying its code publishes all of it. */
  ghost predicate Sound(rows: seq<Feed>, f: Filter) {
    forall code :: code in f ==> SoundAt(rows, code, f[code].ids)
  }

  ghost predicate SoundAt(rows: seq<Feed>, code: string, ids: set<u8>) {
    ids != {} && forall feed :: feed in rows && feed.code == code ==> ids <= PublishedSet(feed)
  }

  lemma StepIsSound(rows: seq<Feed>, clause: string, f: Filter)
    requires Sound(rows, f) && StrictStep(rows, clause, f).Ok?
    ensures Sound(rows, StrictStep(rows, clause, f).value)
  {
    hide Trim, Split, StrictIds, PublishedSet, FirstFlat, AllPublished;
    var text := Trim(clause);
    if text != "" {
      var parts := SplitOnce(text, '=').value;
      var code := Trim(parts.0);
      var feeds := Matching(rows, code);
      MatchingIs(rows, code);
      StrictIdsArePublished(feeds, code, Split(parts.1, ','), {});
      var wanted := StrictIds(feeds, code, Split(parts.1, ','), {}).value;
      assert SoundAt(rows, code, wanted);
    }
  }

  lemma {:induction false} ClausesAreSound(rows: seq<Feed>, clauses: seq<string>, f: Filter)
    requires Sound(rows, f) && StrictClauses(rows, clauses, f).Ok?
    ensures Sound(rows, StrictClauses(rows, clauses, f).value)
    decreases |clauses|
  {
    hide StrictStep, Sound;
    if clauses != [] {
      StepIsSound(rows, clauses[0], f);
      ClausesAreSound(rows, clauses[1..], StrictStep(rows, clauses[0], f).value);
    }
  }

  lemma {:induction false} ChosenAre(publishers: seq<Publisher>, ids: set<u8>)
    ensures forall p :: p in Chosen(publishers, ids) <==> p in publishers && p.channel.Some? && p.channel.value in ids
  {
    if publishers != [] {
      ChosenAre(publishers[1..], ids);
      assert publishers == [publishers[0]] + publishers[1..];
    }
  }

  /** Under every accepted filter a feed whose code is mentioned keeps at least one publisher, exactly
      those of the selected channels; every other feed keeps all of its own. */
  lemma NoFeedIsEmptied(rows: seq<Feed>, spec: string, feed: Feed)
    requires Parsed(rows, spec).Ok? && feed in rows
    ensures var f := Parsed(rows, spec).value;
            if feed.code in f then
              && PublishersFor(f, feed) != []
              && (forall p :: p in PublishersFor(f, feed) <==>
                    p in feed.publishers && p.channel.Some? && Admits(f, feed.code, p.channel.value))
            else PublishersFor(f, feed) == feed.publishers
  {
    hide StrictClauses, Split;
    ClausesAreSound(rows, Split(spec, ';'), map[]);
    var f := Parsed(rows, spec).value;
    if feed.code in f {
      assert SoundAt(rows, feed.code, f[feed.code].ids);
      ChosenAre(feed.publishers, f[feed.code].ids);
      var id :| id in f[feed.code].ids;
      var p :| p in feed.publishers && p.channel.Some? && p.channel.value == id;
      assert p in Chosen(feed.publishers, f[feed.code].ids);
    }
  }

  // ---- exactly which specs are accepted ----

  predicate Blank(text: string) {
    Trim(text) == ""
  }

  /** The token is blank, or a channel id every one of the feeds publishes. */
  ghost predicate TokenOk(feeds: seq<Feed>, token: string) {
    Blank(token) ||
    var id := ParseUnsigned(Trim(token), U8_MAX);
    id.Some? && forall f :: f in feeds ==> id.value in PublishedSet(f)
  }

  /** The clause is blank, or names a code carried only by derived feeds and at least one id, each legal
      for every one of them. */
  ghost predicate ClauseOk(rows: seq<Feed>, clause: string) {
    Blank(clause) ||
    match SplitOnce(Trim(clause), '=') {
      case None => false
      case Some((name, ids)) =>
        var feeds := Matching(rows, Trim(name));
        && feeds != []
        && (forall f :: f in feeds ==> PublishedSet(f) != {})
        && (forall token :: token in Split(ids, ',') ==> TokenOk(feeds, token))
        && (exists token :: token in Split(ids, ',') && !Blank(token))
    }
  }

  function CodeOf(clause: string): Option<string> {
    if Blank(clause) then None
    else if SplitOnce(Trim(clause), '=').None? then None
    else Some(Trim(SplitOnce(Trim(clause), '=').value.0))
  }

  /** No clause names a code already admitted or named by an earlier clause. */
  ghost predicate NoRepeat(clauses: seq<string>, f: Filter) {
    && (forall i :: 0 <= i < |clauses| && CodeOf(clauses[i]).Some? ==> CodeOf(clauses[i]).value !in f)
    && (forall i, j :: 0 <= i < j < |clauses| && CodeOf(clauses[i]).Some? ==> CodeOf(clauses[i]) != CodeOf(clauses[j]))
  }

  ghost predicate AllOk(rows: seq<Feed>, clauses: seq<string>) {
    forall clause :: clause in clauses ==> ClauseOk(rows, clause)
  }

  lemma {:induction false} IdsAcceptedIff(feeds: seq<Feed>, code: string, tokens: seq<string>, wanted: set<u8>)
    ensures StrictIds(feeds, code, tokens, wanted).Ok? <==> forall token :: token in tokens ==> TokenOk(feeds, token)
    ensures StrictIds(feeds, code, tokens, wanted).Ok? ==>
              (StrictIds(feeds, code, tokens, wanted).value == {}
               <==> wanted == {} && forall token :: token in tokens ==> Blank(token))
    decreases |tokens|
  {
    hide Trim, PublishedSet;
    if tokens != [] {
      var id := ParseUnsigned(Trim(tokens[0]), U8_MAX);
      if id.Some? && id.value <= U8_MAX {
        NoneWithout(feeds, id.value);
      }
      var step := StrictId(feeds, code, tokens[0], wanted);
      assert step.Ok? <==> TokenOk(feeds, tokens[0]);
      assert tokens == [tokens[0]] + tokens[1..];
      if step.Ok? {
        assert id.Some? && !Blank(tokens[0]) ==> id.value in step.value;
        assert step.value == {} <==> wanted == {} && Blank(tokens[0]);
        IdsAcceptedIff(feeds, code, tokens[1..], step.value);
      }
    }
  }

  lemma {:induction false} NoFlat(feeds: seq<Feed>)
    ensures FirstFlat(feeds).None? <==> forall f :: f in feeds ==> PublishedSet(f) != {}
  {
    hide PublishedSet;
    if feeds != [] {
      NoFlat(feeds[1..]);
      assert feeds == [feeds[0]] + feeds[1..];
    }
  }

  lemma StepAcceptedIff(rows: seq<Feed>, clause: string, f: Filter)
    ensures StrictStep(rows, clause, f).Ok?
            <==> ClauseOk(rows, clause) && (CodeOf(clause).Some? ==> CodeOf(clause).value !in f)
    ensures StrictStep(rows, clause, f).Ok? ==>
              StrictStep(rows, clause, f).value.Keys
              == f.Keys + if CodeOf(clause).Some? then {CodeOf(clause).value} else {}
  {
    hide Trim, Split, StrictIds, FirstFlat, AllPublished, PublishedSet, Matching, TokenOk;
    var text := Trim(clause);
    if text != "" && SplitOnce(text, '=').Some? {
      var parts := SplitOnce(text, '=').value;
      var feeds := Matching(rows, Trim(parts.0));
      NoFlat(feeds);
      IdsAcceptedIff(feeds, Trim(parts.0), Split(parts.1, ','), {});
    }
  }

  lemma NoRepeatStep(clauses: seq<string>, f: Filter, g: Filter)
    requires clauses != []
    requires g.Keys == f.Keys + if CodeOf(clauses[0]).Some? then {CodeOf(clauses[0]).value} else {}
    requires CodeOf(clauses[0]).Some? ==> CodeOf(clauses[0]).value !in f
    ensures NoRepeat(clauses, f) <==> NoRepeat(clauses[1..], g)
  {
    hide CodeOf;
    var tail := clauses[1..];
    assert forall i :: 0 <= i < |tail| ==> tail[i] == clauses[i + 1];
    if NoRepeat(clauses, f) {
      forall i | 0 <= i < |tail| && CodeOf(tail[i]).Some?
        ensures CodeOf(tail[i]).value !in g
      {
        assert CodeOf(clauses[i + 1]).value !in f;
        assert CodeOf(clauses[0]).Some? ==> CodeOf(clauses[0]) != CodeOf(clauses[i + 1]);
      }
    }
    if NoRepeat(tail, g) {
      forall i, j | 0 <= i < j < |clauses| && CodeOf(clauses[i]).Some?
        ensures CodeOf(clauses[i]) != CodeOf(clauses[j])
      {
        if i > 0 {
          assert CodeOf(tail[i - 1]) != CodeOf(tail[j - 1]);
        } else {
          assert CodeOf(tail[j - 1]).Some? ==> CodeOf(tail[j - 1]).value !in g;
        }
      }
      forall i | 0 <= i < |clauses| && CodeOf(clauses[i]).Some?
        ensures CodeOf(clauses[i]).value !in f
      {
        if i > 0 {
          assert CodeOf(tail[i - 1]).value !in g;
        }
      }
    }
  }

  lemma {:induction false} ClausesAcceptedIff(rows: seq<Feed>, clauses: seq<string>, f: Filter)
    ensures StrictClauses(rows, clauses, f).Ok? <==> AllOk(rows, clauses) && NoRepeat(clauses, f)
    decreases |clauses|
  {
    hide StrictStep, ClauseOk, CodeOf;
    if clauses != [] {
      StepAcceptedIff(rows, clauses[0], f);
      assert clauses == [clauses[0]] + clauses[1..];
      if StrictStep(rows, clauses[0], f).Ok? {
        var g := StrictStep(rows, clauses[0], f).value;
        NoRepeatStep(clauses, f, g);
        ClausesAcceptedIff(rows, clauses[1..], g);
      } else {
        assert clauses[0] in clauses;
      }
    }
  }

  /** A spec is accepted exactly when every clause is well formed for the feeds and no code repeats. */
  lemma AcceptedIff(rows: seq<Feed>, spec: string)
    ensures Parsed(rows, spec).Ok? <==> AllOk(rows, Split(spec, ';')) && NoRepeat(Split(spec, ';'), map[])
  {
    ClausesAcceptedIff(rows, Split(spec, ';'), map[]);
  }
}
