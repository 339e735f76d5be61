/**
 Product ids print and parse back. Uppercasing is the caller's: the parser is given the function, and
 the laws hold for any.
 */
module Products {
  import opened Wrappers
  import opened Text

  const U8_MAX: nat := 255
  const U32_MAX: nat := 0xffff_ffff

  type u8 = x: nat | x <= U8_MAX
  type u32 = x: nat | x <= U32_MAX

  /** What of a market's identity its id shows. */
  datatype ProductId = ProductId(source: string, symbol: string, channel: u8, instrument: u32)

  datatype ParsedId = ParsedId(source: string, symbol: string, identity: Option<(u8, u32)>)

  function Suffix(p: ProductId): string {
    Decimal(p.channel) + "." + Decimal(p.instrument)
  }

  function Render(p: ProductId, ambiguous: bool): string {
    if ambiguous then p.source + ":" + (p.symbol + "#" + Suffix(p)) else p.source + ":" + p.symbol
  }

  function ParseIdentity(s: string): Option<(u8, u32)> {
    match SplitOnce(s, '.')
    case None => None
    case Some((channel, instrument)) =>
      var c, i := ParseUnsigned(channel, U8_MAX), ParseUnsigned(instrument, U32_MAX);
      if c.Some? && i.Some? then Some((c.value, i.value)) else None
  }

  function Parse(upper: string -> string, s: string): Option<ParsedId> {
    match SplitOnce(s, ':')
    case None => None
    case Some((source, rest)) =>
      if source == "" || rest == "" then None
      else
        match SplitLast(rest, '#')
        case None => Some(ParsedId(upper(source), rest, None))
        case Some((symbol, suffix)) =>
          var identity := ParseIdentity(suffix);
          if identity.None? || symbol == "" then None else Some(ParsedId(upper(source), symbol, identity))
  }

  lemma IdentityPrintsAndParses(p: ProductId)
    ensures ParseIdentity(Suffix(p)) == Some((p.channel, p.instrument))
    ensures '#' !in Suffix(p)
  {
    var c, i := Decimal(p.channel), Decimal(p.instrument);
    assert '.' !in c && '#' !in c && '#' !in i by {
      assert AllDigits(c) && AllDigits(i);
    }
    assert Suffix(p) == c + ['.'] + i;
    SplitOnceJoined(c, '.', i);
    ParseOfDecimal(p.channel, U8_MAX);
    ParseOfDecimal(p.instrument, U32_MAX);
  }

  /** The suffixed id of a named market parses back to exactly it, whatever its symbol holds: `:`, `#`
      and `.` included. Only an empty symbol does not survive. */
  lemma SuffixedPrintsAndParses(upper: string -> string, p: ProductId)
    requires p.source != "" && ':' !in p.source
    ensures Parse(upper, Render(p, true)) ==
              if p.symbol == "" then None
              else Some(ParsedId(upper(p.source), p.symbol, Some((p.channel, p.instrument))))
  {
    var rest := p.symbol + ['#'] + Suffix(p);
    assert Render(p, true) == p.source + [':'] + rest;
    SplitOnceJoined(p.source, ':', rest);
    IdentityPrintsAndParses(p);
    SplitLastJoined(p.symbol, '#', Suffix(p));
  }

  /** The bare id parses back exactly when the symbol is not empty and holds no `#`. */
  lemma BarePrintsAndParsesIff(upper: string -> string, p: ProductId)
    requires p.source != "" && ':' !in p.source
    ensures Parse(upper, Render(p, false)) == Some(ParsedId(upper(p.source), p.symbol, None))
            <==> p.symbol != "" && '#' !in p.symbol
  {
    assert Render(p, false) == p.source + [':'] + p.symbol;
    SplitOnceJoined(p.source, ':', p.symbol);
    var i := Last(p.symbol, '#');
    assert i < |p.symbol| ==> p.symbol[i] in p.symbol;
  }

  /** The suffix writes out the channel, a dot and the instrument. */
  ghost predicate SpellsIdentity(suffix: string, identity: (u8, u32)) {
    exists channel, instrument ::
      Writes(channel, identity.0) && Writes(instrument, identity.1) && suffix == channel + ['.'] + instrument
  }

  /** What follows the source: a symbol without `#`, or any symbol, a `#` and the identity written out. */
  ghost predicate SpellsRest(rest: string, p: ParsedId) {
    p.symbol != "" &&
    match p.identity
    case None => '#' !in p.symbol && rest == p.symbol
    case Some(identity) => exists suffix :: SpellsIdentity(suffix, identity) && rest == p.symbol + ['#'] + suffix
  }

  ghost predicate Spells(upper: string -> string, s: string, p: ParsedId) {
    exists source, rest ::
      && source != "" && ':' !in source && p.source == upper(source)
      && SpellsRest(rest, p) && s == source + [':'] + rest
  }

  lemma WrittenIsPlain(s: string, n: nat)
    requires Writes(s, n)
    ensures '.' !in s && '#' !in s
  {
    var zeros :| AllZeros(zeros) && (s == zeros + Decimal(n) || s == ['+'] + (zeros + Decimal(n)));
    assert AllDigits(Decimal(n));
    forall c | c in s
      ensures c == '+' || IsDigit(c)
    {}
  }

  lemma IdentityIff(suffix: string, identity: (u8, u32))
    ensures ParseIdentity(suffix) == Some(identity) <==> SpellsIdentity(suffix, identity)
    ensures SpellsIdentity(suffix, identity) ==> '#' !in suffix
  {
    hide Writes, ParseUnsigned, SplitOnce;
    if ParseIdentity(suffix) == Some(identity) {
      var (channel, instrument) := SplitOnce(suffix, '.').value;
      SplitOnceIff(suffix, '.', channel, instrument);
      ParsesIff(channel, U8_MAX, identity.0);
      ParsesIff(instrument, U32_MAX, identity.1);
    }
    if SpellsIdentity(suffix, identity) {
      var channel, instrument :|
        Writes(channel, identity.0) && Writes(instrument, identity.1) && suffix == channel + ['.'] + instrument;
      WrittenIsPlain(channel, identity.0);
      WrittenIsPlain(instrument, identity.1);
      SplitOnceIff(suffix, '.', channel, instrument);
      ParsesIff(channel, U8_MAX, identity.0);
      ParsesIff(instrument, U32_MAX, identity.1);
    }
  }

  /** What the parser makes of what follows the source. */
  function ParseRest(source: string, rest: string): Option<ParsedId> {
    match SplitLast(rest, '#')
    case None => if rest == "" then None else Some(ParsedId(source, rest, None))
    case Some((symbol, suffix)) =>
      var identity := ParseIdentity(suffix);
      if identity.None? || symbol == "" then None else Some(ParsedId(source, symbol, identity))
  }

  lemma RestIff(source: string, rest: string, p: ParsedId)
    ensures ParseRest(source, rest) == Some(p) <==> p.source == source && SpellsRest(rest, p)
  {
    hide ParseIdentity, SpellsIdentity, SplitLast;
    SplitLastIff(rest, '#', "", "");
    if SplitLast(rest, '#').Some? {
      var (symbol, suffix) := SplitLast(rest, '#').value;
      SplitLastIff(rest, '#', symbol, suffix);
      if ParseIdentity(suffix).Some? {
        IdentityIff(suffix, ParseIdentity(suffix).value);
      }
    }
    if p.identity.Some? && SpellsRest(rest, p) {
      var suffix :| SpellsIdentity(suffix, p.identity.value) && rest == p.symbol + ['#'] + suffix;
      IdentityIff(suffix, p.identity.value);
      SplitLastIff(rest, '#', p.symbol, suffix);
    }
  }

  lemma ParseIsRest(upper: string -> string, s: string, source: string, rest: string)
    requires SplitOnce(s, ':') == Some((source, rest))
    ensures Parse(upper, s) == if source == "" then None else ParseRest(upper(source), rest)
  {
    hide ParseIdentity;
    if rest == "" {
      assert Last(rest, '#') == 0;
    }
  }

  /** A text parses as an id if and only if it spells that id: a source without `:`, a symbol, and either no `#` at all
      or an identity written out after the last one. Everything else is refused. */
  lemma IdParsesIff(upper: string -> string, s: string, p: ParsedId)
    ensures Parse(upper, s) == Some(p) <==> Spells(upper, s, p)
  {
    hide ParseRest, SpellsRest, SplitOnce, Parse;
    SplitOnceIff(s, ':', "", "");
    if SplitOnce(s, ':').Some? {
      var (source, rest) := SplitOnce(s, ':').value;
      SplitOnceIff(s, ':', source, rest);
      ParseIsRest(upper, s, source, rest);
      RestIff(upper(source), rest, p);
    } else {
      ParseNeedsSource(upper, s);
    }
    if Spells(upper, s, p) {
      var source, rest :|
        && source != "" && ':' !in source && p.source == upper(source)
        && SpellsRest(rest, p) && s == source + [':'] + rest;
      SplitOnceIff(s, ':', source, rest);
    }
  }

  lemma ParseNeedsSource(upper: string -> string, s: string)
    requires SplitOnce(s, ':').None?
    ensures Parse(upper, s).None?
  {}

  /** Two markets with one suffixed id are one market. */
  lemma SuffixedIdsAreDistinct(p: ProductId, q: ProductId)
    requires p.source != "" && ':' !in p.source && p.symbol != ""
    requires q.source != "" && ':' !in q.source && q.symbol != ""
    ensures Render(p, true) == Render(q, true) <==> p == q
  {
    var same: string -> string := s => s;
    SuffixedPrintsAndParses(same, p);
    SuffixedPrintsAndParses(same, q);
  }

  // ---- the candidates an ambiguous id names ----

  /** A market the id matched; its universe and Source ID are not part of the id. */
  datatype Hit = Hit(id: ProductId, sourceId: nat, category: string)

  predicate Matches(h: Hit, id: string, category: Option<string>) {
    Render(h.id, true) == id && (category.None? || h.category == category.value)
  }

  function Count(hits: seq<Hit>, id: string, category: Option<string>): nat
    decreases |hits|
  {
    if hits == [] then 0
    else Count(hits[..|hits| - 1], id, category) + if Matches(hits[|hits| - 1], id, category) then 1 else 0
  }

  function CategoryNote(h: Hit): string {
    " (category: " + h.category + ")"
  }

  function SourceNote(h: Hit): string {
    " (category: " + (h.category + (", source_id: " + Decimal(h.sourceId))) + ")"
  }

  /** What the list adds to the id: nothing if the id is unique in it, else the category, and the Source
      ID too where the category is shared. */
  function Note(hits: seq<Hit>, h: Hit): string {
    var id := Render(h.id, true);
    if Count(hits, id, None) <= 1 then ""
    else if Count(hits, id, Some(h.category)) > 1 then SourceNote(h)
    else CategoryNote(h)
  }

  function RenderAmbiguous(hits: seq<Hit>): (labels: seq<string>)
    ensures |labels| == |hits|
  {
    seq(|hits|, i requires 0 <= i < |hits| => Render(hits[i].id, true) + Note(hits, hits[i]))
  }

  /** What the list is built from: the markets of one symbol, each once. */
  predicate Candidates(hits: seq<Hit>) {
    && (forall i :: 0 <= i < |hits| ==> hits[i].id.source != "" && ':' !in hits[i].id.source)
    && (forall i, j :: 0 <= i < j < |hits| ==> hits[i] != hits[j] && hits[i].id.symbol == hits[j].id.symbol)
  }

  /** No other candidate has both its id and its category. */
  predicate Alone(hits: seq<Hit>, i: nat)
    requires i < |hits|
  {
    forall j :: 0 <= j < |hits| && j != i ==> hits[j].id != hits[i].id || hits[j].category != hits[i].category
  }

  /** A category that spells out another's category and Source ID. */
  predicate Mimics(hits: seq<Hit>, i: nat, j: nat)
    requires i < |hits| && j < |hits|
  {
    && hits[i].id == hits[j].id && Alone(hits, i) && !Alone(hits, j)
    && hits[i].category == hits[j].category + (", source_id: " + Decimal(hits[j].sourceId))
  }

  lemma {:induction false} CountOne(hits: seq<Hit>, id: string, category: Option<string>, i: nat)
    requires i < |hits| && Matches(hits[i], id, category)
    ensures Count(hits, id, category) >= 1
    decreases |hits|
  {
    if i < |hits| - 1 {
      CountOne(hits[..|hits| - 1], id, category, i);
    }
  }

  lemma {:induction false} CountTwo(hits: seq<Hit>, id: string, category: Option<string>, i: nat, j: nat)
    requires i < j < |hits| && Matches(hits[i], id, category) && Matches(hits[j], id, category)
    ensures Count(hits, id, category) > 1
    decreases |hits|
  {
    var front := hits[..|hits| - 1];
    if j < |front| {
      CountTwo(front, id, category, i, j);
    } else {
      CountOne(front, id, category, i);
    }
  }

  lemma {:induction false} Counted(hits: seq<Hit>, id: string, category: Option<string>) returns (i: nat)
    requires Count(hits, id, category) >= 1
    ensures i < |hits| && Matches(hits[i], id, category)
    decreases |hits|
  {
    i := |hits| - 1;
    if !Matches(hits[i], id, category) {
      i := Counted(hits[..|hits| - 1], id, category);
    }
  }

  lemma {:induction false} CountedTwice(hits: seq<Hit>, id: string, category: Option<string>) returns (i: nat, j: nat)
    requires Count(hits, id, category) > 1
    ensures i < j < |hits| && Matches(hits[i], id, category) && Matches(hits[j], id, category)
    decreases |hits|
  {
    var front := hits[..|hits| - 1];
    if Matches(hits[|hits| - 1], id, category) {
      j := |hits| - 1;
      i := Counted(front, id, category);
    } else {
      i, j := CountedTwice(front, id, category);
    }
  }

  /** Within candidates, two ids print alike only if they are one. */
  lemma CandidateIds(hits: seq<Hit>, i: nat, j: nat)
    requires Candidates(hits) && i < |hits| && j < |hits|
    ensures Render(hits[i].id, true) == Render(hits[j].id, true) <==> hits[i].id == hits[j].id
  {
    hide Render;
    if Render(hits[i].id, true) == Render(hits[j].id, true) {
      SameHead(hits[i].id, "", hits[j].id, "");
    }
  }

  /** Whether the Source ID is named: exactly when another candidate shares id and category. */
  lemma SharedIff(hits: seq<Hit>, i: nat)
    requires Candidates(hits) && i < |hits|
    ensures Count(hits, Render(hits[i].id, true), Some(hits[i].category)) > 1 <==> !Alone(hits, i)
  {
    hide Render, Count;
    var id, category := Render(hits[i].id, true), Some(hits[i].category);
    if Count(hits, id, category) > 1 {
      var x, y := CountedTwice(hits, id, category);
      var j := if x == i then y else x;
      CandidateIds(hits, i, j);
    }
    if !Alone(hits, i) {
      var j :| 0 <= j < |hits| && j != i && hits[j].id == hits[i].id && hits[j].category == hits[i].category;
      CountTwo(hits, id, category, if i < j then i else j, if i < j then j else i);
    }
  }

  // ---- reading an id back off its label ----

  predicate IsNote(s: string) {
    s == "" || s[0] == ' '
  }

  lemma DigitsEndAtNote(x: string, m: string)
    requires AllDigits(x) && IsNote(m)
    ensures First(x + m, ' ') == |x|
  {
    var s := x + m;
    var i := First(s, ' ');
    assert forall k :: 0 <= k < |x| ==> s[k] == x[k];
    assert forall k :: 0 <= k < i ==> s[k] == s[..i][k];
    assert m != "" ==> s[|x|] == m[0];
  }

  lemma DigitsThenNote(x: string, m: string, y: string, n: string)
    requires AllDigits(x) && AllDigits(y) && IsNote(m) && IsNote(n) && x + m == y + n
    ensures x == y && m == n
  {
    DigitsEndAtNote(x, m);
    DigitsEndAtNote(y, n);
    var s := x + m;
    assert s[..|x|] == x && s[|x|..] == m && s[..|y|] == y && s[|y|..] == n;
  }

  lemma SameDecimal(m: nat, n: nat)
    requires Decimal(m) == Decimal(n)
    ensures m == n
  {
    ValueOfDecimal(m);
    ValueOfDecimal(n);
  }

  lemma SameTail(p: ProductId, m: string, q: ProductId, n: string)
    requires IsNote(m) && IsNote(n) && Suffix(p) + m == Suffix(q) + n
    ensures p.channel == q.channel && p.instrument == q.instrument && m == n
  {
    var c, d, i, j := Decimal(p.channel), Decimal(q.channel), Decimal(p.instrument), Decimal(q.instrument);
    assert '.' !in c && '.' !in d by {
      assert AllDigits(c) && AllDigits(d);
    }
    assert Suffix(p) + m == c + ['.'] + (i + m);
    assert Suffix(q) + n == d + ['.'] + (j + n);
    SplitOnceJoined(c, '.', i + m);
    SplitOnceJoined(d, '.', j + n);
    DigitsThenNote(i, m, j, n);
    SameDecimal(p.channel, q.channel);
    SameDecimal(p.instrument, q.instrument);
  }

  /** A label after its source. */
  function Rest(p: ProductId, m: string): string {
    p.symbol + ['#'] + (Suffix(p) + m)
  }

  lemma LabelSplits(p: ProductId, m: string)
    requires ':' !in p.source
    ensures SplitOnce(Render(p, true) + m, ':') == Some((p.source, Rest(p, m)))
  {
    hide Suffix, SplitOnce;
    assert Render(p, true) + m == p.source + [':'] + Rest(p, m);
    SplitOnceJoined(p.source, ':', Rest(p, m));
  }

  lemma RestEnds(p: ProductId, m: string)
    ensures Rest(p, m)[|p.symbol| + 1..] == Suffix(p) + m
  {
    hide Suffix;
  }

  lemma SameHead(p: ProductId, m: string, q: ProductId, n: string)
    requires ':' !in p.source && ':' !in q.source && p.symbol == q.symbol
    requires IsNote(m) && IsNote(n) && Render(p, true) + m == Render(q, true) + n
    ensures p == q && m == n
  {
    hide Suffix, SplitOnce, Render, Rest, IsNote;
    LabelSplits(p, m);
    LabelSplits(q, n);
    RestEnds(p, m);
    RestEnds(q, n);
    SameTail(p, m, q, n);
  }

  // ---- the labels ----

  lemma SameCategoryNote(x: string, y: string)
    requires " (category: " + x + ")" == " (category: " + y + ")"
    ensures x == y
  {
    var open := " (category: ";
    var s := open + x + ")";
    assert s[|open|..|s| - 1] == x && s[|open|..|s| - 1] == y;
  }

  lemma SameSourceNote(x: string, m: nat, y: string, n: nat)
    requires x + (", source_id: " + Decimal(m)) == y + (", source_id: " + Decimal(n))
    ensures x == y && m == n
  {
    var d, e := Decimal(m), Decimal(n);
    assert ' ' !in d && ' ' !in e by {
      assert AllDigits(d) && AllDigits(e);
    }
    assert x + (", source_id: " + d) == (x + ", source_id:") + [' '] + d;
    assert y + (", source_id: " + e) == (y + ", source_id:") + [' '] + e;
    SplitLastJoined(x + ", source_id:", ' ', d);
    SplitLastJoined(y + ", source_id:", ' ', e);
    SameDecimal(m, n);
    assert (x + ", source_id:")[..|x|] == x && (y + ", source_id:")[..|y|] == y;
  }

  lemma NotesAreNotes(hits: seq<Hit>, h: Hit)
    ensures IsNote(Note(hits, h))
  {}

  /** The note of a candidate whose id another has too. */
  lemma NoteOfTwin(hits: seq<Hit>, i: nat, j: nat)
    requires Candidates(hits) && i < |hits| && j < |hits| && i != j && hits[i].id == hits[j].id
    ensures Note(hits, hits[i]) == if Alone(hits, i) then CategoryNote(hits[i]) else SourceNote(hits[i])
  {
    hide Render, Count, Alone, CategoryNote, SourceNote;
    CountTwo(hits, Render(hits[i].id, true), None, if i < j then i else j, if i < j then j else i);
    SharedIff(hits, i);
  }

  lemma SameLabelIff(hits: seq<Hit>, i: nat, j: nat)
    requires Candidates(hits) && i < |hits| && j < |hits| && i != j
    ensures RenderAmbiguous(hits)[i] == RenderAmbiguous(hits)[j] <==> Mimics(hits, i, j) || Mimics(hits, j, i)
  {
    hide Render, Note, Count;
    var p, q := hits[i], hits[j];
    if RenderAmbiguous(hits)[i] == RenderAmbiguous(hits)[j] {
      NotesAreNotes(hits, p);
      NotesAreNotes(hits, q);
      SameHead(p.id, Note(hits, p), q.id, Note(hits, q));
    }
    if p.id == q.id {
      NoteOfTwin(hits, i, j);
      NoteOfTwin(hits, j, i);
      TwinNotes(hits, i, j);
    }
  }

  lemma TwinNotes(hits: seq<Hit>, i: nat, j: nat)
    requires Candidates(hits) && i < |hits| && j < |hits| && i != j && hits[i].id == hits[j].id
    ensures var m := if Alone(hits, i) then CategoryNote(hits[i]) else SourceNote(hits[i]);
            var n := if Alone(hits, j) then CategoryNote(hits[j]) else SourceNote(hits[j]);
            m == n <==> Mimics(hits, i, j) || Mimics(hits, j, i)
  {
    hide Decimal;
    var p, q := hits[i], hits[j];
    var x := if Alone(hits, i) then p.category else p.category + (", source_id: " + Decimal(p.sourceId));
    var y := if Alone(hits, j) then q.category else q.category + (", source_id: " + Decimal(q.sourceId));
    if " (category: " + x + ")" == " (category: " + y + ")" {
      SameCategoryNote(x, y);
      if !Alone(hits, i) && !Alone(hits, j) {
        SameSourceNote(p.category, p.sourceId, q.category, q.sourceId);
      }
    }
  }

  /** The list names every candidate differently exactly when no category spells out another candidate's
      category and Source ID. */
  lemma AmbiguousListIsDistinctIff(hits: seq<Hit>)
    requires Candidates(hits)
    ensures (forall i, j :: 0 <= i < j < |hits| ==> RenderAmbiguous(hits)[i] != RenderAmbiguous(hits)[j])
            <==> (forall i, j :: 0 <= i < |hits| && 0 <= j < |hits| && i != j ==> !Mimics(hits, i, j))
  {
    hide RenderAmbiguous, Mimics;
    forall i, j | 0 <= i < |hits| && 0 <= j < |hits| && i != j
      ensures RenderAmbiguous(hits)[i] == RenderAmbiguous(hits)[j] <==> Mimics(hits, i, j) || Mimics(hits, j, i)
    {
      SameLabelIff(hits, i, j);
    }
  }

  lemma OneInDecimal()
    ensures Decimal(1) == "1"
  {}

  /** Two of three markets named alike: the third's category reads as the first's category and Source ID. */
  lemma AmbiguousListCanRepeat(id: ProductId)
    requires id.source != "" && ':' !in id.source
    ensures var hits := [Hit(id, 1, "perps"), Hit(id, 2, "perps"), Hit(id, 3, "perps, source_id: 1")];
            Candidates(hits) && RenderAmbiguous(hits)[0] == RenderAmbiguous(hits)[2]
  {
    hide RenderAmbiguous, Render, Decimal;
    var hits := [Hit(id, 1, "perps"), Hit(id, 2, "perps"), Hit(id, 3, "perps, source_id: 1")];
    assert |hits[0].category| != |hits[2].category|;
    assert Candidates(hits);
    OneInDecimal();
    assert hits[2].category == hits[0].category + (", source_id: " + Decimal(hits[0].sourceId));
    assert !Alone(hits, 0) by {
      assert hits[1].id == hits[0].id && hits[1].category == hits[0].category;
    }
    assert Alone(hits, 2);
    SameLabelIff(hits, 2, 0);
  }
}
