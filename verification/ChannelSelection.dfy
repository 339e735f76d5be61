/**
 What a filter spec says, read off its text: which channels of which codes it selects, for the server and for the
 client's preview, and why the server refuses the ones it refuses.
 */
module ChannelSelections {
  import opened Wrappers
  import opened Text
  import opened ChannelFilters

  /** The id tokens of a clause that has any. */
  function TokensOf(clause: string): seq<string> {
    match SplitOnce(Trim(clause), '=')
    case None => []
    case Some((_, ids)) => Split(ids, ',')
  }

  /** A token of the clause writes this id. */
  ghost predicate Lists(clause: string, max: nat, id: nat) {
    exists token :: token in TokensOf(clause) && ParseUnsigned(Trim(token), max) == Some(id)
  }

  /** The clause is about the code and lists the id. */
  ghost predicate Selects(clause: string, code: string, max: nat, id: nat) {
    CodeOf(clause) == Some(code) && Lists(clause, max, id)
  }

  /** What the laws of `Text` make of a clause: with the white at its ends taken off it is `name = ids`, and among the
      comma-separated pieces of `ids` is one that, with the white at its own ends taken off, writes the number. */
  ghost predicate Reads(clause: string, code: string, max: nat, id: nat) {
    exists name, ids, pieces, token ::
      && IsCore(clause, name + ['='] + ids) && '=' !in name && IsCore(name, code)
      && Splits(ids, ',', pieces) && token in pieces && IsWritten(token, max, id)
  }

  ghost predicate IsCore(s: string, core: string) {
    exists lead, tail :: Trims(s, lead, core, tail)
  }

  ghost predicate IsWritten(token: string, max: nat, id: nat) {
    exists core :: IsCore(token, core) && id <= max && Writes(core, id)
  }

  lemma IsCoreIff(s: string, core: string)
    ensures IsCore(s, core) <==> core == Trim(s)
  {
    hide Trim, Trims;
    TrimIff(s, core);
  }

  lemma IsWrittenIff(token: string, max: nat, id: nat)
    ensures IsWritten(token, max, id) <==> ParseUnsigned(Trim(token), max) == Some(id)
  {
    hide Trim, IsCore, Writes, ParseUnsigned;
    IsCoreIff(token, Trim(token));
    ParsesIff(Trim(token), max, id);
    if IsWritten(token, max, id) {
      var core :| IsCore(token, core) && id <= max && Writes(core, id);
      IsCoreIff(token, core);
    }
  }

  /** So selecting is said of the text alone. */
  lemma SelectsIff(clause: string, code: string, max: nat, id: nat)
    ensures Selects(clause, code, max, id) <==> Reads(clause, code, max, id)
  {
    hide Trim, IsCore, Splits, ParseUnsigned, IsWritten, SplitOnce, Split;
    var text := Trim(clause);
    IsCoreIff(clause, text);
    forall token: string
      ensures IsWritten(token, max, id) <==> ParseUnsigned(Trim(token), max) == Some(id)
    {
      IsWrittenIff(token, max, id);
    }
    if Selects(clause, code, max, id) {
      var (name, ids) := SplitOnce(text, '=').value;
      SplitOnceIff(text, '=', name, ids);
      IsCoreIff(name, code);
      SplitIff(ids, ',', Split(ids, ','));
      var token :| token in TokensOf(clause) && ParseUnsigned(Trim(token), max) == Some(id);
      assert IsWritten(token, max, id);
    }
    if Reads(clause, code, max, id) {
      ReadsSelects(clause, code, max, id);
    }
  }

  lemma ReadsSelects(clause: string, code: string, max: nat, id: nat)
    requires Reads(clause, code, max, id)
    ensures Selects(clause, code, max, id)
  {
    hide Trim, IsCore, Splits, ParseUnsigned, IsWritten, SplitOnce, Split;
    var name, ids, pieces, token :|
      && IsCore(clause, name + ['='] + ids) && '=' !in name && IsCore(name, code)
      && Splits(ids, ',', pieces) && token in pieces && IsWritten(token, max, id);
    IsCoreIff(clause, name + ['='] + ids);
    IsCoreIff(name, code);
    SplitOnceIff(Trim(clause), '=', name, ids);
    SplitIff(ids, ',', pieces);
    IsWrittenIff(token, max, id);
    assert Trim(clause) != "";
  }

  // ---- the server's selection ----

  /** Every channel that a feed carrying the code was derived over. */
  ghost function PublishedUnder(rows: seq<Feed>, code: string): set<u8> {
    set f, id | f in rows && f.code == code && id in PublishedSet(f) :: id
  }

  lemma {:induction false} AllPublishedIs(feeds: seq<Feed>)
    ensures forall id :: id in AllPublished(feeds) <==> exists f :: f in feeds && id in PublishedSet(f)
  {
    hide PublishedSet;
    if feeds != [] {
      AllPublishedIs(feeds[1..]);
      assert feeds == [feeds[0]] + feeds[1..];
    }
  }

  lemma PublishedUnderIs(rows: seq<Feed>, code: string)
    ensures PublishedUnder(rows, code) == AllPublished(Matching(rows, code))
  {
    hide PublishedSet, AllPublished, Matching;
    MatchingIs(rows, code);
    AllPublishedIs(Matching(rows, code));
  }

  /** The selection a step adds: the code's, with what the clause lists and how many there were to list. */
  ghost predicate Adds(rows: seq<Feed>, clause: string, f: Filter, g: Filter) {
    match CodeOf(clause)
    case None => g == f
    case Some(code) =>
      && code in g && (forall other :: other != code ==> (other in g <==> other in f) && (other in f ==> g[other] == f[other]))
      && (forall id: u8 :: id in g[code].ids <==> Lists(clause, U8_MAX, id))
      && g[code].publishedSize == |PublishedUnder(rows, code)|
  }

  lemma {:induction false} IdsAre(feeds: seq<Feed>, code: string, tokens: seq<string>, wanted: set<u8>, id: u8)
    requires StrictIds(feeds, code, tokens, wanted).Ok?
    ensures id in StrictIds(feeds, code, tokens, wanted).value
            <==> id in wanted || exists token :: token in tokens && ParseUnsigned(Trim(token), U8_MAX) == Some(id)
    decreases |tokens|
  {
    hide Trim, FirstWithout, ParseUnsigned;
    if tokens != [] {
      assert tokens == [tokens[0]] + tokens[1..];
      var step := StrictId(feeds, code, tokens[0], wanted).value;
      assert id in step <==> id in wanted || ParseUnsigned(Trim(tokens[0]), U8_MAX) == Some(id) by {
        BlankWritesNothing();
      }
      IdsAre(feeds, code, tokens[1..], step, id);
    }
  }

  lemma BlankWritesNothing()
    ensures ParseUnsigned("", U8_MAX) == None && ParseUnsigned("", U64_MAX) == None
  {}

  lemma StepAdds(rows: seq<Feed>, clause: string, f: Filter)
    requires StrictStep(rows, clause, f).Ok?
    ensures Adds(rows, clause, f, StrictStep(rows, clause, f).value)
  {
    hide Trim, Split, StrictIds, PublishedSet, FirstFlat, AllPublished, Matching, PublishedUnder, ParseUnsigned;
    var text := Trim(clause);
    if text != "" {
      var (name, ids) := SplitOnce(text, '=').value;
      var code := Trim(name);
      var feeds := Matching(rows, code);
      PublishedUnderIs(rows, code);
      forall id: u8
        ensures id in StrictIds(feeds, code, Split(ids, ','), {}).value <==> Lists(clause, U8_MAX, id)
      {
        IdsAre(feeds, code, Split(ids, ','), {}, id);
      }
    }
  }

  /** Some clause selects the id of the code. */
  ghost predicate SelectedBy(clauses: seq<string>, code: string, id: u8) {
    exists clause :: clause in clauses && Selects(clause, code, U8_MAX, id)
  }

  ghost predicate MentionedBy(clauses: seq<string>, code: string) {
    exists clause :: clause in clauses && CodeOf(clause) == Some(code)
  }

  lemma MentionedHead(clauses: seq<string>, code: string)
    requires clauses != []
    ensures MentionedBy(clauses, code) <==> CodeOf(clauses[0]) == Some(code) || MentionedBy(clauses[1..], code)
  {
    hide CodeOf;
    assert clauses == [clauses[0]] + clauses[1..];
  }

  lemma SelectedHead(clauses: seq<string>, code: string, id: u8)
    requires clauses != []
    ensures SelectedBy(clauses, code, id) <==> Selects(clauses[0], code, U8_MAX, id) || SelectedBy(clauses[1..], code, id)
  {
    hide Selects;
    assert clauses == [clauses[0]] + clauses[1..];
  }

  lemma SelectedIsMentioned(clauses: seq<string>, code: string, id: u8)
    requires SelectedBy(clauses, code, id)
    ensures MentionedBy(clauses, code)
  {
    hide Lists, CodeOf;
    var clause :| clause in clauses && Selects(clause, code, U8_MAX, id);
  }

  lemma NotRepeated(clauses: seq<string>, f: Filter, code: string)
    requires NoRepeat(clauses, f) && MentionedBy(clauses, code)
    ensures code !in f
  {
    hide CodeOf;
    var clause :| clause in clauses && CodeOf(clause) == Some(code);
    var i :| 0 <= i < |clauses| && clauses[i] == clause;
    assert CodeOf(clauses[i]).Some?;
  }

  lemma {:induction false} ClausesSelect(rows: seq<Feed>, clauses: seq<string>, f: Filter, code: string)
    requires StrictClauses(rows, clauses, f).Ok?
    ensures var g := StrictClauses(rows, clauses, f).value;
            && (code in g <==> code in f || MentionedBy(clauses, code))
            && (code in f ==> !MentionedBy(clauses, code) && g[code] == f[code])
            && (code !in f && code in g ==> (forall id: u8 :: id in g[code].ids <==> SelectedBy(clauses, code, id))
                                             && g[code].publishedSize == |PublishedUnder(rows, code)|)
    decreases |clauses|
  {
    hide StrictStep, CodeOf, Lists, Selects, PublishedUnder, SelectedBy, MentionedBy;
    NoneMentioned(code);
    if clauses != [] {
      var head, tail := clauses[0], clauses[1..];
      var step := StrictStep(rows, head, f).value;
      StepAdds(rows, head, f);
      ClausesSelect(rows, tail, step, code);
      MentionedHead(clauses, code);
      ClausesAcceptedIff(rows, clauses, f);
      if MentionedBy(clauses, code) {
        NotRepeated(clauses, f, code);
      }
      forall id: u8
        ensures SelectedBy(clauses, code, id) <==> Selects(head, code, U8_MAX, id) || SelectedBy(tail, code, id)
        ensures Selects(head, code, U8_MAX, id) <==> CodeOf(head) == Some(code) && Lists(head, U8_MAX, id)
        ensures SelectedBy(tail, code, id) ==> MentionedBy(tail, code)
      {
        SelectedHead(clauses, code, id);
        SelectsIs(head, code, id);
        if SelectedBy(tail, code, id) {
          SelectedIsMentioned(tail, code, id);
        }
      }
    }
  }

  lemma SelectsIs(clause: string, code: string, id: u8)
    ensures Selects(clause, code, U8_MAX, id) <==> CodeOf(clause) == Some(code) && Lists(clause, U8_MAX, id)
  {}

  lemma NoneMentioned(code: string)
    ensures !MentionedBy([], code)
  {}

  /** Of an accepted spec: a code is filtered if and only if some clause names it, to exactly the ids that the clause's
      tokens write, out of as many channels as the feeds of the code were derived over. */
  lemma SelectionIsTheText(rows: seq<Feed>, spec: string, code: string)
    requires Parsed(rows, spec).Ok?
    ensures var f, clauses := Parsed(rows, spec).value, Split(spec, ';');
            && Splits(spec, ';', clauses)
            && (code in f <==> MentionedBy(clauses, code))
            && (code in f ==>
                  (forall id: u8 :: id in f[code].ids <==> exists clause :: clause in clauses && Reads(clause, code, U8_MAX, id))
                  && f[code].publishedSize == |PublishedUnder(rows, code)|)
  {
    hide StrictClauses, Split, CodeOf, Selects, Reads, PublishedUnder;
    var clauses := Split(spec, ';');
    SplitSplits(spec, ';');
    ClausesSelect(rows, clauses, map[], code);
    forall clause, id: u8
      ensures Selects(clause, code, U8_MAX, id) <==> Reads(clause, code, U8_MAX, id)
    {
      SelectsIff(clause, code, U8_MAX, id);
    }
  }

  // ---- the preview's selection ----

  /** The clause is the last to name the code, and lists the id. */
  ghost predicate LastSelects(clauses: seq<string>, i: nat, code: string, id: nat) {
    && i < |clauses| && Selects(clauses[i], code, U64_MAX, id)
    && forall j :: i < j < |clauses| ==> CodeOf(clauses[j]) != Some(code)
  }

  ghost predicate LastSelected(clauses: seq<string>, code: string, id: nat) {
    exists i: nat :: LastSelects(clauses, i, code, id)
  }

  lemma {:induction false} LenientIdsAre(tokens: seq<string>, ids: set<nat>, id: nat)
    ensures id in LenientIds(tokens, ids)
            <==> id in ids || exists token :: token in tokens && ParseUnsigned(Trim(token), U64_MAX) == Some(id)
    decreases |tokens|
  {
    hide Trim, ParseUnsigned;
    if tokens != [] {
      assert tokens == [tokens[0]] + tokens[1..];
      LenientIdsAre(tokens[1..], LenientId(tokens[0], ids), id);
    }
  }

  lemma LenientStepIs(clause: string, seen: Preview, code: string)
    ensures var next := LenientStep(clause, seen);
            if CodeOf(clause) == Some(code) then
              code in next && forall id :: id in next[code] <==> Lists(clause, U64_MAX, id)
            else (code in next <==> code in seen) && (code in seen ==> next[code] == seen[code])
  {
    hide Trim, Split, LenientIds, ParseUnsigned;
    var text := Trim(clause);
    if CodeOf(clause) == Some(code) {
      var (name, ids) := SplitOnce(text, '=').value;
      forall id
        ensures id in LenientIds(Split(ids, ','), {}) <==> Lists(clause, U64_MAX, id)
      {
        LenientIdsAre(Split(ids, ','), {}, id);
      }
    }
  }

  lemma LastSelectedHead(clauses: seq<string>, code: string, id: nat)
    requires clauses != []
    ensures LastSelected(clauses, code, id)
            <==> if MentionedBy(clauses[1..], code) then LastSelected(clauses[1..], code, id)
                 else Selects(clauses[0], code, U64_MAX, id)
  {
    hide CodeOf, Lists;
    var tail := clauses[1..];
    assert forall j :: 0 <= j < |tail| ==> tail[j] == clauses[j + 1];
    if MentionedBy(tail, code) {
      var clause :| clause in tail && CodeOf(clause) == Some(code);
      var m :| 0 <= m < |tail| && tail[m] == clause;
      assert CodeOf(clauses[m + 1]) == Some(code);
      if i: nat :| LastSelects(clauses, i, code, id) {
        LastInTail(clauses, i, code, id, m + 1);
      }
      if i: nat :| LastSelects(tail, i, code, id) {
        LaterInWhole(clauses, i, code, id);
      }
    } else {
      forall j | 0 < j < |clauses|
        ensures CodeOf(clauses[j]) != Some(code)
      {
        assert tail[j - 1] in tail;
      }
      if i: nat :| LastSelects(clauses, i, code, id) {
        SelectsNames(clauses[i], code, id);
      }
      assert Selects(clauses[0], code, U64_MAX, id) ==> LastSelects(clauses, 0, code, id);
    }
  }

  lemma SelectsNames(clause: string, code: string, id: nat)
    requires Selects(clause, code, U64_MAX, id)
    ensures CodeOf(clause) == Some(code)
  {}

  lemma LastInTail(clauses: seq<string>, i: nat, code: string, id: nat, m: nat)
    requires LastSelects(clauses, i, code, id) && 0 < m < |clauses| && CodeOf(clauses[m]) == Some(code)
    ensures LastSelected(clauses[1..], code, id)
  {
    hide CodeOf, Lists;
    var tail := clauses[1..];
    assert m <= i;
    forall j | i - 1 < j < |tail|
      ensures CodeOf(tail[j]) != Some(code)
    {
      assert tail[j] == clauses[j + 1];
    }
    assert LastSelects(tail, i - 1, code, id);
  }

  lemma LaterInWhole(clauses: seq<string>, i: nat, code: string, id: nat)
    requires clauses != [] && LastSelects(clauses[1..], i, code, id)
    ensures LastSelected(clauses, code, id)
  {
    hide CodeOf, Lists;
    var tail := clauses[1..];
    forall j | i + 1 < j < |clauses|
      ensures CodeOf(clauses[j]) != Some(code)
    {
      assert clauses[j] == tail[j - 1];
    }
    assert LastSelects(clauses, i + 1, code, id);
  }

  lemma {:induction false} LenientClausesSelect(clauses: seq<string>, seen: Preview, code: string)
    ensures var last := LenientClauses(clauses, seen);
            if MentionedBy(clauses, code) then
              code in last && forall id :: id in last[code] <==> LastSelected(clauses, code, id)
            else (code in last <==> code in seen) && (code in seen ==> last[code] == seen[code])
    decreases |clauses|
  {
    hide LenientStep, CodeOf, Lists, LastSelected, MentionedBy;
    NoneMentioned(code);
    if clauses != [] {
      var head, tail := clauses[0], clauses[1..];
      LenientStepIs(head, seen, code);
      LenientClausesSelect(tail, LenientStep(head, seen), code);
      MentionedHead(clauses, code);
      forall id: nat
        ensures LastSelected(clauses, code, id)
                <==> if MentionedBy(tail, code) then LastSelected(tail, code, id)
                     else CodeOf(head) == Some(code) && Lists(head, U64_MAX, id)
      {
        LastSelectedHead(clauses, code, id);
      }
    }
  }

  /** The `i`-th clause is the last that names the code, and its text reads the id. */
  ghost predicate LastReads(clauses: seq<string>, i: nat, code: string, id: nat) {
    && i < |clauses| && Reads(clauses[i], code, U64_MAX, id)
    && forall j :: i < j < |clauses| ==> CodeOf(clauses[j]) != Some(code)
  }

  /** Of any spec at all, accepted or not: the preview shows a code if and only if some clause names it, with exactly
      the ids that the last such clause's tokens write. */
  lemma PreviewIsTheText(spec: string, code: string)
    ensures var seen, clauses := Previewed(spec), Split(spec, ';');
            && Splits(spec, ';', clauses)
            && (code in seen <==> MentionedBy(clauses, code))
            && (code in seen ==> forall id :: id in seen[code] <==> exists i: nat :: LastReads(clauses, i, code, id))
  {
    hide LenientClauses, Split, CodeOf, Selects, Reads, MentionedBy;
    var clauses := Split(spec, ';');
    SplitSplits(spec, ';');
    LenientClausesSelect(clauses, map[], code);
    forall id: nat, i: nat
      ensures LastSelects(clauses, i, code, id) <==> LastReads(clauses, i, code, id)
    {
      if i < |clauses| {
        SelectsIff(clauses[i], code, U64_MAX, id);
      }
    }
  }

  // ---- why a spec is refused ----

  /** The clause's own tokens before this one are legal, and this one is not. */
  ghost predicate FirstBad(feeds: seq<Feed>, tokens: seq<string>, j: nat) {
    && j < |tokens| && !TokenOk(feeds, tokens[j])
    && forall i :: 0 <= i < j ==> TokenOk(feeds, tokens[i])
  }

  /** The feed publishes no such channel; or none at all. */
  predicate Lacks(f: Feed, id: Option<u8>) {
    if id.Some? then id.value !in PublishedSet(f) else PublishedSet(f) == {}
  }

  /** It is the first of the feeds that lacks it. */
  ghost predicate FirstLacking(feeds: seq<Feed>, f: Feed, id: Option<u8>) {
    exists i :: 0 <= i < |feeds| && feeds[i] == f && Lacks(f, id) && forall j :: 0 <= j < i ==> !Lacks(feeds[j], id)
  }

  /** The refusal names what is wrong with the clause, and the first thing that is. */
  ghost predicate Explains(rows: seq<Feed>, earlier: seq<string>, clause: string, e: FilterError) {
    !Blank(clause) &&
    match e
    case MissingIds(text) => text == Trim(clause) && '=' !in text
    case UnknownCode(code) => CodeOf(clause) == Some(code) && forall f :: f in rows ==> f.code != code
    case FlatRow(code, f) =>
      CodeOf(clause) == Some(code) && FirstLacking(Matching(rows, code), f, None)
    case BadId(code, text) =>
      && CodeOf(clause) == Some(code) && AllDerived(rows, code)
      && exists j: nat :: FirstBad(Matching(rows, code), TokensOf(clause), j) && text == Trim(TokensOf(clause)[j])
                          && ParseUnsigned(text, U8_MAX) == None
    case UnknownChannel(code, f, id) =>
      && CodeOf(clause) == Some(code) && AllDerived(rows, code)
      && FirstLacking(Matching(rows, code), f, Some(id))
      && exists j: nat :: FirstBad(Matching(rows, code), TokensOf(clause), j)
                          && ParseUnsigned(Trim(TokensOf(clause)[j]), U8_MAX) == Some(id)
    case EmptySelection(code) =>
      CodeOf(clause) == Some(code) && AllDerived(rows, code) && forall token :: token in TokensOf(clause) ==> Blank(token)
    case RepeatedCode(code) => CodeOf(clause) == Some(code) && ClauseOk(rows, clause) && MentionedBy(earlier, code)
  }

  ghost predicate AllDerived(rows: seq<Feed>, code: string) {
    forall f :: f in rows && f.code == code ==> PublishedSet(f) != {}
  }

  lemma {:induction false} FirstFlatIs(feeds: seq<Feed>)
    requires FirstFlat(feeds).Some?
    ensures FirstLacking(feeds, FirstFlat(feeds).value, None)
  {
    hide PublishedSet;
    if PublishedSet(feeds[0]) == {} {
      assert feeds[0] == FirstFlat(feeds).value && Lacks(feeds[0], None);
    } else {
      FirstFlatIs(feeds[1..]);
      FirstLater(feeds, FirstFlat(feeds).value, None);
    }
  }

  lemma {:induction false} FirstWithoutIs(feeds: seq<Feed>, id: u8)
    requires FirstWithout(feeds, id).Some?
    ensures FirstLacking(feeds, FirstWithout(feeds, id).value, Some(id))
  {
    hide PublishedSet;
    if id !in PublishedSet(feeds[0]) {
      assert feeds[0] == FirstWithout(feeds, id).value && Lacks(feeds[0], Some(id));
    } else {
      FirstWithoutIs(feeds[1..], id);
      FirstLater(feeds, FirstWithout(feeds, id).value, Some(id));
    }
  }

  lemma FirstLater(feeds: seq<Feed>, f: Feed, id: Option<u8>)
    requires feeds != [] && !Lacks(feeds[0], id) && FirstLacking(feeds[1..], f, id)
    ensures FirstLacking(feeds, f, id)
  {
    hide Lacks;
    var tail := feeds[1..];
    var i :| 0 <= i < |tail| && tail[i] == f && Lacks(f, id) && forall j :: 0 <= j < i ==> !Lacks(tail[j], id);
    forall j | 0 <= j < i + 1
      ensures !Lacks(feeds[j], id)
    {
      assert j > 0 ==> feeds[j] == tail[j - 1];
    }
    assert feeds[i + 1] == f;
  }

  /** What a refused token was refused for. */
  ghost predicate TokenExplains(feeds: seq<Feed>, code: string, token: string, e: FilterError) {
    match e
    case BadId(c, text) => c == code && text == Trim(token) && ParseUnsigned(text, U8_MAX) == None
    case UnknownChannel(c, f, id) =>
      c == code && ParseUnsigned(Trim(token), U8_MAX) == Some(id) && FirstLacking(feeds, f, Some(id))
    case _ => false
  }

  lemma IdRefused(feeds: seq<Feed>, code: string, token: string, wanted: set<u8>)
    ensures StrictId(feeds, code, token, wanted).Err? <==> !TokenOk(feeds, token)
    ensures StrictId(feeds, code, token, wanted).Err? ==>
              TokenExplains(feeds, code, token, StrictId(feeds, code, token, wanted).error)
  {
    hide Trim, PublishedSet, FirstLacking;
    var id := ParseUnsigned(Trim(token), U8_MAX);
    if id.Some? && id.value <= U8_MAX {
      NoneWithout(feeds, id.value);
      if FirstWithout(feeds, id.value).Some? {
        FirstWithoutIs(feeds, id.value);
      }
    }
  }

  lemma {:induction false} IdsRefused(feeds: seq<Feed>, code: string, tokens: seq<string>, wanted: set<u8>) returns (j: nat)
    requires StrictIds(feeds, code, tokens, wanted).Err?
    ensures FirstBad(feeds, tokens, j) && TokenExplains(feeds, code, tokens[j], StrictIds(feeds, code, tokens, wanted).error)
    decreases |tokens|
  {
    hide StrictId, TokenOk, TokenExplains;
    IdRefused(feeds, code, tokens[0], wanted);
    if StrictId(feeds, code, tokens[0], wanted).Err? {
      j := 0;
    } else {
      var more := IdsRefused(feeds, code, tokens[1..], StrictId(feeds, code, tokens[0], wanted).value);
      j := more + 1;
      assert tokens[1..][more] == tokens[j];
      forall i | 0 <= i < j
        ensures TokenOk(feeds, tokens[i])
      {
        assert i > 0 ==> tokens[1..][i - 1] == tokens[i];
      }
    }
  }

  /** The codes admitted so far are those the clauses read so far name. */
  ghost predicate AdmitsMentioned(f: Filter, earlier: seq<string>) {
    forall code :: code in f <==> MentionedBy(earlier, code)
  }

  lemma StepRefused(rows: seq<Feed>, clause: string, f: Filter, earlier: seq<string>)
    requires AdmitsMentioned(f, earlier) && StrictStep(rows, clause, f).Err?
    ensures Explains(rows, earlier, clause, StrictStep(rows, clause, f).error)
  {
    hide Trim, Split, StrictIds, PublishedSet, FirstFlat, AllPublished, Matching, TokenOk, FirstLacking;
    hide ParseUnsigned, MentionedBy;
    var text := Trim(clause);
    if SplitOnce(text, '=').None? {
      NoSeparator(text);
    } else {
      var (name, ids) := SplitOnce(text, '=').value;
      var code := Trim(name);
      var feeds := Matching(rows, code);
      MatchingIs(rows, code);
      NoFlat(feeds);
      if feeds != [] {
        if FirstFlat(feeds).Some? {
          FirstFlatIs(feeds);
        } else if StrictIds(feeds, code, Split(ids, ','), {}).Err? {
          var j := IdsRefused(feeds, code, Split(ids, ','), {});
          assert AllDerived(rows, code) && TokensOf(clause) == Split(ids, ',');
        } else {
          IdsAcceptedIff(feeds, code, Split(ids, ','), {});
        }
      } else {
        NobodyHas(rows, code);
      }
    }
  }

  lemma NoSeparator(text: string)
    requires SplitOnce(text, '=').None?
    ensures '=' !in text
  {
    SplitOnceIff(text, '=', "", "");
  }

  lemma NobodyHas(rows: seq<Feed>, code: string)
    requires Matching(rows, code) == []
    ensures forall f :: f in rows ==> f.code != code
  {
    hide Matching;
    MatchingIs(rows, code);
    forall f | f in rows
      ensures f.code != code
    {
      assert f in Matching(rows, code) <==> f.code == code;
    }
  }

  lemma AdmitsOneMore(rows: seq<Feed>, clause: string, f: Filter, earlier: seq<string>)
    requires AdmitsMentioned(f, earlier) && StrictStep(rows, clause, f).Ok?
    ensures AdmitsMentioned(StrictStep(rows, clause, f).value, earlier + [clause])
  {
    hide CodeOf, StrictStep;
    StepAcceptedIff(rows, clause, f);
    forall code
      ensures MentionedBy(earlier + [clause], code) <==> MentionedBy(earlier, code) || CodeOf(clause) == Some(code)
    {
      assert forall c :: c in earlier + [clause] <==> c in earlier || c == clause;
    }
  }

  /** Where the spec was refused, and why. */
  ghost predicate RefusedAt(rows: seq<Feed>, clauses: seq<string>, i: nat, e: FilterError) {
    && i < |clauses|
    && AllOk(rows, clauses[..i]) && NoRepeat(clauses[..i], map[])
    && Explains(rows, clauses[..i], clauses[i], e)
  }

  lemma {:induction false} ClausesRefused(rows: seq<Feed>, clauses: seq<string>, n: nat, f: Filter) returns (i: nat)
    requires n <= |clauses| && StrictClauses(rows, clauses[n..], f).Err? && AdmitsMentioned(f, clauses[..n])
    ensures n <= i < |clauses| && Explains(rows, clauses[..i], clauses[i], StrictClauses(rows, clauses[n..], f).error)
    ensures StrictClauses(rows, clauses[n..i], f).Ok?
    decreases |clauses| - n
  {
    hide StrictStep, Explains, AdmitsMentioned;
    var rest := clauses[n..];
    if StrictStep(rows, rest[0], f).Err? {
      i := n;
      StepRefused(rows, clauses[n], f, clauses[..n]);
    } else {
      var g := StrictStep(rows, rest[0], f).value;
      AdmitsOneMore(rows, clauses[n], f, clauses[..n]);
      assert clauses[..n + 1] == clauses[..n] + [clauses[n]];
      assert rest[1..] == clauses[n + 1..];
      i := ClausesRefused(rows, clauses, n + 1, g);
      assert clauses[n..i][0] == rest[0] && clauses[n..i][1..] == clauses[n + 1..i];
    }
  }

  /** A refusal is of the first clause that does not pass, and says what is the matter with it. */
  lemma RefusalSaysWhy(rows: seq<Feed>, spec: string) returns (i: nat)
    requires Parsed(rows, spec).Err?
    ensures RefusedAt(rows, Split(spec, ';'), i, Parsed(rows, spec).error)
  {
    hide StrictClauses, Split, Explains, MentionedBy;
    var clauses := Split(spec, ';');
    assert clauses[0..] == clauses;
    assert AdmitsMentioned(map[], clauses[..0]) by {
      forall code
        ensures !MentionedBy(clauses[..0], code)
      {
        assert clauses[..0] == [];
        NoneMentioned(code);
      }
    }
    i := ClausesRefused(rows, clauses, 0, map[]);
    assert clauses[0..i] == clauses[..i];
    ClausesAcceptedIff(rows, clauses[..i], map[]);
  }
}
