/** The string operations the parsers are built from, with the laws the round trips need. */
module Text {
  import opened Wrappers

  // ---- splitting ----

  /** The index of the first `c`, or the length if there is none. */
  function First(s: string, c: char): (i: nat)
    ensures i <= |s| && c !in s[..i] && (i < |s| ==> s[i] == c)
    decreases |s|
  {
    if s == "" || s[0] == c then 0 else 1 + First(s[1..], c)
  }

  /** The index of the last `c`, or the length if there is none. */
  function Last(s: string, c: char): (i: nat)
    ensures i <= |s| && (i < |s| ==> s[i] == c && c !in s[i + 1..]) && (i == |s| ==> c !in s)
    decreases |s|
  {
    if s == "" then 0
    else if s[|s| - 1] == c then |s| - 1
    else
      var i := Last(s[..|s| - 1], c);
      if i < |s| - 1 then i else |s|
  }

  function SplitOnce(s: string, c: char): Option<(string, string)> {
    var i := First(s, c);
    if i < |s| then Some((s[..i], s[i + 1..])) else None
  }

  function SplitLast(s: string, c: char): Option<(string, string)> {
    var i := Last(s, c);
    if i < |s| then Some((s[..i], s[i + 1..])) else None
  }

  /** The pieces between separators; always at least one. */
  function Split(s: string, c: char): (pieces: seq<string>)
    ensures pieces != []
    decreases |s|
  {
    var i := First(s, c);
    if i == |s| then [s] else [s[..i]] + Split(s[i + 1..], c)
  }

  /** The pieces end to end, with the separator between them. */
  function Join(pieces: seq<string>, c: char): string
    requires pieces != []
    decreases |pieces|
  {
    if |pieces| == 1 then pieces[0] else pieces[0] + [c] + Join(pieces[1..], c)
  }

  /** What a split is: pieces without the separator that joined by it are the text again. */
  ghost predicate Splits(s: string, c: char, pieces: seq<string>) {
    pieces != [] && (forall p :: p in pieces ==> c !in p) && Join(pieces, c) == s
  }

  lemma {:induction false} SplitSplits(s: string, c: char)
    ensures Splits(s, c, Split(s, c))
    decreases |s|
  {
    var i := First(s, c);
    if i < |s| {
      SplitSplits(s[i + 1..], c);
      assert s == s[..i] + [c] + s[i + 1..];
      assert ([s[..i]] + Split(s[i + 1..], c))[1..] == Split(s[i + 1..], c);
    } else {
      assert s[..i] == s;
    }
  }

  /** No text splits in two ways. */
  lemma {:induction false} SplitIff(s: string, c: char, pieces: seq<string>)
    ensures Splits(s, c, pieces) <==> pieces == Split(s, c)
    decreases |pieces|
  {
    SplitSplits(s, c);
    if Splits(s, c, pieces) {
      if |pieces| == 1 {
        assert s == pieces[0] && c !in s;
        assert pieces == [s];
      } else {
        var rest := Join(pieces[1..], c);
        assert forall p :: p in pieces[1..] ==> p in pieces;
        assert pieces[0] in pieces;
        FirstAfter(pieces[0], c, rest);
        assert s[..|pieces[0]|] == pieces[0] && s[|pieces[0]| + 1..] == rest;
        SplitIff(rest, c, pieces[1..]);
        assert pieces == [pieces[0]] + pieces[1..];
      }
    }
  }

  /** The split at the first separator. */
  lemma SplitOnceIff(s: string, c: char, x: string, rest: string)
    ensures SplitOnce(s, c) == Some((x, rest)) <==> c !in x && s == x + [c] + rest
    ensures SplitOnce(s, c).None? <==> c !in s
  {
    var i := First(s, c);
    if i < |s| {
      assert s == s[..i] + [c] + s[i + 1..];
    } else {
      assert s[..i] == s;
    }
    if c !in x && s == x + [c] + rest {
      SplitOnceJoined(x, c, rest);
    }
  }

  /** The split at the last separator. */
  lemma SplitLastIff(s: string, c: char, x: string, rest: string)
    ensures SplitLast(s, c) == Some((x, rest)) <==> c !in rest && s == x + [c] + rest
    ensures SplitLast(s, c).None? <==> c !in s
  {
    var i := Last(s, c);
    if i < |s| {
      assert s == s[..i] + [c] + s[i + 1..];
    }
    if c !in rest && s == x + [c] + rest {
      SplitLastJoined(x, c, rest);
    }
  }

  lemma {:induction false} FirstAfter(x: string, c: char, rest: string)
    requires c !in x
    ensures First(x + [c] + rest, c) == |x|
    decreases |x|
  {
    var s := x + [c] + rest;
    if x != "" {
      assert s[1..] == x[1..] + [c] + rest;
      FirstAfter(x[1..], c, rest);
    }
  }

  /** The first separator splits off a part that does not contain it. */
  lemma SplitOnceJoined(x: string, c: char, rest: string)
    requires c !in x
    ensures SplitOnce(x + [c] + rest, c) == Some((x, rest))
  {
    FirstAfter(x, c, rest);
    var s := x + [c] + rest;
    assert s[..|x|] == x && s[|x| + 1..] == rest;
  }

  lemma {:induction false} LastBefore(x: string, c: char, rest: string)
    requires c !in rest
    ensures Last(x + [c] + rest, c) == |x|
    decreases |rest|
  {
    if rest != "" {
      var front := rest[..|rest| - 1];
      var s := x + [c] + rest;
      assert s[..|s| - 1] == x + [c] + front;
      LastBefore(x, c, front);
    }
  }

  /** The last separator splits off a tail that does not contain it. */
  lemma SplitLastJoined(x: string, c: char, rest: string)
    requires c !in rest
    ensures SplitLast(x + [c] + rest, c) == Some((x, rest))
  {
    var s := x + [c] + rest;
    LastBefore(x, c, rest);
    assert s[..|x|] == x && s[|x| + 1..] == rest;
  }

  // ---- trimming ----

  /** The White_Space characters. */
  predicate IsWhite(c: char) {
    || '\t' <= c <= '\r' || c == ' ' || c == '\U{85}' || c == '\U{A0}' || c == '\U{1680}'
    || '\U{2000}' <= c <= '\U{200A}' || c == '\U{2028}' || c == '\U{2029}' || c == '\U{202F}'
    || c == '\U{205F}' || c == '\U{3000}'
  }

  function TrimStart(s: string): string
    decreases |s|
  {
    if s != "" && IsWhite(s[0]) then TrimStart(s[1..]) else s
  }

  function TrimEnd(s: string): string
    decreases |s|
  {
    if s != "" && IsWhite(s[|s| - 1]) then TrimEnd(s[..|s| - 1]) else s
  }

  function Trim(s: string): string {
    TrimEnd(TrimStart(s))
  }

  predicate AllWhite(s: string) {
    forall i :: 0 <= i < |s| ==> IsWhite(s[i])
  }

  predicate NoWhiteEnds(s: string) {
    s != "" ==> !IsWhite(s[0]) && !IsWhite(s[|s| - 1])
  }

  /** What a trim is: what it takes off the ends is white, and what it leaves has no white end. */
  ghost predicate Trims(s: string, lead: string, core: string, tail: string) {
    s == lead + core + tail && AllWhite(lead) && AllWhite(tail) && NoWhiteEnds(core)
  }

  lemma {:induction false} StartTrims(s: string) returns (lead: string)
    ensures s == lead + TrimStart(s) && AllWhite(lead)
    ensures TrimStart(s) != "" ==> !IsWhite(TrimStart(s)[0])
    decreases |s|
  {
    lead := "";
    if s != "" && IsWhite(s[0]) {
      var more := StartTrims(s[1..]);
      lead := [s[0]] + more;
      assert s == [s[0]] + s[1..];
    }
  }

  lemma {:induction false} EndTrims(s: string) returns (tail: string)
    ensures s == TrimEnd(s) + tail && AllWhite(tail)
    ensures TrimEnd(s) != "" ==> !IsWhite(TrimEnd(s)[|TrimEnd(s)| - 1])
    decreases |s|
  {
    tail := "";
    if s != "" && IsWhite(s[|s| - 1]) {
      var more := EndTrims(s[..|s| - 1]);
      tail := more + [s[|s| - 1]];
      assert s == s[..|s| - 1] + [s[|s| - 1]];
    }
  }

  lemma TrimTrims(s: string) returns (lead: string, tail: string)
    ensures Trims(s, lead, Trim(s), tail)
  {
    hide IsWhite;
    lead := StartTrims(s);
    tail := EndTrims(TrimStart(s));
    assert Trim(s) != "" ==> Trim(s)[0] == TrimStart(s)[0];
  }

  lemma {:induction false} StartSkips(lead: string, rest: string)
    requires AllWhite(lead) && (rest != "" ==> !IsWhite(rest[0]))
    ensures TrimStart(lead + rest) == rest
    decreases |lead|
  {
    hide IsWhite;
    if lead == "" {
      assert lead + rest == rest;
    } else {
      assert (lead + rest)[1..] == lead[1..] + rest;
      StartSkips(lead[1..], rest);
    }
  }

  lemma {:induction false} EndSkips(rest: string, tail: string)
    requires AllWhite(tail) && (rest != "" ==> !IsWhite(rest[|rest| - 1]))
    ensures TrimEnd(rest + tail) == rest
    decreases |tail|
  {
    hide IsWhite;
    if tail == "" {
      assert rest + tail == rest;
    } else {
      assert (rest + tail)[..|rest + tail| - 1] == rest + tail[..|tail| - 1];
      EndSkips(rest, tail[..|tail| - 1]);
    }
  }

  /** No text trims to two cores. */
  lemma TrimIff(s: string, core: string)
    ensures core == Trim(s) <==> exists lead, tail :: Trims(s, lead, core, tail)
  {
    hide IsWhite, TrimStart, TrimEnd;
    var lead, tail := TrimTrims(s);
    if x, y :| Trims(s, x, core, y) {
      if core == "" {
        assert s == (x + y) + "" && "" + "" == "";
        StartSkips(x + y, "");
        EndSkips("", "");
      } else {
        assert s == x + (core + y);
        StartSkips(x, core + y);
        EndSkips(core, y);
      }
    }
  }

  // ---- numbers ----

  predicate IsDigit(c: char) {
    '0' <= c <= '9'
  }

  function DigitValue(c: char): nat
    requires IsDigit(c)
  {
    c as int - '0' as int
  }

  predicate AllDigits(s: string) {
    forall i :: 0 <= i < |s| ==> IsDigit(s[i])
  }

  function Value(s: string): nat
    requires AllDigits(s)
    decreases |s|
  {
    if s == "" then 0 else 10 * Value(s[..|s| - 1]) + DigitValue(s[|s| - 1])
  }

  /** An unsigned number of at most `max`: an optional plus sign, then at least one digit. */
  function ParseUnsigned(s: string, max: nat): Option<nat> {
    var digits := if s != "" && s[0] == '+' then s[1..] else s;
    if digits != "" && AllDigits(digits) && Value(digits) <= max then Some(Value(digits)) else None
  }

  function DigitOf(n: nat): char
    requires n < 10
  {
    ('0' as int + n) as char
  }

  function Decimal(n: nat): (s: string)
    ensures s != "" && AllDigits(s)
  {
    if n < 10 then [DigitOf(n)] else Decimal(n / 10) + [DigitOf(n % 10)]
  }

  lemma {:induction false} ValueOfDecimal(n: nat)
    ensures Value(Decimal(n)) == n
  {
    if n < 10 {
      assert Decimal(n)[..0] == "";
      assert Value(Decimal(n)[..0]) == 0;
    } else {
      ValueOfDecimal(n / 10);
      assert Decimal(n)[..|Decimal(n)| - 1] == Decimal(n / 10);
    }
  }

  /** A printed number parses back. */
  lemma ParseOfDecimal(n: nat, max: nat)
    requires n <= max
    ensures ParseUnsigned(Decimal(n), max) == Some(n)
  {
    ValueOfDecimal(n);
    assert IsDigit(Decimal(n)[0]);
  }

  /** Widening the type never changes what a number parses to. */
  lemma ParseWider(s: string, small: nat, big: nat)
    requires small <= big
    ensures ParseUnsigned(s, small).Some? ==> ParseUnsigned(s, big) == ParseUnsigned(s, small)
  {}

  predicate AllZeros(s: string) {
    forall i :: 0 <= i < |s| ==> s[i] == '0'
  }

  lemma {:induction false} DecimalOfValue(digits: string) returns (zeros: string)
    requires digits != "" && AllDigits(digits)
    ensures AllZeros(zeros) && digits == zeros + Decimal(Value(digits))
    decreases |digits|
  {
    var front, c := digits[..|digits| - 1], digits[|digits| - 1];
    assert digits == front + [c] && DigitOf(DigitValue(c)) == c;
    if front == "" {
      zeros := "";
      assert Value(front) == 0;
    } else {
      zeros := DecimalOfValue(front);
      if Value(front) == 0 {
        assert Decimal(0) == "0";
        zeros := front;
      } else {
        assert Decimal(Value(digits)) == Decimal(Value(front)) + [c];
      }
    }
  }

  lemma {:induction false} ZerosAddNothing(zeros: string, digits: string)
    requires AllZeros(zeros) && AllDigits(digits)
    ensures AllDigits(zeros + digits) && Value(zeros + digits) == Value(digits)
    decreases |digits|, |zeros|
  {
    if digits == "" {
      assert zeros + digits == zeros;
      if zeros != "" {
        ZerosAddNothing(zeros[..|zeros| - 1], "");
        assert zeros[..|zeros| - 1] + "" == zeros[..|zeros| - 1];
      }
    } else {
      ZerosAddNothing(zeros, digits[..|digits| - 1]);
      assert (zeros + digits)[..|zeros + digits| - 1] == zeros + digits[..|digits| - 1];
    }
  }

  /** The text is `n` written out: an optional plus sign, any zeros, and its decimal. */
  ghost predicate Writes(s: string, n: nat) {
    exists zeros :: AllZeros(zeros) && (s == zeros + Decimal(n) || s == ['+'] + (zeros + Decimal(n)))
  }

  /** A text parses as a number if and only if it is that number written out, and within the type. */
  lemma ParsesIff(s: string, max: nat, n: nat)
    ensures ParseUnsigned(s, max) == Some(n) <==> n <= max && Writes(s, n)
  {
    var digits := if s != "" && s[0] == '+' then s[1..] else s;
    if ParseUnsigned(s, max) == Some(n) {
      var zeros := DecimalOfValue(digits);
      assert s == digits || s == ['+'] + digits;
    }
    if n <= max && Writes(s, n) {
      var zeros :| AllZeros(zeros) && (s == zeros + Decimal(n) || s == ['+'] + (zeros + Decimal(n)));
      ZerosAddNothing(zeros, Decimal(n));
      ValueOfDecimal(n);
      assert IsDigit((zeros + Decimal(n))[0]);
      if s == zeros + Decimal(n) {
        assert s[0] != '+';
      } else {
        assert s[1..] == zeros + Decimal(n);
      }
    }
  }
}
