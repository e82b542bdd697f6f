/** Quoting of capped OR tsquery controls: `build_or_tsquery` of
    src/legal_chatbot/documents/fts_query.py. */
module TsQuery {
  import opened Wrappers
  import opened Sequences

  const MAX_OR_LEXEMES := 32
  const OR_SEPARATOR := " | "
  const QUOTE := '\''

  datatype ValueError = MaxLexemesOutOfRange

  // ----- the lexeme pattern: a quote, characters or doubled quotes, a quote -----

  /** What the pattern's group may be: other characters and doubled quotes. */
  predicate IsGroup(g: string) {
    || g == ""
    || (g[0] != QUOTE && IsGroup(g[1..]))
    || (|g| >= 2 && g[0] == QUOTE && g[1] == QUOTE && IsGroup(g[2..]))
  }

  /** The closing quote the greedy pattern settles on for a group starting at `j`: the
      first quote that is not doubled, or, when none is left, the last doubled one it can
      give back. */
  function Close(s: string, j: nat, givenBack: Option<nat>): (k: Option<nat>)
    requires j <= |s| && (givenBack.Some? ==> givenBack.value < |s|)
    ensures k.Some? ==> k.value < |s| && (k == givenBack || j <= k.value)
    decreases |s| - j
  {
    if j == |s| then givenBack
    else if s[j] != QUOTE then Close(s, j + 1, givenBack)
    else if j + 1 < |s| && s[j + 1] == QUOTE then Close(s, j + 2, Some(j))
    else Some(j)
  }

  /** The groups of all matches, left to right and without overlap. */
  function Groups(s: string, i: nat): seq<string>
    requires i <= |s|
    decreases |s| - i
  {
    if i == |s| then []
    else if s[i] != QUOTE then Groups(s, i + 1)
    else match Close(s, i + 1, None)
      case None => Groups(s, i + 1)
      case Some(k) => [s[i + 1..k]] + Groups(s, k + 1)
  }

  /** group.replace("''", "'") */
  function Unescape(g: string): string {
    if g == "" then ""
    else if |g| >= 2 && g[0] == QUOTE && g[1] == QUOTE then [QUOTE] + Unescape(g[2..])
    else [g[0]] + Unescape(g[1..])
  }

  /** lexeme.replace("'", "''") */
  function Escape(lexeme: string): string {
    if lexeme == "" then ""
    else if lexeme[0] == QUOTE then [QUOTE, QUOTE] + Escape(lexeme[1..])
    else [lexeme[0]] + Escape(lexeme[1..])
  }

  function Quoted(lexeme: string): string {
    [QUOTE] + Escape(lexeme) + [QUOTE]
  }

  /** The lexemes of a tsquery text, in order. */
  function Lexemes(text: string): seq<string> {
    Map(Unescape, Groups(text, 0))
  }

  function Rendered(lexemes: seq<string>): string {
    Join(OR_SEPARATOR, Map(Quoted, lexemes))
  }

  function BuildOrTsquery(text: string, maxLexemes: int): Result<(string, nat, bool), ValueError> {
    if !(1 <= maxLexemes <= MAX_OR_LEXEMES) then Err(MaxLexemesOutOfRange)
    else
      var unique := Dedup(Lexemes(text));
      Ok((Rendered(Take(unique, maxLexemes)), |unique|, |unique| > maxLexemes))
  }

  // ----- the scanner agrees with the pattern -----

  /** Position `k` closes a group that starts at `j`. */
  predicate Closes(s: string, j: nat, k: nat) {
    j <= k < |s| && s[k] == QUOTE && IsGroup(s[j..k])
  }

  lemma {:induction false} GivenBackIsLast(s: string, j: nat, givenBack: Option<nat>)
    requires j <= |s| && (givenBack.Some? ==> givenBack.value < |s|)
    ensures Close(s, j, givenBack) == if Close(s, j, None).Some? then Close(s, j, None) else givenBack
    decreases |s| - j
  {
    if j < |s| {
      if s[j] != QUOTE {
        GivenBackIsLast(s, j + 1, givenBack);
      } else if j + 1 < |s| && s[j + 1] == QUOTE {
        GivenBackIsLast(s, j + 2, Some(j));
      }
    }
  }

  lemma ClosesAfterOther(s: string, j: nat, k: nat)
    requires j < |s| && s[j] != QUOTE
    ensures Closes(s, j, k) <==> Closes(s, j + 1, k)
  {
    if j < k <= |s| {
      assert s[j..k][1..] == s[j + 1..k];
    }
  }

  lemma ClosesAfterPair(s: string, j: nat, k: nat)
    requires j + 1 < |s| && s[j] == QUOTE && s[j + 1] == QUOTE
    ensures Closes(s, j, k) <==> k == j || Closes(s, j + 2, k)
  {
    if k == j {
      assert s[j..k] == "";
    } else if j + 2 <= k <= |s| {
      assert s[j..k][2..] == s[j + 2..k];
    }
  }

  lemma ClosesSingle(s: string, j: nat, k: nat)
    requires j < |s| && s[j] == QUOTE && (j + 1 < |s| ==> s[j + 1] != QUOTE)
    ensures Closes(s, j, k) <==> k == j
  {
    if k == j {
      assert s[j..k] == "";
    } else if j + 2 <= k <= |s| {
      assert s[j..k][0] == s[j] && s[j..k][1] == s[j + 1];
    }
  }

  /** The scanner's closing quote is the furthest one for which the text in between is a
      group: the greedy match, found without backtracking. */
  lemma {:induction false} CloseIsGreedy(s: string, j: nat)
    requires j <= |s|
    ensures match Close(s, j, None)
      case Some(k) => Closes(s, j, k) && forall l: nat :: l > k ==> !Closes(s, j, l)
      case None => forall l: nat :: !Closes(s, j, l)
    decreases |s| - j
  {
    if j < |s| {
      if s[j] != QUOTE {
        CloseIsGreedy(s, j + 1);
        forall l: nat ensures Closes(s, j, l) <==> Closes(s, j + 1, l) { ClosesAfterOther(s, j, l); }
      } else if j + 1 < |s| && s[j + 1] == QUOTE {
        CloseIsGreedy(s, j + 2);
        GivenBackIsLast(s, j + 2, Some(j));
        forall l: nat ensures Closes(s, j, l) <==> l == j || Closes(s, j + 2, l) { ClosesAfterPair(s, j, l); }
      } else {
        forall l: nat ensures Closes(s, j, l) <==> l == j { ClosesSingle(s, j, l); }
      }
    }
  }

  // ----- scanning what was printed -----

  lemma {:induction false} UnescapeEscape(lexeme: string)
    ensures Unescape(Escape(lexeme)) == lexeme
  {
    if lexeme != "" {
      UnescapeEscape(lexeme[1..]);
      var e := Escape(lexeme[1..]);
      if lexeme[0] == QUOTE {
        assert ([QUOTE, QUOTE] + e)[2..] == e;
      } else {
        assert ([lexeme[0]] + e)[1..] == e;
      }
    }
  }

  lemma StandsApart(s: string, i: nat, a: string, b: string)
    requires StandsAt(s, i, a + b)
    ensures StandsAt(s, i, a) && StandsAt(s, i + |a|, b)
  {
    var part := s[i..i + |a + b|];
    assert s[i..i + |a|] == part[..|a|];
    assert s[i + |a|..i + |a| + |b|] == part[|a|..];
  }

  function EscapedChar(c: char): string {
    if c == QUOTE then [QUOTE, QUOTE] else [c]
  }

  lemma EscapeFirst(lexeme: string)
    ensures lexeme == "" ==> Escape(lexeme) == ""
    ensures lexeme != "" ==> Escape(lexeme) == EscapedChar(lexeme[0]) + Escape(lexeme[1..])
  {
  }

  lemma StandsBefore(s: string, i: nat, text: string)
    requires StandsAt(s, i, text)
    ensures i + |text| <= |s|
  {
  }

  /** Scanning one escaped character goes past it. */
  lemma CloseOverChar(s: string, j: nat, c: char, givenBack: Option<nat>)
    requires StandsAt(s, j, EscapedChar(c)) && (givenBack.Some? ==> givenBack.value < |s|)
    ensures Close(s, j, givenBack) == Close(s, j + |EscapedChar(c)|, if c == QUOTE then Some(j) else givenBack)
  {
    hide StandsAt;
    StandsBefore(s, j, EscapedChar(c));
    StandsAtEach(s, j, EscapedChar(c), 0);
    StandsAtEach(s, j, EscapedChar(c), |EscapedChar(c)| - 1);
  }

  /** Scanning an escaped lexeme stops at the quote that was put after it, whatever
      quotes are inside, as long as no quote follows. */
  lemma {:induction false} CloseEscaped(s: string, j: nat, lexeme: string, givenBack: Option<nat>)
    requires givenBack.Some? ==> givenBack.value < |s|
    requires StandsAt(s, j, Escape(lexeme))
    requires var k := j + |Escape(lexeme)|; k < |s| && s[k] == QUOTE && (k + 1 < |s| ==> s[k + 1] != QUOTE)
    ensures Close(s, j, givenBack) == Some(j + |Escape(lexeme)|)
    decreases |lexeme|
  {
    hide Escape, StandsAt, EscapedChar;
    EscapeFirst(lexeme);
    if lexeme != "" {
      var head, rest := EscapedChar(lexeme[0]), Escape(lexeme[1..]);
      StandsApart(s, j, head, rest);
      StandsBefore(s, j, head);
      CloseOverChar(s, j, lexeme[0], givenBack);
      CloseEscaped(s, j + |head|, lexeme[1..], if lexeme[0] == QUOTE then Some(j) else givenBack);
    }
  }

  lemma GroupOfQuoted(s: string, i: nat, lexeme: string)
    requires StandsAt(s, i, Quoted(lexeme))
    requires var k := i + |Quoted(lexeme)|; k < |s| ==> s[k] != QUOTE
    ensures Groups(s, i) == [Escape(lexeme)] + Groups(s, i + |Quoted(lexeme)|)
  {
    hide Escape;
    assert Quoted(lexeme) == [QUOTE] + (Escape(lexeme) + [QUOTE]);
    StandsApart(s, i, [QUOTE], Escape(lexeme) + [QUOTE]);
    StandsApart(s, i + 1, Escape(lexeme), [QUOTE]);
    StandsAtEach(s, i, [QUOTE], 0);
    StandsAtEach(s, i + 1 + |Escape(lexeme)|, [QUOTE], 0);
    CloseEscaped(s, i + 1, lexeme, None);
  }

  lemma SkipSeparator(s: string, i: nat)
    requires StandsAt(s, i, OR_SEPARATOR)
    ensures Groups(s, i) == Groups(s, i + |OR_SEPARATOR|)
  {
    StandsAtEach(s, i, OR_SEPARATOR, 0);
    StandsAtEach(s, i, OR_SEPARATOR, 1);
    StandsAtEach(s, i, OR_SEPARATOR, 2);
    assert Groups(s, i + 1) == Groups(s, i + 2);
  }

  lemma RenderedFirst(lexemes: seq<string>)
    requires |lexemes| > 1
    ensures Rendered(lexemes) == Quoted(lexemes[0]) + (OR_SEPARATOR + Rendered(lexemes[1..]))
  {
    hide Quoted;
    var quoted := Map(Quoted, lexemes);
    assert quoted == [Quoted(lexemes[0])] + Map(Quoted, lexemes[1..]);
    JoinConcat(OR_SEPARATOR, [Quoted(lexemes[0])], Map(Quoted, lexemes[1..]));
  }

  lemma RenderedOne(lexemes: seq<string>)
    requires |lexemes| == 1
    ensures Rendered(lexemes) == Quoted(lexemes[0])
  {
  }

  /** One lexeme and the separator after it are scanned past. */
  lemma GroupsOfFirst(s: string, i: nat, lexemes: seq<string>)
    requires i <= |s| && |lexemes| > 1 && s[i..] == Rendered(lexemes)
    ensures var k := i + |Quoted(lexemes[0])| + |OR_SEPARATOR|;
      && k <= |s| && s[k..] == Rendered(lexemes[1..])
      && Groups(s, i) == [Escape(lexemes[0])] + Groups(s, k)
  {
    hide Quoted, Escape, StandsAt, Groups, Rendered, Map;
    RenderedFirst(lexemes);
    var tail := OR_SEPARATOR + Rendered(lexemes[1..]);
    var k := i + |Quoted(lexemes[0])|;
    StandsToEnd(s, i, Quoted(lexemes[0]), tail);
    assert s[k] == tail[0];
    GroupOfQuoted(s, i, lexemes[0]);
    StandsToEnd(s, k, OR_SEPARATOR, Rendered(lexemes[1..]));
    StandsBefore(s, k, OR_SEPARATOR);
    SkipSeparator(s, k);
  }

  lemma {:induction false} GroupsOfRendered(s: string, i: nat, lexemes: seq<string>)
    requires i <= |s| && s[i..] == Rendered(lexemes)
    ensures Groups(s, i) == Map(Escape, lexemes)
    decreases |lexemes|
  {
    hide Quoted, Escape, StandsAt;
    if lexemes == [] {
      NothingRendered(s, i);
    } else if |lexemes| == 1 {
      RenderedOne(lexemes);
      StandsToEnd(s, i, Quoted(lexemes[0]), "");
      GroupOfQuoted(s, i, lexemes[0]);
    } else {
      hide Groups, Rendered;
      GroupsOfFirst(s, i, lexemes);
      GroupsOfRendered(s, i + |Quoted(lexemes[0])| + |OR_SEPARATOR|, lexemes[1..]);
    }
  }

  lemma NothingRendered(s: string, i: nat)
    requires i <= |s| && s[i..] == Rendered([])
    ensures Groups(s, i) == []
  {
  }

  lemma StandsToEnd(s: string, i: nat, a: string, b: string)
    requires i <= |s| && (s[i..] == a + b || (b == "" && s[i..] == a))
    ensures StandsAt(s, i, a) && s[i + |a|..] == b
    ensures b != "" ==> i + |a| < |s| && s[i + |a|] == b[0]
    ensures b == "" ==> i + |a| == |s|
  {
    assert |s[i..]| == |a| + |b|;
    assert s[i..i + |a|] == s[i..][..|a|] == a;
    assert s[i + |a|..] == s[i..][|a|..];
  }

  /** Quoting round trip, for any lexemes at all: empty ones, ones with quotes, ones that
      contain the separator. */
  lemma LexemesOfRendered(lexemes: seq<string>)
    ensures Lexemes(Rendered(lexemes)) == lexemes
  {
    GroupsOfRendered(Rendered(lexemes), 0, lexemes);
    forall i | 0 <= i < |lexemes| ensures Unescape(Escape(lexemes[i])) == lexemes[i] {
      UnescapeEscape(lexemes[i]);
    }
  }

  lemma TakeIsDistinct(s: seq<string>, n: nat)
    requires Distinct(s)
    ensures Distinct(Take(s, n)) && |Take(s, n)| <= n && Take(Take(s, n), n) == Take(s, n)
  {
  }

  /** Scanning the output recovers exactly the first `maxLexemes` distinct lexemes of the
      input, in first-seen order; the count and the flag say how many there were. A maximum
      out of range is an error. */
  lemma OutputHoldsFirstDistinct(text: string, maxLexemes: int)
    ensures var r := BuildOrTsquery(text, maxLexemes);
      if maxLexemes < 1 || maxLexemes > 32 then r == Err(MaxLexemesOutOfRange)
      else
        && r.Ok?
        && Lexemes(r.value.0) == Take(Dedup(Lexemes(text)), maxLexemes)
        && Distinct(Lexemes(r.value.0))
        && r.value.1 == |Dedup(Lexemes(text))| && (r.value.2 <==> |Lexemes(r.value.0)| < r.value.1)
  {
    hide Lexemes, Dedup, Rendered, Distinct;
    if 1 <= maxLexemes <= MAX_OR_LEXEMES {
      LexemesOfRendered(Take(Dedup(Lexemes(text)), maxLexemes));
      DedupMembers(Lexemes(text));
      TakeIsDistinct(Dedup(Lexemes(text)), maxLexemes);
    }
  }

  /** Building again from its own output changes nothing and truncates nothing. */
  lemma RebuildIsIdentity(text: string, maxLexemes: int)
    requires 1 <= maxLexemes <= MAX_OR_LEXEMES
    ensures var r := BuildOrTsquery(text, maxLexemes);
      && r.Ok?
      && BuildOrTsquery(r.value.0, maxLexemes) == Ok((r.value.0, |Lexemes(r.value.0)|, false))
  {
    hide Lexemes, Dedup, Rendered, Distinct;
    var selected := Take(Dedup(Lexemes(text)), maxLexemes);
    LexemesOfRendered(selected);
    DedupMembers(Lexemes(text));
    TakeIsDistinct(Dedup(Lexemes(text)), maxLexemes);
    DedupDistinct(selected);
  }
}
