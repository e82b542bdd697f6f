/** A reader for the entries of the rolling summary: what was folded away can still be told
    from its entry, whatever the untrusted texts in it say. */
module ConversationEntries {
  import opened Wrappers
  import opened Sequences
  import opened ChatModels
  import opened ConversationModels
  import opened ConversationPolicy
  import J = Json

  datatype Entry = Entry(
    status: Status,
    outcome: Option<ChatOutcome>,
    reason: Option<RowReason>,
    citations: nat,
    documents: nat,
    texts: string)

  // ----- reading -----

  predicate IsSemicolon(c: char) {
    c == ';'
  }

  function StatusNamed(word: string): Option<Status> {
    if word == "PROCESSING" then Some(Processing)
    else if word == "COMPLETED" then Some(Completed)
    else if word == "FAILED" then Some(Failed)
    else if word == "ABANDONED" then Some(Abandoned)
    else None
  }

  function OutcomeNamed(word: string): Option<Option<ChatOutcome>> {
    if word == "NONE" then Some(None)
    else if word == "ANSWER" then Some(Some(Answer))
    else if word == "CLARIFICATION" then Some(Some(Clarification))
    else if word == "REFUSAL" then Some(Some(Refusal))
    else None
  }

  function CodeNamed(word: string): Option<ReasonCode> {
    if word == "ANSWER_ELIGIBLE" then Some(AnswerEligible)
    else if word == "ANSWER_GROUNDED" then Some(AnswerGrounded)
    else if word == "NO_RESULTS" then Some(NoResults)
    else if word == "UNSUPPORTED_TEMPORAL_SCOPE" then Some(UnsupportedTemporalScope)
    else if word == "INVALID_EVIDENCE_CHAIN" then Some(InvalidEvidenceChain)
    else if word == "RETRIEVAL_FAILURE" then Some(RetrievalFailure)
    else if word == "GROUNDING_FAILURE" then Some(GroundingFailure)
    else if word == "PROVIDER_FAILURE" then Some(ProviderFailure)
    else if word == "INVALID_PROVIDER_OUTPUT" then Some(InvalidProviderOutput)
    else if word == "CITATION_REVALIDATION_FAILURE" then Some(CitationRevalidationFailure)
    else None
  }

  function ReasonNamed(word: string): Option<Option<RowReason>> {
    if word == "NONE" then Some(None)
    else if word == "LEASE_EXPIRED" then Some(Some(LeaseExpiredReason))
    else if word == "PROCESSING_FAILED" then Some(Some(ProcessingFailed))
    else if word == "ABANDONED_BY_SYSTEM" then Some(Some(AbandonedBySystem))
    else match CodeNamed(word)
      case Some(code) => Some(Some(FromChat(code)))
      case None => None
  }

  /** What follows the label, if the text starts with it. */
  function After(s: string, name: string): Option<string> {
    if name <= s then Some(s[|name|..]) else None
  }

  /** A label, then a word up to the next semicolon. */
  function ReadWord<T>(s: string, name: string, named: string -> Option<T>): Option<(T, string)> {
    match After(s, name)
    case None => None
    case Some(t) =>
      var k := IndexWhere(IsSemicolon, t);
      match named(t[..k])
      case None => None
      case Some(value) => Some((value, t[k..]))
  }

  function ReadCount(s: string, name: string): Option<(nat, string)> {
    match After(s, name)
    case None => None
    case Some(t) => Some(J.ReadNumber(t, 0))
  }

  function ReadCounts(s: string, status: Status, outcome: Option<ChatOutcome>, reason: Option<RowReason>): Option<Entry> {
    match ReadCount(s, "; citations=")
    case None => None
    case Some((citations, t)) =>
      match ReadCount(t, "; documents=")
      case None => None
      case Some((documents, u)) =>
        match After(u, "; user=")
        case None => None
        case Some(texts) => Some(Entry(status, outcome, reason, citations, documents, texts))
  }

  function ReadEntry(s: string): Option<Entry> {
    match ReadWord(s, "status=", StatusNamed)
    case None => None
    case Some((status, t)) =>
      match ReadWord(t, "; role=NONE; outcome=", OutcomeNamed)
      case None => None
      case Some((outcome, u)) =>
        match ReadWord(u, "; reason=", ReasonNamed)
        case None => None
        case Some((reason, v)) => ReadCounts(v, status, outcome, reason)
  }

  // ----- labels read back -----

  predicate IsWord(word: string) {
    forall i :: 0 <= i < |word| ==> !IsSemicolon(word[i])
  }

  lemma StatusReadsBack(status: Status)
    ensures IsWord(StatusLabel(status)) && StatusNamed(StatusLabel(status)) == Some(status)
  {
  }

  lemma OutcomeReadsBack(outcome: Option<ChatOutcome>)
    ensures IsWord(OutcomeLabel(outcome)) && OutcomeNamed(OutcomeLabel(outcome)) == Some(outcome)
  {
  }

  lemma SameLengthCodesDiffer()
    ensures "ANSWER_ELIGIBLE" != "ANSWER_GROUNDED" && "RETRIEVAL_FAILURE" != "GROUNDING_FAILURE"
    ensures "PROCESSING_FAILED" != "RETRIEVAL_FAILURE" && "PROCESSING_FAILED" != "GROUNDING_FAILURE"
  {
    assert "ANSWER_ELIGIBLE"[7] != "ANSWER_GROUNDED"[7];
    assert "RETRIEVAL_FAILURE"[0] != "GROUNDING_FAILURE"[0];
    assert "PROCESSING_FAILED"[0] != "RETRIEVAL_FAILURE"[0] && "PROCESSING_FAILED"[0] != "GROUNDING_FAILURE"[0];
  }

  lemma CodeReadsBack(code: ReasonCode)
    ensures CodeNamed(CodeLabel(code)) == Some(code)
    ensures |CodeLabel(code)| != 4 && |CodeLabel(code)| != 13 && |CodeLabel(code)| != 19
    ensures CodeLabel(code) != "PROCESSING_FAILED"
  {
    SameLengthCodesDiffer();
  }

  lemma CodeIsWord(code: ReasonCode)
    ensures IsWord(CodeLabel(code))
  {
    if code.UnsupportedTemporalScope? || code.InvalidEvidenceChain? {
      EvidenceCodeIsWord(code);
    } else if code.CitationRevalidationFailure? || code.InvalidProviderOutput? {
      OutputCodeIsWord(code);
    }
  }

  lemma EvidenceCodeIsWord(code: ReasonCode)
    requires code.UnsupportedTemporalScope? || code.InvalidEvidenceChain?
    ensures IsWord(CodeLabel(code))
  {
  }

  lemma OutputCodeIsWord(code: ReasonCode)
    requires code.CitationRevalidationFailure? || code.InvalidProviderOutput?
    ensures IsWord(CodeLabel(code))
  {
  }

  lemma ReasonReadsBack(reason: Option<RowReason>)
    ensures IsWord(ReasonLabel(reason)) && ReasonNamed(ReasonLabel(reason)) == Some(reason)
  {
    if reason.Some? && reason.value.FromChat? {
      CodeReadsBack(reason.value.code);
      CodeIsWord(reason.value.code);
      hide CodeLabel, CodeNamed;
    }
  }

  // ----- pieces read back -----

  lemma AfterLabel(name: string, rest: string)
    ensures After(name + rest, name) == Some(rest)
  {
  }

  lemma WordEnds(word: string, rest: string)
    requires IsWord(word) && rest != "" && rest[0] == ';'
    ensures IndexWhere(IsSemicolon, word + rest) == |word|
  {
    var t := word + rest;
    assert IsSemicolon(t[|word|]) && forall i :: 0 <= i < |word| ==> t[i] == word[i];
  }

  lemma ReadsWord<T>(name: string, word: string, rest: string, named: string -> Option<T>, value: T)
    requires IsWord(word) && named(word) == Some(value) && rest != "" && rest[0] == ';'
    ensures ReadWord(name + (word + rest), name, named) == Some((value, rest))
  {
    AfterLabel(name, word + rest);
    WordEnds(word, rest);
    assert (word + rest)[..|word|] == word && (word + rest)[|word|..] == rest;
  }

  lemma ReadsCount(name: string, n: nat, rest: string)
    requires rest != "" && rest[0] == ';'
    ensures ReadCount(name + (J.PrintNumber(n) + rest), name) == Some((n, rest))
  {
    AfterLabel(name, J.PrintNumber(n) + rest);
    J.ReadPrintedNumber(n, rest);
  }

  // ----- the entry -----

  /** The texts of an entry: the user's snippet and, if there is one, the assistant's. */
  function Texts(c: Candidate): string {
    Snippet(c.userText) + (match c.assistantText case None => "" case Some(text) => "; assistant=" + Snippet(text))
  }

  lemma Concat4(a: string, b: string, c: string, d: string)
    ensures a + b + c + d == a + (b + (c + d))
  {
  }

  /** An entry, from its end to its beginning. */
  lemma EntryUnfolds(c: Candidate)
    ensures RenderCandidate(c)
      == "status=" + (StatusLabel(c.status)
         + ("; role=NONE; outcome=" + (OutcomeLabel(c.outcome)
         + ("; reason=" + (ReasonLabel(c.reason)
         + ("; citations=" + (J.PrintNumber(c.citationCount)
         + ("; documents=" + (J.PrintNumber(c.documentCount)
         + ("; user=" + Texts(c)))))))))))
  {
    hide StatusLabel, OutcomeLabel, ReasonLabel, Snippet, J.PrintNumber;
    var s, o, r, n, m := StatusLabel(c.status), OutcomeLabel(c.outcome), ReasonLabel(c.reason),
      J.PrintNumber(c.citationCount), J.PrintNumber(c.documentCount);
    var u := Snippet(c.userText);
    var v := match c.assistantText case None => "" case Some(text) => "; assistant=" + Snippet(text);
    var p1 := "status=" + s;
    var p2 := p1 + "; role=NONE; outcome=" + o;
    var p3 := p2 + "; reason=" + r;
    var p4 := p3 + "; citations=" + n;
    var p5 := p4 + "; documents=" + m;
    assert RenderCandidate(c) == p5 + "; user=" + u + v;
    Concat4(p5, "; user=", u, v);
    var t6 := "; user=" + (u + v);
    Concat4(p4, "; documents=", m, t6);
    var t5 := "; documents=" + (m + t6);
    Concat4(p3, "; citations=", n, t5);
    var t4 := "; citations=" + (n + t5);
    Concat4(p2, "; reason=", r, t4);
    var t3 := "; reason=" + (r + t4);
    Concat4(p1, "; role=NONE; outcome=", o, t3);
    ConcatAssociates("status=", s, "; role=NONE; outcome=" + (o + t3));
  }

  /** What a snippet shows of a text: its first characters. */
  predicate Shows(shown: string, text: string) {
    if text == "" || !NoControls(text) then shown == "[invalid]"
    else shown <= text && |shown| == if |text| <= 160 then |text| else 160
  }

  const ASSISTANT_LABEL := "; assistant="

  predicate ShowsBoth(texts: string, n: nat, user: string, assistant: string) {
    && n + |ASSISTANT_LABEL| <= |texts| && Shows(texts[..n], user)
    && texts[n..n + |ASSISTANT_LABEL|] == ASSISTANT_LABEL && Shows(texts[n + |ASSISTANT_LABEL|..], assistant)
  }

  lemma TextsShow(c: Candidate)
    ensures c.assistantText.None? ==> Shows(Texts(c), c.userText)
    ensures c.assistantText.Some? ==> exists n: nat :: ShowsBoth(Texts(c), n, c.userText, c.assistantText.value)
  {
    var user := Snippet(c.userText);
    if c.assistantText.Some? {
      var shown := Snippet(c.assistantText.value);
      var texts := user + (ASSISTANT_LABEL + shown);
      assert Shows(user, c.userText) && Shows(shown, c.assistantText.value);
      hide Snippet, Shows;
      assert texts[..|user|] == user && texts[|user|..|user| + |ASSISTANT_LABEL|] == ASSISTANT_LABEL;
      assert texts[|user| + |ASSISTANT_LABEL|..] == shown;
      assert ShowsBoth(Texts(c), |user|, c.userText, c.assistantText.value);
    } else {
      assert user + "" == user;
    }
  }

  /** The entry of a folded exchange reads back to its status, its outcome, its reason and its
      counts, and ends with the beginnings of its texts: nothing in a text can pass for them. */
  lemma EntryReadsBack(c: Candidate)
    ensures ReadEntry(RenderCandidate(c)).Some?
    ensures var e := ReadEntry(RenderCandidate(c)).value;
      && e.status == c.status && e.outcome == c.outcome && e.reason == c.reason
      && e.citations == c.citationCount && e.documents == c.documentCount
      && (c.assistantText.None? ==> Shows(e.texts, c.userText))
      && (c.assistantText.Some? ==> exists n: nat :: ShowsBoth(e.texts, n, c.userText, c.assistantText.value))
  {
    hide StatusLabel, OutcomeLabel, ReasonLabel, Snippet, J.PrintNumber, ReadWord, ReadCount, After, RenderCandidate;
    hide StatusNamed, OutcomeNamed, ReasonNamed, IsWord, Shows, ShowsBoth, Texts;
    EntryUnfolds(c);
    TextsShow(c);
    StatusReadsBack(c.status);
    OutcomeReadsBack(c.outcome);
    ReasonReadsBack(c.reason);
    var t6 := "; user=" + Texts(c);
    var t5 := "; documents=" + (J.PrintNumber(c.documentCount) + t6);
    var t4 := "; citations=" + (J.PrintNumber(c.citationCount) + t5);
    var t3 := "; reason=" + (ReasonLabel(c.reason) + t4);
    var t2 := "; role=NONE; outcome=" + (OutcomeLabel(c.outcome) + t3);
    AfterLabel("; user=", Texts(c));
    ReadsCount("; documents=", c.documentCount, t6);
    ReadsCount("; citations=", c.citationCount, t5);
    ReadsWord("; reason=", ReasonLabel(c.reason), t4, ReasonNamed, c.reason);
    ReadsWord("; role=NONE; outcome=", OutcomeLabel(c.outcome), t3, OutcomeNamed, c.outcome);
    ReadsWord("status=", StatusLabel(c.status), t2, StatusNamed, c.status);
  }
}
