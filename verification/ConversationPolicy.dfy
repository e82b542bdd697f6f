/** Deterministic policy over bounded conversation state:
    src/legal_chatbot/conversation/policy.py. */
module ConversationPolicy {
  import opened Wrappers
  import opened Sequences
  import opened ChatModels
  import opened ConversationModels
  import J = Json

  const COMPACTION_SEPARATOR := " | "
  const SNIPPET_MAX_CHARS := 160

  // ----- rendering a compacted exchange -----

  function StatusLabel(status: Status): string {
    match status
    case Processing => "PROCESSING"
    case Completed => "COMPLETED"
    case Failed => "FAILED"
    case Abandoned => "ABANDONED"
  }

  function OutcomeLabel(outcome: Option<ChatOutcome>): string {
    match outcome
    case None => "NONE"
    case Some(Answer) => "ANSWER"
    case Some(Clarification) => "CLARIFICATION"
    case Some(Refusal) => "REFUSAL"
  }

  function ReasonLabel(reason: Option<RowReason>): string {
    match reason
    case None => "NONE"
    case Some(LeaseExpiredReason) => "LEASE_EXPIRED"
    case Some(ProcessingFailed) => "PROCESSING_FAILED"
    case Some(AbandonedBySystem) => "ABANDONED_BY_SYSTEM"
    case Some(FromChat(code)) => CodeLabel(code)
  }

  function CodeLabel(code: ReasonCode): string {
    match code
    case AnswerEligible => "ANSWER_ELIGIBLE"
    case AnswerGrounded => "ANSWER_GROUNDED"
    case NoResults => "NO_RESULTS"
    case UnsupportedTemporalScope => "UNSUPPORTED_TEMPORAL_SCOPE"
    case InvalidEvidenceChain => "INVALID_EVIDENCE_CHAIN"
    case RetrievalFailure => "RETRIEVAL_FAILURE"
    case GroundingFailure => "GROUNDING_FAILURE"
    case ProviderFailure => "PROVIDER_FAILURE"
    case InvalidProviderOutput => "INVALID_PROVIDER_OUTPUT"
    case CitationRevalidationFailure => "CITATION_REVALIDATION_FAILURE"
  }

  function Snippet(text: string): string {
    if text == "" || !NoControls(text) then "[invalid]" else Take(text, SNIPPET_MAX_CHARS)
  }

  function RenderCandidate(c: Candidate): string {
    "status=" + StatusLabel(c.status) + "; role=NONE; outcome=" + OutcomeLabel(c.outcome)
    + "; reason=" + ReasonLabel(c.reason) + "; citations=" + J.PrintNumber(c.citationCount)
    + "; documents=" + J.PrintNumber(c.documentCount) + "; user=" + Snippet(c.userText)
    + (match c.assistantText case None => "" case Some(text) => "; assistant=" + Snippet(text))
  }

  // ----- the rolling summary -----

  /** `separator.join(values)[-limit:]` over the nonempty values, or none. */
  function Summary(existing: Option<string>, entries: seq<string>, limit: nat): Option<string> {
    var values := (if existing.Some? then [existing.value] else []) + entries;
    if values == [] then None else Some(Last(Join(COMPACTION_SEPARATOR, values), limit))
  }

  function Entries(candidates: seq<Candidate>): seq<string> {
    Map(RenderCandidate, candidates)
  }

  /** summarize_compacted: an invalid stored summary is a state error. */
  function SummarizeCompacted(existing: Option<string>, candidates: seq<Candidate>, limit: nat)
    : Result<Option<string>, ErrorCode>
  {
    if !OptionalSafe(existing, ROLLING_SUMMARY_MAX_CHARS) then Err(StateInvalid)
    else Ok(Summary(existing, Entries(candidates), limit))
  }

  /** Fold law: compacting `a` and then `b` is compacting `a + b` at once, whatever
      the cut, so the stored summary is the newest suffix of the unbounded one. */
  lemma SummaryFolds(existing: Option<string>, a: seq<string>, b: seq<string>, limit: nat)
    ensures Summary(Summary(existing, a, limit), b, limit) == Summary(existing, a + b, limit)
  {
    var first := (if existing.Some? then [existing.value] else []) + a;
    assert (if existing.Some? then [existing.value] else []) + (a + b) == first + b;
    if first == [] {
      assert a == [] && b == a + b;
    } else {
      var kept := Last(Join(COMPACTION_SEPARATOR, first), limit);
      if b == [] {
        assert [kept] + b == [kept];
        assert first + b == first;
        LastOfLast(Join(COMPACTION_SEPARATOR, first), "", limit);
        assert kept + "" == kept;
        assert Join(COMPACTION_SEPARATOR, first) + "" == Join(COMPACTION_SEPARATOR, first);
      } else {
        JoinConcat(COMPACTION_SEPARATOR, [kept], b);
        JoinConcat(COMPACTION_SEPARATOR, first, b);
        var tail := COMPACTION_SEPARATOR + Join(COMPACTION_SEPARATOR, b);
        LastOfLast(Join(COMPACTION_SEPARATOR, first), tail, limit);
        assert kept + tail == Join(COMPACTION_SEPARATOR, [kept] + b);
        assert Join(COMPACTION_SEPARATOR, first) + tail == Join(COMPACTION_SEPARATOR, first + b);
      }
    }
  }

  /** The summary is the newest end of everything joined, the stored summary first: all of
      it when it fits, and otherwise its last `limit` characters. */
  lemma SummaryIsTheNewestEnd(existing: Option<string>, entries: seq<string>, limit: nat)
    ensures var values := (if existing.Some? then [existing.value] else []) + entries;
      var joined := Join(COMPACTION_SEPARATOR, values);
      var summary := Summary(existing, entries, limit);
      && (summary.None? <==> existing.None? && entries == [])
      && (summary.Some? ==>
            && |summary.value| == (if |joined| <= limit then |joined| else limit)
            && forall i :: 0 <= i < |summary.value| ==> summary.value[i] == joined[|joined| - |summary.value| + i])
  {
    hide Join;
  }

  lemma {:induction false} JoinIsClean(values: seq<string>)
    requires values != [] && forall k :: 0 <= k < |values| ==> values[k] != "" && NoControls(values[k])
    ensures Join(COMPACTION_SEPARATOR, values) != "" && NoControls(Join(COMPACTION_SEPARATOR, values))
  {
    if |values| > 1 {
      JoinIsClean(values[..|values| - 1]);
      var front := Join(COMPACTION_SEPARATOR, values[..|values| - 1]);
      NoControlsConcat(front, COMPACTION_SEPARATOR);
      NoControlsConcat(front + COMPACTION_SEPARATOR, values[|values| - 1]);
    }
  }

  lemma StatusLabelIsClean(status: Status)
    ensures NoControls(StatusLabel(status))
  {
  }

  lemma OutcomeLabelIsClean(outcome: Option<ChatOutcome>)
    ensures NoControls(OutcomeLabel(outcome))
  {
  }

  lemma ReasonLabelIsClean(reason: Option<RowReason>)
    ensures NoControls(ReasonLabel(reason))
  {
    if reason.Some? && reason.value.FromChat? {
      CodeLabelIsClean(reason.value.code);
    }
  }

  lemma CodeLabelIsClean(code: ReasonCode)
    ensures NoControls(CodeLabel(code))
  {
    if code.UnsupportedTemporalScope? || code.InvalidEvidenceChain? {
      EvidenceCodeLabelIsClean(code);
    } else if code.CitationRevalidationFailure? || code.InvalidProviderOutput? {
      OutputCodeLabelIsClean(code);
    }
  }

  lemma EvidenceCodeLabelIsClean(code: ReasonCode)
    requires code.UnsupportedTemporalScope? || code.InvalidEvidenceChain?
    ensures NoControls(CodeLabel(code))
  {
  }

  lemma OutputCodeLabelIsClean(code: ReasonCode)
    requires code.CitationRevalidationFailure? || code.InvalidProviderOutput?
    ensures NoControls(CodeLabel(code))
  {
  }

  lemma SnippetIsClean(text: string)
    ensures NoControls(Snippet(text))
  {
  }

  lemma {:induction false} NumberIsClean(n: nat)
    ensures NoControls(J.PrintNumber(n)) && J.PrintNumber(n) != ""
  {
    if n >= 10 {
      NumberIsClean(n / 10);
      NoControlsConcat(J.PrintNumber(n / 10), [J.DigitChar(n % 10)]);
    }
  }

  lemma RenderIsClean(c: Candidate)
    ensures RenderCandidate(c) != "" && NoControls(RenderCandidate(c))
  {
    StatusLabelIsClean(c.status);
    OutcomeLabelIsClean(c.outcome);
    ReasonLabelIsClean(c.reason);
    SnippetIsClean(c.userText);
    NumberIsClean(c.citationCount);
    NumberIsClean(c.documentCount);
    hide J.PrintNumber;
    if c.assistantText.Some? { SnippetIsClean(c.assistantText.value); }
    var a := "status=" + StatusLabel(c.status);
    var b := a + "; role=NONE; outcome=" + OutcomeLabel(c.outcome);
    assert NoControls(b) by { NoControlsConcat(a, "; role=NONE; outcome=");
      NoControlsConcat(a + "; role=NONE; outcome=", OutcomeLabel(c.outcome)); }
    var d := b + "; reason=" + ReasonLabel(c.reason);
    assert NoControls(d) by { NoControlsConcat(b, "; reason=");
      NoControlsConcat(b + "; reason=", ReasonLabel(c.reason)); }
    var e := d + "; citations=" + J.PrintNumber(c.citationCount);
    assert NoControls(e) by { NoControlsConcat(d, "; citations=");
      NoControlsConcat(d + "; citations=", J.PrintNumber(c.citationCount)); }
    var f := e + "; documents=" + J.PrintNumber(c.documentCount);
    assert NoControls(f) by { NoControlsConcat(e, "; documents=");
      NoControlsConcat(e + "; documents=", J.PrintNumber(c.documentCount)); }
    var g := f + "; user=" + Snippet(c.userText);
    assert NoControls(g) by { NoControlsConcat(f, "; user=");
      NoControlsConcat(f + "; user=", Snippet(c.userText)); }
    if c.assistantText.Some? {
      NoControlsConcat("; assistant=", Snippet(c.assistantText.value));
      NoControlsConcat(g, "; assistant=" + Snippet(c.assistantText.value));
      assert RenderCandidate(c) == g + ("; assistant=" + Snippet(c.assistantText.value));
    } else {
      assert RenderCandidate(c) == g + "";
      assert g + "" == g;
    }
  }

  lemma LastIsClean(text: string, n: nat)
    requires text != "" && NoControls(text) && n > 0
    ensures Last(text, n) != "" && NoControls(Last(text, n)) && |Last(text, n)| <= n
  {
  }

  /** The next summary is always storable when the stored one is. */
  lemma SummaryIsStorable(existing: Option<string>, candidates: seq<Candidate>, limit: nat)
    requires OptionalSafe(existing, ROLLING_SUMMARY_MAX_CHARS) && 1 <= limit <= ROLLING_SUMMARY_MAX_CHARS
    ensures OptionalSafe(Summary(existing, Entries(candidates), limit), ROLLING_SUMMARY_MAX_CHARS)
  {
    var values := (if existing.Some? then [existing.value] else []) + Entries(candidates);
    if values != [] {
      forall k | 0 <= k < |values| ensures values[k] != "" && NoControls(values[k]) {
        if k > 0 || existing.None? {
          RenderIsClean(candidates[if existing.Some? then k - 1 else k]);
        }
      }
      JoinIsClean(values);
      LastIsClean(Join(COMPACTION_SEPARATOR, values), limit);
    }
  }

  // ----- the active topic and the state update -----

  function DeriveActiveTopic(text: string, settings: Settings): string {
    Take(text, settings.topicMaxChars)
  }

  /** build_state_update: the update bound to one reservation. A plan of more than
      RETAINED_EXCHANGE_LIMIT ids is rejected by the update's own validator. */
  function BuildStateUpdate(reservation: Reservation, request: Request, settings: Settings)
    : Result<StateUpdate, ErrorCode>
  {
    match SummarizeCompacted(reservation.snapshot.rollingSummary, reservation.plan.candidates, settings.summaryMaxChars)
    case Err(code) => Err(code)
    case Ok(summary) =>
      var update := StateUpdate(
        reservation.expectedVersion, summary, Some(DeriveActiveTopic(request.text, settings)),
        reservation.plan.exchangeIds);
      if update.Valid() then Ok(update) else Err(PersistenceFailure)
  }

  /** With a valid snapshot and plan, the update exists exactly for plans that fit. */
  lemma StateUpdateExistsIffPlanFits(reservation: Reservation, request: Request, settings: Settings)
    requires reservation.snapshot.Valid() && reservation.plan.Valid()
    ensures BuildStateUpdate(reservation, request, settings).Ok?
            <==> |reservation.plan.exchangeIds| <= RETAINED_EXCHANGE_LIMIT
  {
    SummaryIsStorable(reservation.snapshot.rollingSummary, reservation.plan.candidates, settings.summaryMaxChars);
  }

  /** What building an update comes to, for any reservation: a stored summary that is not safe
      is a state error; a plan that is too long or repeats an id cannot be an update; and
      otherwise there is one. */
  lemma UpdateIsDecided(reservation: Reservation, request: Request, settings: Settings)
    ensures var r, ids := BuildStateUpdate(reservation, request, settings), reservation.plan.exchangeIds;
      if !OptionalSafe(reservation.snapshot.rollingSummary, ROLLING_SUMMARY_MAX_CHARS) then r == Err(StateInvalid)
      else if |ids| > RETAINED_EXCHANGE_LIMIT || exists i, j :: 0 <= i < j < |ids| && ids[i] == ids[j]
      then r == Err(PersistenceFailure)
      else r.Ok? && r.value.compactedIds == ids && r.value.expectedVersion == reservation.expectedVersion
  {
    if OptionalSafe(reservation.snapshot.rollingSummary, ROLLING_SUMMARY_MAX_CHARS) {
      SummaryIsStorable(reservation.snapshot.rollingSummary, reservation.plan.candidates, settings.summaryMaxChars);
      hide Summary, Entries;
      var topic := DeriveActiveTopic(request.text, settings);
      assert SafeText(topic, ACTIVE_TOPIC_MAX_CHARS);
    }
  }
}
