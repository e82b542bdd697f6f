/** Value contracts of the grounded-chat seam: src/legal_chatbot/chat/models.py and
    the fixed refusal texts of src/legal_chatbot/chat/policy.py.

    Text is modelled after normalisation: NFC folding and stripping are the identity,
    so "blank" means empty. A control character is one of Unicode category Cc. */
module ChatModels {
  import opened Wrappers
  import opened Sequences

  type Id = nat     // a UUID
  type Time = int   // an instant read from some caller's clock

  const MAX_CITATIONS := 6
  const ANSWER_MAX_CHARS := 4_000
  const METADATA_MAX_CHARS := 128

  datatype ChatOutcome = Answer | Clarification | Refusal

  datatype ReasonCode =
    | AnswerEligible
    | AnswerGrounded
    | NoResults
    | UnsupportedTemporalScope
    | InvalidEvidenceChain
    | RetrievalFailure
    | GroundingFailure
    | ProviderFailure
    | InvalidProviderOutput
    | CitationRevalidationFailure

  predicate IsRefusalReason(reason: ReasonCode) {
    reason.UnsupportedTemporalScope? || reason.InvalidEvidenceChain? || reason.RetrievalFailure?
    || reason.GroundingFailure? || reason.ProviderFailure? || reason.InvalidProviderOutput?
    || reason.CitationRevalidationFailure?
  }

  predicate IsControl(c: char) {
    c < ' ' || '\U{007F}' <= c <= '\U{009F}'
  }

  /** Persisted text: nonblank, without control characters, within its column. */
  predicate SafeText(text: string, maximum: nat) {
    text != "" && |text| <= maximum && NoControls(text)
  }

  predicate NoControls(text: string) {
    forall i :: 0 <= i < |text| ==> !IsControl(text[i])
  }

  predicate ValidName(name: Option<string>) {
    name.Some? ==> 1 <= |name.value| <= METADATA_MAX_CHARS
  }

  predicate ValidRequestId(requestId: Option<string>) {
    requestId.Some? ==>
      && 1 <= |requestId.value| <= METADATA_MAX_CHARS
      && forall i :: 0 <= i < |requestId.value| ==> '!' <= requestId.value[i] <= '~'
  }

  /** A resolved citation: its immutable identity fields and its display metadata. */
  datatype Citation = Citation(
    citationId: Id,
    runId: Id,
    chunkId: Id,
    versionId: Id,
    documentId: Id,
    provenanceId: Id,
    trustMode: nat,
    trustLabel: nat,
    display: string)

  function CitationIdOf(citation: Citation): Id { citation.citationId }

  function CitationIds(citations: seq<Citation>): seq<Id> {
    Map(CitationIdOf, citations)
  }

  function DocumentIdOf(citation: Citation): Id { citation.documentId }

  /** The documents cited, each once, in the order they are first seen. */
  function DocumentIds(citations: seq<Citation>): seq<Id> {
    Dedup(Map(DocumentIdOf, citations))
  }

  datatype ChatResult = ChatResult(
    outcome: ChatOutcome,
    reason: ReasonCode,
    answer: string,
    runId: Option<Id>,
    citations: seq<Citation>,
    provider: Option<string>,
    model: Option<string>,
    requestId: Option<string>)
  {
    predicate HasProviderMetadata() {
      provider.Some? || model.Some? || requestId.Some?
    }

    /** The outcome-dependent shape the model validator accepts. */
    predicate ValidRoute() {
      match outcome
      case Answer =>
        reason.AnswerGrounded? && runId.Some? && citations != [] && provider.Some? && model.Some?
      case Clarification =>
        reason.NoResults? && runId.Some? && citations == [] && !HasProviderMetadata()
      case Refusal =>
        && IsRefusalReason(reason) && citations == [] && !HasProviderMetadata()
        && (reason.RetrievalFailure? || runId.Some?)
    }

    predicate Valid() {
      && answer != "" && |answer| <= ANSWER_MAX_CHARS
      && |citations| <= MAX_CITATIONS
      && Distinct(CitationIds(citations))
      && (runId.Some? ==> forall c :: c in citations ==> c.runId == runId.value)
      && ValidName(provider) && ValidName(model) && ValidRequestId(requestId)
      && ValidRoute()
    }
  }

  const TEMPORAL_OPENING := "Dạ, trong phạm vi bản demo này, em "
  const TEMPORAL_BODY := "không thể trả lời về hiệu lực pháp lý "
  const TEMPORAL_SCOPE := "tại một thời điểm cụ thể. Thầy/cô "
  const TEMPORAL_OFFER := "có thể hỏi về nội dung của " + "văn bản được cung cấp."
  const TEMPORAL_REFUSAL_TEXT := TEMPORAL_OPENING + TEMPORAL_BODY + TEMPORAL_SCOPE + TEMPORAL_OFFER

  const GENERIC_OPENING := "Dạ, em chưa có đủ " + "thông tin đáng tin cậy "
  const GENERIC_BODY := "để trả lời câu hỏi này. "
  const CLARIFICATION_OPENING := "Dạ, em chưa tìm thấy " + "thông tin phù hợp. "
  const REPHRASE := "Thầy/cô vui lòng làm rõ câu hỏi hoặc "
  const MORE_DETAIL := "cung cấp thêm chi tiết."
  const GENERIC_REFUSAL_TEXT := GENERIC_OPENING + GENERIC_BODY + REPHRASE + MORE_DETAIL
  const NO_RESULTS_CLARIFICATION_TEXT := CLARIFICATION_OPENING + REPHRASE + MORE_DETAIL

  function RefusalText(reason: ReasonCode): string {
    if reason.UnsupportedTemporalScope? then TEMPORAL_REFUSAL_TEXT else GENERIC_REFUSAL_TEXT
  }

  /** A fixed refusal: src/legal_chatbot/chat/service.py `_failure`, conversation/service.py `_fixed_refusal`. */
  function FixedRefusal(reason: ReasonCode, runId: Option<Id>): ChatResult {
    ChatResult(Refusal, reason, RefusalText(reason), runId, [], None, None, None)
  }

  lemma NoControlsConcat(a: string, b: string)
    requires NoControls(a) && NoControls(b)
    ensures NoControls(a + b)
  {
  }

  lemma TemporalStartIsClean()
    ensures NoControls(TEMPORAL_OPENING) && NoControls(TEMPORAL_BODY)
  {
  }

  lemma TemporalEndIsClean()
    ensures NoControls(TEMPORAL_SCOPE) && NoControls(TEMPORAL_OFFER)
  {
    assert NoControls("có thể hỏi về nội dung của ");
    assert NoControls("văn bản được cung cấp.");
  }

  lemma OpeningsAreClean()
    ensures NoControls(GENERIC_OPENING) && NoControls(CLARIFICATION_OPENING)
  {
    assert NoControls("Dạ, em chưa có đủ ");
    assert NoControls("thông tin đáng tin cậy ");
    assert NoControls("Dạ, em chưa tìm thấy ");
    assert NoControls("thông tin phù hợp. ");
  }

  lemma ClosingsAreClean()
    ensures NoControls(GENERIC_BODY) && NoControls(REPHRASE) && NoControls(MORE_DETAIL)
  {
  }

  /** Every fixed text can be stored, so a refusal never fails for its wording. */
  lemma FixedTextsAreStorable(reason: ReasonCode)
    ensures SafeText(RefusalText(reason), ANSWER_MAX_CHARS)
    ensures SafeText(NO_RESULTS_CLARIFICATION_TEXT, ANSWER_MAX_CHARS)
  {
    TemporalStartIsClean();
    TemporalEndIsClean();
    OpeningsAreClean();
    ClosingsAreClean();
    JoinedTextIsSafe(TEMPORAL_OPENING, TEMPORAL_BODY, TEMPORAL_SCOPE, TEMPORAL_OFFER);
    JoinedTextIsSafe(GENERIC_OPENING, GENERIC_BODY, REPHRASE, MORE_DETAIL);
    JoinedTextIsSafe(CLARIFICATION_OPENING, "", REPHRASE, MORE_DETAIL);
    assert CLARIFICATION_OPENING + "" == CLARIFICATION_OPENING;
  }

  lemma JoinedTextIsSafe(a: string, b: string, c: string, d: string)
    requires NoControls(a) && NoControls(b) && NoControls(c) && NoControls(d)
    requires a != "" && |a| + |b| + |c| + |d| <= ANSWER_MAX_CHARS
    ensures SafeText(a + b + c + d, ANSWER_MAX_CHARS)
  {
  }

  /** A fixed refusal is always a valid result: building one never raises. */
  lemma FixedRefusalIsValid(reason: ReasonCode, runId: Option<Id>)
    requires IsRefusalReason(reason) && (reason.RetrievalFailure? || runId.Some?)
    ensures FixedRefusal(reason, runId).Valid() && SafeText(FixedRefusal(reason, runId).answer, ANSWER_MAX_CHARS)
  {
    FixedTextsAreStorable(reason);
    hide RefusalText;
  }
}
