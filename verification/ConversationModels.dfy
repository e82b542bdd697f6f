/** Value contracts and database constraints of conversation state:
    src/legal_chatbot/conversation/models.py, orm.py and config.py. */
module ConversationModels {
  import opened Wrappers
  import opened Sequences
  import opened ChatModels

  const USER_TEXT_MAX_CHARS := 4_000
  const ASSISTANT_TEXT_MAX_CHARS := 4_000
  const DELIVERY_ID_MAX_CHARS := 256
  const ROLLING_SUMMARY_MAX_CHARS := 1_500
  const ACTIVE_TOPIC_MAX_CHARS := 256
  const REFERENCE_LIMIT_PER_KIND := 6
  const RETAINED_EXCHANGE_LIMIT := 32
  const CONTEXT_MAX_CHARS := 1_000
  const CONTEXT_TURN_LIMIT := 4

  datatype ErrorCode =
    | NotFound | Expired | InProgress | Busy | Conflict
    | DeliveryInvalid | StateInvalid | LeaseExpired | PersistenceFailure

  /** Settings may lower but never raise the maxima. */
  datatype SettingsData = SettingsData(
    recentTurnLimit: nat,
    summaryMaxChars: nat,
    topicMaxChars: nat,
    contextMaxChars: nat,
    referenceLimit: nat,
    retainedLimit: nat,
    retentionSeconds: nat,
    leaseSeconds: nat)
  {
    predicate Valid() {
      && 1 <= recentTurnLimit <= CONTEXT_TURN_LIMIT
      && 1 <= summaryMaxChars <= ROLLING_SUMMARY_MAX_CHARS
      && 1 <= topicMaxChars <= ACTIVE_TOPIC_MAX_CHARS
      && 1 <= contextMaxChars <= CONTEXT_MAX_CHARS
      && 1 <= referenceLimit <= REFERENCE_LIMIT_PER_KIND
      && 2 <= retainedLimit <= RETAINED_EXCHANGE_LIMIT
      && 60 <= retentionSeconds <= 604_800
      && 1 <= leaseSeconds <= 120
    }
  }

  type Settings = s: SettingsData | s.Valid() witness SettingsData(4, 1500, 256, 1000, 6, 32, 604_800, 120)

  /** One delivery to a known conversation, already validated by its contract. */
  datatype RequestData = RequestData(conversationId: Id, deliveryId: string, text: string)
  {
    predicate Valid() {
      SafeText(deliveryId, DELIVERY_ID_MAX_CHARS) && SafeText(text, USER_TEXT_MAX_CHARS)
    }
  }

  type Request = r: RequestData | r.Valid() witness RequestData(0, "d", "q")

  datatype ReferenceKind = CitationRef | DocumentRef

  datatype Reference = Reference(kind: ReferenceKind, referenceId: Id, ordinal: nat)

  predicate IsCitationRef(r: Reference) { r.kind.CitationRef? }

  predicate IsDocumentRef(r: Reference) { r.kind.DocumentRef? }

  function ReferenceIdOf(r: Reference): Id { r.referenceId }

  /** The references of one kind, in order. */
  function OfKind(kind: ReferenceKind, refs: seq<Reference>): seq<Reference> {
    match kind
    case CitationRef => Filter(IsCitationRef, refs)
    case DocumentRef => Filter(IsDocumentRef, refs)
  }

  function IdsOfKind(kind: ReferenceKind, refs: seq<Reference>): seq<Id> {
    Map(ReferenceIdOf, OfKind(kind, refs))
  }

  datatype Status = Processing | Completed | Failed | Abandoned

  predicate IsTerminal(status: Status) { !status.Processing? }

  /** The value of the chat_reason column: a chat reason or a failure code. */
  datatype RowReason = FromChat(code: ReasonCode) | LeaseExpiredReason | ProcessingFailed | AbandonedBySystem

  /** A row of conversation_exchanges together with its reference rows, which
      are deleted with it by the foreign key's cascade. */
  datatype Exchange = Exchange(
    id: Id,
    key: string,
    ordinal: nat,
    status: Status,
    lease: Option<Time>,
    userText: string,
    assistantText: Option<string>,
    outcome: Option<ChatOutcome>,
    reason: Option<RowReason>,
    runId: Option<Id>,
    provider: Option<string>,
    model: Option<string>,
    requestId: Option<string>,
    completedAt: Option<Time>,
    references: seq<Reference>)
  {
    predicate NoResultFields() {
      assistantText.None? && outcome.None? && runId.None? && provider.None? && model.None? && requestId.None?
    }

    /** ck_conversation_exchanges_status_shape */
    predicate StatusShape() {
      match status
      case Processing => lease.Some? && completedAt.None? && reason.None? && NoResultFields()
      case Completed => lease.None? && completedAt.Some? && assistantText.Some? && outcome.Some? && reason.Some?
      case _ => lease.None? && completedAt.None? && NoResultFields()
    }

    /** ck_conversation_exchanges_completed_result_shape */
    predicate ResultShape() {
      status.Completed? && outcome.Some? && reason.Some? ==>
        var noProvider := provider.None? && model.None? && requestId.None?;
        match outcome.value
        case Answer =>
          reason.value == FromChat(AnswerGrounded) && runId.Some? && provider.Some? && model.Some?
        case Clarification =>
          reason.value == FromChat(NoResults) && runId.Some? && noProvider
        case Refusal =>
          && reason.value.FromChat? && IsRefusalReason(reason.value.code) && noProvider
          && (reason.value.code.RetrievalFailure? <==> runId.None?)
    }

    /** ck_conversation_exchanges_failure_reason and the length checks */
    predicate ColumnChecks() {
      && ordinal > 0
      && 1 <= |userText| <= USER_TEXT_MAX_CHARS
      && (assistantText.Some? ==> 1 <= |assistantText.value| <= ASSISTANT_TEXT_MAX_CHARS)
      && (status.Failed? || status.Abandoned? ==> reason.None? || !reason.value.FromChat?)
      && (forall r :: r in references ==> r.ordinal <= 5)
    }

    /** Every CHECK constraint of the table. */
    predicate DatabaseChecks() {
      StatusShape() && ResultShape() && ColumnChecks()
    }
  }

  function OrdinalOf(e: Exchange): int { e.ordinal }

  function IdOf(e: Exchange): Id { e.id }

  predicate IsCompleted(e: Exchange) { e.status.Completed? }

  predicate IsTerminalRow(e: Exchange) { IsTerminal(e.status) }

  /** A row of conversations and its exchange rows in insertion order. */
  datatype Conversation = Conversation(
    stateVersion: nat,
    rollingSummary: Option<string>,
    activeTopic: Option<string>,
    expiresAt: Time,
    deletedAt: Option<Time>,
    rows: seq<Exchange>)

  datatype Role = UserRole | AssistantRole

  datatype Turn = Turn(ordinal: nat, role: Role, text: string, outcome: Option<ChatOutcome>, reason: Option<RowReason>)
  {
    predicate Valid() {
      && ordinal >= 1 && SafeText(text, USER_TEXT_MAX_CHARS)
      && match role
         case UserRole => outcome.None? && reason.None?
         case AssistantRole =>
           && outcome.Some? && reason.Some? && reason.value.FromChat?
           && match outcome.value
              case Answer => reason.value.code.AnswerGrounded?
              case Clarification => reason.value.code.NoResults?
              case Refusal => IsRefusalReason(reason.value.code)
    }
  }

  predicate OptionalSafe(text: Option<string>, maximum: nat) {
    text.Some? ==> SafeText(text.value, maximum)
  }

  datatype Snapshot = Snapshot(
    stateVersion: nat,
    rollingSummary: Option<string>,
    activeTopic: Option<string>,
    recentTurns: seq<Turn>,
    references: seq<Reference>)
  {
    predicate Valid() {
      && OptionalSafe(rollingSummary, ROLLING_SUMMARY_MAX_CHARS)
      && OptionalSafe(activeTopic, ACTIVE_TOPIC_MAX_CHARS)
      && |recentTurns| <= CONTEXT_TURN_LIMIT
      && (forall t :: t in recentTurns ==> t.Valid())
      && (forall i, j :: 0 <= i < j < |recentTurns| ==> recentTurns[i].ordinal < recentTurns[j].ordinal)
      && ReferencesValid(references)
    }
  }

  /** Unique by kind and identity, unique by kind and ordinal, bounded per kind. */
  predicate ReferencesValid(refs: seq<Reference>) {
    && (forall r :: r in refs ==> r.ordinal <= REFERENCE_LIMIT_PER_KIND - 1)
    && ReferencesUnique(refs)
    && |OfKind(CitationRef, refs)| <= REFERENCE_LIMIT_PER_KIND
    && |OfKind(DocumentRef, refs)| <= REFERENCE_LIMIT_PER_KIND
    && |refs| <= 2 * REFERENCE_LIMIT_PER_KIND
  }

  predicate ReferencesUnique(refs: seq<Reference>) {
    forall i, j :: 0 <= i < j < |refs| && refs[i].kind == refs[j].kind ==>
      refs[i].referenceId != refs[j].referenceId && refs[i].ordinal != refs[j].ordinal
  }

  datatype Candidate = Candidate(
    exchangeId: Id,
    ordinal: nat,
    status: Status,
    userText: string,
    assistantText: Option<string>,
    outcome: Option<ChatOutcome>,
    reason: Option<RowReason>,
    citationCount: nat,
    documentCount: nat)
  {
    predicate Valid() {
      && ordinal >= 1
      && SafeText(userText, USER_TEXT_MAX_CHARS)
      && OptionalSafe(assistantText, ASSISTANT_TEXT_MAX_CHARS)
      && citationCount <= REFERENCE_LIMIT_PER_KIND && documentCount <= REFERENCE_LIMIT_PER_KIND
      && match status
         case Completed => assistantText.Some? && outcome.Some? && reason.Some?
         case Processing => false
         case _ => assistantText.None? && outcome.None?
    }
  }

  function CandidateIdOf(c: Candidate): Id { c.exchangeId }

  datatype Plan = Plan(exchangeIds: seq<Id>, candidates: seq<Candidate>)
  {
    predicate Valid() {
      && Distinct(exchangeIds)
      && exchangeIds == Map(CandidateIdOf, candidates)
      && forall c :: c in candidates ==> c.Valid()
    }
  }

  datatype Reservation = Reservation(
    conversationId: Id,
    exchangeId: Id,
    ordinal: nat,
    expectedVersion: nat,
    snapshot: Snapshot,
    plan: Plan)

  /** Version-bound values persisted with a completed exchange. */
  datatype StateUpdate = StateUpdate(
    expectedVersion: nat,
    rollingSummary: Option<string>,
    activeTopic: Option<string>,
    compactedIds: seq<Id>)
  {
    predicate Valid() {
      && OptionalSafe(rollingSummary, ROLLING_SUMMARY_MAX_CHARS)
      && OptionalSafe(activeTopic, ACTIVE_TOPIC_MAX_CHARS)
      && |compactedIds| <= RETAINED_EXCHANGE_LIMIT
      && Distinct(compactedIds)
    }
  }

  /** A completed exchange as replay reads it back. */
  datatype Persisted = Persisted(
    conversationId: Id,
    exchangeId: Id,
    ordinal: nat,
    status: Status,
    assistantText: string,
    outcome: ChatOutcome,
    reason: ReasonCode,
    runId: Option<Id>,
    provider: Option<string>,
    model: Option<string>,
    requestId: Option<string>,
    references: seq<Reference>)
  {
    function CitationIds(): seq<Id> { IdsOfKind(CitationRef, references) }

    function DocumentIds(): seq<Id> { IdsOfKind(DocumentRef, references) }

    predicate Valid() {
      && ordinal >= 1 && status.Completed?
      && SafeText(assistantText, ASSISTANT_TEXT_MAX_CHARS)
      && ValidName(provider) && ValidName(model) && ValidRequestId(requestId)
      && ReferencesValid(references)
      && Ordered(KindOrdinalRank, references)
      && var hasProvider := provider.Some? || model.Some? || requestId.Some?;
         match outcome
         case Answer =>
           reason.AnswerGrounded? && runId.Some? && CitationIds() != [] && provider.Some? && model.Some?
         case Clarification =>
           reason.NoResults? && runId.Some? && references == [] && !hasProvider
         case Refusal =>
           && IsRefusalReason(reason) && references == [] && !hasProvider
           && (reason.RetrievalFailure? || runId.Some?)
    }
  }

  /** Sort key (kind, ordinal): CITATION sorts before DOCUMENT. */
  function KindOrdinalRank(r: Reference): int {
    (if r.kind.CitationRef? then 0 else REFERENCE_LIMIT_PER_KIND) + r.ordinal
  }

  /** Sort key (ordinal, kind). */
  function OrdinalKindRank(r: Reference): int {
    2 * r.ordinal + (if r.kind.CitationRef? then 0 else 1)
  }

  datatype ReservationResult =
    | Reserved(reservation: Reservation)
    | DuplicateCompleted(completed: Persisted)
    | DuplicateProcessing(conversationId: Id, exchangeId: Id)
    | DuplicateTerminal(conversationId: Id, exchangeId: Id)
}
