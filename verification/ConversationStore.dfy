/** The transactions of `PostgresConversationRepository`
    (src/legal_chatbot/conversation/repository.py). Each runs under the row lock of
    its conversation, so each is one step from the old row to the new one; an error
    rolls the step back. The functions say what a transaction computes; the class
    performs it on its table of conversations. */
module ConversationStore {
  import opened Wrappers
  import opened Sequences
  import opened ChatModels
  import opened ConversationModels
  import opened SnapshotConstruction

  datatype Tx<+R> = Tx(conversation: Option<Conversation>, result: Result<R, ErrorCode>)

  // ----- queries -----

  function RequireActive(conversation: Option<Conversation>, now: Time): Result<Conversation, ErrorCode> {
    if conversation.None? || conversation.value.deletedAt.Some? then Err(NotFound)
    else if conversation.value.expiresAt <= now then Err(Expired)
    else Ok(conversation.value)
  }

  /** UPDATE ... SET status = ABANDONED WHERE status = PROCESSING AND lease_expires_at <= now */
  function AbandonRow(row: Exchange, now: Time): Exchange {
    if row.status.Processing? && row.lease.Some? && row.lease.value <= now
    then row.(status := Abandoned, lease := None, reason := Some(LeaseExpiredReason))
    else row
  }

  function AbandonStale(rows: seq<Exchange>, now: Time): (r: seq<Exchange>)
    ensures |r| == |rows|
    ensures forall i :: 0 <= i < |rows| ==> r[i] == AbandonRow(rows[i], now)
  {
    seq(|rows|, i requires 0 <= i < |rows| => AbandonRow(rows[i], now))
  }

  function FindByKey(rows: seq<Exchange>, key: string): Option<Exchange> {
    if rows == [] then None
    else if rows[0].key == key then Some(rows[0])
    else FindByKey(rows[1..], key)
  }

  function FindById(rows: seq<Exchange>, id: Id, ordinal: nat): Option<Exchange> {
    if rows == [] then None
    else if rows[0].id == id && rows[0].ordinal == ordinal then Some(rows[0])
    else FindById(rows[1..], id, ordinal)
  }

  predicate HasProcessing(rows: seq<Exchange>) {
    exists i :: 0 <= i < |rows| && rows[i].status.Processing?
  }

  /** `max(ordinal) or 0` */
  function MaxOrdinal(rows: seq<Exchange>): nat {
    if rows == [] then 0 else Max(MaxOrdinal(rows[..|rows| - 1]), rows[|rows| - 1].ordinal)
  }

  function TerminalCount(rows: seq<Exchange>): nat {
    |Filter(IsTerminalRow, rows)|
  }

  function IdIn(ids: seq<Id>): Exchange -> bool {
    (e: Exchange) => e.id in ids
  }

  function IdNotIn(ids: seq<Id>): Exchange -> bool {
    (e: Exchange) => e.id !in ids
  }

  // ----- compaction -----

  function CandidateOf(e: Exchange): Candidate {
    Candidate(e.id, e.ordinal, e.status, e.userText, e.assistantText, e.outcome, e.reason,
      |OfKind(CitationRef, e.references)|, |OfKind(DocumentRef, e.references)|)
  }

  /** The oldest terminal exchanges that must go so that one more can be retained. */
  function PlanFor(rows: seq<Exchange>, limit: nat): Plan {
    var count := Max(0, TerminalCount(rows) + 1 - limit);
    var oldest := Take(OrderBy(OrdinalOf, Filter(IsTerminalRow, rows)), count);
    Plan(Map(IdOf, oldest), Map(CandidateOf, oldest))
  }

  /** The plan's rows in ordinal order, if they are still exactly the planned ones. */
  function LockedCandidates(rows: seq<Exchange>, plan: Plan): Option<seq<Exchange>> {
    var found := OrderBy(OrdinalOf, Filter(IdIn(plan.exchangeIds), rows));
    if plan.exchangeIds == [] then Some([])
    else if Map(IdOf, found) == plan.exchangeIds && forall e :: e in found ==> IsTerminal(e.status) then Some(found)
    else None
  }

  // ----- snapshot -----

  function LoadSnapshot(conversation: Conversation, settings: Settings): Snapshot {
    Snapshot(
      conversation.stateVersion, conversation.rollingSummary, conversation.activeTopic,
      RecentTurns(conversation.rows, settings.recentTurnLimit),
      SelectReferences(ReferenceStream(conversation.rows, settings.retainedLimit), settings.referenceLimit))
  }

  // ----- reserve -----

  function PersistedOf(conversationId: Id, e: Exchange, references: seq<Reference>): Option<Persisted> {
    if e.outcome.None? || e.reason.None? || !e.reason.value.FromChat? then None
    else
      var persisted := Persisted(conversationId, e.id, e.ordinal, e.status,
        if e.assistantText.Some? then e.assistantText.value else "", e.outcome.value, e.reason.value.code,
        e.runId, e.provider, e.model, e.requestId, references);
      if persisted.Valid() then Some(persisted) else None
  }

  function ReservationForExisting(conversationId: Id, e: Exchange): Result<ReservationResult, ErrorCode> {
    match e.status
    case Completed =>
      (match PersistedOf(conversationId, e, OrderBy(KindOrdinalRank, e.references))
       case Some(persisted) => Ok(DuplicateCompleted(persisted))
       case None => Err(StateInvalid))
    case Processing => Ok(DuplicateProcessing(conversationId, e.id))
    case _ => Ok(DuplicateTerminal(conversationId, e.id))
  }

  function NewExchange(id: Id, request: Request, ordinal: nat, lease: Time): Exchange {
    Exchange(id, request.deliveryId, ordinal, Processing, Some(lease), request.text,
      None, None, None, None, None, None, None, None, [])
  }

  /** What a reservation finds after inserting its exchange. */
  function ReservationFor(conversation: Conversation, conversationId: Id, e: Exchange, settings: Settings): Option<Reservation> {
    var plan := PlanFor(conversation.rows, settings.retainedLimit);
    var snapshot := LoadSnapshot(conversation, settings);
    if plan.Valid() && snapshot.Valid()
    then Some(Reservation(conversationId, e.id, e.ordinal, conversation.stateVersion, snapshot, plan))
    else None
  }

  function ReserveTx(conversation: Option<Conversation>, request: Request, now: Time, freshId: Id, settings: Settings)
    : Tx<ReservationResult>
  {
    match RequireActive(conversation, now)
    case Err(code) => Tx(conversation, Err(code))
    case Ok(active) =>
      var swept := active.(rows := AbandonStale(active.rows, now));
      match FindByKey(swept.rows, request.deliveryId)
      case Some(existing) =>
        (match ReservationForExisting(request.conversationId, existing)
         case Ok(duplicate) => Tx(Some(swept), Ok(duplicate))
         case Err(code) => Tx(conversation, Err(code)))
      case None =>
        if HasProcessing(swept.rows) then Tx(conversation, Err(Busy))
        else
          var e := NewExchange(freshId, request, MaxOrdinal(swept.rows) + 1, now + settings.leaseSeconds);
          var inserted := swept.(rows := swept.rows + [e]);
          match ReservationFor(inserted, request.conversationId, e, settings)
          case Some(reservation) => Tx(Some(inserted), Ok(Reserved(reservation)))
          case None => Tx(conversation, Err(StateInvalid))
  }

  // ----- complete -----

  function CompletedRow(e: Exchange, chat: ChatResult, now: Time): Exchange {
    e.(status := Completed, lease := None, assistantText := Some(chat.answer),
       outcome := Some(chat.outcome), reason := Some(FromChat(chat.reason)), runId := chat.runId,
       provider := chat.provider, model := chat.model, requestId := chat.requestId,
       completedAt := Some(now), references := DerivedReferences(chat))
  }

  function ReplaceById(rows: seq<Exchange>, row: Exchange): (r: seq<Exchange>)
    ensures |r| == |rows|
    ensures forall i :: 0 <= i < |rows| ==> r[i] == if rows[i].id == row.id then row else rows[i]
  {
    seq(|rows|, i requires 0 <= i < |rows| => if rows[i].id == row.id then row else rows[i])
  }

  /** The writes of complete(): finish the exchange, bump the version, delete the
      compacted rows; any failed check afterwards undoes all of them. */
  function Finish(conversation: Conversation, conversationId: Id, e: Exchange, candidates: seq<Exchange>,
                  chat: ChatResult, update: StateUpdate, now: Time, settings: Settings): Tx<Persisted>
  {
    var done := CompletedRow(e, chat, now);
    var ids := Map(IdOf, candidates);
    var written := ReplaceById(conversation.rows, done);
    var kept := Filter(IdNotIn(ids), written);
    var next := conversation.(
      stateVersion := conversation.stateVersion + 1, rollingSummary := update.rollingSummary,
      activeTopic := update.activeTopic, expiresAt := now + settings.retentionSeconds, rows := kept);
    if !done.DatabaseChecks() then Tx(Some(conversation), Err(PersistenceFailure))
    else if |written| - |kept| != |candidates| then Tx(Some(conversation), Err(Conflict))
    else if TerminalCount(kept) > settings.retainedLimit then Tx(Some(conversation), Err(Conflict))
    else match PersistedOf(conversationId, done, done.references)
      case Some(persisted) => Tx(Some(next), Ok(persisted))
      case None => Tx(Some(conversation), Err(StateInvalid))
  }

  function CompleteTx(conversation: Option<Conversation>, reservation: Reservation, chat: ChatResult,
                    update: StateUpdate, now: Time, settings: Settings): Tx<Persisted>
  {
    if update.expectedVersion != reservation.expectedVersion then Tx(conversation, Err(StateInvalid))
    else if update.compactedIds != reservation.plan.exchangeIds then Tx(conversation, Err(Conflict))
    else match RequireActive(conversation, now)
      case Err(code) => Tx(conversation, Err(code))
      case Ok(active) =>
        if active.stateVersion != reservation.expectedVersion then Tx(conversation, Err(Conflict))
        else match FindById(active.rows, reservation.exchangeId, reservation.ordinal)
          case None => Tx(conversation, Err(Conflict))
          case Some(e) =>
            if !e.status.Processing? then Tx(conversation, Err(Conflict))
            else if e.lease.None? || e.lease.value <= now then Tx(conversation, Err(Expired))
            else match LockedCandidates(active.rows, reservation.plan)
              case None => Tx(conversation, Err(Conflict))
              case Some(candidates) =>
                Finish(active, reservation.conversationId, e, candidates, chat, update, now, settings)
  }

  /** purge_expired, for one conversation: its rows go with it. */
  function Purge(conversation: Option<Conversation>, now: Time): Option<Conversation> {
    if conversation.Some? && (conversation.value.expiresAt <= now || conversation.value.deletedAt.Some?) then None
    else conversation
  }

  function Created(now: Time, settings: Settings): Conversation {
    Conversation(0, None, None, now + settings.retentionSeconds, None, [])
  }

  function Lookup(table: map<Id, Conversation>, id: Id): Option<Conversation> {
    if id in table then Some(table[id]) else None
  }

  /** The table after a transaction on one of its conversations. */
  function Written(table: map<Id, Conversation>, id: Id, conversation: Option<Conversation>): map<Id, Conversation> {
    match conversation
    case Some(c) => table[id := c]
    case None => table - {id}
  }

  class ConversationRepository {
    const settings: Settings
    var conversations: map<Id, Conversation>

    constructor (settings: Settings)
      ensures this.settings == settings && conversations == map[]
    {
      this.settings := settings;
      conversations := map[];
    }

    method CreateConversation(now: Time, freshId: Id)
      requires freshId !in conversations
      modifies this
      ensures conversations == old(conversations)[freshId := Created(now, settings)]
    {
      conversations := conversations[freshId := Created(now, settings)];
    }

    method Reserve(request: Request, now: Time, freshId: Id) returns (result: Result<ReservationResult, ErrorCode>)
      modifies this
      ensures var tx := ReserveTx(Lookup(old(conversations), request.conversationId), request, now, freshId, settings);
        result == tx.result && conversations == Written(old(conversations), request.conversationId, tx.conversation)
    {
      hide AbandonStale, FindByKey, MaxOrdinal, HasProcessing, PlanFor, RecentTurns, SelectReferences;
      hide ReferenceStream, ReservationForExisting;
      var id := request.conversationId;
      var found := Lookup(conversations, id);
      var active := RequireActive(found, now);
      if active.Err? {
        return Err(active.error);
      }
      var conversation := active.value;   // the row as this transaction sees it
      conversation := conversation.(rows := AbandonStale(conversation.rows, now));
      var existing := FindByKey(conversation.rows, request.deliveryId);
      if existing.Some? {
        result := ReservationForExisting(id, existing.value);
        if result.Ok? {
          conversations := conversations[id := conversation];
        }
        return;
      }
      if HasProcessing(conversation.rows) {
        return Err(Busy);
      }
      var exchange := NewExchange(freshId, request, MaxOrdinal(conversation.rows) + 1, now + settings.leaseSeconds);
      conversation := conversation.(rows := conversation.rows + [exchange]);
      var plan := PlanFor(conversation.rows, settings.retainedLimit);
      var turns := RecentTurns(conversation.rows, settings.recentTurnLimit);
      var references := LoadReferences(ReferenceStream(conversation.rows, settings.retainedLimit), settings.referenceLimit);
      var snapshot := Snapshot(conversation.stateVersion, conversation.rollingSummary, conversation.activeTopic, turns, references);
      if !plan.Valid() || !snapshot.Valid() {
        return Err(StateInvalid);
      }
      conversations := conversations[id := conversation];
      return Ok(Reserved(Reservation(id, exchange.id, exchange.ordinal, conversation.stateVersion, snapshot, plan)));
    }

    method Complete(reservation: Reservation, chat: ChatResult, update: StateUpdate, now: Time)
      returns (result: Result<Persisted, ErrorCode>)
      modifies this
      ensures var tx := CompleteTx(Lookup(old(conversations), reservation.conversationId), reservation, chat, update, now, settings);
        result == tx.result && conversations == Written(old(conversations), reservation.conversationId, tx.conversation)
    {
      hide FindById, LockedCandidates, DerivedReferences, ReplaceById, Filter, TerminalCount, PersistedOf;
      if update.expectedVersion != reservation.expectedVersion {
        return Err(StateInvalid);
      }
      if update.compactedIds != reservation.plan.exchangeIds {
        return Err(Conflict);
      }
      var references := DeriveReferences(chat);
      var id := reservation.conversationId;
      var active := RequireActive(Lookup(conversations, id), now);
      if active.Err? {
        return Err(active.error);
      }
      var conversation := active.value;
      if conversation.stateVersion != reservation.expectedVersion {
        return Err(Conflict);
      }
      var exchange := FindById(conversation.rows, reservation.exchangeId, reservation.ordinal);
      if exchange.None? || !exchange.value.status.Processing? {
        return Err(Conflict);
      }
      if exchange.value.lease.None? || exchange.value.lease.value <= now {
        return Err(Expired);
      }
      var candidates := LockedCandidates(conversation.rows, reservation.plan);
      if candidates.None? {
        return Err(Conflict);
      }
      var done := CompletedRow(exchange.value, chat, now).(references := references);
      if !done.DatabaseChecks() {
        return Err(PersistenceFailure);
      }
      var written := ReplaceById(conversation.rows, done);
      conversation := conversation.(
        stateVersion := conversation.stateVersion + 1, rollingSummary := update.rollingSummary,
        activeTopic := update.activeTopic, expiresAt := now + settings.retentionSeconds);
      var kept := Filter(IdNotIn(Map(IdOf, candidates.value)), written);
      if |written| - |kept| != |candidates.value| {
        return Err(Conflict);
      }
      conversation := conversation.(rows := kept);
      if TerminalCount(kept) > settings.retainedLimit {
        return Err(Conflict);
      }
      var persisted := PersistedOf(id, done, references);
      if persisted.None? {
        return Err(StateInvalid);
      }
      conversations := conversations[id := conversation];
      return Ok(persisted.value);
    }
  }
}
