/** One delivery served end to end: `ConversationService.respond` of
    src/legal_chatbot/conversation/service.py, run without interruption. The runs of
    ConversationProtocol are the same transactions with other handlers in between. */
module ConversationService {
  import opened Wrappers
  import opened Sequences
  import opened ChatModels
  import opened ConversationModels
  import opened ConversationPolicy
  import opened SnapshotConstruction
  import opened ConversationStore
  import opened ConversationFacts
  import opened ConversationProtocol
  import opened ConversationCompletion
  import opened ConversationTheorems
  import opened ConversationReplay
  import N = ConversationColumns

  datatype Reply = Reply(conversationId: Id, exchangeId: Id, status: Status, duplicate: bool, chat: Option<ChatResult>)

  /** The chat port's value; anything but a valid result becomes the fixed refusal. */
  function Answered(port: Option<ChatResult>): ChatResult {
    if port.Some? && port.value.Valid() then port.value else FixedRefusal(RetrievalFailure, None)
  }

  function RespondTx(conversation: Option<Conversation>, request: Request, now: Time, freshId: Id,
                     port: Option<ChatResult>, resolver: Resolver, settings: Settings): Tx<Reply>
  {
    var tx := ReserveTx(conversation, request, now, freshId, settings);
    match tx.result
    case Err(code) => Tx(tx.conversation, Err(code))
    case Ok(DuplicateProcessing(c, e)) => Tx(tx.conversation, Ok(Reply(c, e, Processing, true, None)))
    case Ok(DuplicateTerminal(_, _)) => Tx(tx.conversation, Err(LeaseExpired))
    case Ok(DuplicateCompleted(completed)) =>
      Tx(tx.conversation, Ok(Reply(completed.conversationId, completed.exchangeId, Completed, true, Some(ReplayCompleted(resolver, completed)))))
    case Ok(Reserved(reservation)) =>
      var chat := Answered(port);
      var done := CompleteWith(tx.conversation, Ticket(request, reservation, now, Created(now, settings)), chat, now, settings);
      match done.result
      case Err(code) => Tx(done.conversation, Err(code))
      case Ok(completed) => Tx(done.conversation, Ok(Reply(reservation.conversationId, reservation.exchangeId, Completed, false, Some(chat))))
  }

  class Service {
    const repository: ConversationRepository
    const resolver: Resolver

    constructor (repository: ConversationRepository, resolver: Resolver)
      ensures this.repository == repository && this.resolver == resolver
    {
      this.repository := repository;
      this.resolver := resolver;
    }

    /** `port` is what the chat port returns if it is asked; `asked` says whether it was. */
    method Respond(request: Request, now: Time, freshId: Id, port: Option<ChatResult>)
      returns (result: Result<Reply, ErrorCode>, asked: bool)
      modifies repository
      ensures var before := Lookup(old(repository.conversations), request.conversationId);
        var tx := RespondTx(before, request, now, freshId, port, resolver, repository.settings);
        var reserve := ReserveTx(before, request, now, freshId, repository.settings);
        && result == tx.result
        && repository.conversations == Written(old(repository.conversations), request.conversationId, tx.conversation)
        && (asked <==> reserve.result.Ok? && reserve.result.value.Reserved?)
    {
      hide ReserveTx, CompleteTx, BuildStateUpdate, ReplayCompleted;
      asked := false;
      var reserved := repository.Reserve(request, now, freshId);
      ReservesItsOwn(Lookup(old(repository.conversations), request.conversationId), request, now, freshId, repository.settings);
      if reserved.Err? {
        return Err(reserved.error), asked;
      }
      match reserved.value {
        case DuplicateProcessing(conversationId, exchangeId) =>
          if conversationId != request.conversationId {
            return Err(PersistenceFailure), asked;
          }
          result := Ok(Reply(conversationId, exchangeId, Processing, true, None));
        case DuplicateTerminal(conversationId, _) =>
          if conversationId != request.conversationId {
            return Err(PersistenceFailure), asked;
          }
          result := Err(LeaseExpired);
        case DuplicateCompleted(completed) =>
          if completed.conversationId != request.conversationId {
            return Err(PersistenceFailure), asked;
          }
          result := Ok(Reply(completed.conversationId, completed.exchangeId, Completed, true, Some(ReplayCompleted(resolver, completed))));
        case Reserved(reservation) =>
          asked := true;
          var chat := if port.Some? && port.value.Valid() then port.value else FixedRefusal(RetrievalFailure, None);
          var update := BuildStateUpdate(reservation, request, repository.settings);
          if update.Err? {
            return Err(update.error), asked;
          }
          var completed := repository.Complete(reservation, chat, update.value, now);
          if completed.Err? {
            return Err(completed.error), asked;
          }
          result := Ok(Reply(reservation.conversationId, reservation.exchangeId, Completed, false, Some(chat)));
      }
    }
  }

  /** The identity checks of the service never fire on what reserve returns. */
  lemma ReservesItsOwn(conversation: Option<Conversation>, request: Request, now: Time, freshId: Id, settings: Settings)
    ensures var tx := ReserveTx(conversation, request, now, freshId, settings);
      && (tx.conversation.None? ==> conversation.None? && tx.result.Err?)
      && (tx.result.Ok? ==>
        match tx.result.value
        case Reserved(r) => r.conversationId == request.conversationId
        case DuplicateCompleted(p) => p.conversationId == request.conversationId
        case DuplicateProcessing(c, _) => c == request.conversationId
        case DuplicateTerminal(c, _) => c == request.conversationId)
  {
    hide AbandonStale, FindByKey, HasProcessing, MaxOrdinal, PlanFor, LoadSnapshot, Plan.Valid, Snapshot.Valid;
    hide OrderBy, Persisted.Valid;
  }

  lemma AnsweredIsValid(port: Option<ChatResult>)
    ensures Answered(port).Valid()
  {
    FixedRefusalIsValid(RetrievalFailure, None);
  }

  /** Serving a delivery is reserving it and, when that reserves, completing it. */
  lemma RespondIsTwoSteps(w: World, request: Request, now: Time, freshId: Id, port: Option<ChatResult>, resolver: Resolver, settings: Settings)
    requires Enabled(w, ReserveEvent(request, now, freshId))
    requires var tx := RespondTx(w.conversation, request, now, freshId, port, resolver, settings);
      tx.result.Ok? && !tx.result.value.duplicate
    ensures var u := Step(w, ReserveEvent(request, now, freshId), settings);
      var tx := RespondTx(w.conversation, request, now, freshId, port, resolver, settings);
      && u.tickets != [] && |u.tickets| == |w.tickets| + 1 && u.conversation.Some?
      && Newest(u.tickets).now == now && Newest(u.tickets).request == request
      && CompleteWith(u.conversation, Newest(u.tickets), Answered(port), now, settings).result.Ok?
      && tx.conversation == CompleteStep(u, |w.tickets|, Answered(port), now, settings).conversation
      && tx.result.value.chat == Some(Answered(port))
      && tx.result.value.exchangeId == Newest(u.tickets).reservation.exchangeId
  {
    hide ReserveTx, CompleteTx, BuildStateUpdate, ReplayCompleted, ChatResult.Valid, Filter;
    ReservesItsOwn(w.conversation, request, now, freshId, settings);
  }

  /** The delivery of the newest ticket, once completed, is a row still there. */
  lemma CompletedRowIsNewest(u: World, chat: ChatResult, now: Time, settings: Settings)
    requires Inv(u, settings) && InFlight(u) && chat.Valid()
    requires CompleteWith(u.conversation, Newest(u.tickets), chat, now, settings).result.Ok?
    ensures var v := CompleteStep(u, |u.tickets| - 1, chat, now, settings);
      && v.conversation.Some? && v.conversation.value.rows != []
      && Newest(v.conversation.value.rows).id == Newest(u.tickets).reservation.exchangeId
      && Newest(v.conversation.value.rows).key == Newest(u.tickets).request.deliveryId
      && v.conversation.value.expiresAt == now + settings.retentionSeconds && v.id == u.id
  {
    hide Inv, CompleteStep, CompleteWith, BuildStateUpdate, ChatResult.Valid, Storable, DerivedReferences;
    hide PersistedRecord, Window, Frozen, Columns, Bounded, AllGenuine, Recorded, Identity;
    CompletionInFlight(u, chat, now, settings);
    RowIsTheTickets(u, settings);
    InvParts(u, settings);
    IdentityMeans(u);
    assert History(u)[|u.tickets| - 1] == Newest(u.conversation.value.rows);
  }

  /** At-least-once delivery is served exactly once: whoever delivers the same id again
      within the retention gets the same result, marked as a duplicate, and the chat
      port is not asked again. */
  lemma RespondIsIdempotent(w: World, request: Request, now: Time, freshId: Id, port: Option<ChatResult>,
                            later: Time, otherId: Id, otherPort: Option<ChatResult>, resolver: Resolver, settings: Settings)
    requires Inv(w, settings) && Enabled(w, ReserveEvent(request, now, freshId))
    requires later < now + settings.retentionSeconds && Agrees(resolver, Answered(port).citations)
    requires var tx := RespondTx(w.conversation, request, now, freshId, port, resolver, settings);
      tx.result.Ok? && !tx.result.value.duplicate
    ensures var tx := RespondTx(w.conversation, request, now, freshId, port, resolver, settings);
      var second := RespondTx(tx.conversation, request, later, otherId, otherPort, resolver, settings);
      second.result == Ok(tx.result.value.(duplicate := true))
  {
    hide Inv, ReserveTx, CompleteWith, RespondTx, CompleteStep, ReplayCompleted, ChatResult.Valid, Agrees;
    hide PersistedRecord, SameAnswer;
    var u := Step(w, ReserveEvent(request, now, freshId), settings);
    var chat := Answered(port);
    AnsweredIsValid(port);
    RespondIsTwoSteps(w, request, now, freshId, port, resolver, settings);
    StepKeeps(w, ReserveEvent(request, now, freshId), settings);
    SuccessIsInFlight(u, |w.tickets|, chat, now, settings);
    CompletedRowIsNewest(u, chat, now, settings);
    var v := CompleteStep(u, |w.tickets|, chat, now, settings);
    RunOfNothing(v, settings);
    ReplayRoundTrip(u, chat, now, [], |v.conversation.value.rows| - 1, request, later, otherId, resolver, settings);
    SecondIsReplay(v, request, later, otherId, otherPort, chat, resolver, settings);
    FirstReply(w, request, now, freshId, port, resolver, settings);
  }

  /** What a delivery that is not a duplicate is answered: what the chat port returned if that
      is a valid result, and otherwise that retrieval failed. */
  lemma FreshReplyIsThePorts(conversation: Option<Conversation>, request: Request, now: Time, freshId: Id,
                             port: Option<ChatResult>, resolver: Resolver, settings: Settings)
    requires var tx := RespondTx(conversation, request, now, freshId, port, resolver, settings);
      tx.result.Ok? && !tx.result.value.duplicate
    ensures RespondTx(conversation, request, now, freshId, port, resolver, settings).result
      == Ok(Reply(request.conversationId, freshId, Completed, false,
           Some(if port.Some? && port.value.Valid() then port.value
                else ChatResult(Refusal, RetrievalFailure, GENERIC_REFUSAL_TEXT, None, [], None, None, None))))
  {
    hide CompleteWith, ReplayCompleted, ChatResult.Valid, GENERIC_REFUSAL_TEXT, ReserveTx;
    ReservesItsOwn(conversation, request, now, freshId, settings);
    N.ReservingWrites(conversation, request, now, freshId, settings);
  }

  lemma RunOfNothing(v: World, settings: Settings)
    ensures Run(v, [], settings) == v
  {
  }

  lemma SecondIsReplay(v: World, request: Request, later: Time, otherId: Id, otherPort: Option<ChatResult>,
                       chat: ChatResult, resolver: Resolver, settings: Settings)
    requires v.conversation.Some? && v.conversation.value.rows != []
    requires var record := PersistedRecord(v.id, Newest(v.conversation.value.rows), chat);
      && ReserveTx(v.conversation, request, later, otherId, settings).result == Ok(DuplicateCompleted(record))
      && ReplayCompleted(resolver, record) == chat
    ensures RespondTx(v.conversation, request, later, otherId, otherPort, resolver, settings).result
      == Ok(Reply(v.id, Newest(v.conversation.value.rows).id, Completed, true, Some(chat)))
  {
    hide ReserveTx, ReplayCompleted, CompleteWith, DerivedReferences;
  }

  lemma FirstReply(w: World, request: Request, now: Time, freshId: Id, port: Option<ChatResult>, resolver: Resolver, settings: Settings)
    requires request.conversationId == w.id
    requires var tx := RespondTx(w.conversation, request, now, freshId, port, resolver, settings);
      tx.result.Ok? && !tx.result.value.duplicate
    ensures var reply := RespondTx(w.conversation, request, now, freshId, port, resolver, settings).result.value;
      reply.conversationId == w.id && reply.status.Completed?
  {
    hide ReserveTx, ReplayCompleted, CompleteWith;
    ReservesItsOwn(w.conversation, request, now, freshId, settings);
  }
}
