/** The whole message path: `ChannelService.handle_inbound` of
    src/legal_chatbot/channels/service.py run by any number of handlers at once, over the
    conversation, binding and outbound tables together.

    A handler is a program counter with the clock it read once. Every event is one
    transaction or one port call of one handler, or a purge; a crash is a handler that
    takes no further step. Each event moves the component worlds by their own steps. */
module ChannelSystem {
  import opened Wrappers
  import opened Sequences
  import opened ChatModels
  import opened ConversationModels
  import opened ConversationStore
  import opened ConversationService
  import opened ChannelBinding
  import opened ChannelOutbox
  import C = ConversationProtocol
  import B = ChannelBindingProtocol
  import O = ChannelOutboxProtocol

  /** An authenticated inbound message. Its text may hold line breaks, unlike the text of a
      conversation request. */
  datatype InboundData = InboundData(identity: string, delivery: string, text: string)
  {
    predicate Valid() {
      && ValidHmac(identity) && ValidHmac(delivery)
      && 1 <= |text| <= USER_TEXT_MAX_CHARS
      && forall i :: 0 <= i < |text| && IsControl(text[i]) ==> text[i] == '\n'
    }
  }

  type Inbound = m: InboundData | m.Valid() witness
    InboundData(seq(HMAC_HEX_LENGTH, i => '0'), seq(HMAC_HEX_LENGTH, i => '0'), "q")

  datatype Ingress = Acknowledged | StillProcessing | TerminalNoRetry | ServiceUnavailable

  /** Where a handler is, with what it holds. */
  datatype Pc =
    | Arrived
    | HasToken(token: nat)
    | HasConversation(token: nat, conversationId: Id)
    | GivingUp(token: nat)
    | Bound(bindingId: Id, conversationId: Id)
    | Asking(bindingId: Id, conversationId: Id)
    | Answering(bindingId: Id, conversationId: Id, chat: ChatResult)
    | Replied(bindingId: Id, conversationId: Id, exchangeId: Id)
    | Holds(holder: nat)
    | Owns(holder: nat)
    | CalledOnce(holder: nat)
    | Finished(ingress: Ingress)

  /** The reservation a handler won, if any: its conversation and the ticket's number. */
  datatype Won = Won(conversationId: Id, ticket: nat)

  datatype Handler = Handler(message: Inbound, now: Time, at: Pc, won: Option<Won>)

  /** One call of the grounded chat port: by which handler, for which exchange. */
  datatype Chat = Chat(handler: nat, exchangeId: Id)

  datatype System = System(
    conversations: map<Id, C.World>,
    bindings: B.Bindings,
    outbox: O.Outbox,
    handlers: seq<Handler>,
    chats: seq<Chat>)

  const EMPTY_SYSTEM := System(map[], B.NO_BINDINGS, O.EMPTY_OUTBOX, [], [])

  datatype Configuration = Configuration(conversation: Settings, leaseSeconds: LeaseSeconds)

  datatype SystemEvent =
    | Deliver(message: Inbound, now: Time)
    | TakeBinding(h: nat, freshId: Id)
    | CreateFor(h: nat, freshId: Id)
    | ActivateFor(h: nat, doubted: bool)
    | FailFor(h: nat)
    | TakeExchange(h: nat, freshId: Id)
    | AskChat(h: nat, port: Option<ChatResult>)
    | CompleteExchange(h: nat)
    | TakeOutbound(h: nat, reply: Option<string>, citationCount: nat, freshId: Id)
    | MarkFor(h: nat)
    | SendFor(h: nat, receipt: Receipt)
    | RecordFor(h: nat, doubted: bool)
    | PortFails(h: nat)
    | PurgeExpired(conversationId: Id, now: Time)

  // ----- what exists -----

  predicate IsLive(w: C.World) {
    w.conversation.Some?
  }

  function Rows(w: C.World): seq<Exchange> {
    if w.conversation.Some? then w.conversation.value.rows else []
  }

  function RowIds(w: C.World): set<Id> {
    set i | 0 <= i < |Rows(w)| :: Rows(w)[i].id
  }

  /** The exchanges the foreign key of the outbound table finds. */
  function Existing(conversations: map<Id, C.World>): set<Id> {
    set c, e | c in conversations && e in RowIds(conversations[c]) :: e
  }

  predicate IssuedIn(w: C.World, id: Id) {
    exists t :: 0 <= t < |w.tickets| && w.tickets[t].reservation.exchangeId == id
  }

  predicate IssuedAnywhere(conversations: map<Id, C.World>, id: Id) {
    exists c :: c in conversations && IssuedIn(conversations[c], id)
  }

  /** Outbound rows whose exchange or binding is gone: deleted by cascade. */
  function Orphans(rows: seq<OutboundRow>, exchanges: set<Id>, bindings: seq<BindingRow>): set<Id> {
    set k | 0 <= k < |rows|
      && (rows[k].exchangeId !in exchanges || IndexWhere(HasBindingId(rows[k].bindingId), bindings) == |bindings|) :: rows[k].id
  }

  function Cascaded(s: System): System {
    s.(outbox := O.Step(s.outbox, O.Delete(Orphans(s.outbox.rows, Existing(s.conversations), s.bindings.rows))))
  }

  // ----- receipts -----

  /** _conversation_error_receipt */
  function ErrorReceipt(code: ErrorCode): Ingress {
    match code
    case Busy => StillProcessing
    case InProgress => StillProcessing
    case PersistenceFailure => ServiceUnavailable
    case _ => TerminalNoRetry
  }

  function AfterBinding(tokens: nat, result: Result<BindingReservation, ChannelError>): Pc {
    match result
    case Err(_) => Finished(ServiceUnavailable)
    case Ok(r) =>
      match r.status
      case BindingProcessing => Finished(StillProcessing)
      case BindingFailedStatus => Finished(TerminalNoRetry)
      case BindingReserved => HasToken(tokens)
      case BindingActive => if r.conversationId.Some? then Bound(r.bindingId, r.conversationId.value) else Finished(ServiceUnavailable)
  }

  function AfterReserve(at: Pc, result: Result<ReservationResult, ErrorCode>): Pc
    requires at.Bound?
  {
    match result
    case Err(code) => Finished(ErrorReceipt(code))
    case Ok(Reserved(_)) => Asking(at.bindingId, at.conversationId)
    case Ok(DuplicateCompleted(completed)) => Replied(at.bindingId, at.conversationId, completed.exchangeId)
    case Ok(DuplicateProcessing(_, _)) => Finished(StillProcessing)
    case Ok(DuplicateTerminal(_, _)) => Finished(ErrorReceipt(LeaseExpired))
  }

  function AfterOutbound(holders: nat, result: Result<OutboundReservation, ChannelError>): Pc {
    match result
    case Err(_) => Finished(ServiceUnavailable)
    case Ok(r) =>
      if r.status.OutSent? then Finished(Acknowledged)
      else if r.status.OutReserved? then Holds(holders)
      else Finished(TerminalNoRetry)
  }

  function AfterMark(holder: nat, result: Result<OutboundReservation, ChannelError>): Pc {
    match result
    case Err(_) => Finished(ServiceUnavailable)
    case Ok(r) => if r.status.OutSending? then Owns(holder) else Finished(TerminalNoRetry)
  }

  function AfterRecord(result: Result<OutboundReservation, ChannelError>): Pc {
    match result
    case Err(_) => Finished(ServiceUnavailable)
    case Ok(r) => Finished(if r.status.OutSent? then Acknowledged else TerminalNoRetry)
  }

  // ----- steps -----

  function Moved(s: System, h: nat, at: Pc): System
    requires h < |s.handlers|
  {
    s.(handlers := s.handlers[h := s.handlers[h].(at := at)])
  }

  function TakeBindingStep(s: System, h: nat, freshId: Id, config: Configuration): System
    requires h < |s.handlers|
  {
    var handler := s.handlers[h];
    var tx := ReserveBinding(s.bindings.rows, handler.message.identity, handler.now, freshId, config.leaseSeconds);
    var at := AfterBinding(|s.bindings.tokens|, tx.result);
    Moved(s.(bindings := B.Step(s.bindings, B.Reserve(handler.message.identity, handler.now, freshId), config.leaseSeconds)), h, at)
  }

  function CreateForStep(s: System, h: nat, freshId: Id, config: Configuration): System
    requires h < |s.handlers| && s.handlers[h].at.HasToken?
  {
    var handler := s.handlers[h];
    var u := s.(conversations := s.conversations[freshId := C.Initial(freshId, handler.now, config.conversation)],
                bindings := B.Step(s.bindings, B.CreateConversation(freshId), config.leaseSeconds));
    Moved(u, h, HasConversation(handler.at.token, freshId))
  }

  /** A committed activation may still be reported as a failure: then the caller gives up. */
  function ActivateForStep(s: System, h: nat, doubted: bool, config: Configuration): System
    requires h < |s.handlers| && s.handlers[h].at.HasConversation? && s.handlers[h].at.token < |s.bindings.tokens|
  {
    var handler := s.handlers[h];
    var token, c := handler.at.token, handler.at.conversationId;
    var tx := ActivateBinding(s.bindings.rows, s.bindings.tokens[token], c, handler.now, s.bindings.live);
    var at := if tx.result.Err? || doubted then GivingUp(token) else Bound(s.bindings.tokens[token].bindingId, c);
    Moved(s.(bindings := B.Step(s.bindings, B.Activate(token, c, handler.now), config.leaseSeconds)), h, at)
  }

  function FailForStep(s: System, h: nat, config: Configuration): System
    requires h < |s.handlers| && s.handlers[h].at.GivingUp?
  {
    var handler := s.handlers[h];
    var failed := B.Step(s.bindings, B.Fail(handler.at.token, "BINDING_ACTIVATION_FAILED", handler.now), config.leaseSeconds);
    Moved(s.(bindings := failed), h, Finished(ServiceUnavailable))
  }

  function RequestOf(handler: Handler, conversationId: Id): RequestData {
    RequestData(conversationId, handler.message.delivery, handler.message.text)
  }

  function TakeExchangeStep(s: System, h: nat, freshId: Id, config: Configuration): System
    requires h < |s.handlers| && s.handlers[h].at.Bound? && s.handlers[h].at.conversationId in s.conversations
  {
    var handler := s.handlers[h];
    var c := handler.at.conversationId;
    var data := RequestOf(handler, c);
    if !data.Valid() then Moved(s, h, Finished(ServiceUnavailable))
    else
      var request: Request := data;
      var w := s.conversations[c];
      var tx := ReserveTx(w.conversation, request, handler.now, freshId, config.conversation);
      var at := AfterReserve(handler.at, tx.result);
      var u := s.(conversations := s.conversations[c := C.Step(w, C.ReserveEvent(request, handler.now, freshId), config.conversation)]);
      u.(handlers := s.handlers[h := handler.(at := at, won := if at.Asking? then Some(Won(c, |w.tickets|)) else handler.won)])
  }

  function AskChatStep(s: System, h: nat, port: Option<ChatResult>): System
    requires h < |s.handlers| && s.handlers[h].at.Asking? && s.handlers[h].won.Some?
    requires s.handlers[h].won.value.conversationId in s.conversations
    requires s.handlers[h].won.value.ticket < |s.conversations[s.handlers[h].won.value.conversationId].tickets|
  {
    var handler := s.handlers[h];
    var exchangeId := s.conversations[handler.won.value.conversationId].tickets[handler.won.value.ticket].reservation.exchangeId;
    Moved(s.(chats := s.chats + [Chat(h, exchangeId)]), h, Answering(handler.at.bindingId, handler.at.conversationId, Answered(port)))
  }

  function CompleteExchangeStep(s: System, h: nat, config: Configuration): System
    requires h < |s.handlers| && s.handlers[h].at.Answering? && s.handlers[h].won.Some?
    requires s.handlers[h].won.value.conversationId in s.conversations
    requires s.handlers[h].won.value.ticket < |s.conversations[s.handlers[h].won.value.conversationId].tickets|
  {
    var handler := s.handlers[h];
    var c, ticket := handler.won.value.conversationId, handler.won.value.ticket;
    var w := s.conversations[c];
    var tx := C.CompleteWith(w.conversation, w.tickets[ticket], handler.at.chat, handler.now, config.conversation);
    var at := match tx.result
      case Err(code) => Finished(ErrorReceipt(code))
      case Ok(_) => Replied(handler.at.bindingId, handler.at.conversationId, w.tickets[ticket].reservation.exchangeId);
    var done := C.Step(w, C.CompleteEvent(ticket, handler.at.chat, handler.now), config.conversation);
    Moved(Cascaded(s.(conversations := s.conversations[c := done])), h, at)
  }

  /** A reply that cannot be formatted is not reserved. */
  function TakeOutboundStep(s: System, h: nat, reply: Option<string>, citationCount: nat, freshId: Id): System
    requires h < |s.handlers| && s.handlers[h].at.Replied?
  {
    if reply.None? then Moved(s, h, Finished(ServiceUnavailable))
    else
      var handler := s.handlers[h];
      var message := OutboundMessage(handler.message.identity, handler.message.delivery, handler.at.exchangeId, reply.value, citationCount);
      var exchanges := Existing(s.conversations);
      var tx := ReserveOutbound(s.outbox.rows, s.bindings.rows, exchanges, handler.at.bindingId, message, freshId);
      var reserve := O.Reserve(s.bindings.rows, exchanges, handler.at.bindingId, message, freshId);
      Moved(s.(outbox := O.Step(s.outbox, reserve)), h, AfterOutbound(|s.outbox.holders|, tx.result))
  }

  function MarkForStep(s: System, h: nat): System
    requires h < |s.handlers| && s.handlers[h].at.Holds? && s.handlers[h].at.holder < |s.outbox.holders|
  {
    var handler := s.handlers[h];
    var tx := MarkSending(s.outbox.rows, s.outbox.holders[handler.at.holder].reservation, handler.now);
    Moved(s.(outbox := O.Step(s.outbox, O.Mark(handler.at.holder, handler.now))), h, AfterMark(handler.at.holder, tx.result))
  }

  function SendForStep(s: System, h: nat, receipt: Receipt): System
    requires h < |s.handlers| && s.handlers[h].at.Owns?
  {
    Moved(s.(outbox := O.Step(s.outbox, O.CallAdapter(s.handlers[h].at.holder, receipt))), h, CalledOnce(s.handlers[h].at.holder))
  }

  /** A recorded completion may still be reported as a failure: then the caller gives up. */
  function RecordForStep(s: System, h: nat, doubted: bool): System
    requires h < |s.handlers| && s.handlers[h].at.CalledOnce? && s.handlers[h].at.holder < |s.outbox.holders|
    requires s.outbox.holders[s.handlers[h].at.holder].phase.Called?
  {
    var handler := s.handlers[h];
    var holder := s.outbox.holders[handler.at.holder];
    var tx := CompleteOutbound(s.outbox.rows, O.SendingToken(holder.reservation), holder.phase.receipt, handler.now);
    var at := if doubted then Finished(ServiceUnavailable) else AfterRecord(tx.result);
    Moved(s.(outbox := O.Step(s.outbox, O.Record(handler.at.holder, handler.now))), h, at)
  }

  /** A repository call raised. Either its transaction was rolled back, or it was committed
      and only reported as a failure: then this follows the step of the transaction. What the
      chat port and the adapter raise is turned into a result. */
  function PortFailsStep(s: System, h: nat): System
    requires h < |s.handlers|
  {
    match s.handlers[h].at
    case HasToken(token) => Moved(s, h, GivingUp(token))
    case HasConversation(token, _) => Moved(s, h, GivingUp(token))
    case _ => Moved(s, h, Finished(ServiceUnavailable))
  }

  function PurgeStep(s: System, c: Id, now: Time, config: Configuration): System
    requires c in s.conversations
  {
    var w := C.Step(s.conversations[c], C.PurgeEvent(now), config.conversation);
    if IsLive(w) then s
    else Cascaded(s.(conversations := s.conversations[c := w],
                     bindings := B.Step(s.bindings, B.PurgeConversation(c), config.leaseSeconds)))
  }

  /** A held ticket names a reservation of its conversation. */
  predicate HoldsTicket(s: System, h: nat) {
    && h < |s.handlers| && s.handlers[h].won.Some?
    && s.handlers[h].won.value.conversationId in s.conversations
    && s.handlers[h].won.value.ticket < |s.conversations[s.handlers[h].won.value.conversationId].tickets|
  }

  /** What must hold for an event to happen: the handler is there, and UUIDs are fresh. */
  predicate Enabled(s: System, e: SystemEvent) {
    match e
    case Deliver(_, _) => true
    case TakeBinding(h, freshId) => h < |s.handlers| && s.handlers[h].at.Arrived? && freshId !in s.bindings.issued
    case CreateFor(h, freshId) => h < |s.handlers| && s.handlers[h].at.HasToken? && freshId !in s.conversations
    case ActivateFor(h, _) => h < |s.handlers| && s.handlers[h].at.HasConversation? && s.handlers[h].at.token < |s.bindings.tokens|
    case FailFor(h) => h < |s.handlers| && s.handlers[h].at.GivingUp?
    case TakeExchange(h, freshId) =>
      && h < |s.handlers| && s.handlers[h].at.Bound? && s.handlers[h].at.conversationId in s.conversations
      && !IssuedAnywhere(s.conversations, freshId)
    case AskChat(h, _) => h < |s.handlers| && s.handlers[h].at.Asking? && HoldsTicket(s, h)
    case CompleteExchange(h) => h < |s.handlers| && s.handlers[h].at.Answering? && HoldsTicket(s, h)
    case TakeOutbound(h, _, _, freshId) => h < |s.handlers| && s.handlers[h].at.Replied? && freshId !in s.outbox.issued
    case MarkFor(h) => h < |s.handlers| && s.handlers[h].at.Holds? && s.handlers[h].at.holder < |s.outbox.holders|
    case SendFor(h, receipt) => h < |s.handlers| && s.handlers[h].at.Owns? && receipt.Valid()
    case RecordFor(h, _) =>
      && h < |s.handlers| && s.handlers[h].at.CalledOnce? && s.handlers[h].at.holder < |s.outbox.holders|
      && s.outbox.holders[s.handlers[h].at.holder].phase.Called?
    case PortFails(h) => h < |s.handlers| && !s.handlers[h].at.Finished?
    case PurgeExpired(c, _) => c in s.conversations
  }

  function Step(s: System, e: SystemEvent, config: Configuration): System {
    if !Enabled(s, e) then s
    else match e
      case Deliver(message, now) => s.(handlers := s.handlers + [Handler(message, now, Arrived, None)])
      case TakeBinding(h, freshId) => TakeBindingStep(s, h, freshId, config)
      case CreateFor(h, freshId) => CreateForStep(s, h, freshId, config)
      case ActivateFor(h, doubted) => ActivateForStep(s, h, doubted, config)
      case FailFor(h) => FailForStep(s, h, config)
      case TakeExchange(h, freshId) => TakeExchangeStep(s, h, freshId, config)
      case AskChat(h, port) => AskChatStep(s, h, port)
      case CompleteExchange(h) => CompleteExchangeStep(s, h, config)
      case TakeOutbound(h, reply, citationCount, freshId) => TakeOutboundStep(s, h, reply, citationCount, freshId)
      case MarkFor(h) => MarkForStep(s, h)
      case SendFor(h, receipt) => SendForStep(s, h, receipt)
      case RecordFor(h, doubted) => RecordForStep(s, h, doubted)
      case PortFails(h) => PortFailsStep(s, h)
      case PurgeExpired(c, now) => PurgeStep(s, c, now, config)
  }

  function Run(s: System, events: seq<SystemEvent>, config: Configuration): System {
    if events == [] then s else Step(Run(s, events[..|events| - 1], config), events[|events| - 1], config)
  }
}
