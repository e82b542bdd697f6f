/** The invariant that links the tables and the handlers, kept by every event. */
module ChannelSystemInvariant {
  import opened Wrappers
  import opened ChatModels
  import opened ConversationModels
  import opened ChannelBinding
  import opened ChannelOutbox
  import opened ChannelSystem
  import opened ChannelSystemFacts
  import C = ConversationProtocol
  import K = ConversationCompletion
  import B = ChannelBindingProtocol
  import O = ChannelOutboxProtocol

  // ----- the parts -----

  ghost predicate WorldOk(conversations: map<Id, C.World>, c: Id, settings: Settings)
    requires c in conversations
  {
    conversations[c].id == c && C.Inv(conversations[c], settings)
  }

  ghost predicate WorldsOk(conversations: map<Id, C.World>, settings: Settings) {
    forall c :: c in conversations ==> WorldOk(conversations, c, settings)
  }

  /** No exchange id was ever issued in two conversations. */
  ghost predicate IdsApart(conversations: map<Id, C.World>) {
    forall c, d, id :: c in conversations && d in conversations && IssuedIn(conversations[c], id) && IssuedIn(conversations[d], id) ==> c == d
  }

  ghost predicate BindingsMatch(conversations: map<Id, C.World>, bindings: B.Bindings) {
    && B.Inv(bindings) && bindings.known == conversations.Keys
    && forall c :: c in conversations ==> (c in bindings.live <==> IsLive(conversations[c]))
  }

  /** An outbound row belongs to a completed exchange of its own delivery, in the very
      conversation its binding is active for. */
  predicate Linked(conversations: map<Id, C.World>, bindings: seq<BindingRow>, row: OutboundRow) {
    exists c :: c in conversations && IsBound(bindings, row.bindingId, c) && HasAnswer(conversations[c], row.exchangeId, row.delivery)
  }

  predicate AllLinked(conversations: map<Id, C.World>, bindings: seq<BindingRow>, rows: seq<OutboundRow>) {
    forall k :: 0 <= k < |rows| ==> Linked(conversations, bindings, rows[k])
  }

  predicate HasOutbound(rows: seq<OutboundRow>, exchangeId: Id) {
    exists k :: 0 <= k < |rows| && rows[k].exchangeId == exchangeId
  }

  /** Every exchange had at most one outbound row, ever; as long as the exchange exists,
      so does that row. */
  predicate Spent(conversations: map<Id, C.World>, created: seq<OutboundRow>, rows: seq<OutboundRow>) {
    && (forall n, m :: 0 <= n < m < |created| ==> created[n].exchangeId != created[m].exchangeId)
    && (forall n :: 0 <= n < |created| ==> SpentRow(conversations, rows, created[n]))
  }

  predicate SpentRow(conversations: map<Id, C.World>, rows: seq<OutboundRow>, row: OutboundRow) {
    && IssuedAnywhere(conversations, row.exchangeId)
    && (row.exchangeId in Existing(conversations) ==> HasOutbound(rows, row.exchangeId))
  }

  /** Row `id` was inserted for this delivery. */
  predicate InsertedFor(created: seq<OutboundRow>, id: Id, delivery: string) {
    exists n :: 0 <= n < |created| && created[n].id == id && created[n].delivery == delivery
  }

  predicate WasDelivered(outbox: O.Outbox, delivery: string) {
    exists n :: 0 <= n < |outbox.sends| && outbox.sends[n].receipt.status.Delivered?
      && InsertedFor(outbox.created, outbox.sends[n].outboundId, delivery)
  }

  predicate HolderFor(outbox: O.Outbox, holder: nat, delivery: string) {
    holder < |outbox.holders| && InsertedFor(outbox.created, outbox.holders[holder].reservation.outboundId, delivery)
  }

  predicate WonOk(conversations: map<Id, C.World>, won: Option<Won>) {
    won.Some? ==>
      won.value.conversationId in conversations && won.value.ticket < |conversations[won.value.conversationId].tickets|
  }

  predicate BoundAt(conversations: map<Id, C.World>, bindings: B.Bindings, bindingId: Id, c: Id) {
    c in conversations && BoundTo(bindings, bindingId, c)
  }

  predicate OwnsTicket(conversations: map<Id, C.World>, handler: Handler, c: Id) {
    && handler.won.Some? && handler.won.value.conversationId == c && WonOk(conversations, handler.won)
    && conversations[c].tickets[handler.won.value.ticket].request.deliveryId == handler.message.delivery
  }

  /** What a handler relies on at each of its points. */
  predicate HandlerOk(conversations: map<Id, C.World>, bindings: B.Bindings, outbox: O.Outbox, handler: Handler) {
    && WonOk(conversations, handler.won)
    && match handler.at
       case Arrived => handler.won.None?
       case HasToken(token) => handler.won.None? && token < |bindings.tokens|
       case HasConversation(token, c) => handler.won.None? && token < |bindings.tokens| && c in conversations
       case GivingUp(token) => handler.won.None? && token < |bindings.tokens|
       case Bound(b, c) => handler.won.None? && BoundAt(conversations, bindings, b, c)
       case Asking(b, c) => BoundAt(conversations, bindings, b, c) && OwnsTicket(conversations, handler, c)
       case Answering(b, c, chat) => BoundAt(conversations, bindings, b, c) && OwnsTicket(conversations, handler, c) && chat.Valid()
       case Replied(b, c, e) => BoundAt(conversations, bindings, b, c) && MayAnswer(conversations[c], e, handler.message.delivery)
       case Holds(holder) => HolderFor(outbox, holder, handler.message.delivery)
       case Owns(holder) => HolderFor(outbox, holder, handler.message.delivery)
       case CalledOnce(holder) => HolderFor(outbox, holder, handler.message.delivery)
       case Finished(ingress) => ingress.Acknowledged? ==> WasDelivered(outbox, handler.message.delivery)
  }

  predicate HandlersOk(conversations: map<Id, C.World>, bindings: B.Bindings, outbox: O.Outbox, handlers: seq<Handler>) {
    forall h :: 0 <= h < |handlers| ==> HandlerOk(conversations, bindings, outbox, handlers[h])
  }

  /** No reservation is held by two handlers. */
  predicate TicketsApart(handlers: seq<Handler>) {
    forall g, h :: 0 <= g < h < |handlers| && handlers[g].won.Some? && handlers[h].won.Some? ==> handlers[g].won != handlers[h].won
  }

  predicate ChatIsOf(conversations: map<Id, C.World>, handlers: seq<Handler>, chat: Chat) {
    && chat.handler < |handlers| && handlers[chat.handler].won.Some? && WonOk(conversations, handlers[chat.handler].won)
    && !handlers[chat.handler].at.Asking?
    && var won := handlers[chat.handler].won.value;
       conversations[won.conversationId].tickets[won.ticket].reservation.exchangeId == chat.exchangeId
  }

  predicate ChatsLogged(conversations: map<Id, C.World>, handlers: seq<Handler>, chats: seq<Chat>) {
    && (forall n :: 0 <= n < |chats| ==> ChatIsOf(conversations, handlers, chats[n]))
    && (forall n, m :: 0 <= n < m < |chats| ==> chats[n].handler != chats[m].handler)
  }

  ghost predicate Inv(s: System, config: Configuration) {
    && WorldsOk(s.conversations, config.conversation) && IdsApart(s.conversations)
    && BindingsMatch(s.conversations, s.bindings)
    && O.Inv(s.outbox)
    && AllLinked(s.conversations, s.bindings.rows, s.outbox.rows)
    && Spent(s.conversations, s.outbox.created, s.outbox.rows)
    && HandlersOk(s.conversations, s.bindings, s.outbox, s.handlers)
    && TicketsApart(s.handlers)
    && ChatsLogged(s.conversations, s.handlers, s.chats)
  }

  lemma InvParts(s: System, config: Configuration)
    requires Inv(s, config)
    ensures WorldsOk(s.conversations, config.conversation) && IdsApart(s.conversations)
    ensures BindingsMatch(s.conversations, s.bindings) && O.Inv(s.outbox)
    ensures AllLinked(s.conversations, s.bindings.rows, s.outbox.rows)
    ensures Spent(s.conversations, s.outbox.created, s.outbox.rows)
    ensures HandlersOk(s.conversations, s.bindings, s.outbox, s.handlers)
    ensures TicketsApart(s.handlers) && ChatsLogged(s.conversations, s.handlers, s.chats)
  {
    hide WorldsOk, IdsApart, BindingsMatch, O.Inv, AllLinked, Spent, HandlersOk, TicketsApart, ChatsLogged;
  }

  lemma InvOfParts(s: System, config: Configuration)
    requires WorldsOk(s.conversations, config.conversation) && IdsApart(s.conversations)
    requires BindingsMatch(s.conversations, s.bindings) && O.Inv(s.outbox)
    requires AllLinked(s.conversations, s.bindings.rows, s.outbox.rows)
    requires Spent(s.conversations, s.outbox.created, s.outbox.rows)
    requires HandlersOk(s.conversations, s.bindings, s.outbox, s.handlers)
    requires TicketsApart(s.handlers) && ChatsLogged(s.conversations, s.handlers, s.chats)
    ensures Inv(s, config)
  {
    hide WorldsOk, IdsApart, BindingsMatch, O.Inv, AllLinked, Spent, HandlersOk, TicketsApart, ChatsLogged;
  }

  lemma EmptyInv(config: Configuration)
    ensures Inv(EMPTY_SYSTEM, config)
  {
    B.EmptyInv();
    O.EmptyInv();
  }

  // ----- growing components -----

  ghost predicate ConversationsGrow(a: map<Id, C.World>, b: map<Id, C.World>) {
    && (forall c :: c in a ==> c in b && a[c].tickets <= b[c].tickets)
    && (forall c, e, d :: c in a && MayAnswer(a[c], e, d) ==> c in b && MayAnswer(b[c], e, d))
  }

  ghost predicate BindingsGrow(a: B.Bindings, b: B.Bindings) {
    && |a.tokens| <= |b.tokens|
    && forall id, c :: BoundTo(a, id, c) ==> BoundTo(b, id, c)
  }

  ghost predicate OutboxGrows(a: O.Outbox, b: O.Outbox) {
    && a.created <= b.created && a.sends <= b.sends && |a.holders| <= |b.holders|
    && forall h :: 0 <= h < |a.holders| ==> b.holders[h].reservation == a.holders[h].reservation
  }

  lemma NothingGrows(conversations: map<Id, C.World>, bindings: B.Bindings, outbox: O.Outbox)
    ensures ConversationsGrow(conversations, conversations) && BindingsGrow(bindings, bindings) && OutboxGrows(outbox, outbox)
  {
  }

  lemma InsertedStays(a: seq<OutboundRow>, b: seq<OutboundRow>, id: Id, delivery: string)
    requires a <= b && InsertedFor(a, id, delivery)
    ensures InsertedFor(b, id, delivery)
  {
    var n :| 0 <= n < |a| && a[n].id == id && a[n].delivery == delivery;
    assert b[n] == a[n];
  }

  lemma DeliveredStays(a: O.Outbox, b: O.Outbox, delivery: string)
    requires OutboxGrows(a, b) && WasDelivered(a, delivery)
    ensures WasDelivered(b, delivery)
  {
    var n :| 0 <= n < |a.sends| && a.sends[n].receipt.status.Delivered? && InsertedFor(a.created, a.sends[n].outboundId, delivery);
    assert b.sends[n] == a.sends[n];
    InsertedStays(a.created, b.created, a.sends[n].outboundId, delivery);
  }

  /** A handler that does not move relies on nothing that another step can take away. */
  lemma HandlerStays(s: System, v: System, handler: Handler)
    requires ConversationsGrow(s.conversations, v.conversations) && BindingsGrow(s.bindings, v.bindings) && OutboxGrows(s.outbox, v.outbox)
    requires HandlerOk(s.conversations, s.bindings, s.outbox, handler)
    ensures HandlerOk(v.conversations, v.bindings, v.outbox, handler)
  {
    hide BoundTo, MayAnswer, InsertedFor, WasDelivered, ChatResult.Valid;
    match handler.at
    case Holds(holder) => HolderStays(s.outbox, v.outbox, holder, handler.message.delivery);
    case Owns(holder) => HolderStays(s.outbox, v.outbox, holder, handler.message.delivery);
    case CalledOnce(holder) => HolderStays(s.outbox, v.outbox, holder, handler.message.delivery);
    case Finished(ingress) => if ingress.Acknowledged? { DeliveredStays(s.outbox, v.outbox, handler.message.delivery); }
    case _ =>
  }

  lemma HolderStays(a: O.Outbox, b: O.Outbox, holder: nat, delivery: string)
    requires OutboxGrows(a, b) && HolderFor(a, holder, delivery)
    ensures HolderFor(b, holder, delivery)
  {
    hide InsertedFor;
    InsertedStays(a.created, b.created, a.holders[holder].reservation.outboundId, delivery);
  }

  lemma ChatsStay(a: map<Id, C.World>, b: map<Id, C.World>, handlers: seq<Handler>, chats: seq<Chat>)
    requires ConversationsGrow(a, b) && ChatsLogged(a, handlers, chats)
    ensures ChatsLogged(b, handlers, chats)
  {
    hide MayAnswer;
    forall n | 0 <= n < |chats| ensures ChatIsOf(b, handlers, chats[n]) {
      assert ChatIsOf(a, handlers, chats[n]);
    }
  }

  predicate OnlyMoved(a: seq<Handler>, b: seq<Handler>, h: nat) {
    h < |a| && |b| == |a| && forall g :: 0 <= g < |a| && g != h ==> b[g] == a[g]
  }

  /** One handler moves, the components grow: its new point is all that is left to show. */
  lemma HandlersMove(s: System, v: System, h: nat)
    requires HandlersOk(s.conversations, s.bindings, s.outbox, s.handlers) && OnlyMoved(s.handlers, v.handlers, h)
    requires ConversationsGrow(s.conversations, v.conversations) && BindingsGrow(s.bindings, v.bindings) && OutboxGrows(s.outbox, v.outbox)
    requires HandlerOk(v.conversations, v.bindings, v.outbox, v.handlers[h])
    ensures HandlersOk(v.conversations, v.bindings, v.outbox, v.handlers)
  {
    hide HandlerOk, ConversationsGrow, BindingsGrow, OutboxGrows;
    forall g | 0 <= g < |v.handlers| ensures HandlerOk(v.conversations, v.bindings, v.outbox, v.handlers[g]) {
      if g != h {
        assert HandlerOk(s.conversations, s.bindings, s.outbox, s.handlers[g]);
        HandlerStays(s, v, s.handlers[g]);
      }
    }
  }

  /** ... and its reservation, when it stays the same, is still held by nobody else. */
  lemma TicketsStay(s: System, v: System, h: nat)
    requires TicketsApart(s.handlers) && OnlyMoved(s.handlers, v.handlers, h) && v.handlers[h].won == s.handlers[h].won
    ensures TicketsApart(v.handlers)
  {
  }

  lemma ChatsMove(s: System, v: System, h: nat)
    requires ChatsLogged(s.conversations, s.handlers, s.chats) && v.chats == s.chats
    requires OnlyMoved(s.handlers, v.handlers, h) && v.handlers[h].won == s.handlers[h].won
    requires ConversationsGrow(s.conversations, v.conversations) && !v.handlers[h].at.Asking?
    ensures ChatsLogged(v.conversations, v.handlers, v.chats)
  {
    hide MayAnswer;
    forall n | 0 <= n < |v.chats| ensures ChatIsOf(v.conversations, v.handlers, v.chats[n]) {
      assert ChatIsOf(s.conversations, s.handlers, s.chats[n]);
    }
  }

  // ----- a step of one component -----

  lemma OutboxStepGrows(w: O.Outbox, e: O.OutboxEvent)
    ensures OutboxGrows(w, O.Step(w, e))
  {
    hide ReserveOutbound, MarkSending, CompleteOutbound, ValidHmac, Receipt.Valid;
  }

  lemma BindingStepGrows(w: B.Bindings, e: B.BindingEvent, leaseSeconds: LeaseSeconds)
    requires B.Inv(w)
    ensures BindingsGrow(w, B.Step(w, e, leaseSeconds))
  {
    hide B.Inv, B.Step, BoundTo;
    TokensGrow(w, e, leaseSeconds);
    forall id, c | BoundTo(w, id, c) ensures BoundTo(B.Step(w, e, leaseSeconds), id, c) {
      BoundToStays(w, e, id, c, leaseSeconds);
    }
  }

  lemma ConversationStepGrows(conversations: map<Id, C.World>, c: Id, e: C.Event, settings: Settings)
    requires c in conversations && C.Inv(conversations[c], settings)
    ensures ConversationsGrow(conversations, conversations[c := C.Step(conversations[c], e, settings)])
  {
    hide C.Inv, C.Step, MayAnswer;
    TicketsGrow(conversations[c], e, settings);
    forall id, d | MayAnswer(conversations[c], id, d) ensures MayAnswer(C.Step(conversations[c], e, settings), id, d) {
      AnswerStays(conversations[c], e, id, d, settings);
    }
  }

  lemma NewConversationGrows(conversations: map<Id, C.World>, c: Id, w: C.World)
    requires c !in conversations
    ensures ConversationsGrow(conversations, conversations[c := w])
  {
    hide MayAnswer;
  }

  lemma StepKeepsWorlds(conversations: map<Id, C.World>, c: Id, e: C.Event, settings: Settings)
    requires WorldsOk(conversations, settings) && c in conversations
    ensures WorldsOk(conversations[c := C.Step(conversations[c], e, settings)], settings)
  {
    hide C.Inv, C.Step;
    assert WorldOk(conversations, c, settings);
    TicketsGrow(conversations[c], e, settings);
    K.StepKeeps(conversations[c], e, settings);
    var v := conversations[c := C.Step(conversations[c], e, settings)];
    forall d | d in v ensures WorldOk(v, d, settings) {
      if d != c { assert WorldOk(conversations, d, settings); }
    }
  }

  lemma StepKeepsApart(conversations: map<Id, C.World>, c: Id, e: C.Event, settings: Settings)
    requires IdsApart(conversations) && c in conversations
    requires e.ReserveEvent? ==> !IssuedAnywhere(conversations, e.freshId)
    ensures IdsApart(conversations[c := C.Step(conversations[c], e, settings)])
  {
    hide C.Step, IssuedIn;
    var v := conversations[c := C.Step(conversations[c], e, settings)];
    forall a, b, id | a in v && b in v && IssuedIn(v[a], id) && IssuedIn(v[b], id) ensures a == b {
      TicketIdsGrow(conversations[c], e, id, settings);
      assert IssuedIn(conversations[a], id) || IssuedIn(conversations[b], id) ==> IssuedAnywhere(conversations, id);
    }
  }
}
