/** Every event of the whole system keeps its invariant. */
module ChannelSystemSteps {
  import opened Wrappers
  import opened Sequences
  import opened ChatModels
  import opened ConversationModels
  import opened ConversationPolicy
  import opened ConversationStore
  import opened ConversationService
  import opened ChannelBinding
  import opened ChannelOutbox
  import opened ChannelSystem
  import opened ChannelSystemFacts
  import opened ChannelSystemInvariant
  import C = ConversationProtocol
  import B = ChannelBindingProtocol
  import O = ChannelOutboxProtocol
  import OT = ChannelOutboxTheorems

  // ----- handlers only -----

  lemma HandlerOnly(s: System, v: System, h: nat, config: Configuration)
    requires Inv(s, config) && OnlyMoved(s.handlers, v.handlers, h)
    requires v == s.(handlers := v.handlers) && v.handlers[h].won == s.handlers[h].won && !v.handlers[h].at.Asking?
    requires HandlerOk(s.conversations, s.bindings, s.outbox, v.handlers[h])
    ensures Inv(v, config)
  {
    hide Inv, WorldsOk, IdsApart, BindingsMatch, O.Inv, AllLinked, Spent, HandlersOk, TicketsApart, ChatsLogged;
    hide OnlyMoved, HandlerOk, ConversationsGrow, BindingsGrow, OutboxGrows;
    InvParts(s, config);
    NothingGrows(s.conversations, s.bindings, s.outbox);
    HandlersMove(s, v, h);
    TicketsStay(s, v, h);
    ChatsMove(s, v, h);
    InvOfParts(v, config);
  }

  lemma DeliverKeeps(s: System, message: Inbound, now: Time, config: Configuration)
    requires Inv(s, config)
    ensures Inv(s.(handlers := s.handlers + [Handler(message, now, Arrived, None)]), config)
  {
    hide Inv, WorldsOk, IdsApart, BindingsMatch, O.Inv, AllLinked, Spent, WonOk;
    InvParts(s, config);
    var v := s.(handlers := s.handlers + [Handler(message, now, Arrived, None)]);
    hide HandlerOk;
    forall h | 0 <= h < |v.handlers| ensures HandlerOk(v.conversations, v.bindings, v.outbox, v.handlers[h]) {
      if h < |s.handlers| {
        assert HandlerOk(s.conversations, s.bindings, s.outbox, s.handlers[h]);
      } else {
        ArrivedIsOk(s, message, now);
      }
    }
    forall n | 0 <= n < |v.chats| ensures ChatIsOf(v.conversations, v.handlers, v.chats[n]) {
      assert ChatIsOf(s.conversations, s.handlers, s.chats[n]);
    }
    InvOfParts(v, config);
  }

  lemma ArrivedIsOk(s: System, message: Inbound, now: Time)
    ensures HandlerOk(s.conversations, s.bindings, s.outbox, Handler(message, now, Arrived, None))
  {
  }

  lemma HandlerAt(s: System, h: nat, config: Configuration)
    requires Inv(s, config) && h < |s.handlers|
    ensures HandlerOk(s.conversations, s.bindings, s.outbox, s.handlers[h])
  {
    hide Inv, WorldsOk, IdsApart, BindingsMatch, O.Inv, AllLinked, Spent, TicketsApart, ChatsLogged, HandlerOk;
    InvParts(s, config);
  }

  /** A handler that gives up relies on nothing but its log. */
  lemma FinishedIsOk(s: System, handler: Handler, ingress: Ingress)
    requires HandlerOk(s.conversations, s.bindings, s.outbox, handler) && !ingress.Acknowledged?
    ensures HandlerOk(s.conversations, s.bindings, s.outbox, handler.(at := Finished(ingress)))
  {
  }

  lemma PortFailsKeeps(s: System, h: nat, config: Configuration)
    requires Inv(s, config) && Enabled(s, PortFails(h))
    ensures Inv(PortFailsStep(s, h), config)
  {
    hide Inv, WonOk, BoundAt, OwnsTicket, HolderFor, WasDelivered, MayAnswer, ChatResult.Valid;
    HandlerAt(s, h, config);
    var v := PortFailsStep(s, h);
    HandlerOnly(s, v, h, config);
  }

  // ----- the bindings -----

  lemma LinkedStays(s: System, e: B.BindingEvent, config: Configuration)
    requires Inv(s, config) && B.Step(s.bindings, e, config.leaseSeconds).live == s.bindings.live
    ensures AllLinked(s.conversations, B.Step(s.bindings, e, config.leaseSeconds).rows, s.outbox.rows)
  {
    hide Inv, WorldsOk, IdsApart, O.Inv, Spent, TicketsApart, ChatsLogged, HandlersOk, B.Inv, B.Step, IsBound;
    hide MayAnswer;
    InvParts(s, config);
    var v := B.Step(s.bindings, e, config.leaseSeconds);
    forall k | 0 <= k < |s.outbox.rows| ensures Linked(s.conversations, v.rows, s.outbox.rows[k]) {
      var row := s.outbox.rows[k];
      assert Linked(s.conversations, s.bindings.rows, row);
      var c :| c in s.conversations && IsBound(s.bindings.rows, row.bindingId, c) && HasAnswer(s.conversations[c], row.exchangeId, row.delivery);
      AnswerIsLive(s.conversations[c], row.exchangeId, row.delivery);
      IsBoundStays(s.bindings, e, row.bindingId, c, config.leaseSeconds);
    }
  }

  lemma AnswerIsLive(w: C.World, id: Id, delivery: string)
    requires HasAnswer(w, id, delivery)
    ensures IsLive(w)
  {
    hide MayAnswer;
    assert id in RowIds(w);
  }

  lemma BindingOnly(s: System, v: System, h: nat, e: B.BindingEvent, config: Configuration)
    requires Inv(s, config) && OnlyMoved(s.handlers, v.handlers, h)
    requires v == s.(handlers := v.handlers, bindings := v.bindings) && v.bindings == B.Step(s.bindings, e, config.leaseSeconds)
    requires v.bindings.live == s.bindings.live && v.bindings.known == s.bindings.known
    requires v.handlers[h].won == s.handlers[h].won && !v.handlers[h].at.Asking?
    requires HandlerOk(v.conversations, v.bindings, v.outbox, v.handlers[h])
    ensures Inv(v, config)
  {
    hide Inv, WorldsOk, IdsApart, O.Inv, AllLinked, Spent, HandlersOk, TicketsApart, ChatsLogged, OnlyMoved;
    hide HandlerOk, ConversationsGrow, BindingsGrow, OutboxGrows, B.Inv, B.Step;
    InvParts(s, config);
    NothingGrows(s.conversations, s.bindings, s.outbox);
    BindingStepGrows(s.bindings, e, config.leaseSeconds);
    B.StepKeeps(s.bindings, e, config.leaseSeconds);
    LinkedStays(s, e, config);
    HandlersMove(s, v, h);
    TicketsStay(s, v, h);
    ChatsMove(s, v, h);
    InvOfParts(v, config);
  }

  lemma BindingParts(s: System, config: Configuration)
    requires Inv(s, config)
    ensures B.Inv(s.bindings) && s.bindings.known == s.conversations.Keys && s.bindings.live <= s.bindings.known
  {
    hide Inv, WorldsOk, IdsApart, O.Inv, AllLinked, Spent, HandlersOk, TicketsApart, ChatsLogged, BindingTable;
    hide B.Fenced, B.Logged;
    InvParts(s, config);
    B.InvParts(s.bindings);
  }

  lemma TakeBindingKeeps(s: System, h: nat, freshId: Id, config: Configuration)
    requires Inv(s, config) && Enabled(s, TakeBinding(h, freshId))
    ensures Inv(TakeBindingStep(s, h, freshId, config), config)
  {
    hide Inv, B.Inv, ValidHmac, HandlersOk, WasDelivered, InsertedFor, BoundTo;
    var handler := s.handlers[h];
    var v := TakeBindingStep(s, h, freshId, config);
    var e := B.Reserve(handler.message.identity, handler.now, freshId);
    HandlerAt(s, h, config);
    BindingParts(s, config);
    var k := IndexWhere(HasIdentity(handler.message.identity), s.bindings.rows);
    if v.handlers[h].at.Bound? {
      ActiveIsBoundTo(s.bindings, k);
      BoundToStays(s.bindings, e, s.bindings.rows[k].id, s.bindings.rows[k].conversationId.value, config.leaseSeconds);
    }
    BindingOnly(s, v, h, e, config);
  }

  lemma ActivatedIsBound(w: B.Bindings, token: nat, c: Id, now: Time, leaseSeconds: LeaseSeconds)
    requires B.Inv(w) && token < |w.tokens| && ActivateBinding(w.rows, w.tokens[token], c, now, w.live).result.Ok?
    ensures BoundTo(B.Step(w, B.Activate(token, c, now), leaseSeconds), w.tokens[token].bindingId, c)
    ensures c in w.live
  {
    hide B.Inv, ConversationTaken, BoundTo;
    B.StepKeeps(w, B.Activate(token, c, now), leaseSeconds);
    var v := B.Step(w, B.Activate(token, c, now), leaseSeconds);
    var k := IndexWhere(HasBindingId(w.tokens[token].bindingId), w.rows);
    ActiveIsBoundTo(v, k);
  }

  lemma ActivateForKeeps(s: System, h: nat, doubted: bool, config: Configuration)
    requires Inv(s, config) && Enabled(s, ActivateFor(h, doubted))
    ensures Inv(ActivateForStep(s, h, doubted, config), config)
  {
    hide Inv, B.Inv, HandlersOk, WasDelivered, InsertedFor, BoundTo, ActivateBinding, BindingsGrow;
    var handler := s.handlers[h];
    var v := ActivateForStep(s, h, doubted, config);
    HandlerAt(s, h, config);
    BindingParts(s, config);
    var token, c := handler.at.token, handler.at.conversationId;
    if v.handlers[h].at.Bound? {
      ActivatedIsBound(s.bindings, token, c, handler.now, config.leaseSeconds);
    }
    BindingOnly(s, v, h, B.Activate(token, c, handler.now), config);
  }

  lemma FailForKeeps(s: System, h: nat, config: Configuration)
    requires Inv(s, config) && Enabled(s, FailFor(h))
    ensures Inv(FailForStep(s, h, config), config)
  {
    hide Inv, B.Inv, HandlersOk, WasDelivered, FailBinding, BindingsGrow;
    var handler := s.handlers[h];
    HandlerAt(s, h, config);
    BindingOnly(s, FailForStep(s, h, config), h, B.Fail(handler.at.token, "BINDING_ACTIVATION_FAILED", handler.now), config);
  }

  // ----- a new conversation -----

  lemma NewConversationKeeps(s: System, c: Id, w: C.World, config: Configuration)
    requires Inv(s, config) && c !in s.conversations && w == C.Initial(c, 0, config.conversation).(conversation := w.conversation)
    requires IsLive(w) && Rows(w) == [] && C.Inv(w, config.conversation)
    ensures var conversations := s.conversations[c := w];
      && WorldsOk(conversations, config.conversation) && IdsApart(conversations)
      && AllLinked(conversations, s.bindings.rows, s.outbox.rows) && Spent(conversations, s.outbox.created, s.outbox.rows)
  {
    hide Inv, C.Inv, BindingsMatch, O.Inv, HandlersOk, TicketsApart, ChatsLogged, HasAnswer, IsBound, HasOutbound;
    InvParts(s, config);
    var conversations := s.conversations[c := w];
    forall d | d in conversations ensures WorldOk(conversations, d, config.conversation) {
      if d != c { assert WorldOk(s.conversations, d, config.conversation); }
    }
    forall k | 0 <= k < |s.outbox.rows| ensures Linked(conversations, s.bindings.rows, s.outbox.rows[k]) {
      var row := s.outbox.rows[k];
      var d :| d in s.conversations && IsBound(s.bindings.rows, row.bindingId, d) && HasAnswer(s.conversations[d], row.exchangeId, row.delivery);
      assert conversations[d] == s.conversations[d];
    }
    assert Existing(conversations) == Existing(s.conversations) by { NewConversationIsEmpty(s.conversations, c, w); }
    forall n | 0 <= n < |s.outbox.created| ensures SpentRow(conversations, s.outbox.rows, s.outbox.created[n]) {
      var id := s.outbox.created[n].exchangeId;
      assert SpentRow(s.conversations, s.outbox.rows, s.outbox.created[n]);
      var d :| d in s.conversations && IssuedIn(s.conversations[d], id);
      assert conversations[d] == s.conversations[d];
    }
  }

  lemma NewConversationIsEmpty(conversations: map<Id, C.World>, c: Id, w: C.World)
    requires c !in conversations && Rows(w) == []
    ensures Existing(conversations[c := w]) == Existing(conversations)
  {
    var after := conversations[c := w];
    assert RowIds(w) == {};
    forall id | id in Existing(conversations) ensures id in Existing(after) {
      var d :| d in conversations && id in RowIds(conversations[d]);
      assert after[d] == conversations[d];
    }
    forall id | id in Existing(after) ensures id in Existing(conversations) {
      var d :| d in after && id in RowIds(after[d]);
      assert d != c;
      assert after[d] == conversations[d];
    }
  }

  lemma CreatedMatches(s: System, freshId: Id, w: C.World, config: Configuration)
    requires BindingsMatch(s.conversations, s.bindings) && freshId !in s.conversations && IsLive(w)
    ensures BindingsMatch(s.conversations[freshId := w], B.Step(s.bindings, B.CreateConversation(freshId), config.leaseSeconds))
  {
    hide B.Inv;
    B.StepKeeps(s.bindings, B.CreateConversation(freshId), config.leaseSeconds);
  }

  lemma CreateForKeeps(s: System, h: nat, freshId: Id, config: Configuration)
    requires Inv(s, config) && Enabled(s, CreateFor(h, freshId))
    ensures Inv(CreateForStep(s, h, freshId, config), config)
  {
    hide Inv, WorldsOk, IdsApart, O.Inv, AllLinked, Spent, HandlersOk, TicketsApart, ChatsLogged, ConversationsGrow;
    hide BindingsGrow, OutboxGrows, B.Inv, C.Inv, BindingsMatch;
    InvParts(s, config);
    var handler := s.handlers[h];
    var v := CreateForStep(s, h, freshId, config);
    var w := C.Initial(freshId, handler.now, config.conversation);
    HandlerAt(s, h, config);
    C.InitialInv(freshId, handler.now, config.conversation);
    NewConversationKeeps(s, freshId, w, config);
    CreatedMatches(s, freshId, w, config);
    NewConversationGrows(s.conversations, freshId, w);
    NothingGrows(s.conversations, s.bindings, s.outbox);
    BindingParts(s, config);
    BindingStepGrows(s.bindings, B.CreateConversation(freshId), config.leaseSeconds);
    assert v.bindings.rows == s.bindings.rows;
    HandlersMove(s, v, h);
    TicketsStay(s, v, h);
    ChatsMove(s, v, h);
    InvOfParts(v, config);
  }

  // ----- reserving an exchange -----

  lemma WorldAt(s: System, c: Id, config: Configuration)
    requires Inv(s, config) && c in s.conversations
    ensures C.Inv(s.conversations[c], config.conversation) && s.conversations[c].id == c
  {
    hide Inv, C.Inv, IdsApart, O.Inv, AllLinked, Spent, TicketsApart, ChatsLogged, HandlersOk, BindingsMatch;
    InvParts(s, config);
    assert WorldOk(s.conversations, c, config.conversation);
  }

  lemma ExistingIsIssued(conversations: map<Id, C.World>, id: Id, settings: Settings) returns (c: Id)
    requires WorldsOk(conversations, settings) && id in Existing(conversations)
    ensures c in conversations && id in RowIds(conversations[c]) && IssuedIn(conversations[c], id)
  {
    hide C.Inv, IssuedIn;
    c :| c in conversations && id in RowIds(conversations[c]);
    assert WorldOk(conversations, c, settings);
    RowsAreIssued(conversations[c], settings);
  }

  /** An exchange that was ever issued does not come back. */
  lemma ExistingShrinks(conversations: map<Id, C.World>, c: Id, e: C.Event, id: Id, settings: Settings)
    requires WorldsOk(conversations, settings) && IdsApart(conversations) && c in conversations
    requires e.ReserveEvent? ==> !IssuedAnywhere(conversations, e.freshId)
    requires IssuedAnywhere(conversations, id) && id in Existing(conversations[c := C.Step(conversations[c], e, settings)])
    ensures id in Existing(conversations)
  {
    hide C.Inv, C.Step, IdsApart, IssuedIn;
    var v := conversations[c := C.Step(conversations[c], e, settings)];
    StepKeepsWorlds(conversations, c, e, settings);
    var d := ExistingIsIssued(v, id, settings);
    if d == c {
      assert WorldOk(conversations, c, settings);
      TicketIdsGrow(conversations[c], e, id, settings);
      RowIdsShrink(conversations[c], e, id, settings);
    } else {
      assert v[d] == conversations[d];
    }
  }

  lemma IssuedStays(conversations: map<Id, C.World>, c: Id, e: C.Event, id: Id, settings: Settings)
    requires c in conversations && IssuedAnywhere(conversations, id)
    ensures IssuedAnywhere(conversations[c := C.Step(conversations[c], e, settings)], id)
  {
    hide C.Step, IssuedIn;
    var v := conversations[c := C.Step(conversations[c], e, settings)];
    var d :| d in conversations && IssuedIn(conversations[d], id);
    TicketIdsGrow(conversations[c], e, id, settings);
    assert IssuedIn(v[d], id);
  }

  lemma ReserveKeepsSpent(s: System, c: Id, e: C.Event, config: Configuration)
    requires Inv(s, config) && c in s.conversations && e.ReserveEvent? && !IssuedAnywhere(s.conversations, e.freshId)
    ensures Spent(s.conversations[c := C.Step(s.conversations[c], e, config.conversation)], s.outbox.created, s.outbox.rows)
  {
    hide Inv, C.Step, WorldsOk, IdsApart, O.Inv, AllLinked, TicketsApart, ChatsLogged, HandlersOk, BindingsMatch;
    hide HasOutbound, IssuedAnywhere, Existing;
    InvParts(s, config);
    var v := s.conversations[c := C.Step(s.conversations[c], e, config.conversation)];
    forall n | 0 <= n < |s.outbox.created| ensures SpentRow(v, s.outbox.rows, s.outbox.created[n]) {
      var id := s.outbox.created[n].exchangeId;
      assert SpentRow(s.conversations, s.outbox.rows, s.outbox.created[n]);
      IssuedStays(s.conversations, c, e, id, config.conversation);
      if id in Existing(v) {
        ExistingShrinks(s.conversations, c, e, id, config.conversation);
      }
    }
  }

  lemma ReserveKeepsLinked(s: System, c: Id, e: C.Event, config: Configuration)
    requires Inv(s, config) && c in s.conversations && e.ReserveEvent? && C.Enabled(s.conversations[c], e)
    ensures AllLinked(s.conversations[c := C.Step(s.conversations[c], e, config.conversation)], s.bindings.rows, s.outbox.rows)
    ensures IsLive(C.Step(s.conversations[c], e, config.conversation)) == IsLive(s.conversations[c])
  {
    hide Inv, C.Inv, C.ReserveStep, IdsApart, O.Inv, Spent, TicketsApart, ChatsLogged, HandlersOk, BindingsMatch;
    hide WorldsOk, IsBound, MayAnswer;
    InvParts(s, config);
    WorldAt(s, c, config);
    var w := s.conversations[c];
    var v := s.conversations[c := C.Step(w, e, config.conversation)];
    ReserveKeepsRowIds(w, e.request, e.now, e.freshId, config.conversation);
    forall k | 0 <= k < |s.outbox.rows| ensures Linked(v, s.bindings.rows, s.outbox.rows[k]) {
      var row := s.outbox.rows[k];
      assert Linked(s.conversations, s.bindings.rows, row);
      var d :| d in s.conversations && IsBound(s.bindings.rows, row.bindingId, d) && HasAnswer(s.conversations[d], row.exchangeId, row.delivery);
      if d == c {
        AnswerStays(w, e, row.exchangeId, row.delivery, config.conversation);
      }
      assert HasAnswer(v[d], row.exchangeId, row.delivery);
    }
  }

  lemma ReserveMatches(s: System, c: Id, w: C.World, config: Configuration)
    requires BindingsMatch(s.conversations, s.bindings) && c in s.conversations && IsLive(w) == IsLive(s.conversations[c])
    ensures BindingsMatch(s.conversations[c := w], s.bindings)
  {
    hide B.Inv;
  }

  /** A handler that has just reserved is the only one with its ticket, and asked nobody. */
  lemma NewTicketIsApart(s: System, handlers: seq<Handler>, h: nat, c: Id)
    requires HandlersOk(s.conversations, s.bindings, s.outbox, s.handlers) && TicketsApart(s.handlers)
    requires OnlyMoved(s.handlers, handlers, h) && c in s.conversations
    requires handlers[h].won == Some(Won(c, |s.conversations[c].tickets|)) || handlers[h].won == s.handlers[h].won
    ensures TicketsApart(handlers)
  {
    forall g | 0 <= g < |s.handlers| ensures s.handlers[g].won != Some(Won(c, |s.conversations[c].tickets|)) {
      hide BoundAt, OwnsTicket, HolderFor, WasDelivered, MayAnswer, ChatResult.Valid;
      assert HandlerOk(s.conversations, s.bindings, s.outbox, s.handlers[g]);
    }
  }

  lemma UnaskedChats(s: System, v: map<Id, C.World>, handlers: seq<Handler>, h: nat)
    requires ChatsLogged(s.conversations, s.handlers, s.chats) && OnlyMoved(s.handlers, handlers, h)
    requires s.handlers[h].won.None? && ConversationsGrow(s.conversations, v)
    ensures ChatsLogged(v, handlers, s.chats)
  {
    hide MayAnswer;
    forall n | 0 <= n < |s.chats| ensures ChatIsOf(v, handlers, s.chats[n]) {
      assert ChatIsOf(s.conversations, s.handlers, s.chats[n]);
    }
  }

  lemma AfterReserveIsOk(s: System, h: nat, freshId: Id, config: Configuration)
    requires Inv(s, config) && Enabled(s, TakeExchange(h, freshId)) && RequestOf(s.handlers[h], s.handlers[h].at.conversationId).Valid()
    ensures var v := TakeExchangeStep(s, h, freshId, config);
      HandlerOk(v.conversations, v.bindings, v.outbox, v.handlers[h])
  {
    hide Inv, C.Inv, HasProcessing, MaxOrdinal, ReservationFor, FindByKey, PersistedOf, AbandonStale, BoundTo;
    hide HolderFor, WasDelivered, MayAnswer, ChatResult.Valid, RequireActive, C.Step;
    var handler := s.handlers[h];
    var c := handler.at.conversationId;
    var w := s.conversations[c];
    var request: Request := RequestOf(handler, c);
    HandlerAt(s, h, config);
    WorldAt(s, c, config);
    IssuedMeans(w, freshId);
    var tx := ReserveTx(w.conversation, request, handler.now, freshId, config.conversation);
    var e := C.ReserveEvent(request, handler.now, freshId);
    TicketsGrow(w, e, config.conversation);
    if tx.result.Ok? && tx.result.value.DuplicateCompleted? {
      CompletedMayAnswer(w, request, handler.now, freshId, config.conversation);
      AnswerStays(w, e, tx.result.value.completed.exchangeId, request.deliveryId, config.conversation);
    } else if tx.result.Ok? && tx.result.value.Reserved? {
      ReservedTicket(w, request, handler.now, freshId, config.conversation);
    }
  }

  lemma TakeExchangeKeeps(s: System, h: nat, freshId: Id, config: Configuration)
    requires Inv(s, config) && Enabled(s, TakeExchange(h, freshId))
    ensures Inv(TakeExchangeStep(s, h, freshId, config), config)
  {
    hide Inv, C.Inv, C.Step, ReserveTx, WorldsOk, IdsApart, O.Inv, AllLinked, Spent, HandlersOk, TicketsApart;
    hide ChatsLogged, BindingsMatch, ConversationsGrow, BindingsGrow, OutboxGrows, HandlerOk;
    var handler := s.handlers[h];
    var c := handler.at.conversationId;
    var v := TakeExchangeStep(s, h, freshId, config);
    HandlerAt(s, h, config);
    if !RequestOf(handler, c).Valid() {
      FinishedIsOk(s, handler, ServiceUnavailable);
      HandlerOnly(s, v, h, config);
    } else {
      var request: Request := RequestOf(handler, c);
      var e := C.ReserveEvent(request, handler.now, freshId);
      InvParts(s, config);
      WorldAt(s, c, config);
      IssuedMeans(s.conversations[c], freshId);
      BoundHoldsNothing(s, handler);
      NothingGrows(s.conversations, s.bindings, s.outbox);
      ConversationStepGrows(s.conversations, c, e, config.conversation);
      StepKeepsWorlds(s.conversations, c, e, config.conversation);
      StepKeepsApart(s.conversations, c, e, config.conversation);
      ReserveKeepsLinked(s, c, e, config);
      ReserveKeepsSpent(s, c, e, config);
      ReserveMatches(s, c, v.conversations[c], config);
      AfterReserveIsOk(s, h, freshId, config);
      HandlersMove(s, v, h);
      NewTicketIsApart(s, v.handlers, h, c);
      UnaskedChats(s, v.conversations, v.handlers, h);
      InvOfParts(v, config);
    }
  }

  lemma BoundHoldsNothing(s: System, handler: Handler)
    requires HandlerOk(s.conversations, s.bindings, s.outbox, handler) && handler.at.Bound?
    ensures handler.won.None?
  {
    hide BoundTo;
  }

  // ----- asking the chat port -----

  lemma AskChatKeeps(s: System, h: nat, port: Option<ChatResult>, config: Configuration)
    requires Inv(s, config) && Enabled(s, AskChat(h, port))
    ensures Inv(AskChatStep(s, h, port), config)
  {
    hide Inv, WorldsOk, IdsApart, O.Inv, AllLinked, Spent, HandlersOk, TicketsApart, BindingsMatch;
    hide ConversationsGrow, BindingsGrow, OutboxGrows, BoundTo, ChatResult.Valid, Answered;
    var v := AskChatStep(s, h, port);
    InvParts(s, config);
    HandlerAt(s, h, config);
    AnsweredIsValid(port);
    NothingGrows(s.conversations, s.bindings, s.outbox);
    HandlersMove(s, v, h);
    TicketsStay(s, v, h);
    forall n | 0 <= n < |s.chats| ensures ChatIsOf(v.conversations, v.handlers, s.chats[n]) && s.chats[n].handler != h {
      assert ChatIsOf(s.conversations, s.handlers, s.chats[n]);
    }
    assert ChatIsOf(v.conversations, v.handlers, v.chats[|s.chats|]);
    InvOfParts(v, config);
  }

  // ----- completing an exchange, purging a conversation: rows disappear -----

  /** Bindings of conversations that still live are still bound. */
  ghost predicate BoundRemain(a: seq<BindingRow>, b: B.Bindings) {
    forall id, c :: IsBound(a, id, c) && c in b.live ==> IsBound(b.rows, id, c)
  }

  lemma LinkedToSame(s: System, v: map<Id, C.World>, bindings: B.Bindings, row: OutboundRow, settings: Settings)
    requires Linked(s.conversations, s.bindings.rows, row) && row.exchangeId in Existing(v)
    requires ConversationsGrow(s.conversations, v) && WorldsOk(v, settings) && IdsApart(v)
    requires BindingsMatch(v, bindings) && BoundRemain(s.bindings.rows, bindings)
    ensures Linked(v, bindings.rows, row)
  {
    hide C.Inv, B.Inv, IsBound, MayAnswer, WorldsOk;
    var d := ExistingIsIssued(v, row.exchangeId, settings);
    var c :| c in s.conversations && IsBound(s.bindings.rows, row.bindingId, c) && HasAnswer(s.conversations[c], row.exchangeId, row.delivery);
    assert MayAnswer(v[c], row.exchangeId, row.delivery);
    AnsweredIsIssued(v[c], row.exchangeId, row.delivery);
    assert c == d;
    assert HasAnswer(v[c], row.exchangeId, row.delivery);
    AnswerIsLive(v[c], row.exchangeId, row.delivery);
  }

  lemma AnsweredIsIssued(w: C.World, id: Id, delivery: string)
    requires MayAnswer(w, id, delivery)
    ensures IssuedIn(w, id)
  {
  }

  lemma BoundIsFound(rows: seq<BindingRow>, id: Id, c: Id)
    requires IsBound(rows, id, c)
    ensures IndexWhere(HasBindingId(id), rows) < |rows|
  {
    var k :| 0 <= k < |rows| && rows[k].id == id && IsFor(rows[k], c);
    assert HasBindingId(id)(rows[k]);
  }

  lemma LinkedIsFound(v: map<Id, C.World>, bindings: seq<BindingRow>, row: OutboundRow)
    requires Linked(v, bindings, row)
    ensures IndexWhere(HasBindingId(row.bindingId), bindings) < |bindings|
  {
    hide IsBound, HasAnswer;
    var c :| c in v && IsBound(bindings, row.bindingId, c) && HasAnswer(v[c], row.exchangeId, row.delivery);
    BoundIsFound(bindings, row.bindingId, c);
  }

  /** After the cascade every row left is linked, and every exchange left has its row. */
  lemma CascadeKeeps(s: System, v: map<Id, C.World>, bindings: B.Bindings, config: Configuration)
    requires Inv(s, config) && ConversationsGrow(s.conversations, v) && WorldsOk(v, config.conversation) && IdsApart(v)
    requires BindingsMatch(v, bindings) && BoundRemain(s.bindings.rows, bindings)
    requires forall id :: IssuedAnywhere(s.conversations, id) && id in Existing(v) ==> id in Existing(s.conversations)
    requires forall id :: IssuedAnywhere(s.conversations, id) ==> IssuedAnywhere(v, id)
    ensures var after := Cascaded(s.(conversations := v, bindings := bindings)).outbox;
      && AllLinked(v, bindings.rows, after.rows) && Spent(v, after.created, after.rows)
      && O.Inv(after) && OutboxGrows(s.outbox, after)
  {
    hide Inv, WorldsOk, IdsApart, O.Inv, TicketsApart, ChatsLogged, HandlersOk, BindingsMatch, BoundRemain;
    hide ConversationsGrow, Existing, IssuedAnywhere, Linked, OutboxGrows;
    InvParts(s, config);
    var rows := s.outbox.rows;
    var gone := Orphans(rows, Existing(v), bindings.rows);
    var after := O.Step(s.outbox, O.Delete(gone));
    OutboxStepGrows(s.outbox, O.Delete(gone));
    O.StepKeeps(s.outbox, O.Delete(gone));
    UniqueOutboundIds(s, config);
    WithoutOutboundMembers(rows, gone);
    forall k | 0 <= k < |rows| && rows[k].exchangeId in Existing(v) ensures Linked(v, bindings.rows, rows[k]) && rows[k].id !in gone {
      LinkedToSame(s, v, bindings, rows[k], config.conversation);
      LinkedIsFound(v, bindings.rows, rows[k]);
    }
    forall k | 0 <= k < |after.rows| ensures Linked(v, bindings.rows, after.rows[k]) {
      assert after.rows[k] in rows;
      var i :| 0 <= i < |rows| && rows[i] == after.rows[k];
      assert rows[i].id !in gone;
    }
    forall n | 0 <= n < |after.created| ensures SpentRow(v, after.rows, after.created[n]) {
      var id := s.outbox.created[n].exchangeId;
      assert SpentRow(s.conversations, rows, s.outbox.created[n]);
      if id in Existing(v) {
        var k :| 0 <= k < |rows| && rows[k].exchangeId == id;
        assert rows[k] in after.rows;
        var i :| 0 <= i < |after.rows| && after.rows[i] == rows[k];
      }
    }
  }

  lemma UniqueOutboundIds(s: System, config: Configuration)
    requires Inv(s, config)
    ensures forall i, j :: 0 <= i < j < |s.outbox.rows| ==> s.outbox.rows[i].id != s.outbox.rows[j].id
  {
    hide Inv, WorldsOk, IdsApart, O.Inv, AllLinked, Spent, TicketsApart, ChatsLogged, HandlersOk, BindingsMatch;
    hide OutboundTable;
    InvParts(s, config);
    O.InvParts(s.outbox);
    O.UniqueRowIds(s.outbox);
  }

  lemma CompleteKeepsLive(w: C.World, ticket: nat, chat: ChatResult, now: Time, settings: Settings)
    requires ticket < |w.tickets|
    ensures IsLive(C.CompleteStep(w, ticket, chat, now, settings)) == IsLive(w)
  {
    hide BuildStateUpdate, FindById, LockedCandidates, PersistedOf, Exchange.DatabaseChecks, TerminalCount, Filter;
  }

  lemma StepIssues(conversations: map<Id, C.World>, c: Id, e: C.Event, settings: Settings)
    requires c in conversations && WorldsOk(conversations, settings) && IdsApart(conversations) && !e.ReserveEvent?
    ensures var v := conversations[c := C.Step(conversations[c], e, settings)];
      && (forall id :: IssuedAnywhere(conversations, id) && id in Existing(v) ==> id in Existing(conversations))
      && (forall id :: IssuedAnywhere(conversations, id) ==> IssuedAnywhere(v, id))
  {
    hide C.Step, WorldsOk, IdsApart, IssuedAnywhere, Existing;
    var v := conversations[c := C.Step(conversations[c], e, settings)];
    forall id | IssuedAnywhere(conversations, id) ensures IssuedAnywhere(v, id) && (id in Existing(v) ==> id in Existing(conversations)) {
      IssuedStays(conversations, c, e, id, settings);
      if id in Existing(v) {
        ExistingShrinks(conversations, c, e, id, settings);
      }
    }
  }

  lemma NothingUnbinds(bindings: B.Bindings)
    ensures BoundRemain(bindings.rows, bindings)
  {
  }

  lemma AfterCompletionIsOk(s: System, v: System, h: nat, config: Configuration)
    requires Inv(s, config) && Enabled(s, CompleteExchange(h))
    requires v.conversations == CompleteExchangeStep(s, h, config).conversations && v.bindings == s.bindings
    requires v.handlers == CompleteExchangeStep(s, h, config).handlers
    requires ConversationsGrow(s.conversations, v.conversations)
    ensures HandlerOk(v.conversations, v.bindings, v.outbox, v.handlers[h])
  {
    hide Inv, C.Inv, C.CompleteWith, C.CompleteStep, BoundTo, HolderFor, WasDelivered, MayAnswer, ChatResult.Valid;
    hide Cascaded;
    var handler := s.handlers[h];
    HandlerAt(s, h, config);
    var c, ticket := handler.won.value.conversationId, handler.won.value.ticket;
    WorldAt(s, c, config);
    var w := s.conversations[c];
    CascadeFrame(s.(conversations := s.conversations[c := C.CompleteStep(w, ticket, handler.at.chat, handler.now, config.conversation)]));
    if C.CompleteWith(w.conversation, w.tickets[ticket], handler.at.chat, handler.now, config.conversation).result.Ok? {
      CompletionAnswers(w, ticket, handler.at.chat, handler.now, config.conversation);
    }
  }

  lemma CompleteExchangeKeeps(s: System, h: nat, config: Configuration)
    requires Inv(s, config) && Enabled(s, CompleteExchange(h))
    ensures Inv(CompleteExchangeStep(s, h, config), config)
  {
    hide Inv, C.Inv, C.CompleteStep, C.CompleteWith, WorldsOk, IdsApart, O.Inv, AllLinked, Spent, HandlersOk;
    hide TicketsApart, ChatsLogged, BindingsMatch, ConversationsGrow, BindingsGrow, OutboxGrows, HandlerOk;
    hide Cascaded, BoundRemain, Existing, IssuedAnywhere, ChatResult.Valid;
    var handler := s.handlers[h];
    var c, ticket := handler.won.value.conversationId, handler.won.value.ticket;
    var e := C.CompleteEvent(ticket, handler.at.chat, handler.now);
    var v := CompleteExchangeStep(s, h, config);
    InvParts(s, config);
    HandlerAt(s, h, config);
    WorldAt(s, c, config);
    ConversationStepGrows(s.conversations, c, e, config.conversation);
    StepKeepsWorlds(s.conversations, c, e, config.conversation);
    StepKeepsApart(s.conversations, c, e, config.conversation);
    StepIssues(s.conversations, c, e, config.conversation);
    CompleteKeepsLive(s.conversations[c], ticket, handler.at.chat, handler.now, config.conversation);
    var w := C.Step(s.conversations[c], e, config.conversation);
    ReserveMatches(s, c, w, config);
    NothingUnbinds(s.bindings);
    NothingGrows(s.conversations, s.bindings, s.outbox);
    CascadeKeeps(s, s.conversations[c := w], s.bindings, config);
    CascadeFrame(s.(conversations := s.conversations[c := w]));
    assert s.(conversations := s.conversations[c := w]) == s.(conversations := s.conversations[c := w], bindings := s.bindings);
    AfterCompletionIsOk(s, v, h, config);
    HandlersMove(s, v, h);
    TicketsStay(s, v, h);
    ChatsMove(s, v, h);
    InvOfParts(v, config);
  }

  lemma CascadeFrame(s: System)
    ensures Cascaded(s) == s.(outbox := Cascaded(s).outbox)
  {
  }

  lemma PurgedMatches(s: System, c: Id, w: C.World, config: Configuration)
    requires BindingsMatch(s.conversations, s.bindings) && c in s.conversations && !IsLive(w)
    ensures BindingsMatch(s.conversations[c := w], B.Step(s.bindings, B.PurgeConversation(c), config.leaseSeconds))
  {
    hide B.Inv;
    B.StepKeeps(s.bindings, B.PurgeConversation(c), config.leaseSeconds);
  }

  lemma PurgeUnbinds(bindings: B.Bindings, c: Id, leaseSeconds: LeaseSeconds)
    requires B.Inv(bindings)
    ensures BoundRemain(bindings.rows, B.Step(bindings, B.PurgeConversation(c), leaseSeconds))
  {
    hide B.Inv, B.Step, IsBound;
    var v := B.Step(bindings, B.PurgeConversation(c), leaseSeconds);
    forall id, d | IsBound(bindings.rows, id, d) && d in v.live ensures IsBound(v.rows, id, d) {
      IsBoundStays(bindings, B.PurgeConversation(c), id, d, leaseSeconds);
    }
  }

  lemma HandlersStay(s: System, v: System)
    requires HandlersOk(s.conversations, s.bindings, s.outbox, s.handlers) && v.handlers == s.handlers
    requires ConversationsGrow(s.conversations, v.conversations) && BindingsGrow(s.bindings, v.bindings) && OutboxGrows(s.outbox, v.outbox)
    ensures HandlersOk(v.conversations, v.bindings, v.outbox, v.handlers)
  {
    hide HandlerOk, ConversationsGrow, BindingsGrow, OutboxGrows;
    forall g | 0 <= g < |v.handlers| ensures HandlerOk(v.conversations, v.bindings, v.outbox, v.handlers[g]) {
      assert HandlerOk(s.conversations, s.bindings, s.outbox, s.handlers[g]);
      HandlerStays(s, v, s.handlers[g]);
    }
  }

  lemma PurgeKeeps(s: System, c: Id, now: Time, config: Configuration)
    requires Inv(s, config) && Enabled(s, PurgeExpired(c, now))
    ensures Inv(PurgeStep(s, c, now, config), config)
  {
    hide Inv, C.Inv, C.Step, B.Inv, B.Step, WorldsOk, IdsApart, O.Inv, AllLinked, Spent, HandlersOk, TicketsApart;
    hide ChatsLogged, BindingsMatch, ConversationsGrow, BindingsGrow, OutboxGrows, Cascaded, BoundRemain, Existing;
    hide IssuedAnywhere;
    var e := C.PurgeEvent(now);
    var w := C.Step(s.conversations[c], e, config.conversation);
    if !IsLive(w) {
      var v := PurgeStep(s, c, now, config);
      InvParts(s, config);
      WorldAt(s, c, config);
      BindingParts(s, config);
      ConversationStepGrows(s.conversations, c, e, config.conversation);
      StepKeepsWorlds(s.conversations, c, e, config.conversation);
      StepKeepsApart(s.conversations, c, e, config.conversation);
      StepIssues(s.conversations, c, e, config.conversation);
      PurgedMatches(s, c, w, config);
      BindingStepGrows(s.bindings, B.PurgeConversation(c), config.leaseSeconds);
      PurgeUnbinds(s.bindings, c, config.leaseSeconds);
      var bindings := B.Step(s.bindings, B.PurgeConversation(c), config.leaseSeconds);
      CascadeKeeps(s, s.conversations[c := w], bindings, config);
      CascadeFrame(s.(conversations := s.conversations[c := w], bindings := bindings));
      HandlersStay(s, v);
      ChatsStay(s.conversations, v.conversations, s.handlers, s.chats);
      InvOfParts(v, config);
    }
  }

  // ----- the outbound rows -----

  lemma SameRowsLinked(s: System, rows: seq<OutboundRow>)
    requires AllLinked(s.conversations, s.bindings.rows, s.outbox.rows) && Spent(s.conversations, s.outbox.created, s.outbox.rows)
    requires |rows| == |s.outbox.rows| && forall k :: 0 <= k < |rows| ==> O.SameOutbound(s.outbox.rows[k], rows[k])
    ensures AllLinked(s.conversations, s.bindings.rows, rows) && Spent(s.conversations, s.outbox.created, rows)
  {
    hide IsBound, HasAnswer, Existing, IssuedAnywhere;
    forall k | 0 <= k < |rows| ensures Linked(s.conversations, s.bindings.rows, rows[k]) {
      assert Linked(s.conversations, s.bindings.rows, s.outbox.rows[k]);
    }
    forall n | 0 <= n < |s.outbox.created| ensures SpentRow(s.conversations, rows, s.outbox.created[n]) {
      assert SpentRow(s.conversations, s.outbox.rows, s.outbox.created[n]);
      if HasOutbound(s.outbox.rows, s.outbox.created[n].exchangeId) {
        var k :| 0 <= k < |s.outbox.rows| && s.outbox.rows[k].exchangeId == s.outbox.created[n].exchangeId;
        assert rows[k].exchangeId == s.outbox.created[n].exchangeId;
      }
    }
  }

  /** Steps on existing rows: marking, calling, recording. */
  lemma OutboxOnly(s: System, v: System, h: nat, e: O.OutboxEvent, config: Configuration)
    requires Inv(s, config) && OnlyMoved(s.handlers, v.handlers, h) && (e.Mark? || e.CallAdapter? || e.Record?)
    requires v == s.(handlers := v.handlers, outbox := O.Step(s.outbox, e))
    requires v.handlers[h].won == s.handlers[h].won && !v.handlers[h].at.Asking?
    requires HandlerOk(v.conversations, v.bindings, v.outbox, v.handlers[h])
    ensures Inv(v, config)
  {
    hide Inv, WorldsOk, IdsApart, O.Inv, O.Step, AllLinked, Spent, HandlersOk, TicketsApart, ChatsLogged;
    hide BindingsMatch, OnlyMoved, HandlerOk, ConversationsGrow, BindingsGrow, OutboxGrows;
    InvParts(s, config);
    NothingGrows(s.conversations, s.bindings, s.outbox);
    OutboxStepGrows(s.outbox, e);
    O.StepKeeps(s.outbox, e);
    RowsStaySame(s.outbox, e);
    SameRowsLinked(s, v.outbox.rows);
    HandlersMove(s, v, h);
    TicketsStay(s, v, h);
    ChatsMove(s, v, h);
    InvOfParts(v, config);
  }

  lemma RowsStaySame(w: O.Outbox, e: O.OutboxEvent)
    requires e.Mark? || e.CallAdapter? || e.Record?
    ensures var v := O.Step(w, e);
      v.created == w.created && |v.rows| == |w.rows| && forall k :: 0 <= k < |w.rows| ==> O.SameOutbound(w.rows[k], v.rows[k])
  {
    hide OutboundRow.DatabaseChecks, OutboundReservation.Valid, BindingSends, Receipt.Valid;
  }

  lemma MarkForKeeps(s: System, h: nat, config: Configuration)
    requires Inv(s, config) && Enabled(s, MarkFor(h))
    ensures Inv(MarkForStep(s, h), config)
  {
    hide Inv, O.Step, MarkSending, BoundTo, MayAnswer, InsertedFor, WasDelivered, ChatResult.Valid;
    HandlerAt(s, h, config);
    OutboxStepGrows(s.outbox, O.Mark(s.handlers[h].at.holder, s.handlers[h].now));
    var v := MarkForStep(s, h);
    HolderStays(s.outbox, v.outbox, s.handlers[h].at.holder, s.handlers[h].message.delivery);
    OutboxOnly(s, v, h, O.Mark(s.handlers[h].at.holder, s.handlers[h].now), config);
  }

  lemma SendForKeeps(s: System, h: nat, receipt: Receipt, config: Configuration)
    requires Inv(s, config) && Enabled(s, SendFor(h, receipt))
    ensures Inv(SendForStep(s, h, receipt), config)
  {
    hide Inv, O.Step, BoundTo, MayAnswer, InsertedFor, WasDelivered, ChatResult.Valid, Receipt.Valid;
    HandlerAt(s, h, config);
    OutboxStepGrows(s.outbox, O.CallAdapter(s.handlers[h].at.holder, receipt));
    var v := SendForStep(s, h, receipt);
    HolderStays(s.outbox, v.outbox, s.handlers[h].at.holder, s.handlers[h].message.delivery);
    OutboxOnly(s, v, h, O.CallAdapter(s.handlers[h].at.holder, receipt), config);
  }

  /** What was recorded as SENT was delivered, for the handler's own delivery. */
  lemma RecordedIsDelivered(w: O.Outbox, holder: nat, delivery: string, now: Time)
    requires O.Inv(w) && HolderFor(w, holder, delivery) && w.holders[holder].phase.Called?
    requires var r := CompleteOutbound(w.rows, O.SendingToken(w.holders[holder].reservation), w.holders[holder].phase.receipt, now).result;
      r.Ok? && r.value.status.OutSent?
    ensures WasDelivered(w, delivery)
  {
    hide O.Inv, InsertedFor, OutboundTable, O.IdsKnown, O.AllFit, O.OneWinner, O.RowsTell, O.RowsAreWon;
    hide Receipt.Valid, CompleteOutbound;
    OT.RecordingIsFaithful(w, holder, now);
    O.InvParts(w);
    var send := O.Send(holder, w.holders[holder].reservation.outboundId, w.holders[holder].phase.receipt);
    assert send in w.sends;
    var n :| 0 <= n < |w.sends| && w.sends[n] == send;
  }

  lemma RecordForKeeps(s: System, h: nat, doubted: bool, config: Configuration)
    requires Inv(s, config) && Enabled(s, RecordFor(h, doubted))
    ensures Inv(RecordForStep(s, h, doubted), config)
  {
    hide Inv, O.Inv, O.Step, CompleteOutbound, BoundTo, MayAnswer, InsertedFor, WasDelivered, ChatResult.Valid;
    hide OutboxGrows, AllLinked, Spent, HandlersOk, TicketsApart, ChatsLogged, WorldsOk, IdsApart, BindingsMatch;
    HandlerAt(s, h, config);
    InvParts(s, config);
    var handler := s.handlers[h];
    var e := O.Record(handler.at.holder, handler.now);
    OutboxStepGrows(s.outbox, e);
    var v := RecordForStep(s, h, doubted);
    if v.handlers[h].at == Finished(Acknowledged) {
      RecordedIsDelivered(s.outbox, handler.at.holder, handler.message.delivery, handler.now);
      DeliveredStays(s.outbox, v.outbox, handler.message.delivery);
    }
    OutboxOnly(s, v, h, e, config);
  }

  // ----- inserting an outbound row -----

  /** The exchange a handler replies for has no outbound row yet, ever. */
  lemma NeverInserted(s: System, b: Id, c: Id, exchangeId: Id, delivery: string, identity: string, config: Configuration)
    requires Inv(s, config) && c in s.conversations && BoundTo(s.bindings, b, c) && MayAnswer(s.conversations[c], exchangeId, delivery)
    requires ActiveFor(s.bindings.rows, b, identity) && exchangeId in Existing(s.conversations)
    requires !PairTaken(s.outbox.rows, b, exchangeId)
    ensures forall n :: 0 <= n < |s.outbox.created| ==> s.outbox.created[n].exchangeId != exchangeId
  {
    hide Inv, WorldsOk, O.Inv, TicketsApart, ChatsLogged, HandlersOk, BindingsMatch, B.Inv, MayAnswer, IsBound;
    InvParts(s, config);
    assert forall k :: 0 <= k < |s.outbox.rows| && s.outbox.rows[k].exchangeId == exchangeId ==> s.outbox.rows[k].bindingId != b;
    forall n | 0 <= n < |s.outbox.created| ensures s.outbox.created[n].exchangeId != exchangeId {
      if s.outbox.created[n].exchangeId == exchangeId {
        assert SpentRow(s.conversations, s.outbox.rows, s.outbox.created[n]);
        var k :| 0 <= k < |s.outbox.rows| && s.outbox.rows[k].exchangeId == exchangeId;
        var row := s.outbox.rows[k];
        assert Linked(s.conversations, s.bindings.rows, row);
        var d :| d in s.conversations && IsBound(s.bindings.rows, row.bindingId, d) && HasAnswer(s.conversations[d], exchangeId, row.delivery);
        AnsweredIsIssued(s.conversations[c], exchangeId, delivery);
        AnsweredIsIssued(s.conversations[d], exchangeId, row.delivery);
        assert c == d;
        BindingParts(s, config);
        BoundOnce(s.bindings, b, row.bindingId, c);
        assert false;
      }
    }
  }

  /** A conversation has one binding. */
  lemma BoundOnce(w: B.Bindings, a: Id, b: Id, c: Id)
    requires B.Inv(w) && BoundTo(w, a, c) && IsBound(w.rows, b, c) && IndexWhere(HasBindingId(a), w.rows) < |w.rows|
    ensures a == b
  {
    hide B.IdsKnown, B.Fenced, B.Logged, RowChecked;
    var i := IndexWhere(HasBindingId(a), w.rows);
    var j :| 0 <= j < |w.rows| && w.rows[j].id == b && IsFor(w.rows[j], c);
    assert IsFor(w.rows[i], c);
    assert i < j ==> !ShareConversation(w.rows[i], w.rows[j]);
    assert j < i ==> !ShareConversation(w.rows[j], w.rows[i]);
  }

  lemma ReplierIsBound(w: B.Bindings, b: Id, c: Id, identity: string)
    requires BoundTo(w, b, c) && ActiveFor(w.rows, b, identity)
    ensures IsBound(w.rows, b, c)
  {
    var k := IndexWhere(HasBindingId(b), w.rows);
    assert IsFor(w.rows[k], c);
  }

  lemma InsertedRowIsLinked(s: System, b: Id, c: Id, row: OutboundRow, identity: string, config: Configuration)
    requires Inv(s, config) && c in s.conversations && BoundTo(s.bindings, b, c) && ActiveFor(s.bindings.rows, b, identity)
    requires MayAnswer(s.conversations[c], row.exchangeId, row.delivery) && row.bindingId == b && row.exchangeId in Existing(s.conversations)
    ensures Linked(s.conversations, s.bindings.rows, row) && IssuedAnywhere(s.conversations, row.exchangeId)
  {
    hide Inv, O.Inv, TicketsApart, ChatsLogged, HandlersOk, BindingsMatch, AllLinked, Spent, MayAnswer, WorldsOk;
    hide IsBound, ActiveFor, BoundTo;
    InvParts(s, config);
    var d := ExistingIsIssued(s.conversations, row.exchangeId, config.conversation);
    AnsweredIsIssued(s.conversations[c], row.exchangeId, row.delivery);
    assert c == d;
    ReplierIsBound(s.bindings, b, c, identity);
    assert HasAnswer(s.conversations[c], row.exchangeId, row.delivery);
  }

  lemma InsertKeepsLinks(s: System, row: OutboundRow, rows: seq<OutboundRow>, created: seq<OutboundRow>)
    requires AllLinked(s.conversations, s.bindings.rows, s.outbox.rows) && Spent(s.conversations, s.outbox.created, s.outbox.rows)
    requires Linked(s.conversations, s.bindings.rows, row) && IssuedAnywhere(s.conversations, row.exchangeId)
    requires forall n :: 0 <= n < |s.outbox.created| ==> s.outbox.created[n].exchangeId != row.exchangeId
    requires rows == s.outbox.rows + [row] && created == s.outbox.created + [row]
    ensures AllLinked(s.conversations, s.bindings.rows, rows) && Spent(s.conversations, created, rows)
  {
    hide Linked, Existing, IssuedAnywhere;
    assert rows[|s.outbox.rows|].exchangeId == row.exchangeId;
    forall n | 0 <= n < |created| ensures SpentRow(s.conversations, rows, created[n]) {
      if n < |s.outbox.created| {
        assert SpentRow(s.conversations, s.outbox.rows, s.outbox.created[n]);
        if HasOutbound(s.outbox.rows, created[n].exchangeId) {
          var k :| 0 <= k < |s.outbox.rows| && s.outbox.rows[k].exchangeId == created[n].exchangeId;
          assert rows[k].exchangeId == created[n].exchangeId;
        }
      }
    }
  }

  /** What reserving an outbound row does to the table: nothing, or one new row. */
  lemma ReserveOutboundCases(w: O.Outbox, bindings: seq<BindingRow>, exchanges: set<Id>, b: Id, message: OutboundMessage, freshId: Id)
    ensures var v := O.Step(w, O.Reserve(bindings, exchanges, b, message, freshId));
      || (v.rows == w.rows && v.created == w.created)
      || (&& v.rows == w.rows + [NewOutbound(freshId, b, message)] && v.created == w.created + [NewOutbound(freshId, b, message)]
          && ActiveFor(bindings, b, message.identity) && !PairTaken(w.rows, b, message.exchangeId) && message.exchangeId in exchanges)
  {
    hide ActiveFor, PairTaken, OutboundReservation.Valid, ValidHmac;
    assert w.rows[|w.rows|..] == [] && w.created + [] == w.created;
    var row := NewOutbound(freshId, b, message);
    assert (w.rows + [row])[|w.rows|..] == [row];
  }

  lemma RowWasInserted(w: O.Outbox, k: nat)
    requires O.Inv(w) && k < |w.rows|
    ensures InsertedFor(w.created, w.rows[k].id, w.rows[k].delivery)
  {
    hide O.Inv, OutboundTable, O.AllFit, O.OneWinner, O.RowsTell, O.RowsAreWon, O.SendsLogged;
    O.InvParts(w);
    assert O.WasCreated(w.created, w.rows[k]);
    var n :| 0 <= n < |w.created| && O.SameOutbound(w.created[n], w.rows[k]);
    assert w.created[n].id == w.rows[k].id;
  }

  lemma SentRowIsDelivered(w: O.Outbox, id: Id, delivery: string)
    requires exists receipt: Receipt :: receipt.status.Delivered? && OT.CalledWith(w, id, receipt)
    requires InsertedFor(w.created, id, delivery)
    ensures WasDelivered(w, delivery)
  {
    var receipt: Receipt :| receipt.status.Delivered? && OT.CalledWith(w, id, receipt);
    var n :| 0 <= n < |w.sends| && w.sends[n].outboundId == id && w.sends[n].receipt == receipt;
  }

  lemma AfterOutboundIsOk(w: O.Outbox, bindings: seq<BindingRow>, exchanges: set<Id>, b: Id, message: OutboundMessage, freshId: Id)
    requires O.Inv(w) && O.Enabled(w, O.Reserve(bindings, exchanges, b, message, freshId))
    ensures var v := O.Step(w, O.Reserve(bindings, exchanges, b, message, freshId));
      var at := AfterOutbound(|w.holders|, ReserveOutbound(w.rows, bindings, exchanges, b, message, freshId).result);
      && (at.Finished? || at.Holds?)
      && (at.Holds? ==> HolderFor(v, at.holder, message.delivery))
      && (at == Finished(Acknowledged) ==> WasDelivered(v, message.delivery))
  {
    hide O.Inv, ActiveFor, PairTaken, OutboundReservation.Valid, ValidHmac, WasDelivered, InsertedFor, OT.CalledWith;
    var e := O.Reserve(bindings, exchanges, b, message, freshId);
    var v := O.Step(w, e);
    var at := AfterOutbound(|w.holders|, ReserveOutbound(w.rows, bindings, exchanges, b, message, freshId).result);
    OutboxStepGrows(w, e);
    O.StepKeeps(w, e);
    if at.Holds? {
      var k := IndexWhere(HasDelivery(message.delivery), w.rows);
      RowWasInserted(v, k);
    } else if at == Finished(Acknowledged) {
      OT.AcknowledgedMeansSent(w, bindings, exchanges, b, message, freshId);
      var k :| 0 <= k < |w.rows| && w.rows[k].id == ReserveOutbound(w.rows, bindings, exchanges, b, message, freshId).result.value.outboundId
        && w.rows[k].delivery == message.delivery && w.rows[k].status.Sent?;
      RowWasInserted(w, k);
      SentRowIsDelivered(w, w.rows[k].id, message.delivery);
      DeliveredStays(w, v, message.delivery);
    }
  }

  lemma TakeOutboundLinks(s: System, v: O.Outbox, b: Id, c: Id, message: OutboundMessage, freshId: Id, config: Configuration)
    requires Inv(s, config) && c in s.conversations && BoundTo(s.bindings, b, c) && MayAnswer(s.conversations[c], message.exchangeId, message.delivery)
    requires v == O.Step(s.outbox, O.Reserve(s.bindings.rows, Existing(s.conversations), b, message, freshId))
    ensures AllLinked(s.conversations, s.bindings.rows, v.rows) && Spent(s.conversations, v.created, v.rows)
  {
    hide Inv, WorldsOk, IdsApart, O.Inv, O.Step, AllLinked, Spent, HandlersOk, TicketsApart, ChatsLogged;
    hide BindingsMatch, Existing, IssuedAnywhere, Linked, BoundTo, MayAnswer, ActiveFor, PairTaken;
    InvParts(s, config);
    ReserveOutboundCases(s.outbox, s.bindings.rows, Existing(s.conversations), b, message, freshId);
    if v.rows != s.outbox.rows {
      var row := NewOutbound(freshId, b, message);
      NeverInserted(s, b, c, message.exchangeId, message.delivery, message.identity, config);
      InsertedRowIsLinked(s, b, c, row, message.identity, config);
      InsertKeepsLinks(s, row, v.rows, v.created);
    } else {
      NoRowNoCreation(s.outbox, v, b, message, freshId);
    }
  }

  lemma NoRowNoCreation(w: O.Outbox, v: O.Outbox, b: Id, message: OutboundMessage, freshId: Id)
    requires v.rows == w.rows
    requires v.created == w.created || v.rows == w.rows + [NewOutbound(freshId, b, message)]
    ensures v.created == w.created
  {
    assert |v.rows| == |w.rows|;
  }

  lemma TakeOutboundKeeps(s: System, h: nat, reply: Option<string>, citationCount: nat, freshId: Id, config: Configuration)
    requires Inv(s, config) && Enabled(s, TakeOutbound(h, reply, citationCount, freshId))
    ensures Inv(TakeOutboundStep(s, h, reply, citationCount, freshId), config)
  {
    hide Inv, WorldsOk, IdsApart, O.Inv, O.Step, AllLinked, Spent, HandlersOk, TicketsApart, ChatsLogged;
    hide BindingsMatch, ConversationsGrow, BindingsGrow, OutboxGrows, Existing, BoundTo, MayAnswer, WasDelivered;
    hide HolderFor, ReserveOutbound, AfterOutbound;
    var handler := s.handlers[h];
    var v := TakeOutboundStep(s, h, reply, citationCount, freshId);
    HandlerAt(s, h, config);
    if reply.None? {
      FinishedIsOk(s, handler, ServiceUnavailable);
      HandlerOnly(s, v, h, config);
    } else {
      InvParts(s, config);
      var message := OutboundMessage(handler.message.identity, handler.message.delivery, handler.at.exchangeId, reply.value, citationCount);
      var b, c := handler.at.bindingId, handler.at.conversationId;
      var e := O.Reserve(s.bindings.rows, Existing(s.conversations), b, message, freshId);
      NothingGrows(s.conversations, s.bindings, s.outbox);
      OutboxStepGrows(s.outbox, e);
      O.StepKeeps(s.outbox, e);
      AfterOutboundIsOk(s.outbox, s.bindings.rows, Existing(s.conversations), b, message, freshId);
      TakeOutboundLinks(s, v.outbox, b, c, message, freshId, config);
      HandlersMove(s, v, h);
      TicketsStay(s, v, h);
      ChatsMove(s, v, h);
      InvOfParts(v, config);
    }
  }

  // ----- every event and every run -----

  lemma StepKeeps(s: System, e: SystemEvent, config: Configuration)
    requires Inv(s, config)
    ensures Inv(Step(s, e, config), config)
  {
    hide Inv, Enabled;
    if Enabled(s, e) {
      match e
      case Deliver(message, now) => DeliverKeeps(s, message, now, config);
      case TakeBinding(h, freshId) => TakeBindingKeeps(s, h, freshId, config);
      case CreateFor(h, freshId) => CreateForKeeps(s, h, freshId, config);
      case ActivateFor(h, doubted) => ActivateForKeeps(s, h, doubted, config);
      case FailFor(h) => FailForKeeps(s, h, config);
      case TakeExchange(h, freshId) => TakeExchangeKeeps(s, h, freshId, config);
      case AskChat(h, port) => AskChatKeeps(s, h, port, config);
      case CompleteExchange(h) => CompleteExchangeKeeps(s, h, config);
      case TakeOutbound(h, reply, citationCount, freshId) => TakeOutboundKeeps(s, h, reply, citationCount, freshId, config);
      case MarkFor(h) => MarkForKeeps(s, h, config);
      case SendFor(h, receipt) => SendForKeeps(s, h, receipt, config);
      case RecordFor(h, doubted) => RecordForKeeps(s, h, doubted, config);
      case PortFails(h) => PortFailsKeeps(s, h, config);
      case PurgeExpired(c, now) => PurgeKeeps(s, c, now, config);
    }
  }

  lemma {:induction false} RunKeeps(events: seq<SystemEvent>, config: Configuration)
    ensures Inv(Run(EMPTY_SYSTEM, events, config), config)
  {
    hide Inv, Step;
    if events == [] {
      EmptyInv(config);
    } else {
      RunKeeps(events[..|events| - 1], config);
      StepKeeps(Run(EMPTY_SYSTEM, events[..|events| - 1], config), events[|events| - 1], config);
    }
  }
}
