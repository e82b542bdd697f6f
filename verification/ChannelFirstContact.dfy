/** The first message of an identity, served without interruption, from any reachable state:
    it gets its binding and its conversation, and how it ends is decided by the message. */
module ChannelFirstContact {
  import opened Wrappers
  import opened Sequences
  import opened ChatModels
  import opened ConversationModels
  import opened ConversationStore
  import opened ConversationFacts
  import opened ConversationService
  import opened ChannelBinding
  import opened ChannelOutbox
  import opened ChannelSystem
  import opened ChannelSystemFacts
  import opened ChannelSystemInvariant
  import opened ChannelSystemSteps
  import opened ChannelProgress
  import C = ConversationProtocol
  import P = ConversationProgress
  import B = ChannelBindingProtocol

  predicate IsUnknown(rows: seq<BindingRow>, identity: string) {
    forall k :: 0 <= k < |rows| ==> rows[k].identity != identity
  }

  /** An identity without a binding, and fresh ids. */
  predicate CanMeet(s: System, d: Delivery, c: Id) {
    && IsUnknown(s.bindings.rows, d.message.identity) && d.bindingId !in s.bindings.issued
    && c !in s.conversations && !IssuedAnywhere(s.conversations, d.exchangeId) && d.outboundId !in s.outbox.issued
  }

  /** A text a conversation reads, a result it can store, and a delivery key nobody used. */
  predicate IsServable(s: System, d: Delivery) {
    NoControls(d.message.text) && Storable(d.Chat()) && NoOutbound(s.outbox, d.message.delivery)
  }

  function Leased(d: Delivery, config: Configuration): BindingRow {
    BindingRow(d.bindingId, d.message.identity, Binding, None, Some(d.now + config.leaseSeconds), None, None)
  }

  function Token(d: Delivery, config: Configuration): BindingReservation {
    BindingReservation(d.bindingId, BindingReserved, None, Some(d.now + config.leaseSeconds))
  }

  function AtConversation(s: System, d: Delivery, c: Id, config: Configuration): System {
    Step(AtBinding(s, d, config), CreateFor(|s.handlers|, c), config)
  }

  /** The state when the new identity is bound to its new conversation. */
  function Met(s: System, d: Delivery, c: Id, config: Configuration): System {
    Step(AtConversation(s, d, c, config), ActivateFor(|s.handlers|, false), config)
  }

  lemma UnknownIsNotFound(rows: seq<BindingRow>, identity: string)
    requires IsUnknown(rows, identity)
    ensures IndexWhere(HasIdentity(identity), rows) == |rows|
  {
  }

  lemma TokenIsTaken(s: System, d: Delivery, config: Configuration)
    requires Inv(s, config) && IsUnknown(s.bindings.rows, d.message.identity) && d.bindingId !in s.bindings.issued
    ensures var v := AtBinding(s, d, config);
      && Inv(v, config) && |v.handlers| == |s.handlers| + 1
      && v.handlers[|s.handlers|] == Handler(d.message, d.now, HasToken(|s.bindings.tokens|), None)
      && v.bindings.rows == s.bindings.rows + [Leased(d, config)] && v.bindings.tokens == s.bindings.tokens + [Token(d, config)]
      && v.conversations == s.conversations && v.outbox == s.outbox && v.chats == s.chats && v.bindings.issued == s.bindings.issued + {d.bindingId}
  {
    hide Inv, IssuedAnywhere, InboundData.Valid, ValidHmac, IsUnknown;
    UnknownIsNotFound(s.bindings.rows, d.message.identity);
    InboundIsHmac(d.message);
    StepKeeps(s, Deliver(d.message, d.now), config);
    StepKeeps(Step(s, Deliver(d.message, d.now), config), TakeBinding(|s.handlers|, d.bindingId), config);
  }

  lemma ConversationIsCreated(s: System, h: nat, token: nat, d: Delivery, c: Id, config: Configuration)
    requires Inv(s, config) && h < |s.handlers| && c !in s.conversations
    requires s.handlers[h] == Handler(d.message, d.now, HasToken(token), None)
    ensures var v := Step(s, CreateFor(h, c), config);
      && Inv(v, config) && |v.handlers| == |s.handlers|
      && v.handlers[h] == Handler(d.message, d.now, HasConversation(token, c), None)
      && v.conversations == s.conversations[c := C.Initial(c, d.now, config.conversation)] && v.outbox == s.outbox && v.chats == s.chats
      && v.bindings.rows == s.bindings.rows && v.bindings.tokens == s.bindings.tokens && c in v.bindings.live
      && v.bindings.issued == s.bindings.issued
  {
    hide Inv, C.Initial, InboundData.Valid;
    StepKeeps(s, CreateFor(h, c), config);
    BindingParts(s, config);
  }

  /** Nobody is bound to a conversation that does not exist yet. */
  lemma NewIsNotTaken(w: B.Bindings, c: Id)
    requires B.Inv(w) && c !in w.known
    ensures !ConversationTaken(w.rows, c)
  {
    hide B.Fenced, B.Logged, BindingRow.DatabaseChecks;
  }

  lemma LastIsFound(rows: seq<BindingRow>, row: BindingRow)
    requires forall k :: 0 <= k < |rows| ==> rows[k].id != row.id
    ensures IndexWhere(HasBindingId(row.id), rows + [row]) == |rows|
  {
    assert HasBindingId(row.id)((rows + [row])[|rows|]);
  }

  lemma UnusedBindingId(w: B.Bindings, id: Id)
    requires B.Inv(w) && id !in w.issued
    ensures forall k :: 0 <= k < |w.rows| ==> w.rows[k].id != id
  {
    hide B.Fenced, B.Logged, BindingTable;
  }

  lemma NewIsActivated(s: System, h: nat, rows: seq<BindingRow>, token: nat, d: Delivery, c: Id, config: Configuration)
    requires Inv(s, config) && h < |s.handlers| && token < |s.bindings.tokens| && c in s.bindings.live
    requires s.handlers[h] == Handler(d.message, d.now, HasConversation(token, c), None)
    requires s.bindings.rows == rows + [Leased(d, config)] && !ConversationTaken(rows, c)
    requires forall k :: 0 <= k < |rows| ==> rows[k].id != d.bindingId
    requires s.bindings.tokens[token] == Token(d, config)
    ensures var v := Step(s, ActivateFor(h, false), config);
      && Inv(v, config) && |v.handlers| == |s.handlers|
      && v.handlers[h] == Handler(d.message, d.now, Bound(d.bindingId, c), None)
      && v.conversations == s.conversations && v.outbox == s.outbox && v.chats == s.chats
      && ActiveFor(v.bindings.rows, d.bindingId, d.message.identity)
      && v.bindings.rows == rows + [Activated(Leased(d, config), c, d.now)] && v.bindings.issued == s.bindings.issued
  {
    hide Inv, InboundData.Valid;
    StepKeeps(s, ActivateFor(h, false), config);
    LastIsFound(rows, Leased(d, config));
    assert !ConversationTaken(s.bindings.rows, c);
    var active := Activated(Leased(d, config), c, d.now);
    assert s.bindings.rows[|rows| := active] == rows + [active];
    LastIsFound(rows, active);
  }

  /** The first message of an identity is bound to the conversation made for it. */
  lemma IdentityIsMet(s: System, d: Delivery, c: Id, config: Configuration)
    requires Inv(s, config) && CanMeet(s, d, c)
    ensures var v := Met(s, d, c, config);
      && Inv(v, config) && |v.handlers| == |s.handlers| + 1
      && v.handlers[|s.handlers|] == Handler(d.message, d.now, Bound(d.bindingId, c), None)
      && v.conversations == s.conversations[c := C.Initial(c, d.now, config.conversation)] && v.outbox == s.outbox && v.chats == s.chats
      && ActiveFor(v.bindings.rows, d.bindingId, d.message.identity)
      && v.bindings.rows == s.bindings.rows + [Activated(Leased(d, config), c, d.now)]
      && v.bindings.issued == s.bindings.issued + {d.bindingId}
  {
    hide Inv, Step, B.Inv, InboundData.Valid, IssuedAnywhere, IsUnknown, C.Initial, ActiveFor, ConversationTaken;
    var h := |s.handlers|;
    BindingParts(s, config);
    NewIsNotTaken(s.bindings, c);
    UnusedBindingId(s.bindings, d.bindingId);
    TokenIsTaken(s, d, config);
    ConversationIsCreated(AtBinding(s, d, config), h, |s.bindings.tokens|, d, c, config);
    NewIsActivated(AtConversation(s, d, c, config), h, s.bindings.rows, |s.bindings.tokens|, d, c, config);
  }

  /** A new conversation is live and free, and knows nothing. */
  lemma NewIsFree(conversations: map<Id, C.World>, d: Delivery, c: Id, config: Configuration)
    requires !IssuedAnywhere(conversations, d.exchangeId)
    ensures var w := C.Initial(c, d.now, config.conversation);
      && IsFree(w, d) && Rows(w) == [] && IsLive(w) && !IssuedAnywhere(conversations[c := w], d.exchangeId)
  {
    hide InboundData.Valid;
    var w := C.Initial(c, d.now, config.conversation);
    assert w.conversation.value.rows == [] && w.tickets == [];
    assert !IssuedIn(w, d.exchangeId);
    var v := conversations[c := w];
    forall e | e in v ensures !IssuedIn(v[e], d.exchangeId) {
      assert e != c ==> e in conversations && v[e] == conversations[e];
    }
  }

  /** An empty conversation has room: only the result can seal its fate. */
  lemma FirstFate(chat: ChatResult, settings: Settings)
    requires chat.Valid()
    ensures P.Fate(0, chat, settings).None? <==> Storable(chat)
  {
    P.ValidTextIsStorableIff(chat);
    hide FitsShape, NoControls, ChatResult.Valid, Storable;
  }

  lemma NewIsIdle(conversations: map<Id, C.World>, d: Delivery, c: Id, config: Configuration)
    requires !IssuedAnywhere(conversations, d.exchangeId) && NoControls(d.message.text) && Storable(d.Chat())
    ensures IsIdle(conversations[c := C.Initial(c, d.now, config.conversation)], d, c, config)
  {
    hide InboundData.Valid, NoControls, Storable, IssuedAnywhere, C.Initial, IsFree, P.Fate, ChatResult.Valid, Answered;
    NewIsFree(conversations, d, c, config);
    FirstFate(d.Chat(), config.conversation);
  }

  /** No outbound row is of a binding that was never made. */
  lemma NothingIsStuck(s: System, b: Id, config: Configuration)
    requires Inv(s, config) && b !in s.bindings.issued
    ensures forall k :: 0 <= k < |s.outbox.rows| ==> s.outbox.rows[k].bindingId != b
  {
    hide Inv, HasAnswer, IsBound, B.Inv;
    BindingParts(s, config);
    UnusedBindingId(s.bindings, b);
    forall k | 0 <= k < |s.outbox.rows| ensures s.outbox.rows[k].bindingId != b {
      var c := OutboundIsLinked(s, k, config);
      BoundHasRow(s.bindings.rows, s.outbox.rows[k].bindingId, c);
    }
  }

  lemma BoundHasRow(rows: seq<BindingRow>, id: Id, c: Id)
    requires IsBound(rows, id, c)
    ensures exists k :: 0 <= k < |rows| && rows[k].id == id
  {
  }

  /** Once met, nothing of the binding is stuck. */
  lemma ContactIsNew(s: System, d: Delivery, c: Id, config: Configuration)
    requires Inv(s, config) && CanMeet(s, d, c)
    ensures var u := Met(s, d, c, config);
      && Inv(u, config) && IsNew(u, d, c) && IsFree(u.conversations[c], d) && Rows(u.conversations[c]) == []
      && !IsStuck(u, d.bindingId, c, config.conversation)
  {
    hide Inv, Met, IsFree, InboundData.Valid, IssuedAnywhere, IsUnknown, FoldedNext, C.Initial, ActiveFor;
    IdentityIsMet(s, d, c, config);
    NewIsFree(s.conversations, d, c, config);
    NothingIsStuck(s, d.bindingId, config);
  }

  /** A servable first message, once met, can be finished. */
  lemma ContactCanFinish(s: System, d: Delivery, c: Id, config: Configuration)
    requires Inv(s, config) && CanMeet(s, d, c) && IsServable(s, d)
    ensures var u := Met(s, d, c, config);
      && Inv(u, config) && CanFinish(u, |s.handlers|, d, d.bindingId, c, config) && c in u.conversations
      && NoOutbound(u.outbox, d.message.delivery) && !IsStuck(u, d.bindingId, c, config.conversation)
  {
    hide Inv, Met, IdleWorld, InboundData.Valid, IssuedAnywhere, IsUnknown, IsStuck, C.Initial, ActiveFor, NoOutbound;
    hide Storable, NoControls, Answered, ChatResult.Valid;
    IdentityIsMet(s, d, c, config);
    ContactIsNew(s, d, c, config);
    NewIsIdle(s.conversations, d, c, config);
  }

  /** How a first message ends. */
  function FirstOutcome(s: System, d: Delivery, config: Configuration): Ingress {
    if !NoControls(d.message.text) then ServiceUnavailable
    else if !FitsShape(d.Chat()) then ServiceUnavailable
    else if !NoControls(d.Chat().answer) then TerminalNoRetry
    else if NoOutbound(s.outbox, d.message.delivery) then Acknowledged
    else ServiceUnavailable
  }

  /** From every reachable state, the first message of an unknown identity, run alone to its
      end with a working channel, is bound to a new conversation, whatever crashed handlers
      left behind; and it is acknowledged exactly when it has no line break, its result can be
      stored and its delivery key is nobody else's. */
  lemma FirstContactIsDecided(s: System, d: Delivery, c: Id, config: Configuration)
    requires Inv(s, config) && CanMeet(s, d, c)
    ensures var v := ServedFrom(Met(s, d, c, config), |s.handlers|, d, config);
      && Inv(Met(s, d, c, config), config) && |s.handlers| < |v.handlers|
      && v.handlers[|s.handlers|].at == Finished(FirstOutcome(s, d, config))
      && (v.handlers[|s.handlers|].at == Finished(Acknowledged) <==> IsServable(s, d))
  {
    hide Inv, Met, ServedFrom, InboundData.Valid, IssuedAnywhere, C.Initial, ActiveFor, P.Fate, NoControls, NoOutbound;
    hide IsUnknown, IsStuck, Storable, Answered, ChatResult.Valid, IsFree;
    IdentityIsMet(s, d, c, config);
    ContactIsNew(s, d, c, config);
    FreeIsActive(Met(s, d, c, config).conversations[c], d);
    FirstFate(d.Chat(), config.conversation);
    FateIsTold(0, d.Chat(), config.conversation);
    BoundIsDecided(Met(s, d, c, config), |s.handlers|, d, d.bindingId, c, config);
  }

  lemma FreeIsActive(w: C.World, d: Delivery)
    requires IsFree(w, d)
    ensures IsLive(w) && d.now < w.conversation.value.expiresAt
  {
    hide FindByKey, P.IsLeased, InboundData.Valid;
  }
}
