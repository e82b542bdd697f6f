/** A delivery served without interruption, from any reachable state: how it ends is decided
    by the message and by what it finds. */
module ChannelProgress {
  import opened Wrappers
  import opened Sequences
  import opened ChatModels
  import opened ConversationModels
  import opened ConversationPolicy
  import opened ConversationStore
  import opened ConversationFacts
  import opened ConversationReplay
  import opened ConversationService
  import opened ChannelBinding
  import opened ChannelOutbox
  import opened ChannelSystem
  import opened ChannelSystemFacts
  import opened ChannelSystemInvariant
  import opened ChannelSystemSteps
  import C = ConversationProtocol
  import K = ConversationCompletion
  import P = ConversationProgress
  import B = ChannelBindingProtocol
  import O = ChannelOutboxProtocol
  import OT = ChannelOutboxTheorems

  /** One delivery and everything its environment contributes: fresh ids for the binding,
      the exchange and the outbound row, what the chat port does, and the formatted reply. */
  datatype Delivery = Delivery(
    message: Inbound, now: Time, bindingId: Id, exchangeId: Id, outboundId: Id, port: Option<ChatResult>, reply: string, citations: nat)
  {
    /** What the service makes of the chat port's value. */
    function Chat(): (chat: ChatResult)
      ensures chat.Valid()
    {
      AnsweredIsValid(port);
      Answered(port)
    }
  }

  predicate IsBoundIdentity(rows: seq<BindingRow>, identity: string, b: Id, c: Id) {
    var k := IndexWhere(HasIdentity(identity), rows);
    k < |rows| && rows[k].id == b && IsFor(rows[k], c)
  }

  /** A live conversation that nobody works on and that does not know the delivery. */
  predicate IsFree(w: C.World, d: Delivery) {
    && w.conversation.Some? && d.now < w.conversation.value.expiresAt
    && (Rows(w) != [] ==> !P.IsLeased(C.Newest(Rows(w)), d.now))
    && FindByKey(Rows(w), d.message.delivery).None? && !IssuedIn(w, d.exchangeId)
  }

  /** ... that can serve it: a readable message, room, and a result that can be stored. */
  predicate IdleWorld(w: C.World, d: Delivery, config: Configuration) {
    IsFree(w, d) && NoControls(d.message.text) && P.Fate(|Rows(w)|, d.Chat(), config.conversation).None?
  }

  predicate IsIdle(conversations: map<Id, C.World>, d: Delivery, c: Id, config: Configuration) {
    && c in conversations && IdleWorld(conversations[c], d, config) && !IssuedAnywhere(conversations, d.exchangeId)
  }

  predicate NoOutbound(outbox: O.Outbox, delivery: string) {
    forall k :: 0 <= k < |outbox.rows| ==> outbox.rows[k].delivery != delivery
  }

  const OK := Receipt(Delivered, None)

  function AtBinding(s: System, d: Delivery, config: Configuration): System {
    Step(Step(s, Deliver(d.message, d.now), config), TakeBinding(|s.handlers|, d.bindingId), config)
  }

  function AtAnswering(s: System, h: nat, d: Delivery, config: Configuration): System {
    Step(Step(s, TakeExchange(h, d.exchangeId), config), AskChat(h, d.port), config)
  }

  function AtEnd(s: System, h: nat, config: Configuration): System {
    Step(Step(Step(s, MarkFor(h), config), SendFor(h, OK), config), RecordFor(h, false), config)
  }

  /** The state when the exchange of a bound handler is completed, before anything outbound. */
  function RepliedFrom(s: System, h: nat, d: Delivery, config: Configuration): System {
    Step(AtAnswering(s, h, d, config), CompleteExchange(h), config)
  }

  /** A bound handler runs to the end; its adapter call, if any, succeeds. */
  function ServedFrom(s: System, h: nat, d: Delivery, config: Configuration): System {
    AtEnd(Step(RepliedFrom(s, h, d, config), TakeOutbound(h, Some(d.reply), d.citations, d.outboundId), config), h, config)
  }

  /** The delivery of a bound identity, from its arrival to the end of its handler. */
  function Served(s: System, d: Delivery, config: Configuration): System {
    ServedFrom(AtBinding(s, d, config), |s.handlers|, d, config)
  }

  // ----- to the conversation -----

  lemma BindingIsFound(s: System, d: Delivery, b: Id, c: Id, config: Configuration)
    requires Inv(s, config) && IsBoundIdentity(s.bindings.rows, d.message.identity, b, c) && d.bindingId !in s.bindings.issued
    ensures var v := AtBinding(s, d, config);
      && Inv(v, config) && |v.handlers| == |s.handlers| + 1
      && v.handlers[|s.handlers|] == Handler(d.message, d.now, Bound(b, c), None)
      && v.conversations == s.conversations && v.outbox == s.outbox && v.bindings.rows == s.bindings.rows && v.chats == s.chats
  {
    hide Inv, IssuedAnywhere, InboundData.Valid, ValidHmac;
    var h := |s.handlers|;
    var u := Step(s, Deliver(d.message, d.now), config);
    StepKeeps(s, Deliver(d.message, d.now), config);
    StepKeeps(u, TakeBinding(h, d.bindingId), config);
    InboundIsHmac(d.message);
    assert s.bindings.tokens + [] == s.bindings.tokens;
  }

  lemma InboundIsHmac(m: Inbound)
    ensures ValidHmac(m.identity) && ValidHmac(m.delivery)
  {
    hide ValidHmac;
  }

  /** The channel accepts what a conversation request refuses: text with a line break. */
  lemma RequestIsValidIff(m: Inbound, c: Id)
    ensures RequestData(c, m.delivery, m.text).Valid() <==> NoControls(m.text)
  {
    hide NoControls;
    HmacHasNoControls(m.delivery);
  }

  lemma HmacHasNoControls(s: string)
    requires ValidHmac(s)
    ensures NoControls(s)
  {
  }

  function RequestTo(d: Delivery, c: Id): Request
    requires RequestData(c, d.message.delivery, d.message.text).Valid()
  {
    RequestData(c, d.message.delivery, d.message.text)
  }

  function ReserveOf(d: Delivery, c: Id): C.Event
    requires RequestData(c, d.message.delivery, d.message.text).Valid()
  {
    C.ReserveEvent(RequestTo(d, c), d.now, d.exchangeId)
  }

  lemma FreeIsEnabled(w: C.World, d: Delivery, c: Id)
    requires IsFree(w, d) && w.id == c && NoControls(d.message.text)
    ensures RequestData(c, d.message.delivery, d.message.text).Valid() && C.Enabled(w, ReserveOf(d, c))
  {
    hide FindByKey, P.IsLeased, RequestData.Valid, InboundData.Valid, NoControls;
    RequestIsValidIff(d.message, c);
    IssuedMeans(w, d.exchangeId);
  }

  /** The conversation reserves the delivery, over what a crashed handler may have left. */
  lemma ConversationReserves(w: C.World, d: Delivery, c: Id, settings: Settings)
    requires C.Inv(w, settings) && IsFree(w, d) && w.id == c && NoControls(d.message.text)
    ensures RequestData(c, d.message.delivery, d.message.text).Valid()
    ensures var u := C.Step(w, ReserveOf(d, c), settings);
      var tx := ReserveTx(w.conversation, RequestTo(d, c), d.now, d.exchangeId, settings);
      && tx.result.Ok? && tx.result.value.Reserved?
      && C.Inv(u, settings) && K.InFlight(u) && u.id == c && |u.tickets| == |w.tickets| + 1
      && C.Newest(u.tickets).reservation.exchangeId == d.exchangeId && C.Newest(u.tickets).request == RequestTo(d, c)
      && C.Newest(u.tickets).now == d.now
      && |Rows(u)| == |Rows(w)| + 1 && C.Newest(Rows(u)).id == d.exchangeId && C.Newest(Rows(u)).key == d.message.delivery
      && forall k :: 0 <= k < |Rows(w)| ==> Rows(u)[k].id == Rows(w)[k].id
  {
    hide C.Inv, ReserveTx, C.ReserveStep, FindByKey, P.IsLeased, RequestData.Valid, InboundData.Valid, MaxOrdinal, NoControls;
    FreeIsEnabled(w, d, c);
    P.NewReserveInserts(w, RequestTo(d, c), d.now, d.exchangeId, settings);
  }

  lemma ExchangeIsAsked(s: System, h: nat, d: Delivery, b: Id, c: Id, config: Configuration)
    requires Inv(s, config) && c in s.conversations && IsFree(s.conversations[c], d) && NoControls(d.message.text)
    requires !IssuedAnywhere(s.conversations, d.exchangeId)
    requires h < |s.handlers| && s.handlers[h] == Handler(d.message, d.now, Bound(b, c), None)
    ensures RequestData(c, d.message.delivery, d.message.text).Valid()
    ensures var v := AtAnswering(s, h, d, config);
      var w := s.conversations[c];
      && Inv(v, config) && |v.handlers| == |s.handlers| && w.id == c && C.Inv(w, config.conversation)
      && v.handlers[h] == Handler(d.message, d.now, Answering(b, c, d.Chat()), Some(Won(c, |w.tickets|)))
      && v.conversations == s.conversations[c := C.Step(w, ReserveOf(d, c), config.conversation)]
      && v.outbox == s.outbox && v.bindings == s.bindings
  {
    hide Inv, C.Inv, C.Step, ReserveTx, RequestData.Valid, InboundData.Valid, IssuedAnywhere, IsFree, NoControls;
    hide ChatResult.Valid;
    var w := s.conversations[c];
    WorldAt(s, c, config);
    ConversationReserves(w, d, c, config.conversation);
    StepKeeps(s, TakeExchange(h, d.exchangeId), config);
    StepKeeps(Step(s, TakeExchange(h, d.exchangeId), config), AskChat(h, d.port), config);
  }

  /** The world of the conversation once the delivery is completed. */
  function ServedWorld(w: C.World, d: Delivery, c: Id, settings: Settings): C.World
    requires RequestData(c, d.message.delivery, d.message.text).Valid()
  {
    C.Step(C.Step(w, ReserveOf(d, c), settings), C.CompleteEvent(|w.tickets|, d.Chat(), d.now), settings)
  }

  /** Completing what was reserved, as its handler does: it answers, or fails with its fate. */
  lemma ConversationCompletes(w: C.World, d: Delivery, c: Id, settings: Settings)
    requires C.Inv(w, settings) && IsFree(w, d) && w.id == c && NoControls(d.message.text)
    ensures RequestData(c, d.message.delivery, d.message.text).Valid()
    ensures var u := C.Step(w, ReserveOf(d, c), settings);
      && |u.tickets| == |w.tickets| + 1 && u.tickets[|w.tickets|].reservation.exchangeId == d.exchangeId
      && var result := C.CompleteWith(u.conversation, u.tickets[|w.tickets|], d.Chat(), d.now, settings).result;
      match P.Fate(|Rows(w)|, d.Chat(), settings)
      case Some(code) => result == Err(code)
      case None =>
        && result.Ok?
        && HasAnswer(C.CompleteStep(u, |w.tickets|, d.Chat(), d.now, settings), d.exchangeId, d.message.delivery)
  {
    hide C.Inv, C.CompleteWith, ReserveTx, C.ReserveStep, C.CompleteStep, RequestData.Valid, InboundData.Valid, IsFree;
    hide NoControls, ChatResult.Valid, P.Fate, HasAnswer, Answered;
    ConversationReserves(w, d, c, settings);
    var u := C.Step(w, ReserveOf(d, c), settings);
    P.CompletionMeetsItsFate(u, d.Chat(), settings);
    if P.Fate(|Rows(w)|, d.Chat(), settings).None? {
      CompletionAnswers(u, |w.tickets|, d.Chat(), d.now, settings);
    }
  }

  lemma ExchangeIsCompleted(s: System, h: nat, d: Delivery, b: Id, c: Id, w: C.World, config: Configuration)
    requires Inv(s, config) && h < |s.handlers| && c in s.conversations && w.id == c
    requires s.handlers[h] == Handler(d.message, d.now, Answering(b, c, d.Chat()), Some(Won(c, |w.tickets|)))
    requires IdleWorld(w, d, config) && C.Inv(w, config.conversation)
    requires RequestData(c, d.message.delivery, d.message.text).Valid()
    requires s.conversations[c] == C.Step(w, ReserveOf(d, c), config.conversation)
    ensures var v := Step(s, CompleteExchange(h), config);
      && Inv(v, config) && |v.handlers| == |s.handlers|
      && v.handlers[h] == s.handlers[h].(at := Replied(b, c, d.exchangeId))
      && v.conversations == s.conversations[c := ServedWorld(w, d, c, config.conversation)]
      && v.outbox == O.Step(s.outbox, O.Delete(Orphans(s.outbox.rows, Existing(v.conversations), s.bindings.rows)))
      && v.bindings == s.bindings
      && HasAnswer(v.conversations[c], d.exchangeId, d.message.delivery)
  {
    hide Inv, C.Inv, ReserveTx, C.CompleteWith, C.CompleteStep, C.ReserveStep, ChatResult.Valid, IsFree, P.Fate;
    hide RequestData.Valid, InboundData.Valid, HasAnswer, Existing, Orphans, O.Step, NoControls, Answered;
    ConversationCompletes(w, d, c, config.conversation);
    StepKeeps(s, CompleteExchange(h), config);
  }

  /** A completion that fails ends the handler with the receipt of its error. */
  lemma ExchangeFails(s: System, h: nat, d: Delivery, b: Id, c: Id, w: C.World, config: Configuration)
    requires Inv(s, config) && h < |s.handlers| && c in s.conversations && w.id == c
    requires s.handlers[h] == Handler(d.message, d.now, Answering(b, c, d.Chat()), Some(Won(c, |w.tickets|)))
    requires IsFree(w, d) && NoControls(d.message.text) && C.Inv(w, config.conversation)
    requires RequestData(c, d.message.delivery, d.message.text).Valid()
    requires s.conversations[c] == C.Step(w, ReserveOf(d, c), config.conversation)
    requires P.Fate(|Rows(w)|, d.Chat(), config.conversation).Some?
    ensures var v := Step(s, CompleteExchange(h), config);
      && |v.handlers| == |s.handlers|
      && v.handlers[h].at == Finished(ErrorReceipt(P.Fate(|Rows(w)|, d.Chat(), config.conversation).value))
  {
    hide Inv, C.Inv, ReserveTx, C.CompleteWith, C.CompleteStep, C.ReserveStep, ChatResult.Valid, IsFree, P.Fate;
    hide RequestData.Valid, InboundData.Valid, HasAnswer, Existing, Orphans, O.Step, NoControls, Answered;
    ConversationCompletes(w, d, c, config.conversation);
  }

  /** A served conversation keeps its newest rows, as many as are retained with the new one. */
  lemma ServedWorldIs(w: C.World, d: Delivery, c: Id, config: Configuration)
    requires C.Inv(w, config.conversation) && IdleWorld(w, d, config) && w.id == c
    ensures RequestData(c, d.message.delivery, d.message.text).Valid()
    ensures var v := ServedWorld(w, d, c, config.conversation);
      var n := Excess(|Rows(w)| + 1, config.conversation.retainedLimit);
      && IsLive(v) && v.id == c && n <= |Rows(w)| && |Rows(v)| == |Rows(w)| - n + 1
      && (forall k :: n <= k < |Rows(w)| ==> Rows(v)[k - n].id == Rows(w)[k].id)
      && C.Newest(Rows(v)).id == d.exchangeId && AnswersDelivery(C.Newest(Rows(v)), d.message.delivery)
      && v.conversation.value.expiresAt == d.now + config.conversation.retentionSeconds
      && |v.tickets| == |w.tickets| + 1 && v.tickets[|w.tickets|].reservation.exchangeId == d.exchangeId
  {
    hide C.Inv, ReserveTx, C.CompleteWith, C.CompleteStep, C.ReserveStep, ChatResult.Valid, IsFree, P.Fate, HasAnswer;
    hide RequestData.Valid, InboundData.Valid, BuildStateUpdate, NoControls, PersistedRecord, Answered;
    var settings := config.conversation;
    ConversationReserves(w, d, c, settings);
    ConversationCompletes(w, d, c, settings);
    var u := C.Step(w, ReserveOf(d, c), settings);
    K.CompletionInFlight(u, d.Chat(), d.now, settings);
    var v, n := ServedWorld(w, d, c, settings), Excess(|Rows(w)| + 1, settings.retainedLimit);
    assert Rows(v) == C.Older(Rows(u))[n..] + [CompletedRow(C.Newest(Rows(u)), d.Chat(), d.now)];
  }

  // ----- to the channel -----

  lemma IdentityIsActive(rows: seq<BindingRow>, identity: string, b: Id, c: Id, live: set<Id>)
    requires BindingTable(rows, live) && IsBoundIdentity(rows, identity, b, c)
    ensures ActiveFor(rows, b, identity)
  {
    hide RowChecked;
    var k := IndexWhere(HasIdentity(identity), rows);
    assert HasBindingId(b)(rows[k]);
  }

  lemma NoDeliveryFound(rows: seq<OutboundRow>, delivery: string)
    requires forall k :: 0 <= k < |rows| ==> rows[k].delivery != delivery
    ensures IndexWhere(HasDelivery(delivery), rows) == |rows|
  {
  }

  lemma ExistsInWorld(conversations: map<Id, C.World>, c: Id, id: Id, delivery: string)
    requires c in conversations && HasAnswer(conversations[c], id, delivery)
    ensures id in Existing(conversations)
  {
    hide MayAnswer;
  }

  function NewRow(d: Delivery, b: Id): OutboundRow {
    OutboundRow(d.outboundId, b, d.exchangeId, d.message.delivery, Pending, None, 0, None, None)
  }

  function NewHolder(d: Delivery, b: Id): O.Holder {
    O.Holder(OutboundReservation(d.outboundId, b, d.exchangeId, OutReserved, 0, None), O.Holding)
  }

  lemma OutboundIsReserved(s: System, h: nat, d: Delivery, b: Id, c: Id, config: Configuration)
    requires Inv(s, config) && h < |s.handlers| && s.handlers[h].message == d.message && s.handlers[h].at == Replied(b, c, d.exchangeId)
    requires c in s.conversations && HasAnswer(s.conversations[c], d.exchangeId, d.message.delivery)
    requires ActiveFor(s.bindings.rows, b, d.message.identity) && d.outboundId !in s.outbox.issued
    requires NoOutbound(s.outbox, d.message.delivery) && !HasOutbound(s.outbox.rows, d.exchangeId)
    ensures var v := Step(s, TakeOutbound(h, Some(d.reply), d.citations, d.outboundId), config);
      && Inv(v, config) && |v.handlers| == |s.handlers|
      && v.handlers[h] == s.handlers[h].(at := Holds(|s.outbox.holders|))
      && v.outbox.rows == s.outbox.rows + [NewRow(d, b)] && v.outbox.holders == s.outbox.holders + [NewHolder(d, b)]
      && v.outbox.created == s.outbox.created + [NewRow(d, b)] && v.outbox.issued == s.outbox.issued + {d.outboundId}
  {
    hide Inv, ActiveFor, HasAnswer, Existing, InboundData.Valid, ValidHmac, ValidSafeErrorCode;
    StepKeeps(s, TakeOutbound(h, Some(d.reply), d.citations, d.outboundId), config);
    ExistsInWorld(s.conversations, c, d.exchangeId, d.message.delivery);
    NoDeliveryFound(s.outbox.rows, d.message.delivery);
    InboundIsHmac(d.message);
    assert !PairTaken(s.outbox.rows, b, d.exchangeId);
  }

  // ----- the single attempt -----

  lemma NewRowIsFound(rows: seq<OutboundRow>, row: OutboundRow)
    requires forall k :: 0 <= k < |rows| ==> rows[k].id != row.id
    ensures IndexWhere(HasOutboundId(row.id), rows + [row]) == |rows|
  {
    assert HasOutboundId(row.id)((rows + [row])[|rows|]);
  }

  lemma PendingDoesNotBlock(rows: seq<OutboundRow>, row: OutboundRow, b: Id)
    requires row.status.Pending?
    ensures BindingSends(rows + [row], b) == BindingSends(rows, b)
  {
    forall i | 0 <= i < |rows| ensures (rows + [row])[i] == rows[i] {
    }
  }

  /** Marking wins exactly when no row of the binding is SENDING. */
  lemma MarkingDecides(s: System, h: nat, g: nat, rows: seq<OutboundRow>, d: Delivery, b: Id, config: Configuration)
    requires Inv(s, config) && h < |s.handlers| && s.handlers[h].at == Holds(g)
    requires s.outbox.rows == rows + [NewRow(d, b)] && g < |s.outbox.holders| && s.outbox.holders[g] == NewHolder(d, b)
    ensures var v := Step(s, MarkFor(h), config);
      && Inv(v, config) && |v.handlers| == |s.handlers|
      && (BindingSends(rows, b) ==> v.handlers[h].at == Finished(ServiceUnavailable))
      && (!BindingSends(rows, b) ==>
            && v.handlers[h].at == Owns(g) && |v.outbox.holders| == |s.outbox.holders|
            && v.outbox.holders[g] == s.outbox.holders[g].(phase := O.Owner)
            && |v.outbox.rows| == |rows| + 1 && v.outbox.rows[|rows|] == MarkedSending(NewRow(d, b), s.handlers[h].now))
  {
    hide Inv, BindingSends, InboundData.Valid;
    StepKeeps(s, MarkFor(h), config);
    UniqueOutboundIds(s, config);
    assert forall k :: 0 <= k < |rows| ==> rows[k] == s.outbox.rows[k];
    assert s.outbox.rows[|rows|] == NewRow(d, b);
    NewRowIsFound(rows, NewRow(d, b));
    PendingDoesNotBlock(rows, NewRow(d, b), b);
  }

  lemma OkIsValid()
    ensures OK.Valid()
  {
  }

  /** The winner sends, and what was delivered is recorded and acknowledged. */
  lemma WinnerAcknowledges(s: System, h: nat, g: nat, k: nat, config: Configuration)
    requires Inv(s, config) && h < |s.handlers| && s.handlers[h].at == Owns(g)
    requires g < |s.outbox.holders| && s.outbox.holders[g].phase.Owner?
    requires k < |s.outbox.rows| && s.outbox.rows[k].id == s.outbox.holders[g].reservation.outboundId
    ensures var v := Step(Step(s, SendFor(h, OK), config), RecordFor(h, false), config);
      |v.handlers| == |s.handlers| && v.handlers[h].at == Finished(Acknowledged)
  {
    hide Inv, O.Inv, CompleteOutbound, Receipt.Valid;
    OkIsValid();
    var u := Step(s, SendFor(h, OK), config);
    StepKeeps(s, SendFor(h, OK), config);
    assert u.outbox.holders[g].phase == O.Called(OK) && u.outbox.rows == s.outbox.rows;
    OutboxOf(u, config);
    OT.RecordingIsFaithful(u.outbox, g, u.handlers[h].now);
  }

  lemma OutboxOf(s: System, config: Configuration)
    requires Inv(s, config)
    ensures O.Inv(s.outbox)
  {
    hide Inv, O.Inv, WorldsOk, IdsApart, BindingsMatch, AllLinked, Spent, HandlersOk, TicketsApart, ChatsLogged;
    InvParts(s, config);
  }

  lemma LoserStays(s: System, h: nat, config: Configuration)
    requires h < |s.handlers| && s.handlers[h].at == Finished(ServiceUnavailable)
    ensures Step(Step(s, SendFor(h, OK), config), RecordFor(h, false), config) == s
  {
    hide Receipt.Valid;
  }

  lemma AttemptDecides(s: System, h: nat, g: nat, rows: seq<OutboundRow>, d: Delivery, b: Id, config: Configuration)
    requires Inv(s, config) && h < |s.handlers| && s.handlers[h].at == Holds(g)
    requires s.outbox.rows == rows + [NewRow(d, b)] && g < |s.outbox.holders| && s.outbox.holders[g] == NewHolder(d, b)
    ensures var v := AtEnd(s, h, config);
      && |v.handlers| == |s.handlers|
      && v.handlers[h].at == Finished(if BindingSends(rows, b) then ServiceUnavailable else Acknowledged)
  {
    hide Inv, BindingSends, Step, Enabled, InboundData.Valid;
    MarkingDecides(s, h, g, rows, d, b, config);
    var v := Step(s, MarkFor(h), config);
    if BindingSends(rows, b) {
      LoserStays(v, h, config);
    } else {
      WinnerAcknowledges(v, h, g, |rows|, config);
    }
  }

  // ----- the whole delivery -----

  /** What the reply finds: rows of before only, none of this delivery or exchange. */
  lemma NothingOutboundYet(s: System, rows: seq<OutboundRow>, gone: set<Id>, d: Delivery, config: Configuration)
    requires Inv(s, config) && rows == WithoutOutbound(s.outbox.rows, gone) && NoOutbound(s.outbox, d.message.delivery)
    requires !IssuedAnywhere(s.conversations, d.exchangeId)
    ensures forall k :: 0 <= k < |rows| ==> rows[k].delivery != d.message.delivery
    ensures !HasOutbound(rows, d.exchangeId)
  {
    hide Inv, WorldsOk, IdsApart, BindingsMatch, O.Inv, Spent, HandlersOk, TicketsApart, ChatsLogged, IsBound;
    hide MayAnswer, InboundData.Valid;
    InvParts(s, config);
    WithoutOutboundMembers(s.outbox.rows, gone);
    forall k | 0 <= k < |rows| ensures rows[k].delivery != d.message.delivery && rows[k].exchangeId != d.exchangeId {
      assert rows[k] in s.outbox.rows;
      var i :| 0 <= i < |s.outbox.rows| && s.outbox.rows[i] == rows[k];
      assert Linked(s.conversations, s.bindings.rows, s.outbox.rows[i]);
      var c :| c in s.conversations && IsBound(s.bindings.rows, rows[k].bindingId, c) && HasAnswer(s.conversations[c], rows[k].exchangeId, rows[k].delivery);
      AnsweredIsIssued(s.conversations[c], rows[k].exchangeId, rows[k].delivery);
    }
  }

  /** A handler that is bound to an idle conversation with room. */
  ghost predicate CanFinish(s: System, h: nat, d: Delivery, b: Id, c: Id, config: Configuration) {
    && h < |s.handlers| && s.handlers[h] == Handler(d.message, d.now, Bound(b, c), None)
    && ActiveFor(s.bindings.rows, b, d.message.identity)
    && IsIdle(s.conversations, d, c, config) && d.outboundId !in s.outbox.issued
  }

  /** The outbound rows that the cascade deletes when the exchange is completed. */
  function Cascade(s: System, conversations: map<Id, C.World>): set<Id> {
    Orphans(s.outbox.rows, Existing(conversations), s.bindings.rows)
  }

  /** The state in which the reply is ready: the exchange completed and the outbound table
      as compaction left it. */
  lemma ReplyIsReady(s: System, h: nat, d: Delivery, b: Id, c: Id, config: Configuration)
    requires Inv(s, config) && CanFinish(s, h, d, b, c, config)
    ensures var v := RepliedFrom(s, h, d, config);
      && Inv(v, config) && h < |v.handlers| && v.handlers[h].message == d.message && v.handlers[h].at == Replied(b, c, d.exchangeId)
      && c in v.conversations && HasAnswer(v.conversations[c], d.exchangeId, d.message.delivery)
      && RequestData(c, d.message.delivery, d.message.text).Valid()
      && v.conversations == s.conversations[c := ServedWorld(s.conversations[c], d, c, config.conversation)]
      && v.outbox == s.outbox.(rows := WithoutOutbound(s.outbox.rows, Cascade(s, v.conversations)))
      && v.bindings == s.bindings && |v.handlers| == |s.handlers|
  {
    hide Inv, C.Inv, C.Step, Step, IsFree, IssuedAnywhere, HasAnswer, InboundData.Valid, ServedWorld, P.Fate;
    hide RequestData.Valid, ActiveFor, Orphans, Existing, NoControls, ChatResult.Valid, Answered;
    ExchangeIsAsked(s, h, d, b, c, config);
    ExchangeIsCompleted(AtAnswering(s, h, d, config), h, d, b, c, s.conversations[c], config);
  }

  // ----- what compaction leaves to block the binding -----

  /** The exchanges that completing one more folds away. */
  function FoldedNext(w: C.World, settings: Settings): set<Id> {
    set k | 0 <= k < |Rows(w)| && k + settings.retainedLimit < |Rows(w)| + 1 :: Rows(w)[k].id
  }

  /** Before the delivery: a message of the binding is SENDING, and completing one more
      exchange of its conversation will not delete it. */
  predicate IsStuck(s: System, b: Id, c: Id, settings: Settings)
    requires c in s.conversations
  {
    exists k :: 0 <= k < |s.outbox.rows| && s.outbox.rows[k].bindingId == b && s.outbox.rows[k].status.Sending?
      && s.outbox.rows[k].exchangeId !in FoldedNext(s.conversations[c], settings)
  }

  /** The outbound rows of a binding are of exchanges of the conversation it is bound to. */
  lemma OutboundIsInConversation(s: System, h: nat, b: Id, c: Id, k: nat, config: Configuration)
    requires Inv(s, config) && h < |s.handlers| && s.handlers[h].at == Bound(b, c)
    requires k < |s.outbox.rows| && s.outbox.rows[k].bindingId == b
    ensures c in s.conversations && s.outbox.rows[k].exchangeId in RowIds(s.conversations[c]) && IsBound(s.bindings.rows, b, c)
  {
    hide Inv, RowIds, MayAnswer;
    HandlerAt(s, h, config);
    var e := OutboundIsLinked(s, k, config);
    var j :| 0 <= j < |s.bindings.rows| && s.bindings.rows[j].id == b && IsFor(s.bindings.rows[j], e);
    assert IsFor(s.bindings.rows[j], c);
  }

  /** Of the exchanges of a conversation, completing one more leaves those not folded. */
  lemma SurvivesIffNotFolded(s: System, d: Delivery, c: Id, id: Id, config: Configuration)
    requires Inv(s, config) && IsIdle(s.conversations, d, c, config) && id in RowIds(s.conversations[c])
    requires RequestData(c, d.message.delivery, d.message.text).Valid()
    ensures id in Existing(s.conversations[c := ServedWorld(s.conversations[c], d, c, config.conversation)])
      <==> id !in FoldedNext(s.conversations[c], config.conversation)
  {
    hide Inv, C.Inv, IdleWorld, IdsApart, WorldsOk, ServedWorld, IssuedIn, RequestData.Valid, AnswersDelivery;
    var w, v := s.conversations[c], ServedWorld(s.conversations[c], d, c, config.conversation);
    WorldAt(s, c, config);
    ServedWorldIs(w, d, c, config);
    RowsAreIssued(w, config.conversation);
    var n, after := Excess(|Rows(w)| + 1, config.conversation.retainedLimit), s.conversations[c := v];
    var k :| 0 <= k < |Rows(w)| && Rows(w)[k].id == id;
    if id !in FoldedNext(w, config.conversation) {
      assert Rows(v)[k - n].id == id;
      assert id in RowIds(after[c]);
    }
    if id in Existing(after) {
      var e :| e in after && id in RowIds(after[e]);
      if e != c {
        OneHome(s, c, e, id, config);
        assert false;
      }
      var j :| 0 <= j < |Rows(v)| && Rows(v)[j].id == id;
      assert j < |Rows(v)| - 1 ==> Rows(v)[(n + j) - n].id == Rows(w)[n + j].id;
    }
  }

  lemma OneHome(s: System, c: Id, e: Id, id: Id, config: Configuration)
    requires Inv(s, config) && c in s.conversations && e in s.conversations
    requires id in RowIds(s.conversations[c]) && id in RowIds(s.conversations[e])
    ensures c == e
  {
    hide Inv, C.Inv, WorldsOk, BindingsMatch, O.Inv, AllLinked, Spent, HandlersOk, TicketsApart, ChatsLogged, IssuedIn;
    InvParts(s, config);
    WorldAt(s, c, config);
    WorldAt(s, e, config);
    RowsAreIssued(s.conversations[c], config.conversation);
    RowsAreIssued(s.conversations[e], config.conversation);
  }

  /** The cascade deletes a row of the binding exactly when its exchange is folded away. */
  lemma CascadeIffFolded(s: System, h: nat, d: Delivery, b: Id, c: Id, k: nat, config: Configuration)
    requires Inv(s, config) && CanFinish(s, h, d, b, c, config)
    requires RequestData(c, d.message.delivery, d.message.text).Valid()
    requires k < |s.outbox.rows| && s.outbox.rows[k].bindingId == b
    ensures s.outbox.rows[k].id in Cascade(s, s.conversations[c := ServedWorld(s.conversations[c], d, c, config.conversation)])
      <==> s.outbox.rows[k].exchangeId in FoldedNext(s.conversations[c], config.conversation)
  {
    hide Inv, IdleWorld, IsIdle, RowIds, Existing, FoldedNext, ServedWorld, IsBound, RequestData.Valid, ActiveFor;
    hide InboundData.Valid;
    OutboundIsInConversation(s, h, b, c, k, config);
    BoundIsFound(s.bindings.rows, b, c);
    SurvivesIffNotFolded(s, d, c, s.outbox.rows[k].exchangeId, config);
    UniqueOutboundIds(s, config);
  }

  lemma BlockedIffStuck(s: System, h: nat, d: Delivery, b: Id, c: Id, config: Configuration)
    requires Inv(s, config) && CanFinish(s, h, d, b, c, config)
    ensures BindingSends(RepliedFrom(s, h, d, config).outbox.rows, b) <==> IsStuck(s, b, c, config.conversation)
  {
    hide Inv, IdleWorld, IssuedAnywhere, RepliedFrom, ServedWorld, Cascade, FoldedNext, RequestData.Valid, ActiveFor;
    hide InboundData.Valid, HasAnswer;
    ReplyIsReady(s, h, d, b, c, config);
    var gone := Cascade(s, RepliedFrom(s, h, d, config).conversations);
    var rows := WithoutOutbound(s.outbox.rows, gone);
    WithoutOutboundMembers(s.outbox.rows, gone);
    forall k | 0 <= k < |s.outbox.rows| && s.outbox.rows[k].bindingId == b
      ensures s.outbox.rows[k] in rows <==> s.outbox.rows[k].exchangeId !in FoldedNext(s.conversations[c], config.conversation)
    {
      CascadeIffFolded(s, h, d, b, c, k, config);
      assert s.outbox.rows[k] in s.outbox.rows;
    }
    forall i | 0 <= i < |rows| && rows[i].bindingId == b && rows[i].status.Sending? ensures IsStuck(s, b, c, config.conversation) {
      assert rows[i] in s.outbox.rows;
      var k :| 0 <= k < |s.outbox.rows| && s.outbox.rows[k] == rows[i];
    }
  }

  lemma FinishesIffNothingStuck(s: System, h: nat, d: Delivery, b: Id, c: Id, config: Configuration)
    requires Inv(s, config) && CanFinish(s, h, d, b, c, config) && NoOutbound(s.outbox, d.message.delivery)
    ensures var v := ServedFrom(s, h, d, config);
      && h < |v.handlers|
      && v.handlers[h].at == Finished(if IsStuck(s, b, c, config.conversation) then ServiceUnavailable else Acknowledged)
  {
    hide Inv, Step, IsIdle, HasAnswer, InboundData.Valid, BindingSends, ActiveFor, HasOutbound, RepliedFrom, AtEnd;
    hide IsStuck, ServedWorld, RequestData.Valid, Cascade;
    var u := RepliedFrom(s, h, d, config);
    ReplyIsReady(s, h, d, b, c, config);
    BlockedIffStuck(s, h, d, b, c, config);
    NotIssuedYet(s, d, c, config);
    NothingOutboundYet(s, u.outbox.rows, Cascade(s, u.conversations), d, config);
    OutboundIsReserved(u, h, d, b, c, config);
    var v := Step(u, TakeOutbound(h, Some(d.reply), d.citations, d.outboundId), config);
    AttemptDecides(v, h, |u.outbox.holders|, u.outbox.rows, d, b, config);
  }

  // ----- a delivery key taken by another identity -----

  /** A row of the delivery that the cascade leaves belongs to another binding: no exchange
      can be completed for it and its handler is refused. */
  lemma TakenDeliveryIsRefused(s: System, h: nat, d: Delivery, b: Id, c: Id, k: nat, config: Configuration)
    requires Inv(s, config) && h < |s.handlers| && s.handlers[h].message == d.message && s.handlers[h].at == Replied(b, c, d.exchangeId)
    requires k < |s.outbox.rows| && s.outbox.rows[k].delivery == d.message.delivery && s.outbox.rows[k].bindingId != b
    requires d.outboundId !in s.outbox.issued
    ensures var v := Step(s, TakeOutbound(h, Some(d.reply), d.citations, d.outboundId), config);
      |v.handlers| == |s.handlers| && v.handlers[h].at == Finished(ServiceUnavailable)
  {
    hide Inv, InboundData.Valid, ActiveFor, Existing, ValidHmac, OutboundReservation.Valid;
    OutboundAnswers(s, k, config);
    InboundIsHmac(d.message);
  }

  /** The conversation of the handler does not know the delivery, so a row of it is of another
      conversation and another binding, and stays. */
  lemma TakenRowStays(s: System, h: nat, d: Delivery, b: Id, c: Id, k: nat, config: Configuration)
    requires Inv(s, config) && CanFinish(s, h, d, b, c, config)
    requires RequestData(c, d.message.delivery, d.message.text).Valid()
    requires k < |s.outbox.rows| && s.outbox.rows[k].delivery == d.message.delivery
    ensures s.outbox.rows[k].bindingId != b
    ensures s.outbox.rows[k] in WithoutOutbound(s.outbox.rows,
      Cascade(s, s.conversations[c := ServedWorld(s.conversations[c], d, c, config.conversation)]))
  {
    hide Inv, C.Inv, IdsApart, WorldsOk, ServedWorld, RequestData.Valid, ActiveFor, InboundData.Valid, P.IsLeased;
    hide P.Fate, NoControls, MayAnswer, FindByKey, IssuedAnywhere, Answered, IsBound;
    var row, after := s.outbox.rows[k], s.conversations[c := ServedWorld(s.conversations[c], d, c, config.conversation)];
    var e := OutboundIsLinked(s, k, config);
    KeyIsElsewhere(s.conversations, c, e, row.exchangeId, d.message.delivery);
    if row.bindingId == b {
      OutboundIsInConversation(s, h, b, c, k, config);
      OneHome(s, c, e, row.exchangeId, config);
    }
    assert after[e] == s.conversations[e];
    assert row.exchangeId in Existing(after);
    BoundIsFound(s.bindings.rows, row.bindingId, e);
    UniqueOutboundIds(s, config);
    WithoutOutboundMembers(s.outbox.rows, Cascade(s, after));
  }

  lemma KeyIsElsewhere(conversations: map<Id, C.World>, c: Id, e: Id, id: Id, delivery: string)
    requires c in conversations && e in conversations && HasAnswer(conversations[e], id, delivery)
    requires FindByKey(Rows(conversations[c]), delivery).None?
    ensures e != c && id in RowIds(conversations[e])
  {
    FindByKeyOrigin(Rows(conversations[c]), delivery);
    var k :| 0 <= k < |Rows(conversations[e])| && Rows(conversations[e])[k].id == id;
    assert AnswersDelivery(Rows(conversations[e])[k], delivery);
  }

  lemma FinishesIfTaken(s: System, h: nat, d: Delivery, b: Id, c: Id, config: Configuration)
    requires Inv(s, config) && CanFinish(s, h, d, b, c, config) && !NoOutbound(s.outbox, d.message.delivery)
    ensures var v := ServedFrom(s, h, d, config);
      h < |v.handlers| && v.handlers[h].at == Finished(ServiceUnavailable)
  {
    hide Inv, Step, IsIdle, HasAnswer, InboundData.Valid, ActiveFor, RepliedFrom, ServedWorld, RequestData.Valid, Cascade;
    var u := RepliedFrom(s, h, d, config);
    ReplyIsReady(s, h, d, b, c, config);
    var k :| 0 <= k < |s.outbox.rows| && s.outbox.rows[k].delivery == d.message.delivery;
    TakenRowStays(s, h, d, b, c, k, config);
    var i :| 0 <= i < |u.outbox.rows| && u.outbox.rows[i] == s.outbox.rows[k];
    TakenDeliveryIsRefused(u, h, d, b, c, i, config);
    FinishedEnds(Step(u, TakeOutbound(h, Some(d.reply), d.citations, d.outboundId), config), h, config);
  }

  // ----- a handler that ends early -----

  /** What is finished takes no further step. */
  lemma FinishedStays(s: System, h: nat, e: SystemEvent, config: Configuration)
    requires h < |s.handlers| && s.handlers[h].at.Finished?
    requires e.AskChat? || e.CompleteExchange? || e.TakeOutbound? || e.MarkFor? || e.SendFor? || e.RecordFor?
    requires e.h == h
    ensures Step(s, e, config) == s
  {
    hide Receipt.Valid, InboundData.Valid;
  }

  lemma FinishedEnds(s: System, h: nat, config: Configuration)
    requires h < |s.handlers| && s.handlers[h].at.Finished?
    ensures AtEnd(s, h, config) == s
  {
    hide Step;
    FinishedStays(s, h, MarkFor(h), config);
    FinishedStays(s, h, SendFor(h, OK), config);
    FinishedStays(s, h, RecordFor(h, false), config);
  }

  lemma FinishedServes(s: System, h: nat, d: Delivery, config: Configuration)
    requires var u := Step(s, TakeExchange(h, d.exchangeId), config); h < |u.handlers| && u.handlers[h].at.Finished?
    ensures ServedFrom(s, h, d, config) == Step(s, TakeExchange(h, d.exchangeId), config)
  {
    hide Step;
    var u := Step(s, TakeExchange(h, d.exchangeId), config);
    FinishedStays(u, h, AskChat(h, d.port), config);
    FinishedStays(u, h, CompleteExchange(h), config);
    FinishedStays(u, h, TakeOutbound(h, Some(d.reply), d.citations, d.outboundId), config);
    FinishedEnds(u, h, config);
  }

  /** A message the conversation cannot read ends its bound handler at once, every time, and
      touches nothing. */
  lemma UnreadableIsRefused(s: System, h: nat, d: Delivery, b: Id, c: Id, config: Configuration)
    requires h < |s.handlers| && s.handlers[h].message == d.message && s.handlers[h].at == Bound(b, c) && c in s.conversations
    requires !NoControls(d.message.text)
    ensures var v := Step(s, TakeExchange(h, d.exchangeId), config);
      && v.conversations == s.conversations && v.bindings == s.bindings && v.outbox == s.outbox && v.chats == s.chats
      && |v.handlers| == |s.handlers|
      && (!IssuedAnywhere(s.conversations, d.exchangeId) ==> v.handlers[h].at == Finished(ServiceUnavailable))
  {
    hide InboundData.Valid, RequestData.Valid, NoControls, IssuedAnywhere;
    RequestIsValidIff(d.message, c);
  }

  /** A bound handler whose completion fails ends with the receipt of its fate. */
  lemma FailsWithItsFate(s: System, h: nat, d: Delivery, b: Id, c: Id, config: Configuration)
    requires Inv(s, config) && c in s.conversations && IsFree(s.conversations[c], d) && NoControls(d.message.text)
    requires !IssuedAnywhere(s.conversations, d.exchangeId)
    requires h < |s.handlers| && s.handlers[h] == Handler(d.message, d.now, Bound(b, c), None)
    requires P.Fate(|Rows(s.conversations[c])|, d.Chat(), config.conversation).Some?
    ensures var v := ServedFrom(s, h, d, config);
      && h < |v.handlers|
      && v.handlers[h].at == Finished(ErrorReceipt(P.Fate(|Rows(s.conversations[c])|, d.Chat(), config.conversation).value))
  {
    hide Inv, C.Inv, C.Step, Step, IsFree, P.Fate, NoControls, IssuedAnywhere, RequestData.Valid, InboundData.Valid;
    hide Answered, ChatResult.Valid;
    var u := AtAnswering(s, h, d, config);
    ExchangeIsAsked(s, h, d, b, c, config);
    ExchangeFails(u, h, d, b, c, s.conversations[c], config);
    var v := Step(u, CompleteExchange(h), config);
    FinishedStays(v, h, TakeOutbound(h, Some(d.reply), d.citations, d.outboundId), config);
    FinishedEnds(v, h, config);
  }

  // ----- the decision -----

  /** How a delivery its conversation does not know ends, from the message, the chat result
      and the state in which the message arrives. */
  function Outcome(s: System, d: Delivery, b: Id, c: Id, config: Configuration): Ingress
    requires c in s.conversations && IsLive(s.conversations[c])
  {
    var w := s.conversations[c];
    if !NoControls(d.message.text) then ServiceUnavailable
    else if w.conversation.value.expiresAt <= d.now then TerminalNoRetry
    else if Rows(w) != [] && P.IsLeased(C.Newest(Rows(w)), d.now) then StillProcessing
    else if |Rows(w)| >= config.conversation.retainedLimit + RETAINED_EXCHANGE_LIMIT then ServiceUnavailable
    else if !FitsShape(d.Chat()) then ServiceUnavailable
    else if !NoControls(d.Chat().answer) then TerminalNoRetry
    else if NoOutbound(s.outbox, d.message.delivery) && !IsStuck(s, b, c, config.conversation) then Acknowledged
    else ServiceUnavailable
  }

  /** The receipt of a completion that fails. */
  lemma FateIsTold(others: nat, chat: ChatResult, settings: Settings)
    ensures P.Fate(others, chat, settings).Some? <==>
      others >= settings.retainedLimit + RETAINED_EXCHANGE_LIMIT || !FitsShape(chat) || !NoControls(chat.answer)
    ensures P.Fate(others, chat, settings).Some? ==>
      ErrorReceipt(P.Fate(others, chat, settings).value)
        == if others >= settings.retainedLimit + RETAINED_EXCHANGE_LIMIT || !FitsShape(chat) then ServiceUnavailable
           else TerminalNoRetry
  {
    hide FitsShape, NoControls;
  }

  /** A handler bound to a live conversation that does not know its delivery, and fresh ids. */
  ghost predicate IsNew(s: System, d: Delivery, c: Id) {
    && c in s.conversations && IsLive(s.conversations[c])
    && FindByKey(Rows(s.conversations[c]), d.message.delivery).None?
    && !IssuedAnywhere(s.conversations, d.exchangeId) && d.outboundId !in s.outbox.issued
  }

  lemma BoundIsDecided(s: System, h: nat, d: Delivery, b: Id, c: Id, config: Configuration)
    requires Inv(s, config) && IsNew(s, d, c)
    requires h < |s.handlers| && s.handlers[h] == Handler(d.message, d.now, Bound(b, c), None)
    requires ActiveFor(s.bindings.rows, b, d.message.identity)
    ensures var v := ServedFrom(s, h, d, config);
      h < |v.handlers| && v.handlers[h].at == Finished(Outcome(s, d, b, c, config))
  {
    hide Inv, C.Inv, Step, P.Fate, NoControls, IssuedAnywhere, InboundData.Valid, FindByKey, P.IsLeased, ActiveFor;
    hide ServedFrom, IsStuck, NoOutbound, Answered, ChatResult.Valid, FitsShape;
    var w := s.conversations[c];
    FateIsTold(|Rows(w)|, d.Chat(), config.conversation);
    if !NoControls(d.message.text) {
      UnreadableIsRefused(s, h, d, b, c, config);
      FinishedServes(s, h, d, config);
    } else if w.conversation.value.expiresAt <= d.now || (Rows(w) != [] && P.IsLeased(C.Newest(Rows(w)), d.now)) {
      ReservingIsDecided(s, h, d, b, c, config);
      FinishedServes(s, h, d, config);
    } else {
      NotIssuedHere(s.conversations, c, d.exchangeId);
      assert IsFree(w, d);
      if P.Fate(|Rows(w)|, d.Chat(), config.conversation).Some? {
        FailsWithItsFate(s, h, d, b, c, config);
      } else {
        assert CanFinish(s, h, d, b, c, config);
        if NoOutbound(s.outbox, d.message.delivery) {
          FinishesIffNothingStuck(s, h, d, b, c, config);
        } else {
          FinishesIfTaken(s, h, d, b, c, config);
        }
      }
    }
  }

  lemma NotIssuedHere(conversations: map<Id, C.World>, c: Id, id: Id)
    requires c in conversations && !IssuedAnywhere(conversations, id)
    ensures !IssuedIn(conversations[c], id)
  {
    hide IssuedIn;
  }

  /** How a delivery of a bound identity ends when its handler runs alone to the end and the
      channel works: refused for a line break in the text, for an overfull conversation, for a
      result of the wrong shape, for a key that another identity's delivery has, and for a
      SENDING row of the binding, found at its arrival, whose exchange completing one more does
      not fold away; not retried for an expired conversation and for a result with a control
      character; told to wait while another exchange is leased; and otherwise acknowledged. */
  lemma DeliveryIsDecided(s: System, d: Delivery, b: Id, c: Id, config: Configuration)
    requires Inv(s, config) && IsBoundIdentity(s.bindings.rows, d.message.identity, b, c) && d.bindingId !in s.bindings.issued
    requires IsNew(s, d, c)
    ensures var v := Served(s, d, config);
      |s.handlers| < |v.handlers| && v.handlers[|s.handlers|].at == Finished(Outcome(s, d, b, c, config))
  {
    hide Inv, Step, IsBoundIdentity, InboundData.Valid, ActiveFor, AtBinding, NoOutbound, FoldedNext, P.Fate, NoControls;
    hide ServedFrom, IssuedAnywhere, FindByKey, P.IsLeased, Answered, ChatResult.Valid;
    BindingIsFound(s, d, b, c, config);
    BoundIsActive(s, d, b, c, config);
    BoundIsDecided(AtBinding(s, d, config), |s.handlers|, d, b, c, config);
  }

  lemma NotIssuedYet(s: System, d: Delivery, c: Id, config: Configuration)
    requires IsIdle(s.conversations, d, c, config)
    ensures !IssuedAnywhere(s.conversations, d.exchangeId)
  {
    hide IdleWorld, IssuedAnywhere;
  }

  lemma BoundIsActive(s: System, d: Delivery, b: Id, c: Id, config: Configuration)
    requires Inv(s, config) && IsBoundIdentity(s.bindings.rows, d.message.identity, b, c)
    ensures ActiveFor(s.bindings.rows, b, d.message.identity)
  {
    hide Inv, BindingTable, B.IdsKnown, B.Fenced, B.Logged, IsBoundIdentity, ActiveFor;
    BindingParts(s, config);
    B.InvParts(s.bindings);
    IdentityIsActive(s.bindings.rows, d.message.identity, b, c, s.bindings.live);
  }

  // ----- what decides a receipt -----

  /** The point a bound handler reaches by reserving, from the state of its conversation. */
  function DecidedBy(w: C.World, d: Delivery, b: Id, c: Id): Pc {
    if !NoControls(d.message.text) then Finished(ServiceUnavailable)
    else match w.conversation
    case None => Finished(TerminalNoRetry)
    case Some(conversation) =>
      if conversation.expiresAt <= d.now then Finished(TerminalNoRetry)
      else match FindByKey(conversation.rows, d.message.delivery)
        case Some(row) =>
          if row.status.Completed? then Replied(b, c, row.id)
          else if P.IsLeased(row, d.now) then Finished(StillProcessing)
          else Finished(TerminalNoRetry)
        case None =>
          if conversation.rows != [] && P.IsLeased(C.Newest(conversation.rows), d.now) then Finished(StillProcessing)
          else Asking(b, c)
  }

  /** A bound handler is refused for a text its conversation cannot read; otherwise it replays,
      waits, gives up or asks by the expiry of its conversation, by its delivery's row and by
      the newest row's lease, and by nothing else. */
  lemma ReservingIsDecided(s: System, h: nat, d: Delivery, b: Id, c: Id, config: Configuration)
    requires Inv(s, config) && h < |s.handlers| && s.handlers[h] == Handler(d.message, d.now, Bound(b, c), None)
    requires c in s.conversations && !IssuedAnywhere(s.conversations, d.exchangeId)
    ensures var v := Step(s, TakeExchange(h, d.exchangeId), config);
      && Inv(v, config) && |v.handlers| == |s.handlers| && v.handlers[h].message == d.message
      && v.handlers[h].at == DecidedBy(s.conversations[c], d, b, c)
      && v.outbox == s.outbox && v.bindings == s.bindings && v.chats == s.chats
  {
    hide Inv, C.Inv, C.Step, ReserveTx, FindByKey, P.IsLeased, RequestData.Valid, InboundData.Valid, IssuedAnywhere;
    hide NoControls;
    StepKeeps(s, TakeExchange(h, d.exchangeId), config);
    WorldAt(s, c, config);
    RequestIsValidIff(d.message, c);
    if NoControls(d.message.text) {
      P.ReserveIsDecided(s.conversations[c], RequestTo(d, c), d.now, d.exchangeId, config.conversation);
    }
  }

  /** A row of the delivery in the outbound table, for the binding. */
  predicate HasOutboundFor(s: System, k: nat, d: Delivery, b: Id) {
    k < |s.outbox.rows| && s.outbox.rows[k].delivery == d.message.delivery && s.outbox.rows[k].bindingId == b
  }

  lemma OutboundIsLinked(s: System, k: nat, config: Configuration) returns (c: Id)
    requires Inv(s, config) && k < |s.outbox.rows|
    ensures c in s.conversations && IsBound(s.bindings.rows, s.outbox.rows[k].bindingId, c)
    ensures HasAnswer(s.conversations[c], s.outbox.rows[k].exchangeId, s.outbox.rows[k].delivery)
  {
    hide Inv, C.Inv, WorldsOk, IdsApart, BindingsMatch, O.Inv, Spent, HandlersOk, TicketsApart, ChatsLogged;
    hide HasAnswer, IsBound;
    InvParts(s, config);
    var row := s.outbox.rows[k];
    assert Linked(s.conversations, s.bindings.rows, row);
    c :| c in s.conversations && IsBound(s.bindings.rows, row.bindingId, c) && HasAnswer(s.conversations[c], row.exchangeId, row.delivery);
  }

  lemma AnswerIsTheRow(w: C.World, id: Id, delivery: string, i: nat, settings: Settings)
    requires C.Inv(w, settings) && HasAnswer(w, id, delivery)
    requires i < |Rows(w)| && Rows(w)[i].key == delivery
    ensures Rows(w)[i].id == id
  {
    hide C.Inv;
    KeysDiffer(w, settings);
    var j :| 0 <= j < |Rows(w)| && Rows(w)[j].id == id;
    assert AnswersDelivery(Rows(w)[j], delivery);
  }

  /** The exchange of a delivery's outbound row is the delivery's row in the conversation. */
  lemma OutboundIsForRow(s: System, d: Delivery, b: Id, c: Id, i: nat, k: nat, config: Configuration)
    requires Inv(s, config) && IsBoundIdentity(s.bindings.rows, d.message.identity, b, c) && HasOutboundFor(s, k, d, b)
    requires c in s.conversations && i < |Rows(s.conversations[c])| && Rows(s.conversations[c])[i].key == d.message.delivery
    ensures s.outbox.rows[k].exchangeId == Rows(s.conversations[c])[i].id
  {
    hide Inv, C.Inv, B.Inv, InboundData.Valid, IsBoundIdentity, IsBound, HasAnswer, Rows;
    var e := OutboundIsLinked(s, k, config);
    BindingParts(s, config);
    BoundToOne(s.bindings, d.message.identity, b, c, e);
    WorldAt(s, c, config);
    AnswerIsTheRow(s.conversations[c], s.outbox.rows[k].exchangeId, d.message.delivery, i, config.conversation);
  }

  lemma BoundToOne(w: B.Bindings, identity: string, b: Id, c: Id, e: Id)
    requires B.Inv(w) && IsBoundIdentity(w.rows, identity, b, c) && IsBound(w.rows, b, e)
    ensures c == e
  {
    hide B.IdsKnown, B.Fenced, B.Logged, RowChecked;
    var j :| 0 <= j < |w.rows| && w.rows[j].id == b && IsFor(w.rows[j], e);
  }

  lemma KeysDiffer(w: C.World, settings: Settings)
    requires C.Inv(w, settings)
    ensures forall i, j :: 0 <= i < j < |Rows(w)| ==> Rows(w)[i].key != Rows(w)[j].key
  {
    hide C.Inv, C.Window, C.Recorded, C.Frozen, C.Columns, C.Bounded, C.AllGenuine, C.RowOfTicket, C.DistinctTickets;
    if w.conversation.Some? {
      K.InvParts(w, settings);
    }
  }

  lemma DeliveryIsAt(rows: seq<OutboundRow>, k: nat)
    requires OutboundTable(rows) && k < |rows|
    ensures IndexWhere(HasDelivery(rows[k].delivery), rows) == k
  {
    hide OutboundRow.DatabaseChecks;
    assert HasDelivery(rows[k].delivery)(rows[k]);
    forall i | 0 <= i < k ensures rows[i].delivery != rows[k].delivery {
      assert Compatible(rows[i], rows[k]);
    }
  }

  lemma OutboundAnswers(s: System, k: nat, config: Configuration)
    requires Inv(s, config) && k < |s.outbox.rows|
    ensures IndexWhere(HasDelivery(s.outbox.rows[k].delivery), s.outbox.rows) == k
    ensures OutboundOf(s.outbox.rows[k]).Ok?
  {
    hide Inv, O.Inv, OutboundTable, O.IdsKnown, O.AllFit, O.OneWinner, O.RowsTell, O.RowsAreWon, O.SendsLogged;
    hide OutboundRow.DatabaseChecks, OutboundReservation.Valid;
    OutboxOf(s, config);
    O.InvParts(s.outbox);
    DeliveryIsAt(s.outbox.rows, k);
    OutboundIsChecked(s.outbox.rows, k);
    CheckedIsReservable(s.outbox.rows[k]);
  }

  /** Reserving a completed delivery again finds its row, and asks nothing. */
  lemma RedeliveryReplies(s: System, d: Delivery, b: Id, c: Id, i: nat, config: Configuration)
    requires Inv(s, config) && IsBoundIdentity(s.bindings.rows, d.message.identity, b, c) && d.bindingId !in s.bindings.issued
    requires c in s.conversations && s.conversations[c].conversation.Some? && d.now < s.conversations[c].conversation.value.expiresAt
    requires !IssuedAnywhere(s.conversations, d.exchangeId)
    requires i < |Rows(s.conversations[c])| && AnswersDelivery(Rows(s.conversations[c])[i], d.message.delivery)
    ensures var h := |s.handlers|;
      var u := Step(AtBinding(s, d, config), TakeExchange(h, d.exchangeId), config);
      && Inv(u, config) && h < |u.handlers| && u.handlers[h].message == d.message
      && u.handlers[h].at
         == (if NoControls(d.message.text) then Replied(b, c, Rows(s.conversations[c])[i].id) else Finished(ServiceUnavailable))
      && u.outbox == s.outbox && u.bindings.rows == s.bindings.rows && u.chats == s.chats
  {
    hide Inv, C.Inv, IsBoundIdentity, FindByKey, InboundData.Valid, IssuedAnywhere, NoControls;
    hide P.IsLeased, AtBinding, C.Step, Step;
    BindingIsFound(s, d, b, c, config);
    ReservingIsDecided(AtBinding(s, d, config), |s.handlers|, d, b, c, config);
    WorldAt(s, c, config);
    KeysDiffer(s.conversations[c], config.conversation);
    FindByKeyAt(Rows(s.conversations[c]), i);
  }

  /** What a reply does next when the delivery already has an outbound row. */
  function AfterExisting(status: OutboundStatus, holder: nat): Pc {
    match status
    case Sent => Finished(Acknowledged)
    case Pending => Holds(holder)
    case _ => Finished(TerminalNoRetry)
  }

  lemma ExistingOutboundDecides(s: System, h: nat, d: Delivery, b: Id, c: Id, k: nat, config: Configuration)
    requires Inv(s, config) && h < |s.handlers| && s.handlers[h].message == d.message && HasOutboundFor(s, k, d, b)
    requires s.handlers[h].at == Replied(b, c, s.outbox.rows[k].exchangeId)
    requires ActiveFor(s.bindings.rows, b, d.message.identity) && d.outboundId !in s.outbox.issued
    ensures var v := Step(s, TakeOutbound(h, Some(d.reply), d.citations, d.outboundId), config);
      && |v.handlers| == |s.handlers|
      && v.handlers[h].at == AfterExisting(s.outbox.rows[k].status, |s.outbox.holders|)
      && v.outbox.rows == s.outbox.rows && v.outbox.sends == s.outbox.sends && v.chats == s.chats
  {
    hide Inv, InboundData.Valid, ActiveFor, Existing, ValidHmac, OutboundReservation.Valid;
    OutboundAnswers(s, k, config);
    InboundIsHmac(d.message);
    assert s.outbox.rows[|s.outbox.rows|..] == [];
  }

  /** Delivering again what was completed before: the existing outbound row decides, nothing
      is asked and nothing is sent. SENT is acknowledged, PENDING is taken up again, and
      anything else is not retried; a text that cannot be read is refused. */
  lemma RedeliveryIsDecided(s: System, d: Delivery, b: Id, c: Id, i: nat, k: nat, config: Configuration)
    requires Inv(s, config) && IsBoundIdentity(s.bindings.rows, d.message.identity, b, c) && d.bindingId !in s.bindings.issued
    requires c in s.conversations && s.conversations[c].conversation.Some? && d.now < s.conversations[c].conversation.value.expiresAt
    requires !IssuedAnywhere(s.conversations, d.exchangeId)
    requires i < |Rows(s.conversations[c])| && AnswersDelivery(Rows(s.conversations[c])[i], d.message.delivery)
    requires HasOutboundFor(s, k, d, b) && d.outboundId !in s.outbox.issued
    ensures var h := |s.handlers|;
      var u := Step(AtBinding(s, d, config), TakeExchange(h, d.exchangeId), config);
      var v := Step(u, TakeOutbound(h, Some(d.reply), d.citations, d.outboundId), config);
      && h < |v.handlers|
      && v.handlers[h].at
         == (if NoControls(d.message.text) then AfterExisting(s.outbox.rows[k].status, |s.outbox.holders|)
             else Finished(ServiceUnavailable))
      && v.outbox.rows == s.outbox.rows && v.outbox.sends == s.outbox.sends && v.chats == s.chats
  {
    hide Inv, IsBoundIdentity, IssuedAnywhere, ActiveFor, AtBinding, Step, NoControls;
    RedeliveryReplies(s, d, b, c, i, config);
    OutboundIsForRow(s, d, b, c, i, k, config);
    BoundIsActive(s, d, b, c, config);
    var u := Step(AtBinding(s, d, config), TakeExchange(|s.handlers|, d.exchangeId), config);
    if NoControls(d.message.text) {
      ExistingOutboundDecides(u, |s.handlers|, d, b, c, k, config);
    } else {
      FinishedStays(u, |s.handlers|, TakeOutbound(|s.handlers|, Some(d.reply), d.citations, d.outboundId), config);
    }
  }
}
