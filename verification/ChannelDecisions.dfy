/** Where every await of `ChannelService.handle_inbound` (src/legal_chatbot/channels/service.py)
    takes its handler, and what it writes, told by the rows the handler finds. */
module ChannelDecisions {
  import opened Wrappers
  import opened Sequences
  import opened ChatModels
  import opened ConversationModels
  import opened ConversationFacts
  import opened ChannelBinding
  import opened ChannelOutbox
  import opened ChannelSystem
  import opened ChannelSystemInvariant
  import opened ChannelSystemSteps
  import C = ConversationProtocol
  import K = ConversationTheorems
  import P = ConversationProgress
  import B = ChannelBindingProtocol
  import O = ChannelOutboxProtocol
  import OT = ChannelOutboxTheorems

  // ----- the binding -----

  /** A row that waits to be activated under this lease, and nothing else. */
  predicate Awaits(b: BindingRow, id: Id, identity: string, lease: Time) {
    && b.id == id && b.identity == identity && b.status.Binding? && b.lease == Some(lease)
    && b.conversationId.None? && b.errorCode.None? && b.activatedAt.None?
  }

  predicate IsUnmet(rows: seq<BindingRow>, identity: string) {
    forall k :: 0 <= k < |rows| ==> rows[k].identity != identity
  }

  /** What an arrived handler does about the row of its identity: an active one binds it, a
      leased one makes it wait, and any other it takes over under a lease of its own. */
  ghost predicate TakesRow(s: System, v: System, h: nat, k: nat, config: Configuration)
    requires h < |s.handlers| && h < |v.handlers| && k < |s.bindings.rows|
  {
    var b, now, at := s.bindings.rows[k], s.handlers[h].now, v.handlers[h].at;
    if b.status.Active? then b.conversationId.Some? && at == Bound(b.id, b.conversationId.value) && v.bindings.rows == s.bindings.rows
    else if b.status.Binding? && b.lease.Some? && b.lease.value > now then
      at == Finished(StillProcessing) && v.bindings.rows == s.bindings.rows
    else
      && at == HasToken(|s.bindings.tokens|) && |v.bindings.rows| == |s.bindings.rows|
      && Awaits(v.bindings.rows[k], b.id, b.identity, now + config.leaseSeconds)
      && forall i :: 0 <= i < |s.bindings.rows| && i != k ==> v.bindings.rows[i] == s.bindings.rows[i]
  }

  /** ... and what it does when there is none: it inserts one. */
  ghost predicate TakesNew(s: System, v: System, h: nat, freshId: Id, config: Configuration)
    requires h < |s.handlers| && h < |v.handlers|
  {
    var n := |s.bindings.rows|;
    && v.handlers[h].at == HasToken(|s.bindings.tokens|)
    && |v.bindings.rows| == n + 1 && v.bindings.rows[..n] == s.bindings.rows
    && Awaits(v.bindings.rows[n], freshId, s.handlers[h].message.identity, s.handlers[h].now + config.leaseSeconds)
  }

  lemma ArrivalIsDecided(s: System, h: nat, freshId: Id, config: Configuration)
    requires Inv(s, config) && h < |s.handlers| && s.handlers[h].at.Arrived? && freshId !in s.bindings.issued
    ensures var v := Step(s, TakeBinding(h, freshId), config);
      && |v.handlers| == |s.handlers|
      && (IsUnmet(s.bindings.rows, s.handlers[h].message.identity) ==> TakesNew(s, v, h, freshId, config))
      && forall k :: 0 <= k < |s.bindings.rows| && s.bindings.rows[k].identity == s.handlers[h].message.identity ==>
           TakesRow(s, v, h, k, config)
  {
    hide Inv, ValidHmac, B.Inv, ValidSafeErrorCode;
    TableOf(s, config);
    var rows, identity := s.bindings.rows, s.handlers[h].message.identity;
    assert ValidHmac(identity) by { IdentityIsHmac(s.handlers[h].message); }
    forall k | 0 <= k < |rows| && rows[k].identity == identity ensures IndexWhere(HasIdentity(identity), rows) == k {
      IdentityIsAt(rows, k, s.bindings.live);
    }
    forall k | 0 <= k < |rows| && rows[k].identity == identity && rows[k].status.Active? ensures rows[k].conversationId.Some? {
      RowIsChecked(rows, k, s.bindings.live);
    }
    hide BindingTable;
  }

  lemma IdentityIsHmac(m: Inbound)
    ensures ValidHmac(m.identity) && ValidHmac(m.delivery)
  {
    hide ValidHmac;
  }

  lemma TableOf(s: System, config: Configuration)
    requires Inv(s, config)
    ensures BindingTable(s.bindings.rows, s.bindings.live)
  {
    hide Inv, WorldsOk, IdsApart, O.Inv, AllLinked, Spent, HandlersOk, TicketsApart, ChatsLogged, BindingTable;
    hide B.IdsKnown, B.Fenced, B.Logged;
    InvParts(s, config);
    B.InvParts(s.bindings);
  }

  lemma IdentityIsAt(rows: seq<BindingRow>, k: nat, live: set<Id>)
    requires BindingTable(rows, live) && k < |rows|
    ensures IndexWhere(HasIdentity(rows[k].identity), rows) == k
  {
    hide RowChecked, ShareConversation;
    assert HasIdentity(rows[k].identity)(rows[k]);
  }

  /** The row is still under the lease of this token. */
  predicate IsHeld(b: BindingRow, token: BindingReservation, now: Time) {
    b.id == token.bindingId && b.status.Binding? && b.lease.Some? && b.lease == token.lease && b.lease.value > now
  }

  predicate CanBeBound(rows: seq<BindingRow>, live: set<Id>, c: Id) {
    c in live && forall i :: 0 <= i < |rows| && rows[i].status.Active? ==> rows[i].conversationId != Some(c)
  }

  /** The row becomes the active binding of the conversation. */
  predicate BecomesActive(b: BindingRow, was: BindingRow, c: Id, now: Time) {
    && b.id == was.id && b.identity == was.identity && b.status.Active? && b.conversationId == Some(c)
    && b.lease.None? && b.errorCode.None? && b.activatedAt == Some(now)
  }

  /** Activating binds the handler exactly when its row is still held under its token, the
      conversation is there and nobody else's, and the commit is reported; otherwise it gives
      up. A commit that is not reported is a commit. */
  lemma ActivatingIsDecided(s: System, h: nat, doubted: bool, config: Configuration)
    requires Inv(s, config) && h < |s.handlers| && s.handlers[h].at.HasConversation?
    requires s.handlers[h].at.token < |s.bindings.tokens|
    ensures var v := Step(s, ActivateFor(h, doubted), config);
      var token, c, now := s.bindings.tokens[s.handlers[h].at.token], s.handlers[h].at.conversationId, s.handlers[h].now;
      && |v.handlers| == |s.handlers| && |v.bindings.rows| == |s.bindings.rows|
      && (if CanBeBound(s.bindings.rows, s.bindings.live, c)
             && (exists k :: 0 <= k < |s.bindings.rows| && IsHeld(s.bindings.rows[k], token, now))
          then v.handlers[h].at == if doubted then GivingUp(s.handlers[h].at.token) else Bound(token.bindingId, c)
          else v.handlers[h].at == GivingUp(s.handlers[h].at.token))
      && forall k :: 0 <= k < |s.bindings.rows| ==>
           if CanBeBound(s.bindings.rows, s.bindings.live, c) && IsHeld(s.bindings.rows[k], token, now)
           then BecomesActive(v.bindings.rows[k], s.bindings.rows[k], c, now)
           else v.bindings.rows[k] == s.bindings.rows[k]
  {
    hide Inv, ValidHmac, B.Inv, ValidSafeErrorCode, BindingTable;
    var token := s.bindings.tokens[s.handlers[h].at.token];
    TableOf(s, config);
    TokensAreTokens(s, s.handlers[h].at.token, config);
    forall k | 0 <= k < |s.bindings.rows| && s.bindings.rows[k].id == token.bindingId
      ensures IndexWhere(HasBindingId(token.bindingId), s.bindings.rows) == k
    {
      IdIsAt(s.bindings.rows, k, s.bindings.live);
    }
  }

  lemma TokensAreTokens(s: System, t: nat, config: Configuration)
    requires Inv(s, config) && t < |s.bindings.tokens|
    ensures IsToken(s.bindings.tokens[t])
  {
    hide Inv, WorldsOk, IdsApart, O.Inv, AllLinked, Spent, HandlersOk, TicketsApart, ChatsLogged, BindingTable;
    hide B.IdsKnown, B.Logged;
    InvParts(s, config);
  }

  // ----- the exchange -----

  /** The chat port is asked once for the exchange of the handler's ticket, and what it returns
      stands if it is a valid result; anything else becomes the fixed refusal. */
  lemma AskingIsDecided(s: System, h: nat, port: Option<ChatResult>, config: Configuration)
    requires h < |s.handlers| && s.handlers[h].at.Asking? && HoldsTicket(s, h)
    ensures var v := Step(s, AskChat(h, port), config);
      var at, won := s.handlers[h].at, s.handlers[h].won.value;
      && |v.handlers| == |s.handlers|
      && v.handlers[h].at == Answering(at.bindingId, at.conversationId,
           if port.Some? && port.value.Valid() then port.value
           else ChatResult(Refusal, RetrievalFailure, GENERIC_REFUSAL_TEXT, None, [], None, None, None))
      && v.chats == s.chats + [Chat(h, s.conversations[won.conversationId].tickets[won.ticket].reservation.exchangeId)]
  {
    hide ChatResult.Valid, GENERIC_REFUSAL_TEXT;
  }

  lemma CompletingMoves(s: System, h: nat, config: Configuration)
    requires h < |s.handlers| && s.handlers[h].at.Answering? && HoldsTicket(s, h)
    ensures var v := Step(s, CompleteExchange(h), config);
      var won, at := s.handlers[h].won.value, s.handlers[h].at;
      var w := s.conversations[won.conversationId];
      && |v.handlers| == |s.handlers|
      && v.handlers[h].at ==
           match C.CompleteWith(w.conversation, w.tickets[won.ticket], at.chat, s.handlers[h].now, config.conversation).result
           case Ok(_) => Replied(at.bindingId, at.conversationId, w.tickets[won.ticket].reservation.exchangeId)
           case Err(code) =>
             Finished(if code.PersistenceFailure? then ServiceUnavailable
                      else if code.Busy? || code.InProgress? then StillProcessing else TerminalNoRetry)
  {
    hide C.CompleteWith, C.Step, Orphans, Existing, O.Step, ChatResult.Valid;
  }

  lemma AnswerIsValid(s: System, h: nat, config: Configuration)
    requires Inv(s, config) && h < |s.handlers| && s.handlers[h].at.Answering?
    ensures s.handlers[h].at.chat.Valid()
  {
    hide Inv, ChatResult.Valid, BoundAt, OwnsTicket, WonOk;
    HandlerAt(s, h, config);
  }

  /** How a handler that has its answer goes on: refused for a plan that is too long and for a
      result of the wrong shape; not retried when its exchange was abandoned, folded away or
      purged, when the conversation or the lease has run out, and for a control character in
      the result; and otherwise it replies. */
  lemma CompletingIsDecided(s: System, h: nat, config: Configuration)
    requires Inv(s, config) && h < |s.handlers| && s.handlers[h].at.Answering? && HoldsTicket(s, h)
    ensures var v := Step(s, CompleteExchange(h), config);
      var won, at, now := s.handlers[h].won.value, s.handlers[h].at, s.handlers[h].now;
      var w := s.conversations[won.conversationId];
      var t := w.tickets[won.ticket];
      && |v.handlers| == |s.handlers|
      && v.handlers[h].at ==
           if |t.reservation.plan.exchangeIds| > RETAINED_EXCHANGE_LIMIT then Finished(ServiceUnavailable)
           else if !K.StillProcessing(w, won.ticket) then Finished(TerminalNoRetry)
           else if w.conversation.value.expiresAt <= now || !P.IsLeased(C.Newest(Rows(w)), now) then Finished(TerminalNoRetry)
           else if !FitsShape(at.chat) then Finished(ServiceUnavailable)
           else if !NoControls(at.chat.answer) then Finished(TerminalNoRetry)
           else Replied(at.bindingId, at.conversationId, t.reservation.exchangeId)
  {
    hide Inv, C.Inv, C.CompleteWith, Step, ChatResult.Valid, FitsShape, NoControls, P.IsLeased, PersistedRecord;
    hide K.StillProcessing;
    var won := s.handlers[h].won.value;
    var w := s.conversations[won.conversationId];
    CompletingMoves(s, h, config);
    AnswerIsValid(s, h, config);
    WorldAt(s, won.conversationId, config);
    RowsOfProcessing(w, won.ticket);
    P.CompletionIsDecided(w, won.ticket, s.handlers[h].at.chat, s.handlers[h].now, config.conversation);
  }

  lemma RowsOfProcessing(w: C.World, ticket: nat)
    requires ticket < |w.tickets|
    ensures K.StillProcessing(w, ticket) ==> w.conversation.Some? && Rows(w) != []
  {
  }

  // ----- the reply -----

  /** A pending row without error for this exchange and delivery. */
  predicate AwaitsSending(r: OutboundRow, id: Id, bindingId: Id, exchangeId: Id, delivery: string) {
    && r.id == id && r.bindingId == bindingId && r.exchangeId == exchangeId && r.delivery == delivery
    && r.status.Pending? && r.attempts == 0 && r.errorCode.None? && r.sendingAt.None? && r.completedAt.None?
  }

  predicate IsActiveFor(bindings: seq<BindingRow>, bindingId: Id, identity: string) {
    exists k :: 0 <= k < |bindings| && bindings[k].id == bindingId && bindings[k].status.Active? && bindings[k].identity == identity
  }

  lemma ActiveForIff(bindings: seq<BindingRow>, bindingId: Id, identity: string, live: set<Id>)
    requires BindingTable(bindings, live)
    ensures ActiveFor(bindings, bindingId, identity) <==> IsActiveFor(bindings, bindingId, identity)
  {
    hide BindingTable;
    if IsActiveFor(bindings, bindingId, identity) {
      var k :| 0 <= k < |bindings| && bindings[k].id == bindingId && bindings[k].status.Active? && bindings[k].identity == identity;
      IdIsAt(bindings, k, live);
    }
  }

  predicate IsThere(conversations: map<Id, C.World>, exchangeId: Id) {
    exists c, i :: c in conversations && 0 <= i < |Rows(conversations[c])| && Rows(conversations[c])[i].id == exchangeId
  }

  lemma ThereIff(conversations: map<Id, C.World>, exchangeId: Id)
    ensures exchangeId in Existing(conversations) <==> IsThere(conversations, exchangeId)
  {
    hide Rows;
    if IsThere(conversations, exchangeId) {
      var c, i :| c in conversations && 0 <= i < |Rows(conversations[c])| && Rows(conversations[c])[i].id == exchangeId;
      assert exchangeId in RowIds(conversations[c]);
    }
  }

  predicate IsTaken(rows: seq<OutboundRow>, bindingId: Id, exchangeId: Id) {
    exists k :: 0 <= k < |rows| && rows[k].bindingId == bindingId && rows[k].exchangeId == exchangeId
  }

  lemma TakenIff(rows: seq<OutboundRow>, bindingId: Id, exchangeId: Id)
    ensures PairTaken(rows, bindingId, exchangeId) <==> IsTaken(rows, bindingId, exchangeId)
  {
  }

  predicate IsUnsent(rows: seq<OutboundRow>, delivery: string) {
    forall k :: 0 <= k < |rows| ==> rows[k].delivery != delivery
  }

  /** How a handler with a reply goes on when there is an outbound row of its delivery. */
  predicate MeetsRow(at: Pc, r: OutboundRow, bindingId: Id, exchangeId: Id, holders: nat) {
    if r.bindingId != bindingId || r.exchangeId != exchangeId then at == Finished(ServiceUnavailable)
    else match r.status
      case Sent => at == Finished(Acknowledged)
      case Pending => at == Holds(holders)
      case _ => at == Finished(TerminalNoRetry)
  }

  /** A reply that cannot be formatted, or whose binding is not active, is refused. An outbound
      row of the delivery decides by its status; and without one a row is inserted, unless the
      exchange is gone or was sent under another delivery. */
  lemma ReplyingIsDecided(s: System, h: nat, reply: Option<string>, citations: nat, freshId: Id, config: Configuration)
    requires Inv(s, config) && h < |s.handlers| && s.handlers[h].at.Replied? && freshId !in s.outbox.issued
    ensures var v := Step(s, TakeOutbound(h, reply, citations, freshId), config);
      var at, m := s.handlers[h].at, s.handlers[h].message;
      var rows := s.outbox.rows;
      && |v.handlers| == |s.handlers|
      && if reply.None? || !IsActiveFor(s.bindings.rows, at.bindingId, m.identity)
         then v.handlers[h].at == Finished(ServiceUnavailable) && v.outbox.rows == rows
         else if !IsUnsent(rows, m.delivery)
         then
           && v.outbox.rows == rows
           && forall k :: 0 <= k < |rows| && rows[k].delivery == m.delivery ==>
                MeetsRow(v.handlers[h].at, rows[k], at.bindingId, at.exchangeId, |s.outbox.holders|)
         else if IsTaken(rows, at.bindingId, at.exchangeId) || !IsThere(s.conversations, at.exchangeId)
         then v.handlers[h].at == Finished(ServiceUnavailable) && v.outbox.rows == rows
         else
           && v.handlers[h].at == Holds(|s.outbox.holders|)
           && |v.outbox.rows| == |rows| + 1 && v.outbox.rows[..|rows|] == rows
           && AwaitsSending(v.outbox.rows[|rows|], freshId, at.bindingId, at.exchangeId, m.delivery)
  {
    hide Inv, InboundData.Valid, ActiveFor, Existing, ValidHmac, OutboundReservation.Valid, PairTaken;
    hide OutboundRow.DatabaseChecks, OutboundOf, OutboundTable, BindingTable, IsActiveFor, IsThere, IsTaken;
    var m := s.handlers[h].message;
    var rows := s.outbox.rows;
    TableOf(s, config);
    ActiveForIff(s.bindings.rows, s.handlers[h].at.bindingId, m.identity, s.bindings.live);
    ThereIff(s.conversations, s.handlers[h].at.exchangeId);
    TakenIff(rows, s.handlers[h].at.bindingId, s.handlers[h].at.exchangeId);
    IdentityIsHmac(m);
    OutboundTableOf(s, config);
    var k := IndexWhere(HasDelivery(m.delivery), rows);
    if k < |rows| {
      assert rows[k].delivery == m.delivery;
      forall i | 0 <= i < |rows| && rows[i].delivery == m.delivery ensures i == k {
        OT.DeliveryIsUnique(rows, i);
      }
      OutboundIsChecked(rows, k);
      RowAnswers(rows[k]);
    } else {
      NewAnswers(NewOutbound(freshId, s.handlers[h].at.bindingId,
        OutboundMessage(m.identity, m.delivery, s.handlers[h].at.exchangeId, if reply.Some? then reply.value else "", citations)));
    }
  }

  lemma OutboundTableOf(s: System, config: Configuration)
    requires Inv(s, config)
    ensures OutboundTable(s.outbox.rows)
  {
    hide Inv, WorldsOk, IdsApart, BindingsMatch, O.Inv, AllLinked, Spent, HandlersOk, TicketsApart, ChatsLogged, OutboundTable;
    InvParts(s, config);
    OT.InvTable(s.outbox);
  }

  lemma RowAnswers(row: OutboundRow)
    requires row.DatabaseChecks() && !row.status.Abandoned?
    ensures OutboundOf(row).Ok? && OT.AnswersFor(OutboundOf(row).value.status, row)
  {
    hide ValidSafeErrorCode, ValidHmac;
    CheckedIsReservable(row);
  }

  lemma NewAnswers(row: OutboundRow)
    requires row.status.Pending? && row.attempts == 0 && row.errorCode.None?
    ensures OutboundOf(row).Ok? && OutboundOf(row).value.status.OutReserved?
  {
  }

  // ----- the send -----

  predicate OtherSends(rows: seq<OutboundRow>, bindingId: Id) {
    exists i :: 0 <= i < |rows| && rows[i].bindingId == bindingId && rows[i].status.Sending?
  }

  /** The row is being sent, once, since now. */
  predicate BecomesSending(r: OutboundRow, was: OutboundRow, now: Time) {
    && O.SameOutbound(was, r) && r.status.Sending? && r.attempts == 1 && r.sendingAt == Some(now)
    && r.errorCode == was.errorCode && r.completedAt == was.completedAt
  }

  /** Marking owns the send exactly when the row is still pending and no row of its binding is
      being sent; a binding that sends, or a row that is gone, refuses; a row that another
      handler took is not retried. */
  lemma MarkingIsDecided(s: System, h: nat, config: Configuration)
    requires Inv(s, config) && h < |s.handlers| && s.handlers[h].at.Holds? && s.handlers[h].at.holder < |s.outbox.holders|
    requires s.outbox.holders[s.handlers[h].at.holder].phase.Holding?
    ensures var v := Step(s, MarkFor(h), config);
      var holder := s.handlers[h].at.holder;
      var id := s.outbox.holders[holder].reservation.outboundId;
      var rows := s.outbox.rows;
      && |v.handlers| == |s.handlers| && |v.outbox.rows| == |rows|
      && ((forall k :: 0 <= k < |rows| ==> rows[k].id != id) ==> v.handlers[h].at == Finished(ServiceUnavailable))
      && forall k :: 0 <= k < |rows| ==>
           if rows[k].id != id then v.outbox.rows[k] == rows[k]
           else if !rows[k].status.Pending? then v.handlers[h].at == Finished(TerminalNoRetry) && v.outbox.rows[k] == rows[k]
           else if OtherSends(rows, rows[k].bindingId)
           then v.handlers[h].at == Finished(ServiceUnavailable) && v.outbox.rows[k] == rows[k]
           else v.handlers[h].at == Owns(holder) && BecomesSending(v.outbox.rows[k], rows[k], s.handlers[h].now)
  {
    hide Inv, OutboundReservation.Valid, OutboundRow.DatabaseChecks, OutboundTable, OutboundOf;
    var holder := s.outbox.holders[s.handlers[h].at.holder];
    var id := holder.reservation.outboundId;
    var rows := s.outbox.rows;
    OutboundTableOf(s, config);
    HolderFits(s, s.handlers[h].at.holder, config);
    var k := IndexWhere(HasOutboundId(id), rows);
    forall i | 0 <= i < |rows| && rows[i].id == id ensures i == k {
      assert HasOutboundId(id)(rows[i]);
      OutboundIsChecked(rows, i);
    }
    if k < |rows| {
      OutboundIsChecked(rows, k);
      RowAnswers(rows[k]);
      PendingIsUntried(rows[k]);
      assert O.Fits(holder, rows[k]);
    }
  }

  lemma PendingIsUntried(row: OutboundRow)
    requires row.DatabaseChecks()
    ensures row.status.Pending? ==> row.attempts == 0
  {
    hide ValidHmac, ValidSafeErrorCode;
  }

  lemma HolderFits(s: System, holder: nat, config: Configuration)
    requires Inv(s, config) && holder < |s.outbox.holders|
    ensures s.outbox.holders[holder].reservation.status.OutReserved?
    ensures forall k :: 0 <= k < |s.outbox.rows| ==> O.Fits(s.outbox.holders[holder], s.outbox.rows[k])
  {
    hide Inv, WorldsOk, IdsApart, BindingsMatch, O.Inv, AllLinked, Spent, HandlersOk, TicketsApart, ChatsLogged;
    hide OutboundTable, O.IdsKnown, O.OneWinner, O.RowsTell, O.RowsAreWon, O.SendsLogged, O.Fits;
    InvParts(s, config);
    O.InvParts(s.outbox);
  }

  /** Recording what the one call returned: a delivered message is acknowledged, any other is
      not retried, and a row that is gone, or a commit that is not reported, refuses. */
  lemma RecordingIsDecided(s: System, h: nat, doubted: bool, config: Configuration)
    requires Inv(s, config) && h < |s.handlers| && s.handlers[h].at.CalledOnce? && s.handlers[h].at.holder < |s.outbox.holders|
    requires s.outbox.holders[s.handlers[h].at.holder].phase.Called?
    ensures var v := Step(s, RecordFor(h, doubted), config);
      var holder := s.outbox.holders[s.handlers[h].at.holder];
      var stands := exists k :: 0 <= k < |s.outbox.rows| && s.outbox.rows[k].id == holder.reservation.outboundId;
      && |v.handlers| == |s.handlers|
      && v.handlers[h].at ==
           if doubted || !stands then Finished(ServiceUnavailable)
           else if holder.phase.receipt.status.Delivered? then Finished(Acknowledged)
           else Finished(TerminalNoRetry)
  {
    hide Inv, O.Inv, CompleteOutbound, O.Step;
    assert O.Inv(s.outbox) by {
      hide WorldsOk, IdsApart, BindingsMatch, AllLinked, Spent, HandlersOk, TicketsApart, ChatsLogged;
      InvParts(s, config);
    }
    OT.RecordingIsFaithful(s.outbox, s.handlers[h].at.holder, s.handlers[h].now);
  }

  /** A repository call that raises: a handler that still has its token gives up its binding
      first; any other answers that the service is unavailable. */
  lemma FailingIsDecided(s: System, h: nat, config: Configuration)
    requires h < |s.handlers| && !s.handlers[h].at.Finished?
    ensures var v := Step(s, PortFails(h), config);
      && |v.handlers| == |s.handlers|
      && (s.handlers[h].at.HasToken? || s.handlers[h].at.HasConversation? ==> v.handlers[h].at == GivingUp(s.handlers[h].at.token))
      && (!s.handlers[h].at.HasToken? && !s.handlers[h].at.HasConversation? ==> v.handlers[h].at == Finished(ServiceUnavailable))
      && v.bindings == s.bindings && v.outbox == s.outbox && v.conversations == s.conversations && v.chats == s.chats
  {
  }

  /** The row is failed, with the code that says so. */
  predicate BecomesFailed(b: BindingRow, was: BindingRow) {
    && b.id == was.id && b.identity == was.identity && b.status.Failed? && b.errorCode == Some("BINDING_ACTIVATION_FAILED")
    && b.conversationId.None? && b.lease.None? && b.activatedAt.None?
  }

  lemma GivingUpCodeIsSafe()
    ensures ValidSafeErrorCode("BINDING_ACTIVATION_FAILED")
  {
  }

  /** Giving up fails the row exactly while it is held under the handler's token, and always
      answers that the service is unavailable. */
  lemma GivingUpIsDecided(s: System, h: nat, config: Configuration)
    requires Inv(s, config) && h < |s.handlers| && s.handlers[h].at.GivingUp? && s.handlers[h].at.token < |s.bindings.tokens|
    ensures var v := Step(s, FailFor(h), config);
      var token, now := s.bindings.tokens[s.handlers[h].at.token], s.handlers[h].now;
      && |v.handlers| == |s.handlers| && v.handlers[h].at == Finished(ServiceUnavailable)
      && |v.bindings.rows| == |s.bindings.rows|
      && forall k :: 0 <= k < |s.bindings.rows| ==>
           if IsHeld(s.bindings.rows[k], token, now) then BecomesFailed(v.bindings.rows[k], s.bindings.rows[k])
           else v.bindings.rows[k] == s.bindings.rows[k]
  {
    hide Inv, ValidHmac, B.Inv, BindingTable, ValidSafeErrorCode;
    var token := s.bindings.tokens[s.handlers[h].at.token];
    TableOf(s, config);
    TokensAreTokens(s, s.handlers[h].at.token, config);
    GivingUpCodeIsSafe();
    forall k | 0 <= k < |s.bindings.rows| && s.bindings.rows[k].id == token.bindingId
      ensures IndexWhere(HasBindingId(token.bindingId), s.bindings.rows) == k
    {
      IdIsAt(s.bindings.rows, k, s.bindings.live);
    }
  }

  // ----- the cascade -----

  predicate HasBinding(bindings: seq<BindingRow>, id: Id) {
    exists k :: 0 <= k < |bindings| && bindings[k].id == id
  }

  lemma HasBindingIff(bindings: seq<BindingRow>, id: Id)
    ensures HasBinding(bindings, id) <==> IndexWhere(HasBindingId(id), bindings) < |bindings|
  {
    if HasBinding(bindings, id) {
      var k :| 0 <= k < |bindings| && bindings[k].id == id;
      assert HasBindingId(id)(bindings[k]);
    }
  }

  /** The cascade of the foreign keys deletes exactly the outbound rows whose exchange or whose
      binding is gone. */
  lemma CascadeIsExact(s: System, k: nat)
    requires OutboundTable(s.outbox.rows) && k < |s.outbox.rows|
    ensures var r := s.outbox.rows[k];
      r in Cascaded(s).outbox.rows <==> IsThere(s.conversations, r.exchangeId) && HasBinding(s.bindings.rows, r.bindingId)
    ensures forall r :: r in Cascaded(s).outbox.rows ==> r in s.outbox.rows
  {
    hide OutboundTable, Existing, IsThere, HasBinding, OutboundRow.DatabaseChecks;
    var rows := s.outbox.rows;
    var gone := Orphans(rows, Existing(s.conversations), s.bindings.rows);
    WithoutOutboundMembers(rows, gone);
    ThereIff(s.conversations, rows[k].exchangeId);
    HasBindingIff(s.bindings.rows, rows[k].bindingId);
    OutboundIsChecked(rows, k);
    if rows[k].id in gone {
      var i :| 0 <= i < |rows| && (rows[i].exchangeId !in Existing(s.conversations)
        || IndexWhere(HasBindingId(rows[i].bindingId), s.bindings.rows) == |s.bindings.rows|) && rows[i].id == rows[k].id;
      assert i == k;
    }
  }
}
