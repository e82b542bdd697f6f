/** A handler that stops between mark_sending and complete: the next message of its
    identity is refused. */
module ChannelStopped {
  import opened ChatModels
  import opened ConversationModels
  import opened ConversationStore
  import opened ConversationFacts
  import opened ConversationService
  import opened ChannelBinding
  import opened ChannelOutbox
  import opened ChannelSystem
  import opened ChannelSystemFacts
  import opened ChannelSystemInvariant
  import opened ChannelProgress
  import opened ChannelFirstContact
  import opened ChannelEffects
  import opened ChannelForgetting
  import C = ConversationProtocol
  import P = ConversationProgress

  /** The first message of an identity up to the point where its handler may send. */
  function Stopping(h: nat, d: Delivery, c: Id): seq<SystemEvent> {
    Meeting(h, d, c) + Reserving(h, d) + [MarkFor(h)]
  }

  /** Another message of the same identity, within the retention, with ids of its own. */
  ghost predicate Follows(s: System, d: Delivery, e: Delivery, config: Configuration) {
    && e.message.identity == d.message.identity && e.message.delivery != d.message.delivery
    && e.now < d.now + config.conversation.retentionSeconds
    && e.bindingId !in s.bindings.issued && e.bindingId != d.bindingId
    && e.outboundId !in s.outbox.issued && e.outboundId != d.outboundId
    && !IssuedAnywhere(s.conversations, e.exchangeId) && e.exchangeId != d.exchangeId
    && NoOutbound(s.outbox, e.message.delivery)
    && NoControls(e.message.text) && Storable(e.Chat())
  }

  /** The world of the two messages: `u` is where the first handler stopped. */
  ghost predicate StoppedAt(s: System, u: System, d: Delivery, c: Id, config: Configuration) {
    && Inv(u, config) && |u.handlers| == |s.handlers| + 1 && u.handlers[|s.handlers|].at.Owns?
    && RequestData(c, d.message.delivery, d.message.text).Valid()
    && u.conversations == s.conversations[c := ServedWorld(C.Initial(c, d.now, config.conversation), d, c, config.conversation)]
    && u.bindings.rows == s.bindings.rows + [Activated(Leased(d, config), c, d.now)]
    && u.bindings.issued == s.bindings.issued + {d.bindingId} && u.outbox.issued == s.outbox.issued + {d.outboundId}
    && u.outbox.sends == s.outbox.sends
    && Marked(s.outbox.rows, u.outbox.rows, d)
  }

  /** The rows of before, as many as are left, and the new one, which is SENDING. */
  predicate Marked(before: seq<OutboundRow>, rows: seq<OutboundRow>, d: Delivery) {
    && rows != [] && C.Newest(rows) == MarkedSending(NewRow(d, d.bindingId), d.now)
    && forall k :: 0 <= k < |rows| - 1 ==> exists i :: 0 <= i < |before| && before[i].delivery == rows[k].delivery
  }

  lemma MarkingKeepsDeliveries(s: System, h: nat, config: Configuration)
    ensures var v := Step(s, MarkFor(h), config);
      |v.outbox.rows| == |s.outbox.rows| && forall k :: 0 <= k < |s.outbox.rows| ==> v.outbox.rows[k].delivery == s.outbox.rows[k].delivery
  {
    hide BindingSends, InboundData.Valid, OutboundReservation.Valid;
  }

  lemma RowsAreMarked(before: seq<OutboundRow>, gone: set<Id>, rows: seq<OutboundRow>, d: Delivery)
    requires var left := WithoutOutbound(before, gone);
      && |rows| == |left| + 1 && rows[|left|] == MarkedSending(NewRow(d, d.bindingId), d.now)
      && forall k :: 0 <= k < |left| ==> rows[k].delivery == left[k].delivery
    ensures Marked(before, rows, d)
  {
    WithoutOutboundMembers(before, gone);
    var left := WithoutOutbound(before, gone);
    forall k | 0 <= k < |rows| - 1 ensures exists i :: 0 <= i < |before| && before[i].delivery == rows[k].delivery {
      assert left[k] in before;
    }
  }

  lemma HandlerStops(s: System, d: Delivery, c: Id, config: Configuration)
    requires Inv(s, config) && CanMeet(s, d, c) && IsServable(s, d)
    ensures StoppedAt(s, Run(s, Stopping(|s.handlers|, d, c), config), d, c, config)
  {
    hide Inv, Run, Step, Met, CanFinish, IsStuck, RequestData.Valid, InboundData.Valid, ChatResult.Valid, Storable;
    hide IsUnknown, IssuedAnywhere, NoOutbound, ActiveFor, C.Initial, ServedWorld, RepliedFrom, Cascade, BindingSends, Marked;
    hide NoControls, Answered;
    var h, m, b := |s.handlers|, Met(s, d, c, config), d.bindingId;
    RequestIsValidIff(d.message, c);
    ContactRun(s, d, c, config);
    RunConcat(s, Meeting(h, d, c) + Reserving(h, d), [MarkFor(h)], config);
    ContactCanFinish(s, d, c, config);
    IdentityIsMet(s, d, c, config);
    ReservingEffects(m, h, d, b, c, config);
    BlockedIffStuck(m, h, d, b, c, config);
    var u, rows := WithOutbound(m, h, d, config), RepliedFrom(m, h, d, config).outbox.rows;
    RunOne(u, MarkFor(h), config);
    MarkingDecides(u, h, |m.outbox.holders|, rows, d, b, config);
    OutboxEventFrame(u, h, MarkFor(h), config);
    MarkingKeepsDeliveries(u, h, config);
    var v := Step(u, MarkFor(h), config);
    assert forall k :: 0 <= k < |rows| ==> v.outbox.rows[k].delivery == rows[k].delivery;
    RowsAreMarked(s.outbox.rows, Cascade(m, RepliedFrom(m, h, d, config).conversations), v.outbox.rows, d);
    var w := C.Initial(c, d.now, config.conversation);
    assert s.conversations[c := w][c := ServedWorld(w, d, c, config.conversation)] == s.conversations[c := ServedWorld(w, d, c, config.conversation)];
  }

  // ----- the next message -----

  lemma NewlyBound(rows: seq<BindingRow>, d: Delivery, c: Id, config: Configuration)
    requires IsUnknown(rows, d.message.identity)
    ensures IsBoundIdentity(rows + [Activated(Leased(d, config), c, d.now)], d.message.identity, d.bindingId, c)
  {
    hide InboundData.Valid;
    var row := Activated(Leased(d, config), c, d.now);
    UnknownIsNotFound(rows, d.message.identity);
    assert HasIdentity(d.message.identity)((rows + [row])[|rows|]);
  }

  /** A conversation with one completed exchange serves another delivery. */
  lemma OneServedIsIdle(w: C.World, d: Delivery, e: Delivery, c: Id, config: Configuration)
    requires IsLive(w) && e.now < w.conversation.value.expiresAt
    requires |Rows(w)| == 1 && AnswersDelivery(Rows(w)[0], d.message.delivery)
    requires |w.tickets| == 1 && w.tickets[0].reservation.exchangeId != e.exchangeId
    requires e.message.delivery != d.message.delivery
    requires NoControls(e.message.text) && Storable(e.Chat())
    ensures IdleWorld(w, e, config)
  {
    hide ChatResult.Valid, Storable, InboundData.Valid, NoControls, Answered, FitsShape;
    FindByKeyOrigin(Rows(w), e.message.delivery);
    P.ValidTextIsStorableIff(e.Chat());
  }

  lemma NextIsIdle(s: System, u: System, d: Delivery, e: Delivery, c: Id, config: Configuration)
    requires StoppedAt(s, u, d, c, config) && Follows(s, d, e, config) && CanMeet(s, d, c) && IsServable(s, d)
    ensures IsIdle(u.conversations, e, c, config) && |Rows(u.conversations[c])| == 1
  {
    hide Inv, Marked, RequestData.Valid, InboundData.Valid, ChatResult.Valid, Storable, C.Initial, ServedWorld, IsEmpty;
    hide IdleWorld, AnswersDelivery, IsUnknown, NoOutbound;
    InitialIsEmpty(d, c, config);
    var w := ServedWorld(C.Initial(c, d.now, config.conversation), d, c, config.conversation);
    NewIsServed(C.Initial(c, d.now, config.conversation), d, c, config);
    OneServedIsIdle(w, d, e, c, config);
    forall f | f in u.conversations ensures !IssuedIn(u.conversations[f], e.exchangeId) {
      assert f != c ==> f in s.conversations && u.conversations[f] == s.conversations[f];
    }
  }

  lemma NextHasNoOutbound(before: seq<OutboundRow>, rows: seq<OutboundRow>, d: Delivery, delivery: string)
    requires Marked(before, rows, d) && d.message.delivery != delivery
    requires forall k :: 0 <= k < |before| ==> before[k].delivery != delivery
    ensures forall k :: 0 <= k < |rows| ==> rows[k].delivery != delivery
  {
    hide InboundData.Valid;
  }

  /** From every reachable state: when the handler of an identity's first message stops
      after it won the right to send, it never called the adapter, and yet the next message
      of the identity, served without interruption, is refused. */
  lemma StoppedHandlerRefusesNext(s: System, d: Delivery, e: Delivery, c: Id, config: Configuration)
    requires Inv(s, config) && CanMeet(s, d, c) && IsServable(s, d) && Follows(s, d, e, config)
    ensures var h := |s.handlers|;
      var u := Run(s, Stopping(h, d, c), config);
      var v := Run(u, FollowUp(h + 1, e), config);
      && |u.handlers| == h + 1 && u.handlers[h].at.Owns? && u.outbox.sends == s.outbox.sends
      && h + 1 < |v.handlers| && v.handlers[h + 1].at == Finished(ServiceUnavailable)
  {
    hide Inv, Run, Step, RequestData.Valid, InboundData.Valid, ChatResult.Valid, Storable, Stopping, FollowUp;
    hide IssuedAnywhere, ActiveFor, C.Initial, ServedWorld, Served, IsIdle, IsBoundIdentity;
    var u := Run(s, Stopping(|s.handlers|, d, c), config);
    HandlerStops(s, d, c, config);
    NewlyBound(s.bindings.rows, d, c, config);
    NextIsIdle(s, u, d, e, c, config);
    NextHasNoOutbound(s.outbox.rows, u.outbox.rows, d, e.message.delivery);
    IdleIsFree(u, e, c, config);
    assert C.Newest(u.outbox.rows) == u.outbox.rows[|u.outbox.rows| - 1];
    NewestIsNotFolded(u, c, config);
    FollowUpRun(u, e, config);
    DeliveryIsDecided(u, e, d.bindingId, c, config);
  }

  lemma NewestIsNotFolded(u: System, c: Id, config: Configuration)
    requires c in u.conversations && |Rows(u.conversations[c])| == 1
    ensures FoldedNext(u.conversations[c], config.conversation) == {}
  {
  }

  lemma IdleIsFree(u: System, e: Delivery, c: Id, config: Configuration)
    requires IsIdle(u.conversations, e, c, config) && e.outboundId !in u.outbox.issued
    ensures IsNew(u, e, c) && NoControls(e.message.text) && IsFree(u.conversations[c], e)
    ensures P.Fate(|Rows(u.conversations[c])|, e.Chat(), config.conversation).None?
    ensures var w := u.conversations[c];
      e.now < w.conversation.value.expiresAt && (Rows(w) != [] ==> !P.IsLeased(C.Newest(Rows(w)), e.now))
  {
    hide P.Fate, NoControls, FindByKey, P.IsLeased, Answered, ChatResult.Valid, InboundData.Valid, IssuedAnywhere;
  }
}
