/** A message the channel accepts and a conversation cannot read: text with a line break.
    It is refused every time it is delivered, and never served. */
module UnreadableMessage {
  import opened Wrappers
  import opened ChatModels
  import opened ConversationModels
  import opened ChannelBinding
  import opened ChannelSystem
  import opened ChannelSystemFacts
  import opened ChannelSystemInvariant
  import opened ChannelSystemSteps
  import opened ChannelProgress
  import opened ChannelFirstContact
  import opened ChannelEffects
  import C = ConversationProtocol
  import O = ChannelOutboxProtocol

  // ----- over every run -----

  /** A handler whose message cannot be read never gets past its binding. */
  predicate Unserved(handler: Handler) {
    !NoControls(handler.message.text) ==> handler.won.None? && BeforeExchange(handler.at)
  }

  predicate BeforeExchange(at: Pc) {
    || at.Arrived? || at.HasToken? || at.HasConversation? || at.GivingUp? || at.Bound?
    || (at.Finished? && at.ingress != Acknowledged)
  }

  predicate AllUnserved(handlers: seq<Handler>) {
    forall h :: 0 <= h < |handlers| ==> Unserved(handlers[h])
  }

  lemma MoveKeepsUnserved(a: seq<Handler>, b: seq<Handler>, h: nat)
    requires AllUnserved(a) && h < |a| && OnlyMoves(a, b, h) && Unserved(b[h])
    ensures AllUnserved(b)
  {
    hide Unserved, InboundData.Valid;
  }

  lemma TakingKeepsUnserved(s: System, h: nat, freshId: Id, config: Configuration)
    requires h < |s.handlers| && s.handlers[h].at.Bound? && s.handlers[h].at.conversationId in s.conversations
    requires Unserved(s.handlers[h])
    ensures Unserved(TakeExchangeStep(s, h, freshId, config).handlers[h])
  {
    hide InboundData.Valid, RequestData.Valid, NoControls, C.Step, AfterReserve;
    RequestIsValidIff(s.handlers[h].message, s.handlers[h].at.conversationId);
  }

  lemma OthersKeepUnserved(s: System, h: nat, e: SystemEvent, config: Configuration)
    requires EventOf(e, h) && !e.TakeExchange? && Enabled(s, e) && h < |s.handlers| && Unserved(s.handlers[h])
    ensures h < |Step(s, e, config).handlers| && Unserved(Step(s, e, config).handlers[h])
  {
    hide InboundData.Valid, NoControls, ReserveBinding, ActivateBinding, FailBinding, C.Step, C.CompleteWith;
    hide C.Initial, O.Enabled;
  }

  lemma StepKeepsUnserved(s: System, e: SystemEvent, config: Configuration)
    requires AllUnserved(s.handlers)
    ensures AllUnserved(Step(s, e, config).handlers)
  {
    hide InboundData.Valid, Unserved;
    if Enabled(s, e) && !e.Deliver? && !e.PurgeExpired? {
      hide Step;
      OnlyItsHandler(s, e.h, e, config);
      if e.TakeExchange? {
        TakingSteps(s, e.h, e.freshId, config);
        TakingKeepsUnserved(s, e.h, e.freshId, config);
      } else {
        OthersKeepUnserved(s, e.h, e, config);
      }
      MoveKeepsUnserved(s.handlers, Step(s, e, config).handlers, e.h);
    } else {
      ArrivalIsUnserved(s, e, config);
    }
  }

  lemma TakingSteps(s: System, h: nat, freshId: Id, config: Configuration)
    requires Enabled(s, TakeExchange(h, freshId))
    ensures Step(s, TakeExchange(h, freshId), config) == TakeExchangeStep(s, h, freshId, config)
  {
    hide TakeExchangeStep;
  }

  lemma ArrivalIsUnserved(s: System, e: SystemEvent, config: Configuration)
    requires AllUnserved(s.handlers) && (!Enabled(s, e) || e.Deliver? || e.PurgeExpired?)
    ensures AllUnserved(Step(s, e, config).handlers)
  {
    hide InboundData.Valid, NoControls;
  }

  /** Over every run, a message with a line break is never put to a conversation or to the
      chat port, never sent and never acknowledged. */
  lemma {:induction false} UnreadableIsNeverServed(events: seq<SystemEvent>, config: Configuration)
    ensures var s := Run(EMPTY_SYSTEM, events, config);
      && AllUnserved(s.handlers)
      && forall n :: 0 <= n < |s.chats| ==>
           s.chats[n].handler < |s.handlers| && NoControls(s.handlers[s.chats[n].handler].message.text)
  {
    hide Step, Unserved, Inv, InboundData.Valid, NoControls;
    RunKeeps(events, config);
    if events != [] {
      UnreadableIsNeverServed(events[..|events| - 1], config);
      StepKeepsUnserved(Run(EMPTY_SYSTEM, events[..|events| - 1], config), events[|events| - 1], config);
    }
    AskedAreReadable(Run(EMPTY_SYSTEM, events, config), config);
  }

  lemma AskedAreReadable(s: System, config: Configuration)
    requires Inv(s, config) && AllUnserved(s.handlers)
    ensures forall n :: 0 <= n < |s.chats| ==>
      s.chats[n].handler < |s.handlers| && NoControls(s.handlers[s.chats[n].handler].message.text)
  {
    hide Inv, WorldsOk, IdsApart, BindingsMatch, O.Inv, AllLinked, Spent, HandlersOk, TicketsApart, InboundData.Valid;
    hide NoControls;
    InvParts(s, config);
    forall n | 0 <= n < |s.chats|
      ensures s.chats[n].handler < |s.handlers| && NoControls(s.handlers[s.chats[n].handler].message.text)
    {
      assert ChatIsOf(s.conversations, s.handlers, s.chats[n]);
      assert Unserved(s.handlers[s.chats[n].handler]);
    }
  }

  // ----- the first delivery, and every later one -----

  /** The first message of an identity, when it cannot be read: the binding is active and its
      conversation is empty, for a message that is then refused. */
  lemma UnreadableFirstContact(s: System, d: Delivery, c: Id, config: Configuration)
    requires Inv(s, config) && CanMeet(s, d, c) && !NoControls(d.message.text)
    ensures var h, v := |s.handlers|, Run(s, Contact(|s.handlers|, d, c), config);
      && |v.handlers| == h + 1 && v.handlers[h].at == Finished(ServiceUnavailable)
      && v.bindings.rows == s.bindings.rows + [Activated(Leased(d, config), c, d.now)]
      && v.conversations == s.conversations[c := C.Initial(c, d.now, config.conversation)]
      && v.outbox == s.outbox && v.chats == s.chats
  {
    hide Inv, Run, Met, ServedFrom, IssuedAnywhere, C.Initial, InboundData.Valid, NoControls, IsFree, Step, IsStuck;
    var h, u := |s.handlers|, Met(s, d, c, config);
    ContactRun(s, d, c, config);
    IdentityIsMet(s, d, c, config);
    ContactIsNew(s, d, c, config);
    UnreadableIsRefused(u, h, d, d.bindingId, c, config);
    FinishedServes(u, h, d, config);
  }

  /** A bound identity's message that cannot be read is refused and changes nothing. */
  lemma UnreadableFollowUp(s: System, d: Delivery, b: Id, c: Id, config: Configuration)
    requires Inv(s, config) && IsBoundIdentity(s.bindings.rows, d.message.identity, b, c) && d.bindingId !in s.bindings.issued
    requires !IssuedAnywhere(s.conversations, d.exchangeId) && !NoControls(d.message.text)
    ensures var h, v := |s.handlers|, Run(s, FollowUp(|s.handlers|, d), config);
      && |v.handlers| == h + 1 && v.handlers[h].at == Finished(ServiceUnavailable)
      && v.bindings.rows == s.bindings.rows && v.conversations == s.conversations && v.outbox == s.outbox && v.chats == s.chats
  {
    hide Inv, Run, ServedFrom, IssuedAnywhere, InboundData.Valid, NoControls, Step, IsBoundIdentity, AtBinding;
    var h, u := |s.handlers|, AtBinding(s, d, config);
    FollowUpRun(s, d, config);
    BindingIsFound(s, d, b, c, config);
    BoundIsThere(u, h, b, c, config);
    UnreadableIsRefused(u, h, d, b, c, config);
    FinishedServes(u, h, d, config);
  }

  lemma BoundIsThere(s: System, h: nat, b: Id, c: Id, config: Configuration)
    requires Inv(s, config) && h < |s.handlers| && s.handlers[h].at == Bound(b, c)
    ensures c in s.conversations
  {
    hide Inv, BoundTo;
    HandlerAt(s, h, config);
  }

  /** After an unreadable first message, whatever happens: as long as the identity is bound,
      delivering it again is refused and changes nothing. */
  lemma UnreadableIsRefusedForever(s: System, d: Delivery, c: Id, events: seq<SystemEvent>, again: Delivery, b: Id, e: Id, config: Configuration)
    requires Inv(s, config) && CanMeet(s, d, c) && !NoControls(d.message.text) && again.message == d.message
    requires var v := Run(Run(s, Contact(|s.handlers|, d, c), config), events, config);
      && IsBoundIdentity(v.bindings.rows, d.message.identity, b, e)
      && again.bindingId !in v.bindings.issued && !IssuedAnywhere(v.conversations, again.exchangeId)
    ensures var u := Run(s, Contact(|s.handlers|, d, c), config);
      |u.handlers| == |s.handlers| + 1 && u.handlers[|s.handlers|].at == Finished(ServiceUnavailable)
    ensures var v := Run(Run(s, Contact(|s.handlers|, d, c), config), events, config);
      var w := Run(v, FollowUp(|v.handlers|, again), config);
      && |w.handlers| == |v.handlers| + 1 && w.handlers[|v.handlers|].at == Finished(ServiceUnavailable)
      && w.bindings.rows == v.bindings.rows && w.conversations == v.conversations && w.outbox == v.outbox && w.chats == v.chats
  {
    hide Inv, Run, CanMeet, IssuedAnywhere, InboundData.Valid, NoControls, IsBoundIdentity, Contact, FollowUp, C.Initial;
    var u := Run(s, Contact(|s.handlers|, d, c), config);
    UnreadableFirstContact(s, d, c, config);
    RunKeepsFrom(s, Contact(|s.handlers|, d, c), config);
    RunKeepsFrom(u, events, config);
    UnreadableFollowUp(Run(u, events, config), again, b, e, config);
  }

  // ----- one such message -----

  const TWO_LINES := "a\nb"

  /** From nothing, a two-line message of any identity is accepted, leaves an active binding to
      an empty conversation, and is refused. */
  lemma TwoLinesAreRefused(identity: string, delivery: string, now: Time, config: Configuration)
    requires ValidHmac(identity) && ValidHmac(delivery)
    ensures InboundData(identity, delivery, TWO_LINES).Valid() && !NoControls(TWO_LINES)
    ensures var d := Delivery(InboundData(identity, delivery, TWO_LINES), now, 0, 0, 0, None, "", 0);
      var v := Run(EMPTY_SYSTEM, Contact(0, d, 0), config);
      && |v.handlers| == 1 && v.handlers[0].at == Finished(ServiceUnavailable)
      && |v.bindings.rows| == 1 && IsFor(v.bindings.rows[0], 0)
      && 0 in v.conversations && Rows(v.conversations[0]) == [] && v.outbox.sends == [] && v.chats == []
  {
    TwoLinesAreControlled();
    hide Inv, Run, Contact, NoControls, ValidHmac;
    var d := Delivery(InboundData(identity, delivery, TWO_LINES), now, 0, 0, 0, None, "", 0);
    EmptyInv(config);
    UnreadableFirstContact(EMPTY_SYSTEM, d, 0, config);
  }

  lemma TwoLinesAreControlled()
    ensures !NoControls(TWO_LINES)
    ensures forall i :: 0 <= i < |TWO_LINES| && IsControl(TWO_LINES[i]) ==> TWO_LINES[i] == '\n'
  {
    assert IsControl(TWO_LINES[1]);
  }
}
