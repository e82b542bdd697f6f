/** What a served delivery leaves behind: its run as a sequence of events, and the state
    after it. */
module ChannelEffects {
  import opened Wrappers
  import opened ChatModels
  import opened ConversationModels
  import opened ConversationStore
  import opened ChannelBinding
  import opened ChannelOutbox
  import opened ChannelSystem
  import opened ChannelSystemFacts
  import opened ChannelSystemInvariant
  import opened ChannelSystemSteps
  import opened ChannelProgress
  import opened ChannelFirstContact
  import C = ConversationProtocol
  import B = ChannelBindingProtocol
  import O = ChannelOutboxProtocol

  // ----- runs -----

  lemma {:induction false} RunConcat(s: System, a: seq<SystemEvent>, b: seq<SystemEvent>, config: Configuration)
    ensures Run(s, a + b, config) == Run(Run(s, a, config), b, config)
  {
    hide Step;
    if b == [] {
      assert a + b == a;
    } else {
      assert (a + b)[..|a + b| - 1] == a + b[..|b| - 1];
      RunConcat(s, a, b[..|b| - 1], config);
    }
  }

  lemma RunOne(s: System, e: SystemEvent, config: Configuration)
    ensures Run(s, [e], config) == Step(s, e, config)
  {
    hide Step;
    assert [e][..0] == [];
  }

  lemma RunThree(s: System, e: seq<SystemEvent>, config: Configuration)
    requires |e| == 3
    ensures Run(s, e, config) == Step(Step(Step(s, e[0], config), e[1], config), e[2], config)
  {
    hide Step, Run;
    assert e == [e[0]] + [e[1]] + [e[2]];
    RunConcat(s, [e[0]] + [e[1]], [e[2]], config);
    RunConcat(s, [e[0]], [e[1]], config);
    RunOne(s, e[0], config);
    RunOne(Step(s, e[0], config), e[1], config);
    RunOne(Step(Step(s, e[0], config), e[1], config), e[2], config);
  }

  lemma RunFour(s: System, e: seq<SystemEvent>, config: Configuration)
    requires |e| == 4
    ensures Run(s, e, config) == Step(Step(Step(Step(s, e[0], config), e[1], config), e[2], config), e[3], config)
  {
    hide Step, Run;
    assert e == e[..3] + [e[3]];
    RunConcat(s, e[..3], [e[3]], config);
    RunThree(s, e[..3], config);
    RunOne(Run(s, e[..3], config), e[3], config);
  }

  lemma {:induction false} RunKeepsFrom(s: System, events: seq<SystemEvent>, config: Configuration)
    requires Inv(s, config)
    ensures Inv(Run(s, events, config), config)
  {
    hide Inv, Step;
    if events != [] {
      RunKeepsFrom(s, events[..|events| - 1], config);
      StepKeeps(Run(s, events[..|events| - 1], config), events[|events| - 1], config);
    }
  }

  /** The events that bind a new identity to a new conversation. */
  function Meeting(h: nat, d: Delivery, c: Id): seq<SystemEvent> {
    [Deliver(d.message, d.now), TakeBinding(h, d.bindingId), CreateFor(h, c), ActivateFor(h, false)]
  }

  /** From the binding to the reserved outbound row. */
  function Reserving(h: nat, d: Delivery): seq<SystemEvent> {
    [TakeExchange(h, d.exchangeId), AskChat(h, d.port), CompleteExchange(h), TakeOutbound(h, Some(d.reply), d.citations, d.outboundId)]
  }

  /** The single attempt. */
  function Attempting(h: nat): seq<SystemEvent> {
    [MarkFor(h), SendFor(h, OK), RecordFor(h, false)]
  }

  /** The first message of an identity, from its arrival to the end of its handler. */
  function Contact(h: nat, d: Delivery, c: Id): seq<SystemEvent> {
    Meeting(h, d, c) + Reserving(h, d) + Attempting(h)
  }

  /** A later message of an identity, from its arrival to the end of its handler. */
  function FollowUp(h: nat, d: Delivery): seq<SystemEvent> {
    [Deliver(d.message, d.now), TakeBinding(h, d.bindingId)] + Reserving(h, d) + Attempting(h)
  }

  function WithOutbound(s: System, h: nat, d: Delivery, config: Configuration): System {
    Step(RepliedFrom(s, h, d, config), TakeOutbound(h, Some(d.reply), d.citations, d.outboundId), config)
  }

  lemma ReservingRun(s: System, h: nat, d: Delivery, config: Configuration)
    ensures Run(s, Reserving(h, d), config) == WithOutbound(s, h, d, config)
  {
    hide Step, Run;
    RunFour(s, Reserving(h, d), config);
  }

  lemma ContactRun(s: System, d: Delivery, c: Id, config: Configuration)
    ensures Run(s, Meeting(|s.handlers|, d, c) + Reserving(|s.handlers|, d), config)
      == WithOutbound(Met(s, d, c, config), |s.handlers|, d, config)
    ensures Run(s, Contact(|s.handlers|, d, c), config) == ServedFrom(Met(s, d, c, config), |s.handlers|, d, config)
  {
    hide Step, Run;
    var h := |s.handlers|;
    RunConcat(s, Meeting(h, d, c) + Reserving(h, d), Attempting(h), config);
    RunConcat(s, Meeting(h, d, c), Reserving(h, d), config);
    RunFour(s, Meeting(h, d, c), config);
    ReservingRun(Met(s, d, c, config), h, d, config);
    RunThree(WithOutbound(Met(s, d, c, config), h, d, config), Attempting(h), config);
  }

  lemma FollowUpRun(s: System, d: Delivery, config: Configuration)
    ensures Run(s, FollowUp(|s.handlers|, d), config) == Served(s, d, config)
  {
    hide Step, Run;
    var h := |s.handlers|;
    var arrival: seq<SystemEvent> := [Deliver(d.message, d.now)];
    var binding: seq<SystemEvent> := [TakeBinding(h, d.bindingId)];
    assert [Deliver(d.message, d.now), TakeBinding(h, d.bindingId)] == arrival + binding;
    RunConcat(s, arrival + binding + Reserving(h, d), Attempting(h), config);
    RunConcat(s, arrival + binding, Reserving(h, d), config);
    RunConcat(s, arrival, binding, config);
    RunOne(s, arrival[0], config);
    RunOne(Step(s, arrival[0], config), binding[0], config);
    ReservingRun(AtBinding(s, d, config), h, d, config);
    RunThree(WithOutbound(AtBinding(s, d, config), h, d, config), Attempting(h), config);
  }

  // ----- what each event leaves alone -----

  /** Only this handler moves, and it keeps its message and its clock. */
  predicate OnlyMoves(a: seq<Handler>, b: seq<Handler>, h: nat) {
    && |a| == |b| && (forall g :: 0 <= g < |a| && g != h ==> a[g] == b[g])
    && (h < |a| ==> b[h].message == a[h].message && b[h].now == a[h].now)
  }

  /** Events on the outbound table touch neither the conversations nor the bindings. */
  predicate OnOutbox(e: SystemEvent, h: nat) {
    e == MarkFor(h) || e == RecordFor(h, false) || e == SendFor(h, OK) || (e.TakeOutbound? && e.h == h)
  }

  lemma OutboxEventFrame(s: System, h: nat, e: SystemEvent, config: Configuration)
    requires OnOutbox(e, h)
    ensures var v := Step(s, e, config);
      && v.conversations == s.conversations && v.bindings == s.bindings && v.chats == s.chats
      && OnlyMoves(s.handlers, v.handlers, h)
      && (e.TakeOutbound? || e.MarkFor? || e.RecordFor? ==> v.outbox.sends == s.outbox.sends)
      && (!e.TakeOutbound? ==> v.outbox.created == s.outbox.created && v.outbox.issued == s.outbox.issued)
  {
    hide O.Enabled, ReserveOutbound, MarkSending, CompleteOutbound, InboundData.Valid, Receipt.Valid, Existing;
    hide TakeBindingStep, CreateForStep, ActivateForStep, TakeExchangeStep, CompleteExchangeStep, PurgeStep;
  }

  /** Events of one handler, after its arrival. */
  predicate EventOf(e: SystemEvent, h: nat) {
    match e
    case Deliver(_, _) => false
    case PurgeExpired(_, _) => false
    case _ => e.h == h
  }

  lemma OnlyItsHandler(s: System, h: nat, e: SystemEvent, config: Configuration)
    requires EventOf(e, h)
    ensures OnlyMoves(s.handlers, Step(s, e, config).handlers, h)
  {
    hide O.Enabled, ReserveOutbound, MarkSending, CompleteOutbound, InboundData.Valid, Receipt.Valid, Existing, ReserveTx;
    hide ReserveBinding, ActivateBinding, FailBinding, C.CompleteWith, C.Step, B.Step, O.Step, Orphans, RequestData.Valid;
  }

  // ----- the effects -----

  lemma ReservingEffects(s: System, h: nat, d: Delivery, b: Id, c: Id, config: Configuration)
    requires Inv(s, config) && CanFinish(s, h, d, b, c, config) && NoOutbound(s.outbox, d.message.delivery)
    requires RequestData(c, d.message.delivery, d.message.text).Valid()
    ensures var u, v := RepliedFrom(s, h, d, config), WithOutbound(s, h, d, config);
      && Inv(v, config) && OnlyMoves(s.handlers, v.handlers, h)
      && v.handlers[h] == u.handlers[h].(at := Holds(|s.outbox.holders|)) && v.handlers[h].message == d.message
      && v.conversations == s.conversations[c := ServedWorld(s.conversations[c], d, c, config.conversation)]
      && v.bindings == s.bindings
      && v.outbox.rows == u.outbox.rows + [NewRow(d, b)] && v.outbox.holders == s.outbox.holders + [NewHolder(d, b)]
      && u.outbox.rows == WithoutOutbound(s.outbox.rows, Cascade(s, u.conversations))
      && v.outbox.created == s.outbox.created + [NewRow(d, b)] && v.outbox.issued == s.outbox.issued + {d.outboundId}
      && v.outbox.sends == s.outbox.sends
  {
    hide Inv, Step, IsIdle, HasAnswer, InboundData.Valid, BindingSends, ActiveFor, HasOutbound, RepliedFrom;
    hide ServedWorld, RequestData.Valid, Cascade, OnlyMoves;
    var u := RepliedFrom(s, h, d, config);
    ReplyIsReady(s, h, d, b, c, config);
    NotIssuedYet(s, d, c, config);
    NothingOutboundYet(s, u.outbox.rows, Cascade(s, u.conversations), d, config);
    OutboundIsReserved(u, h, d, b, c, config);
    OutboxEventFrame(u, h, TakeOutbound(h, Some(d.reply), d.citations, d.outboundId), config);
    ReservingTouchesOne(s, h, d, config);
  }

  lemma ReservingTouchesOne(s: System, h: nat, d: Delivery, config: Configuration)
    ensures OnlyMoves(s.handlers, WithOutbound(s, h, d, config).handlers, h)
  {
    hide Step;
    var s1 := Step(s, TakeExchange(h, d.exchangeId), config);
    var s2 := Step(s1, AskChat(h, d.port), config);
    OnlyItsHandler(s, h, TakeExchange(h, d.exchangeId), config);
    OnlyItsHandler(s1, h, AskChat(h, d.port), config);
    OnlyItsHandler(s2, h, CompleteExchange(h), config);
    OnlyItsHandler(RepliedFrom(s, h, d, config), h, TakeOutbound(h, Some(d.reply), d.citations, d.outboundId), config);
  }

  /** The winner of a row calls the adapter once for it. */
  lemma AttemptingEffects(s: System, h: nat, g: nat, rows: seq<OutboundRow>, d: Delivery, b: Id, config: Configuration)
    requires Inv(s, config) && h < |s.handlers| && s.handlers[h].at == Holds(g) && !BindingSends(rows, b)
    requires s.outbox.rows == rows + [NewRow(d, b)] && g < |s.outbox.holders| && s.outbox.holders[g] == NewHolder(d, b)
    ensures var v := AtEnd(s, h, config);
      && v.conversations == s.conversations && v.bindings == s.bindings && OnlyMoves(s.handlers, v.handlers, h)
      && v.outbox.created == s.outbox.created && v.outbox.issued == s.outbox.issued
      && v.outbox.sends == s.outbox.sends + [O.Send(g, d.outboundId, OK)]
  {
    hide Inv, BindingSends, Step, InboundData.Valid, Enabled;
    MarkingDecides(s, h, g, rows, d, b, config);
    var u := Step(s, MarkFor(h), config);
    OutboxEventFrame(s, h, MarkFor(h), config);
    OutboxEventFrame(u, h, SendFor(h, OK), config);
    OutboxEventFrame(Step(u, SendFor(h, OK), config), h, RecordFor(h, false), config);
    SendingLogs(u, h, g, config);
  }

  lemma SendingLogs(s: System, h: nat, g: nat, config: Configuration)
    requires h < |s.handlers| && s.handlers[h].at == Owns(g) && g < |s.outbox.holders| && s.outbox.holders[g].phase.Owner?
    ensures Step(s, SendFor(h, OK), config).outbox.sends
      == s.outbox.sends + [O.Send(g, s.outbox.holders[g].reservation.outboundId, OK)]
  {
    OkIsValid();
    hide Receipt.Valid, InboundData.Valid;
  }

  /** What a delivery that is acknowledged leaves: its exchange, its row, its one send. */
  lemma ServedLeaves(s: System, h: nat, d: Delivery, b: Id, c: Id, config: Configuration)
    requires Inv(s, config) && CanFinish(s, h, d, b, c, config) && !IsStuck(s, b, c, config.conversation)
    requires NoOutbound(s.outbox, d.message.delivery)
    requires RequestData(c, d.message.delivery, d.message.text).Valid()
    ensures var v := ServedFrom(s, h, d, config);
      && OnlyMoves(s.handlers, v.handlers, h)
      && v.conversations == s.conversations[c := ServedWorld(s.conversations[c], d, c, config.conversation)]
      && v.bindings == s.bindings
      && v.outbox.created == s.outbox.created + [NewRow(d, b)] && v.outbox.issued == s.outbox.issued + {d.outboundId}
      && v.outbox.sends == s.outbox.sends + [O.Send(|s.outbox.holders|, d.outboundId, OK)]
  {
    hide Inv, Step, IsIdle, InboundData.Valid, BindingSends, ActiveFor, RepliedFrom, AtEnd, IsStuck, ServedWorld;
    hide RequestData.Valid, Cascade, OnlyMoves;
    ReservingEffects(s, h, d, b, c, config);
    BlockedIffStuck(s, h, d, b, c, config);
    var v := WithOutbound(s, h, d, config);
    HolderIsThere(s, h, d, b, c, config);
    AttemptingEffects(v, h, |s.outbox.holders|, RepliedFrom(s, h, d, config).outbox.rows, d, b, config);
    SameTwice(s.handlers, v.handlers, ServedFrom(s, h, d, config).handlers, h);
  }

  lemma HolderIsThere(s: System, h: nat, d: Delivery, b: Id, c: Id, config: Configuration)
    requires CanFinish(s, h, d, b, c, config) && OnlyMoves(s.handlers, WithOutbound(s, h, d, config).handlers, h)
    ensures h < |WithOutbound(s, h, d, config).handlers|
  {
    hide WithOutbound, IsIdle, ActiveFor, InboundData.Valid;
  }

  lemma SameTwice(a: seq<Handler>, b: seq<Handler>, c: seq<Handler>, h: nat)
    requires OnlyMoves(a, b, h) && OnlyMoves(b, c, h)
    ensures OnlyMoves(a, c, h)
  {
    hide InboundData.Valid;
  }

  lemma MeetingTouchesOne(s: System, d: Delivery, c: Id, config: Configuration)
    ensures var v := Met(s, d, c, config);
      |v.handlers| == |s.handlers| + 1 && v.handlers[..|s.handlers|] == s.handlers && v.handlers[|s.handlers|].message == d.message
  {
    hide Step;
    var h := |s.handlers|;
    var s1 := Step(s, Deliver(d.message, d.now), config);
    DeliverAppends(s, d, config);
    var s2, s3 := AtBinding(s, d, config), AtConversation(s, d, c, config);
    OnlyItsHandler(s1, h, TakeBinding(h, d.bindingId), config);
    OnlyItsHandler(s2, h, CreateFor(h, c), config);
    OnlyItsHandler(s3, h, ActivateFor(h, false), config);
    SameTwice(s1.handlers, s2.handlers, s3.handlers, h);
    SameTwice(s1.handlers, s3.handlers, Met(s, d, c, config).handlers, h);
    hide Met, InboundData.Valid;
    assert s1.handlers[..h] == s.handlers;
    assert Met(s, d, c, config).handlers[..h] == s1.handlers[..h];
  }

  lemma DeliverAppends(s: System, d: Delivery, config: Configuration)
    ensures Step(s, Deliver(d.message, d.now), config) == s.(handlers := s.handlers + [Handler(d.message, d.now, Arrived, None)])
  {
  }
}
