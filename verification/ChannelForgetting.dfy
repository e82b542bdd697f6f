/** Deleting rows forgets what was done: runs of the whole system in which one delivery is
    served again and again, each time after its expired conversation was purged. */
module ChannelForgetting {
  import opened Wrappers
  import opened ChatModels
  import opened ConversationModels
  import opened ConversationFacts
  import opened ConversationService
  import opened ChannelBinding
  import opened ChannelOutbox
  import opened ChannelSystem
  import opened ChannelSystemFacts
  import opened ChannelSystemInvariant
  import opened ChannelSystemSteps
  import opened ChannelOutboxTheorems
  import opened ChannelProgress
  import opened ChannelFirstContact
  import opened ChannelEffects
  import C = ConversationProtocol
  import P = ConversationProgress
  import O = ChannelOutboxProtocol

  /** The n-th time the message is delivered, with ids drawn for that time. */
  function Again(m: Inbound, port: Option<ChatResult>, reply: string, n: nat, now: Time): Delivery {
    Delivery(m, now, n, n, n, port, reply, 0)
  }

  /** One retention after the other. */
  function Clock(start: Time, n: nat, settings: Settings): Time {
    if n == 0 then start else Clock(start, n - 1, settings) + settings.retentionSeconds
  }

  /** The message is served as the first of its identity; then its conversation, by now
      expired, is purged. */
  function Round(m: Inbound, port: Option<ChatResult>, reply: string, n: nat, start: Time, settings: Settings): seq<SystemEvent> {
    Contact(n, Again(m, port, reply, n, Clock(start, n, settings)), n) + [PurgeExpired(n, Clock(start, n + 1, settings))]
  }

  function Rounds(m: Inbound, port: Option<ChatResult>, reply: string, n: nat, start: Time, settings: Settings): seq<SystemEvent> {
    if n == 0 then [] else Rounds(m, port, reply, n - 1, start, settings) + Round(m, port, reply, n - 1, start, settings)
  }

  // ----- what is left after a round -----

  predicate NothingLives(conversations: map<Id, C.World>) {
    forall c :: c in conversations ==> !IsLive(conversations[c])
  }

  predicate IdsBelow(s: System, n: nat) {
    && (forall id :: id in s.bindings.issued ==> id < n) && (forall id :: id in s.outbox.issued ==> id < n)
    && (forall c :: c in s.conversations ==> c < n && TicketsBelow(s.conversations[c], n))
  }

  predicate TicketsBelow(w: C.World, n: nat) {
    forall t :: 0 <= t < |w.tickets| ==> w.tickets[t].reservation.exchangeId < n
  }

  /** Every handler acknowledged this message. */
  predicate AllAcknowledged(handlers: seq<Handler>, m: Inbound) {
    forall h :: 0 <= h < |handlers| ==> handlers[h].message == m && handlers[h].at == Finished(Acknowledged)
  }

  /** Every send was for a row of its own, inserted for this delivery. */
  predicate AllForDelivery(outbox: O.Outbox, n: nat, delivery: string) {
    && |outbox.sends| == n && |outbox.created| == n
    && forall k :: 0 <= k < n ==> outbox.sends[k].outboundId == outbox.created[k].id && outbox.created[k].delivery == delivery
  }

  ghost predicate Forgotten(s: System, m: Inbound, n: nat, config: Configuration) {
    && Inv(s, config) && s.bindings.rows == [] && NothingLives(s.conversations) && IdsBelow(s, n)
    && |s.handlers| == n && AllAcknowledged(s.handlers, m) && AllForDelivery(s.outbox, n, m.delivery)
  }

  lemma NothingOutbound(s: System, config: Configuration)
    requires Inv(s, config) && NothingLives(s.conversations)
    ensures s.outbox.rows == []
  {
    hide Inv, IsBound, MayAnswer;
    if s.outbox.rows != [] {
      var c := OutboundIsLinked(s, 0, config);
      assert false;
    }
  }

  lemma ForgottenCanMeet(s: System, m: Inbound, n: nat, d: Delivery, config: Configuration)
    requires Forgotten(s, m, n, config)
    requires d.message == m && d.bindingId == n && d.exchangeId == n && d.outboundId == n
    requires NoControls(m.text) && Storable(d.Chat())
    ensures CanMeet(s, d, n) && IsServable(s, d)
  {
    hide Inv, ChatResult.Valid, Storable, NoControls, Answered, InboundData.Valid, NoControls, Answered;
    NothingOutbound(s, config);
    forall c | c in s.conversations ensures !IssuedIn(s.conversations[c], d.exchangeId) {
      assert TicketsBelow(s.conversations[c], n);
    }
  }

  // ----- the purge -----

  lemma PurgeEffects(s: System, c: Id, now: Time, config: Configuration)
    requires Inv(s, config) && c in s.conversations && IsLive(s.conversations[c])
    requires s.conversations[c].conversation.value.expiresAt <= now
    ensures var v := Step(s, PurgeExpired(c, now), config);
      && Inv(v, config) && v.handlers == s.handlers
      && v.conversations == s.conversations[c := s.conversations[c].(conversation := None)]
      && v.bindings.rows == WithoutConversation(s.bindings.rows, c) && v.bindings.issued == s.bindings.issued
      && v.outbox.created == s.outbox.created && v.outbox.issued == s.outbox.issued && v.outbox.sends == s.outbox.sends
  {
    hide Inv, InboundData.Valid, Orphans;
    StepKeeps(s, PurgeExpired(c, now), config);
  }

  lemma OneBindingGoes(row: BindingRow, c: Id)
    requires row.conversationId == Some(c)
    ensures WithoutConversation([row], c) == []
  {
    assert [row][..0] == [];
  }

  // ----- one round -----

  /** A conversation without exchanges, ready for the delivery. */
  ghost predicate IsEmpty(w: C.World, d: Delivery, c: Id, config: Configuration) {
    && C.Inv(w, config.conversation) && w.id == c && IdleWorld(w, d, config)
    && Rows(w) == [] && w.tickets == []
  }

  lemma InitialIsEmpty(d: Delivery, c: Id, config: Configuration)
    requires NoControls(d.message.text) && Storable(d.Chat())
    ensures IsEmpty(C.Initial(c, d.now, config.conversation), d, c, config)
  {
    hide ChatResult.Valid, Storable, NoControls, Answered, InboundData.Valid, C.Inv, IsFree, P.Fate;
    C.InitialInv(c, d.now, config.conversation);
    assert !IssuedAnywhere(map[], d.exchangeId);
    NewIsFree(map[], d, c, config);
    FirstFate(d.Chat(), config.conversation);
  }

  /** A new conversation, once its first delivery is served. */
  lemma NewIsServed(w: C.World, d: Delivery, c: Id, config: Configuration)
    requires IsEmpty(w, d, c, config) && RequestData(c, d.message.delivery, d.message.text).Valid()
    ensures var v := ServedWorld(w, d, c, config.conversation);
      && IsLive(v) && v.conversation.value.expiresAt == d.now + config.conversation.retentionSeconds
      && |v.tickets| == 1 && v.tickets[0].reservation.exchangeId == d.exchangeId
      && |Rows(v)| == 1 && Rows(v)[0].id == d.exchangeId && AnswersDelivery(Rows(v)[0], d.message.delivery)
  {
    hide InboundData.Valid, ServedWorld, C.Inv, IdleWorld, AnswersDelivery;
    ServedWorldIs(w, d, c, config);
  }

  /** The whole state after a first contact. */
  lemma ContactLeaves(s: System, d: Delivery, c: Id, config: Configuration)
    requires Inv(s, config) && CanMeet(s, d, c) && IsServable(s, d)
    requires RequestData(c, d.message.delivery, d.message.text).Valid()
    ensures var v := Run(s, Contact(|s.handlers|, d, c), config);
      && Inv(v, config) && |v.handlers| == |s.handlers| + 1 && v.handlers[..|s.handlers|] == s.handlers
      && v.handlers[|s.handlers|].message == d.message && v.handlers[|s.handlers|].at == Finished(Acknowledged)
      && v.conversations == s.conversations[c := ServedWorld(C.Initial(c, d.now, config.conversation), d, c, config.conversation)]
      && v.bindings.rows == s.bindings.rows + [Activated(Leased(d, config), c, d.now)]
      && v.bindings.issued == s.bindings.issued + {d.bindingId}
      && v.outbox.created == s.outbox.created + [NewRow(d, d.bindingId)] && v.outbox.issued == s.outbox.issued + {d.outboundId}
      && v.outbox.sends == s.outbox.sends + [O.Send(|s.outbox.holders|, d.outboundId, OK)]
  {
    hide Inv, Run, Met, ServedFrom, CanFinish, IsStuck, InboundData.Valid, ChatResult.Valid, Storable, NoControls, Answered;
    hide IsUnknown, IssuedAnywhere, NoOutbound, ActiveFor, C.Initial, ServedWorld;
    var h, u := |s.handlers|, Met(s, d, c, config);
    ContactRun(s, d, c, config);
    RunKeepsFrom(s, Contact(h, d, c), config);
    ContactCanFinish(s, d, c, config);
    IdentityIsMet(s, d, c, config);
    ServedLeaves(u, h, d, d.bindingId, c, config);
    FirstContactIsDecided(s, d, c, config);
    MeetingTouchesOne(s, d, c, config);
    var v := ServedFrom(u, h, d, config);
    assert v.handlers[..h] == u.handlers[..h];
    var w := C.Initial(c, d.now, config.conversation);
    assert s.conversations[c := w][c := ServedWorld(w, d, c, config.conversation)] == s.conversations[c := ServedWorld(w, d, c, config.conversation)];
  }

  lemma RoundForgets(s: System, m: Inbound, port: Option<ChatResult>, reply: string, n: nat, start: Time, config: Configuration)
    requires Forgotten(s, m, n, config) && NoControls(m.text) && Storable(Answered(port))
    ensures Forgotten(Run(s, Round(m, port, reply, n, start, config.conversation), config), m, n + 1, config)
  {
    hide Inv, Run, InboundData.Valid, ChatResult.Valid, Storable, NoControls, Answered, Step, C.Initial, ServedWorld, IsEmpty;
    hide CanMeet, IsServable, Contact, AnswersDelivery;
    var now, later := Clock(start, n, config.conversation), Clock(start, n + 1, config.conversation);
    var d := Again(m, port, reply, n, now);
    ForgottenCanMeet(s, m, n, d, config);
    RequestIsValidIff(m, n);
    ContactLeaves(s, d, n, config);
    InitialIsEmpty(d, n, config);
    var w := C.Initial(n, now, config.conversation);
    NewIsServed(w, d, n, config);
    var u := Run(s, Contact(n, d, n), config);
    PurgeEffects(u, n, later, config);
    OneBindingGoes(Activated(Leased(d, config), n, now), n);
    assert [] + [Activated(Leased(d, config), n, now)] == [Activated(Leased(d, config), n, now)];
    RunConcat(s, Contact(n, d, n), [PurgeExpired(n, later)], config);
    RunOne(u, PurgeExpired(n, later), config);
  }

  /** After n rounds everything is purged, and everything was done n times. */
  lemma {:induction false} RoundsForget(m: Inbound, port: Option<ChatResult>, reply: string, n: nat, start: Time, config: Configuration)
    requires NoControls(m.text) && Storable(Answered(port))
    ensures Forgotten(Run(EMPTY_SYSTEM, Rounds(m, port, reply, n, start, config.conversation), config), m, n, config)
  {
    hide Forgotten, ChatResult.Valid, Storable, NoControls, Answered, Step, Round, InboundData.Valid;
    if n == 0 {
      NothingYet(m, config);
    } else {
      RoundsForget(m, port, reply, n - 1, start, config);
      var s := Run(EMPTY_SYSTEM, Rounds(m, port, reply, n - 1, start, config.conversation), config);
      RunConcat(EMPTY_SYSTEM, Rounds(m, port, reply, n - 1, start, config.conversation),
        Round(m, port, reply, n - 1, start, config.conversation), config);
      RoundForgets(s, m, port, reply, n - 1, start, config);
    }
  }

  lemma NothingYet(m: Inbound, config: Configuration)
    ensures Forgotten(EMPTY_SYSTEM, m, 0, config)
  {
    hide Inv;
    EmptyInv(config);
  }

  /** Deleting rows forgets that a delivery was served: for every n there is a run of the
      whole system from nothing, on clocks that only move forward, in which one message is
      delivered n times, acknowledged n times, and sent n times, each time for a new row. */
  lemma DeletionForgets(m: Inbound, port: Option<ChatResult>, reply: string, n: nat, start: Time, config: Configuration)
    requires NoControls(m.text) && Storable(Answered(port))
    ensures var v := Run(EMPTY_SYSTEM, Rounds(m, port, reply, n, start, config.conversation), config);
      && |v.handlers| == n && AllAcknowledged(v.handlers, m)
      && |v.outbox.sends| == n && SendsOf(v.outbox, v.outbox.sends, m.delivery) == n
  {
    hide Inv, Run, ChatResult.Valid, Storable, NoControls, Answered, InboundData.Valid;
    RoundsForget(m, port, reply, n, start, config);
    var v := Run(EMPTY_SYSTEM, Rounds(m, port, reply, n, start, config.conversation), config);
    AllSendsCount(v.outbox, n, m.delivery);
    assert v.outbox.sends[..n] == v.outbox.sends;
  }
}
