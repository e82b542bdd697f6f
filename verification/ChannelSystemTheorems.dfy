/** End-to-end promises of the message path, for every run of any number of handlers with
    arbitrary clocks, crashes, redeliveries, abandonments, compactions and purges. */
module ChannelSystemTheorems {
  import opened ChatModels
  import opened ConversationModels
  import opened ChannelOutbox
  import opened ChannelSystem
  import opened ChannelSystemInvariant
  import opened ChannelSystemSteps
  import C = ConversationProtocol
  import B = ChannelBindingProtocol
  import O = ChannelOutboxProtocol
  import OT = ChannelOutboxTheorems

  function Reached(events: seq<SystemEvent>, config: Configuration): System {
    Run(EMPTY_SYSTEM, events, config)
  }

  /** The call was made for an outbound row inserted for this exchange and delivery. */
  predicate SendFor(outbox: O.Outbox, n: nat, exchangeId: Id, delivery: string)
    requires n < |outbox.sends|
  {
    exists i :: 0 <= i < |outbox.created| && outbox.created[i].id == outbox.sends[n].outboundId
      && outbox.created[i].exchangeId == exchangeId && outbox.created[i].delivery == delivery
  }

  ghost predicate HasSubject(outbox: O.Outbox, n: nat)
    requires n < |outbox.sends|
  {
    exists exchangeId: Id, delivery: string :: SendFor(outbox, n, exchangeId, delivery)
  }

  lemma SendHasSubject(s: System, n: nat, config: Configuration)
    requires Inv(s, config) && n < |s.outbox.sends|
    ensures HasSubject(s.outbox, n)
  {
    hide Inv, WorldsOk, IdsApart, BindingsMatch, AllLinked, Spent, HandlersOk, TicketsApart, ChatsLogged, O.Inv;
    hide OutboundTable, O.AllFit, O.OneWinner, O.RowsTell, O.RowsAreWon, Receipt.Valid;
    InvParts(s, config);
    O.InvParts(s.outbox);
    assert O.SendIsOf(s.outbox, s.outbox.sends[n]);
    assert O.IdCreated(s.outbox.created, s.outbox.sends[n].outboundId);
    var i :| 0 <= i < |s.outbox.created| && s.outbox.created[i].id == s.outbox.sends[n].outboundId;
    assert SendFor(s.outbox, n, s.outbox.created[i].exchangeId, s.outbox.created[i].delivery);
  }

  // ----- each exchange is answered once and sent once, ever -----

  lemma ChatsAreDistinct(s: System, n: nat, m: nat, config: Configuration)
    requires Inv(s, config) && n < m < |s.chats|
    ensures s.chats[n].exchangeId != s.chats[m].exchangeId
  {
    hide Inv, C.Inv, BindingsMatch, AllLinked, Spent, HandlersOk, O.Inv, IssuedIn, WorldsOk;
    InvParts(s, config);
    assert ChatIsOf(s.conversations, s.handlers, s.chats[n]) && ChatIsOf(s.conversations, s.handlers, s.chats[m]);
    var a, b := s.handlers[s.chats[n].handler].won.value, s.handlers[s.chats[m].handler].won.value;
    assert a != b by { HoldersDiffer(s.handlers, s.chats[n].handler, s.chats[m].handler); }
    TicketIssues(s.conversations[a.conversationId], a.ticket);
    TicketIssues(s.conversations[b.conversationId], b.ticket);
    if s.chats[n].exchangeId == s.chats[m].exchangeId {
      assert a.conversationId == b.conversationId;
      WorldAt(s, a.conversationId, config);
      TicketsDiffer(s.conversations[a.conversationId], a.ticket, b.ticket, config.conversation);
    }
  }

  lemma HoldersDiffer(handlers: seq<Handler>, g: nat, h: nat)
    requires TicketsApart(handlers) && g < |handlers| && h < |handlers| && g != h
    requires handlers[g].won.Some? && handlers[h].won.Some?
    ensures handlers[g].won != handlers[h].won
  {
  }

  lemma TicketIssues(w: C.World, t: nat)
    requires t < |w.tickets|
    ensures IssuedIn(w, w.tickets[t].reservation.exchangeId)
  {
  }

  lemma TicketsDiffer(w: C.World, t: nat, u: nat, settings: Settings)
    requires C.Inv(w, settings) && t < |w.tickets| && u < |w.tickets| && t != u
    ensures w.tickets[t].reservation.exchangeId != w.tickets[u].reservation.exchangeId
  {
    hide C.Genuine, C.Window, C.Identity, C.Recorded, C.Frozen, C.Columns, C.Bounded;
    assert C.DistinctTickets(w.tickets);
  }

  lemma SendsHaveTheirOwn(s: System, n: nat, m: nat, e: Id, f: Id, d: string, g: string, config: Configuration)
    requires Inv(s, config) && n < m < |s.outbox.sends|
    requires SendFor(s.outbox, n, e, d) && SendFor(s.outbox, m, f, g)
    ensures e != f
  {
    hide Inv, WorldsOk, IdsApart, BindingsMatch, AllLinked, HandlersOk, TicketsApart, ChatsLogged, O.Inv;
    hide OutboundTable, O.IdsKnown, O.AllFit, O.RowsTell, O.RowsAreWon, O.SendsLogged, O.OneWinner, SpentRow;
    InvParts(s, config);
    O.InvParts(s.outbox);
    OT.SendsAreDistinct(s.outbox);
    var i :| 0 <= i < |s.outbox.created| && s.outbox.created[i].id == s.outbox.sends[n].outboundId
      && s.outbox.created[i].exchangeId == e && s.outbox.created[i].delivery == d;
    var j :| 0 <= j < |s.outbox.created| && s.outbox.created[j].id == s.outbox.sends[m].outboundId
      && s.outbox.created[j].exchangeId == f && s.outbox.created[j].delivery == g;
    assert i != j;
  }

  /** Exactly-once work per exchange, over whole runs and without any proviso about rows
      still existing: no exchange is put to the chat port twice, and no exchange is sent
      twice; every send is for a row inserted for one exchange and its delivery. */
  lemma EachExchangeIsServedOnce(events: seq<SystemEvent>, config: Configuration)
    ensures var s := Reached(events, config);
      && (forall n, m :: 0 <= n < m < |s.chats| ==> s.chats[n].exchangeId != s.chats[m].exchangeId)
      && (forall n :: 0 <= n < |s.outbox.sends| ==> HasSubject(s.outbox, n))
      && (forall n, m, e, f, d, g :: 0 <= n < m < |s.outbox.sends| && SendFor(s.outbox, n, e, d) && SendFor(s.outbox, m, f, g) ==> e != f)
  {
    hide Inv, Run, SendFor, HasSubject;
    var s := Reached(events, config);
    RunKeeps(events, config);
    forall n, m | 0 <= n < m < |s.chats| ensures s.chats[n].exchangeId != s.chats[m].exchangeId {
      ChatsAreDistinct(s, n, m, config);
    }
    forall n | 0 <= n < |s.outbox.sends| ensures HasSubject(s.outbox, n) {
      SendHasSubject(s, n, config);
    }
    forall n, m, e, f, d, g | 0 <= n < m < |s.outbox.sends| && SendFor(s.outbox, n, e, d) && SendFor(s.outbox, m, f, g)
      ensures e != f
    {
      SendsHaveTheirOwn(s, n, m, e, f, d, g, config);
    }
  }

  // ----- acknowledgement and content -----

  /** A handler acknowledges only after a call of the adapter for its own delivery that
      returned SENT. */
  lemma AcknowledgedMeansDelivered(events: seq<SystemEvent>, config: Configuration, h: nat)
    requires h < |Reached(events, config).handlers| && Reached(events, config).handlers[h].at == Finished(Acknowledged)
    ensures var s := Reached(events, config);
      WasDelivered(s.outbox, s.handlers[h].message.delivery)
  {
    hide Inv, Run, WasDelivered;
    RunKeeps(events, config);
    HandlerAt(Reached(events, config), h, config);
  }

  /** Whatever is waiting, being sent or sent belongs to a completed exchange of the very
      same delivery, in the conversation its binding is active for; so the unique index on
      binding and exchange never meets a second delivery. */
  lemma OutboundRowsAreLinked(events: seq<SystemEvent>, config: Configuration)
    ensures var s := Reached(events, config);
      AllLinked(s.conversations, s.bindings.rows, s.outbox.rows)
  {
    hide Inv, Run, WorldsOk, IdsApart, BindingsMatch, O.Inv, AllLinked, Spent, HandlersOk, TicketsApart, ChatsLogged;
    RunKeeps(events, config);
    InvParts(Reached(events, config), config);
  }

  lemma RowOfExchange(s: System, i: nat, config: Configuration) returns (k: nat)
    requires Inv(s, config) && i < |s.outbox.created| && s.outbox.created[i].exchangeId in Existing(s.conversations)
    ensures k < |s.outbox.rows| && s.outbox.rows[k].id == s.outbox.created[i].id && s.outbox.rows[k].delivery == s.outbox.created[i].delivery
  {
    hide Inv, WorldsOk, IdsApart, BindingsMatch, AllLinked, HandlersOk, TicketsApart, ChatsLogged, O.Inv;
    hide OutboundTable, O.AllFit, O.RowsTell, O.RowsAreWon, O.SendsLogged, O.OneWinner, Existing, IssuedAnywhere;
    InvParts(s, config);
    O.InvParts(s.outbox);
    assert SpentRow(s.conversations, s.outbox.rows, s.outbox.created[i]);
    k :| 0 <= k < |s.outbox.rows| && s.outbox.rows[k].exchangeId == s.outbox.created[i].exchangeId;
    assert O.WasCreated(s.outbox.created, s.outbox.rows[k]);
    var j :| 0 <= j < |s.outbox.created| && O.SameOutbound(s.outbox.created[j], s.outbox.rows[k]);
    assert i == j;
  }

  /** At most once per delivery for as long as it is remembered: two sends of one delivery
      are never both of exchanges that still exist. */
  lemma AtMostOncePerRememberedDelivery(s: System, n: nat, m: nat, e: Id, f: Id, d: string, g: string, config: Configuration)
    requires Inv(s, config) && n < m < |s.outbox.sends|
    requires SendFor(s.outbox, n, e, d) && SendFor(s.outbox, m, f, g)
    requires e in Existing(s.conversations) && f in Existing(s.conversations)
    ensures d != g
  {
    hide Inv, WorldsOk, IdsApart, BindingsMatch, AllLinked, HandlersOk, TicketsApart, ChatsLogged, O.Inv;
    hide OutboundTable, O.IdsKnown, O.AllFit, O.RowsTell, O.RowsAreWon, O.SendsLogged, O.OneWinner, Spent, Existing;
    InvParts(s, config);
    O.InvParts(s.outbox);
    OT.SendsAreDistinct(s.outbox);
    var i :| 0 <= i < |s.outbox.created| && s.outbox.created[i].id == s.outbox.sends[n].outboundId
      && s.outbox.created[i].exchangeId == e && s.outbox.created[i].delivery == d;
    var j :| 0 <= j < |s.outbox.created| && s.outbox.created[j].id == s.outbox.sends[m].outboundId
      && s.outbox.created[j].exchangeId == f && s.outbox.created[j].delivery == g;
    var k := RowOfExchange(s, i, config);
    var l := RowOfExchange(s, j, config);
    OT.TwoRowsTwoDeliveries(s.outbox.rows, k, l);
  }

  /** Every conversation of the composed system satisfies the invariant of the
      conversation protocol, so its theorems hold here too; and likewise the bindings. */
  lemma ComponentsKeepTheirPromises(events: seq<SystemEvent>, config: Configuration)
    ensures var s := Reached(events, config);
      && (forall c :: c in s.conversations ==> C.Inv(s.conversations[c], config.conversation))
      && B.Inv(s.bindings) && O.Inv(s.outbox)
      && (forall c :: c in s.conversations ==> (c in s.bindings.live <==> IsLive(s.conversations[c])))
  {
    hide Inv, Run, C.Inv, B.Inv, O.Inv, IdsApart, AllLinked, Spent, HandlersOk, TicketsApart, ChatsLogged;
    var s := Reached(events, config);
    RunKeeps(events, config);
    InvParts(s, config);
    forall c | c in s.conversations ensures C.Inv(s.conversations[c], config.conversation) {
      assert WorldOk(s.conversations, c, config.conversation);
    }
  }
}
