/** One conversation under any number of handlers, clocks and crashes.

    A handler that wins a reservation holds a ticket; it may complete later, or never.
    Any event may come next, with any clock, so a run is just a sequence of events;
    a crash is the absence of a completion. Events that cannot happen (a UUID drawn
    twice, a completion without a ticket) leave the world as it is. */
module ConversationProtocol {
  import opened Wrappers
  import opened Sequences
  import opened ChatModels
  import opened ConversationModels
  import opened ConversationPolicy
  import opened ConversationStore
  import opened ConversationFacts

  /** A reservation handed out as RESERVED, its reserver's clock, and the row as the
      reserving transaction committed it. */
  datatype Ticket = Ticket(request: Request, reservation: Reservation, now: Time, asOf: Conversation)

  /** The database row and what has happened so far: every ticket in order, the rows
      folded into the summary in order, and the result recorded for each completion. */
  datatype World = World(
    id: Id,
    conversation: Option<Conversation>,
    tickets: seq<Ticket>,
    folded: seq<Exchange>,
    answers: map<Id, ChatResult>)

  datatype Event =
    | ReserveEvent(request: Request, now: Time, freshId: Id)
    | CompleteEvent(ticket: nat, chat: ChatResult, now: Time)
    | PurgeEvent(now: Time)

  function Initial(id: Id, now: Time, settings: Settings): World {
    World(id, Some(Created(now, settings)), [], [], map[])
  }

  predicate Issued(w: World, id: Id) {
    exists t :: t in w.tickets && t.reservation.exchangeId == id
  }

  predicate Enabled(w: World, e: Event) {
    match e
    case ReserveEvent(request, _, freshId) => request.conversationId == w.id && !Issued(w, freshId)
    case CompleteEvent(ticket, chat, _) => ticket < |w.tickets| && chat.Valid()
    case PurgeEvent(_) => true
  }

  /** What a ticket holder's completion does: build the update, then complete. */
  function CompleteWith(conversation: Option<Conversation>, t: Ticket, chat: ChatResult, now: Time, settings: Settings): Tx<Persisted> {
    match BuildStateUpdate(t.reservation, t.request, settings)
    case Err(code) => Tx(conversation, Err(code))
    case Ok(update) => CompleteTx(conversation, t.reservation, chat, update, now, settings)
  }

  function ReserveStep(w: World, request: Request, now: Time, freshId: Id, settings: Settings): World {
    var tx := ReserveTx(w.conversation, request, now, freshId, settings);
    if tx.result.Ok? && tx.result.value.Reserved? && tx.conversation.Some?
    then w.(conversation := tx.conversation,
            tickets := w.tickets + [Ticket(request, tx.result.value.reservation, now, tx.conversation.value)])
    else w.(conversation := tx.conversation)
  }

  function CompleteStep(w: World, ticket: nat, chat: ChatResult, now: Time, settings: Settings): World
    requires ticket < |w.tickets|
  {
    var t := w.tickets[ticket];
    var tx := CompleteWith(w.conversation, t, chat, now, settings);
    if tx.result.Ok? && w.conversation.Some?
    then w.(conversation := tx.conversation,
            folded := w.folded + Filter(IdIn(t.reservation.plan.exchangeIds), w.conversation.value.rows),
            answers := w.answers[t.reservation.exchangeId := chat])
    else w.(conversation := tx.conversation)
  }

  function Step(w: World, e: Event, settings: Settings): World {
    if !Enabled(w, e) then w
    else match e
      case ReserveEvent(request, now, freshId) => ReserveStep(w, request, now, freshId, settings)
      case CompleteEvent(ticket, chat, now) => CompleteStep(w, ticket, chat, now, settings)
      case PurgeEvent(now) => w.(conversation := Purge(w.conversation, now))
  }

  function Run(w: World, events: seq<Event>, settings: Settings): World {
    if events == [] then w else Step(Run(w, events[..|events| - 1], settings), events[|events| - 1], settings)
  }

  // ----- the invariant -----

  function History(w: World): seq<Exchange>
    requires w.conversation.Some?
  {
    w.folded + w.conversation.value.rows
  }

  function Newest<T>(s: seq<T>): T
    requires s != []
  {
    s[|s| - 1]
  }

  function Older<T>(s: seq<T>): seq<T>
    requires s != []
  {
    s[..|s| - 1]
  }

  /** The rows are the newest block of all ordinals ever issued; only the newest row
      may still be processing. */
  ghost predicate Window(w: World)
    requires w.conversation.Some?
  {
    var rows := w.conversation.value.rows;
    && |w.folded| + |rows| == |w.tickets|
    && (w.tickets != [] ==> rows != [])
    && Consecutive(w.folded, 0) && AllTerminal(w.folded)
    && Consecutive(rows, |w.folded|)
    && (rows != [] ==> AllTerminal(Older(rows)))
  }

  predicate RowOfTicket(row: Exchange, t: Ticket) {
    row.id == t.reservation.exchangeId && row.key == t.request.deliveryId && row.userText == t.request.text
  }

  ghost predicate DistinctTickets(tickets: seq<Ticket>) {
    forall i, j :: 0 <= i < j < |tickets| ==> tickets[i].reservation.exchangeId != tickets[j].reservation.exchangeId
  }

  /** Every row is the row of its ticket; no id is issued twice; no key is live twice. */
  ghost predicate Identity(w: World)
    requires w.conversation.Some?
  {
    && |History(w)| == |w.tickets|
    && (forall j :: 0 <= j < |w.tickets| ==> RowOfTicket(History(w)[j], w.tickets[j]))
    && DistinctTickets(w.tickets)
    && forall i, j :: 0 <= i < j < |w.conversation.value.rows| ==> w.conversation.value.rows[i].key != w.conversation.value.rows[j].key
  }

  ghost predicate RowRecorded(row: Exchange, answers: map<Id, ChatResult>) {
    && WellKeyed(row)
    && if row.status.Completed? then row.id in answers && Records(row, answers[row.id]) else Unanswered(row)
  }

  ghost predicate Recorded(w: World)
    requires w.conversation.Some?
  {
    forall j :: 0 <= j < |History(w)| ==> RowRecorded(History(w)[j], w.answers)
  }

  /** A ticket is what the reserving transaction computed from the row it committed. */
  ghost predicate Genuine(t: Ticket, j: nat, id: Id, settings: Settings) {
    && t.reservation.conversationId == id && t.request.conversationId == id
    && t.reservation.ordinal == j + 1
    && t.asOf.rows != []
    && Newest(t.asOf.rows) == NewExchange(t.reservation.exchangeId, t.request, j + 1, t.now + settings.leaseSeconds)
    && RequireActive(Some(t.asOf), t.now).Ok?
    && ReservationFor(t.asOf, id, Newest(t.asOf.rows), settings) == Some(t.reservation)
  }

  ghost predicate AllGenuine(w: World, settings: Settings) {
    && DistinctTickets(w.tickets)
    && forall j :: 0 <= j < |w.tickets| ==> Genuine(w.tickets[j], j, w.id, settings)
  }

  /** While the newest exchange is processing, the whole conversation is exactly as
      its reserver left it. */
  ghost predicate Frozen(w: World)
    requires w.conversation.Some?
  {
    var rows := w.conversation.value.rows;
    rows != [] && w.tickets != [] && Newest(rows).status.Processing? ==> w.conversation.value == Newest(w.tickets).asOf
  }

  function FoldedSummary(folded: seq<Exchange>, settings: Settings): Option<string> {
    Summary(None, Entries(Map(CandidateOf, folded)), settings.summaryMaxChars)
  }

  /** The conversation's own columns, as functions of its history. */
  ghost predicate Columns(w: World, settings: Settings)
    requires w.conversation.Some?
  {
    var c := w.conversation.value;
    && c.stateVersion == |Filter(IsCompleted, History(w))|
    && c.rollingSummary == FoldedSummary(w.folded, settings)
    && OptionalSafe(c.activeTopic, ACTIVE_TOPIC_MAX_CHARS)
    && c.deletedAt.None?
  }

  /** Abandoned rows after the newest completed one. */
  function TrailingAbandoned(rows: seq<Exchange>): nat {
    if rows == [] || Newest(rows).status.Completed? then 0
    else TrailingAbandoned(Older(rows)) + (if Newest(rows).status.Abandoned? then 1 else 0)
  }

  ghost predicate Bounded(w: World, settings: Settings)
    requires w.conversation.Some?
  {
    TerminalCount(w.conversation.value.rows) <= settings.retainedLimit + TrailingAbandoned(w.conversation.value.rows)
  }

  ghost predicate Inv(w: World, settings: Settings) {
    && AllGenuine(w, settings)
    && (w.conversation.Some? ==>
          && Window(w) && Identity(w) && Recorded(w) && Frozen(w) && Columns(w, settings) && Bounded(w, settings))
  }

  lemma InitialInv(id: Id, now: Time, settings: Settings)
    ensures Inv(Initial(id, now, settings), settings)
  {
  }

  // ----- sweeping stale work -----

  lemma SweepOfWindow(rows: seq<Exchange>, now: Time)
    requires rows != [] && AllTerminal(Older(rows))
    ensures AbandonStale(rows, now) == Older(rows) + [AbandonRow(Newest(rows), now)]
  {
  }

  function Swept(w: World, now: Time): World
    requires w.conversation.Some?
  {
    w.(conversation := Some(w.conversation.value.(rows := AbandonStale(w.conversation.value.rows, now))))
  }

  lemma HistorySplit(w: World)
    requires w.conversation.Some? && w.conversation.value.rows != []
    ensures History(w) == (w.folded + Older(w.conversation.value.rows)) + [Newest(w.conversation.value.rows)]
  {
  }

  lemma CountLast(front: seq<Exchange>, last: Exchange)
    ensures |Filter(IsCompleted, front + [last])| == |Filter(IsCompleted, front)| + (if last.status.Completed? then 1 else 0)
  {
    assert (front + [last])[..|front|] == front;
  }

  lemma SweepKeepsColumns(w: World, now: Time, settings: Settings)
    requires w.conversation.Some? && w.conversation.value.rows != []
    requires AllTerminal(Older(w.conversation.value.rows)) && Columns(w, settings)
    ensures Columns(Swept(w, now), settings)
  {
    var rows := w.conversation.value.rows;
    SweepOfWindow(rows, now);
    HistorySplit(w);
    HistorySplit(Swept(w, now));
    CountLast(w.folded + Older(rows), Newest(rows));
    CountLast(w.folded + Older(rows), AbandonRow(Newest(rows), now));
    hide Filter, FoldedSummary;
  }

  lemma TrailingOf(front: seq<Exchange>, last: Exchange)
    ensures TrailingAbandoned(front + [last])
         == if last.status.Completed? then 0
            else TrailingAbandoned(front) + (if last.status.Abandoned? then 1 else 0)
  {
    assert Older(front + [last]) == front;
  }

  lemma SweepKeepsBound(rows: seq<Exchange>, now: Time, limit: nat)
    requires rows != [] && AllTerminal(Older(rows))
    requires TerminalCount(rows) <= limit + TrailingAbandoned(rows)
    ensures TerminalCount(AbandonStale(rows, now)) <= limit + TrailingAbandoned(AbandonStale(rows, now))
  {
    hide TerminalCount, AbandonStale, TrailingAbandoned;
    var last := AbandonRow(Newest(rows), now);
    SweepOfWindow(rows, now);
    TerminalCountOf(Older(rows), Newest(rows));
    TerminalCountOf(Older(rows), last);
    TrailingOf(Older(rows), Newest(rows));
    TrailingOf(Older(rows), last);
    assert rows == Older(rows) + [Newest(rows)];
  }

  lemma SweepKeepsRows(w: World, now: Time)
    requires w.conversation.Some? && Window(w) && Identity(w) && Recorded(w)
    ensures Window(Swept(w, now)) && Identity(Swept(w, now)) && Recorded(Swept(w, now))
  {
    var rows := w.conversation.value.rows;
    var v := Swept(w, now);
    forall i | 0 <= i < |rows| ensures AbandonRow(rows[i], now).ordinal == rows[i].ordinal {
    }
    forall j | 0 <= j < |History(w)|
      ensures RowOfTicket(History(v)[j], w.tickets[j]) && RowRecorded(History(v)[j], w.answers)
    {
      assert RowOfTicket(History(w)[j], w.tickets[j]) && RowRecorded(History(w)[j], w.answers);
      if j >= |w.folded| {
        assert History(v)[j] == AbandonRow(rows[j - |w.folded|], now);
      }
    }
  }

  lemma SweepKeepsFrozen(w: World, now: Time)
    requires w.conversation.Some? && w.conversation.value.rows != []
    requires AllTerminal(Older(w.conversation.value.rows)) && Frozen(w)
    ensures Frozen(Swept(w, now))
  {
    var rows := w.conversation.value.rows;
    SweepOfWindow(rows, now);
    if AbandonRow(Newest(rows), now).status.Processing? {
      assert Older(rows) + [Newest(rows)] == rows;
    }
  }

  lemma SameTickets(w: World, v: World, settings: Settings)
    requires AllGenuine(w, settings) && v.tickets == w.tickets && v.id == w.id
    ensures AllGenuine(v, settings)
  {
    hide Genuine;
  }

  lemma SweepKeeps(w: World, now: Time, settings: Settings)
    requires Inv(w, settings) && w.conversation.Some?
    ensures Inv(Swept(w, now), settings)
  {
    var rows := w.conversation.value.rows;
    if rows != [] {
      assert AllTerminal(Older(rows));
      hide Window, Identity, Recorded, Columns, Frozen, AllGenuine, TerminalCount, TrailingAbandoned, AbandonStale;
      SweepKeepsRows(w, now);
      SweepKeepsFrozen(w, now);
      SweepKeepsColumns(w, now, settings);
      SweepKeepsBound(rows, now, settings.retainedLimit);
      SameTickets(w, Swept(w, now), settings);
    } else {
      assert AbandonStale(rows, now) == rows;
      assert Swept(w, now) == w;
    }
  }

  // ----- a new reservation -----

  function Inserted(w: World, request: Request, now: Time, freshId: Id, reservation: Reservation, settings: Settings): World
    requires w.conversation.Some?
  {
    var c := w.conversation.value;
    var e := NewExchange(freshId, request, MaxOrdinal(c.rows) + 1, now + settings.leaseSeconds);
    var inserted := c.(rows := c.rows + [e]);
    w.(conversation := Some(inserted), tickets := w.tickets + [Ticket(request, reservation, now, inserted)])
  }

  /** The next ordinal is max + 1 of the rows still there, and yet it is never reused. */
  lemma NextOrdinal(w: World)
    requires w.conversation.Some? && Window(w)
    ensures MaxOrdinal(w.conversation.value.rows) == |w.tickets|
  {
    MaxOrdinalOfConsecutive(w.conversation.value.rows, |w.folded|);
  }

  lemma InsertKeepsWindow(w: World, request: Request, now: Time, freshId: Id, reservation: Reservation, settings: Settings)
    requires w.conversation.Some? && Window(w) && !HasProcessing(w.conversation.value.rows)
    ensures Window(Inserted(w, request, now, freshId, reservation, settings))
  {
    NextOrdinal(w);
    hide MaxOrdinal;
    var rows := w.conversation.value.rows;
    var v := Inserted(w, request, now, freshId, reservation, settings);
    assert Older(v.conversation.value.rows) == rows;
    forall i | 0 <= i < |rows| ensures IsTerminal(rows[i].status) {
    }
  }

  lemma InsertKeepsIdentity(w: World, request: Request, now: Time, freshId: Id, reservation: Reservation, settings: Settings)
    requires w.conversation.Some? && Identity(w) && !Issued(w, freshId)
    requires FindByKey(w.conversation.value.rows, request.deliveryId).None? && reservation.exchangeId == freshId
    ensures Identity(Inserted(w, request, now, freshId, reservation, settings))
  {
    var v := Inserted(w, request, now, freshId, reservation, settings);
    var rows := w.conversation.value.rows;
    hide MaxOrdinal;
    FindByKeyOrigin(rows, request.deliveryId);
    assert History(v) == History(w) + [Newest(v.conversation.value.rows)];
    forall j | 0 <= j < |v.tickets| ensures RowOfTicket(History(v)[j], v.tickets[j]) {
      if j < |w.tickets| {
        assert RowOfTicket(History(w)[j], w.tickets[j]);
      }
    }
    forall i, j | 0 <= i < j < |v.tickets| ensures v.tickets[i].reservation.exchangeId != v.tickets[j].reservation.exchangeId {
      assert w.tickets[i] in w.tickets;
    }
  }

  lemma InsertKeepsRecorded(w: World, request: Request, now: Time, freshId: Id, reservation: Reservation, settings: Settings)
    requires w.conversation.Some? && Recorded(w)
    ensures Recorded(Inserted(w, request, now, freshId, reservation, settings))
  {
    var v := Inserted(w, request, now, freshId, reservation, settings);
    hide MaxOrdinal, Records;
    assert History(v) == History(w) + [Newest(v.conversation.value.rows)];
    forall j | 0 <= j < |History(v)| ensures RowRecorded(History(v)[j], v.answers) {
      if j < |History(w)| {
        assert RowRecorded(History(w)[j], w.answers);
      }
    }
  }

  lemma InsertKeepsColumns(w: World, request: Request, now: Time, freshId: Id, reservation: Reservation, settings: Settings)
    requires w.conversation.Some? && Columns(w, settings)
    ensures Columns(Inserted(w, request, now, freshId, reservation, settings), settings)
  {
    var v := Inserted(w, request, now, freshId, reservation, settings);
    hide MaxOrdinal, Filter, FoldedSummary;
    assert History(v) == History(w) + [Newest(v.conversation.value.rows)];
    CountLast(History(w), Newest(v.conversation.value.rows));
  }

  lemma InsertKeepsBound(w: World, request: Request, now: Time, freshId: Id, reservation: Reservation, settings: Settings)
    requires w.conversation.Some? && Bounded(w, settings) && AllTerminal(w.conversation.value.rows)
    ensures Bounded(Inserted(w, request, now, freshId, reservation, settings), settings)
  {
    hide MaxOrdinal, TerminalCount, TrailingAbandoned;
    var rows := w.conversation.value.rows;
    var e := NewExchange(freshId, request, MaxOrdinal(rows) + 1, now + settings.leaseSeconds);
    TerminalCountOf(rows, e);
    TrailingOf(rows, e);
    TerminalCountIsAll(rows);
  }

  lemma TerminalCountIsAll(rows: seq<Exchange>)
    requires AllTerminal(rows)
    ensures TerminalCount(rows) == |rows|
  {
    FilterKeepsTerminal(rows);
  }

  lemma NewTicketIsGenuine(w: World, request: Request, now: Time, freshId: Id, reservation: Reservation, settings: Settings)
    requires w.conversation.Some? && Window(w) && request.conversationId == w.id
    requires RequireActive(w.conversation, now).Ok?
    requires var v := Inserted(w, request, now, freshId, reservation, settings);
      ReservationFor(v.conversation.value, w.id, Newest(v.conversation.value.rows), settings) == Some(reservation)
    ensures Genuine(Newest(Inserted(w, request, now, freshId, reservation, settings).tickets), |w.tickets|, w.id, settings)
  {
    hide MaxOrdinal, PlanFor, LoadSnapshot, Plan.Valid, Snapshot.Valid, Window;
    NextOrdinal(w);
  }

  lemma InsertKeepsTickets(w: World, request: Request, now: Time, freshId: Id, reservation: Reservation, settings: Settings)
    requires w.conversation.Some? && AllGenuine(w, settings) && Window(w) && request.conversationId == w.id
    requires RequireActive(w.conversation, now).Ok?
    requires var v := Inserted(w, request, now, freshId, reservation, settings);
      ReservationFor(v.conversation.value, w.id, Newest(v.conversation.value.rows), settings) == Some(reservation)
    requires DistinctTickets(Inserted(w, request, now, freshId, reservation, settings).tickets)
    ensures AllGenuine(Inserted(w, request, now, freshId, reservation, settings), settings)
  {
    hide DistinctTickets, Genuine, Window, MaxOrdinal, ReservationFor, RequireActive;
    NewTicketIsGenuine(w, request, now, freshId, reservation, settings);
  }

  lemma IdentityIsDistinct(w: World)
    requires w.conversation.Some? && Identity(w)
    ensures DistinctTickets(w.tickets)
  {
    hide DistinctTickets;
  }

  lemma NoProcessingMeansTerminal(rows: seq<Exchange>)
    requires !HasProcessing(rows)
    ensures AllTerminal(rows)
  {
  }

  lemma InsertKeeps(w: World, request: Request, now: Time, freshId: Id, reservation: Reservation, settings: Settings)
    requires Inv(w, settings) && w.conversation.Some? && !Issued(w, freshId) && request.conversationId == w.id
    requires RequireActive(w.conversation, now).Ok? && !HasProcessing(w.conversation.value.rows)
    requires FindByKey(w.conversation.value.rows, request.deliveryId).None? && reservation.exchangeId == freshId
    requires var v := Inserted(w, request, now, freshId, reservation, settings);
      ReservationFor(v.conversation.value, w.id, Newest(v.conversation.value.rows), settings) == Some(reservation)
    ensures Inv(Inserted(w, request, now, freshId, reservation, settings), settings)
  {
    NoProcessingMeansTerminal(w.conversation.value.rows);
    hide Window, Identity, Recorded, Columns, Bounded, AllGenuine, MaxOrdinal, ReservationFor, HasProcessing, FindByKey;
    InsertKeepsWindow(w, request, now, freshId, reservation, settings);
    InsertKeepsIdentity(w, request, now, freshId, reservation, settings);
    InsertKeepsRecorded(w, request, now, freshId, reservation, settings);
    InsertKeepsColumns(w, request, now, freshId, reservation, settings);
    InsertKeepsBound(w, request, now, freshId, reservation, settings);
    IdentityIsDistinct(Inserted(w, request, now, freshId, reservation, settings));
    InsertKeepsTickets(w, request, now, freshId, reservation, settings);
    assert Frozen(Inserted(w, request, now, freshId, reservation, settings));
  }

  /** `v` is `w` with a new exchange that can be reserved as `reservation`. */
  ghost predicate Inserts(w: World, v: World, request: Request, now: Time, freshId: Id, reservation: Reservation, settings: Settings) {
    && w.conversation.Some? && RequireActive(w.conversation, now).Ok?
    && FindByKey(w.conversation.value.rows, request.deliveryId).None?
    && !HasProcessing(w.conversation.value.rows)
    && reservation.exchangeId == freshId
    && v == Inserted(w, request, now, freshId, reservation, settings)
    && ReservationFor(v.conversation.value, w.id, Newest(v.conversation.value.rows), settings) == Some(reservation)
  }

  /** A reserving transaction leaves its world, sweeps it, or sweeps it and inserts. */
  lemma ReserveCases(w: World, request: Request, now: Time, freshId: Id, settings: Settings)
    requires request.conversationId == w.id
    ensures var v := ReserveStep(w, request, now, freshId, settings);
      || v == w
      || (w.conversation.Some? && v == Swept(w, now))
      || (w.conversation.Some?
          && exists reservation: Reservation :: Inserts(Swept(w, now), v, request, now, freshId, reservation, settings))
  {
    hide AbandonStale, FindByKey, HasProcessing, MaxOrdinal, PlanFor, LoadSnapshot, Plan.Valid, Snapshot.Valid;
    hide PersistedOf;
    var tx := ReserveTx(w.conversation, request, now, freshId, settings);
    if tx.result.Ok? && tx.result.value.Reserved? {
      var v := ReserveStep(w, request, now, freshId, settings);
      assert Inserts(Swept(w, now), v, request, now, freshId, tx.result.value.reservation, settings);
    }
  }

  lemma ReserveKeeps(w: World, request: Request, now: Time, freshId: Id, settings: Settings)
    requires Inv(w, settings) && request.conversationId == w.id && !Issued(w, freshId)
    ensures Inv(ReserveStep(w, request, now, freshId, settings), settings)
  {
    hide Inv, ReserveStep, Inserted, ReservationFor, RequireActive, FindByKey, HasProcessing;
    var v := ReserveStep(w, request, now, freshId, settings);
    ReserveCases(w, request, now, freshId, settings);
    if v != w {
      SweepKeeps(w, now, settings);
      if v != Swept(w, now) {
        var reservation: Reservation :| Inserts(Swept(w, now), v, request, now, freshId, reservation, settings);
        InsertKeeps(Swept(w, now), request, now, freshId, reservation, settings);
      }
    }
  }
}
