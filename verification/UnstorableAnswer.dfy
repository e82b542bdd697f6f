/** A result the store cannot hold: its delivery is reserved and asked once, never answered,
    and every later delivery of it is told so until its row is folded away. */
module UnstorableAnswer {
  import opened Wrappers
  import opened Sequences
  import opened ChatModels
  import opened ConversationModels
  import opened ConversationPolicy
  import opened ConversationStore
  import opened ConversationFacts
  import opened ConversationProtocol
  import opened ConversationCompletion
  import opened ConversationTheorems
  import opened ConversationReplay
  import opened ConversationProgress
  import opened ConversationService
  import G = GroundedChat

  // ----- a ticket whose holder has nothing storable -----

  /** Whoever completes this ticket brings a result that cannot be stored. */
  predicate NothingStorable(events: seq<Event>, ticket: nat) {
    forall i :: 0 <= i < |events| ==> BringsNothing(events[i], ticket)
  }

  predicate BringsNothing(e: Event, ticket: nat) {
    e.CompleteEvent? && e.ticket == ticket ==> !Storable(e.chat)
  }

  /** The exchange of the ticket, retained or folded, was never completed. */
  ghost predicate Uncompleted(w: World, ticket: nat) {
    w.conversation.Some? ==> ticket < |History(w)| && !History(w)[ticket].status.Completed?
  }

  lemma SweepCompletesNothing(w: World, now: Time, ticket: nat)
    requires w.conversation.Some? && Uncompleted(w, ticket)
    ensures Uncompleted(Swept(w, now), ticket)
  {
    assert ticket >= |w.folded| ==>
      History(Swept(w, now))[ticket] == AbandonRow(w.conversation.value.rows[ticket - |w.folded|], now);
  }

  lemma ReserveCompletesNothing(w: World, request: Request, now: Time, freshId: Id, ticket: nat, settings: Settings)
    requires request.conversationId == w.id && Uncompleted(w, ticket)
    ensures Uncompleted(ReserveStep(w, request, now, freshId, settings), ticket)
  {
    hide ReserveStep, MaxOrdinal, RequireActive, FindByKey, HasProcessing, ReservationFor, AbandonStale;
    var v := ReserveStep(w, request, now, freshId, settings);
    ReserveCases(w, request, now, freshId, settings);
    if v != w {
      SweepCompletesNothing(w, now, ticket);
      if v != Swept(w, now) {
        var reservation: Reservation :| Inserts(Swept(w, now), v, request, now, freshId, reservation, settings);
        assert History(v) == History(Swept(w, now)) + [Newest(v.conversation.value.rows)];
      }
    }
  }

  lemma CompletionCompletesItsOwn(w: World, e: Event, ticket: nat, settings: Settings)
    requires Inv(w, settings) && e.CompleteEvent? && Enabled(w, e) && Uncompleted(w, ticket) && BringsNothing(e, ticket)
    ensures Uncompleted(Step(w, e, settings), ticket)
  {
    hide Inv, CompleteStep, CompleteWith, BuildStateUpdate, ChatResult.Valid, Storable, PersistedRecord, RequireActive;
    hide Window, Identity, Recorded, Frozen, Columns, Bounded, AllGenuine, Finished;
    if CompleteWith(w.conversation, w.tickets[e.ticket], e.chat, e.now, settings).result.Ok? {
      SuccessIsInFlight(w, e.ticket, e.chat, e.now, settings);
      CompletionInFlight(w, e.chat, e.now, settings);
      InvParts(w, settings);
      var update := BuildStateUpdate(w.tickets[e.ticket].reservation, w.tickets[e.ticket].request, settings).value;
      HistoryAfterCompletion(w, e.chat, update, e.now, settings);
      HistoryIsTickets(w);
    } else {
      FailedCompletionLeaves(w, e.ticket, e.chat, e.now, settings);
    }
  }

  lemma HistoryIsTickets(w: World)
    requires w.conversation.Some? && Identity(w)
    ensures |History(w)| == |w.tickets|
  {
  }

  lemma {:induction false} NothingStorableNothingCompleted(u: World, events: seq<Event>, ticket: nat, settings: Settings)
    requires Inv(u, settings) && Uncompleted(u, ticket) && NothingStorable(events, ticket)
    ensures Inv(Run(u, events, settings), settings) && Uncompleted(Run(u, events, settings), ticket)
  {
    hide Inv, ReserveStep, CompleteStep, Uncompleted, BringsNothing, ChatResult.Valid;
    if events != [] {
      var front, e := events[..|events| - 1], events[|events| - 1];
      NothingStorableNothingCompleted(u, front, ticket, settings);
      var before := Run(u, front, settings);
      StepKeeps(before, e, settings);
      assert BringsNothing(e, ticket);
      if Enabled(before, e) {
        match e
        case ReserveEvent(request, now, freshId) => ReserveCompletesNothing(before, request, now, freshId, ticket, settings);
        case CompleteEvent(_, _, _) => CompletionCompletesItsOwn(before, e, ticket, settings);
        case PurgeEvent(now) => PurgeCompletesNothing(before, now, ticket);
      }
    }
  }

  lemma PurgeCompletesNothing(w: World, now: Time, ticket: nat)
    requires Uncompleted(w, ticket)
    ensures Uncompleted(w.(conversation := Purge(w.conversation, now)), ticket)
  {
    assert w.(conversation := w.conversation) == w;
  }

  // ----- delivering it again -----

  /** What the service answers a known delivery that was not completed. */
  function ToldAgain(id: Id, row: Exchange, expiresAt: Time, later: Time): Result<Reply, ErrorCode> {
    if expiresAt <= later then Err(Expired)
    else if IsLeased(row, later) then Ok(Reply(id, row.id, Processing, true, None))
    else Err(LeaseExpired)
  }

  lemma RedeliveryIsTold(v: World, k: nat, request: Request, later: Time, freshId: Id, port: Option<ChatResult>,
                         resolver: Resolver, settings: Settings)
    requires Inv(v, settings) && v.conversation.Some? && request.conversationId == v.id
    requires k < |v.conversation.value.rows| && v.conversation.value.rows[k].key == request.deliveryId
    requires !v.conversation.value.rows[k].status.Completed?
    ensures RespondTx(v.conversation, request, later, freshId, port, resolver, settings).result
      == ToldAgain(v.id, v.conversation.value.rows[k], v.conversation.value.expiresAt, later)
  {
    hide Inv, ReserveTx, CompleteWith, ReplayCompleted, FindByKey, IsLeased;
    KeysOfInv(v, settings);
    FindByKeyAt(v.conversation.value.rows, k);
    ReserveIsDecided(v, request, later, freshId, settings);
  }

  lemma KeysOfInv(v: World, settings: Settings)
    requires Inv(v, settings) && v.conversation.Some?
    ensures var rows := v.conversation.value.rows;
      forall i, j :: 0 <= i < j < |rows| ==> rows[i].key != rows[j].key
  {
    hide Inv, Window, Recorded, Frozen, Columns, Bounded, AllGenuine, RowOfTicket, DistinctTickets;
    InvParts(v, settings);
  }

  lemma RowOfItsTicket(v: World, k: nat, ticket: nat, settings: Settings)
    requires Inv(v, settings) && v.conversation.Some? && ticket < |v.tickets| && Uncompleted(v, ticket)
    requires k < |v.conversation.value.rows| && v.conversation.value.rows[k].id == v.tickets[ticket].reservation.exchangeId
    ensures !v.conversation.value.rows[k].status.Completed? && v.conversation.value.rows[k].key == v.tickets[ticket].request.deliveryId
  {
    hide Inv, Window, Recorded, Frozen, Columns, Bounded, AllGenuine;
    InvParts(v, settings);
    var j := |v.folded| + k;
    assert RowOfTicket(History(v)[j], v.tickets[j]);
    assert j == ticket;
  }

  // ----- the whole story -----

  /** A conversation that reserves the delivery now. */
  ghost predicate CanReserve(w: World, request: Request, now: Time, freshId: Id) {
    && Enabled(w, ReserveEvent(request, now, freshId)) && w.conversation.Some? && now < w.conversation.value.expiresAt
    && FindByKey(w.conversation.value.rows, request.deliveryId).None?
    && (w.conversation.value.rows != [] ==> !IsLeased(Newest(w.conversation.value.rows), now))
  }

  /** The service reports an error and leaves the exchange PROCESSING. */
  lemma UnstorableIsAnError(w: World, request: Request, now: Time, freshId: Id, port: Option<ChatResult>,
                            resolver: Resolver, settings: Settings)
    requires Inv(w, settings) && CanReserve(w, request, now, freshId) && !Storable(Answered(port))
    ensures var u := Step(w, ReserveEvent(request, now, freshId), settings);
      var tx := RespondTx(w.conversation, request, now, freshId, port, resolver, settings);
      && tx.result.Err? && tx.conversation == u.conversation && u.id == w.id
      && Inv(u, settings) && InFlight(u) && |u.tickets| == |w.tickets| + 1
      && u.tickets[|w.tickets|].reservation.exchangeId == freshId && u.tickets[|w.tickets|].request == request
  {
    hide Inv, ReserveTx, CompleteTx, BuildStateUpdate, ReplayCompleted, ChatResult.Valid, FindByKey, IsLeased, Storable;
    hide FixedRefusal;
    var u := Step(w, ReserveEvent(request, now, freshId), settings);
    AnsweredIsValid(port);
    NewDeliveryIsDecided(w, request, now, freshId, settings);
    ReservesItsOwn(w.conversation, request, now, freshId, settings);
    ReserveKeeps(w, request, now, freshId, settings);
    ReservedIsInFlight(w, request, now, freshId, settings);
    CompletionInFlight(u, Answered(port), now, settings);
  }

  lemma ReservedIsInFlight(w: World, request: Request, now: Time, freshId: Id, settings: Settings)
    requires w.conversation.Some? && request.conversationId == w.id
    requires var tx := ReserveTx(w.conversation, request, now, freshId, settings);
      tx.result.Ok? && tx.result.value.Reserved?
    ensures var u := ReserveStep(w, request, now, freshId, settings);
      && InFlight(u) && u.id == w.id && Newest(u.tickets).reservation.exchangeId == freshId
  {
    hide AbandonStale, FindByKey, HasProcessing, MaxOrdinal, PlanFor, LoadSnapshot, Plan.Valid, Snapshot.Valid;
  }

  /** When what the chat port returns cannot be stored, the service fails, and whatever
      happens afterwards, short of someone storing something else for the same ticket, the
      delivery is never answered while its exchange exists: whoever delivers it again is told
      that it is being processed until its lease ends, and then that its lease has expired. */
  lemma UnstorableIsNeverAnswered(w: World, request: Request, now: Time, freshId: Id, port: Option<ChatResult>, events: seq<Event>,
                                  later: Time, otherId: Id, otherPort: Option<ChatResult>, resolver: Resolver, settings: Settings)
    requires Inv(w, settings) && CanReserve(w, request, now, freshId) && !Storable(Answered(port))
    requires NothingStorable(events, |w.tickets|)
    ensures RespondTx(w.conversation, request, now, freshId, port, resolver, settings).result.Err?
    ensures var v := Run(Step(w, ReserveEvent(request, now, freshId), settings), events, settings);
      v.conversation.Some? ==>
        forall k :: 0 <= k < |v.conversation.value.rows| && v.conversation.value.rows[k].id == freshId ==>
          RespondTx(v.conversation, request, later, otherId, otherPort, resolver, settings).result
          == ToldAgain(w.id, v.conversation.value.rows[k], v.conversation.value.expiresAt, later)
  {
    hide Inv, ReserveTx, RespondTx, FindByKey, IsLeased, Storable, Run, Step, NothingStorable, ToldAgain;
    var u := Step(w, ReserveEvent(request, now, freshId), settings);
    UnstorableIsAnError(w, request, now, freshId, port, resolver, settings);
    InFlightIsUncompleted(u, |w.tickets|, settings);
    NothingStorableNothingCompleted(u, events, |w.tickets|, settings);
    var v := Run(u, events, settings);
    if v.conversation.Some? {
      RunEvolves(u, events, settings);
      SameConversation(u, events, settings);
      forall k | 0 <= k < |v.conversation.value.rows| && v.conversation.value.rows[k].id == freshId
        ensures RespondTx(v.conversation, request, later, otherId, otherPort, resolver, settings).result
          == ToldAgain(w.id, v.conversation.value.rows[k], v.conversation.value.expiresAt, later)
      {
        assert v.tickets[|w.tickets|] == u.tickets[|w.tickets|];
        RowOfItsTicket(v, k, |w.tickets|, settings);
        RedeliveryIsTold(v, k, request, later, otherId, otherPort, resolver, settings);
      }
    }
  }

  lemma InFlightIsUncompleted(u: World, ticket: nat, settings: Settings)
    requires Inv(u, settings) && InFlight(u) && ticket == |u.tickets| - 1
    ensures Uncompleted(u, ticket)
  {
    hide Inv, Window, Recorded, Frozen, Columns, Bounded, AllGenuine;
    InvParts(u, settings);
  }

  lemma {:induction false} SameConversation(u: World, events: seq<Event>, settings: Settings)
    ensures Run(u, events, settings).id == u.id
  {
    hide ReserveStep, CompleteStep, ChatResult.Valid;
    if events != [] {
      var before := Run(u, events[..|events| - 1], settings);
      SameConversation(u, events[..|events| - 1], settings);
      StepKeepsId(before, events[|events| - 1], settings);
    }
  }

  lemma StepKeepsId(w: World, e: Event, settings: Settings)
    ensures Step(w, e, settings).id == w.id
  {
    hide ReserveTx, CompleteWith, ChatResult.Valid, Filter;
  }

  /** So it is with every answer of the pipeline that holds a line break or a tab. */
  lemma AnswerWithControlIsNeverAnswered(question: G.Question, ports: G.Ports, chatSettings: G.ChatSettings,
                                         w: World, request: Request, now: Time, freshId: Id, events: seq<Event>, later: Time,
                                         otherId: Id, otherPort: Option<ChatResult>, resolver: Resolver, settings: Settings)
    requires Inv(w, settings) && CanReserve(w, request, now, freshId) && G.CannotBeStored(question, ports, chatSettings)
    requires NothingStorable(events, |w.tickets|)
    ensures var port := Some(G.Responded(question, ports, chatSettings));
      RespondTx(w.conversation, request, now, freshId, port, resolver, settings).result.Err?
    ensures var v := Run(Step(w, ReserveEvent(request, now, freshId), settings), events, settings);
      v.conversation.Some? ==>
        forall k :: 0 <= k < |v.conversation.value.rows| && v.conversation.value.rows[k].id == freshId ==>
          RespondTx(v.conversation, request, later, otherId, otherPort, resolver, settings).result
          == ToldAgain(w.id, v.conversation.value.rows[k], v.conversation.value.expiresAt, later)
  {
    hide Inv, RespondTx, Storable, Run, Step, NothingStorable, ToldAgain, CanReserve, ChatResult.Valid;
    hide G.Responded, G.CannotBeStored;
    var port := Some(G.Responded(question, ports, chatSettings));
    G.EveryResultFitsTheStore(question, ports, chatSettings);
    UnstorableIsNeverAnswered(w, request, now, freshId, port, events, later, otherId, otherPort, resolver, settings);
  }
}
