/** Reservations never fail on what the store itself wrote, and completion is possible
    exactly until the conversation is overfull. */
module ConversationProgress {
  import opened Wrappers
  import opened Sequences
  import opened ChatModels
  import opened ConversationModels
  import opened ConversationPolicy
  import opened SnapshotConstruction
  import opened ConversationStore
  import opened ConversationFacts
  import opened ConversationProtocol
  import opened ConversationCompletion
  import opened ConversationTheorems
  import opened ConversationReplay

  predicate Ascending(rows: seq<Exchange>) {
    forall i, j :: 0 <= i < j < |rows| ==> rows[i].ordinal < rows[j].ordinal
  }

  ghost predicate AllRecorded(rows: seq<Exchange>, answers: map<Id, ChatResult>) {
    forall i :: 0 <= i < |rows| ==> RowRecorded(rows[i], answers)
  }

  /** Appending a newer row to ascending recorded rows. */
  lemma AscendAppend(done: seq<Exchange>, front: seq<Exchange>, last: Exchange, answers: map<Id, ChatResult>)
    requires Ascending(done) && AllRecorded(done, answers) && RowRecorded(last, answers)
    requires forall i :: 0 <= i < |done| ==> done[i] in front
    requires forall k :: 0 <= k < |front| ==> front[k].ordinal < last.ordinal
    ensures Ascending(done + [last]) && AllRecorded(done + [last], answers)
  {
    hide RowRecorded;
    forall i | 0 <= i < |done| ensures done[i].ordinal < last.ordinal {
      var k :| 0 <= k < |front| && front[k] == done[i];
    }
  }

  lemma FrontAscends(rows: seq<Exchange>, answers: map<Id, ChatResult>)
    requires rows != [] && Ascending(rows) && AllRecorded(rows, answers)
    ensures var front, last := rows[..|rows| - 1], rows[|rows| - 1];
      && Ascending(front) && AllRecorded(front, answers) && RowRecorded(last, answers)
      && forall k :: 0 <= k < |front| ==> front[k].ordinal < last.ordinal
  {
    hide RowRecorded;
  }

  lemma {:induction false} CompletedAscend(rows: seq<Exchange>, answers: map<Id, ChatResult>)
    requires Ascending(rows) && AllRecorded(rows, answers)
    ensures var done := Filter(IsCompleted, rows);
      && Ascending(done) && AllRecorded(done, answers)
      && (forall i :: 0 <= i < |done| ==> done[i].status.Completed? && done[i] in rows)
  {
    hide RowRecorded, Ascending, AllRecorded;
    if rows != [] {
      var front, last := rows[..|rows| - 1], rows[|rows| - 1];
      FrontAscends(rows, answers);
      CompletedAscend(front, answers);
      AscendAppend(Filter(IsCompleted, front), front, last, answers);
      FilterMembers(IsCompleted, rows);
    } else {
      NothingAscends(answers);
    }
  }

  lemma NothingAscends(answers: map<Id, ChatResult>)
    ensures Ascending([]) && AllRecorded([], answers)
  {
  }

  lemma CompletedByOrdinalIsFiltered(rows: seq<Exchange>, answers: map<Id, ChatResult>)
    requires Ascending(rows) && AllRecorded(rows, answers)
    ensures CompletedByOrdinal(rows) == Filter(IsCompleted, rows)
  {
    hide RowRecorded, AllRecorded;
    CompletedAscend(rows, answers);
    hide Filter, OrderBy;
    OrderByIdentity(OrdinalOf, Filter(IsCompleted, rows));
  }

  lemma TurnsOfRecord(row: Exchange, answers: map<Id, ChatResult>)
    requires row.status.Completed? && RowRecorded(row, answers)
    ensures TurnsOf(row)[0].Valid() && TurnsOf(row)[0].ordinal == 2 * row.ordinal - 1
    ensures TurnsOf(row)[1].Valid() && TurnsOf(row)[1].ordinal == 2 * row.ordinal
  {
    hide SafeText, DerivedReferences, Distinct;
  }

  ghost predicate ValidTurns(turns: seq<Turn>) {
    && (forall t :: t in turns ==> t.Valid())
    && (forall i, j :: 0 <= i < j < |turns| ==> turns[i].ordinal < turns[j].ordinal)
  }

  lemma TurnsOfRecords(done: seq<Exchange>, answers: map<Id, ChatResult>)
    requires Ascending(done) && AllRecorded(done, answers)
    requires forall i :: 0 <= i < |done| ==> done[i].status.Completed?
    ensures ValidTurns(Flatten(Map(TurnsOf, done)))
  {
    hide RowRecorded, Flatten, Turn.Valid, TurnsOf;
    var turns := Flatten(Map(TurnsOf, done));
    FlattenPairs(done);
    forall k | 0 <= k < |turns|
      ensures turns[k].Valid() && turns[k].ordinal == 2 * done[k / 2].ordinal - 1 + k % 2
    {
      assert PairsAt(turns, done, k / 2);
      TurnsOfRecord(done[k / 2], answers);
      assert k == 2 * (k / 2) + k % 2;
    }
    forall i, j | 0 <= i < j < |turns| ensures turns[i].ordinal < turns[j].ordinal {
      if i / 2 < j / 2 {
        assert done[i / 2].ordinal < done[j / 2].ordinal;
      }
    }
  }

  lemma LastTurnsAreValid(turns: seq<Turn>, n: nat)
    requires ValidTurns(turns)
    ensures ValidTurns(Last(turns, n)) && |Last(turns, n)| <= n
  {
    hide Turn.Valid;
  }

  lemma RecentTurnsAreValid(rows: seq<Exchange>, answers: map<Id, ChatResult>, limit: nat)
    requires Ascending(rows) && AllRecorded(rows, answers)
    ensures ValidTurns(RecentTurns(rows, limit)) && |RecentTurns(rows, limit)| <= limit
  {
    hide AllRecorded, Ascending, RecentTurns, Flatten, Filter, ValidTurns, CompletedByOrdinal;
    RecentTurnsAreTheLastOnes(rows, limit);
    CompletedByOrdinalIsFiltered(rows, answers);
    CompletedAscend(rows, answers);
    TurnsOfRecords(Filter(IsCompleted, rows), answers);
    LastTurnsAreValid(AllTurns(rows), limit);
  }

  /** Snapshot construction always satisfies the snapshot's own validator. */
  lemma SnapshotIsValid(c: Conversation, answers: map<Id, ChatResult>, settings: Settings)
    requires Ascending(c.rows) && AllRecorded(c.rows, answers)
    requires OptionalSafe(c.rollingSummary, ROLLING_SUMMARY_MAX_CHARS) && OptionalSafe(c.activeTopic, ACTIVE_TOPIC_MAX_CHARS)
    ensures LoadSnapshot(c, settings).Valid()
  {
    hide AllRecorded, Ascending, RecentTurns, ReferenceStream, SelectReferences, ReferencesValid, SafeText, Turn.Valid;
    RecentTurnsAreValid(c.rows, answers, settings.recentTurnLimit);
    SelectedReferencesAreValid(ReferenceStream(c.rows, settings.retainedLimit), settings.referenceLimit);
  }

  lemma CandidateIsValid(row: Exchange, answers: map<Id, ChatResult>)
    requires RowRecorded(row, answers) && IsTerminal(row.status)
    ensures CandidateOf(row).Valid()
  {
    hide SafeText, Distinct, DerivedReferences, ReferencesUnique;
    if row.status.Completed? {
      DerivedReferencesRoundTrip(answers[row.id]);
    } else {
      NoReferencesNoKinds();
    }
  }

  lemma NoReferencesNoKinds()
    ensures OfKind(CitationRef, []) == [] && OfKind(DocumentRef, []) == []
  {
  }

  lemma PlanIsValid(rows: seq<Exchange>, last: Exchange, before: nat, answers: map<Id, ChatResult>, settings: Settings)
    requires Consecutive(rows, before) && AllTerminal(rows) && last.status.Processing?
    requires AllRecorded(rows, answers) && DistinctIds(rows)
    ensures PlanFor(rows + [last], settings.retainedLimit).Valid()
  {
    hide PlanFor, RowRecorded, CandidateOf, Consecutive, Candidate.Valid;
    PlanOfWindow(rows, last, before, settings.retainedLimit);
    var n := Excess(|rows| + 1, settings.retainedLimit);
    var oldest := rows[..n];
    var candidates := Map(CandidateOf, oldest);
    forall i | 0 <= i < n ensures candidates[i].Valid() && candidates[i].exchangeId == oldest[i].id {
      CandidateIsValid(oldest[i], answers);
      CandidateKeepsId(oldest[i]);
    }
    assert Map(IdOf, oldest) == Map(CandidateIdOf, candidates);
  }

  lemma CandidateKeepsId(e: Exchange)
    ensures CandidateOf(e).exchangeId == e.id
  {
  }

  lemma RowsAreRecorded(w: World)
    requires w.conversation.Some? && Recorded(w) && Window(w)
    ensures AllRecorded(w.conversation.value.rows, w.answers) && Ascending(w.conversation.value.rows)
  {
    hide RowRecorded, AllTerminal;
    var rows := w.conversation.value.rows;
    forall i | 0 <= i < |rows| ensures RowRecorded(rows[i], w.answers) {
      assert History(w)[|w.folded| + i] == rows[i];
    }
  }

  lemma ColumnsAreSafe(w: World, settings: Settings)
    requires w.conversation.Some? && Columns(w, settings)
    ensures OptionalSafe(w.conversation.value.rollingSummary, ROLLING_SUMMARY_MAX_CHARS)
    ensures OptionalSafe(w.conversation.value.activeTopic, ACTIVE_TOPIC_MAX_CHARS)
    ensures w.conversation.value.deletedAt.None?
  {
    hide Summary, Filter, SafeText, Entries;
    SummaryIsStorable(None, Map(CandidateOf, w.folded), settings.summaryMaxChars);
  }

  /** A new delivery on an idle, active conversation is always reserved. */
  lemma IdleReserveSucceeds(w: World, request: Request, now: Time, freshId: Id, settings: Settings)
    requires Inv(w, settings) && w.conversation.Some? && request.conversationId == w.id
    requires !HasProcessing(w.conversation.value.rows) && now < w.conversation.value.expiresAt
    requires FindByKey(w.conversation.value.rows, request.deliveryId).None?
    ensures var tx := ReserveTx(w.conversation, request, now, freshId, settings);
      tx.result.Ok? && tx.result.value.Reserved?
  {
    hide Inv, Window, Identity, Recorded, Columns, Bounded, Frozen, AllGenuine, MaxOrdinal, PlanFor, LoadSnapshot;
    hide Plan.Valid, Snapshot.Valid, HasProcessing, FindByKey;
    InvParts(w, settings);
    ColumnsAreSafe(w, settings);
    var c := w.conversation.value;
    IdleSweepIsIdentity(c.rows, now);
    var e := NewExchange(freshId, request, MaxOrdinal(c.rows) + 1, now + settings.leaseSeconds);
    IdleReservationExists(w, e, settings);
  }

  lemma IdleSweepIsIdentity(rows: seq<Exchange>, now: Time)
    requires !HasProcessing(rows)
    ensures AbandonStale(rows, now) == rows
  {
    forall i | 0 <= i < |rows| ensures AbandonRow(rows[i], now) == rows[i] {
    }
  }

  lemma IdleReservationExists(w: World, e: Exchange, settings: Settings)
    requires Inv(w, settings) && w.conversation.Some? && !HasProcessing(w.conversation.value.rows)
    requires e.status.Processing? && e.ordinal == MaxOrdinal(w.conversation.value.rows) + 1
    requires WellKeyed(e) && Unanswered(e)
    ensures ReservationFor(w.conversation.value.(rows := w.conversation.value.rows + [e]), w.id, e, settings).Some?
  {
    hide Inv, Identity, Recorded, Columns, Bounded, Frozen, AllGenuine, MaxOrdinal, PlanFor, LoadSnapshot;
    hide Plan.Valid, Snapshot.Valid, HasProcessing, AllTerminal, Consecutive, DistinctIds, AllRecorded;
    InvParts(w, settings);
    ColumnsAreSafe(w, settings);
    RowsAreRecorded(w);
    IdsAreDistinct(w);
    NoProcessingMeansTerminal(w.conversation.value.rows);
    NextOrdinal(w);
    var c := w.conversation.value;
    PlanIsValid(c.rows, e, |w.folded|, w.answers, settings);
    AppendRecorded(c.rows, e, |w.folded|, w.answers);
    SnapshotIsValid(c.(rows := c.rows + [e]), w.answers, settings);
  }

  lemma AppendRecorded(rows: seq<Exchange>, e: Exchange, before: nat, answers: map<Id, ChatResult>)
    requires AllRecorded(rows, answers) && Consecutive(rows, before) && e.ordinal == before + |rows| + 1
    requires e.status.Processing? && WellKeyed(e) && Unanswered(e)
    ensures AllRecorded(rows + [e], answers) && Ascending(rows + [e])
  {
    assert RowRecorded(e, answers);
    hide RowRecorded;
  }

  // ----- what decides a reservation -----

  /** The row is still being processed at this instant. */
  predicate IsLeased(row: Exchange, now: Time) {
    row.status.Processing? && row.lease.Some? && row.lease.value > now
  }

  lemma {:induction false} FindAfterSweep(rows: seq<Exchange>, key: string, now: Time)
    ensures FindByKey(AbandonStale(rows, now), key)
      == match FindByKey(rows, key) case None => None case Some(row) => Some(AbandonRow(row, now))
  {
    if rows != [] && rows[0].key != key {
      FindAfterSweep(rows[1..], key, now);
      assert AbandonStale(rows, now)[1..] == AbandonStale(rows[1..], now);
    }
  }

  lemma SweepTwice(rows: seq<Exchange>, now: Time)
    ensures AbandonStale(AbandonStale(rows, now), now) == AbandonStale(rows, now)
  {
  }

  lemma UnansweredMeans(row: Exchange, answers: map<Id, ChatResult>)
    requires RowRecorded(row, answers) && !row.status.Completed?
    ensures row.status.Processing? || row.status.Abandoned?
    ensures row.status.Processing? ==> row.lease.Some?
  {
  }

  /** Reserving a known delivery answers by its row alone. */
  lemma KnownDeliveryIsDecided(w: World, request: Request, now: Time, freshId: Id, settings: Settings)
    requires Inv(w, settings) && w.conversation.Some? && request.conversationId == w.id && now < w.conversation.value.expiresAt
    requires FindByKey(w.conversation.value.rows, request.deliveryId).Some?
    ensures var row := FindByKey(w.conversation.value.rows, request.deliveryId).value;
      var r := ReserveTx(w.conversation, request, now, freshId, settings).result;
      if row.status.Completed? then r.Ok? && r.value.DuplicateCompleted? && r.value.completed.exchangeId == row.id
      else r == Ok(if IsLeased(row, now) then DuplicateProcessing(w.id, row.id) else DuplicateTerminal(w.id, row.id))
  {
    hide Inv, Window, Identity, Recorded, Frozen, Columns, Bounded, AllGenuine, RowRecorded, FindByKey;
    hide HasProcessing, MaxOrdinal, ReservationFor, AbandonStale;
    var rows := w.conversation.value.rows;
    InvParts(w, settings);
    ColumnsAreSafe(w, settings);
    RowsAreRecorded(w);
    FindByKeyOrigin(rows, request.deliveryId);
    var k :| 0 <= k < |rows| && rows[k] == FindByKey(rows, request.deliveryId).value && rows[k].key == request.deliveryId;
    FindAfterSweep(rows, request.deliveryId, now);
    if rows[k].status.Completed? {
      CompletedIsReadBack(w, k, request, now, freshId, settings);
    } else {
      assert RowRecorded(rows[k], w.answers);
      UnansweredMeans(rows[k], w.answers);
    }
  }

  /** A delivery the conversation does not know is reserved unless its newest exchange is
      still leased; stored state that fails validation is never the reason. */
  lemma NewDeliveryIsDecided(w: World, request: Request, now: Time, freshId: Id, settings: Settings)
    requires Inv(w, settings) && w.conversation.Some? && request.conversationId == w.id && now < w.conversation.value.expiresAt
    requires FindByKey(w.conversation.value.rows, request.deliveryId).None?
    ensures var rows := w.conversation.value.rows;
      var r := ReserveTx(w.conversation, request, now, freshId, settings).result;
      if rows != [] && IsLeased(Newest(rows), now) then r == Err(Busy) else r.Ok? && r.value.Reserved?
  {
    hide Inv, Window, Identity, Recorded, Frozen, Columns, Bounded, AllGenuine, RowRecorded, FindByKey, MaxOrdinal;
    hide ReservationFor, AbandonStale;
    var rows := w.conversation.value.rows;
    InvParts(w, settings);
    ColumnsAreSafe(w, settings);
    RowsAreRecorded(w);
    FindAfterSweep(rows, request.deliveryId, now);
    NewestDecidesProcessing(w, now);
    if !(rows != [] && IsLeased(Newest(rows), now)) {
      SweepKeeps(w, now, settings);
      SweepTwice(rows, now);
      IdleReserveSucceeds(Swept(w, now), request, now, freshId, settings);
    }
  }

  lemma NewestDecidesProcessing(w: World, now: Time)
    requires w.conversation.Some? && Window(w) && AllRecorded(w.conversation.value.rows, w.answers)
    ensures var rows := w.conversation.value.rows;
      HasProcessing(AbandonStale(rows, now)) <==> rows != [] && IsLeased(Newest(rows), now)
  {
    hide RowRecorded;
    var rows := w.conversation.value.rows;
    var swept := AbandonStale(rows, now);
    if rows != [] {
      var last := |rows| - 1;
      assert swept[last] == AbandonRow(rows[last], now);
      forall i | 0 <= i < last ensures !swept[i].status.Processing? {
        assert Older(rows)[i] == rows[i] && IsTerminal(Older(rows)[i].status);
      }
      assert RowRecorded(rows[last], w.answers);
      if !rows[last].status.Completed? {
        UnansweredMeans(rows[last], w.answers);
      }
    }
  }

  /** What a reservation answers, for every reachable conversation, delivery and clock: by
      the conversation's expiry, the delivery's row and the newest row's lease, and by
      nothing else. */
  lemma ReserveIsDecided(w: World, request: Request, now: Time, freshId: Id, settings: Settings)
    requires Inv(w, settings) && request.conversationId == w.id
    ensures var r := ReserveTx(w.conversation, request, now, freshId, settings).result;
      match w.conversation
      case None => r == Err(NotFound)
      case Some(c) =>
        if c.expiresAt <= now then r == Err(Expired)
        else match FindByKey(c.rows, request.deliveryId)
          case Some(row) =>
            if row.status.Completed? then r.Ok? && r.value.DuplicateCompleted? && r.value.completed.exchangeId == row.id
            else r == Ok(if IsLeased(row, now) then DuplicateProcessing(w.id, row.id) else DuplicateTerminal(w.id, row.id))
          case None =>
            if c.rows != [] && IsLeased(Newest(c.rows), now) then r == Err(Busy) else r.Ok? && r.value.Reserved?
  {
    hide Inv, Window, Identity, Recorded, Frozen, Columns, Bounded, AllGenuine, FindByKey, IsLeased, AbandonStale;
    hide HasProcessing, MaxOrdinal, ReservationFor, ReservationForExisting;
    if w.conversation.Some? {
      InvParts(w, settings);
      ColumnsAreSafe(w, settings);
      if now < w.conversation.value.expiresAt {
        if FindByKey(w.conversation.value.rows, request.deliveryId).Some? {
          KnownDeliveryIsDecided(w, request, now, freshId, settings);
        } else {
          NewDeliveryIsDecided(w, request, now, freshId, settings);
        }
      }
    }
  }

  /** A ticket in flight can be completed by its holder exactly when the conversation is
      not overfull. Together with OverfullIsForever: a conversation keeps completing
      until retained_exchange_limit + 32 of its exchanges are terminal, and never after. */
  lemma CompletableIffNotOverfull(w: World, chat: ChatResult, settings: Settings)
    requires Inv(w, settings) && InFlight(w) && chat.Valid() && Storable(chat)
    ensures var t := Newest(w.tickets);
      CompleteWith(w.conversation, t, chat, t.now, settings).result.Ok? <==> !Overfull(w, settings)
  {
    hide Inv, CompleteWith, BuildStateUpdate, ChatResult.Valid, Storable, TerminalCount, Plan.Valid, Snapshot.Valid;
    hide PersistedRecord, DerivedReferences, CompleteStep;
    var t := Newest(w.tickets);
    PlanIsOldestRows(w, settings);
    TerminalsInFlight(w, settings);
    StateUpdateExistsIffPlanFits(t.reservation, t.request, settings);
    RowIsTheTickets(w, settings);
    CompletionInFlight(w, chat, t.now, settings);
  }

  /** Why the holder of the ticket in flight cannot complete it, from the number of other
      rows and from its result; None when it can. */
  function Fate(others: nat, chat: ChatResult, settings: Settings): Option<ErrorCode> {
    if others >= settings.retainedLimit + RETAINED_EXCHANGE_LIMIT then Some(PersistenceFailure)
    else if !FitsShape(chat) then Some(PersistenceFailure)
    else if !NoControls(chat.answer) then Some(StateInvalid)
    else None
  }

  /** On its own clock a ticket in flight completes, or fails with exactly this code. */
  lemma CompletionMeetsItsFate(w: World, chat: ChatResult, settings: Settings)
    requires Inv(w, settings) && InFlight(w) && chat.Valid()
    ensures var t := Newest(w.tickets);
      var result := CompleteWith(w.conversation, t, chat, t.now, settings).result;
      match Fate(|w.conversation.value.rows| - 1, chat, settings)
      case Some(code) => result == Err(code)
      case None => result.Ok?
  {
    hide Inv, CompleteTx, BuildStateUpdate, ChatResult.Valid, TerminalCount, Plan.Valid, Snapshot.Valid, Finish;
    hide PersistedRecord, DerivedReferences, CompleteStep, FitsShape, NoControls, RequireActive;
    var t := Newest(w.tickets);
    PlanIsOldestRows(w, settings);
    StateUpdateExistsIffPlanFits(t.reservation, t.request, settings);
    UpdateFailsAsPersistence(t.reservation, t.request, settings);
    RowIsTheTickets(w, settings);
    ValidTextIsStorableIff(chat);
    if BuildStateUpdate(t.reservation, t.request, settings).Ok? {
      CompleteInFlight(w, chat, t.now, settings);
      FinishInFlight(w, chat, BuildStateUpdate(t.reservation, t.request, settings).value, t.now, settings);
    }
  }

  lemma TicketIsValid(w: World, ticket: nat, settings: Settings)
    requires Inv(w, settings) && ticket < |w.tickets|
    ensures w.tickets[ticket].reservation.plan.Valid() && w.tickets[ticket].reservation.snapshot.Valid()
  {
    hide Inv, Genuine, PlanFor, LoadSnapshot, Plan.Valid, Snapshot.Valid, RequireActive;
    TicketIsGenuine(w, ticket, settings);
    GenuineMeans(w.tickets[ticket], ticket, w.id, settings);
  }

  /** Only finishing the row in flight can fail in any other way. */
  lemma LateCompletionFails(w: World, ticket: nat, chat: ChatResult, now: Time, settings: Settings)
    requires Inv(w, settings) && ticket < |w.tickets| && !StillProcessing(w, ticket)
    requires BuildStateUpdate(w.tickets[ticket].reservation, w.tickets[ticket].request, settings).Ok?
    ensures var r := CompleteWith(w.conversation, w.tickets[ticket], chat, now, settings).result;
      r.Err? && (r.error.NotFound? || r.error.Expired? || r.error.Conflict?)
  {
    hide Inv, BuildStateUpdate, FindById, LockedCandidates, Finish, Plan.Valid, Snapshot.Valid, StateUpdate.Valid;
    var t := w.tickets[ticket];
    UpdateBelongsToTicket(t, settings);
    if w.conversation.Some? {
      var rows := w.conversation.value.rows;
      var found := FindById(rows, t.reservation.exchangeId, t.reservation.ordinal);
      if found.Some? {
        FindByIdOrigin(rows, t.reservation.exchangeId, t.reservation.ordinal);
        assert !found.value.status.Processing?;
      }
    }
  }

  /** How completing any ticket ends, by any clock: by the size of its plan, by whether its
      exchange is still being processed, by the expiry and the lease, and by the result. */
  lemma CompletionIsDecided(w: World, ticket: nat, chat: ChatResult, now: Time, settings: Settings)
    requires Inv(w, settings) && ticket < |w.tickets| && chat.Valid()
    ensures var t := w.tickets[ticket];
      var r := CompleteWith(w.conversation, t, chat, now, settings).result;
      if |t.reservation.plan.exchangeIds| > RETAINED_EXCHANGE_LIMIT then r == Err(PersistenceFailure)
      else if !StillProcessing(w, ticket) then r.Err? && (r.error.NotFound? || r.error.Expired? || r.error.Conflict?)
      else if w.conversation.value.expiresAt <= now then r == Err(Expired)
      else
        var rows := w.conversation.value.rows;
        && rows != []
        && (if !IsLeased(Newest(rows), now) then r == Err(Expired)
            else if !FitsShape(chat) then r == Err(PersistenceFailure)
            else if !NoControls(chat.answer) then r == Err(StateInvalid)
            else r == Ok(PersistedRecord(w.id, Newest(rows), chat)))
  {
    hide Inv, CompleteTx, BuildStateUpdate, ChatResult.Valid, TerminalCount, Plan.Valid, Snapshot.Valid, Finish;
    hide PersistedRecord, DerivedReferences, CompleteStep, FitsShape, NoControls, StillProcessing, PlanSize;
    var t := w.tickets[ticket];
    TicketIsValid(w, ticket, settings);
    StateUpdateExistsIffPlanFits(t.reservation, t.request, settings);
    UpdateFailsAsPersistence(t.reservation, t.request, settings);
    if BuildStateUpdate(t.reservation, t.request, settings).Ok? {
      if StillProcessing(w, ticket) {
        ProcessingTicketIsNewest(w, ticket, settings);
        InFlightIsNotDeleted(w, settings);
        RowIsTheTickets(w, settings);
        ValidTextIsStorableIff(chat);
        CompleteInFlight(w, chat, now, settings);
        FinishInFlight(w, chat, BuildStateUpdate(t.reservation, t.request, settings).value, now, settings);
      } else {
        LateCompletionFails(w, ticket, chat, now, settings);
      }
    }
  }

  lemma InFlightIsNotDeleted(w: World, settings: Settings)
    requires Inv(w, settings) && InFlight(w)
    ensures w.conversation.value.deletedAt.None?
  {
    hide Inv, Window, Identity, Recorded, Frozen, Columns, Bounded, AllGenuine;
    InvParts(w, settings);
    ColumnsAreSafe(w, settings);
  }

  lemma UpdateFailsAsPersistence(reservation: Reservation, request: Request, settings: Settings)
    requires reservation.snapshot.Valid()
    ensures BuildStateUpdate(reservation, request, settings).Err? ==>
      BuildStateUpdate(reservation, request, settings) == Err(PersistenceFailure)
  {
    hide StateUpdate.Valid, DeriveActiveTopic, Summary, Entries;
  }

  lemma ValidTextIsStorableIff(chat: ChatResult)
    requires chat.Valid()
    ensures Storable(chat) <==> FitsShape(chat) && NoControls(chat.answer)
  {
    hide FitsShape, NoControls;
  }

  /** Reserving a delivery the conversation does not know, over whatever a crashed handler
      left behind: the swept rows and the new one. */
  lemma NewReserveInserts(w: World, request: Request, now: Time, freshId: Id, settings: Settings)
    requires Inv(w, settings) && w.conversation.Some? && Enabled(w, ReserveEvent(request, now, freshId))
    requires now < w.conversation.value.expiresAt && FindByKey(w.conversation.value.rows, request.deliveryId).None?
    requires w.conversation.value.rows != [] ==> !IsLeased(Newest(w.conversation.value.rows), now)
    ensures var u := ReserveStep(w, request, now, freshId, settings);
      var tx := ReserveTx(w.conversation, request, now, freshId, settings);
      var swept := AbandonStale(w.conversation.value.rows, now);
      && tx.result.Ok? && tx.result.value.Reserved?
      && Inv(u, settings) && InFlight(u) && u.id == w.id
      && |u.tickets| == |w.tickets| + 1 && Newest(u.tickets).now == now && Newest(u.tickets).request == request
      && Newest(u.tickets).reservation.exchangeId == freshId
      && u.conversation.value.rows == swept + [NewExchange(freshId, request, MaxOrdinal(swept) + 1, now + settings.leaseSeconds)]
      && u.conversation.value.stateVersion == w.conversation.value.stateVersion
  {
    hide Inv, FindByKey, HasProcessing, MaxOrdinal, ReservationFor, AbandonStale, IsLeased, ReserveTx, ReserveStep;
    NewDeliveryIsDecided(w, request, now, freshId, settings);
    ReserveKeeps(w, request, now, freshId, settings);
    ReservedIsInserted(w, request, now, freshId, settings);
  }

  lemma ReservedIsInserted(w: World, request: Request, now: Time, freshId: Id, settings: Settings)
    requires w.conversation.Some? && request.conversationId == w.id
    requires var tx := ReserveTx(w.conversation, request, now, freshId, settings);
      tx.result.Ok? && tx.result.value.Reserved?
    ensures exists r: Reservation ::
      r.exchangeId == freshId
      && ReserveStep(w, request, now, freshId, settings) == Inserted(Swept(w, now), request, now, freshId, r, settings)
  {
    hide AbandonStale, FindByKey, HasProcessing, MaxOrdinal, PlanFor, LoadSnapshot, Plan.Valid, Snapshot.Valid;
    var tx := ReserveTx(w.conversation, request, now, freshId, settings);
    assert ReserveStep(w, request, now, freshId, settings)
      == Inserted(Swept(w, now), request, now, freshId, tx.result.value.reservation, settings);
  }

  /** Progress: an active conversation nobody works on serves a new delivery to completion,
      which bumps its version, exactly when it has room and the result can be stored. */
  lemma FreeMakesProgress(w: World, request: Request, now: Time, freshId: Id, chat: ChatResult, settings: Settings)
    requires Inv(w, settings) && w.conversation.Some? && Enabled(w, ReserveEvent(request, now, freshId)) && chat.Valid()
    requires now < w.conversation.value.expiresAt && FindByKey(w.conversation.value.rows, request.deliveryId).None?
    requires w.conversation.value.rows != [] ==> !IsLeased(Newest(w.conversation.value.rows), now)
    ensures var u := Step(w, ReserveEvent(request, now, freshId), settings);
      && |u.tickets| == |w.tickets| + 1
      && var v := Step(u, CompleteEvent(|w.tickets|, chat, now), settings);
      && v.conversation.Some?
      && v.conversation.value.stateVersion
         == w.conversation.value.stateVersion + (if Fate(|w.conversation.value.rows|, chat, settings).None? then 1 else 0)
  {
    hide Inv, ReserveTx, CompleteWith, BuildStateUpdate, ChatResult.Valid, Storable, TerminalCount, FindByKey;
    hide HasProcessing, MaxOrdinal, CompleteStep, AbandonStale, ReservationFor, DerivedReferences, PersistedRecord;
    hide IsLeased, Fate, RequireActive;
    var u := Step(w, ReserveEvent(request, now, freshId), settings);
    NewReserveInserts(w, request, now, freshId, settings);
    CompletionMeetsItsFate(u, chat, settings);
    CompletionInFlight(u, chat, now, settings);
    if Fate(|w.conversation.value.rows|, chat, settings).None? {
      CompletionBumpsVersion(u, chat, now, settings);
    } else {
      FailedCompletionLeaves(u, |w.tickets|, chat, now, settings);
    }
  }

  lemma CompletionBumpsVersion(w: World, chat: ChatResult, now: Time, settings: Settings)
    requires Inv(w, settings) && InFlight(w) && chat.Valid() && Succeeds(w, chat, now, settings)
    ensures var v := CompleteStep(w, |w.tickets| - 1, chat, now, settings);
      v.conversation.Some? && v.conversation.value.stateVersion == w.conversation.value.stateVersion + 1
  {
    hide Inv, CompleteStep, CompleteWith, BuildStateUpdate, ChatResult.Valid, Storable, DerivedReferences;
    hide PersistedRecord, RequireActive;
    CompletionInFlight(w, chat, now, settings);
  }
}
