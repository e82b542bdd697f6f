/** What completing a ticket does to its conversation, and that every run keeps the
    protocol's invariant. */
module ConversationCompletion {
  import opened Wrappers
  import opened Sequences
  import opened ChatModels
  import opened ConversationModels
  import opened ConversationPolicy
  import opened SnapshotConstruction
  import opened ConversationStore
  import opened ConversationFacts
  import opened ConversationProtocol

  /** The newest exchange is being processed by the newest ticket. */
  ghost predicate InFlight(w: World) {
    w.conversation.Some? && w.conversation.value.rows != [] && w.tickets != []
    && Newest(w.conversation.value.rows).status.Processing?
  }

  function PlanSize(rows: seq<Exchange>, settings: Settings): nat {
    Excess(|rows|, settings.retainedLimit)
  }

  lemma UpdateBelongsToTicket(t: Ticket, settings: Settings)
    requires BuildStateUpdate(t.reservation, t.request, settings).Ok?
    ensures var update := BuildStateUpdate(t.reservation, t.request, settings).value;
      && update.expectedVersion == t.reservation.expectedVersion
      && update.compactedIds == t.reservation.plan.exchangeIds
      && update.Valid()
      && update.rollingSummary == Summary(t.reservation.snapshot.rollingSummary, Entries(t.reservation.plan.candidates), settings.summaryMaxChars)
  {
    hide Summary, Entries;
  }

  lemma IdsAreDistinct(w: World)
    requires w.conversation.Some? && Identity(w)
    ensures DistinctIds(History(w)) && DistinctIds(w.conversation.value.rows)
  {
    var h := History(w);
    forall i, j | 0 <= i < j < |h| ensures h[i].id != h[j].id {
      assert RowOfTicket(h[i], w.tickets[i]) && RowOfTicket(h[j], w.tickets[j]);
    }
    var rows := w.conversation.value.rows;
    forall i, j | 0 <= i < j < |rows| ensures rows[i].id != rows[j].id {
      assert h[|w.folded| + i] == rows[i] && h[|w.folded| + j] == rows[j];
    }
  }

  lemma InvParts(w: World, settings: Settings)
    requires Inv(w, settings) && w.conversation.Some?
    ensures Window(w) && Identity(w) && Recorded(w) && Frozen(w) && Columns(w, settings) && Bounded(w, settings)
    ensures AllGenuine(w, settings)
  {
    hide Window, Identity, Recorded, Frozen, Columns, Bounded, AllGenuine;
  }

  lemma TicketIsGenuine(w: World, j: nat, settings: Settings)
    requires Inv(w, settings) && j < |w.tickets|
    ensures Genuine(w.tickets[j], j, w.id, settings)
  {
    hide Genuine, Window, Identity, Recorded, Frozen, Columns, Bounded;
  }

  lemma GenuineMeans(t: Ticket, j: nat, id: Id, settings: Settings)
    requires Genuine(t, j, id, settings)
    ensures t.reservation.plan == PlanFor(t.asOf.rows, settings.retainedLimit)
    ensures t.reservation.snapshot == LoadSnapshot(t.asOf, settings)
    ensures t.reservation.plan.Valid() && t.reservation.snapshot.Valid()
    ensures t.reservation.expectedVersion == t.asOf.stateVersion
    ensures t.reservation.ordinal == j + 1 && t.reservation.conversationId == id
    ensures RequireActive(Some(t.asOf), t.now).Ok?
    ensures t.asOf.rows != [] && Newest(t.asOf.rows).id == t.reservation.exchangeId
    ensures Newest(t.asOf.rows).ordinal == j + 1 && Newest(t.asOf.rows).lease == Some(t.now + settings.leaseSeconds)
  {
    hide PlanFor, LoadSnapshot, Plan.Valid, Snapshot.Valid;
  }

  lemma OldestOfOlder<T>(rows: seq<T>, n: nat)
    requires rows != [] && n <= |Older(rows)|
    ensures rows == Older(rows) + [Newest(rows)] && Older(rows)[..n] == rows[..n]
  {
  }

  lemma OlderIsConsecutive(rows: seq<Exchange>, before: nat)
    requires rows != [] && Consecutive(rows, before)
    ensures Consecutive(Older(rows), before)
  {
  }

  lemma WindowIsOldRows(rows: seq<Exchange>, before: nat, settings: Settings)
    requires rows != [] && Consecutive(rows, before) && AllTerminal(Older(rows)) && Newest(rows).status.Processing?
    ensures var n := PlanSize(rows, settings);
      n <= |Older(rows)| && PlanFor(rows, settings.retainedLimit) == Plan(Map(IdOf, rows[..n]), Map(CandidateOf, rows[..n]))
  {
    hide PlanFor, Consecutive, AllTerminal, Map, CandidateOf;
    OlderIsConsecutive(rows, before);
    PlanOfWindow(Older(rows), Newest(rows), before, settings.retainedLimit);
    OldestOfOlder(rows, PlanSize(rows, settings));
  }

  /** The plan handed out with the newest ticket is still the oldest rows. */
  lemma PlanIsOldestRows(w: World, settings: Settings)
    requires Inv(w, settings) && InFlight(w)
    ensures var rows, t := w.conversation.value.rows, Newest(w.tickets);
      var n := PlanSize(rows, settings);
      && n <= |Older(rows)|
      && t.reservation.plan == Plan(Map(IdOf, rows[..n]), Map(CandidateOf, rows[..n]))
      && t.reservation.plan.Valid() && t.reservation.snapshot.Valid()
      && t.reservation.expectedVersion == w.conversation.value.stateVersion
      && t.reservation.snapshot.rollingSummary == w.conversation.value.rollingSummary
  {
    hide Inv, Identity, Recorded, Columns, Bounded, AllGenuine, Consecutive, AllTerminal;
    InvParts(w, settings);
    TicketIsGenuine(w, |w.tickets| - 1, settings);
    hide PlanFor, Genuine, Plan.Valid, Snapshot.Valid, PlanSize, RecentTurns, SelectReferences;
    GenuineMeans(Newest(w.tickets), |w.tickets| - 1, w.id, settings);
    WindowIsOldRows(w.conversation.value.rows, |w.folded|, settings);
  }

  /** The row in flight is its ticket's row, with the ticket's lease. */
  lemma NewestIsFrozen(w: World)
    requires InFlight(w) && Frozen(w)
    ensures w.conversation.value == Newest(w.tickets).asOf
  {
    hide Newest;
  }

  lemma RowIsTheTickets(w: World, settings: Settings)
    requires Inv(w, settings) && InFlight(w)
    ensures var row, t := Newest(w.conversation.value.rows), Newest(w.tickets);
      && t.reservation.exchangeId == row.id && t.reservation.ordinal == row.ordinal
      && t.reservation.conversationId == w.id
      && row.lease == Some(t.now + settings.leaseSeconds)
      && RequireActive(w.conversation, t.now).Ok?
  {
    hide Inv, Window, Identity, Recorded, Columns, Bounded, AllGenuine, Genuine, Frozen, Plan.Valid, Snapshot.Valid;
    hide PlanFor, LoadSnapshot, RequireActive;
    InvParts(w, settings);
    NewestIsFrozen(w);
    TicketIsGenuine(w, |w.tickets| - 1, settings);
    GenuineMeans(w.tickets[|w.tickets| - 1], |w.tickets| - 1, w.id, settings);
  }

  lemma LockingFindsThePlan(w: World, settings: Settings)
    requires Inv(w, settings) && InFlight(w)
    ensures LockedCandidates(w.conversation.value.rows, Newest(w.tickets).reservation.plan)
         == Some(w.conversation.value.rows[..PlanSize(w.conversation.value.rows, settings)])
    ensures FindById(w.conversation.value.rows, Newest(w.tickets).reservation.exchangeId, Newest(w.tickets).reservation.ordinal)
         == Some(Newest(w.conversation.value.rows))
  {
    hide Inv, Identity, Recorded, Columns, Bounded, AllGenuine, Frozen, FindById, LockedCandidates, DistinctIds;
    hide AllTerminal, PlanSize;
    hide Plan.Valid, Snapshot.Valid, Consecutive;
    var rows := w.conversation.value.rows;
    var n := PlanSize(rows, settings);
    InvParts(w, settings);
    PlanIsOldestRows(w, settings);
    RowIsTheTickets(w, settings);
    IdsAreDistinct(w);
    OlderPrefixIsTerminal(rows, n);
    LockedPrefix(rows, n, |w.folded|, Newest(w.tickets).reservation.plan);
    FindByIdAt(rows, |rows| - 1);
  }

  lemma OlderPrefixIsTerminal(rows: seq<Exchange>, n: nat)
    requires rows != [] && AllTerminal(Older(rows)) && n <= |Older(rows)|
    ensures AllTerminal(rows[..n])
  {
    forall i | 0 <= i < n ensures IsTerminal(rows[..n][i].status) {
      assert rows[..n][i] == Older(rows)[i];
    }
  }

  /** Completing the ticket in flight: only activity, the lease and the late checks of
      Finish are left to decide it. */
  lemma CompleteInFlight(w: World, chat: ChatResult, now: Time, settings: Settings)
    requires Inv(w, settings) && InFlight(w)
    requires BuildStateUpdate(Newest(w.tickets).reservation, Newest(w.tickets).request, settings).Ok?
    ensures var c, t := w.conversation.value, Newest(w.tickets);
      var n := PlanSize(c.rows, settings);
      CompleteWith(w.conversation, t, chat, now, settings)
      == match RequireActive(w.conversation, now)
         case Err(code) => Tx(w.conversation, Err(code))
         case Ok(_) =>
           if t.now + settings.leaseSeconds <= now then Tx(w.conversation, Err(Expired))
           else Finish(c, w.id, Newest(c.rows), c.rows[..n], chat, BuildStateUpdate(t.reservation, t.request, settings).value, now, settings)
  {
    hide Inv, FindById, LockedCandidates, Finish, PlanSize, BuildStateUpdate, StateUpdate.Valid, Plan.Valid;
    hide Snapshot.Valid;
    LockingFindsThePlan(w, settings);
    PlanIsOldestRows(w, settings);
    RowIsTheTickets(w, settings);
    UpdateBelongsToTicket(Newest(w.tickets), settings);
  }

  lemma ProcessingIsNewest(w: World, k: nat)
    requires w.conversation.Some? && Window(w) && k < |w.conversation.value.rows|
    requires w.conversation.value.rows[k].status.Processing?
    ensures k == |w.conversation.value.rows| - 1 && w.conversation.value.rows[k].ordinal == |w.tickets|
  {
    var rows := w.conversation.value.rows;
    assert forall i :: 0 <= i < |rows| - 1 ==> Older(rows)[i] == rows[i] && IsTerminal(Older(rows)[i].status);
  }

  lemma SuccessFindsProcessing(w: World, t: Ticket, chat: ChatResult, now: Time, settings: Settings)
    requires CompleteWith(w.conversation, t, chat, now, settings).result.Ok?
    ensures w.conversation.Some? && BuildStateUpdate(t.reservation, t.request, settings).Ok?
    ensures var found := FindById(w.conversation.value.rows, t.reservation.exchangeId, t.reservation.ordinal);
      found.Some? && found.value.status.Processing?
  {
    hide BuildStateUpdate, FindById, LockedCandidates, Finish;
  }

  /** A successful completion is the newest ticket completing the row still in flight. */
  lemma SuccessIsInFlight(w: World, ticket: nat, chat: ChatResult, now: Time, settings: Settings)
    requires Inv(w, settings) && ticket < |w.tickets|
    requires CompleteWith(w.conversation, w.tickets[ticket], chat, now, settings).result.Ok?
    ensures InFlight(w) && ticket == |w.tickets| - 1
    ensures BuildStateUpdate(w.tickets[ticket].reservation, w.tickets[ticket].request, settings).Ok?
  {
    hide Inv, Window, Identity, Recorded, Columns, Bounded, AllGenuine, Frozen, BuildStateUpdate, FindById;
    hide CompleteWith, Genuine;
    hide PlanFor, LoadSnapshot, Plan.Valid, Snapshot.Valid;
    var t := w.tickets[ticket];
    SuccessFindsProcessing(w, t, chat, now, settings);
    InvParts(w, settings);
    TicketIsGenuine(w, ticket, settings);
    GenuineMeans(t, ticket, w.id, settings);
    var rows := w.conversation.value.rows;
    FindByIdOrigin(rows, t.reservation.exchangeId, t.reservation.ordinal);
    var k :| 0 <= k < |rows| && rows[k] == FindById(rows, t.reservation.exchangeId, t.reservation.ordinal).value
      && rows[k].id == t.reservation.exchangeId && rows[k].ordinal == t.reservation.ordinal;
    ProcessingIsNewest(w, k);
  }

  /** The world after the ticket in flight completes. */
  function AfterCompletion(w: World, chat: ChatResult, update: StateUpdate, now: Time, settings: Settings): World
    requires w.conversation.Some? && w.conversation.value.rows != [] && w.tickets != []
    requires PlanSize(w.conversation.value.rows, settings) <= |Older(w.conversation.value.rows)|
  {
    var c := w.conversation.value;
    var n := PlanSize(c.rows, settings);
    var done := CompletedRow(Newest(c.rows), chat, now);
    w.(conversation := Some(Finished(c, Older(c.rows), done, n, update, now, settings)),
       folded := w.folded + c.rows[..n],
       answers := w.answers[Newest(c.rows).id := chat])
  }

  ghost predicate Succeeds(w: World, chat: ChatResult, now: Time, settings: Settings)
    requires InFlight(w)
  {
    var t := Newest(w.tickets);
    && BuildStateUpdate(t.reservation, t.request, settings).Ok?
    && RequireActive(w.conversation, now).Ok? && now < t.now + settings.leaseSeconds
    && Storable(chat)
  }

  lemma FinishInFlight(w: World, chat: ChatResult, update: StateUpdate, now: Time, settings: Settings)
    requires Inv(w, settings) && InFlight(w) && chat.Valid()
    ensures var c := w.conversation.value;
      var n := PlanSize(c.rows, settings);
      && n <= |Older(c.rows)|
      && var tx := Finish(c, w.id, Newest(c.rows), c.rows[..n], chat, update, now, settings);
      && (tx.result.Ok? <==> Storable(chat))
      && (Storable(chat) ==>
            && tx.conversation == AfterCompletion(w, chat, update, now, settings).conversation
            && tx.result.value == PersistedRecord(w.id, Newest(c.rows), chat))
      && (!Storable(chat) ==>
            && tx.conversation == w.conversation
            && tx.result == Err(if FitsShape(chat) then StateInvalid else PersistenceFailure))
  {
    hide Inv, Identity, Recorded, Columns, Bounded, AllGenuine, Frozen, Consecutive;
    hide Finish, Finished, DistinctIds, AllTerminal, WellKeyed, ChatResult.Valid, Storable, PersistedRecord;
    hide Plan.Valid, Snapshot.Valid;
    var c := w.conversation.value;
    var n := PlanSize(c.rows, settings);
    InvParts(w, settings);
    PlanIsOldestRows(w, settings);
    IdsAreDistinct(w);
    NewestIsWellKeyed(w);
    assert c.rows == Older(c.rows) + [Newest(c.rows)];
    assert Older(c.rows)[..n] == c.rows[..n];
    FinishDecided(c, w.id, Older(c.rows), Newest(c.rows), chat, update, now, settings);
  }

  lemma NewestIsWellKeyed(w: World)
    requires w.conversation.Some? && w.conversation.value.rows != [] && Recorded(w)
    ensures WellKeyed(Newest(w.conversation.value.rows))
  {
    assert RowRecorded(History(w)[|History(w)| - 1], w.answers);
  }

  /** Completion of the ticket in flight, decided: it succeeds exactly when the update
      can be built, the clock is inside both expiries and the result is storable; and
      then it leaves the completed world. */
  lemma CompletionInFlight(w: World, chat: ChatResult, now: Time, settings: Settings)
    requires Inv(w, settings) && InFlight(w) && chat.Valid()
    ensures var t := Newest(w.tickets);
      var tx := CompleteWith(w.conversation, t, chat, now, settings);
      && (tx.result.Ok? <==> Succeeds(w, chat, now, settings))
      && (tx.result.Err? ==> tx.conversation == w.conversation)
      && (tx.result.Ok? ==>
            && PlanSize(w.conversation.value.rows, settings) <= |Older(w.conversation.value.rows)|
            && CompleteStep(w, |w.tickets| - 1, chat, now, settings)
               == AfterCompletion(w, chat, BuildStateUpdate(t.reservation, t.request, settings).value, now, settings)
            && tx.result.value == PersistedRecord(w.id, Newest(w.conversation.value.rows), chat))
  {
    hide Inv, Finish, BuildStateUpdate, CompleteTx, Storable, Finished, PersistedRecord, Window, Identity;
    hide ChatResult.Valid;
    var t := Newest(w.tickets);
    if BuildStateUpdate(t.reservation, t.request, settings).Ok? {
      var update := BuildStateUpdate(t.reservation, t.request, settings).value;
      CompleteInFlight(w, chat, now, settings);
      FinishInFlight(w, chat, update, now, settings);
      FoldedRowsAreThePlan(w, settings);
      PlanIsOldestRows(w, settings);
      RowIsTheTickets(w, settings);
    }
  }

  /** The rows folded are exactly the rows of the plan. */
  lemma FoldedRowsAreThePlan(w: World, settings: Settings)
    requires Inv(w, settings) && InFlight(w)
    ensures var rows := w.conversation.value.rows;
      Filter(IdIn(Newest(w.tickets).reservation.plan.exchangeIds), rows) == rows[..PlanSize(rows, settings)]
  {
    PlanIsOldestRows(w, settings);
    IdsAreDistinct(w);
    hide Inv, DistinctIds, Filter;
    FilterPrefixIds(w.conversation.value.rows, PlanSize(w.conversation.value.rows, settings));
  }

  // ----- a completion keeps the invariant -----

  lemma MoveOldest<T>(folded: seq<T>, rows: seq<T>, n: nat, done: T)
    requires rows != [] && n <= |Older(rows)|
    ensures (folded + rows[..n]) + (Older(rows)[n..] + [done]) == (folded + Older(rows)) + [done]
    ensures folded + rows == (folded + Older(rows)) + [Newest(rows)]
  {
    OldestOfOlder(rows, n);
    assert rows[..n] + Older(rows)[n..] == Older(rows);
  }

  lemma HistoryAfterCompletion(w: World, chat: ChatResult, update: StateUpdate, now: Time, settings: Settings)
    requires InFlight(w) && PlanSize(w.conversation.value.rows, settings) <= |Older(w.conversation.value.rows)|
    ensures History(AfterCompletion(w, chat, update, now, settings))
         == (w.folded + Older(w.conversation.value.rows)) + [CompletedRow(Newest(w.conversation.value.rows), chat, now)]
    ensures History(w) == (w.folded + Older(w.conversation.value.rows)) + [Newest(w.conversation.value.rows)]
  {
    hide CompletedRow, Older, Newest, PlanSize;
    var rows := w.conversation.value.rows;
    MoveOldest(w.folded, rows, PlanSize(rows, settings), CompletedRow(Newest(rows), chat, now));
  }

  lemma CompletionKeepsWindow(w: World, chat: ChatResult, update: StateUpdate, now: Time, settings: Settings)
    requires InFlight(w) && PlanSize(w.conversation.value.rows, settings) <= |Older(w.conversation.value.rows)| && Window(w)
    ensures Window(AfterCompletion(w, chat, update, now, settings))
  {
    hide DerivedReferences;
    var rows := w.conversation.value.rows;
    var n := PlanSize(rows, settings);
    var v := AfterCompletion(w, chat, update, now, settings);
    var done := CompletedRow(Newest(rows), chat, now);
    assert v.conversation.value.rows == Older(rows)[n..] + [done];
    assert Older(v.conversation.value.rows) == Older(rows)[n..];
    assert forall i :: 0 <= i < |Older(rows)| ==> Older(rows)[i] == rows[i] && IsTerminal(Older(rows)[i].status);
  }

  lemma CompletionKeepsIdentity(w: World, chat: ChatResult, update: StateUpdate, now: Time, settings: Settings)
    requires InFlight(w) && PlanSize(w.conversation.value.rows, settings) <= |Older(w.conversation.value.rows)| && Identity(w)
    ensures Identity(AfterCompletion(w, chat, update, now, settings))
  {
    hide DerivedReferences, DistinctTickets;
    var rows := w.conversation.value.rows;
    var n := PlanSize(rows, settings);
    var v := AfterCompletion(w, chat, update, now, settings);
    HistoryAfterCompletion(w, chat, update, now, settings);
    forall j | 0 <= j < |v.tickets| ensures RowOfTicket(History(v)[j], v.tickets[j]) {
      assert RowOfTicket(History(w)[j], w.tickets[j]);
    }
    var kept := v.conversation.value.rows;
    assert forall i :: 0 <= i < |kept| ==> kept[i].key == rows[n + i].key;
  }

  lemma CompletionKeepsRecorded(w: World, chat: ChatResult, update: StateUpdate, now: Time, settings: Settings)
    requires InFlight(w) && PlanSize(w.conversation.value.rows, settings) <= |Older(w.conversation.value.rows)|
    requires Recorded(w) && Identity(w) && chat.Valid() && Storable(chat)
    ensures Recorded(AfterCompletion(w, chat, update, now, settings))
  {
    var rows := w.conversation.value.rows;
    var v := AfterCompletion(w, chat, update, now, settings);
    var done := CompletedRow(Newest(rows), chat, now);
    assert Records(done, chat);
    IdsAreDistinct(w);
    HistoryAfterCompletion(w, chat, update, now, settings);
    hide DerivedReferences, Records, ChatResult.Valid, Storable, Identity;
    forall j | 0 <= j < |History(v)| ensures RowRecorded(History(v)[j], v.answers) {
      assert RowRecorded(History(w)[j], w.answers);
      if j < |History(v)| - 1 {
        assert History(v)[j] == History(w)[j];
        assert History(w)[|History(w)| - 1] == Newest(rows);
        assert History(w)[j].id != History(w)[|History(w)| - 1].id;
      }
    }
  }

  lemma CompletionKeepsColumns(w: World, chat: ChatResult, update: StateUpdate, now: Time, settings: Settings)
    requires InFlight(w) && PlanSize(w.conversation.value.rows, settings) <= |Older(w.conversation.value.rows)|
    requires Columns(w, settings) && update.Valid()
    requires update.rollingSummary
      == Summary(w.conversation.value.rollingSummary,
                 Entries(Map(CandidateOf, w.conversation.value.rows[..PlanSize(w.conversation.value.rows, settings)])),
                 settings.summaryMaxChars)
    ensures Columns(AfterCompletion(w, chat, update, now, settings), settings)
  {
    hide Filter, Summary, Map, CandidateOf;
    var rows := w.conversation.value.rows;
    var n := PlanSize(rows, settings);
    HistoryAfterCompletion(w, chat, update, now, settings);
    CountLast(w.folded + Older(rows), Newest(rows));
    CountLast(w.folded + Older(rows), CompletedRow(Newest(rows), chat, now));
    EntriesConcat(w.folded, rows[..n]);
    SummaryFolds(None, Entries(Map(CandidateOf, w.folded)), Entries(Map(CandidateOf, rows[..n])), settings.summaryMaxChars);
  }

  lemma EntriesConcat(a: seq<Exchange>, b: seq<Exchange>)
    ensures Entries(Map(CandidateOf, a + b)) == Entries(Map(CandidateOf, a)) + Entries(Map(CandidateOf, b))
  {
    hide CandidateOf, RenderCandidate;
  }

  lemma CompletionKeepsBound(w: World, chat: ChatResult, update: StateUpdate, now: Time, settings: Settings)
    requires InFlight(w) && PlanSize(w.conversation.value.rows, settings) <= |Older(w.conversation.value.rows)|
    requires AllTerminal(Older(w.conversation.value.rows))
    ensures var v := AfterCompletion(w, chat, update, now, settings);
      && Bounded(v, settings)
      && TerminalCount(v.conversation.value.rows) == Min(TerminalCount(w.conversation.value.rows) + 1, settings.retainedLimit)
  {
    hide TerminalCount, TrailingAbandoned, AllTerminal, DerivedReferences;
    var rows := w.conversation.value.rows;
    var done := CompletedRow(Newest(rows), chat, now);
    CountKept(Older(rows), done, PlanSize(rows, settings));
    TerminalCountOf(Older(rows), Newest(rows));
    assert Older(rows) + [Newest(rows)] == rows;
  }

  lemma CompletionKeeps(w: World, chat: ChatResult, now: Time, settings: Settings)
    requires Inv(w, settings) && InFlight(w) && chat.Valid() && Succeeds(w, chat, now, settings)
    ensures Inv(CompleteStep(w, |w.tickets| - 1, chat, now, settings), settings)
    ensures var v := CompleteStep(w, |w.tickets| - 1, chat, now, settings);
      && v.conversation.Some?
      && TerminalCount(v.conversation.value.rows) == Min(TerminalCount(w.conversation.value.rows) + 1, settings.retainedLimit)
  {
    hide Inv, Identity, Recorded, Columns, Bounded, AllGenuine, Consecutive, AllTerminal, Storable, ChatResult.Valid;
    hide CompleteStep, CompleteWith, BuildStateUpdate, StateUpdate.Valid, Plan.Valid, Snapshot.Valid, Summary;
    hide Entries, TerminalCount, DerivedReferences, PersistedRecord;
    var t := Newest(w.tickets);
    var update := BuildStateUpdate(t.reservation, t.request, settings).value;
    var v := AfterCompletion(w, chat, update, now, settings);
    InvParts(w, settings);
    PlanIsOldestRows(w, settings);
    CompletionInFlight(w, chat, now, settings);
    UpdateBelongsToTicket(t, settings);
    CompletionKeepsWindow(w, chat, update, now, settings);
    CompletionKeepsIdentity(w, chat, update, now, settings);
    CompletionKeepsRecorded(w, chat, update, now, settings);
    CompletionKeepsColumns(w, chat, update, now, settings);
    CompletionKeepsBound(w, chat, update, now, settings);
    SameTickets(w, v, settings);
    assert Frozen(v);
    InvOfParts(v, settings);
  }

  lemma InvOfParts(w: World, settings: Settings)
    requires w.conversation.Some? && AllGenuine(w, settings)
    requires Window(w) && Identity(w) && Recorded(w) && Frozen(w) && Columns(w, settings) && Bounded(w, settings)
    ensures Inv(w, settings)
  {
    hide Window, Identity, Recorded, Frozen, Columns, Bounded, AllGenuine;
  }

  // ----- every step and every run -----

  lemma FailedCompletionLeaves(w: World, ticket: nat, chat: ChatResult, now: Time, settings: Settings)
    requires ticket < |w.tickets| && CompleteWith(w.conversation, w.tickets[ticket], chat, now, settings).result.Err?
    ensures CompleteStep(w, ticket, chat, now, settings) == w
  {
    hide BuildStateUpdate, FindById, LockedCandidates, PersistedOf, Exchange.DatabaseChecks, Filter, TerminalCount;
  }

  lemma CompleteStepKeeps(w: World, ticket: nat, chat: ChatResult, now: Time, settings: Settings)
    requires Inv(w, settings) && ticket < |w.tickets| && chat.Valid()
    ensures Inv(CompleteStep(w, ticket, chat, now, settings), settings)
  {
    hide Inv, CompleteStep, CompleteWith, InFlight, ChatResult.Valid, Succeeds;
    if CompleteWith(w.conversation, w.tickets[ticket], chat, now, settings).result.Ok? {
      SuccessIsInFlight(w, ticket, chat, now, settings);
      CompletionInFlight(w, chat, now, settings);
      CompletionKeeps(w, chat, now, settings);
    } else {
      FailedCompletionLeaves(w, ticket, chat, now, settings);
    }
  }

  lemma PurgeKeeps(w: World, now: Time, settings: Settings)
    requires Inv(w, settings)
    ensures Inv(w.(conversation := Purge(w.conversation, now)), settings)
  {
    hide Window, Identity, Recorded, Frozen, Columns, Bounded, Genuine;
    assert w.(conversation := w.conversation) == w;
  }

  lemma StepKeeps(w: World, e: Event, settings: Settings)
    requires Inv(w, settings)
    ensures Inv(Step(w, e, settings), settings)
  {
    hide Inv, ReserveStep, CompleteStep, ChatResult.Valid;
    if Enabled(w, e) {
      match e
      case ReserveEvent(request, now, freshId) => ReserveKeeps(w, request, now, freshId, settings);
      case CompleteEvent(ticket, chat, now) => CompleteStepKeeps(w, ticket, chat, now, settings);
      case PurgeEvent(now) => PurgeKeeps(w, now, settings);
    }
  }

  /** Every world of every run satisfies the invariant. */
  lemma {:induction false} RunKeeps(id: Id, start: Time, events: seq<Event>, settings: Settings)
    ensures Inv(Run(Initial(id, start, settings), events, settings), settings)
  {
    hide Inv, Step;
    if events == [] {
      InitialInv(id, start, settings);
    } else {
      RunKeeps(id, start, events[..|events| - 1], settings);
      StepKeeps(Run(Initial(id, start, settings), events[..|events| - 1], settings), events[|events| - 1], settings);
    }
  }
}
