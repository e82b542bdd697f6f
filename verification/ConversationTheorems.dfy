/** The promises of the conversation protocol, for every run. */
module ConversationTheorems {
  import opened Sequences
  import opened ChatModels
  import opened ConversationModels
  import opened ConversationPolicy
  import opened SnapshotConstruction
  import opened ConversationStore
  import opened ConversationFacts
  import opened ConversationProtocol
  import opened ConversationCompletion

  function Reached(id: Id, start: Time, events: seq<Event>, settings: Settings): World {
    Run(Initial(id, start, settings), events, settings)
  }

  /** In every reachable state the rows are a contiguous block of ordinals ending at the
      largest ordinal ever issued; the k-th reservation ever made has ordinal k, so no
      ordinal is issued twice; and only the newest row can be processing. */
  lemma WindowInvariant(id: Id, start: Time, events: seq<Event>, settings: Settings)
    ensures var w := Reached(id, start, events, settings);
      && (forall k :: 0 <= k < |w.tickets| ==> w.tickets[k].reservation.ordinal == k + 1)
      && (w.conversation.Some? ==>
            var rows := w.conversation.value.rows;
            && (forall i :: 0 <= i < |rows| ==> rows[i].ordinal == |w.tickets| - |rows| + i + 1)
            && (w.tickets != [] ==> rows != [])
            && (forall i :: 0 <= i < |rows| && rows[i].status.Processing? ==> i == |rows| - 1)
            && MaxOrdinal(rows) == |w.tickets|)
  {
    hide Run, Inv, MaxOrdinal;
    var w := Reached(id, start, events, settings);
    RunKeeps(id, start, events, settings);
    forall k | 0 <= k < |w.tickets| ensures w.tickets[k].reservation.ordinal == k + 1 {
      TicketOrdinal(w, k, settings);
    }
    if w.conversation.Some? {
      WindowOfInv(w, settings);
      NextOrdinal(w);
      forall i | 0 <= i < |w.conversation.value.rows| && w.conversation.value.rows[i].status.Processing?
        ensures i == |w.conversation.value.rows| - 1
      {
        ProcessingIsNewest(w, i);
      }
    }
  }

  lemma TicketOrdinal(w: World, k: nat, settings: Settings)
    requires Inv(w, settings) && k < |w.tickets|
    ensures w.tickets[k].reservation.ordinal == k + 1
  {
    hide Inv, Genuine, PlanFor, LoadSnapshot, Plan.Valid, Snapshot.Valid;
    TicketIsGenuine(w, k, settings);
    GenuineMeans(w.tickets[k], k, w.id, settings);
  }

  lemma WindowOfInv(w: World, settings: Settings)
    requires Inv(w, settings) && w.conversation.Some?
    ensures Window(w)
  {
    hide Inv, Window, Identity, Recorded, Frozen, Columns, Bounded, AllGenuine;
    InvParts(w, settings);
  }

  /** Conservation: the exchanges folded into the summary followed by the retained rows
      are exactly the exchanges ever reserved, each once, in ascending ordinal order;
      and the stored summary is the summary of exactly the folded ones. */
  lemma HistoryIsConserved(id: Id, start: Time, events: seq<Event>, settings: Settings)
    ensures var w := Reached(id, start, events, settings);
      w.conversation.Some? ==>
        && |History(w)| == |w.tickets|
        && (forall k :: 0 <= k < |w.tickets| ==>
              RowOfTicket(History(w)[k], w.tickets[k]) && History(w)[k].ordinal == k + 1)
        && DistinctIds(History(w))
        && w.conversation.value.rollingSummary == FoldedSummary(w.folded, settings)
  {
    hide Run, Inv, Window, Identity, Columns, Recorded, Frozen, Bounded, AllGenuine, DistinctIds, FoldedSummary;
    hide RowOfTicket;
    var w := Reached(id, start, events, settings);
    RunKeeps(id, start, events, settings);
    if w.conversation.Some? {
      InvParts(w, settings);
      IdsAreDistinct(w);
      IdentityMeans(w);
      SummaryOfColumns(w, settings);
      HistoryOrdinals(w);
    }
  }

  lemma HistoryOrdinals(w: World)
    requires w.conversation.Some? && Window(w)
    ensures forall k :: 0 <= k < |History(w)| ==> History(w)[k].ordinal == k + 1
  {
    forall k | 0 <= k < |History(w)| ensures History(w)[k].ordinal == k + 1 {
      if k < |w.folded| {
        assert History(w)[k] == w.folded[k];
      } else {
        assert History(w)[k] == w.conversation.value.rows[k - |w.folded|];
      }
    }
  }

  lemma IdentityMeans(w: World)
    requires w.conversation.Some? && Identity(w)
    ensures |History(w)| == |w.tickets|
    ensures forall k :: 0 <= k < |w.tickets| ==> RowOfTicket(History(w)[k], w.tickets[k])
  {
  }

  lemma SummaryOfColumns(w: World, settings: Settings)
    requires w.conversation.Some? && Columns(w, settings)
    ensures w.conversation.value.rollingSummary == FoldedSummary(w.folded, settings)
    ensures w.conversation.value.stateVersion == |Filter(IsCompleted, History(w))|
  {
    hide FoldedSummary, Filter;
  }

  /** The rows a completion folds are exactly the rows it deletes and exactly the
      candidates that were summarised for it. */
  lemma FoldedAreTheCandidates(w: World, ticket: nat, chat: ChatResult, now: Time, settings: Settings)
    requires Inv(w, settings) && ticket < |w.tickets| && chat.Valid()
    requires CompleteWith(w.conversation, w.tickets[ticket], chat, now, settings).result.Ok?
    ensures var v := CompleteStep(w, ticket, chat, now, settings);
      var n := |v.folded| - |w.folded|;
      && w.conversation.Some? && v.conversation.Some?
      && 0 <= n < |w.conversation.value.rows|
      && v.folded == w.folded + w.conversation.value.rows[..n]
      && w.tickets[ticket].reservation.plan.candidates == Map(CandidateOf, w.conversation.value.rows[..n])
      && |v.conversation.value.rows| == |w.conversation.value.rows| - n
  {
    hide Inv, CompleteStep, CompleteWith, BuildStateUpdate, ChatResult.Valid, Plan.Valid, Snapshot.Valid, Storable;
    hide DerivedReferences, PersistedRecord;
    SuccessIsInFlight(w, ticket, chat, now, settings);
    CompletionInFlight(w, chat, now, settings);
    PlanIsOldestRows(w, settings);
  }

  // ----- lifecycle -----

  /** An exchange keeps its identity; once terminal it never changes again, and it
      becomes terminal only from PROCESSING, as COMPLETED or ABANDONED. */
  predicate RowEvolves(a: Exchange, b: Exchange) {
    && b.id == a.id && b.key == a.key && b.ordinal == a.ordinal && b.userText == a.userText
    && (b == a || (a.status.Processing? && (b.status.Completed? || b.status.Abandoned?)))
  }

  ghost predicate Evolves(a: seq<Exchange>, b: seq<Exchange>) {
    |a| <= |b| && forall k :: 0 <= k < |a| ==> RowEvolves(a[k], b[k])
  }

  lemma EvolvesTransitive(a: seq<Exchange>, b: seq<Exchange>, c: seq<Exchange>)
    requires Evolves(a, b) && Evolves(b, c)
    ensures Evolves(a, c)
  {
    forall k | 0 <= k < |a| ensures RowEvolves(a[k], c[k]) {
      assert RowEvolves(a[k], b[k]) && RowEvolves(b[k], c[k]);
    }
  }

  lemma SweepEvolves(w: World, now: Time)
    requires w.conversation.Some?
    ensures Evolves(History(w), History(Swept(w, now)))
  {
    var h, g := History(w), History(Swept(w, now));
    forall k | 0 <= k < |h| ensures RowEvolves(h[k], g[k]) {
      if k >= |w.folded| {
        assert g[k] == AbandonRow(h[k], now);
      }
    }
  }

  lemma StepEvolves(w: World, e: Event, settings: Settings)
    requires Inv(w, settings) && Step(w, e, settings).conversation.Some?
    ensures w.conversation.Some?
    ensures Evolves(History(w), History(Step(w, e, settings)))
    ensures w.tickets <= Step(w, e, settings).tickets
  {
    if !Enabled(w, e) || e.PurgeEvent? {
      assert forall k :: 0 <= k < |History(w)| ==> RowEvolves(History(w)[k], History(w)[k]);
    } else if e.ReserveEvent? {
      ReserveEvolves(w, e.request, e.now, e.freshId, settings);
    } else {
      CompleteEvolves(w, e.ticket, e.chat, e.now, settings);
    }
  }

  lemma ReserveEvolves(w: World, request: Request, now: Time, freshId: Id, settings: Settings)
    requires request.conversationId == w.id && ReserveStep(w, request, now, freshId, settings).conversation.Some?
    ensures w.conversation.Some?
    ensures Evolves(History(w), History(ReserveStep(w, request, now, freshId, settings)))
    ensures w.tickets <= ReserveStep(w, request, now, freshId, settings).tickets
  {
    hide ReserveStep, MaxOrdinal, RequireActive, FindByKey, HasProcessing, ReservationFor, AbandonStale, RowEvolves;
    var v := ReserveStep(w, request, now, freshId, settings);
    ReserveCases(w, request, now, freshId, settings);
    if v == w {
      EvolvesReflexive(History(w));
    } else {
      SweepEvolves(w, now);
      if v != Swept(w, now) {
        var reservation: Reservation :| Inserts(Swept(w, now), v, request, now, freshId, reservation, settings);
        EvolvesAppend(History(Swept(w, now)), Newest(v.conversation.value.rows));
        assert History(v) == History(Swept(w, now)) + [Newest(v.conversation.value.rows)];
        EvolvesTransitive(History(w), History(Swept(w, now)), History(v));
      }
    }
  }

  lemma EvolvesReflexive(a: seq<Exchange>)
    ensures Evolves(a, a)
  {
  }

  lemma EvolvesAppend(a: seq<Exchange>, e: Exchange)
    ensures Evolves(a, a + [e])
  {
  }

  lemma CompleteEvolves(w: World, ticket: nat, chat: ChatResult, now: Time, settings: Settings)
    requires Inv(w, settings) && ticket < |w.tickets| && chat.Valid()
    requires CompleteStep(w, ticket, chat, now, settings).conversation.Some?
    ensures w.conversation.Some?
    ensures Evolves(History(w), History(CompleteStep(w, ticket, chat, now, settings)))
    ensures w.tickets <= CompleteStep(w, ticket, chat, now, settings).tickets
  {
    hide Inv, CompleteStep, CompleteWith, BuildStateUpdate, ChatResult.Valid, Storable, DerivedReferences;
    hide PersistedRecord;
    if CompleteWith(w.conversation, w.tickets[ticket], chat, now, settings).result.Ok? {
      SuccessIsInFlight(w, ticket, chat, now, settings);
      CompletionInFlight(w, chat, now, settings);
      HistoryAfterCompletion(w, chat, BuildStateUpdate(w.tickets[ticket].reservation, w.tickets[ticket].request, settings).value, now, settings);
    } else {
      FailedCompletionLeaves(w, ticket, chat, now, settings);
      EvolvesReflexive(History(w));
    }
  }

  lemma {:induction false} RunEvolves(w: World, events: seq<Event>, settings: Settings)
    requires Inv(w, settings) && Run(w, events, settings).conversation.Some?
    ensures w.conversation.Some? && Inv(Run(w, events, settings), settings)
    ensures Evolves(History(w), History(Run(w, events, settings)))
    ensures w.tickets <= Run(w, events, settings).tickets
  {
    hide Inv, Step, Evolves;
    if events == [] {
      EvolvesReflexive(History(w));
    } else {
      var before := Run(w, events[..|events| - 1], settings);
      RunKeepsFrom(w, events[..|events| - 1], settings);
      StepEvolves(before, events[|events| - 1], settings);
      RunEvolves(w, events[..|events| - 1], settings);
      StepKeeps(before, events[|events| - 1], settings);
      EvolvesTransitive(History(w), History(before), History(Run(w, events, settings)));
    }
  }

  lemma {:induction false} RunKeepsFrom(w: World, events: seq<Event>, settings: Settings)
    requires Inv(w, settings)
    ensures Inv(Run(w, events, settings), settings)
  {
    hide Inv, Step;
    if events != [] {
      RunKeepsFrom(w, events[..|events| - 1], settings);
      StepKeeps(Run(w, events[..|events| - 1], settings), events[|events| - 1], settings);
    }
  }

  /** Idempotent lifecycle, between any two states of a run: exchanges only move from
      PROCESSING to COMPLETED or ABANDONED and are then frozen, every exchange id is
      handed out as RESERVED once, and state_version counts the completed exchanges. */
  lemma LifecycleIsIdempotent(id: Id, start: Time, early: seq<Event>, late: seq<Event>, settings: Settings)
    ensures var w := Reached(id, start, early, settings);
      var v := Run(w, late, settings);
      && DistinctTickets(v.tickets)
      && (v.conversation.Some? ==>
            && w.conversation.Some? && w.tickets <= v.tickets
            && Evolves(History(w), History(v))
            && v.conversation.value.stateVersion == |Filter(IsCompleted, History(v))|)
  {
    hide Inv, Run, Evolves, Filter, Identity, Columns, Window, Recorded, Frozen, Bounded, AllGenuine, DistinctTickets;
    var w := Reached(id, start, early, settings);
    var v := Run(w, late, settings);
    RunKeeps(id, start, early, settings);
    RunKeepsFrom(w, late, settings);
    TicketsAreDistinct(v, settings);
    if v.conversation.Some? {
      RunEvolves(w, late, settings);
      InvParts(v, settings);
      SummaryOfColumns(v, settings);
    }
  }

  lemma TicketsAreDistinct(w: World, settings: Settings)
    requires Inv(w, settings)
    ensures DistinctTickets(w.tickets)
  {
    hide DistinctTickets, Genuine, Window, Identity, Recorded, Frozen, Columns, Bounded;
  }

  /** Completed ordinals strictly increase: a completion succeeds only for an exchange newer
      than every exchange completed before it, those folded away included. */
  lemma CompletedOrdinalsIncrease(w: World, ticket: nat, chat: ChatResult, now: Time, settings: Settings)
    requires Inv(w, settings) && ticket < |w.tickets|
    requires CompleteWith(w.conversation, w.tickets[ticket], chat, now, settings).result.Ok?
    ensures w.conversation.Some?
    ensures forall k :: 0 <= k < |History(w)| && History(w)[k].status.Completed? ==>
      History(w)[k].ordinal < w.tickets[ticket].reservation.ordinal
  {
    hide Inv, CompleteWith, Window, Identity, Recorded, Columns, Frozen, Bounded, AllGenuine;
    SuccessIsInFlight(w, ticket, chat, now, settings);
    InvParts(w, settings);
    IdentityMeans(w);
    HistoryOrdinals(w);
    TicketOrdinal(w, ticket, settings);
    assert History(w)[|History(w)| - 1] == Newest(w.conversation.value.rows);
  }

  // ----- the database's own constraints -----

  /** The CHECK constraints, the two unique keys, the partial unique index on PROCESSING
      rows, and FAILED as a status no transaction writes. */
  ghost predicate ConstraintsHold(rows: seq<Exchange>) {
    && (forall i :: 0 <= i < |rows| ==> rows[i].DatabaseChecks() && !rows[i].status.Failed?)
    && (forall i, j :: 0 <= i < j < |rows| ==> rows[i].key != rows[j].key && rows[i].ordinal != rows[j].ordinal)
    && (forall i, j :: 0 <= i < j < |rows| ==> !(rows[i].status.Processing? && rows[j].status.Processing?))
  }

  lemma RecordedIsChecked(row: Exchange, answers: map<Id, ChatResult>)
    requires RowRecorded(row, answers)
    ensures row.DatabaseChecks() && !row.status.Failed?
  {
    hide WellKeyed, Exchange.DatabaseChecks, Records;
    if row.status.Completed? {
      RecordIsChecked(row, answers[row.id]);
    } else {
      UnansweredIsChecked(row);
    }
  }

  /** In every reachable state the exchange table satisfies every constraint the database
      declares on it, and no exchange is FAILED. */
  lemma ConstraintsAlwaysHold(id: Id, start: Time, events: seq<Event>, settings: Settings)
    ensures var w := Reached(id, start, events, settings);
      w.conversation.Some? ==> ConstraintsHold(w.conversation.value.rows)
  {
    hide Run, Inv, Columns, Frozen, Bounded, AllGenuine, RowRecorded, Exchange.DatabaseChecks, RowOfTicket;
    hide DistinctTickets;
    var w := Reached(id, start, events, settings);
    RunKeeps(id, start, events, settings);
    if w.conversation.Some? {
      InvParts(w, settings);
      var rows := w.conversation.value.rows;
      forall i | 0 <= i < |rows| ensures rows[i].DatabaseChecks() && !rows[i].status.Failed? {
        assert History(w)[|w.folded| + i] == rows[i];
        RecordedIsChecked(rows[i], w.answers);
      }
      forall i | 0 <= i < |rows| && rows[i].status.Processing? ensures i == |rows| - 1 {
        ProcessingIsNewest(w, i);
      }
    }
  }

  // ----- what decides a completion -----

  /** The row of a ticket is still being processed. */
  predicate StillProcessing(w: World, ticket: nat)
    requires ticket < |w.tickets|
  {
    w.conversation.Some?
    && exists i :: 0 <= i < |w.conversation.value.rows|
         && w.conversation.value.rows[i].id == w.tickets[ticket].reservation.exchangeId
         && w.conversation.value.rows[i].status.Processing?
  }

  lemma ProcessingTicketIsNewest(w: World, ticket: nat, settings: Settings)
    requires Inv(w, settings) && ticket < |w.tickets| && StillProcessing(w, ticket)
    ensures InFlight(w) && ticket == |w.tickets| - 1
  {
    hide Inv, Recorded, Columns, Bounded, AllGenuine, Consecutive, AllTerminal, Window, Frozen;
    InvParts(w, settings);
    var rows := w.conversation.value.rows;
    var i :| 0 <= i < |rows| && rows[i].id == w.tickets[ticket].reservation.exchangeId && rows[i].status.Processing?;
    ProcessingIsNewest(w, i);
    var last := |w.tickets| - 1;
    assert RowOfTicket(History(w)[last], w.tickets[last]);
    assert History(w)[last] == rows[i];
  }

  /** Completion is decided by status alone: for a ticket holder using its own clock, a
      storable result and a plan that fits, complete() succeeds exactly when its exchange
      is still PROCESSING. Version, lease, candidates, delete count and retained limit
      then never object, and the terminal rows go from T to min(T + 1, limit). */
  lemma CompletionIsDecidedByStatus(w: World, ticket: nat, chat: ChatResult, settings: Settings)
    requires Inv(w, settings) && ticket < |w.tickets| && chat.Valid() && Storable(chat)
    requires |w.tickets[ticket].reservation.plan.exchangeIds| <= RETAINED_EXCHANGE_LIMIT
    ensures var t := w.tickets[ticket];
      var tx := CompleteWith(w.conversation, t, chat, t.now, settings);
      var v := CompleteStep(w, ticket, chat, t.now, settings);
      && (tx.result.Ok? <==> StillProcessing(w, ticket))
      && (tx.result.Ok? ==>
            && w.conversation.Some? && v.conversation.Some?
            && TerminalCount(v.conversation.value.rows)
               == Min(TerminalCount(w.conversation.value.rows) + 1, settings.retainedLimit))
  {
    hide Inv, CompleteStep, CompleteWith, BuildStateUpdate, ChatResult.Valid, Storable, TerminalCount, Plan.Valid;
    hide Snapshot.Valid, PersistedRecord, StillProcessing, DerivedReferences;
    var t := w.tickets[ticket];
    if StillProcessing(w, ticket) {
      ProcessingTicketIsNewest(w, ticket, settings);
      PlanIsOldestRows(w, settings);
      StateUpdateExistsIffPlanFits(t.reservation, t.request, settings);
      RowIsTheTickets(w, settings);
      CompletionInFlight(w, chat, t.now, settings);
      CompletionKeeps(w, chat, t.now, settings);
    } else if CompleteWith(w.conversation, t, chat, t.now, settings).result.Ok? {
      SuccessIsInFlight(w, ticket, chat, t.now, settings);
      RowIsTheTickets(w, settings);
      InFlightIsProcessing(w, ticket);
      assert false;
    }
  }

  lemma InFlightIsProcessing(w: World, ticket: nat)
    requires InFlight(w) && ticket < |w.tickets|
    requires Newest(w.conversation.value.rows).id == w.tickets[ticket].reservation.exchangeId
    ensures StillProcessing(w, ticket)
  {
    var rows := w.conversation.value.rows;
    assert rows[|rows| - 1].status.Processing?;
  }

  /** A reservation's plan holds at most one exchange more than were abandoned since the
      last completion. */
  lemma PlanIsBoundedByAbandonments(w: World, settings: Settings)
    requires Inv(w, settings) && InFlight(w)
    ensures |Newest(w.tickets).reservation.plan.exchangeIds| <= 1 + TrailingAbandoned(w.conversation.value.rows)
  {
    hide Inv, Window, Identity, Recorded, Columns, AllGenuine, Frozen, TrailingAbandoned, TerminalCount, Plan.Valid;
    hide Snapshot.Valid;
    InvParts(w, settings);
    PlanIsOldestRows(w, settings);
    TerminalsInFlight(w, settings);
  }

  lemma TerminalsInFlight(w: World, settings: Settings)
    requires Inv(w, settings) && InFlight(w)
    ensures TerminalCount(w.conversation.value.rows) == |w.conversation.value.rows| - 1
  {
    hide Inv, Identity, Recorded, Columns, AllGenuine, Frozen, Bounded, TerminalCount;
    InvParts(w, settings);
    var rows := w.conversation.value.rows;
    TerminalCountOf(Older(rows), Newest(rows));
    assert Older(rows) + [Newest(rows)] == rows;
  }

  // ----- a conversation that can never complete again -----

  /** So many terminal rows that every plan exceeds what a state update may carry. */
  ghost predicate Overfull(w: World, settings: Settings) {
    w.conversation.Some? && TerminalCount(w.conversation.value.rows) >= settings.retainedLimit + RETAINED_EXCHANGE_LIMIT
  }

  lemma OverfullNeverCompletes(w: World, ticket: nat, chat: ChatResult, now: Time, settings: Settings)
    requires Inv(w, settings) && Overfull(w, settings) && ticket < |w.tickets|
    ensures CompleteWith(w.conversation, w.tickets[ticket], chat, now, settings).result.Err?
  {
    hide Inv, CompleteWith, BuildStateUpdate, TerminalCount, Plan.Valid, Snapshot.Valid;
    if CompleteWith(w.conversation, w.tickets[ticket], chat, now, settings).result.Ok? {
      SuccessIsInFlight(w, ticket, chat, now, settings);
      PlanIsOldestRows(w, settings);
      TerminalsInFlight(w, settings);
      StateUpdateExistsIffPlanFits(w.tickets[ticket].reservation, w.tickets[ticket].request, settings);
      assert false;
    }
  }

  lemma SweepGrows(rows: seq<Exchange>, now: Time)
    requires rows != [] ==> AllTerminal(Older(rows))
    ensures TerminalCount(AbandonStale(rows, now)) >= TerminalCount(rows)
  {
    if rows == [] {
      assert AbandonStale(rows, now) == rows;
    } else {
      SweepOfWindow(rows, now);
      TerminalCountOf(Older(rows), Newest(rows));
      TerminalCountOf(Older(rows), AbandonRow(Newest(rows), now));
      assert Older(rows) + [Newest(rows)] == rows;
    }
  }

  lemma InsertCounts(rows: seq<Exchange>, e: Exchange)
    requires e.status.Processing?
    ensures TerminalCount(rows + [e]) == TerminalCount(rows)
  {
    assert (rows + [e])[..|rows|] == rows;
  }

  lemma OverfullStep(w: World, e: Event, settings: Settings)
    requires Inv(w, settings) && Overfull(w, settings)
    ensures var v := Step(w, e, settings);
      v.conversation.Some? ==>
        Overfull(v, settings) && v.conversation.value.stateVersion == w.conversation.value.stateVersion
  {
    if e.ReserveEvent? && Enabled(w, e) {
      OverfullReserve(w, e.request, e.now, e.freshId, settings);
    } else if e.CompleteEvent? && Enabled(w, e) {
      hide Inv, CompleteStep, CompleteWith, Overfull;
      OverfullNeverCompletes(w, e.ticket, e.chat, e.now, settings);
      FailedCompletionLeaves(w, e.ticket, e.chat, e.now, settings);
    }
  }

  lemma OverfullReserve(w: World, request: Request, now: Time, freshId: Id, settings: Settings)
    requires Inv(w, settings) && Overfull(w, settings) && request.conversationId == w.id
    ensures var v := ReserveStep(w, request, now, freshId, settings);
      v.conversation.Some? ==>
        Overfull(v, settings) && v.conversation.value.stateVersion == w.conversation.value.stateVersion
  {
    hide Inv, Identity, Recorded, Columns, AllGenuine, Frozen, Bounded, TerminalCount, AbandonStale, ReserveStep;
    hide MaxOrdinal, RequireActive, FindByKey, HasProcessing, ReservationFor;
    InvParts(w, settings);
    var v := ReserveStep(w, request, now, freshId, settings);
    var swept := Swept(w, now).conversation.value.rows;
    SweepGrows(w.conversation.value.rows, now);
    ReserveCases(w, request, now, freshId, settings);
    if v != w && v != Swept(w, now) {
      var reservation: Reservation :| Inserts(Swept(w, now), v, request, now, freshId, reservation, settings);
      InsertCounts(swept, Newest(v.conversation.value.rows));
      assert v.conversation.value.rows == swept + [Newest(v.conversation.value.rows)];
    }
  }

  /** Once enough work has been abandoned, no later completion ever succeeds, whatever
      the handlers and their clocks do: the conversation can only be purged. */
  lemma {:induction false} OverfullIsForever(w: World, events: seq<Event>, settings: Settings)
    requires Inv(w, settings) && Overfull(w, settings)
    ensures var v := Run(w, events, settings);
      v.conversation.Some? ==>
        Overfull(v, settings) && v.conversation.value.stateVersion == w.conversation.value.stateVersion
  {
    hide Inv, Step, Overfull;
    if events != [] {
      var before := Run(w, events[..|events| - 1], settings);
      RunKeepsFrom(w, events[..|events| - 1], settings);
      OverfullIsForever(w, events[..|events| - 1], settings);
      if before.conversation.Some? {
        OverfullStep(before, events[|events| - 1], settings);
      } else {
        GoneStaysGone(before, events[|events| - 1], settings);
      }
    }
  }

  lemma GoneStaysGone(w: World, e: Event, settings: Settings)
    requires Inv(w, settings) && w.conversation.None?
    ensures Step(w, e, settings).conversation.None?
  {
    hide Inv, BuildStateUpdate, Filter;
  }
}
