/** What a reservation sees of the conversation: turns, references and candidates, told by
    the requests and the answers they stand for. */
module ConversationSnapshots {
  import opened Wrappers
  import opened Sequences
  import opened ChatModels
  import opened ConversationModels
  import opened SnapshotConstruction
  import opened ConversationStore
  import opened ConversationFacts
  import opened ConversationProtocol
  import opened ConversationCompletion
  import opened ConversationTheorems
  import opened ConversationProgress

  // ----- what the ticket in flight was given -----

  /** Turn `m` of the alternating history of these exchanges. */
  predicate IsTurn(t: Turn, done: seq<Exchange>, m: nat)
    requires m < 2 * |done|
  {
    if m % 2 == 0 then IsUserTurn(t, done[m / 2]) else IsAssistantTurn(t, done[m / 2])
  }

  lemma RecordedHasText(rows: seq<Exchange>, answers: map<Id, ChatResult>)
    requires AllRecorded(rows, answers)
    ensures forall e :: e in rows && e.status.Completed? ==> e.ordinal > 0 && e.assistantText.Some?
  {
    hide ChatResult.Valid, DerivedReferences, Storable;
    forall e | e in rows && e.status.Completed? ensures e.ordinal > 0 && e.assistantText.Some? {
      var i :| 0 <= i < |rows| && rows[i] == e;
      assert RowRecorded(rows[i], answers);
    }
  }

  /** The recent turns are the last ones of the alternating history. */
  lemma TurnsAlternate(rows: seq<Exchange>, answers: map<Id, ChatResult>, limit: nat)
    requires Ascending(rows) && AllRecorded(rows, answers)
    ensures var done, turns := Filter(IsCompleted, rows), RecentTurns(rows, limit);
      && |turns| == (if 2 * |done| <= limit then 2 * |done| else limit)
      && forall i :: 0 <= i < |turns| ==> IsTurn(turns[i], done, 2 * |done| - |turns| + i)
  {
    hide AllRecorded, Ascending, RecentTurns, AllTurns, CompletedByOrdinal, IsUserTurn, IsAssistantTurn;
    var done, turns := Filter(IsCompleted, rows), RecentTurns(rows, limit);
    hide Filter;
    RecentTurnsAreTheLastOnes(rows, limit);
    CompletedByOrdinalIsFiltered(rows, answers);
    RecordedHasText(rows, answers);
    HistoryAlternates(rows);
    forall i | 0 <= i < |turns| ensures IsTurn(turns[i], done, 2 * |done| - |turns| + i) {
      var m := 2 * |done| - |turns| + i;
      assert turns[i] == AllTurns(rows)[m] && Alternates(AllTurns(rows), done, m / 2);
      assert m == 2 * (m / 2) + m % 2;
    }
  }

  /** The snapshot of the ticket in flight shows the conversation as it is: its version, its
      summary, its topic, and the last turns of its completed exchanges. */
  lemma SnapshotShowsTheConversation(w: World, settings: Settings)
    requires Inv(w, settings) && InFlight(w)
    ensures var c, s := w.conversation.value, Newest(w.tickets).reservation.snapshot;
      var done := Filter(IsCompleted, c.rows);
      && s.stateVersion == c.stateVersion && s.rollingSummary == c.rollingSummary && s.activeTopic == c.activeTopic
      && |s.recentTurns| == (if 2 * |done| <= settings.recentTurnLimit then 2 * |done| else settings.recentTurnLimit)
      && forall i :: 0 <= i < |s.recentTurns| ==> IsTurn(s.recentTurns[i], done, 2 * |done| - |s.recentTurns| + i)
  {
    hide Inv, Window, Identity, Recorded, Columns, Bounded, AllGenuine, Frozen, Genuine, PlanFor, RecentTurns;
    hide SelectReferences, ReferenceStream, Plan.Valid, Snapshot.Valid, Filter, IsTurn, AllRecorded, Ascending;
    InvParts(w, settings);
    SnapshotIsLoaded(w, settings);
    RowsAreRecorded(w);
    TurnsAlternate(w.conversation.value.rows, w.answers, settings.recentTurnLimit);
  }

  lemma SnapshotIsLoaded(w: World, settings: Settings)
    requires Inv(w, settings) && InFlight(w)
    ensures Newest(w.tickets).reservation.snapshot == LoadSnapshot(w.conversation.value, settings)
  {
    hide Inv, Window, Identity, Recorded, Columns, Bounded, AllGenuine, Frozen, Genuine, PlanFor, LoadSnapshot;
    hide Plan.Valid, Snapshot.Valid, RequireActive;
    InvParts(w, settings);
    NewestIsFrozen(w);
    TicketIsGenuine(w, |w.tickets| - 1, settings);
    GenuineMeans(w.tickets[|w.tickets| - 1], |w.tickets| - 1, w.id, settings);
  }

  // ----- turns, over runs -----

  /** The turn is of an earlier ticket: its request, or the answer recorded for it. */
  predicate TurnTold(t: Turn, before: nat, tickets: seq<Ticket>, answers: map<Id, ChatResult>) {
    var k := (t.ordinal + 1) / 2 - 1;
    && 0 <= k < before <= |tickets|
    && match t.role
       case UserRole =>
         t.ordinal == 2 * k + 1 && t.text == tickets[k].request.text && t.outcome.None? && t.reason.None?
       case AssistantRole =>
         && t.ordinal == 2 * k + 2 && tickets[k].reservation.exchangeId in answers
         && var a := answers[tickets[k].reservation.exchangeId];
            t.text == a.answer && t.outcome == Some(a.outcome) && t.reason == Some(FromChat(a.reason))
  }

  ghost predicate TicketTold(w: World, j: nat)
    requires j < |w.tickets|
  {
    forall i :: 0 <= i < |w.tickets[j].reservation.snapshot.recentTurns| ==>
      TurnTold(w.tickets[j].reservation.snapshot.recentTurns[i], j, w.tickets, w.answers)
  }

  ghost predicate SnapshotsTell(w: World) {
    forall j: nat :: j < |w.tickets| ==> TicketTold(w, j)
  }

  /** The row of an ordinal is the row of its ticket, and holds the answer recorded for it. */
  lemma RowOfOrdinal(w: World, e: Exchange, settings: Settings)
    requires Inv(w, settings) && InFlight(w) && e in w.conversation.value.rows && e.status.Completed?
    ensures 0 < e.ordinal < |w.tickets|
    ensures var t := w.tickets[e.ordinal - 1];
      && e.id == t.reservation.exchangeId && e.userText == t.request.text
      && e.id in w.answers
      && var a := w.answers[e.id];
         && e.assistantText == Some(a.answer) && e.outcome == Some(a.outcome) && e.reason == Some(FromChat(a.reason))
         && a.Valid() && e.references == DerivedReferences(a)
  {
    hide Inv, Columns, Bounded, AllGenuine, Frozen, ChatResult.Valid, DerivedReferences, Storable, AllTerminal;
    hide Window, Identity, Recorded;
    InvParts(w, settings);
    var rows := w.conversation.value.rows;
    var i :| 0 <= i < |rows| && rows[i] == e;
    IdentityMeans(w);
    HistoryOrdinals(w);
    var k := |w.folded| + i;
    assert History(w)[k] == e;
    RecordedAt(w, k);
  }

  lemma RecordedAt(w: World, k: nat)
    requires w.conversation.Some? && Recorded(w) && k < |History(w)|
    ensures RowRecorded(History(w)[k], w.answers)
  {
    hide RowRecorded;
  }

  lemma TurnOfRow(w: World, t: Turn, e: Exchange, settings: Settings)
    requires Inv(w, settings) && InFlight(w) && e in w.conversation.value.rows && e.status.Completed?
    requires IsUserTurn(t, e) || IsAssistantTurn(t, e)
    ensures TurnTold(t, |w.tickets| - 1, w.tickets, w.answers)
  {
    hide Inv, DerivedReferences, ChatResult.Valid;
    RowOfOrdinal(w, e, settings);
    assert (2 * e.ordinal + 1) / 2 == e.ordinal && (2 * e.ordinal - 1 + 1) / 2 == e.ordinal;
  }

  lemma NewTicketIsTold(w: World, settings: Settings)
    requires Inv(w, settings) && InFlight(w)
    ensures TicketTold(w, |w.tickets| - 1)
  {
    hide Inv, Filter, TurnTold, IsUserTurn, IsAssistantTurn;
    var turns := Newest(w.tickets).reservation.snapshot.recentTurns;
    var done := Filter(IsCompleted, w.conversation.value.rows);
    SnapshotShowsTheConversation(w, settings);
    FilterMembers(IsCompleted, w.conversation.value.rows);
    forall i | 0 <= i < |turns| ensures TurnTold(turns[i], |w.tickets| - 1, w.tickets, w.answers) {
      var m := 2 * |done| - |turns| + i;
      assert IsTurn(turns[i], done, m);
      assert done[m / 2] in done;
      TurnOfRow(w, turns[i], done[m / 2], settings);
    }
  }

  /** Later tickets change nothing, nor do answers to later exchanges. */
  lemma TellingLasts(w: World, v: World)
    requires SnapshotsTell(w) && w.tickets <= v.tickets && DistinctTickets(v.tickets)
    requires forall id :: id in w.answers ==> id in v.answers
    requires forall k :: 0 <= k < |v.tickets| - 1 && v.tickets[k].reservation.exchangeId in w.answers ==>
      v.answers[v.tickets[k].reservation.exchangeId] == w.answers[v.tickets[k].reservation.exchangeId]
    ensures forall j: nat :: j < |w.tickets| ==> TicketTold(v, j)
  {
    forall j: nat | j < |w.tickets| ensures TicketTold(v, j) {
      assert TicketTold(w, j);
      var turns := v.tickets[j].reservation.snapshot.recentTurns;
      forall i | 0 <= i < |turns| ensures TurnTold(turns[i], j, v.tickets, v.answers) {
        assert TurnTold(w.tickets[j].reservation.snapshot.recentTurns[i], j, w.tickets, w.answers);
      }
    }
  }

  lemma ReserveTells(w: World, request: Request, now: Time, freshId: Id, settings: Settings)
    requires Inv(w, settings) && SnapshotsTell(w) && request.conversationId == w.id && !Issued(w, freshId)
    ensures SnapshotsTell(ReserveStep(w, request, now, freshId, settings))
  {
    hide Inv, ReserveStep, MaxOrdinal, RequireActive, FindByKey, HasProcessing, ReservationFor, AbandonStale;
    hide TicketTold, DistinctTickets;
    var v := ReserveStep(w, request, now, freshId, settings);
    ReserveKeeps(w, request, now, freshId, settings);
    TicketsAreDistinct(v, settings);
    ReserveCases(w, request, now, freshId, settings);
    if v != w && !(w.conversation.Some? && v == Swept(w, now)) {
      var reservation: Reservation :| Inserts(Swept(w, now), v, request, now, freshId, reservation, settings);
      NewTicketIsTold(v, settings);
    }
    TellingLasts(w, v);
  }

  lemma CompletionTells(w: World, ticket: nat, chat: ChatResult, now: Time, settings: Settings)
    requires Inv(w, settings) && SnapshotsTell(w) && ticket < |w.tickets| && chat.Valid()
    ensures SnapshotsTell(CompleteStep(w, ticket, chat, now, settings))
  {
    hide Inv, CompleteStep, CompleteWith, ChatResult.Valid, TicketTold, Storable, PersistedRecord, RequireActive;
    hide DerivedReferences;
    var v := CompleteStep(w, ticket, chat, now, settings);
    if CompleteWith(w.conversation, w.tickets[ticket], chat, now, settings).result.Ok? {
      SuccessIsInFlight(w, ticket, chat, now, settings);
      CompletionInFlight(w, chat, now, settings);
      RowIsTheTickets(w, settings);
      TicketsAreDistinct(w, settings);
      TellingLasts(w, v);
    } else {
      FailedCompletionLeaves(w, ticket, chat, now, settings);
    }
  }

  lemma {:induction false} RunTells(id: Id, start: Time, events: seq<Event>, settings: Settings)
    ensures SnapshotsTell(Reached(id, start, events, settings))
  {
    hide Inv, ReserveStep, CompleteStep, TicketTold, ChatResult.Valid;
    if events != [] {
      var early, e := events[..|events| - 1], events[|events| - 1];
      var w := Reached(id, start, early, settings);
      RunTells(id, start, early, settings);
      RunKeeps(id, start, early, settings);
      if Enabled(w, e) {
        match e
        case ReserveEvent(request, now, freshId) => ReserveTells(w, request, now, freshId, settings);
        case CompleteEvent(ticket, chat, now) => CompletionTells(w, ticket, chat, now, settings);
        case PurgeEvent(now) => TellingLastsUnmoved(w, now);
      }
    }
  }

  lemma TellingLastsUnmoved(w: World, now: Time)
    requires SnapshotsTell(w)
    ensures SnapshotsTell(w.(conversation := Purge(w.conversation, now)))
  {
    var v := w.(conversation := Purge(w.conversation, now));
    forall j: nat | j < |w.tickets| ensures TicketTold(v, j) {
      assert TicketTold(w, j);
    }
  }

  /** Over every run: each user turn of every snapshot ever handed out is the text of the
      request whose ordinal it stands for, and each assistant turn is the answer recorded for
      that exchange; both of an exchange reserved before. */
  lemma TurnsAreRequestsAndAnswers(id: Id, start: Time, events: seq<Event>, settings: Settings)
    ensures var w := Reached(id, start, events, settings);
      forall j, i :: 0 <= j < |w.tickets| && 0 <= i < |w.tickets[j].reservation.snapshot.recentTurns| ==>
        TurnTold(w.tickets[j].reservation.snapshot.recentTurns[i], j, w.tickets, w.answers)
  {
    hide Run, TurnTold;
    RunTells(id, start, events, settings);
    var w := Reached(id, start, events, settings);
    forall j, i | 0 <= j < |w.tickets| && 0 <= i < |w.tickets[j].reservation.snapshot.recentTurns|
      ensures TurnTold(w.tickets[j].reservation.snapshot.recentTurns[i], j, w.tickets, w.answers)
    {
      assert TicketTold(w, j);
    }
  }

  // ----- references -----

  /** What the answer recorded for a row cites. */
  function CitedBy(kind: ReferenceKind, row: Exchange, answers: map<Id, ChatResult>): seq<Id> {
    if !row.status.Completed? || row.id !in answers || !answers[row.id].outcome.Answer? then []
    else match kind
      case CitationRef => CitationIds(answers[row.id].citations)
      case DocumentRef => DocumentIds(answers[row.id].citations)
  }

  /** ... and what those of all rows cite, the newest row first. */
  function CitedNewestFirst(kind: ReferenceKind, rows: seq<Exchange>, answers: map<Id, ChatResult>): seq<Id> {
    if rows == [] then []
    else CitedBy(kind, Newest(rows), answers) + CitedNewestFirst(kind, Older(rows), answers)
  }

  lemma RowCites(kind: ReferenceKind, row: Exchange, answers: map<Id, ChatResult>)
    requires RowRecorded(row, answers) && row.status.Completed?
    ensures IdsOfKind(kind, ReferencesByOrdinal(row)) == CitedBy(kind, row, answers)
  {
    hide ReferencesValid, Storable, IdsOfKind, ReferencesByOrdinal, Ordered, DerivedReferences;
    var chat := answers[row.id];
    assert chat.Valid() && row.references == DerivedReferences(chat);
    hide Records, ChatResult.Valid;
    DerivedReferencesRoundTrip(chat);
    RankedKeepsKinds(kind, row);
  }

  function Stream(done: seq<Exchange>): seq<Reference> {
    Flatten(Map(ReferencesByOrdinal, Reverse(done)))
  }

  lemma StreamStep(kind: ReferenceKind, done: seq<Exchange>, last: Exchange)
    ensures IdsOfKind(kind, Stream(done + [last])) == IdsOfKind(kind, ReferencesByOrdinal(last)) + IdsOfKind(kind, Stream(done))
  {
    hide ReferencesByOrdinal, IdsOfKind, Flatten;
    assert Reverse(done + [last]) == [last] + Reverse(done);
    assert Map(ReferencesByOrdinal, [last] + Reverse(done)) == [ReferencesByOrdinal(last)] + Map(ReferencesByOrdinal, Reverse(done));
    FlattenConcat([ReferencesByOrdinal(last)], Map(ReferencesByOrdinal, Reverse(done)));
    FlattenOne(ReferencesByOrdinal(last));
    OfKindConcat(kind, ReferencesByOrdinal(last), Flatten(Map(ReferencesByOrdinal, Reverse(done))));
  }

  lemma FlattenOne<T>(s: seq<T>)
    ensures Flatten([s]) == s
  {
    assert [s][..0] == [];
    assert Flatten<T>([]) == [];
  }

  lemma NothingStreams(kind: ReferenceKind)
    ensures IdsOfKind(kind, Stream([])) == []
  {
  }

  lemma {:induction false} StreamCites(kind: ReferenceKind, rows: seq<Exchange>, answers: map<Id, ChatResult>)
    requires AllRecorded(rows, answers)
    ensures IdsOfKind(kind, Stream(Filter(IsCompleted, rows))) == CitedNewestFirst(kind, rows, answers)
  {
    hide RowRecorded, ReferencesByOrdinal, IdsOfKind, Stream, Filter;
    if rows == [] {
      NothingFiltered(IsCompleted);
      NothingStreams(kind);
    } else {
      var front, last := Older(rows), Newest(rows);
      assert rows == front + [last];
      assert RowRecorded(last, answers) by { assert rows[|rows| - 1] == last; }
      StreamCites(kind, front, answers);
      FilterSnoc(IsCompleted, front, last);
      if last.status.Completed? {
        StreamStep(kind, Filter(IsCompleted, front), last);
        RowCites(kind, last, answers);
      } else {
        assert CitedBy(kind, last, answers) + CitedNewestFirst(kind, front, answers) == CitedNewestFirst(kind, front, answers);
      }
    }
  }

  lemma {:induction false} CompletedAmongTerminal(rows: seq<Exchange>)
    ensures |Filter(IsCompleted, rows)| + TrailingAbandoned(rows) <= TerminalCount(rows)
  {
    if rows != [] {
      CompletedAmongTerminal(Older(rows));
    }
  }

  /** The references of the ticket in flight are the first distinct ones of all that the
      recorded answers cite, the newest answer first: the query's own limit never cuts. */
  lemma ReferencesAreTheNewest(w: World, kind: ReferenceKind, settings: Settings)
    requires Inv(w, settings) && InFlight(w)
    ensures var refs := Newest(w.tickets).reservation.snapshot.references;
      IdsOfKind(kind, refs)
        == Take(Dedup(CitedNewestFirst(kind, w.conversation.value.rows, w.answers)), settings.referenceLimit)
  {
    hide Inv, Window, Identity, Recorded, Columns, AllGenuine, Frozen, SelectReferences, RecentTurns;
    hide IdsOfKind, Dedup, Flatten, Map, Reverse, Filter, TerminalCount, TrailingAbandoned, AllRecorded, Ascending;
    hide CompletedByOrdinal, CitedNewestFirst, Plan.Valid, Snapshot.Valid;
    var rows := w.conversation.value.rows;
    InvParts(w, settings);
    SnapshotIsLoaded(w, settings);
    RowsAreRecorded(w);
    CompletedByOrdinalIsFiltered(rows, w.answers);
    CompletedAmongTerminal(rows);
    var done := Filter(IsCompleted, rows);
    assert Take(Reverse(done), settings.retainedLimit) == Reverse(done) by { ReverseLength(done); }
    StreamCites(kind, rows, w.answers);
    SelectedPerKind(kind, ReferenceStream(rows, settings.retainedLimit), settings.referenceLimit);
  }

  lemma ReverseLength<T>(s: seq<T>)
    ensures |Reverse(s)| == |s|
  {
  }

  // ----- candidates -----

  /** A candidate of the plan describes an exchange by its request and its answer. */
  predicate CandidateTold(c: Candidate, t: Ticket, answers: map<Id, ChatResult>) {
    && c.exchangeId == t.reservation.exchangeId && c.userText == t.request.text
    && match c.status
       case Completed =>
         && c.exchangeId in answers
         && var a := answers[c.exchangeId];
            && c.assistantText == Some(a.answer) && c.outcome == Some(a.outcome) && c.reason == Some(FromChat(a.reason))
            && c.citationCount == (if a.outcome.Answer? then |a.citations| else 0)
            && c.documentCount == (if a.outcome.Answer? then |DocumentIds(a.citations)| else 0)
       case Abandoned =>
         && c.assistantText.None? && c.outcome.None? && c.reason == Some(LeaseExpiredReason)
         && c.citationCount == 0 && c.documentCount == 0
       case _ => false
  }

  lemma CandidateIsTold(e: Exchange, t: Ticket, answers: map<Id, ChatResult>)
    requires RowRecorded(e, answers) && RowOfTicket(e, t) && IsTerminal(e.status)
    ensures CandidateTold(CandidateOf(e), t, answers)
  {
    hide Distinct, Storable, DocumentIds, ReferencesValid, Ordered, DerivedReferences;
    if e.status.Completed? {
      var a := answers[e.id];
      assert a.Valid() && e.references == DerivedReferences(a);
      hide ChatResult.Valid;
      DerivedReferencesRoundTrip(a);
      KindCount(CitationRef, e.references);
      KindCount(DocumentRef, e.references);
      assert |CitationIds(a.citations)| == |a.citations|;
    } else {
      NoReferencesNoKinds();
    }
  }

  lemma KindCount(kind: ReferenceKind, refs: seq<Reference>)
    ensures |OfKind(kind, refs)| == |IdsOfKind(kind, refs)|
  {
    hide OfKind;
  }

  /** The candidates of the ticket in flight are the oldest retained exchanges, in order, each
      told by its own request and its own answer. */
  lemma CandidatesTellTheirExchanges(w: World, i: nat, settings: Settings)
    requires Inv(w, settings) && InFlight(w) && i < |Newest(w.tickets).reservation.plan.candidates|
    ensures var c := Newest(w.tickets).reservation.plan.candidates[i];
      var k := |w.folded| + i;
      && k < |w.tickets| - 1 && c.ordinal == k + 1
      && CandidateTold(c, w.tickets[k], w.answers)
  {
    hide Inv, Columns, Bounded, AllGenuine, Frozen, Plan.Valid, Snapshot.Valid, Identity, Recorded, RowOfTicket;
    hide RowRecorded, CandidateTold, CandidateOf;
    InvParts(w, settings);
    PlanIsOldestRows(w, settings);
    var rows := w.conversation.value.rows;
    IdentityMeans(w);
    HistoryOrdinals(w);
    RecordedAt(w, |w.folded| + i);
    assert History(w)[|w.folded| + i] == rows[i];
    assert IsTerminal(rows[i].status) by { assert Older(rows)[i] == rows[i]; }
    CandidateIsTold(rows[i], w.tickets[|w.folded| + i], w.answers);
    assert CandidateOf(rows[i]).ordinal == rows[i].ordinal by { CandidateKeepsOrdinal(rows[i]); }
  }

  lemma CandidateKeepsOrdinal(e: Exchange)
    ensures CandidateOf(e).ordinal == e.ordinal
  {
  }
}
