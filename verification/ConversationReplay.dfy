/** Replaying a completed delivery, and the service that reserves, answers, completes
    or replays: src/legal_chatbot/conversation/service.py. */
module ConversationReplay {
  import opened Wrappers
  import opened Sequences
  import opened ChatModels
  import opened ConversationModels
  import opened ConversationPolicy
  import opened SnapshotConstruction
  import opened ConversationStore
  import opened ConversationFacts
  import opened ConversationProtocol
  import opened ConversationCompletion
  import opened ConversationTheorems

  /** The citation resolver: for a citation and a run, the validated citation it returns,
      or none when it raises or returns something malformed. A replay asks for every
      citation once, so a resolver with state is also such a function. */
  type Resolver = (Id, Id) -> Option<Citation>

  /** The citations of `ids`, in order, each with the identity it was asked for. */
  function Resolved(resolver: Resolver, ids: seq<Id>, runId: Id): Option<seq<Citation>> {
    if ids == [] then Some([])
    else
      var asked := ids[|ids| - 1];
      match (Resolved(resolver, ids[..|ids| - 1], runId), resolver(asked, runId))
      case (Some(prior), Some(citation)) =>
        if citation.citationId == asked && citation.runId == runId then Some(prior + [citation]) else None
      case _ => None
  }

  /** _replay_answer; none when it raises. */
  function ReplayAnswer(resolver: Resolver, completed: Persisted): Option<ChatResult> {
    if completed.runId.None? || completed.CitationIds() == [] then None
    else match Resolved(resolver, completed.CitationIds(), completed.runId.value)
      case None => None
      case Some(citations) =>
        var chat := ChatResult(Answer, AnswerGrounded, completed.assistantText, completed.runId, citations,
          completed.provider, completed.model, completed.requestId);
        if DocumentIds(citations) != completed.DocumentIds() || !chat.Valid() then None else Some(chat)
  }

  /** _replay_completed: what a completed delivery answers again. */
  function ReplayCompleted(resolver: Resolver, completed: Persisted): ChatResult {
    if !completed.outcome.Answer? then
      ChatResult(completed.outcome, completed.reason, completed.assistantText, completed.runId, [], None, None, None)
    else match ReplayAnswer(resolver, completed)
      case Some(chat) => chat
      case None => FixedRefusal(CitationRevalidationFailure, completed.runId)
  }

  method ReplayByLoop(resolver: Resolver, completed: Persisted) returns (chat: Option<ChatResult>)
    ensures chat == ReplayAnswer(resolver, completed)
  {
    if completed.runId.None? || completed.CitationIds() == [] {
      return None;
    }
    var runId := completed.runId.value;
    var ids := completed.CitationIds();
    var citations: seq<Citation>, documents: seq<Id> := [], [];
    for i := 0 to |ids|
      invariant Resolved(resolver, ids[..i], runId) == Some(citations)
      invariant documents == DocumentIds(citations)
    {
      assert ids[..i + 1][..i] == ids[..i];
      var value := resolver(ids[i], runId);
      if value.None? || value.value.citationId != ids[i] || value.value.runId != runId {
        UnresolvedPrefix(resolver, ids, i + 1, runId);
        return None;
      }
      assert Map(DocumentIdOf, citations + [value.value]) == Map(DocumentIdOf, citations) + [value.value.documentId];
      citations := citations + [value.value];
      if value.value.documentId !in documents {
        documents := documents + [value.value.documentId];
      }
    }
    assert ids[..|ids|] == ids;
    var result := ChatResult(Answer, AnswerGrounded, completed.assistantText, completed.runId, citations,
      completed.provider, completed.model, completed.requestId);
    if documents != completed.DocumentIds() || !result.Valid() {
      return None;
    }
    return Some(result);
  }

  lemma {:induction false} UnresolvedPrefix(resolver: Resolver, ids: seq<Id>, n: nat, runId: Id)
    requires n <= |ids| && Resolved(resolver, ids[..n], runId).None?
    ensures Resolved(resolver, ids, runId).None?
  {
    if n < |ids| {
      assert ids[..|ids| - 1][..n] == ids[..n];
      UnresolvedPrefix(resolver, ids[..|ids| - 1], n, runId);
    } else {
      assert ids[..n] == ids;
    }
  }

  // ----- what replay gives back -----

  /** The resolver still returns exactly these citations. */
  ghost predicate Agrees(resolver: Resolver, citations: seq<Citation>) {
    forall c :: c in citations ==> resolver(c.citationId, c.runId) == Some(c)
  }

  /** The resolver returns, for every citation, one of the same identity, run and document. */
  ghost predicate SameDocuments(resolver: Resolver, citations: seq<Citation>) {
    forall c :: c in citations ==>
      var value := resolver(c.citationId, c.runId);
      value.Some? && value.value.citationId == c.citationId && value.value.runId == c.runId
      && value.value.documentId == c.documentId
  }

  lemma {:induction false} ResolvedKeepsIds(resolver: Resolver, ids: seq<Id>, runId: Id)
    requires Resolved(resolver, ids, runId).Some?
    ensures var citations := Resolved(resolver, ids, runId).value;
      && CitationIds(citations) == ids
      && forall i :: 0 <= i < |ids| ==> citations[i].runId == runId && resolver(ids[i], runId) == Some(citations[i])
  {
    if ids != [] {
      ResolvedKeepsIds(resolver, ids[..|ids| - 1], runId);
      var prior := Resolved(resolver, ids[..|ids| - 1], runId).value;
      var citations := Resolved(resolver, ids, runId).value;
      assert citations == prior + [citations[|ids| - 1]];
      assert ids == ids[..|ids| - 1] + [ids[|ids| - 1]];
    }
  }

  lemma {:induction false} ResolvedWhenSame(resolver: Resolver, citations: seq<Citation>, runId: Id)
    requires SameDocuments(resolver, citations) && forall c :: c in citations ==> c.runId == runId
    ensures Resolved(resolver, CitationIds(citations), runId).Some?
    ensures Map(DocumentIdOf, Resolved(resolver, CitationIds(citations), runId).value) == Map(DocumentIdOf, citations)
    ensures Agrees(resolver, citations) ==> Resolved(resolver, CitationIds(citations), runId).value == citations
  {
    if citations != [] {
      var front, last := citations[..|citations| - 1], citations[|citations| - 1];
      assert citations == front + [last];
      assert CitationIds(citations)[..|front|] == CitationIds(front);
      ResolvedWhenSame(resolver, front, runId);
    }
  }

  lemma PersistedIds(conversationId: Id, row: Exchange, chat: ChatResult)
    requires chat.Valid()
    ensures PersistedRecord(conversationId, row, chat).CitationIds() == if chat.outcome.Answer? then CitationIds(chat.citations) else []
    ensures PersistedRecord(conversationId, row, chat).DocumentIds() == if chat.outcome.Answer? then DocumentIds(chat.citations) else []
  {
    DerivedReferencesRoundTrip(chat);
  }

  /** Same text, provider metadata and run, the same citation ids in order, and the same
      documents in first-seen order; only display metadata may have been refreshed. */
  predicate SameAnswer(a: ChatResult, b: ChatResult) {
    && a.Valid()
    && a.(citations := []) == b.(citations := [])
    && CitationIds(a.citations) == CitationIds(b.citations)
    && DocumentIds(a.citations) == DocumentIds(b.citations)
  }

  /** For any resolver, replay is the fixed refusal or the same answer. */
  lemma ReplayIsSameOrRefused(resolver: Resolver, conversationId: Id, row: Exchange, chat: ChatResult)
    requires chat.Valid()
    ensures var r := ReplayCompleted(resolver, PersistedRecord(conversationId, row, chat));
      r.Valid() && (SameAnswer(r, chat) || (chat.outcome.Answer? && r == FixedRefusal(CitationRevalidationFailure, chat.runId)))
  {
    hide DerivedReferences, Distinct, Persisted.CitationIds, Persisted.DocumentIds, DocumentIds;
    PersistedIds(conversationId, row, chat);
    var persisted := PersistedRecord(conversationId, row, chat);
    if chat.outcome.Answer? {
      FixedRefusalIsValid(CitationRevalidationFailure, chat.runId);
      if ReplayAnswer(resolver, persisted).Some? {
        ResolvedKeepsIds(resolver, CitationIds(chat.citations), chat.runId.value);
      }
    }
  }

  /** While every citation still resolves to the same identity, run and document, the
      answer comes back; and exactly the same one when the citations are the same. */
  lemma ReplayReturnsTheAnswer(resolver: Resolver, conversationId: Id, row: Exchange, chat: ChatResult)
    requires chat.Valid() && SameDocuments(resolver, chat.citations)
    ensures var r := ReplayCompleted(resolver, PersistedRecord(conversationId, row, chat));
      && SameAnswer(r, chat)
      && (Agrees(resolver, chat.citations) ==> r == chat)
  {
    hide DerivedReferences, Distinct, Persisted.CitationIds, Persisted.DocumentIds;
    PersistedIds(conversationId, row, chat);
    if chat.outcome.Answer? {
      ResolvedWhenSame(resolver, chat.citations, chat.runId.value);
      ResolvedKeepsIds(resolver, CitationIds(chat.citations), chat.runId.value);
      var citations := Resolved(resolver, CitationIds(chat.citations), chat.runId.value).value;
      forall c | c in citations ensures c.runId == chat.runId.value {
        var i :| 0 <= i < |citations| && citations[i] == c;
        assert citations[i].runId == chat.runId.value;
      }
      assert |CitationIds(citations)| == |CitationIds(chat.citations)|;
    }
  }

  // ----- replaying from the store -----

  lemma FindByKeyAt(rows: seq<Exchange>, i: nat)
    requires i < |rows| && forall a, b :: 0 <= a < b < |rows| ==> rows[a].key != rows[b].key
    ensures FindByKey(rows, rows[i].key) == Some(rows[i])
  {
    if i > 0 {
      FindByKeyAt(rows[1..], i - 1);
    }
  }

  lemma ExistingRecord(conversationId: Id, row: Exchange, chat: ChatResult)
    requires WellKeyed(row) && Records(row, chat)
    ensures ReservationForExisting(conversationId, row) == Ok(DuplicateCompleted(PersistedRecord(conversationId, row, chat)))
  {
    var references := DerivedReferences(chat);
    DerivedReferencesRoundTrip(chat);
    hide DerivedReferences, ReferencesValid, PersistedOf, PersistedRecord, ChatResult.Valid;
    OrderByIdentity(KindOrdinalRank, references);
    PersistedOfCompletion(conversationId, row, chat, row.completedAt.value);
    assert Storable(chat);
    StorableIsSafe(chat);
  }

  /** Reserving the delivery of a completed row reads back the record of its answer. */
  lemma CompletedIsReadBack(w: World, i: nat, request: Request, now: Time, freshId: Id, settings: Settings)
    requires Inv(w, settings) && w.conversation.Some? && request.conversationId == w.id
    requires i < |w.conversation.value.rows| && w.conversation.value.rows[i].status.Completed?
    requires w.conversation.value.rows[i].key == request.deliveryId && now < w.conversation.value.expiresAt
    ensures var row := w.conversation.value.rows[i];
      && row.id in w.answers && w.answers[row.id].Valid()
      && var tx := ReserveTx(w.conversation, request, now, freshId, settings);
      && tx.result == Ok(DuplicateCompleted(PersistedRecord(w.id, row, w.answers[row.id])))
  {
    hide Inv, Window, Frozen, Columns, Bounded, AllGenuine, ReservationForExisting, PersistedRecord, FindByKey;
    hide WellKeyed, Records, HasProcessing, ReservationFor, MaxOrdinal;
    InvParts(w, settings);
    var c := w.conversation.value;
    var row := c.rows[i];
    assert RowRecorded(History(w)[|w.folded| + i], w.answers);
    RecordsValid(row, w.answers[row.id]);
    ExistingRecord(w.id, row, w.answers[row.id]);
    var swept := AbandonStale(c.rows, now);
    FindByKeyAt(swept, i);
    NotDeleted(w, settings);
  }

  lemma RecordsValid(row: Exchange, chat: ChatResult)
    requires Records(row, chat)
    ensures chat.Valid()
  {
    hide ChatResult.Valid, DerivedReferences;
  }

  lemma NotDeleted(w: World, settings: Settings)
    requires w.conversation.Some? && Columns(w, settings)
    ensures w.conversation.value.deletedAt.None?
  {
    hide Filter, FoldedSummary, SafeText;
  }

  // ----- answers are never rewritten -----

  lemma StepKeepsAnswer(w: World, e: Event, k: nat, settings: Settings)
    requires Inv(w, settings) && w.conversation.Some? && k < |History(w)| && History(w)[k].status.Completed?
    ensures var id := History(w)[k].id;
      id in w.answers && id in Step(w, e, settings).answers && Step(w, e, settings).answers[id] == w.answers[id]
  {
    hide Inv, Window, Frozen, Columns, Bounded, AllGenuine, Identity, ChatResult.Valid, ReserveTx, CompleteStep;
    hide CompleteWith, Storable, DerivedReferences, BuildStateUpdate, PersistedRecord;
    InvParts(w, settings);
    assert RowRecorded(History(w)[k], w.answers);
    if Enabled(w, e) && e.CompleteEvent? {
      if CompleteWith(w.conversation, w.tickets[e.ticket], e.chat, e.now, settings).result.Ok? {
        SuccessIsInFlight(w, e.ticket, e.chat, e.now, settings);
        CompletionInFlight(w, e.chat, e.now, settings);
        IdsAreDistinct(w);
        assert History(w)[|History(w)| - 1] == Newest(w.conversation.value.rows);
      } else {
        FailedCompletionLeaves(w, e.ticket, e.chat, e.now, settings);
      }
    }
  }

  lemma {:induction false} RunKeepsAnswer(w: World, events: seq<Event>, k: nat, settings: Settings)
    requires Inv(w, settings) && w.conversation.Some? && k < |History(w)| && History(w)[k].status.Completed?
    requires Run(w, events, settings).conversation.Some?
    ensures var id := History(w)[k].id; var v := Run(w, events, settings);
      id in w.answers && id in v.answers && v.answers[id] == w.answers[id]
  {
    hide Inv, Step, Evolves;
    if events == [] {
      StepKeepsAnswer(w, PurgeEvent(0), k, settings);
    } else {
      var early := events[..|events| - 1];
      var before := Run(w, early, settings);
      RunKeepsFrom(w, early, settings);
      StepEvolves(before, events[|events| - 1], settings);
      RunKeepsAnswer(w, early, k, settings);
      RunEvolves(w, early, settings);
      CompletedEvolves(History(w), History(before), k);
      StepKeepsAnswer(before, events[|events| - 1], k, settings);
    }
  }

  lemma CompletedEvolves(a: seq<Exchange>, b: seq<Exchange>, k: nat)
    requires Evolves(a, b) && k < |a| && a[k].status.Completed?
    ensures k < |b| && b[k] == a[k]
  {
    assert RowEvolves(a[k], b[k]);
  }

  /** Replay round trip. A completion succeeds; then anything happens; then its delivery
      comes again while its row is still there. The store hands back the record, and
      replaying it rebuilds an equal result when the resolver returns the same citations;
      whatever the resolver does, it is the fixed refusal or the same answer. */
  lemma ReplayRoundTrip(w: World, chat: ChatResult, now: Time, late: seq<Event>, i: nat,
                        again: Request, later: Time, freshId: Id, resolver: Resolver, settings: Settings)
    requires Inv(w, settings) && InFlight(w) && chat.Valid()
    requires CompleteWith(w.conversation, Newest(w.tickets), chat, now, settings).result.Ok?
    requires var v := Run(CompleteStep(w, |w.tickets| - 1, chat, now, settings), late, settings);
      && v.conversation.Some? && i < |v.conversation.value.rows| && later < v.conversation.value.expiresAt
      && v.conversation.value.rows[i].id == Newest(w.tickets).reservation.exchangeId
      && v.conversation.value.rows[i].key == again.deliveryId && again.conversationId == v.id
    ensures var v := Run(CompleteStep(w, |w.tickets| - 1, chat, now, settings), late, settings);
      var record := PersistedRecord(v.id, v.conversation.value.rows[i], chat);
      var r := ReplayCompleted(resolver, record);
      && ReserveTx(v.conversation, again, later, freshId, settings).result == Ok(DuplicateCompleted(record))
      && (Agrees(resolver, chat.citations) ==> r == chat)
      && r.Valid() && (SameAnswer(r, chat) || (chat.outcome.Answer? && r == FixedRefusal(CitationRevalidationFailure, chat.runId)))
  {
    hide Inv, Run, Step, CompleteStep, CompleteWith, ReserveTx, BuildStateUpdate, ChatResult.Valid, Evolves;
    hide PersistedRecord, ReplayCompleted, Storable, DerivedReferences, SameAnswer, Agrees, SameDocuments;
    hide AfterCompletion;
    var u := CompleteStep(w, |w.tickets| - 1, chat, now, settings);
    var v := Run(u, late, settings);
    var row := v.conversation.value.rows[i];
    CompletionInFlight(w, chat, now, settings);
    CompletionKeeps(w, chat, now, settings);
    CompletedHere(w, chat, now, settings);
    var k := |w.tickets| - 1;
    RunKeepsFrom(u, late, settings);
    RunEvolves(u, late, settings);
    CompletedEvolves(History(u), History(v), k);
    RunKeepsAnswer(u, late, k, settings);
    RowAtIsRowOf(v, i, k, settings);
    CompletedIsReadBack(v, i, again, later, freshId, settings);
    ReplayIsSameOrRefused(resolver, v.id, row, chat);
    if Agrees(resolver, chat.citations) {
      AgreeingIsSame(resolver, chat.citations);
      ReplayReturnsTheAnswer(resolver, v.id, row, chat);
    }
  }

  lemma AgreeingIsSame(resolver: Resolver, citations: seq<Citation>)
    requires Agrees(resolver, citations)
    ensures SameDocuments(resolver, citations)
  {
  }

  lemma CompletedHere(w: World, chat: ChatResult, now: Time, settings: Settings)
    requires Inv(w, settings) && InFlight(w) && chat.Valid()
    requires CompleteWith(w.conversation, Newest(w.tickets), chat, now, settings).result.Ok?
    ensures var u := CompleteStep(w, |w.tickets| - 1, chat, now, settings);
      var k := |w.tickets| - 1;
      && u.conversation.Some? && u.tickets == w.tickets && |History(u)| == |w.tickets| && History(u)[k].status.Completed?
      && History(u)[k].id == Newest(w.tickets).reservation.exchangeId
      && History(u)[k].id in u.answers && u.answers[History(u)[k].id] == chat
  {
    hide Inv, CompleteStep, CompleteWith, BuildStateUpdate, ChatResult.Valid, Storable, DerivedReferences;
    hide PersistedRecord, Window, Frozen, Columns, Bounded, AllGenuine, Recorded;
    CompletionInFlight(w, chat, now, settings);
    RowIsTheTickets(w, settings);
    InvParts(w, settings);
    IdentityMeans(w);
    var update := BuildStateUpdate(Newest(w.tickets).reservation, Newest(w.tickets).request, settings).value;
    HistoryAfterCompletion(w, chat, update, now, settings);
  }

  /** A row is at one place only. */
  lemma RowAtIsRowOf(v: World, i: nat, k: nat, settings: Settings)
    requires Inv(v, settings) && v.conversation.Some? && i < |v.conversation.value.rows| && k < |History(v)|
    requires v.conversation.value.rows[i].id == History(v)[k].id
    ensures v.conversation.value.rows[i] == History(v)[k]
  {
    hide Inv, Window, Frozen, Columns, Bounded, AllGenuine, Recorded, Identity;
    InvParts(v, settings);
    IdsAreDistinct(v);
    assert History(v)[|v.folded| + i] == v.conversation.value.rows[i];
  }
}
