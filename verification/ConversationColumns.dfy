/** What the columns of a conversation say about its completions: the active topic, the
    expiry and the version, in every reachable state. */
module ConversationColumns {
  import opened Wrappers
  import opened Sequences
  import opened ChatModels
  import opened ConversationModels
  import opened ConversationPolicy
  import opened SnapshotConstruction
  import opened ConversationStore
  import opened ConversationFacts
  import opened ConversationProtocol
  import opened ConversationCompletion
  import opened ConversationTheorems

  /** The topic is the beginning of a question: as much of it as fits. */
  predicate IsTopicOf(topic: Option<string>, question: string, limit: nat) {
    topic.Some? && topic.value <= question && |topic.value| == if |question| <= limit then |question| else limit
  }

  lemma TopicOfUpdate(reservation: Reservation, request: Request, settings: Settings)
    requires BuildStateUpdate(reservation, request, settings).Ok?
    ensures IsTopicOf(BuildStateUpdate(reservation, request, settings).value.activeTopic, request.text, settings.topicMaxChars)
  {
    hide Summary, Entries, StateUpdate.Valid;
  }

  /** The row holds the result, field by field. */
  predicate Holds(row: Exchange, chat: ChatResult, now: Time) {
    && row.status.Completed? && row.lease.None? && row.completedAt == Some(now)
    && row.assistantText == Some(chat.answer) && row.outcome == Some(chat.outcome)
    && row.reason == Some(FromChat(chat.reason)) && row.runId == chat.runId
    && row.provider == chat.provider && row.model == chat.model && row.requestId == chat.requestId
  }

  /** A completion stores the beginning of its own question, counts itself, starts the
      retention anew, and writes its result into its own row. */
  lemma CompletionWrites(w: World, ticket: nat, chat: ChatResult, now: Time, settings: Settings)
    requires Inv(w, settings) && ticket < |w.tickets| && chat.Valid()
    requires CompleteWith(w.conversation, w.tickets[ticket], chat, now, settings).result.Ok?
    ensures var v := CompleteStep(w, ticket, chat, now, settings);
      && w.conversation.Some? && v.conversation.Some?
      && var c := v.conversation.value;
      && IsTopicOf(c.activeTopic, w.tickets[ticket].request.text, settings.topicMaxChars)
      && c.stateVersion == w.conversation.value.stateVersion + 1
      && c.expiresAt == now + settings.retentionSeconds
      && c.rows != [] && Newest(c.rows).id == w.tickets[ticket].reservation.exchangeId
      && Newest(c.rows).key == w.tickets[ticket].request.deliveryId
      && Newest(c.rows).userText == w.tickets[ticket].request.text
      && Newest(c.rows).ordinal == w.tickets[ticket].reservation.ordinal && Holds(Newest(c.rows), chat, now)
  {
    hide Inv, CompleteStep, CompleteWith, BuildStateUpdate, ChatResult.Valid, Storable, DerivedReferences;
    hide PersistedRecord, RequireActive, IsTopicOf;
    SuccessIsInFlight(w, ticket, chat, now, settings);
    CompletionInFlight(w, chat, now, settings);
    RowIsTheTickets(w, settings);
    TopicOfUpdate(w.tickets[ticket].reservation, w.tickets[ticket].request, settings);
    RowInFlight(w, settings);
  }

  lemma RowInFlight(w: World, settings: Settings)
    requires Inv(w, settings) && InFlight(w)
    ensures RowOfTicket(Newest(w.conversation.value.rows), Newest(w.tickets))
  {
    hide Inv, Window, Recorded, Frozen, Columns, Bounded, AllGenuine, Identity, RowOfTicket;
    InvParts(w, settings);
    IdentityMeans(w);
    assert History(w)[|w.tickets| - 1] == Newest(w.conversation.value.rows);
  }

  // ----- what reserving writes -----

  /** A row after a sweep: abandoned if its lease has run out, and otherwise as it was. */
  predicate IsSwept(row: Exchange, swept: Exchange, now: Time) {
    if row.status.Processing? && row.lease.Some? && row.lease.value <= now
    then swept == row.(status := Abandoned, lease := None, reason := Some(LeaseExpiredReason))
    else swept == row
  }

  predicate AllSwept(rows: seq<Exchange>, swept: seq<Exchange>, now: Time) {
    |swept| == |rows| && forall i :: 0 <= i < |rows| ==> IsSwept(rows[i], swept[i], now)
  }

  /** A new exchange of the request, under a lease from now, with nothing answered yet. */
  predicate IsNewFor(row: Exchange, request: Request, id: Id, now: Time, settings: Settings) {
    && row.id == id && row.key == request.deliveryId && row.userText == request.text
    && row.status.Processing? && row.lease == Some(now + settings.leaseSeconds)
    && row.NoResultFields() && row.reason.None? && row.completedAt.None? && row.references == []
  }

  /** What a reserving transaction writes: nothing when it fails; the swept rows when it finds
      the delivery; and these and one new exchange, later than all of them, when it reserves. */
  lemma ReservingWrites(conversation: Option<Conversation>, request: Request, now: Time, freshId: Id, settings: Settings)
    ensures var tx := ReserveTx(conversation, request, now, freshId, settings);
      if tx.result.Err? then tx.conversation == conversation
      else
        && conversation.Some? && tx.conversation.Some?
        && var before, after := conversation.value.rows, tx.conversation.value.rows;
        && tx.conversation.value == conversation.value.(rows := after)
        && if !tx.result.value.Reserved? then AllSwept(before, after, now)
           else
             && conversation.value.deletedAt.None? && now < conversation.value.expiresAt
             && after != [] && AllSwept(before, Older(after), now) && IsNewFor(Newest(after), request, freshId, now, settings)
             && (forall i :: 0 <= i < |before| ==> before[i].key != request.deliveryId && !Older(after)[i].status.Processing?)
             && (forall i :: 0 <= i < |before| ==> before[i].ordinal < Newest(after).ordinal)
             && tx.result.value.reservation.exchangeId == freshId
             && tx.result.value.reservation.ordinal == Newest(after).ordinal
  {
    hide FindByKey, HasProcessing, MaxOrdinal, PlanFor, LoadSnapshot, Plan.Valid, Snapshot.Valid, PersistedOf;
    if conversation.Some? {
      var rows := conversation.value.rows;
      MaxIsLargest(AbandonStale(rows, now));
      FindByKeyOrigin(AbandonStale(rows, now), request.deliveryId);
      NothingProcesses(AbandonStale(rows, now));
      assert forall i :: 0 <= i < |rows| ==> AbandonStale(rows, now)[i].key == rows[i].key;
      forall i | 0 <= i < |rows| ensures rows[i].ordinal <= MaxOrdinal(AbandonStale(rows, now)) {
        assert AbandonStale(rows, now)[i].ordinal == rows[i].ordinal;
      }
    }
  }

  lemma NothingProcesses(rows: seq<Exchange>)
    ensures !HasProcessing(rows) ==> forall i :: 0 <= i < |rows| ==> !rows[i].status.Processing?
  {
  }

  // ----- what completing demands -----

  /** The exchange of the reservation, still processed under its lease. */
  predicate IsAwaited(row: Exchange, reservation: Reservation, now: Time) {
    && row.id == reservation.exchangeId && row.ordinal == reservation.ordinal && row.status.Processing?
    && row.lease.Some? && row.lease.value > now
  }

  lemma LockedAreTerminal(rows: seq<Exchange>, plan: Plan)
    requires LockedCandidates(rows, plan).Some?
    ensures forall i :: 0 <= i < |rows| && rows[i].id in plan.exchangeIds ==> IsTerminal(rows[i].status)
    ensures Map(IdOf, LockedCandidates(rows, plan).value) == plan.exchangeIds
  {
    var found := OrderBy(OrdinalOf, Filter(IdIn(plan.exchangeIds), rows));
    OrderBySorts(OrdinalOf, Filter(IdIn(plan.exchangeIds), rows));
    SameElements(found, Filter(IdIn(plan.exchangeIds), rows));
    FilterMembers(IdIn(plan.exchangeIds), rows);
    hide Filter, OrderBy;
    if plan.exchangeIds != [] {
      forall i | 0 <= i < |rows| && rows[i].id in plan.exchangeIds ensures IsTerminal(rows[i].status) {
        assert rows[i] in found;
      }
    }
  }

  lemma FinishedIsTrimmed(conversation: Conversation, conversationId: Id, e: Exchange, candidates: seq<Exchange>,
                          chat: ChatResult, update: StateUpdate, now: Time, settings: Settings)
    ensures var tx := Finish(conversation, conversationId, e, candidates, chat, update, now, settings);
      if tx.result.Err? then tx.conversation == Some(conversation)
      else
        && tx.conversation.Some?
        && var rows := tx.conversation.value.rows;
        && |rows| == |conversation.rows| - |candidates| && TerminalCount(rows) <= settings.retainedLimit
        && forall r :: r in rows ==> r.id !in Map(IdOf, candidates)
  {
    var written := ReplaceById(conversation.rows, CompletedRow(e, chat, now));
    FilterMembers(IdNotIn(Map(IdOf, candidates)), written);
    hide Filter, TerminalCount, PersistedOf, Exchange.DatabaseChecks, CompletedRow;
  }

  /** Completing is guarded, whatever the state: it changes nothing when it fails, and when it
      succeeds the conversation was active and of the expected version, the exchange was still
      processed under its lease, the update was the reservation's, everything folded away was
      terminal, all of it went and nothing else, and what is left is within the limit. */
  lemma CompletingIsGuarded(conversation: Option<Conversation>, reservation: Reservation, chat: ChatResult,
                            update: StateUpdate, now: Time, settings: Settings)
    ensures var tx := CompleteTx(conversation, reservation, chat, update, now, settings);
      if tx.result.Err? then tx.conversation == conversation
      else
        && conversation.Some? && tx.conversation.Some?
        && var c, after := conversation.value, tx.conversation.value.rows;
        && c.deletedAt.None? && now < c.expiresAt && c.stateVersion == reservation.expectedVersion
        && update.expectedVersion == reservation.expectedVersion && update.compactedIds == reservation.plan.exchangeIds
        && (exists i :: 0 <= i < |c.rows| && IsAwaited(c.rows[i], reservation, now))
        && (forall i :: 0 <= i < |c.rows| && c.rows[i].id in reservation.plan.exchangeIds ==> IsTerminal(c.rows[i].status))
        && |after| == |c.rows| - |reservation.plan.exchangeIds|
        && (forall r :: r in after ==> r.id !in reservation.plan.exchangeIds)
        && TerminalCount(after) <= settings.retainedLimit
  {
    hide FindById, LockedCandidates, Finish, TerminalCount, Map;
    if conversation.Some? {
      var rows := conversation.value.rows;
      var found := FindById(rows, reservation.exchangeId, reservation.ordinal);
      var locked := LockedCandidates(rows, reservation.plan);
      if found.Some? && locked.Some? {
        FindByIdOrigin(rows, reservation.exchangeId, reservation.ordinal);
        LockedAreTerminal(rows, reservation.plan);
        assert |Map(IdOf, locked.value)| == |locked.value|;
        FinishedIsTrimmed(conversation.value, reservation.conversationId, found.value, locked.value, chat, update, now, settings);
      }
    }
  }

  lemma {:induction false} MaxIsLargest(rows: seq<Exchange>)
    ensures forall i :: 0 <= i < |rows| ==> rows[i].ordinal <= MaxOrdinal(rows)
  {
    if rows != [] {
      MaxIsLargest(rows[..|rows| - 1]);
    }
  }

  // ----- over runs -----

  ghost predicate NoneCompleted(h: seq<Exchange>) {
    forall k :: 0 <= k < |h| ==> !h[k].status.Completed?
  }

  ghost predicate IsLastCompleted(h: seq<Exchange>, k: nat) {
    k < |h| && h[k].status.Completed? && forall j :: k < j < |h| ==> !h[j].status.Completed?
  }

  /** The columns after the completion of one exchange. */
  predicate WrittenBy(c: Conversation, row: Exchange, t: Ticket, settings: Settings) {
    && IsTopicOf(c.activeTopic, t.request.text, settings.topicMaxChars)
    && row.completedAt.Some? && c.expiresAt == row.completedAt.value + settings.retentionSeconds
  }

  ghost predicate Told(w: World, start: Time, settings: Settings)
    requires w.conversation.Some?
  {
    var c, h := w.conversation.value, History(w);
    && |h| == |w.tickets|
    && (NoneCompleted(h) ==> c.activeTopic.None? && c.expiresAt == start + settings.retentionSeconds)
    && forall k: nat :: IsLastCompleted(h, k) ==> WrittenBy(c, h[k], w.tickets[k], settings)
  }

  /** The same rows are completed, and with the same content. */
  ghost predicate SameCompleted(a: seq<Exchange>, b: seq<Exchange>) {
    |a| <= |b|
    && (forall k :: 0 <= k < |a| ==> a[k].status.Completed? == b[k].status.Completed? && (a[k].status.Completed? ==> a[k] == b[k]))
    && forall k :: |a| <= k < |b| ==> !b[k].status.Completed?
  }

  lemma SameLastCompleted(a: seq<Exchange>, b: seq<Exchange>)
    requires SameCompleted(a, b)
    ensures NoneCompleted(b) ==> NoneCompleted(a)
    ensures forall k: nat :: IsLastCompleted(b, k) ==> IsLastCompleted(a, k) && a[k] == b[k]
  {
  }

  lemma SameCompletedKeeps(w: World, v: World, start: Time, settings: Settings)
    requires w.conversation.Some? && v.conversation.Some? && Told(w, start, settings)
    requires SameCompleted(History(w), History(v)) && |History(v)| == |v.tickets| && w.tickets <= v.tickets
    requires v.conversation.value.activeTopic == w.conversation.value.activeTopic
    requires v.conversation.value.expiresAt == w.conversation.value.expiresAt
    ensures Told(v, start, settings)
  {
    hide NoneCompleted, IsLastCompleted, SameCompleted, IsTopicOf;
    SameLastCompleted(History(w), History(v));
    assert forall k: nat :: IsLastCompleted(History(w), k) ==> k < |History(w)| by {
      LastIsInside(History(w));
    }
  }

  lemma LastIsInside(h: seq<Exchange>)
    ensures forall k: nat :: IsLastCompleted(h, k) ==> k < |h|
  {
  }

  lemma SweepKeepsCompleted(w: World, now: Time)
    requires w.conversation.Some?
    ensures SameCompleted(History(w), History(Swept(w, now)))
  {
    var h, g := History(w), History(Swept(w, now));
    forall k | 0 <= k < |h| ensures h[k].status.Completed? == g[k].status.Completed? && (h[k].status.Completed? ==> h[k] == g[k]) {
      if k >= |w.folded| {
        assert g[k] == AbandonRow(h[k], now);
      }
    }
  }

  lemma ReserveKeepsTold(w: World, request: Request, now: Time, freshId: Id, start: Time, settings: Settings)
    requires w.conversation.Some? && Told(w, start, settings) && request.conversationId == w.id
    requires ReserveStep(w, request, now, freshId, settings).conversation.Some?
    ensures Told(ReserveStep(w, request, now, freshId, settings), start, settings)
  {
    hide ReserveStep, MaxOrdinal, RequireActive, FindByKey, HasProcessing, ReservationFor, AbandonStale, Told, SameCompleted;
    var v := ReserveStep(w, request, now, freshId, settings);
    ReserveCases(w, request, now, freshId, settings);
    if v != w {
      var u := Swept(w, now);
      SweepKeepsCompleted(w, now);
      assert |History(w)| == |w.tickets| by { ToldLength(w, start, settings); }
      SweepKeepsLength(w, now);
      SameCompletedKeeps(w, u, start, settings);
      if v != u {
        var reservation: Reservation :| Inserts(u, v, request, now, freshId, reservation, settings);
        assert History(v) == History(u) + [Newest(v.conversation.value.rows)];
        AppendKeepsCompleted(History(u), Newest(v.conversation.value.rows));
        SameCompletedKeeps(u, v, start, settings);
      }
    }
  }

  lemma SweepKeepsLength(w: World, now: Time)
    requires w.conversation.Some?
    ensures |History(Swept(w, now))| == |History(w)|
  {
  }

  lemma ToldLength(w: World, start: Time, settings: Settings)
    requires w.conversation.Some? && Told(w, start, settings)
    ensures |History(w)| == |w.tickets|
  {
    hide NoneCompleted, IsLastCompleted, WrittenBy;
  }

  lemma AppendKeepsCompleted(h: seq<Exchange>, e: Exchange)
    requires !e.status.Completed?
    ensures SameCompleted(h, h + [e])
  {
  }

  lemma CompletionKeepsTold(w: World, ticket: nat, chat: ChatResult, now: Time, start: Time, settings: Settings)
    requires Inv(w, settings) && ticket < |w.tickets| && chat.Valid()
    requires CompleteWith(w.conversation, w.tickets[ticket], chat, now, settings).result.Ok?
    ensures CompleteStep(w, ticket, chat, now, settings).conversation.Some?
    ensures Told(CompleteStep(w, ticket, chat, now, settings), start, settings)
  {
    hide Inv, CompleteStep, CompleteWith, BuildStateUpdate, ChatResult.Valid, Storable, DerivedReferences;
    hide PersistedRecord, RequireActive, IsTopicOf;
    var v := CompleteStep(w, ticket, chat, now, settings);
    CompletionWrites(w, ticket, chat, now, settings);
    SuccessIsInFlight(w, ticket, chat, now, settings);
    CompletionKeeps(w, chat, now, settings) by { CompletionInFlight(w, chat, now, settings); }
    CompletionInFlight(w, chat, now, settings);
    HistoryIsTickets(v, settings);
    var h := History(v);
    assert h[|h| - 1] == Newest(v.conversation.value.rows);
  }

  lemma HistoryIsTickets(w: World, settings: Settings)
    requires Inv(w, settings) && w.conversation.Some?
    ensures |History(w)| == |w.tickets|
  {
    hide Inv, Recorded, Frozen, Columns, Bounded, AllGenuine, Identity;
    InvParts(w, settings);
  }

  lemma StepKeepsTold(w: World, e: Event, start: Time, settings: Settings)
    requires Inv(w, settings) && (w.conversation.Some? ==> Told(w, start, settings))
    ensures var v := Step(w, e, settings); v.conversation.Some? ==> Told(v, start, settings)
  {
    hide Inv, Told, ReserveStep, CompleteStep, ChatResult.Valid;
    var v := Step(w, e, settings);
    if v.conversation.Some? && v != w {
      StepEvolvesFrom(w, e, settings);
      match e
      case ReserveEvent(request, now, freshId) => ReserveKeepsTold(w, request, now, freshId, start, settings);
      case CompleteEvent(ticket, chat, now) =>
        if CompleteWith(w.conversation, w.tickets[ticket], chat, now, settings).result.Ok? {
          CompletionKeepsTold(w, ticket, chat, now, start, settings);
        } else {
          FailedCompletionLeaves(w, ticket, chat, now, settings);
        }
      case PurgeEvent(_) =>
    }
  }

  lemma StepEvolvesFrom(w: World, e: Event, settings: Settings)
    requires Inv(w, settings) && Step(w, e, settings).conversation.Some?
    ensures w.conversation.Some?
  {
    hide Inv, Step;
    StepEvolves(w, e, settings);
  }

  lemma {:induction false} RunIsTold(id: Id, start: Time, events: seq<Event>, settings: Settings)
    ensures var w := Reached(id, start, events, settings);
      Inv(w, settings) && (w.conversation.Some? ==> Told(w, start, settings))
  {
    hide Inv, Step, Told;
    RunKeeps(id, start, events, settings);
    if events == [] {
      StartIsTold(id, start, settings);
    } else {
      RunIsTold(id, start, events[..|events| - 1], settings);
      StepKeepsTold(Reached(id, start, events[..|events| - 1], settings), events[|events| - 1], start, settings);
    }
  }

  lemma StartIsTold(id: Id, start: Time, settings: Settings)
    ensures Told(Initial(id, start, settings), start, settings)
  {
  }

  lemma VersionZeroMeansNone(w: World, settings: Settings)
    requires w.conversation.Some? && Columns(w, settings)
    ensures w.conversation.value.stateVersion == 0 <==> NoneCompleted(History(w))
  {
    var h := History(w);
    FilterMembers(IsCompleted, h);
    hide Filter, FoldedSummary;
    SummaryOfColumns(w, settings);
    if |Filter(IsCompleted, h)| > 0 {
      assert Filter(IsCompleted, h)[0] in h;
    } else {
      forall k | 0 <= k < |h| ensures !h[k].status.Completed? {
        assert h[k] in h;
      }
    }
  }

  /** In every reachable state: there is no topic exactly while nothing was completed, and
      then the conversation expires a retention after it was made. Otherwise the topic is the
      beginning of the question completed last, and the expiry is a retention after it. */
  lemma TopicIsTheLastQuestion(id: Id, start: Time, events: seq<Event>, settings: Settings)
    ensures var w := Reached(id, start, events, settings);
      w.conversation.Some? ==>
        var c, h := w.conversation.value, History(w);
        && |h| == |w.tickets|
        && (c.activeTopic.None? <==> c.stateVersion == 0)
        && (c.stateVersion == 0 ==> c.expiresAt == start + settings.retentionSeconds)
        && (c.stateVersion > 0 ==> exists k: nat :: IsLastCompleted(h, k))
        && forall k: nat :: IsLastCompleted(h, k) ==> WrittenBy(c, h[k], w.tickets[k], settings)
  {
    hide Run, Inv, Columns;
    var w := Reached(id, start, events, settings);
    RunIsTold(id, start, events, settings);
    if w.conversation.Some? {
      assert Columns(w, settings) by {
        hide Window, Identity, Recorded, Frozen, Bounded, AllGenuine;
        InvParts(w, settings);
      }
      VersionZeroMeansNone(w, settings);
      if w.conversation.value.stateVersion > 0 {
        var k := LastOfCompleted(History(w));
        assert WrittenBy(w.conversation.value, History(w)[k], w.tickets[k], settings);
      }
    }
  }

  lemma {:induction false} LastOfCompleted(h: seq<Exchange>) returns (k: nat)
    requires !NoneCompleted(h)
    ensures IsLastCompleted(h, k)
  {
    var front := h[..|h| - 1];
    if h[|h| - 1].status.Completed? {
      k := |h| - 1;
    } else {
      k := LastOfCompleted(front);
    }
  }

  /** Purging removes a conversation exactly when its retention has passed. */
  lemma PurgedIffExpired(w: World, now: Time, settings: Settings)
    requires Inv(w, settings) && w.conversation.Some?
    ensures var v := Step(w, PurgeEvent(now), settings);
      if w.conversation.value.expiresAt <= now then v.conversation.None? else v == w
  {
    hide Window, Identity, Recorded, Frozen, Bounded, AllGenuine, Filter, FoldedSummary;
  }
}
