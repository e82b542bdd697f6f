/** What one step of a component world leaves of the facts the others rely on. */
module ChannelSystemFacts {
  import opened Wrappers
  import opened Sequences
  import opened ChatModels
  import opened ConversationModels
  import opened ConversationPolicy
  import opened SnapshotConstruction
  import opened ConversationStore
  import opened ConversationFacts
  import opened ConversationCompletion
  import opened ConversationTheorems
  import opened ChannelBinding
  import opened ChannelSystem
  import C = ConversationProtocol
  import B = ChannelBindingProtocol
  import T = ChannelBindingTheorems

  // ----- conversations -----

  lemma TicketsGrow(w: C.World, e: C.Event, settings: Settings)
    ensures w.tickets <= C.Step(w, e, settings).tickets && C.Step(w, e, settings).id == w.id
  {
    hide ReserveTx, C.CompleteWith, Filter, Purge;
  }

  lemma TicketIdsGrow(w: C.World, e: C.Event, id: Id, settings: Settings)
    ensures IssuedIn(w, id) ==> IssuedIn(C.Step(w, e, settings), id)
    ensures IssuedIn(C.Step(w, e, settings), id) ==> IssuedIn(w, id) || (e.ReserveEvent? && C.Enabled(w, e) && e.freshId == id)
  {
    TicketsGrow(w, e, settings);
    var v := C.Step(w, e, settings);
    hide C.CompleteWith, Filter, Purge, RequireActive, FindByKey, HasProcessing, PersistedOf, MaxOrdinal, PlanFor;
    hide LoadSnapshot, Plan.Valid, Snapshot.Valid, AbandonStale;
    if IssuedIn(w, id) {
      var t :| 0 <= t < |w.tickets| && w.tickets[t].reservation.exchangeId == id;
      assert v.tickets[t] == w.tickets[t];
    }
    if IssuedIn(v, id) && !IssuedIn(w, id) {
      var t :| 0 <= t < |v.tickets| && v.tickets[t].reservation.exchangeId == id;
    }
  }

  /** A row after a step is a row from before that evolved, or the row just inserted. */
  predicate ComesFrom(rows: seq<Exchange>, row: Exchange) {
    exists i :: 0 <= i < |rows| && RowEvolves(rows[i], row)
  }

  lemma SameRowsComeFrom(rows: seq<Exchange>)
    ensures forall k :: 0 <= k < |rows| ==> ComesFrom(rows, rows[k])
  {
    forall k | 0 <= k < |rows| ensures ComesFrom(rows, rows[k]) {
      assert RowEvolves(rows[k], rows[k]);
    }
  }

  lemma SweptRowsComeFrom(rows: seq<Exchange>, now: Time)
    ensures forall k :: 0 <= k < |rows| ==> ComesFrom(rows, AbandonStale(rows, now)[k])
  {
    forall k | 0 <= k < |rows| ensures ComesFrom(rows, AbandonStale(rows, now)[k]) {
      assert RowEvolves(rows[k], AbandonStale(rows, now)[k]);
    }
  }

  lemma ReserveRowsComeFrom(w: C.World, request: Request, now: Time, freshId: Id, settings: Settings)
    requires request.conversationId == w.id
    ensures var v := C.ReserveStep(w, request, now, freshId, settings);
      forall k :: 0 <= k < |Rows(v)| ==> ComesFrom(Rows(w), Rows(v)[k]) || Rows(v)[k].id == freshId
  {
    hide C.ReserveStep, MaxOrdinal, RequireActive, FindByKey, HasProcessing, ReservationFor, AbandonStale, ComesFrom;
    var v := C.ReserveStep(w, request, now, freshId, settings);
    C.ReserveCases(w, request, now, freshId, settings);
    SameRowsComeFrom(Rows(w));
    if v != w {
      SweptRowsComeFrom(Rows(w), now);
    }
  }

  lemma CompleteRowsComeFrom(w: C.World, ticket: nat, chat: ChatResult, now: Time, settings: Settings)
    requires C.Inv(w, settings) && ticket < |w.tickets| && chat.Valid()
    ensures var v := C.CompleteStep(w, ticket, chat, now, settings);
      forall k :: 0 <= k < |Rows(v)| ==> ComesFrom(Rows(w), Rows(v)[k])
  {
    hide C.Inv, C.CompleteStep, C.CompleteWith, BuildStateUpdate, ChatResult.Valid, Storable, DerivedReferences;
    hide PersistedRecord;
    SameRowsComeFrom(Rows(w));
    if C.CompleteWith(w.conversation, w.tickets[ticket], chat, now, settings).result.Ok? {
      SuccessIsInFlight(w, ticket, chat, now, settings);
      CompletionInFlight(w, chat, now, settings);
      FinishedRowsComeFrom(Rows(w), PlanSize(Rows(w), settings), chat, now);
    } else {
      FailedCompletionLeaves(w, ticket, chat, now, settings);
    }
  }

  lemma FinishedRowsComeFrom(rows: seq<Exchange>, n: nat, chat: ChatResult, now: Time)
    requires rows != [] && n <= |C.Older(rows)| && C.Newest(rows).status.Processing?
    ensures var v := C.Older(rows)[n..] + [CompletedRow(C.Newest(rows), chat, now)];
      forall k :: 0 <= k < |v| ==> ComesFrom(rows, v[k])
  {
    hide DerivedReferences;
    var v := C.Older(rows)[n..] + [CompletedRow(C.Newest(rows), chat, now)];
    forall k | 0 <= k < |v| ensures ComesFrom(rows, v[k]) {
      assert RowEvolves(rows[n + k], v[k]);
    }
  }

  lemma RowsComeFrom(w: C.World, e: C.Event, settings: Settings)
    requires C.Inv(w, settings)
    ensures var v := C.Step(w, e, settings);
      forall k :: 0 <= k < |Rows(v)| ==>
        ComesFrom(Rows(w), Rows(v)[k]) || (e.ReserveEvent? && C.Enabled(w, e) && Rows(v)[k].id == e.freshId)
  {
    hide C.Inv, C.ReserveStep, C.CompleteStep, ChatResult.Valid, ComesFrom;
    SameRowsComeFrom(Rows(w));
    if C.Enabled(w, e) {
      match e
      case ReserveEvent(request, now, freshId) => ReserveRowsComeFrom(w, request, now, freshId, settings);
      case CompleteEvent(ticket, chat, now) => CompleteRowsComeFrom(w, ticket, chat, now, settings);
      case PurgeEvent(now) =>
    }
  }

  lemma RowsAreIssued(w: C.World, settings: Settings)
    requires C.Inv(w, settings)
    ensures forall i :: 0 <= i < |Rows(w)| ==> IssuedIn(w, Rows(w)[i].id)
    ensures DistinctIds(Rows(w))
  {
    hide C.Inv, C.Window, C.Recorded, C.Frozen, C.Columns, C.Bounded, C.AllGenuine;
    if w.conversation.Some? {
      InvParts(w, settings);
      IdsAreDistinct(w);
      forall i | 0 <= i < |Rows(w)| ensures IssuedIn(w, Rows(w)[i].id) {
        assert C.RowOfTicket(C.History(w)[|w.folded| + i], w.tickets[|w.folded| + i]);
      }
    }
  }

  /** The exchange was reserved here; if its row is still there it is completed and of
      this delivery. */
  predicate MayAnswer(w: C.World, id: Id, delivery: string) {
    IssuedIn(w, id) && forall i :: 0 <= i < |Rows(w)| && Rows(w)[i].id == id ==> AnswersDelivery(Rows(w)[i], delivery)
  }

  predicate AnswersDelivery(row: Exchange, delivery: string) {
    row.status.Completed? && row.key == delivery
  }

  predicate HasAnswer(w: C.World, id: Id, delivery: string) {
    MayAnswer(w, id, delivery) && id in RowIds(w)
  }

  lemma AnswerStays(w: C.World, e: C.Event, id: Id, delivery: string, settings: Settings)
    requires C.Inv(w, settings) && MayAnswer(w, id, delivery)
    ensures MayAnswer(C.Step(w, e, settings), id, delivery)
  {
    hide C.Inv, C.Step;
    var v := C.Step(w, e, settings);
    TicketIdsGrow(w, e, id, settings);
    RowsComeFrom(w, e, settings);
    forall k | 0 <= k < |Rows(v)| && Rows(v)[k].id == id ensures AnswersDelivery(Rows(v)[k], delivery) {
      if ComesFrom(Rows(w), Rows(v)[k]) {
        var i :| 0 <= i < |Rows(w)| && RowEvolves(Rows(w)[i], Rows(v)[k]);
        assert AnswersDelivery(Rows(w)[i], delivery);
      } else {
        IssuedMeans(w, id);
        assert false;
      }
    }
  }

  lemma IssuedMeans(w: C.World, id: Id)
    ensures IssuedIn(w, id) <==> C.Issued(w, id)
  {
    if C.Issued(w, id) {
      var t :| t in w.tickets && t.reservation.exchangeId == id;
      var k :| 0 <= k < |w.tickets| && w.tickets[k] == t;
      assert w.tickets[k].reservation.exchangeId == id;
    }
    if IssuedIn(w, id) {
      var k :| 0 <= k < |w.tickets| && w.tickets[k].reservation.exchangeId == id;
      assert w.tickets[k] in w.tickets;
    }
  }

  lemma RowIdsShrink(w: C.World, e: C.Event, id: Id, settings: Settings)
    requires C.Inv(w, settings) && IssuedIn(w, id) && id in RowIds(C.Step(w, e, settings))
    ensures id in RowIds(w)
  {
    hide C.Inv, C.Step;
    var v := C.Step(w, e, settings);
    RowsComeFrom(w, e, settings);
    var k :| 0 <= k < |Rows(v)| && Rows(v)[k].id == id;
    IssuedMeans(w, id);
    var i :| 0 <= i < |Rows(w)| && RowEvolves(Rows(w)[i], Rows(v)[k]);
  }

  /** Reserving never removes a row. */
  lemma ReserveKeepsRowIds(w: C.World, request: Request, now: Time, freshId: Id, settings: Settings)
    requires request.conversationId == w.id
    ensures RowIds(w) <= RowIds(C.ReserveStep(w, request, now, freshId, settings))
    ensures IsLive(C.ReserveStep(w, request, now, freshId, settings)) == IsLive(w)
  {
    hide C.ReserveStep, MaxOrdinal, RequireActive, FindByKey, HasProcessing, ReservationFor;
    var v := C.ReserveStep(w, request, now, freshId, settings);
    C.ReserveCases(w, request, now, freshId, settings);
    forall id | id in RowIds(w) ensures id in RowIds(v) {
      var i :| 0 <= i < |Rows(w)| && Rows(w)[i].id == id;
      assert v == w || Rows(v)[i] == AbandonRow(Rows(w)[i], now);
      assert Rows(v)[i].id == id;
    }
  }

  // ----- what a reservation or a completion hands out -----

  lemma CompletedMayAnswer(w: C.World, request: Request, now: Time, freshId: Id, settings: Settings)
    requires C.Inv(w, settings) && request.conversationId == w.id
    requires var tx := ReserveTx(w.conversation, request, now, freshId, settings);
      tx.result.Ok? && tx.result.value.DuplicateCompleted?
    ensures MayAnswer(w, ReserveTx(w.conversation, request, now, freshId, settings).result.value.completed.exchangeId, request.deliveryId)
  {
    hide C.Inv, HasProcessing, MaxOrdinal, ReservationFor, FindByKey, OrderBy, Persisted.Valid, MayAnswer;
    var rows := Rows(w);
    var swept := AbandonStale(rows, now);
    FindByKeyOrigin(swept, request.deliveryId);
    var k :| 0 <= k < |swept| && swept[k] == FindByKey(swept, request.deliveryId).value && swept[k].key == request.deliveryId;
    assert swept[k] == rows[k];
    RowAnswers(w, k, request.deliveryId, settings);
  }

  lemma RowAnswers(w: C.World, k: nat, delivery: string, settings: Settings)
    requires C.Inv(w, settings) && k < |Rows(w)| && AnswersDelivery(Rows(w)[k], delivery)
    ensures HasAnswer(w, Rows(w)[k].id, delivery)
  {
    hide C.Inv;
    RowsAreIssued(w, settings);
    assert Rows(w)[k].id in RowIds(w);
  }

  lemma ReservedTicket(w: C.World, request: Request, now: Time, freshId: Id, settings: Settings)
    requires request.conversationId == w.id && !C.Issued(w, freshId)
    requires var tx := ReserveTx(w.conversation, request, now, freshId, settings);
      tx.result.Ok? && tx.result.value.Reserved?
    ensures var v := C.Step(w, C.ReserveEvent(request, now, freshId), settings);
      && |v.tickets| == |w.tickets| + 1 && v.tickets[|w.tickets|].request == request
  {
    hide AbandonStale, FindByKey, HasProcessing, MaxOrdinal, PlanFor, LoadSnapshot, Plan.Valid, Snapshot.Valid;
    hide ReservationForExisting;
  }

  /** A completed ticket answers its own delivery. */
  lemma CompletionAnswers(w: C.World, ticket: nat, chat: ChatResult, now: Time, settings: Settings)
    requires C.Inv(w, settings) && ticket < |w.tickets| && chat.Valid()
    requires C.CompleteWith(w.conversation, w.tickets[ticket], chat, now, settings).result.Ok?
    ensures HasAnswer(C.CompleteStep(w, ticket, chat, now, settings), w.tickets[ticket].reservation.exchangeId, w.tickets[ticket].request.deliveryId)
  {
    hide C.Inv, C.CompleteStep, C.CompleteWith, BuildStateUpdate, ChatResult.Valid, Storable, DerivedReferences;
    hide PersistedRecord, HasAnswer;
    hide C.Window, C.Recorded, C.Frozen, C.Columns, C.Bounded, C.AllGenuine, C.Identity;
    SuccessIsInFlight(w, ticket, chat, now, settings);
    CompletionInFlight(w, chat, now, settings);
    CompletionKeeps(w, chat, now, settings);
    InvParts(w, settings);
    IdentityMeans(w);
    assert C.History(w)[ticket] == C.Newest(Rows(w));
    var v := C.CompleteStep(w, ticket, chat, now, settings);
    RowAnswers(v, |Rows(v)| - 1, w.tickets[ticket].request.deliveryId, settings);
  }

  // ----- bindings -----

  /** If the binding is still there it is active for this conversation. */
  predicate BoundTo(w: B.Bindings, id: Id, conversationId: Id) {
    id in w.issued && forall k :: 0 <= k < |w.rows| && w.rows[k].id == id ==> IsFor(w.rows[k], conversationId)
  }

  predicate IsFor(b: BindingRow, conversationId: Id) {
    b.status.Active? && b.conversationId == Some(conversationId)
  }

  predicate IsBound(rows: seq<BindingRow>, id: Id, conversationId: Id) {
    exists k :: 0 <= k < |rows| && rows[k].id == id && IsFor(rows[k], conversationId)
  }

  lemma BoundToStays(w: B.Bindings, e: B.BindingEvent, id: Id, conversationId: Id, leaseSeconds: LeaseSeconds)
    requires B.Inv(w) && BoundTo(w, id, conversationId)
    ensures BoundTo(B.Step(w, e, leaseSeconds), id, conversationId)
  {
    hide B.Inv, ValidHmac, ValidSafeErrorCode, ConversationTaken;
    var v := B.Step(w, e, leaseSeconds);
    if e.PurgeConversation? {
      WithoutConversationMembers(w.rows, e.conversationId);
      forall k | 0 <= k < |v.rows| && v.rows[k].id == id ensures IsFor(v.rows[k], conversationId) {
        assert v.rows[k] in w.rows;
      }
    } else {
      forall k | 0 <= k < |v.rows| && v.rows[k].id == id ensures IsFor(v.rows[k], conversationId) {
        assert k < |w.rows| ==> w.rows[k].id == v.rows[k].id;
      }
    }
  }

  lemma IsBoundStays(w: B.Bindings, e: B.BindingEvent, id: Id, conversationId: Id, leaseSeconds: LeaseSeconds)
    requires B.Inv(w) && IsBound(w.rows, id, conversationId) && conversationId in B.Step(w, e, leaseSeconds).live
    ensures IsBound(B.Step(w, e, leaseSeconds).rows, id, conversationId)
  {
    hide B.Inv, B.Step;
    T.StepKeepsActive(w, e, leaseSeconds);
    var v := B.Step(w, e, leaseSeconds);
    var k :| 0 <= k < |w.rows| && w.rows[k].id == id && IsFor(w.rows[k], conversationId);
    assert w.rows[k] in v.rows;
    var j :| 0 <= j < |v.rows| && v.rows[j] == w.rows[k];
  }

  lemma TokensGrow(w: B.Bindings, e: B.BindingEvent, leaseSeconds: LeaseSeconds)
    ensures w.tokens <= B.Step(w, e, leaseSeconds).tokens
  {
    hide ReserveBinding, ActivateBinding, FailBinding;
  }

  lemma ActiveIsBoundTo(w: B.Bindings, k: nat)
    requires B.Inv(w) && k < |w.rows| && w.rows[k].status.Active? && w.rows[k].conversationId.Some?
    ensures BoundTo(w, w.rows[k].id, w.rows[k].conversationId.value) && w.rows[k].conversationId.value in w.live
  {
    hide B.Inv, BindingTable, B.Fenced, B.Logged;
    B.InvParts(w);
    B.TableMeans(w, k);
  }
}
