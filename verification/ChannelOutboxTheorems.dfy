/** The promises of the outbound protocol, for every interleaving and crash. */
module ChannelOutboxTheorems {
  import opened Wrappers
  import opened Sequences
  import opened ChatModels
  import opened ChannelBinding
  import opened ChannelOutbox
  import opened ChannelOutboxProtocol

  lemma ReachedKeeps(events: seq<OutboxEvent>)
    ensures Inv(Run(EMPTY_OUTBOX, events))
  {
    hide Inv, Run;
    EmptyInv();
    RunKeeps(EMPTY_OUTBOX, events);
  }

  // ----- at most one send -----

  /** Over any interleaving and any crashes the channel adapter is called at most once for
      every outbound row ever inserted, and only by the one holder that won the step from
      PENDING to SENDING. */
  lemma AtMostOneSendPerRow(events: seq<OutboxEvent>)
    ensures var w := Run(EMPTY_OUTBOX, events);
      && (forall n, m :: 0 <= n < m < |w.sends| ==> w.sends[n].outboundId != w.sends[m].outboundId)
      && (forall n :: 0 <= n < |w.sends| ==> SendIsOf(w, w.sends[n]))
      && OneWinner(w)
  {
    hide Run, OutboundTable, IdsKnown, AllFit, RowsTell, RowsAreWon, Receipt.Valid;
    ReachedKeeps(events);
    SendsAreDistinct(Run(EMPTY_OUTBOX, events));
  }

  lemma SendsAreDistinct(w: Outbox)
    requires SendsLogged(w) && OneWinner(w)
    ensures forall n, m :: 0 <= n < m < |w.sends| ==> w.sends[n].outboundId != w.sends[m].outboundId
  {
    hide Receipt.Valid;
    forall n, m | 0 <= n < m < |w.sends| ensures w.sends[n].outboundId != w.sends[m].outboundId {
      assert SendIsOf(w, w.sends[n]) && SendIsOf(w, w.sends[m]);
      var g, h := w.sends[n].holder, w.sends[m].holder;
      assert Won(w.holders[g].phase) && Won(w.holders[h].phase);
    }
  }

  /** How many calls of the adapter were made for rows of one delivery, and how many rows
      were ever inserted for it. */
  function SendsOf(w: Outbox, sends: seq<Send>, delivery: string): nat {
    if sends == [] then 0
    else SendsOf(w, sends[..|sends| - 1], delivery) + (if IsRowOf(w.created, sends[|sends| - 1].outboundId, delivery) then 1 else 0)
  }

  predicate IsRowOf(created: seq<OutboundRow>, id: Id, delivery: string) {
    exists n :: 0 <= n < |created| && created[n].id == id && created[n].delivery == delivery
  }

  function IdsOf(created: seq<OutboundRow>, delivery: string): set<Id> {
    set n | 0 <= n < |created| && created[n].delivery == delivery :: created[n].id
  }

  function SentIds(sends: seq<Send>, created: seq<OutboundRow>, delivery: string): set<Id> {
    set n | 0 <= n < |sends| && IsRowOf(created, sends[n].outboundId, delivery) :: sends[n].outboundId
  }

  lemma SentIdsAppend(front: seq<Send>, last: Send, created: seq<OutboundRow>, delivery: string)
    ensures SentIds(front + [last], created, delivery)
      == if IsRowOf(created, last.outboundId, delivery) then SentIds(front, created, delivery) + {last.outboundId} else SentIds(front, created, delivery)
  {
    hide IsRowOf;
    var all := front + [last];
    assert forall n :: 0 <= n < |front| ==> all[n] == front[n];
    forall id | id in SentIds(front, created, delivery) ensures id in SentIds(all, created, delivery) {
      var n :| 0 <= n < |front| && IsRowOf(created, front[n].outboundId, delivery) && front[n].outboundId == id;
      assert all[n].outboundId == id;
    }
    if IsRowOf(created, last.outboundId, delivery) {
      assert all[|front|].outboundId == last.outboundId;
    }
  }

  lemma {:induction false} SendsAreCounted(w: Outbox, n: nat, delivery: string)
    requires n <= |w.sends| && forall i, j :: 0 <= i < j < |w.sends| ==> w.sends[i].outboundId != w.sends[j].outboundId
    ensures SendsOf(w, w.sends[..n], delivery) == |SentIds(w.sends[..n], w.created, delivery)|
  {
    hide IsRowOf;
    if n > 0 {
      SendsAreCounted(w, n - 1, delivery);
      var front, last := w.sends[..n - 1], w.sends[n - 1];
      assert w.sends[..n] == front + [last];
      assert last.outboundId !in SentIds(front, w.created, delivery);
      hide SentIds;
      SentIdsAppend(front, last, w.created, delivery);
    } else {
      assert SentIds(w.sends[..n], w.created, delivery) == {};
    }
  }

  lemma IdsOfAppend(front: seq<OutboundRow>, last: OutboundRow, delivery: string)
    ensures IdsOf(front + [last], delivery)
      == if last.delivery == delivery then IdsOf(front, delivery) + {last.id} else IdsOf(front, delivery)
  {
    var all := front + [last];
    assert forall n :: 0 <= n < |front| ==> all[n] == front[n];
    forall id | id in IdsOf(front, delivery) ensures id in IdsOf(all, delivery) {
      var n :| 0 <= n < |front| && front[n].delivery == delivery && front[n].id == id;
      assert all[n].id == id;
    }
    if last.delivery == delivery {
      assert all[|front|].id == last.id;
    }
  }

  lemma {:induction false} CreatedAreCounted(created: seq<OutboundRow>, delivery: string)
    requires CreatedOnce(created)
    ensures |IdsOf(created, delivery)| == CreatedFor(created, delivery)
  {
    if created != [] {
      var front, last := created[..|created| - 1], created[|created| - 1];
      CreatedAreCounted(front, delivery);
      assert last.id !in IdsOf(front, delivery);
      assert created == front + [last];
      hide IdsOf;
      IdsOfAppend(front, last, delivery);
    } else {
      assert IdsOf(created, delivery) == {};
    }
  }

  function CreatedFor(created: seq<OutboundRow>, delivery: string): nat {
    if created == [] then 0
    else CreatedFor(created[..|created| - 1], delivery) + (if created[|created| - 1].delivery == delivery then 1 else 0)
  }

  lemma SubsetIsSmaller(a: set<Id>, b: set<Id>)
    requires a <= b
    ensures |a| <= |b|
  {
    assert b == a + (b - a);
  }

  /** The adapter is called for a delivery no more often than rows were inserted for it,
      whatever was deleted in between. */
  lemma SendsAreBoundedByInserts(events: seq<OutboxEvent>, delivery: string)
    ensures var w := Run(EMPTY_OUTBOX, events);
      SendsOf(w, w.sends, delivery) <= CreatedFor(w.created, delivery)
  {
    hide Run, OutboundTable, IdsKnown, AllFit, RowsTell, RowsAreWon, OneWinner, SendsLogged;
    var w := Run(EMPTY_OUTBOX, events);
    ReachedKeeps(events);
    SendsAreDistinct(w);
    SendsAreCounted(w, |w.sends|, delivery);
    assert w.sends[..|w.sends|] == w.sends;
    CreatedAreCounted(w.created, delivery);
    SubsetIsSmaller(SentIds(w.sends, w.created, delivery), IdsOf(w.created, delivery));
  }

  /** While a delivery's row exists, it is the only row a call can be for: two existing
      rows never share a delivery, and no row is ever sent twice. */
  lemma AtMostOneSendWhileRowExists(events: seq<OutboxEvent>, i: nat, j: nat, n: nat, m: nat)
    requires var w := Run(EMPTY_OUTBOX, events);
      && i < |w.rows| && j < |w.rows| && n < m < |w.sends|
      && w.sends[n].outboundId == w.rows[i].id && w.sends[m].outboundId == w.rows[j].id
    ensures var w := Run(EMPTY_OUTBOX, events);
      w.rows[i].delivery != w.rows[j].delivery
  {
    hide Run, Inv, OutboundTable, SendsLogged, OneWinner;
    var w := Run(EMPTY_OUTBOX, events);
    ReachedKeeps(events);
    InvParts(w);
    SendsAreDistinct(w);
    TwoRowsTwoDeliveries(w.rows, i, j);
  }

  lemma TwoRowsTwoDeliveries(rows: seq<OutboundRow>, i: nat, j: nat)
    requires OutboundTable(rows) && i < |rows| && j < |rows| && rows[i].id != rows[j].id
    ensures rows[i].delivery != rows[j].delivery
  {
    hide OutboundRow.DatabaseChecks;
    if i < j {
      assert Compatible(rows[i], rows[j]);
    } else {
      assert Compatible(rows[j], rows[i]);
    }
  }

  // ----- what the table says about the call -----

  /** A call was made for the row, and it returned this. */
  ghost predicate CalledWith(w: Outbox, id: Id, receipt: Receipt) {
    exists n :: 0 <= n < |w.sends| && w.sends[n].outboundId == id && w.sends[n].receipt == receipt
  }

  /** A final row was called exactly once, and says what that call returned; a PENDING row was
      never called. */
  lemma StatusIsTheReceipt(w: Outbox, k: nat)
    requires Inv(w) && k < |w.rows|
    ensures w.rows[k].status.Pending? ==> forall n :: 0 <= n < |w.sends| ==> w.sends[n].outboundId != w.rows[k].id
    ensures !w.rows[k].status.Pending? && !w.rows[k].status.Sending? ==>
      && (exists receipt: Receipt :: CalledWith(w, w.rows[k].id, receipt))
      && forall n :: 0 <= n < |w.sends| && w.sends[n].outboundId == w.rows[k].id ==> Reports(w.rows[k], w.sends[n].receipt)
  {
    hide OutboundTable, IdsKnown, AllFit, OneWinner, Receipt.Valid, Reports;
    InvParts(w);
    if w.rows[k].status.Pending? {
      forall n | 0 <= n < |w.sends| ensures w.sends[n].outboundId != w.rows[k].id {
        assert SendIsOf(w, w.sends[n]) && RowTells(w.rows[k], w.holders[w.sends[n].holder]);
      }
    } else if !w.rows[k].status.Sending? {
      assert IsWon(w.holders, w.rows[k]);
      var h :| 0 <= h < |w.holders| && Wins(w.holders[h], w.rows[k]);
      assert RowTells(w.rows[k], w.holders[h]);
      assert Send(h, w.rows[k].id, w.holders[h].phase.receipt) in w.sends;
      assert CalledWith(w, w.rows[k].id, w.holders[h].phase.receipt);
      forall n | 0 <= n < |w.sends| && w.sends[n].outboundId == w.rows[k].id ensures Reports(w.rows[k], w.sends[n].receipt) {
        assert SendIsOf(w, w.sends[n]) && RowTells(w.rows[k], w.holders[w.sends[n].holder]);
      }
    }
  }

  /** What a reservation answers for a row that is there. */
  predicate AnswersFor(status: OutboundReservationStatus, row: OutboundRow) {
    match status
    case OutReserved => row.status.Pending?
    case OutProcessing => row.status.Sending?
    case OutSent => row.status.Sent?
    case OutFailed => row.status.Undelivered?
    case OutUnknown => row.status.Unknown?
    case _ => false
  }

  /** ... in terms of the call that was made for it. */
  predicate AnswersCall(status: OutboundReservationStatus, receipt: Receipt) {
    && (status.OutSent? <==> receipt.status.Delivered?)
    && (status.OutFailed? <==> receipt.status.Rejected?)
    && (status.OutUnknown? <==> receipt.status.Timeout? || receipt.status.Unavailable? || receipt.status.InvalidResponse?)
  }

  /** Reserving a delivery again answers for its row: resumed while nobody has won it, in
      progress while its winner has not recorded, and from then on what the one call returned,
      with its code. */
  lemma ReservingAgainReports(w: Outbox, bindings: seq<BindingRow>, exchanges: set<Id>, bindingId: Id, message: OutboundMessage, freshId: Id, k: nat)
    requires Inv(w) && k < |w.rows| && w.rows[k].delivery == message.delivery
    requires ActiveFor(bindings, bindingId, message.identity)
    requires w.rows[k].bindingId == bindingId && w.rows[k].exchangeId == message.exchangeId
    ensures var tx := ReserveOutbound(w.rows, bindings, exchanges, bindingId, message, freshId);
      && tx.rows == w.rows && tx.result.Ok?
      && tx.result.value.outboundId == w.rows[k].id && tx.result.value.errorCode == w.rows[k].errorCode
      && AnswersFor(tx.result.value.status, w.rows[k])
      && (!w.rows[k].status.Pending? && !w.rows[k].status.Sending? ==>
            forall n :: 0 <= n < |w.sends| && w.sends[n].outboundId == w.rows[k].id ==>
              AnswersCall(tx.result.value.status, w.sends[n].receipt)
              && tx.result.value.errorCode == w.sends[n].receipt.errorCode)
  {
    hide Inv, ActiveFor, PairTaken, OutboundReservation.Valid, OutboundRow.DatabaseChecks, Receipt.Valid;
    InvTable(w);
    DeliveryIsUnique(w.rows, k);
    assert IndexWhere(HasDelivery(message.delivery), w.rows) == k;
    OutboundIsChecked(w.rows, k);
    CheckedIsReservable(w.rows[k]);
    StatusIsTheReceipt(w, k);
  }

  lemma InvTable(w: Outbox)
    requires Inv(w)
    ensures OutboundTable(w.rows)
  {
    hide OutboundTable, IdsKnown, AllFit, OneWinner, RowsTell, RowsAreWon, SendsLogged, CreatedOnce;
    InvParts(w);
  }

  lemma DeliveryIsUnique(rows: seq<OutboundRow>, k: nat)
    requires OutboundTable(rows) && k < |rows|
    ensures IndexWhere(HasDelivery(rows[k].delivery), rows) == k
  {
    hide OutboundRow.DatabaseChecks;
    forall i | 0 <= i < k ensures rows[i].delivery != rows[k].delivery {
      assert Compatible(rows[i], rows[k]);
    }
    assert HasDelivery(rows[k].delivery)(rows[k]);
  }

  /** A reservation answers SENT only for a row whose one call returned SENT. */
  lemma AcknowledgedMeansSent(w: Outbox, bindings: seq<BindingRow>, exchanges: set<Id>, bindingId: Id, message: OutboundMessage, freshId: Id)
    requires Inv(w)
    requires var r := ReserveOutbound(w.rows, bindings, exchanges, bindingId, message, freshId).result;
      r.Ok? && r.value.status.OutSent?
    ensures var r := ReserveOutbound(w.rows, bindings, exchanges, bindingId, message, freshId).result;
      && (exists receipt: Receipt :: receipt.status.Delivered? && CalledWith(w, r.value.outboundId, receipt))
      && exists k :: 0 <= k < |w.rows| && w.rows[k].id == r.value.outboundId && w.rows[k].delivery == message.delivery && w.rows[k].status.Sent?
  {
    hide Inv, ActiveFor, PairTaken, OutboundReservation.Valid;
    var k := IndexWhere(HasDelivery(message.delivery), w.rows);
    StatusIsTheReceipt(w, k);
    var receipt: Receipt :| CalledWith(w, w.rows[k].id, receipt);
    var n :| 0 <= n < |w.sends| && w.sends[n].outboundId == w.rows[k].id && w.sends[n].receipt == receipt;
    assert Reports(w.rows[k], w.sends[n].receipt);
  }

  /** Recording succeeds exactly when the row still exists. Then the row says what the recorder's
      own call returned, and so does the answer; no other row changes. */
  lemma RecordingIsFaithful(w: Outbox, h: nat, now: Time)
    requires Inv(w) && h < |w.holders| && w.holders[h].phase.Called?
    ensures var r, receipt := w.holders[h].reservation, w.holders[h].phase.receipt;
      var tx := CompleteOutbound(w.rows, SendingToken(r), receipt, now);
      && (tx.result.Ok? <==> exists k :: 0 <= k < |w.rows| && w.rows[k].id == r.outboundId)
      && (tx.result.Ok? ==> AnswersCall(tx.result.value.status, receipt) && tx.result.value.errorCode == receipt.errorCode)
      && |tx.rows| == |w.rows|
      && forall k :: 0 <= k < |w.rows| ==>
           if w.rows[k].id == r.outboundId
           then Reports(tx.rows[k], receipt) && tx.rows[k].completedAt == Some(now) && SameOutbound(w.rows[k], tx.rows[k])
           else tx.rows[k] == w.rows[k]
  {
    hide Inv, OutboundTable, IdsKnown, OneWinner, RowsAreWon, SendsLogged, Receipt.Valid;
    hide OutboundRow.DatabaseChecks, OutboundReservation.Valid;
    InvParts(w);
    UniqueRowIds(w);
    var id := w.holders[h].reservation.outboundId;
    var k := IndexWhere(HasOutboundId(id), w.rows);
    forall i | 0 <= i < |w.rows| && w.rows[i].id == id ensures k < |w.rows| {
      assert HasOutboundId(id)(w.rows[i]);
    }
    ReceiptsAreValid(w, h);
    if k < |w.rows| {
      assert Fits(w.holders[h], w.rows[k]) && RowTells(w.rows[k], w.holders[h]);
      OutboundIsChecked(w.rows, k);
      CalledIsSending(w.rows[k], w.holders[h]);
      CompletionIsWritable(w.rows[k], w.holders[h].phase.receipt, now);
      ValidCodes(w.holders[h].phase.receipt);
    }
  }

  lemma CalledIsSending(row: OutboundRow, holder: Holder)
    requires row.DatabaseChecks() && RowTells(row, holder) && holder.phase.Called? && holder.reservation.outboundId == row.id
    ensures row.status.Sending? && row.attempts == 1
  {
  }

  lemma ReceiptsAreValid(w: Outbox, h: nat)
    requires SendsLogged(w) && h < |w.holders| && HasCalled(w.holders[h].phase)
    ensures w.holders[h].phase.receipt.Valid()
  {
    hide Receipt.Valid;
    var s := Send(h, w.holders[h].reservation.outboundId, w.holders[h].phase.receipt);
    assert s in w.sends;
    var n :| 0 <= n < |w.sends| && w.sends[n] == s;
    assert SendIsOf(w, w.sends[n]);
  }

  lemma {:induction false} AllSendsCount(w: Outbox, n: nat, delivery: string)
    requires n <= |w.sends| && |w.sends| == |w.created|
    requires forall k :: 0 <= k < |w.sends| ==> w.sends[k].outboundId == w.created[k].id && w.created[k].delivery == delivery
    ensures SendsOf(w, w.sends[..n], delivery) == n
  {
    if n > 0 {
      AllSendsCount(w, n - 1, delivery);
      assert w.sends[..n][..n - 1] == w.sends[..n - 1];
      assert w.created[n - 1].id == w.sends[n - 1].outboundId;
    }
  }

  // ----- a crash between winning and recording -----

  predicate SendingRow(w: Outbox, row: OutboundRow) {
    row in w.rows && row.status.Sending?
  }

  /** Events in which this row is not deleted and its winner never records. */
  predicate LeavesSending(w: Outbox, e: OutboxEvent, row: OutboundRow) {
    match e
    case Record(h, _) => h < |w.holders| ==> w.holders[h].reservation.outboundId != row.id
    case Delete(gone) => row.id !in gone
    case _ => true
  }

  ghost predicate AlwaysLeaves(w: Outbox, events: seq<OutboxEvent>, row: OutboundRow) {
    forall n :: 0 <= n < |events| ==> LeavesSending(Run(w, events[..n]), events[n], row)
  }

  lemma ReplaceKeepsOthers(rows: seq<OutboundRow>, k: nat, b: OutboundRow, row: OutboundRow)
    requires k < |rows| && row in rows && rows[k] != row
    ensures row in rows[k := b]
  {
    var i :| 0 <= i < |rows| && rows[i] == row;
    assert rows[k := b][i] == row;
  }

  lemma SendingStays(w: Outbox, e: OutboxEvent, row: OutboundRow)
    requires Inv(w) && SendingRow(w, row) && LeavesSending(w, e, row)
    ensures SendingRow(Step(w, e), row)
  {
    hide Inv, ActiveFor, PairTaken, BindingSends, OutboundReservation.Valid, OutboundRow.DatabaseChecks;
    hide Receipt.Valid, ValidHmac, CompleteOutbound, MarkSending;
    var v := Step(w, e);
    if Enabled(w, e) {
      match e
      case Reserve(_, _, _, _, _) =>
      case Mark(h, now) => MarkTouchesPending(w.rows, w.holders[h].reservation, now, row);
      case CallAdapter(_, _) =>
      case Record(h, now) => CompleteTouchesItsRow(w.rows, SendingToken(w.holders[h].reservation), w.holders[h].phase.receipt, now, row);
      case Delete(gone) => WithoutOutboundMembers(w.rows, gone);
    }
  }

  lemma MarkTouchesPending(rows: seq<OutboundRow>, reservation: OutboundReservation, now: Time, row: OutboundRow)
    requires row in rows && row.status.Sending?
    ensures row in MarkSending(rows, reservation, now).rows
  {
    hide BindingSends, OutboundReservation.Valid;
    var k := IndexWhere(HasOutboundId(reservation.outboundId), rows);
    if k < |rows| && rows[k].status.Pending? {
      ReplaceKeepsOthers(rows, k, MarkedSending(rows[k], now), row);
    }
  }

  lemma CompleteTouchesItsRow(rows: seq<OutboundRow>, reservation: OutboundReservation, receipt: Receipt, now: Time, row: OutboundRow)
    requires row in rows && row.id != reservation.outboundId
    ensures row in CompleteOutbound(rows, reservation, receipt, now).rows
  {
    hide OutboundReservation.Valid, OutboundRow.DatabaseChecks;
    var k := IndexWhere(HasOutboundId(reservation.outboundId), rows);
    if k < |rows| {
      ReplaceKeepsOthers(rows, k, CompletedOutbound(rows[k], receipt, now), row);
    }
  }

  /** While one row of a binding is SENDING, marking any other row of that binding fails. */
  lemma SendingBlocks(w: Outbox, row: OutboundRow, reservation: OutboundReservation, now: Time)
    requires Inv(w) && SendingRow(w, row) && reservation.bindingId == row.bindingId
    ensures var r := MarkSending(w.rows, reservation, now).result;
      r.Ok? ==> !r.value.status.OutSending?
  {
    hide Inv, OutboundReservation.Valid;
    var i :| 0 <= i < |w.rows| && w.rows[i] == row;
    assert BindingSends(w.rows, row.bindingId);
  }

  /** A handler that stops between winning a row and recording its receipt blocks the
      binding: until the row is deleted no other message of that identity is ever sent. */
  lemma {:induction false} CrashBlocksBinding(w: Outbox, events: seq<OutboxEvent>, row: OutboundRow, reservation: OutboundReservation, now: Time)
    requires Inv(w) && SendingRow(w, row) && AlwaysLeaves(w, events, row) && reservation.bindingId == row.bindingId
    ensures var v := Run(w, events);
      var r := MarkSending(v.rows, reservation, now).result;
      SendingRow(v, row) && (r.Ok? ==> !r.value.status.OutSending?)
  {
    hide Inv, Step, LeavesSending, MarkSending;
    if events == [] {
      SendingBlocks(w, row, reservation, now);
    } else {
      var early := events[..|events| - 1];
      assert forall n :: 0 <= n < |early| ==> early[..n] == events[..n] && early[n] == events[n];
      RunKeeps(w, early);
      CrashBlocksBinding(w, early, row, reservation, now);
      assert LeavesSending(Run(w, events[..|events| - 1]), events[|events| - 1], row);
      SendingStays(Run(w, early), events[|events| - 1], row);
      StepKeeps(Run(w, early), events[|events| - 1]);
      SendingBlocks(Run(w, events), row, reservation, now);
    }
  }
}
