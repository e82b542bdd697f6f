/** The single permitted outbound attempt: `PostgresChannelOutboundRepository` of
    src/legal_chatbot/channels/repository.py over the table and constraints of
    src/legal_chatbot/channels/orm.py. */
module ChannelOutbox {
  import opened Wrappers
  import opened Sequences
  import opened ChatModels
  import opened ChannelBinding

  datatype OutboundStatus = Pending | Sending | Sent | Undelivered | Unknown | Abandoned

  /** A row of channel_outbound_deliveries. UNDELIVERED stands for the source's FAILED. */
  datatype OutboundRow = OutboundRow(
    id: Id,
    bindingId: Id,
    exchangeId: Id,
    delivery: string,
    status: OutboundStatus,
    errorCode: Option<string>,
    attempts: nat,
    sendingAt: Option<Time>,
    completedAt: Option<Time>)
  {
    /** ck_channel_outbound_deliveries_status_shape and the column checks */
    predicate DatabaseChecks() {
      && ValidHmac(delivery) && attempts <= 1
      && (errorCode.Some? ==> ValidSafeErrorCode(errorCode.value))
      && match status
         case Pending => attempts == 0 && sendingAt.None? && completedAt.None? && errorCode.None?
         case Sending => attempts == 1 && sendingAt.Some? && completedAt.None? && errorCode.None?
         case Sent => attempts == 1 && sendingAt.Some? && completedAt.Some? && errorCode.None?
         case Abandoned => completedAt.Some? && errorCode.Some? && (attempts == 1 <==> sendingAt.Some?)
         case _ => attempts == 1 && sendingAt.Some? && completedAt.Some? && errorCode.Some?
    }
  }

  datatype ReceiptStatus = Delivered | Rejected | Timeout | Unavailable | InvalidResponse

  /** What a channel adapter reports; DELIVERED stands for the source's SENT. */
  datatype Receipt = Receipt(status: ReceiptStatus, errorCode: Option<string>)
  {
    predicate Valid() {
      && (status.Delivered? <==> errorCode.None?)
      && (errorCode.Some? ==> ValidSafeErrorCode(errorCode.value))
    }
  }

  datatype OutboundReservationStatus =
    | OutReserved | OutSending | OutProcessing | OutSent | OutFailed | OutUnknown | OutAbandoned

  datatype OutboundReservation = OutboundReservation(
    outboundId: Id,
    bindingId: Id,
    exchangeId: Id,
    status: OutboundReservationStatus,
    attempts: nat,
    errorCode: Option<string>)
  {
    predicate Valid() {
      && (errorCode.Some? ==> ValidSafeErrorCode(errorCode.value))
      && match status
         case OutReserved => attempts == 0 && errorCode.None?
         case OutSending => attempts == 1 && errorCode.None?
         case OutProcessing => attempts == 1 && errorCode.None?
         case OutSent => attempts == 1 && errorCode.None?
         case _ => attempts == 1 && errorCode.Some?
    }
  }

  datatype OutboundMessage = OutboundMessage(identity: string, delivery: string, exchangeId: Id, text: string, citationCount: nat)

  function MappedStatus(status: OutboundStatus): OutboundReservationStatus {
    match status
    case Pending => OutReserved
    case Sending => OutProcessing
    case Sent => OutSent
    case Undelivered => OutFailed
    case Unknown => OutUnknown
    case Abandoned => OutAbandoned
  }

  /** _outbound_reservation */
  function OutboundOf(row: OutboundRow): Result<OutboundReservation, ChannelError> {
    var r := OutboundReservation(row.id, row.bindingId, row.exchangeId, MappedStatus(row.status), row.attempts, row.errorCode);
    if r.Valid() then Ok(r) else Err(PersistenceFailure)
  }

  function HasDelivery(delivery: string): OutboundRow -> bool {
    (r: OutboundRow) => r.delivery == delivery
  }

  function HasOutboundId(id: Id): OutboundRow -> bool {
    (r: OutboundRow) => r.id == id
  }

  predicate ActiveFor(bindings: seq<BindingRow>, bindingId: Id, identity: string) {
    var k := IndexWhere(HasBindingId(bindingId), bindings);
    k < |bindings| && bindings[k].status.Active? && bindings[k].identity == identity
  }

  /** uq_channel_outbound_deliveries_channel_binding_exchange, for a row to insert */
  predicate PairTaken(rows: seq<OutboundRow>, bindingId: Id, exchangeId: Id) {
    exists i :: 0 <= i < |rows| && rows[i].bindingId == bindingId && rows[i].exchangeId == exchangeId
  }

  /** uq_channel_outbound_deliveries_sending_binding, for a row about to be SENDING */
  predicate BindingSends(rows: seq<OutboundRow>, bindingId: Id) {
    exists i :: 0 <= i < |rows| && rows[i].bindingId == bindingId && rows[i].status.Sending?
  }

  datatype OutboundTx = OutboundTx(rows: seq<OutboundRow>, result: Result<OutboundReservation, ChannelError>)

  function NewOutbound(id: Id, bindingId: Id, message: OutboundMessage): OutboundRow {
    OutboundRow(id, bindingId, message.exchangeId, message.delivery, Pending, None, 0, None, None)
  }

  /** `exchanges` holds the ids of the exchanges the foreign key finds. A taken pair raises
      the unique violation whose retry finds no row for the delivery. */
  function ReserveOutbound(rows: seq<OutboundRow>, bindings: seq<BindingRow>, exchanges: set<Id>,
                           bindingId: Id, message: OutboundMessage, freshId: Id): OutboundTx
  {
    var k := IndexWhere(HasDelivery(message.delivery), rows);
    if !ActiveFor(bindings, bindingId, message.identity) then OutboundTx(rows, Err(OutboundStateInvalid))
    else if k < |rows| then
      if rows[k].bindingId != bindingId || rows[k].exchangeId != message.exchangeId
      then OutboundTx(rows, Err(OutboundStateInvalid))
      else OutboundTx(rows, OutboundOf(rows[k]))
    else if PairTaken(rows, bindingId, message.exchangeId) || message.exchangeId !in exchanges
    then OutboundTx(rows, Err(PersistenceFailure))
    else
      var row := NewOutbound(freshId, bindingId, message);
      OutboundTx(rows + [row], OutboundOf(row))
  }

  predicate Locks(reservation: OutboundReservation, row: OutboundRow) {
    row.bindingId == reservation.bindingId && row.exchangeId == reservation.exchangeId
  }

  function MarkedSending(row: OutboundRow, now: Time): OutboundRow {
    row.(status := Sending, attempts := 1, sendingAt := Some(now))
  }

  function MarkSending(rows: seq<OutboundRow>, reservation: OutboundReservation, now: Time): OutboundTx {
    var k := IndexWhere(HasOutboundId(reservation.outboundId), rows);
    if !reservation.status.OutReserved? then OutboundTx(rows, Err(OutboundStateInvalid))
    else if k == |rows| || !Locks(reservation, rows[k]) then OutboundTx(rows, Err(OutboundStateInvalid))
    else if rows[k].status.Pending? && rows[k].attempts == 0 then
      if BindingSends(rows, rows[k].bindingId) then OutboundTx(rows, Err(PersistenceFailure))
      else OutboundTx(rows[k := MarkedSending(rows[k], now)],
             Ok(OutboundReservation(reservation.outboundId, reservation.bindingId, reservation.exchangeId, OutSending, 1, None)))
    else OutboundTx(rows, OutboundOf(rows[k]))
  }

  /** _completion_state */
  function CompletionStatus(receipt: Receipt): OutboundStatus {
    match receipt.status
    case Delivered => Sent
    case Rejected => Undelivered
    case _ => Unknown
  }

  function CompletedOutbound(row: OutboundRow, receipt: Receipt, now: Time): OutboundRow {
    row.(status := CompletionStatus(receipt),
         errorCode := if receipt.status.Delivered? then None else receipt.errorCode,
         completedAt := Some(now))
  }

  predicate IsFinal(status: OutboundStatus) {
    !status.Pending? && !status.Sending?
  }

  function CompleteOutbound(rows: seq<OutboundRow>, reservation: OutboundReservation, receipt: Receipt, now: Time): OutboundTx {
    var k := IndexWhere(HasOutboundId(reservation.outboundId), rows);
    if !reservation.status.OutSending? then OutboundTx(rows, Err(OutboundStateInvalid))
    else if k == |rows| || !Locks(reservation, rows[k]) then OutboundTx(rows, Err(OutboundStateInvalid))
    else if IsFinal(rows[k].status) then OutboundTx(rows, OutboundOf(rows[k]))
    else if !rows[k].status.Sending? || rows[k].attempts != 1 then OutboundTx(rows, Err(OutboundStateInvalid))
    else
      var row := CompletedOutbound(rows[k], receipt, now);
      if !row.DatabaseChecks() || OutboundOf(row).Err? then OutboundTx(rows, Err(PersistenceFailure))
      else OutboundTx(rows[k := row], OutboundOf(row))
  }

  /** ON DELETE CASCADE from bindings and from exchanges. */
  function WithoutOutbound(rows: seq<OutboundRow>, gone: set<Id>): seq<OutboundRow> {
    if rows == [] then []
    else
      var rest := WithoutOutbound(rows[..|rows| - 1], gone);
      var r := rows[|rows| - 1];
      if r.id in gone then rest else rest + [r]
  }

  lemma {:induction false} WithoutOutboundMembers(rows: seq<OutboundRow>, gone: set<Id>)
    ensures forall r :: r in WithoutOutbound(rows, gone) <==> r in rows && r.id !in gone
  {
    if rows != [] {
      WithoutOutboundMembers(rows[..|rows| - 1], gone);
      assert rows == rows[..|rows| - 1] + [rows[|rows| - 1]];
    }
  }

  // ----- the database invariants -----

  /** Primary key, unique delivery, unique pair, and at most one SENDING row per binding. */
  predicate Compatible(a: OutboundRow, b: OutboundRow) {
    && a.id != b.id && a.delivery != b.delivery
    && !(a.bindingId == b.bindingId && a.exchangeId == b.exchangeId)
    && !(a.bindingId == b.bindingId && a.status.Sending? && b.status.Sending?)
  }

  /** ABANDONED is a state the column admits and no transaction writes. */
  ghost predicate OutboundTable(rows: seq<OutboundRow>) {
    && (forall i :: 0 <= i < |rows| ==> rows[i].DatabaseChecks() && !rows[i].status.Abandoned?)
    && forall i, j :: 0 <= i < j < |rows| ==> Compatible(rows[i], rows[j])
  }

  lemma AppendKeepsOutbound(rows: seq<OutboundRow>, row: OutboundRow)
    requires OutboundTable(rows) && row.DatabaseChecks() && row.status.Pending?
    requires forall i :: 0 <= i < |rows| ==> rows[i].id != row.id && rows[i].delivery != row.delivery
    requires !PairTaken(rows, row.bindingId, row.exchangeId)
    ensures OutboundTable(rows + [row])
  {
    hide OutboundRow.DatabaseChecks;
  }

  lemma ReplaceKeepsOutbound(rows: seq<OutboundRow>, k: nat, row: OutboundRow)
    requires OutboundTable(rows) && k < |rows| && row.DatabaseChecks() && !row.status.Abandoned?
    requires row.id == rows[k].id && row.delivery == rows[k].delivery
    requires row.bindingId == rows[k].bindingId && row.exchangeId == rows[k].exchangeId
    requires row.status.Sending? ==> !BindingSends(rows, row.bindingId)
    ensures OutboundTable(rows[k := row])
  {
    hide OutboundRow.DatabaseChecks;
  }

  lemma {:induction false} CascadeKeepsOutbound(rows: seq<OutboundRow>, gone: set<Id>)
    requires OutboundTable(rows)
    ensures OutboundTable(WithoutOutbound(rows, gone))
  {
    hide OutboundRow.DatabaseChecks, Compatible;
    if rows != [] {
      var front, last := rows[..|rows| - 1], rows[|rows| - 1];
      CascadeKeepsOutbound(front, gone);
      WithoutOutboundMembers(front, gone);
      var kept := WithoutOutbound(front, gone);
      forall i | 0 <= i < |kept| ensures Compatible(kept[i], last) {
        assert kept[i] in front;
      }
    }
  }

  lemma OutboundIsChecked(rows: seq<OutboundRow>, k: nat)
    requires OutboundTable(rows) && k < |rows|
    ensures rows[k].DatabaseChecks() && !rows[k].status.Abandoned?
    ensures forall i :: 0 <= i < |rows| && i != k ==> rows[i].id != rows[k].id
  {
    hide OutboundRow.DatabaseChecks;
    assert forall i :: 0 <= i < k ==> Compatible(rows[i], rows[k]);
    assert forall i :: k < i < |rows| ==> Compatible(rows[k], rows[i]);
  }

  lemma CheckedIsReservable(row: OutboundRow)
    requires row.DatabaseChecks() && !row.status.Abandoned?
    ensures OutboundOf(row).Ok?
  {
    hide ValidSafeErrorCode, ValidHmac;
  }

  lemma ReserveKeepsOutbound(rows: seq<OutboundRow>, bindings: seq<BindingRow>, exchanges: set<Id>,
                             bindingId: Id, message: OutboundMessage, freshId: Id)
    requires OutboundTable(rows) && ValidHmac(message.delivery) && forall i :: 0 <= i < |rows| ==> rows[i].id != freshId
    ensures OutboundTable(ReserveOutbound(rows, bindings, exchanges, bindingId, message, freshId).rows)
  {
    hide OutboundTable, ValidHmac, ValidSafeErrorCode, ActiveFor, PairTaken;
    var k := IndexWhere(HasDelivery(message.delivery), rows);
    if k == |rows| && !PairTaken(rows, bindingId, message.exchangeId) {
      AppendKeepsOutbound(rows, NewOutbound(freshId, bindingId, message));
    }
  }

  lemma MarkKeepsOutbound(rows: seq<OutboundRow>, reservation: OutboundReservation, now: Time)
    requires OutboundTable(rows)
    ensures OutboundTable(MarkSending(rows, reservation, now).rows)
  {
    hide OutboundTable, ValidHmac, ValidSafeErrorCode, BindingSends;
    var k := IndexWhere(HasOutboundId(reservation.outboundId), rows);
    if k < |rows| && rows[k].status.Pending? && !BindingSends(rows, rows[k].bindingId) {
      OutboundIsChecked(rows, k);
      ReplaceKeepsOutbound(rows, k, MarkedSending(rows[k], now));
    }
  }

  lemma CompleteKeepsOutbound(rows: seq<OutboundRow>, reservation: OutboundReservation, receipt: Receipt, now: Time)
    requires OutboundTable(rows)
    ensures OutboundTable(CompleteOutbound(rows, reservation, receipt, now).rows)
  {
    hide OutboundTable, OutboundRow.DatabaseChecks, OutboundOf;
    var k := IndexWhere(HasOutboundId(reservation.outboundId), rows);
    var tx := CompleteOutbound(rows, reservation, receipt, now);
    if tx.rows != rows {
      ReplaceKeepsOutbound(rows, k, CompletedOutbound(rows[k], receipt, now));
    }
  }

  /** Completing a SENDING row with a valid receipt always succeeds. */
  lemma CompletionIsWritable(row: OutboundRow, receipt: Receipt, now: Time)
    requires row.DatabaseChecks() && row.status.Sending? && receipt.Valid()
    ensures CompletedOutbound(row, receipt, now).DatabaseChecks() && OutboundOf(CompletedOutbound(row, receipt, now)).Ok?
  {
    hide ValidSafeErrorCode, ValidHmac;
  }

  // ----- the repository -----

  class OutboundRepository {
    var deliveries: seq<OutboundRow>

    constructor ()
      ensures deliveries == []
    {
      deliveries := [];
    }

    method Reserve(bindings: seq<BindingRow>, exchanges: set<Id>, bindingId: Id, message: OutboundMessage, freshId: Id)
      returns (result: Result<OutboundReservation, ChannelError>)
      modifies this
      ensures OutboundTx(deliveries, result)
        == ReserveOutbound(old(deliveries), bindings, exchanges, bindingId, message, freshId)
    {
      hide OutboundReservation.Valid;
      if !ActiveFor(bindings, bindingId, message.identity) {
        return Err(OutboundStateInvalid);
      }
      var k := IndexWhere(HasDelivery(message.delivery), deliveries);
      if k < |deliveries| {
        var delivery := deliveries[k];
        if delivery.bindingId != bindingId || delivery.exchangeId != message.exchangeId {
          return Err(OutboundStateInvalid);
        }
        return OutboundOf(delivery);
      }
      if PairTaken(deliveries, bindingId, message.exchangeId) || message.exchangeId !in exchanges {
        return Err(PersistenceFailure);
      }
      var delivery := OutboundRow(freshId, bindingId, message.exchangeId, message.delivery, Pending, None, 0, None, None);
      deliveries := deliveries + [delivery];
      return OutboundOf(delivery);
    }

    method MarkSendingOnce(reservation: OutboundReservation, now: Time) returns (result: Result<OutboundReservation, ChannelError>)
      modifies this
      ensures OutboundTx(deliveries, result) == MarkSending(old(deliveries), reservation, now)
    {
      hide OutboundReservation.Valid;
      if !reservation.status.OutReserved? {
        return Err(OutboundStateInvalid);
      }
      var k := IndexWhere(HasOutboundId(reservation.outboundId), deliveries);
      if k == |deliveries| || deliveries[k].bindingId != reservation.bindingId || deliveries[k].exchangeId != reservation.exchangeId {
        return Err(OutboundStateInvalid);
      }
      if deliveries[k].status.Pending? && deliveries[k].attempts == 0 {
        if BindingSends(deliveries, deliveries[k].bindingId) {
          return Err(PersistenceFailure);
        }
        deliveries := deliveries[k := deliveries[k].(status := Sending, attempts := 1, sendingAt := Some(now))];
        return Ok(OutboundReservation(reservation.outboundId, reservation.bindingId, reservation.exchangeId, OutSending, 1, None));
      }
      return OutboundOf(deliveries[k]);
    }

    method Complete(reservation: OutboundReservation, receipt: Receipt, now: Time) returns (result: Result<OutboundReservation, ChannelError>)
      modifies this
      ensures OutboundTx(deliveries, result) == CompleteOutbound(old(deliveries), reservation, receipt, now)
    {
      hide OutboundReservation.Valid, OutboundRow.DatabaseChecks;
      if !reservation.status.OutSending? {
        return Err(OutboundStateInvalid);
      }
      var k := IndexWhere(HasOutboundId(reservation.outboundId), deliveries);
      if k == |deliveries| || deliveries[k].bindingId != reservation.bindingId || deliveries[k].exchangeId != reservation.exchangeId {
        return Err(OutboundStateInvalid);
      }
      var delivery := deliveries[k];
      if IsFinal(delivery.status) {
        return OutboundOf(delivery);
      }
      if !delivery.status.Sending? || delivery.attempts != 1 {
        return Err(OutboundStateInvalid);
      }
      delivery := delivery.(status := CompletionStatus(receipt));
      delivery := delivery.(errorCode := if receipt.status.Delivered? then None else receipt.errorCode);
      delivery := delivery.(completedAt := Some(now));
      result := OutboundOf(delivery);
      if !delivery.DatabaseChecks() || result.Err? {
        return Err(PersistenceFailure);
      }
      deliveries := deliveries[k := delivery];
    }
  }
}
