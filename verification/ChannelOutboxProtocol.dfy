/** Outbound attempts under any number of handlers that may stop between any two steps.

    A handler whose reserve() returned RESERVED becomes a holder: it may win the step to
    SENDING, then call the channel adapter, then record the receipt. A crash is the absence
    of a holder's next step. Rows disappear when their exchange or binding is deleted. */
module ChannelOutboxProtocol {
  import opened Wrappers
  import opened Sequences
  import opened ChatModels
  import opened ChannelBinding
  import opened ChannelOutbox

  /** How far a holder has come. */
  datatype Phase = Holding | Owner | Called(receipt: Receipt) | Recorded(receipt: Receipt) | Lost

  datatype Holder = Holder(reservation: OutboundReservation, phase: Phase)

  /** One call of the channel adapter: by whom, for which row, and what it returned. */
  datatype Send = Send(holder: nat, outboundId: Id, receipt: Receipt)

  /** The table, every row ever inserted, every id ever drawn, every holder, every send. */
  datatype Outbox = Outbox(
    rows: seq<OutboundRow>,
    created: seq<OutboundRow>,
    issued: set<Id>,
    holders: seq<Holder>,
    sends: seq<Send>)

  /** A reservation reads the bindings and exchanges that exist at that moment. */
  datatype OutboxEvent =
    | Reserve(bindings: seq<BindingRow>, exchanges: set<Id>, bindingId: Id, message: OutboundMessage, freshId: Id)
    | Mark(holder: nat, now: Time)
    | CallAdapter(holder: nat, receipt: Receipt)
    | Record(holder: nat, now: Time)
    | Delete(gone: set<Id>)

  const EMPTY_OUTBOX := Outbox([], [], {}, [], [])

  predicate Enabled(w: Outbox, e: OutboxEvent) {
    match e
    case Reserve(_, _, _, message, freshId) => freshId !in w.issued && ValidHmac(message.delivery)
    case Mark(h, _) => h < |w.holders| && w.holders[h].phase.Holding?
    case CallAdapter(h, receipt) => h < |w.holders| && w.holders[h].phase.Owner? && receipt.Valid()
    case Record(h, _) => h < |w.holders| && w.holders[h].phase.Called?
    case Delete(_) => true
  }

  function ReserveStep(w: Outbox, bindings: seq<BindingRow>, exchanges: set<Id>, bindingId: Id, message: OutboundMessage, freshId: Id): Outbox {
    var tx := ReserveOutbound(w.rows, bindings, exchanges, bindingId, message, freshId);
    w.(rows := tx.rows, issued := w.issued + {freshId},
       created := w.created + tx.rows[if |tx.rows| > |w.rows| then |w.rows| else |tx.rows|..],
       holders := w.holders + (if tx.result.Ok? && tx.result.value.status.OutReserved? then [Holder(tx.result.value, Holding)] else []))
  }

  function MarkStep(w: Outbox, h: nat, now: Time): Outbox
    requires h < |w.holders|
  {
    var tx := MarkSending(w.rows, w.holders[h].reservation, now);
    var won := tx.result.Ok? && tx.result.value.status.OutSending?;
    w.(rows := tx.rows, holders := w.holders[h := w.holders[h].(phase := if won then Owner else Lost)])
  }

  function CallStep(w: Outbox, h: nat, receipt: Receipt): Outbox
    requires h < |w.holders|
  {
    w.(holders := w.holders[h := w.holders[h].(phase := Called(receipt))],
       sends := w.sends + [Send(h, w.holders[h].reservation.outboundId, receipt)])
  }

  /** The reservation mark_sending() hands to its winner. */
  function SendingToken(r: OutboundReservation): OutboundReservation {
    OutboundReservation(r.outboundId, r.bindingId, r.exchangeId, OutSending, 1, None)
  }

  function RecordStep(w: Outbox, h: nat, now: Time): Outbox
    requires h < |w.holders| && w.holders[h].phase.Called?
  {
    var receipt := w.holders[h].phase.receipt;
    var tx := CompleteOutbound(w.rows, SendingToken(w.holders[h].reservation), receipt, now);
    w.(rows := tx.rows, holders := w.holders[h := w.holders[h].(phase := Recorded(receipt))])
  }

  function Step(w: Outbox, e: OutboxEvent): Outbox {
    if !Enabled(w, e) then w
    else match e
      case Reserve(bindings, exchanges, bindingId, message, freshId) => ReserveStep(w, bindings, exchanges, bindingId, message, freshId)
      case Mark(h, now) => MarkStep(w, h, now)
      case CallAdapter(h, receipt) => CallStep(w, h, receipt)
      case Record(h, now) => RecordStep(w, h, now)
      case Delete(gone) => w.(rows := WithoutOutbound(w.rows, gone))
  }

  function Run(w: Outbox, events: seq<OutboxEvent>): Outbox {
    if events == [] then w else Step(Run(w, events[..|events| - 1]), events[|events| - 1])
  }

  // ----- the invariant -----

  predicate Won(phase: Phase) {
    phase.Owner? || phase.Called? || phase.Recorded?
  }

  /** The identity of a row, which no transaction changes. */
  predicate SameOutbound(a: OutboundRow, b: OutboundRow) {
    a.id == b.id && a.bindingId == b.bindingId && a.exchangeId == b.exchangeId && a.delivery == b.delivery
  }

  predicate WasCreated(created: seq<OutboundRow>, row: OutboundRow) {
    exists n :: 0 <= n < |created| && SameOutbound(created[n], row)
  }

  predicate IdCreated(created: seq<OutboundRow>, id: Id) {
    exists n :: 0 <= n < |created| && created[n].id == id
  }

  predicate IdsKnown(w: Outbox) {
    && (forall k :: 0 <= k < |w.rows| ==> w.rows[k].id in w.issued && WasCreated(w.created, w.rows[k]))
    && (forall h :: 0 <= h < |w.holders| ==> IdCreated(w.created, w.holders[h].reservation.outboundId))
    && (forall n :: 0 <= n < |w.created| ==> w.created[n].id in w.issued)
  }

  /** A holder's reservation names its row, and its row is of one binding and exchange. */
  predicate Fits(holder: Holder, row: OutboundRow) {
    holder.reservation.outboundId == row.id ==> Locks(holder.reservation, row)
  }

  predicate AllFit(w: Outbox) {
    && (forall h :: 0 <= h < |w.holders| ==> w.holders[h].reservation.status.OutReserved?)
    && forall h, k :: 0 <= h < |w.holders| && 0 <= k < |w.rows| ==> Fits(w.holders[h], w.rows[k])
  }

  /** Only one holder ever wins a row. */
  predicate OneWinner(w: Outbox) {
    forall g, h :: 0 <= g < h < |w.holders| && Won(w.holders[g].phase) && Won(w.holders[h].phase) ==>
      w.holders[g].reservation.outboundId != w.holders[h].reservation.outboundId
  }

  /** The row says what the call returned: SENT for SENT, FAILED for a rejection, and UNKNOWN for
      everything that leaves open whether the message arrived; with the receipt's own code. */
  predicate Reports(row: OutboundRow, receipt: Receipt) {
    && (row.status.Sent? <==> receipt.status.Delivered?)
    && (row.status.Undelivered? <==> receipt.status.Rejected?)
    && (row.status.Unknown? <==> receipt.status.Timeout? || receipt.status.Unavailable? || receipt.status.InvalidResponse?)
    && row.errorCode == receipt.errorCode
  }

  /** Nobody has won a PENDING row; the winner of a SENDING row has not recorded; a final
      row was written by its winner from the receipt it got. */
  predicate RowTells(row: OutboundRow, holder: Holder) {
    holder.reservation.outboundId == row.id && Won(holder.phase) ==>
      match row.status
      case Pending => false
      case Sending => !holder.phase.Recorded?
      case _ => holder.phase.Recorded? && Reports(row, holder.phase.receipt)
  }

  predicate RowsTell(w: Outbox) {
    forall k, h :: 0 <= k < |w.rows| && 0 <= h < |w.holders| ==> RowTells(w.rows[k], w.holders[h])
  }

  predicate Wins(holder: Holder, row: OutboundRow) {
    holder.reservation.outboundId == row.id && Won(holder.phase)
  }

  predicate IsWon(holders: seq<Holder>, row: OutboundRow) {
    exists h :: 0 <= h < |holders| && Wins(holders[h], row)
  }

  predicate RowsAreWon(w: Outbox) {
    forall k :: 0 <= k < |w.rows| && !w.rows[k].status.Pending? ==> IsWon(w.holders, w.rows[k])
  }

  /** The log has exactly one send for every holder that called the adapter. */
  predicate SendsLogged(w: Outbox) {
    && (forall n :: 0 <= n < |w.sends| ==> SendIsOf(w, w.sends[n]))
    && (forall n, m :: 0 <= n < m < |w.sends| ==> w.sends[n].holder != w.sends[m].holder)
    && (forall h :: 0 <= h < |w.holders| && HasCalled(w.holders[h].phase) ==>
          Send(h, w.holders[h].reservation.outboundId, w.holders[h].phase.receipt) in w.sends)
  }

  predicate HasCalled(phase: Phase) {
    phase.Called? || phase.Recorded?
  }

  predicate SendIsOf(w: Outbox, s: Send) {
    && s.holder < |w.holders| && HasCalled(w.holders[s.holder].phase)
    && w.holders[s.holder].phase.receipt == s.receipt && w.holders[s.holder].reservation.outboundId == s.outboundId
    && s.receipt.Valid()
  }

  /** Every row ever inserted had its own id. */
  predicate CreatedOnce(created: seq<OutboundRow>) {
    forall n, m :: 0 <= n < m < |created| ==> created[n].id != created[m].id
  }

  ghost predicate Inv(w: Outbox) {
    && OutboundTable(w.rows) && IdsKnown(w) && AllFit(w) && OneWinner(w) && RowsTell(w) && RowsAreWon(w)
    && SendsLogged(w) && CreatedOnce(w.created)
  }

  lemma InvParts(w: Outbox)
    requires Inv(w)
    ensures OutboundTable(w.rows) && IdsKnown(w) && AllFit(w) && OneWinner(w) && RowsTell(w) && RowsAreWon(w)
    ensures SendsLogged(w) && CreatedOnce(w.created)
  {
    hide OutboundTable, IdsKnown, AllFit, OneWinner, RowsTell, RowsAreWon, SendsLogged, CreatedOnce;
  }

  lemma EmptyInv()
    ensures Inv(EMPTY_OUTBOX)
  {
  }

  // ----- reserving -----

  lemma MoreIssued(w: Outbox, v: Outbox)
    requires Inv(w) && v == w.(issued := v.issued) && w.issued <= v.issued
    ensures Inv(v)
  {
    hide OutboundTable, RowTells, Fits, IsWon, CreatedOnce, WasCreated;
    InvParts(w);
    assert forall s: Send :: SendIsOf(v, s) == SendIsOf(w, s);
  }

  /** A holder of an existing PENDING row. */
  lemma JoinKeeps(w: Outbox, v: Outbox, k: nat)
    requires Inv(w) && k < |w.rows| && OutboundOf(w.rows[k]).Ok? && OutboundOf(w.rows[k]).value.status.OutReserved?
    requires w.issued <= v.issued
    requires v == w.(issued := v.issued, holders := w.holders + [Holder(OutboundOf(w.rows[k]).value, Holding)])
    ensures Inv(v)
  {
    hide OutboundTable, CreatedOnce, OutboundReservation.Valid;
    InvParts(w);
    assert WasCreated(w.created, w.rows[k]);
    var n :| 0 <= n < |w.created| && SameOutbound(w.created[n], w.rows[k]);
    assert IdCreated(w.created, w.rows[k].id);
    hide WasCreated, IdCreated;
    JoinKeepsSends(w, v, v.holders[|w.holders|]);
    UniqueRowIds(w);
    JoinKeepsWins(w, v, v.holders[|w.holders|]);
  }

  lemma JoinKeepsSends(w: Outbox, v: Outbox, holder: Holder)
    requires SendsLogged(w) && v.holders == w.holders + [holder] && v.sends == w.sends && holder.phase.Holding?
    ensures SendsLogged(v)
  {
    hide Receipt.Valid;
    forall n | 0 <= n < |v.sends| ensures SendIsOf(v, v.sends[n]) {
      assert SendIsOf(w, w.sends[n]);
    }
  }

  lemma JoinKeepsWins(w: Outbox, v: Outbox, holder: Holder)
    requires RowsAreWon(w) && v.holders == w.holders + [holder] && v.rows == w.rows
    ensures RowsAreWon(v)
  {
    forall k | 0 <= k < |v.rows| && !v.rows[k].status.Pending? ensures IsWon(v.holders, v.rows[k]) {
      assert IsWon(w.holders, w.rows[k]);
      var h :| 0 <= h < |w.holders| && Wins(w.holders[h], w.rows[k]);
      assert Wins(v.holders[h], v.rows[k]);
    }
  }

  lemma UniqueRowIds(w: Outbox)
    requires OutboundTable(w.rows)
    ensures forall i, j :: 0 <= i < j < |w.rows| ==> w.rows[i].id != w.rows[j].id
  {
    forall i, j | 0 <= i < j < |w.rows| ensures w.rows[i].id != w.rows[j].id {
      OutboundIsChecked(w.rows, i);
    }
  }

  lemma InsertKeeps(w: Outbox, v: Outbox, row: OutboundRow)
    requires Inv(w) && row.id !in w.issued && row.status.Pending? && OutboundTable(v.rows)
    requires OutboundOf(row).Ok? && OutboundOf(row).value.status.OutReserved?
    requires v == w.(rows := w.rows + [row], created := w.created + [row], issued := w.issued + {row.id},
                     holders := w.holders + [Holder(OutboundOf(row).value, Holding)])
    ensures Inv(v)
  {
    hide OutboundTable, OutboundReservation.Valid;
    InvParts(w);
    JoinKeepsSends(w, v, v.holders[|w.holders|]);
    InsertKeepsIds(w, v, row);
    InsertKeepsWins(w, v, row);
  }

  lemma InsertKeepsIds(w: Outbox, v: Outbox, row: OutboundRow)
    requires IdsKnown(w) && v.rows == w.rows + [row] && v.created == w.created + [row] && v.issued == w.issued + {row.id}
    requires |v.holders| == |w.holders| + 1 && v.holders[..|w.holders|] == w.holders
    requires v.holders[|w.holders|].reservation.outboundId == row.id
    ensures IdsKnown(v)
  {
    forall k | 0 <= k < |v.rows| ensures WasCreated(v.created, v.rows[k]) {
      if k < |w.rows| {
        var n :| 0 <= n < |w.created| && SameOutbound(w.created[n], w.rows[k]);
        assert SameOutbound(v.created[n], v.rows[k]);
      } else {
        assert SameOutbound(v.created[|w.created|], v.rows[k]);
      }
    }
    forall h | 0 <= h < |v.holders| ensures IdCreated(v.created, v.holders[h].reservation.outboundId) {
      if h < |w.holders| {
        assert v.holders[h] == v.holders[..|w.holders|][h];
        var n :| 0 <= n < |w.created| && w.created[n].id == w.holders[h].reservation.outboundId;
        assert v.created[n] == w.created[n];
      } else {
        assert v.created[|w.created|].id == row.id;
      }
    }
  }

  lemma InsertKeepsWins(w: Outbox, v: Outbox, row: OutboundRow)
    requires RowsAreWon(w) && row.status.Pending? && v.rows == w.rows + [row]
    requires |v.holders| == |w.holders| + 1 && v.holders[..|w.holders|] == w.holders
    ensures RowsAreWon(v)
  {
    forall k | 0 <= k < |v.rows| && !v.rows[k].status.Pending? ensures IsWon(v.holders, v.rows[k]) {
      assert IsWon(w.holders, w.rows[k]);
      var h :| 0 <= h < |w.holders| && Wins(w.holders[h], w.rows[k]);
      assert v.holders[h] == v.holders[..|w.holders|][h];
      assert Wins(v.holders[h], v.rows[k]);
    }
  }

  lemma ReserveKeeps(w: Outbox, bindings: seq<BindingRow>, exchanges: set<Id>, bindingId: Id, message: OutboundMessage, freshId: Id)
    requires Inv(w) && freshId !in w.issued && ValidHmac(message.delivery)
    ensures Inv(ReserveStep(w, bindings, exchanges, bindingId, message, freshId))
  {
    hide Inv, OutboundTable, IdsKnown, AllFit, OneWinner, RowsTell, RowsAreWon, SendsLogged, CreatedOnce, ActiveFor;
    hide PairTaken, ValidHmac, OutboundReservation.Valid;
    InvParts(w);
    RowIdsIssued(w);
    ReserveKeepsOutbound(w.rows, bindings, exchanges, bindingId, message, freshId);
    var v := ReserveStep(w, bindings, exchanges, bindingId, message, freshId);
    var k := IndexWhere(HasDelivery(message.delivery), w.rows);
    if |v.rows| > |w.rows| {
      var row := NewOutbound(freshId, bindingId, message);
      NewIsReserved(row);
      assert v.rows[|w.rows|..] == [row];
      InsertKeeps(w, v, row);
    } else {
      assert v.rows == w.rows && w.rows[|w.rows|..] == [];
      assert w.created + [] == w.created && w.holders + [] == w.holders;
      if |v.holders| > |w.holders| {
        JoinKeeps(w, v, k);
      } else {
        MoreIssued(w, v);
      }
    }
  }

  lemma NewIsReserved(row: OutboundRow)
    requires row.status.Pending? && row.attempts == 0 && row.errorCode.None?
    ensures OutboundOf(row).Ok? && OutboundOf(row).value.status.OutReserved?
  {
  }

  lemma RowIdsIssued(w: Outbox)
    requires IdsKnown(w)
    ensures forall k :: 0 <= k < |w.rows| ==> w.rows[k].id in w.issued
  {
    hide WasCreated;
  }

  // ----- marking -----

  lemma HolderMoves(w: Outbox, v: Outbox, h: nat)
    requires h < |w.holders| && |v.holders| == |w.holders| && v.holders[h].reservation == w.holders[h].reservation
    requires v.holders == w.holders[h := v.holders[h]] && v.created == w.created && v.issued == w.issued
    requires |v.rows| == |w.rows| && forall k :: 0 <= k < |w.rows| ==> SameOutbound(w.rows[k], v.rows[k])
    requires IdsKnown(w) && AllFit(w)
    ensures IdsKnown(v) && AllFit(v)
  {
    forall k | 0 <= k < |v.rows| ensures WasCreated(v.created, v.rows[k]) {
      var n :| 0 <= n < |w.created| && SameOutbound(w.created[n], w.rows[k]);
      assert SameOutbound(v.created[n], v.rows[k]);
    }
    forall g, k | 0 <= g < |v.holders| && 0 <= k < |v.rows| ensures Fits(v.holders[g], v.rows[k]) {
      assert Fits(w.holders[g], w.rows[k]);
    }
  }

  lemma SilentKeepsSends(w: Outbox, v: Outbox, h: nat)
    requires SendsLogged(w) && h < |w.holders| && v.sends == w.sends
    requires |v.holders| == |w.holders| && v.holders == w.holders[h := v.holders[h]]
    requires v.holders[h].reservation == w.holders[h].reservation
    requires HasCalled(v.holders[h].phase) == HasCalled(w.holders[h].phase)
    requires HasCalled(v.holders[h].phase) ==> v.holders[h].phase.receipt == w.holders[h].phase.receipt
    ensures SendsLogged(v)
  {
    hide Receipt.Valid;
    forall n | 0 <= n < |v.sends| ensures SendIsOf(v, v.sends[n]) {
      assert SendIsOf(w, w.sends[n]);
    }
  }

  lemma LoseKeeps(w: Outbox, v: Outbox, h: nat)
    requires Inv(w) && h < |w.holders| && w.holders[h].phase.Holding?
    requires v == w.(holders := w.holders[h := w.holders[h].(phase := Lost)])
    ensures Inv(v)
  {
    hide OutboundTable, CreatedOnce, SendsLogged, IdsKnown, AllFit;
    InvParts(w);
    HolderMoves(w, v, h);
    SilentKeepsSends(w, v, h);
    forall k | 0 <= k < |v.rows| && !v.rows[k].status.Pending? ensures IsWon(v.holders, v.rows[k]) {
      assert IsWon(w.holders, w.rows[k]);
      var g :| 0 <= g < |w.holders| && Wins(w.holders[g], w.rows[k]);
      assert Wins(v.holders[g], v.rows[k]);
    }
  }

  lemma WinKeeps(w: Outbox, v: Outbox, h: nat, k: nat, now: Time)
    requires Inv(w) && h < |w.holders| && w.holders[h].phase.Holding? && k < |w.rows|
    requires w.rows[k].status.Pending? && w.rows[k].id == w.holders[h].reservation.outboundId
    requires v == w.(rows := w.rows[k := MarkedSending(w.rows[k], now)], holders := w.holders[h := w.holders[h].(phase := Owner)])
    requires OutboundTable(v.rows)
    ensures Inv(v)
  {
    hide OutboundTable, CreatedOnce, SendsLogged, IdsKnown, AllFit;
    InvParts(w);
    UniqueRowIds(w);
    HolderMoves(w, v, h);
    SilentKeepsSends(w, v, h);
    forall g | 0 <= g < |w.holders| && Won(w.holders[g].phase)
      ensures w.holders[g].reservation.outboundId != w.rows[k].id
    {
      assert RowTells(w.rows[k], w.holders[g]);
    }
    forall i, g | 0 <= i < |v.rows| && 0 <= g < |v.holders| ensures RowTells(v.rows[i], v.holders[g]) {
      assert RowTells(w.rows[i], w.holders[g]);
    }
    forall i | 0 <= i < |v.rows| && !v.rows[i].status.Pending? ensures IsWon(v.holders, v.rows[i]) {
      if i == k {
        assert Wins(v.holders[h], v.rows[k]);
      } else {
        assert IsWon(w.holders, w.rows[i]);
        var g :| 0 <= g < |w.holders| && Wins(w.holders[g], w.rows[i]);
        assert Wins(v.holders[g], v.rows[i]);
      }
    }
  }

  lemma MarkKeeps(w: Outbox, h: nat, now: Time)
    requires Inv(w) && h < |w.holders| && w.holders[h].phase.Holding?
    ensures Inv(MarkStep(w, h, now))
  {
    hide Inv, OutboundTable, IdsKnown, AllFit, OneWinner, RowsTell, RowsAreWon, SendsLogged, CreatedOnce;
    hide BindingSends, OutboundReservation.Valid;
    InvParts(w);
    MarkKeepsOutbound(w.rows, w.holders[h].reservation, now);
    var v := MarkStep(w, h, now);
    var k := IndexWhere(HasOutboundId(w.holders[h].reservation.outboundId), w.rows);
    if v.holders[h].phase.Owner? {
      WinKeeps(w, v, h, k, now);
    } else {
      LoseKeeps(w, v, h);
    }
  }

  // ----- calling the adapter -----

  lemma CallKeepsSends(w: Outbox, h: nat, receipt: Receipt)
    requires SendsLogged(w) && h < |w.holders| && w.holders[h].phase.Owner? && receipt.Valid()
    ensures SendsLogged(CallStep(w, h, receipt))
  {
    hide Receipt.Valid;
    var v := CallStep(w, h, receipt);
    forall n | 0 <= n < |w.sends| ensures SendIsOf(v, w.sends[n]) && w.sends[n].holder != h {
      assert SendIsOf(w, w.sends[n]);
    }
    forall g | 0 <= g < |v.holders| && HasCalled(v.holders[g].phase)
      ensures Send(g, v.holders[g].reservation.outboundId, v.holders[g].phase.receipt) in v.sends
    {
      if g == h {
        assert v.sends[|w.sends|] == Send(h, v.holders[h].reservation.outboundId, receipt);
      } else {
        assert Send(g, w.holders[g].reservation.outboundId, w.holders[g].phase.receipt) in w.sends;
      }
    }
  }

  lemma CallKeeps(w: Outbox, h: nat, receipt: Receipt)
    requires Inv(w) && h < |w.holders| && w.holders[h].phase.Owner? && receipt.Valid()
    ensures Inv(CallStep(w, h, receipt))
  {
    hide OutboundTable, CreatedOnce, SendsLogged, IdsKnown, AllFit, Receipt.Valid;
    InvParts(w);
    var v := CallStep(w, h, receipt);
    HolderMoves(w, v, h);
    CallKeepsSends(w, h, receipt);
    forall i, g | 0 <= i < |v.rows| && 0 <= g < |v.holders| ensures RowTells(v.rows[i], v.holders[g]) {
      assert RowTells(w.rows[i], w.holders[g]);
    }
    forall i | 0 <= i < |v.rows| && !v.rows[i].status.Pending? ensures IsWon(v.holders, v.rows[i]) {
      assert IsWon(w.holders, w.rows[i]);
      var g :| 0 <= g < |w.holders| && Wins(w.holders[g], w.rows[i]);
      assert Wins(v.holders[g], v.rows[i]);
    }
  }

  // ----- recording the receipt -----

  /** The holder's receipt reaches its row, if the row is still there. */
  predicate RecordsInto(w: Outbox, rows: seq<OutboundRow>, h: nat)
    requires h < |w.holders| && w.holders[h].phase.Called?
  {
    && |rows| == |w.rows|
    && (forall i :: 0 <= i < |rows| ==> SameOutbound(w.rows[i], rows[i]))
    && (forall i :: 0 <= i < |rows| && rows[i].id != w.holders[h].reservation.outboundId ==> rows[i] == w.rows[i])
    && (forall i :: 0 <= i < |rows| && rows[i].id == w.holders[h].reservation.outboundId ==>
          Reports(rows[i], w.holders[h].phase.receipt))
  }

  lemma ValidCodes(receipt: Receipt)
    requires receipt.Valid()
    ensures receipt.status.Delivered? ==> receipt.errorCode.None?
  {
  }

  lemma RecordIsWritten(w: Outbox, h: nat, now: Time)
    requires Inv(w) && h < |w.holders| && w.holders[h].phase.Called?
    ensures RecordsInto(w, RecordStep(w, h, now).rows, h)
  {
    hide OutboundTable, OutboundRow.DatabaseChecks, CreatedOnce, OneWinner, Receipt.Valid, OutboundReservation.Valid;
    InvParts(w);
    UniqueRowIds(w);
    var id := w.holders[h].reservation.outboundId;
    var k := IndexWhere(HasOutboundId(id), w.rows);
    if k < |w.rows| {
      assert Fits(w.holders[h], w.rows[k]) && RowTells(w.rows[k], w.holders[h]);
      OutboundIsChecked(w.rows, k);
      SendingMeansOneAttempt(w.rows[k]);
      assert Send(h, id, w.holders[h].phase.receipt) in w.sends;
      var n :| 0 <= n < |w.sends| && w.sends[n] == Send(h, id, w.holders[h].phase.receipt);
      assert SendIsOf(w, w.sends[n]);
      ValidCodes(w.holders[h].phase.receipt);
      CompletionIsWritable(w.rows[k], w.holders[h].phase.receipt, now);
    }
  }

  lemma SendingMeansOneAttempt(row: OutboundRow)
    requires row.DatabaseChecks() && row.status.Sending?
    ensures row.attempts == 1
  {
  }

  lemma RecordKeeps(w: Outbox, h: nat, now: Time)
    requires Inv(w) && h < |w.holders| && w.holders[h].phase.Called?
    ensures Inv(RecordStep(w, h, now))
  {
    hide OutboundTable, CreatedOnce, SendsLogged, IdsKnown, AllFit, CompleteOutbound;
    var v := RecordStep(w, h, now);
    InvParts(w);
    RecordIsWritten(w, h, now);
    CompleteKeepsOutbound(w.rows, SendingToken(w.holders[h].reservation), w.holders[h].phase.receipt, now);
    HolderMoves(w, v, h);
    SilentKeepsSends(w, v, h);
    forall i, g | 0 <= i < |v.rows| && 0 <= g < |v.holders| ensures RowTells(v.rows[i], v.holders[g]) {
      assert RowTells(w.rows[i], w.holders[g]);
    }
    forall i | 0 <= i < |v.rows| && !v.rows[i].status.Pending? ensures IsWon(v.holders, v.rows[i]) {
      if v.rows[i].id == w.holders[h].reservation.outboundId {
        assert Wins(v.holders[h], v.rows[i]);
      } else {
        assert IsWon(w.holders, w.rows[i]);
        var g :| 0 <= g < |w.holders| && Wins(w.holders[g], w.rows[i]);
        assert Wins(v.holders[g], v.rows[i]);
      }
    }
  }

  // ----- deletion, steps and runs -----

  lemma DeleteKeeps(w: Outbox, gone: set<Id>)
    requires Inv(w)
    ensures Inv(w.(rows := WithoutOutbound(w.rows, gone)))
  {
    hide OutboundTable, CreatedOnce, WasCreated, RowTells, Fits, IsWon;
    InvParts(w);
    var v := w.(rows := WithoutOutbound(w.rows, gone));
    CascadeKeepsOutbound(w.rows, gone);
    WithoutOutboundMembers(w.rows, gone);
    forall k | 0 <= k < |v.rows| ensures exists i :: 0 <= i < |w.rows| && w.rows[i] == v.rows[k] {
      assert v.rows[k] in w.rows;
    }
    assert forall s: Send :: SendIsOf(v, s) == SendIsOf(w, s);
  }

  lemma StepKeeps(w: Outbox, e: OutboxEvent)
    requires Inv(w)
    ensures Inv(Step(w, e))
  {
    hide Inv, ReserveStep, MarkStep, CallStep, RecordStep, Receipt.Valid, ValidHmac;
    if Enabled(w, e) {
      match e
      case Reserve(bindings, exchanges, bindingId, message, freshId) => ReserveKeeps(w, bindings, exchanges, bindingId, message, freshId);
      case Mark(h, now) => MarkKeeps(w, h, now);
      case CallAdapter(h, receipt) => CallKeeps(w, h, receipt);
      case Record(h, now) => RecordKeeps(w, h, now);
      case Delete(gone) => DeleteKeeps(w, gone);
    }
  }

  lemma {:induction false} RunKeeps(w: Outbox, events: seq<OutboxEvent>)
    requires Inv(w)
    ensures Inv(Run(w, events))
  {
    hide Inv, Step;
    if events != [] {
      RunKeeps(w, events[..|events| - 1]);
      StepKeeps(Run(w, events[..|events| - 1]), events[|events| - 1]);
    }
  }
}
