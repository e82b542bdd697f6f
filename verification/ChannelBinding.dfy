/** Leased identity-to-conversation bindings: `PostgresChannelBindingRepository` of
    src/legal_chatbot/channels/repository.py over the table and constraints of
    src/legal_chatbot/channels/orm.py. Every transaction locks its row, so each is one
    step; an error rolls it back. */
module ChannelBinding {
  import opened Wrappers
  import opened Sequences
  import opened ChatModels

  const HMAC_HEX_LENGTH := 64
  const BINDING_LEASE_SECONDS := 120

  datatype ChannelError = BindingFailed | OutboundStateInvalid | PersistenceFailure

  predicate IsHexDigit(c: char) {
    '0' <= c <= '9' || 'a' <= c <= 'f'
  }

  predicate ValidHmac(s: string) {
    |s| == HMAC_HEX_LENGTH && forall i :: 0 <= i < |s| ==> IsHexDigit(s[i])
  }

  predicate ValidSafeErrorCode(s: string) {
    && 1 <= |s| <= 64 && 'A' <= s[0] <= 'Z'
    && forall i :: 0 <= i < |s| ==> 'A' <= s[i] <= 'Z' || '0' <= s[i] <= '9' || s[i] == '_'
  }

  type LeaseSeconds = n: nat | 1 <= n <= BINDING_LEASE_SECONDS witness BINDING_LEASE_SECONDS

  datatype BindingStatus = Binding | Active | Failed

  /** A row of channel_conversation_bindings. */
  datatype BindingRow = BindingRow(
    id: Id,
    identity: string,
    status: BindingStatus,
    conversationId: Option<Id>,
    lease: Option<Time>,
    errorCode: Option<string>,
    activatedAt: Option<Time>)
  {
    /** ck_channel_conversation_bindings_status_shape and the column checks */
    predicate DatabaseChecks() {
      && ValidHmac(identity)
      && (errorCode.Some? ==> ValidSafeErrorCode(errorCode.value))
      && match status
         case Binding => conversationId.None? && lease.Some? && errorCode.None? && activatedAt.None?
         case Active => conversationId.Some? && lease.None? && errorCode.None? && activatedAt.Some?
         case Failed => lease.None? && errorCode.Some? && activatedAt.None?
    }
  }

  datatype ReservationStatus = BindingReserved | BindingActive | BindingProcessing | BindingFailedStatus

  datatype BindingReservation = BindingReservation(
    bindingId: Id, status: ReservationStatus, conversationId: Option<Id>, lease: Option<Time>)
  {
    /** `_validate_binding_reservation` of the channel service. */
    predicate Valid() {
      match status
      case BindingReserved => conversationId.None? && lease.Some?
      case BindingActive => conversationId.Some? && lease.None?
      case BindingProcessing => conversationId.None?
      case BindingFailedStatus => conversationId.None? && lease.None?
    }
  }

  function HasIdentity(identity: string): BindingRow -> bool {
    (b: BindingRow) => b.identity == identity
  }

  function HasBindingId(id: Id): BindingRow -> bool {
    (b: BindingRow) => b.id == id
  }

  /** _binding_reservation */
  function ReservationOf(b: BindingRow): Result<BindingReservation, ChannelError> {
    match b.status
    case Binding =>
      if b.lease.None? then Err(PersistenceFailure) else Ok(BindingReservation(b.id, BindingReserved, None, b.lease))
    case Active =>
      if b.conversationId.None? then Err(PersistenceFailure)
      else Ok(BindingReservation(b.id, BindingActive, b.conversationId, None))
    case Failed => Ok(BindingReservation(b.id, BindingFailedStatus, None, None))
  }

  function Rebound(b: BindingRow, lease: Time): BindingRow {
    b.(status := Binding, conversationId := None, lease := Some(lease), errorCode := None, activatedAt := None)
  }

  predicate HoldsLease(b: BindingRow, now: Time) {
    b.status.Binding? && b.lease.Some? && b.lease.value > now
  }

  datatype BindingTx = BindingTx(rows: seq<BindingRow>, result: Result<BindingReservation, ChannelError>)

  function ReserveBinding(rows: seq<BindingRow>, identity: string, now: Time, freshId: Id, leaseSeconds: LeaseSeconds): BindingTx {
    var k := IndexWhere(HasIdentity(identity), rows);
    if !ValidHmac(identity) then BindingTx(rows, Err(BindingFailed))
    else if k == |rows| then
      var b := BindingRow(freshId, identity, Binding, None, Some(now + leaseSeconds), None, None);
      BindingTx(rows + [b], ReservationOf(b))
    else if rows[k].status.Active? then BindingTx(rows, ReservationOf(rows[k]))
    else if HoldsLease(rows[k], now) then
      BindingTx(rows, Ok(BindingReservation(rows[k].id, BindingProcessing, None, rows[k].lease)))
    else
      var b := Rebound(rows[k], now + leaseSeconds);
      BindingTx(rows[k := b], ReservationOf(b))
  }

  predicate IsToken(reservation: BindingReservation) {
    reservation.status.BindingReserved? && reservation.lease.Some?
  }

  /** The guard shared by activate and fail: still BINDING, under exactly this lease, in time. */
  predicate Owns(reservation: BindingReservation, b: BindingRow, now: Time) {
    b.status.Binding? && b.lease.Some? && b.lease == reservation.lease && b.lease.value > now
  }

  function Activated(b: BindingRow, conversationId: Id, now: Time): BindingRow {
    b.(status := Active, conversationId := Some(conversationId), lease := None, errorCode := None, activatedAt := Some(now))
  }

  /** uq_channel_conversation_bindings_active_conversation, for a row about to be ACTIVE */
  predicate ConversationTaken(rows: seq<BindingRow>, conversationId: Id) {
    exists i :: 0 <= i < |rows| && rows[i].status.Active? && rows[i].conversationId == Some(conversationId)
  }

  /** `live` holds the ids of the conversations the foreign key finds. */
  function ActivateBinding(rows: seq<BindingRow>, reservation: BindingReservation, conversationId: Id, now: Time, live: set<Id>): BindingTx {
    var k := IndexWhere(HasBindingId(reservation.bindingId), rows);
    if !IsToken(reservation) then BindingTx(rows, Err(BindingFailed))
    else if k == |rows| || !Owns(reservation, rows[k], now) then BindingTx(rows, Err(BindingFailed))
    else if ConversationTaken(rows, conversationId) || conversationId !in live then BindingTx(rows, Err(PersistenceFailure))
    else
      var b := Activated(rows[k], conversationId, now);
      BindingTx(rows[k := b], ReservationOf(b))
  }

  function FailedRow(b: BindingRow, errorCode: string): BindingRow {
    b.(status := Failed, conversationId := None, lease := None, errorCode := Some(errorCode), activatedAt := None)
  }

  function FailBinding(rows: seq<BindingRow>, reservation: BindingReservation, errorCode: string, now: Time): BindingTx {
    var k := IndexWhere(HasBindingId(reservation.bindingId), rows);
    if !IsToken(reservation) || !ValidSafeErrorCode(errorCode) then BindingTx(rows, Err(BindingFailed))
    else if k == |rows| || !Owns(reservation, rows[k], now) then BindingTx(rows, Err(BindingFailed))
    else
      var b := FailedRow(rows[k], errorCode);
      BindingTx(rows[k := b], ReservationOf(b))
  }

  /** ON DELETE CASCADE from conversations. */
  function WithoutConversation(rows: seq<BindingRow>, conversationId: Id): seq<BindingRow> {
    if rows == [] then []
    else
      var rest := WithoutConversation(rows[..|rows| - 1], conversationId);
      var b := rows[|rows| - 1];
      if b.conversationId == Some(conversationId) then rest else rest + [b]
  }

  lemma {:induction false} WithoutConversationMembers(rows: seq<BindingRow>, conversationId: Id)
    ensures forall b :: b in WithoutConversation(rows, conversationId) <==> b in rows && b.conversationId != Some(conversationId)
  {
    if rows != [] {
      WithoutConversationMembers(rows[..|rows| - 1], conversationId);
      assert rows == rows[..|rows| - 1] + [rows[|rows| - 1]];
    }
  }

  // ----- the database invariants -----

  /** The CHECK constraints, the primary key, the unique identity, the partial unique
      index on active conversations, and the foreign key. */
  ghost predicate BindingTable(rows: seq<BindingRow>, live: set<Id>) {
    && (forall i :: 0 <= i < |rows| ==> RowChecked(rows[i], live))
    && (forall i, j :: 0 <= i < j < |rows| ==> rows[i].id != rows[j].id)
    && (forall i, j :: 0 <= i < j < |rows| ==> rows[i].identity != rows[j].identity)
    && (forall i, j :: 0 <= i < j < |rows| ==> !ShareConversation(rows[i], rows[j]))
  }

  predicate RowChecked(b: BindingRow, live: set<Id>) {
    b.DatabaseChecks() && (b.conversationId.Some? ==> b.status.Active? && b.conversationId.value in live)
  }

  predicate ShareConversation(a: BindingRow, b: BindingRow) {
    a.status.Active? && b.status.Active? && a.conversationId == b.conversationId
  }

  lemma ReplaceKeepsTable(rows: seq<BindingRow>, k: nat, b: BindingRow, live: set<Id>)
    requires BindingTable(rows, live) && k < |rows| && b.id == rows[k].id && b.identity == rows[k].identity
    requires RowChecked(b, live) && (b.conversationId.Some? ==> !ConversationTaken(rows, b.conversationId.value))
    ensures BindingTable(rows[k := b], live)
  {
    hide ValidHmac, ValidSafeErrorCode;
  }

  lemma AppendKeepsTable(rows: seq<BindingRow>, b: BindingRow, live: set<Id>)
    requires BindingTable(rows, live) && RowChecked(b, live) && !b.status.Active?
    requires forall i :: 0 <= i < |rows| ==> rows[i].id != b.id && rows[i].identity != b.identity
    ensures BindingTable(rows + [b], live)
  {
    hide RowChecked;
  }

  /** Sixty-four lower-case hexadecimal digits, and nothing else. */
  lemma HmacIff(s: string)
    ensures ValidHmac(s) <==> |s| == 64 && forall c :: c in s ==> c in "0123456789abcdef"
  {
    forall c: char ensures IsHexDigit(c) <==> c in "0123456789abcdef" {
      HexDigitIff(c);
    }
    hide IsHexDigit;
    if |s| == 64 && !ValidHmac(s) {
      var i :| 0 <= i < |s| && !IsHexDigit(s[i]);
      assert s[i] in s;
    }
  }

  lemma HexDigitIff(c: char)
    ensures IsHexDigit(c) <==> c in "0123456789abcdef"
  {
    var digits := "0123456789abcdef";
    if '0' <= c <= '9' {
      assert digits[c as int - '0' as int] == c;
    } else if 'a' <= c <= 'f' {
      assert digits[10 + (c as int - 'a' as int)] == c;
    }
  }

  lemma ReserveKeepsTable(rows: seq<BindingRow>, identity: string, now: Time, freshId: Id, leaseSeconds: LeaseSeconds, live: set<Id>)
    requires BindingTable(rows, live) && forall i :: 0 <= i < |rows| ==> rows[i].id != freshId
    ensures BindingTable(ReserveBinding(rows, identity, now, freshId, leaseSeconds).rows, live)
    ensures var r := ReserveBinding(rows, identity, now, freshId, leaseSeconds).result;
      r.Ok? <==> |identity| == 64 && forall c :: c in identity ==> c in "0123456789abcdef"
    ensures var r := ReserveBinding(rows, identity, now, freshId, leaseSeconds).result;
      r.Ok? ==> r.value.Valid() && !r.value.status.BindingFailedStatus?
  {
    hide BindingTable, ValidHmac, ValidSafeErrorCode;
    HmacIff(identity);
    var k := IndexWhere(HasIdentity(identity), rows);
    if ValidHmac(identity) {
      if k == |rows| {
        AppendKeepsTable(rows, BindingRow(freshId, identity, Binding, None, Some(now + leaseSeconds), None, None), live);
      } else {
        RowIsChecked(rows, k, live);
        ReplaceKeepsTable(rows, k, Rebound(rows[k], now + leaseSeconds), live);
      }
    }
  }

  lemma RowIsChecked(rows: seq<BindingRow>, k: nat, live: set<Id>)
    requires BindingTable(rows, live) && k < |rows|
    ensures RowChecked(rows[k], live)
  {
    hide RowChecked;
  }

  lemma IdIsAt(rows: seq<BindingRow>, k: nat, live: set<Id>)
    requires BindingTable(rows, live) && k < |rows|
    ensures IndexWhere(HasBindingId(rows[k].id), rows) == k
  {
    hide RowChecked, ShareConversation;
    assert HasBindingId(rows[k].id)(rows[k]);
  }

  lemma ActivateKeepsTable(rows: seq<BindingRow>, reservation: BindingReservation, conversationId: Id, now: Time, live: set<Id>)
    requires BindingTable(rows, live)
    ensures BindingTable(ActivateBinding(rows, reservation, conversationId, now, live).rows, live)
    ensures var r := ActivateBinding(rows, reservation, conversationId, now, live).result;
      && (r.Ok? ==> r.value == BindingReservation(reservation.bindingId, BindingActive, Some(conversationId), None))
      && (r.Err? ==> if IsToken(reservation) && exists i :: 0 <= i < |rows| && rows[i].id == reservation.bindingId && Owns(reservation, rows[i], now)
            then r.error.PersistenceFailure? else r.error.BindingFailed?)
  {
    hide BindingTable, ValidHmac, ValidSafeErrorCode;
    forall i | 0 <= i < |rows| && rows[i].id == reservation.bindingId
      ensures IndexWhere(HasBindingId(reservation.bindingId), rows) == i
    {
      IdIsAt(rows, i, live);
    }
    var k := IndexWhere(HasBindingId(reservation.bindingId), rows);
    if k < |rows| && Owns(reservation, rows[k], now) && !ConversationTaken(rows, conversationId) && conversationId in live {
      RowIsChecked(rows, k, live);
      ReplaceKeepsTable(rows, k, Activated(rows[k], conversationId, now), live);
    }
  }

  const CAPITALS := "ABCDEFGHIJKLMNOPQRSTUVWXYZ"

  lemma CapitalIff(c: char)
    ensures 'A' <= c <= 'Z' <==> c in CAPITALS
  {
    if 'A' <= c <= 'Z' {
      assert CAPITALS[c as int - 'A' as int] == c;
    }
  }

  lemma DigitIff(c: char)
    ensures '0' <= c <= '9' <==> c in "0123456789"
  {
    if '0' <= c <= '9' {
      assert "0123456789"[c as int - '0' as int] == c;
    }
  }

  /** A code that may be stored: capitals, digits and underscores, the first a capital. */
  predicate IsCode(s: string) {
    && 1 <= |s| <= 64 && s[0] in CAPITALS
    && forall i :: 0 <= i < |s| ==> s[i] in CAPITALS || s[i] in "0123456789" || s[i] == '_'
  }

  lemma CodeIff(s: string)
    ensures ValidSafeErrorCode(s) <==> IsCode(s)
  {
    forall c: char ensures 'A' <= c <= 'Z' <==> c in CAPITALS {
      CapitalIff(c);
    }
    forall c: char ensures '0' <= c <= '9' <==> c in "0123456789" {
      DigitIff(c);
    }
    hide CAPITALS;
  }

  lemma FailKeepsTable(rows: seq<BindingRow>, reservation: BindingReservation, errorCode: string, now: Time, live: set<Id>)
    requires BindingTable(rows, live)
    ensures BindingTable(FailBinding(rows, reservation, errorCode, now).rows, live)
    ensures FailBinding(rows, reservation, errorCode, now).result.Ok? ==> IsCode(errorCode)
  {
    hide BindingTable, ValidHmac, ValidSafeErrorCode, IsCode;
    CodeIff(errorCode);
    var k := IndexWhere(HasBindingId(reservation.bindingId), rows);
    if k < |rows| && Owns(reservation, rows[k], now) && ValidSafeErrorCode(errorCode) {
      RowIsChecked(rows, k, live);
      ReplaceKeepsTable(rows, k, FailedRow(rows[k], errorCode), live);
    }
  }

  lemma {:induction false} CascadeKeepsOrder(rows: seq<BindingRow>, conversationId: Id, live: set<Id>)
    requires BindingTable(rows, live)
    ensures BindingTable(WithoutConversation(rows, conversationId), live - {conversationId})
  {
    hide ValidHmac, ValidSafeErrorCode;
    if rows != [] {
      var front, last := rows[..|rows| - 1], rows[|rows| - 1];
      CascadeKeepsOrder(front, conversationId, live);
      WithoutConversationMembers(front, conversationId);
      var kept := WithoutConversation(front, conversationId);
      forall i | 0 <= i < |kept|
        ensures kept[i].id != last.id && kept[i].identity != last.identity && !ShareConversation(kept[i], last)
      {
        assert kept[i] in front;
      }
      assert RowChecked(last, live);
    }
  }

  // ----- the repository -----

  class BindingRepository {
    const leaseSeconds: LeaseSeconds
    var bindings: seq<BindingRow>

    constructor (leaseSeconds: LeaseSeconds)
      ensures this.leaseSeconds == leaseSeconds && bindings == []
    {
      this.leaseSeconds := leaseSeconds;
      bindings := [];
    }

    method Reserve(identity: string, now: Time, freshId: Id) returns (result: Result<BindingReservation, ChannelError>)
      modifies this
      ensures BindingTx(bindings, result) == ReserveBinding(old(bindings), identity, now, freshId, leaseSeconds)
    {
      hide ValidHmac;
      if !ValidHmac(identity) {
        return Err(BindingFailed);
      }
      var expiry := now + leaseSeconds;
      var k := IndexWhere(HasIdentity(identity), bindings);
      if k == |bindings| {
        var created := BindingRow(freshId, identity, Binding, None, Some(expiry), None, None);
        bindings := bindings + [created];
        return ReservationOf(created);
      }
      var binding := bindings[k];
      if binding.status.Active? {
        return ReservationOf(binding);
      }
      if binding.status.Binding? && binding.lease.Some? && binding.lease.value > now {
        return Ok(BindingReservation(binding.id, BindingProcessing, None, binding.lease));
      }
      binding := binding.(status := Binding);
      binding := binding.(conversationId := None);
      binding := binding.(lease := Some(expiry));
      binding := binding.(errorCode := None);
      binding := binding.(activatedAt := None);
      bindings := bindings[k := binding];
      return ReservationOf(binding);
    }

    method Activate(reservation: BindingReservation, conversationId: Id, now: Time, live: set<Id>)
      returns (result: Result<BindingReservation, ChannelError>)
      modifies this
      ensures BindingTx(bindings, result) == ActivateBinding(old(bindings), reservation, conversationId, now, live)
    {
      if !reservation.status.BindingReserved? || reservation.lease.None? {
        return Err(BindingFailed);
      }
      var k := IndexWhere(HasBindingId(reservation.bindingId), bindings);
      if k == |bindings| || !bindings[k].status.Binding? || bindings[k].lease != reservation.lease
         || bindings[k].lease.None? || bindings[k].lease.value <= now {
        return Err(BindingFailed);
      }
      var binding := bindings[k];
      binding := binding.(status := Active);
      binding := binding.(conversationId := Some(conversationId));
      binding := binding.(lease := None);
      binding := binding.(errorCode := None);
      binding := binding.(activatedAt := Some(now));
      if ConversationTaken(bindings, conversationId) || conversationId !in live {
        return Err(PersistenceFailure);
      }
      bindings := bindings[k := binding];
      return ReservationOf(binding);
    }

    method Fail(reservation: BindingReservation, errorCode: string, now: Time) returns (result: Result<BindingReservation, ChannelError>)
      modifies this
      ensures BindingTx(bindings, result) == FailBinding(old(bindings), reservation, errorCode, now)
    {
      hide ValidSafeErrorCode;
      if !reservation.status.BindingReserved? || reservation.lease.None? || !ValidSafeErrorCode(errorCode) {
        return Err(BindingFailed);
      }
      var k := IndexWhere(HasBindingId(reservation.bindingId), bindings);
      if k == |bindings| || !bindings[k].status.Binding? || bindings[k].lease != reservation.lease
         || bindings[k].lease.None? || bindings[k].lease.value <= now {
        return Err(BindingFailed);
      }
      var binding := bindings[k];
      binding := binding.(status := Failed);
      binding := binding.(conversationId := None);
      binding := binding.(lease := None);
      binding := binding.(errorCode := Some(errorCode));
      binding := binding.(activatedAt := None);
      bindings := bindings[k := binding];
      return ReservationOf(binding);
    }
  }
}
