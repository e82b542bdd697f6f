/** Bindings under any number of handlers, each with its own clock.

    A handler whose reserve() returned RESERVED holds a token. Any event may come next,
    with any clock; conversations are created and purged in between. Events that cannot
    happen (a UUID drawn twice, a call without a token) leave the world as it is. */
module ChannelBindingProtocol {
  import opened Wrappers
  import opened Sequences
  import opened ChatModels
  import opened ChannelBinding

  datatype Activation = Activation(bindingId: Id, conversationId: Id)

  /** The table, the conversations that exist, every id ever drawn, every token in order,
      how many tokens there were when a binding last failed, and every activation. */
  datatype Bindings = Bindings(
    rows: seq<BindingRow>,
    live: set<Id>,
    issued: set<Id>,
    known: set<Id>,
    tokens: seq<BindingReservation>,
    fences: map<Id, nat>,
    activations: seq<Activation>)

  datatype BindingEvent =
    | Reserve(identity: string, now: Time, freshId: Id)
    | CreateConversation(freshId: Id)
    | Activate(token: nat, conversationId: Id, now: Time)
    | Fail(token: nat, errorCode: string, now: Time)
    | PurgeConversation(conversationId: Id)

  const NO_BINDINGS := Bindings([], {}, {}, {}, [], map[], [])

  predicate Enabled(w: Bindings, e: BindingEvent) {
    match e
    case Reserve(_, _, freshId) => freshId !in w.issued
    case CreateConversation(freshId) => freshId !in w.known
    case Activate(token, _, _) => token < |w.tokens|
    case Fail(token, _, _) => token < |w.tokens|
    case PurgeConversation(_) => true
  }

  function ReserveStep(w: Bindings, identity: string, now: Time, freshId: Id, leaseSeconds: LeaseSeconds): Bindings {
    var tx := ReserveBinding(w.rows, identity, now, freshId, leaseSeconds);
    w.(rows := tx.rows, issued := w.issued + {freshId},
       tokens := w.tokens + (if tx.result.Ok? && tx.result.value.status.BindingReserved? then [tx.result.value] else []))
  }

  function ActivateStep(w: Bindings, token: BindingReservation, conversationId: Id, now: Time): Bindings {
    var tx := ActivateBinding(w.rows, token, conversationId, now, w.live);
    w.(rows := tx.rows,
       activations := w.activations + (if tx.result.Ok? then [Activation(token.bindingId, conversationId)] else []))
  }

  function FailStep(w: Bindings, token: BindingReservation, errorCode: string, now: Time): Bindings {
    var tx := FailBinding(w.rows, token, errorCode, now);
    w.(rows := tx.rows, fences := if tx.result.Ok? then w.fences[token.bindingId := |w.tokens|] else w.fences)
  }

  function PurgeStep(w: Bindings, conversationId: Id): Bindings {
    w.(rows := WithoutConversation(w.rows, conversationId), live := w.live - {conversationId})
  }

  function Step(w: Bindings, e: BindingEvent, leaseSeconds: LeaseSeconds): Bindings {
    if !Enabled(w, e) then w
    else match e
      case Reserve(identity, now, freshId) => ReserveStep(w, identity, now, freshId, leaseSeconds)
      case CreateConversation(freshId) => w.(live := w.live + {freshId}, known := w.known + {freshId})
      case Activate(token, conversationId, now) => ActivateStep(w, w.tokens[token], conversationId, now)
      case Fail(token, errorCode, now) => FailStep(w, w.tokens[token], errorCode, now)
      case PurgeConversation(conversationId) => PurgeStep(w, conversationId)
  }

  function Run(w: Bindings, events: seq<BindingEvent>, leaseSeconds: LeaseSeconds): Bindings {
    if events == [] then w else Step(Run(w, events[..|events| - 1], leaseSeconds), events[|events| - 1], leaseSeconds)
  }

  // ----- the invariant -----

  /** Tokens before this index were issued before the binding last failed. */
  function Fence(w: Bindings, id: Id): nat {
    if id in w.fences then w.fences[id] else 0
  }

  /** Token `i` is of this binding and was issued after it last failed. */
  predicate Current(w: Bindings, id: Id, i: nat)
    requires i < |w.tokens|
  {
    w.tokens[i].bindingId == id && i >= Fence(w, id)
  }

  predicate AllTokens(tokens: seq<BindingReservation>) {
    forall i :: 0 <= i < |tokens| ==> IsToken(tokens[i])
  }

  predicate IdsKnown(w: Bindings) {
    && (forall i :: 0 <= i < |w.rows| ==> w.rows[i].id in w.issued)
    && (forall i :: 0 <= i < |w.tokens| ==> w.tokens[i].bindingId in w.issued)
    && w.live <= w.known && w.fences.Keys <= w.issued
  }

  /** Leases of one binding only grow between failures. */
  predicate LeasesGrow(w: Bindings)
    requires AllTokens(w.tokens)
  {
    forall i, j :: 0 <= i < j < |w.tokens| && Current(w, w.tokens[j].bindingId, i) ==>
      w.tokens[i].lease.value < w.tokens[j].lease.value
  }

  /** No current token outlives the lease in the table; a failed binding has none. */
  predicate RowFenced(w: Bindings, b: BindingRow)
    requires AllTokens(w.tokens)
  {
    && Fence(w, b.id) <= |w.tokens|
    && (b.status.Binding? && b.lease.Some? ==>
          forall i :: 0 <= i < |w.tokens| && Current(w, b.id, i) ==> w.tokens[i].lease.value <= b.lease.value)
    && (b.status.Failed? ==> forall i :: 0 <= i < |w.tokens| ==> !Current(w, b.id, i))
  }

  predicate Fenced(w: Bindings) {
    && AllTokens(w.tokens)
    && LeasesGrow(w)
    && forall k :: 0 <= k < |w.rows| ==> RowFenced(w, w.rows[k])
  }

  predicate IsBoundTo(b: BindingRow, a: Activation) {
    b.id == a.bindingId && b.status.Active? && b.conversationId == Some(a.conversationId)
  }

  /** An activation stands in the table for as long as its conversation lives. */
  predicate Stands(w: Bindings, a: Activation) {
    && a.conversationId in w.known && a.bindingId in w.issued
    && (a.conversationId in w.live ==> exists k :: 0 <= k < |w.rows| && IsBoundTo(w.rows[k], a))
    && (a.conversationId !in w.live ==> forall k :: 0 <= k < |w.rows| ==> w.rows[k].id != a.bindingId)
  }

  predicate Logged(w: Bindings) {
    && (forall n :: 0 <= n < |w.activations| ==> Stands(w, w.activations[n]))
    && (forall n, m :: 0 <= n < m < |w.activations| ==>
          w.activations[n].bindingId != w.activations[m].bindingId
          && w.activations[n].conversationId != w.activations[m].conversationId)
    && (forall k :: 0 <= k < |w.rows| && w.rows[k].status.Active? ==>
          exists n :: 0 <= n < |w.activations| && IsBoundTo(w.rows[k], w.activations[n]))
  }

  ghost predicate Inv(w: Bindings) {
    BindingTable(w.rows, w.live) && IdsKnown(w) && Fenced(w) && Logged(w)
  }

  lemma TableMeans(w: Bindings, k: nat)
    requires BindingTable(w.rows, w.live) && k < |w.rows|
    ensures w.rows[k].DatabaseChecks()
    ensures w.rows[k].conversationId.Some? ==> w.rows[k].status.Active? && w.rows[k].conversationId.value in w.live
    ensures forall i :: 0 <= i < |w.rows| && i != k ==> w.rows[i].id != w.rows[k].id && w.rows[i].identity != w.rows[k].identity
  {
    hide ValidHmac, ValidSafeErrorCode;
    assert RowChecked(w.rows[k], w.live);
  }

  lemma IndexOfBinding(w: Bindings, k: nat)
    requires BindingTable(w.rows, w.live) && k < |w.rows|
    ensures IndexWhere(HasBindingId(w.rows[k].id), w.rows) == k
  {
    TableMeans(w, k);
    hide BindingTable;
    assert HasBindingId(w.rows[k].id)(w.rows[k]);
  }

  // ----- one row changes -----

  /** The world with row `k` replaced and perhaps one token issued for it. */
  predicate Replaces(w: Bindings, v: Bindings, k: nat, b: BindingRow) {
    && k < |w.rows| && b.id == w.rows[k].id && v.rows == w.rows[k := b]
    && v.live == w.live && v.known == w.known && w.issued <= v.issued
  }

  lemma UnboundKeepsLog(w: Bindings, v: Bindings, k: nat, b: BindingRow)
    requires Inv(w) && Replaces(w, v, k, b) && !w.rows[k].status.Active? && !b.status.Active? && v.activations == w.activations
    ensures Logged(v)
  {
    hide Fenced, IdsKnown;
    forall n | 0 <= n < |v.activations| ensures Stands(v, v.activations[n]) {
      var a := v.activations[n];
      assert Stands(w, a);
      if a.conversationId in w.live {
        var i :| 0 <= i < |w.rows| && IsBoundTo(w.rows[i], a);
        assert IsBoundTo(v.rows[i], a);
      }
    }
    forall i | 0 <= i < |v.rows| && v.rows[i].status.Active?
      ensures exists n :: 0 <= n < |v.activations| && IsBoundTo(v.rows[i], v.activations[n])
    {
      assert w.rows[i].status.Active?;
    }
  }

  lemma IdsOfReplacement(w: Bindings, v: Bindings, k: nat, b: BindingRow)
    requires IdsKnown(w) && Replaces(w, v, k, b)
    requires v.fences == w.fences
    requires v.tokens == w.tokens || exists t: BindingReservation :: t.bindingId == b.id && v.tokens == w.tokens + [t]
    ensures IdsKnown(v)
  {
    assert w.rows[k].id in w.issued;
  }

  // ----- reserving -----

  /** Taking over an expired or failed binding issues a token whose lease is later than
      every current one. */
  lemma RebindKeepsFences(w: Bindings, v: Bindings, k: nat, now: Time, leaseSeconds: LeaseSeconds)
    requires Fenced(w) && k < |w.rows| && !w.rows[k].status.Active? && !HoldsLease(w.rows[k], now) && w.rows[k].DatabaseChecks()
    requires forall i :: 0 <= i < |w.rows| && i != k ==> w.rows[i].id != w.rows[k].id
    requires v.rows == w.rows[k := Rebound(w.rows[k], now + leaseSeconds)] && v.fences == w.fences
    requires v.tokens == w.tokens + [BindingReservation(w.rows[k].id, BindingReserved, None, Some(now + leaseSeconds))]
    ensures Fenced(v)
  {
    var id, last := w.rows[k].id, |w.tokens|;
    assert RowFenced(w, w.rows[k]);
    forall i | 0 <= i < last && Current(w, id, i) ensures w.tokens[i].lease.value < now + leaseSeconds {
    }
    forall i | 0 <= i < |v.rows| ensures RowFenced(v, v.rows[i]) {
      assert RowFenced(w, w.rows[i]);
      if i == k {
        forall j | 0 <= j < |v.tokens| && Current(v, id, j) ensures v.tokens[j].lease.value <= now + leaseSeconds {
          if j < last { assert Current(w, id, j); }
        }
      } else {
        forall j | 0 <= j < |v.tokens| && Current(v, v.rows[i].id, j) ensures j < last && Current(w, v.rows[i].id, j) {
        }
      }
    }
    forall i, j | 0 <= i < j < |v.tokens| && Current(v, v.tokens[j].bindingId, i)
      ensures v.tokens[i].lease.value < v.tokens[j].lease.value
    {
      if j == last { assert Current(w, id, i); }
    }
  }

  lemma InsertKeepsFences(w: Bindings, v: Bindings, b: BindingRow)
    requires Fenced(w) && IdsKnown(w) && b.id !in w.issued && b.status.Binding? && b.lease.Some?
    requires v.rows == w.rows + [b] && v.fences == w.fences
    requires v.tokens == w.tokens + [BindingReservation(b.id, BindingReserved, None, b.lease)]
    ensures Fenced(v)
  {
    forall i | 0 <= i < |v.rows| ensures RowFenced(v, v.rows[i]) {
      if i < |w.rows| {
        assert RowFenced(w, w.rows[i]);
        forall j | 0 <= j < |v.tokens| && Current(v, v.rows[i].id, j) ensures j < |w.tokens| && Current(w, v.rows[i].id, j) {
        }
      }
    }
  }

  lemma InsertKeepsLog(w: Bindings, v: Bindings, b: BindingRow)
    requires Logged(w) && b.id !in w.issued && !b.status.Active?
    requires v.rows == w.rows + [b] && v.live == w.live && v.known == w.known && w.issued <= v.issued && v.activations == w.activations
    ensures Logged(v)
  {
    forall n | 0 <= n < |v.activations| ensures Stands(v, v.activations[n]) {
      var a := v.activations[n];
      assert Stands(w, a);
      if a.conversationId in w.live {
        var i :| 0 <= i < |w.rows| && IsBoundTo(w.rows[i], a);
        assert IsBoundTo(v.rows[i], a);
      }
    }
    forall i | 0 <= i < |v.rows| && v.rows[i].status.Active?
      ensures exists n :: 0 <= n < |v.activations| && IsBoundTo(v.rows[i], v.activations[n])
    {
      assert w.rows[i].status.Active?;
    }
  }

  lemma InvParts(w: Bindings)
    requires Inv(w)
    ensures BindingTable(w.rows, w.live) && IdsKnown(w) && Fenced(w) && Logged(w)
  {
    hide BindingTable, IdsKnown, Fenced, Logged;
  }

  lemma FreshIsNew(w: Bindings, freshId: Id)
    requires IdsKnown(w) && freshId !in w.issued
    ensures forall i :: 0 <= i < |w.rows| ==> w.rows[i].id != freshId
  {
  }

  lemma MoreIssued(w: Bindings, v: Bindings)
    requires Inv(w) && v == w.(issued := v.issued) && w.issued <= v.issued
    ensures Inv(v)
  {
    hide BindingTable;
    InvParts(w);
    forall k | 0 <= k < |v.rows| ensures RowFenced(v, v.rows[k]) {
      assert RowFenced(w, w.rows[k]);
      assert forall i :: 0 <= i < |w.tokens| ==> Current(v, v.rows[k].id, i) == Current(w, v.rows[k].id, i);
    }
    assert forall i, j :: 0 <= i < j < |w.tokens| ==> Current(v, v.tokens[j].bindingId, i) == Current(w, w.tokens[j].bindingId, i);
    forall n | 0 <= n < |v.activations| ensures Stands(v, v.activations[n]) {
      assert Stands(w, v.activations[n]);
    }
  }

  lemma ReserveKeeps(w: Bindings, identity: string, now: Time, freshId: Id, leaseSeconds: LeaseSeconds)
    requires Inv(w) && freshId !in w.issued
    ensures Inv(ReserveStep(w, identity, now, freshId, leaseSeconds))
  {
    hide Inv, BindingTable, IdsKnown, Fenced, Logged, ValidHmac, BindingRow.DatabaseChecks;
    InvParts(w);
    FreshIsNew(w, freshId);
    ReserveKeepsTable(w.rows, identity, now, freshId, leaseSeconds, w.live);
    var v := ReserveStep(w, identity, now, freshId, leaseSeconds);
    var k := IndexWhere(HasIdentity(identity), w.rows);
    if ValidHmac(identity) && k == |w.rows| {
      InsertKeeps(w, v, v.rows[|w.rows|], freshId);
    } else if ValidHmac(identity) && !w.rows[k].status.Active? && !HoldsLease(w.rows[k], now) {
      TableMeans(w, k);
      RebindKeeps(w, v, k, now, leaseSeconds);
    } else {
      NoTokenIssued(w, identity, now, freshId, leaseSeconds);
      MoreIssued(w, v);
    }
  }

  lemma NoTokenIssued(w: Bindings, identity: string, now: Time, freshId: Id, leaseSeconds: LeaseSeconds)
    requires var k := IndexWhere(HasIdentity(identity), w.rows);
      !ValidHmac(identity) || (k < |w.rows| && (w.rows[k].status.Active? || HoldsLease(w.rows[k], now)))
    ensures ReserveStep(w, identity, now, freshId, leaseSeconds) == w.(issued := w.issued + {freshId})
  {
    hide ValidHmac;
    assert w.tokens + [] == w.tokens;
  }

  lemma InvOfParts(w: Bindings)
    requires BindingTable(w.rows, w.live) && IdsKnown(w) && Fenced(w) && Logged(w)
    ensures Inv(w)
  {
    hide BindingTable, IdsKnown, Fenced, Logged;
  }

  lemma InsertKeeps(w: Bindings, v: Bindings, b: BindingRow, freshId: Id)
    requires Inv(w) && freshId !in w.issued && b.id == freshId && b.status.Binding? && b.lease.Some?
    requires v.rows == w.rows + [b] && v.live == w.live && v.known == w.known && v.fences == w.fences
    requires v.issued == w.issued + {freshId} && v.activations == w.activations
    requires v.tokens == w.tokens + [BindingReservation(b.id, BindingReserved, None, b.lease)]
    requires BindingTable(v.rows, v.live)
    ensures Inv(v)
  {
    hide BindingTable, Fenced, Logged;
    InvParts(w);
    InsertKeepsFences(w, v, b);
    InsertKeepsLog(w, v, b);
  }

  lemma RebindKeeps(w: Bindings, v: Bindings, k: nat, now: Time, leaseSeconds: LeaseSeconds)
    requires Inv(w) && k < |w.rows| && !w.rows[k].status.Active? && !HoldsLease(w.rows[k], now) && w.rows[k].DatabaseChecks()
    requires forall i :: 0 <= i < |w.rows| && i != k ==> w.rows[i].id != w.rows[k].id
    requires v.rows == w.rows[k := Rebound(w.rows[k], now + leaseSeconds)] && v.fences == w.fences
    requires v.tokens == w.tokens + [BindingReservation(w.rows[k].id, BindingReserved, None, Some(now + leaseSeconds))]
    requires v.live == w.live && v.known == w.known && w.issued <= v.issued && v.activations == w.activations
    requires BindingTable(v.rows, v.live)
    ensures Inv(v)
  {
    hide BindingTable, Fenced, Logged, IdsKnown, BindingRow.DatabaseChecks;
    InvParts(w);
    RebindKeepsFences(w, v, k, now, leaseSeconds);
    UnboundKeepsLog(w, v, k, v.rows[k]);
    IdsOfReplacement(w, v, k, v.rows[k]);
    InvOfParts(v);
  }

  // ----- activating -----

  lemma OwnedRow(w: Bindings, token: BindingReservation, now: Time) returns (k: nat)
    requires Inv(w)
    requires var i := IndexWhere(HasBindingId(token.bindingId), w.rows); i < |w.rows| && Owns(token, w.rows[i], now)
    ensures k == IndexWhere(HasBindingId(token.bindingId), w.rows) && k < |w.rows|
    ensures w.rows[k].id == token.bindingId && w.rows[k].status.Binding? && w.rows[k].DatabaseChecks()
    ensures forall i :: 0 <= i < |w.rows| && i != k ==> w.rows[i].id != w.rows[k].id
  {
    hide BindingRow.DatabaseChecks, Inv, BindingTable, IdsKnown, Fenced, Logged;
    k := IndexWhere(HasBindingId(token.bindingId), w.rows);
    InvParts(w);
    TableMeans(w, k);
  }

  /** Leaving BINDING without issuing a token keeps the fences. */
  lemma LeavingKeepsFences(w: Bindings, v: Bindings, k: nat, b: BindingRow)
    requires Fenced(w) && Replaces(w, v, k, b) && v.tokens == w.tokens
    requires forall i :: 0 <= i < |w.rows| && i != k ==> w.rows[i].id != w.rows[k].id
    requires (b.status.Active? && v.fences == w.fences) || (b.status.Failed? && v.fences == w.fences[b.id := |w.tokens|])
    ensures Fenced(v)
  {
    forall i | 0 <= i < |v.rows| ensures RowFenced(v, v.rows[i]) {
      assert RowFenced(w, w.rows[i]);
      if i != k {
        assert forall j :: 0 <= j < |w.tokens| ==> Current(v, v.rows[i].id, j) == Current(w, v.rows[i].id, j);
      }
    }
    forall i, j | 0 <= i < j < |v.tokens| && Current(v, v.tokens[j].bindingId, i)
      ensures v.tokens[i].lease.value < v.tokens[j].lease.value
    {
      assert Current(w, w.tokens[j].bindingId, i);
    }
  }

  lemma ActivationKeepsLog(w: Bindings, v: Bindings, k: nat, conversationId: Id, now: Time)
    requires Inv(w) && k < |w.rows| && w.rows[k].status.Binding?
    requires Replaces(w, v, k, Activated(w.rows[k], conversationId, now))
    requires forall i :: 0 <= i < |w.rows| && i != k ==> w.rows[i].id != w.rows[k].id
    requires conversationId in w.live && !ConversationTaken(w.rows, conversationId)
    requires v.activations == w.activations + [Activation(w.rows[k].id, conversationId)]
    ensures Logged(v)
  {
    hide Fenced, BindingTable;
    InvParts(w);
    var last := Activation(w.rows[k].id, conversationId);
    assert IsBoundTo(v.rows[k], last) && w.rows[k].id in w.issued;
    forall n | 0 <= n < |w.activations|
      ensures w.activations[n].bindingId != last.bindingId && w.activations[n].conversationId != conversationId
      ensures Stands(v, w.activations[n])
    {
      var a := w.activations[n];
      assert Stands(w, a);
      if a.conversationId in w.live {
        var i :| 0 <= i < |w.rows| && IsBoundTo(w.rows[i], a);
        assert IsBoundTo(v.rows[i], a);
      }
    }
    forall i | 0 <= i < |v.rows| && v.rows[i].status.Active?
      ensures exists n :: 0 <= n < |v.activations| && IsBoundTo(v.rows[i], v.activations[n])
    {
      if i == k {
        assert v.activations[|w.activations|] == last;
      } else {
        assert w.rows[i].status.Active?;
        var n :| 0 <= n < |w.activations| && IsBoundTo(w.rows[i], w.activations[n]);
        assert v.activations[n] == w.activations[n];
      }
    }
  }

  lemma ActivateKeeps(w: Bindings, token: BindingReservation, conversationId: Id, now: Time)
    requires Inv(w)
    ensures Inv(ActivateStep(w, token, conversationId, now))
  {
    hide Inv, BindingTable, IdsKnown, Fenced, Logged, ConversationTaken, BindingRow.DatabaseChecks;
    InvParts(w);
    ActivateKeepsTable(w.rows, token, conversationId, now, w.live);
    var v := ActivateStep(w, token, conversationId, now);
    var i := IndexWhere(HasBindingId(token.bindingId), w.rows);
    if ActivateBinding(w.rows, token, conversationId, now, w.live).result.Ok? {
      var k := OwnedRow(w, token, now);
      LeavingKeepsFences(w, v, k, v.rows[k]);
      ActivationKeepsLog(w, v, k, conversationId, now);
      IdsOfReplacement(w, v, k, v.rows[k]);
      InvOfParts(v);
    } else {
      assert w.activations + [] == w.activations;
      assert v == w;
    }
  }

  // ----- failing -----

  lemma FailureKeepsIds(w: Bindings, v: Bindings, k: nat, b: BindingRow)
    requires IdsKnown(w) && Replaces(w, v, k, b) && v.tokens == w.tokens && v.issued == w.issued
    requires v.fences == w.fences[b.id := |w.tokens|]
    ensures IdsKnown(v)
  {
    assert w.rows[k].id in w.issued;
  }

  lemma FailKeeps(w: Bindings, token: BindingReservation, errorCode: string, now: Time)
    requires Inv(w)
    ensures Inv(FailStep(w, token, errorCode, now))
  {
    hide Inv, BindingTable, IdsKnown, Fenced, Logged, ValidSafeErrorCode, BindingRow.DatabaseChecks;
    InvParts(w);
    FailKeepsTable(w.rows, token, errorCode, now, w.live);
    var v := FailStep(w, token, errorCode, now);
    if FailBinding(w.rows, token, errorCode, now).result.Ok? {
      var k := OwnedRow(w, token, now);
      LeavingKeepsFences(w, v, k, v.rows[k]);
      UnboundKeepsLog(w, v, k, v.rows[k]);
      FailureKeepsIds(w, v, k, v.rows[k]);
      InvOfParts(v);
    } else {
      assert v == w;
    }
  }

  // ----- conversations come and go -----

  lemma CreateKeeps(w: Bindings, freshId: Id)
    requires Inv(w) && freshId !in w.known
    ensures Inv(w.(live := w.live + {freshId}, known := w.known + {freshId}))
  {
    hide ValidHmac, ValidSafeErrorCode, BindingRow.DatabaseChecks;
    var v := w.(live := w.live + {freshId}, known := w.known + {freshId});
    InvParts(w);
    forall k | 0 <= k < |v.rows| ensures RowChecked(v.rows[k], v.live) && RowFenced(v, v.rows[k]) {
      assert RowChecked(w.rows[k], w.live);
      assert RowFenced(w, w.rows[k]);
      assert forall i :: 0 <= i < |w.tokens| ==> Current(v, v.rows[k].id, i) == Current(w, v.rows[k].id, i);
    }
    assert forall i, j :: 0 <= i < j < |w.tokens| ==> Current(v, v.tokens[j].bindingId, i) == Current(w, w.tokens[j].bindingId, i);
    forall n | 0 <= n < |v.activations| ensures Stands(v, v.activations[n]) {
      assert Stands(w, v.activations[n]);
    }
  }

  lemma PurgeKeepsFences(w: Bindings, conversationId: Id)
    requires Fenced(w)
    ensures Fenced(PurgeStep(w, conversationId))
  {
    var v := PurgeStep(w, conversationId);
    WithoutConversationMembers(w.rows, conversationId);
    forall k | 0 <= k < |v.rows| ensures RowFenced(v, v.rows[k]) {
      assert v.rows[k] in w.rows;
      var i :| 0 <= i < |w.rows| && w.rows[i] == v.rows[k];
      assert RowFenced(w, w.rows[i]);
      assert forall j :: 0 <= j < |w.tokens| ==> Current(v, v.rows[k].id, j) == Current(w, v.rows[k].id, j);
    }
    assert forall i, j :: 0 <= i < j < |w.tokens| ==> Current(v, v.tokens[j].bindingId, i) == Current(w, w.tokens[j].bindingId, i);
  }

  lemma PurgeKeepsStanding(w: Bindings, conversationId: Id, a: Activation)
    requires BindingTable(w.rows, w.live) && Stands(w, a)
    ensures Stands(PurgeStep(w, conversationId), a)
  {
    var v := PurgeStep(w, conversationId);
    WithoutConversationMembers(w.rows, conversationId);
    if a.conversationId in w.live {
      var i :| 0 <= i < |w.rows| && IsBoundTo(w.rows[i], a);
      TableMeans(w, i);
      hide BindingTable;
      if a.conversationId != conversationId {
        assert w.rows[i] in v.rows;
        var j :| 0 <= j < |v.rows| && v.rows[j] == w.rows[i];
        assert IsBoundTo(v.rows[j], a);
      } else {
        forall j | 0 <= j < |v.rows| ensures v.rows[j].id != a.bindingId {
          assert v.rows[j] in w.rows;
        }
      }
    } else {
      forall j | 0 <= j < |v.rows| ensures v.rows[j].id != a.bindingId {
        assert v.rows[j] in w.rows;
      }
    }
  }

  lemma PurgeKeeps(w: Bindings, conversationId: Id)
    requires Inv(w)
    ensures Inv(PurgeStep(w, conversationId))
  {
    hide BindingTable, Fenced, Stands;
    var v := PurgeStep(w, conversationId);
    InvParts(w);
    CascadeKeepsOrder(w.rows, conversationId, w.live);
    PurgeKeepsFences(w, conversationId);
    WithoutConversationMembers(w.rows, conversationId);
    forall k | 0 <= k < |v.rows| ensures v.rows[k] in w.rows {
    }
    forall n | 0 <= n < |v.activations| ensures Stands(v, v.activations[n]) {
      PurgeKeepsStanding(w, conversationId, w.activations[n]);
    }
  }

  lemma StepKeeps(w: Bindings, e: BindingEvent, leaseSeconds: LeaseSeconds)
    requires Inv(w)
    ensures Inv(Step(w, e, leaseSeconds))
  {
    hide Inv, ReserveStep, ActivateStep, FailStep, PurgeStep;
    if Enabled(w, e) {
      match e
      case Reserve(identity, now, freshId) => ReserveKeeps(w, identity, now, freshId, leaseSeconds);
      case CreateConversation(freshId) => CreateKeeps(w, freshId);
      case Activate(token, conversationId, now) => ActivateKeeps(w, w.tokens[token], conversationId, now);
      case Fail(token, errorCode, now) => FailKeeps(w, w.tokens[token], errorCode, now);
      case PurgeConversation(conversationId) => PurgeKeeps(w, conversationId);
    }
  }

  lemma {:induction false} RunKeeps(w: Bindings, events: seq<BindingEvent>, leaseSeconds: LeaseSeconds)
    requires Inv(w)
    ensures Inv(Run(w, events, leaseSeconds))
  {
    hide Inv, Step;
    if events != [] {
      RunKeeps(w, events[..|events| - 1], leaseSeconds);
      StepKeeps(Run(w, events[..|events| - 1], leaseSeconds), events[|events| - 1], leaseSeconds);
    }
  }

  lemma EmptyInv()
    ensures Inv(NO_BINDINGS)
  {
  }
}
