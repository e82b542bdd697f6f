/** The promises of the binding protocol, for every run and arbitrary clocks. */
module ChannelBindingTheorems {
  import opened Wrappers
  import opened Sequences
  import opened ChatModels
  import opened ChannelBinding
  import opened ChannelBindingProtocol

  function Reached(events: seq<BindingEvent>, leaseSeconds: LeaseSeconds): Bindings {
    Run(NO_BINDINGS, events, leaseSeconds)
  }

  lemma ReachedKeeps(events: seq<BindingEvent>, leaseSeconds: LeaseSeconds)
    ensures Inv(Reached(events, leaseSeconds))
  {
    hide Inv, Run;
    EmptyInv();
    RunKeeps(NO_BINDINGS, events, leaseSeconds);
  }

  // ----- ACTIVE is absorbing -----

  /** Every active row of `w` whose conversation still lives in `v` is in `v` unchanged. */
  ghost predicate KeepsActive(w: Bindings, v: Bindings) {
    && v.live * w.known <= w.live && w.known <= v.known
    && forall b :: b in w.rows && b.status.Active? && b.conversationId.Some? && b.conversationId.value in v.live ==> b in v.rows
  }

  lemma ReplaceKeepsActive(rows: seq<BindingRow>, k: nat, b: BindingRow)
    requires k < |rows| && !rows[k].status.Active?
    ensures forall a :: a in rows && a.status.Active? ==> a in rows[k := b]
  {
    forall a | a in rows && a.status.Active? ensures a in rows[k := b] {
      var i :| 0 <= i < |rows| && rows[i] == a;
      assert rows[k := b][i] == a;
    }
  }

  lemma StepKeepsActive(w: Bindings, e: BindingEvent, leaseSeconds: LeaseSeconds)
    requires Inv(w)
    ensures KeepsActive(w, Step(w, e, leaseSeconds))
  {
    hide Inv, ValidHmac, ValidSafeErrorCode, ConversationTaken;
    var v := Step(w, e, leaseSeconds);
    if Enabled(w, e) {
      match e
      case Reserve(identity, _, _) =>
        var k := IndexWhere(HasIdentity(identity), w.rows);
        if k < |w.rows| && !w.rows[k].status.Active? && v.rows != w.rows {
          ReplaceKeepsActive(w.rows, k, v.rows[k]);
        }
      case CreateConversation(_) =>
      case Activate(token, _, _) =>
        var k := IndexWhere(HasBindingId(w.tokens[token].bindingId), w.rows);
        if v.rows != w.rows {
          ReplaceKeepsActive(w.rows, k, v.rows[k]);
        }
      case Fail(token, _, _) =>
        var k := IndexWhere(HasBindingId(w.tokens[token].bindingId), w.rows);
        if v.rows != w.rows {
          ReplaceKeepsActive(w.rows, k, v.rows[k]);
        }
      case PurgeConversation(conversationId) => WithoutConversationMembers(w.rows, conversationId);
    }
  }

  /** ACTIVE is absorbing: whatever handlers with whatever clocks do, an active binding
      keeps its row, its conversation included, until that conversation is purged. */
  lemma {:induction false} ActiveIsAbsorbing(w: Bindings, events: seq<BindingEvent>, leaseSeconds: LeaseSeconds)
    requires Inv(w)
    ensures KeepsActive(w, Run(w, events, leaseSeconds))
  {
    hide Inv, Step;
    if events != [] {
      var early := events[..|events| - 1];
      var before := Run(w, early, leaseSeconds);
      RunKeeps(w, early, leaseSeconds);
      ActiveIsAbsorbing(w, early, leaseSeconds);
      StepKeepsActive(before, events[|events| - 1], leaseSeconds);
      ActiveConversationsLive(w);
    }
  }

  lemma ActiveConversationsLive(w: Bindings)
    requires Inv(w)
    ensures w.live <= w.known
    ensures forall b :: b in w.rows && b.conversationId.Some? ==> b.conversationId.value in w.live
  {
    hide Fenced, Logged, BindingRow.DatabaseChecks;
    forall b | b in w.rows && b.conversationId.Some? ensures b.conversationId.value in w.live {
      var k :| 0 <= k < |w.rows| && w.rows[k] == b;
      assert RowChecked(w.rows[k], w.live);
    }
  }

  /** A committed activation is never undone by its caller's `fail`, however late it comes
      and whatever happened in between: the call is rejected and changes nothing. */
  lemma ActivationIsNeverUndone(w: Bindings, token: nat, conversationId: Id, now: Time, events: seq<BindingEvent>,
                                errorCode: string, later: Time, leaseSeconds: LeaseSeconds)
    requires Inv(w) && token < |w.tokens|
    requires ActivateBinding(w.rows, w.tokens[token], conversationId, now, w.live).result.Ok?
    requires conversationId in Run(ActivateStep(w, w.tokens[token], conversationId, now), events, leaseSeconds).live
    ensures var v := Run(ActivateStep(w, w.tokens[token], conversationId, now), events, leaseSeconds);
      FailBinding(v.rows, w.tokens[token], errorCode, later) == BindingTx(v.rows, Err(BindingFailed))
  {
    hide Inv, Run, ConversationTaken, ValidSafeErrorCode;
    var u := ActivateStep(w, w.tokens[token], conversationId, now);
    var v := Run(u, events, leaseSeconds);
    ActivateKeeps(w, w.tokens[token], conversationId, now);
    RunKeeps(u, events, leaseSeconds);
    ActiveIsAbsorbing(u, events, leaseSeconds);
    var k := IndexWhere(HasBindingId(w.tokens[token].bindingId), w.rows);
    var b := u.rows[k];
    assert b in u.rows;
    var i :| 0 <= i < |v.rows| && v.rows[i] == b;
    IndexIs(v, i);
  }

  lemma IndexIs(w: Bindings, k: nat)
    requires Inv(w) && k < |w.rows|
    ensures IndexWhere(HasBindingId(w.rows[k].id), w.rows) == k
  {
    hide Inv, BindingTable, IdsKnown, Fenced, Logged;
    InvParts(w);
    IndexOfBinding(w, k);
  }

  /** No conversation is ever bound twice, and no binding is ever activated twice, over a
      whole run, purges included; and at any time two active bindings, which are of two
      identities, have two conversations. */
  lemma ConversationsAreNeverShared(events: seq<BindingEvent>, leaseSeconds: LeaseSeconds)
    ensures var w := Reached(events, leaseSeconds);
      && (forall n, m :: 0 <= n < m < |w.activations| ==>
            w.activations[n].conversationId != w.activations[m].conversationId
            && w.activations[n].bindingId != w.activations[m].bindingId)
      && (forall i, j :: 0 <= i < j < |w.rows| ==>
            w.rows[i].identity != w.rows[j].identity && !ShareConversation(w.rows[i], w.rows[j]))
  {
    hide Run, Fenced, IdsKnown, RowChecked, Stands, IsBoundTo;
    ReachedKeeps(events, leaseSeconds);
  }

  // ----- fencing -----

  /** Between two failures of a binding the leases handed out for it strictly increase;
      a reserver displaced by a later one can neither activate nor fail it, at any clock. */
  lemma DisplacedIsFenced(w: Bindings, i: nat, j: nat, conversationId: Id, errorCode: string, now: Time)
    requires Inv(w) && i < j < |w.tokens| && w.tokens[i].bindingId == w.tokens[j].bindingId
    requires Current(w, w.tokens[j].bindingId, i)
    ensures w.tokens[i].lease.Some? && w.tokens[j].lease.Some? && w.tokens[i].lease.value < w.tokens[j].lease.value
    ensures ActivateBinding(w.rows, w.tokens[i], conversationId, now, w.live) == BindingTx(w.rows, Err(BindingFailed))
    ensures FailBinding(w.rows, w.tokens[i], errorCode, now) == BindingTx(w.rows, Err(BindingFailed))
  {
    hide BindingTable, IdsKnown, Logged, ValidSafeErrorCode, ConversationTaken;
    assert IsToken(w.tokens[i]) && IsToken(w.tokens[j]);
    var k := IndexWhere(HasBindingId(w.tokens[i].bindingId), w.rows);
    if k < |w.rows| {
      assert RowFenced(w, w.rows[k]);
      assert Current(w, w.rows[k].id, j);
    }
  }

  /** Every reserver that takes over gets a lease later than all since the last failure. */
  lemma TakeoverIsLater(w: Bindings, identity: string, now: Time, freshId: Id, i: nat, leaseSeconds: LeaseSeconds)
    requires Inv(w) && i < |w.tokens|
    requires var r := ReserveBinding(w.rows, identity, now, freshId, leaseSeconds).result;
      r.Ok? && r.value.status.BindingReserved? && freshId !in w.issued && Current(w, r.value.bindingId, i)
    ensures var r := ReserveBinding(w.rows, identity, now, freshId, leaseSeconds).result;
      w.tokens[i].lease.Some? && r.value.lease.Some? && w.tokens[i].lease.value < r.value.lease.value
  {
    hide BindingTable, Logged, ValidHmac;
    assert IsToken(w.tokens[i]);
    var k := IndexWhere(HasIdentity(identity), w.rows);
    if k < |w.rows| {
      assert RowFenced(w, w.rows[k]);
      RowIsShaped(w, k);
    }
  }

  lemma RowIsShaped(w: Bindings, k: nat)
    requires BindingTable(w.rows, w.live) && k < |w.rows|
    ensures w.rows[k].DatabaseChecks()
  {
    hide BindingRow.DatabaseChecks;
    assert RowChecked(w.rows[k], w.live);
  }

  /** A reserver using its own clock activates exactly when the binding is still BINDING
      under its lease and the conversation exists and is free; the lease's expiry, taken
      from that clock, never decides. */
  lemma ActivationIsDecidedByLease(w: Bindings, token: BindingReservation, conversationId: Id, now: Time, leaseSeconds: LeaseSeconds)
    requires Inv(w) && IsToken(token) && token.lease.value == now + leaseSeconds
    requires conversationId in w.live && !ConversationTaken(w.rows, conversationId)
    ensures ActivateBinding(w.rows, token, conversationId, now, w.live).result.Ok?
      <==> exists k :: 0 <= k < |w.rows| && w.rows[k].id == token.bindingId && w.rows[k].status.Binding? && w.rows[k].lease == token.lease
  {
    hide Inv, ConversationTaken;
    forall k | 0 <= k < |w.rows| && w.rows[k].id == token.bindingId ensures IndexWhere(HasBindingId(token.bindingId), w.rows) == k {
      IndexIs(w, k);
    }
  }

  // ----- clocks that do not go back -----

  /** No reserver's clock is behind that of an earlier one. */
  predicate NeverBack(events: seq<BindingEvent>) {
    forall a, b :: 0 <= a < b < |events| && events[a].Reserve? && events[b].Reserve? ==> events[a].now <= events[b].now
  }

  predicate Reserved(events: seq<BindingEvent>, now: Time) {
    forall a :: 0 <= a < |events| && events[a].Reserve? ==> events[a].now <= now
  }

  /** No token of a binding is later than the lease in the table. */
  predicate RowIsLatest(tokens: seq<BindingReservation>, b: BindingRow) {
    b.status.Binding? && b.lease.Some? ==>
      forall i :: 0 <= i < |tokens| && tokens[i].bindingId == b.id && tokens[i].lease.Some? ==> tokens[i].lease.value <= b.lease.value
  }

  predicate Latest(w: Bindings) {
    forall k :: 0 <= k < |w.rows| ==> RowIsLatest(w.tokens, w.rows[k])
  }

  predicate NoneAfter(tokens: seq<BindingReservation>, lease: Time) {
    forall i :: 0 <= i < |tokens| && tokens[i].lease.Some? ==> tokens[i].lease.value <= lease
  }

  lemma TokenKeepsLatest(tokens: seq<BindingReservation>, token: BindingReservation, b: BindingRow)
    requires RowIsLatest(tokens, b) && token.bindingId != b.id
    ensures RowIsLatest(tokens + [token], b)
  {
  }

  lemma NewestIsLatest(tokens: seq<BindingReservation>, token: BindingReservation, b: BindingRow)
    requires b.lease.Some? && NoneAfter(tokens, b.lease.value) && token.lease == b.lease
    ensures RowIsLatest(tokens + [token], b)
  {
  }

  lemma ReserveKeepsLatest(w: Bindings, identity: string, now: Time, freshId: Id, leaseSeconds: LeaseSeconds)
    requires Inv(w) && freshId !in w.issued && Latest(w) && NoneAfter(w.tokens, now + leaseSeconds)
    ensures Latest(ReserveStep(w, identity, now, freshId, leaseSeconds))
    ensures NoneAfter(ReserveStep(w, identity, now, freshId, leaseSeconds).tokens, now + leaseSeconds)
  {
    hide ValidHmac, RowIsLatest, Fenced, Logged, RowChecked;
    var v := ReserveStep(w, identity, now, freshId, leaseSeconds);
    var k := IndexWhere(HasIdentity(identity), w.rows);
    assert w.tokens + [] == w.tokens;
    if |v.tokens| > |w.tokens| {
      var token := v.tokens[|w.tokens|];
      assert v.tokens == w.tokens + [token];
      forall i | 0 <= i < |v.rows| ensures RowIsLatest(v.tokens, v.rows[i]) {
        if i == k {
          NewestIsLatest(w.tokens, token, v.rows[i]);
        } else {
          assert v.rows[i] == w.rows[i] && v.rows[i].id != token.bindingId;
          TokenKeepsLatest(w.tokens, token, v.rows[i]);
        }
      }
    }
  }

  lemma OthersKeepLatest(w: Bindings, e: BindingEvent, leaseSeconds: LeaseSeconds)
    requires Latest(w) && !e.Reserve?
    ensures Latest(Step(w, e, leaseSeconds)) && Step(w, e, leaseSeconds).tokens == w.tokens
  {
    hide ConversationTaken, ValidSafeErrorCode, RowIsLatest;
    var v := Step(w, e, leaseSeconds);
    if e.PurgeConversation? {
      WithoutConversationMembers(w.rows, e.conversationId);
    }
    assert v.tokens == w.tokens;
    forall k | 0 <= k < |v.rows| ensures RowIsLatest(v.tokens, v.rows[k]) {
      assert v.rows[k] in w.rows || !v.rows[k].status.Binding?;
      if v.rows[k] in w.rows {
        var i :| 0 <= i < |w.rows| && w.rows[i] == v.rows[k];
        assert RowIsLatest(w.tokens, w.rows[i]);
        assert RowIsLatest(v.tokens, v.rows[k]);
      } else {
        LeavingIsLatest(v.tokens, v.rows[k]);
        assert RowIsLatest(v.tokens, v.rows[k]);
      }
    }
  }

  lemma LeavingIsLatest(tokens: seq<BindingReservation>, b: BindingRow)
    ensures !b.status.Binding? ==> RowIsLatest(tokens, b)
  {
  }

  lemma {:induction false} ForwardIsLatest(events: seq<BindingEvent>, now: Time, leaseSeconds: LeaseSeconds)
    requires NeverBack(events) && Reserved(events, now)
    ensures var w := Reached(events, leaseSeconds);
      Latest(w) && NoneAfter(w.tokens, now + leaseSeconds)
  {
    hide Step, Latest, NoneAfter, Reserved, Inv;
    if events == [] {
      NothingIsLatest(now + leaseSeconds, leaseSeconds);
    } else {
      var front, e := events[..|events| - 1], events[|events| - 1];
      var w := Reached(front, leaseSeconds);
      if e.Reserve? && Enabled(w, e) {
        ReservedBefore(events, now);
        ForwardIsLatest(front, e.now, leaseSeconds);
        ReachedKeeps(front, leaseSeconds);
        ReserveKeepsLatest(w, e.identity, e.now, e.freshId, leaseSeconds);
        ReserveSteps(w, e, leaseSeconds);
        LaterBound(Step(w, e, leaseSeconds).tokens, e.now + leaseSeconds, now + leaseSeconds);
      } else {
        FrontIsReserved(events, now);
        ForwardIsLatest(front, now, leaseSeconds);
        if e.Reserve? {
          DisabledStays(w, e, leaseSeconds);
        } else {
          OthersKeepLatest(w, e, leaseSeconds);
        }
      }
    }
  }

  lemma NothingIsLatest(lease: Time, leaseSeconds: LeaseSeconds)
    ensures Latest(Reached([], leaseSeconds)) && NoneAfter(Reached([], leaseSeconds).tokens, lease)
  {
    RunNone(NO_BINDINGS, leaseSeconds);
  }

  lemma ReservedBefore(events: seq<BindingEvent>, now: Time)
    requires events != [] && NeverBack(events) && Reserved(events, now) && events[|events| - 1].Reserve?
    ensures Reserved(events[..|events| - 1], events[|events| - 1].now) && events[|events| - 1].now <= now
    ensures NeverBack(events[..|events| - 1])
  {
    assert events[|events| - 1].now <= now;
    forall a | 0 <= a < |events| - 1 && events[..|events| - 1][a].Reserve? ensures events[a].now <= events[|events| - 1].now {
    }
  }

  lemma FrontIsReserved(events: seq<BindingEvent>, now: Time)
    requires events != [] && Reserved(events, now)
    ensures Reserved(events[..|events| - 1], now)
  {
  }

  lemma LaterBound(tokens: seq<BindingReservation>, a: Time, b: Time)
    requires NoneAfter(tokens, a) && a <= b
    ensures NoneAfter(tokens, b)
  {
  }

  lemma ReserveSteps(w: Bindings, e: BindingEvent, leaseSeconds: LeaseSeconds)
    requires e.Reserve? && Enabled(w, e)
    ensures Step(w, e, leaseSeconds) == ReserveStep(w, e.identity, e.now, e.freshId, leaseSeconds)
  {
    hide ReserveStep;
  }

  lemma DisabledStays(w: Bindings, e: BindingEvent, leaseSeconds: LeaseSeconds)
    requires !Enabled(w, e)
    ensures Step(w, e, leaseSeconds) == w
  {
  }

  lemma LatestReserve(events: seq<BindingEvent>) returns (now: Time)
    ensures Reserved(events, now)
  {
    now := 0;
    for n := 0 to |events|
      invariant Reserved(events[..n], now)
    {
      if events[n].Reserve? && events[n].now > now {
        now := events[n].now;
      }
      assert forall a :: 0 <= a < n ==> events[..n + 1][a] == events[..n][a];
    }
    assert events[..|events|] == events;
  }

  /** When no reserver's clock is behind an earlier one's, failures do not weaken the fence: a
      reserver whose binding was ever handed out under a later lease can neither activate nor
      fail it, at any clock. */
  lemma ForwardClocksFence(events: seq<BindingEvent>, i: nat, j: nat, conversationId: Id, errorCode: string, now: Time, leaseSeconds: LeaseSeconds)
    requires NeverBack(events)
    requires var w := Reached(events, leaseSeconds);
      && i < |w.tokens| && j < |w.tokens| && w.tokens[i].bindingId == w.tokens[j].bindingId
      && w.tokens[i].lease.Some? && w.tokens[j].lease.Some? && w.tokens[i].lease.value < w.tokens[j].lease.value
    ensures var w := Reached(events, leaseSeconds);
      && ActivateBinding(w.rows, w.tokens[i], conversationId, now, w.live) == BindingTx(w.rows, Err(BindingFailed))
      && FailBinding(w.rows, w.tokens[i], errorCode, now) == BindingTx(w.rows, Err(BindingFailed))
  {
    hide Reached, NoneAfter, NeverBack, ConversationTaken, ValidSafeErrorCode;
    var latest := LatestReserve(events);
    ForwardIsLatest(events, latest, leaseSeconds);
    var w := Reached(events, leaseSeconds);
    var k := IndexWhere(HasBindingId(w.tokens[i].bindingId), w.rows);
    if k < |w.rows| {
      assert RowIsLatest(w.tokens, w.rows[k]);
    }
  }

  // ----- a lease handed out twice -----

  function ReuseRow(identity: string, lease: Time): BindingRow {
    BindingRow(1, identity, Binding, None, Some(lease), None, None)
  }

  function ReuseToken(lease: Time): BindingReservation {
    BindingReservation(1, BindingReserved, None, Some(lease))
  }

  /** Two reservers in turn: the second takes over when the first lease has expired. */
  function TakenOver(identity: string, n: LeaseSeconds): Bindings {
    Bindings([ReuseRow(identity, n + n)], {}, {1, 2}, {}, [ReuseToken(n), ReuseToken(n + n)], map[], [])
  }

  /** The second fails; a third whose clock is behind gets the first one's lease. */
  function ReusedLease(identity: string, n: LeaseSeconds): Bindings {
    Bindings([ReuseRow(identity, n)], {}, {1, 2, 3}, {}, [ReuseToken(n), ReuseToken(n + n), ReuseToken(n)], map[1 := 2], [])
  }

  function FirstLease(identity: string, n: LeaseSeconds): Bindings {
    Bindings([ReuseRow(identity, n)], {}, {1}, {}, [ReuseToken(n)], map[], [])
  }

  lemma ReachFirstLease(identity: string, n: LeaseSeconds)
    requires ValidHmac(identity)
    ensures ReserveBinding([], identity, 0, 1, n).result == Ok(ReuseToken(n))
    ensures Step(NO_BINDINGS, Reserve(identity, 0, 1), n) == FirstLease(identity, n)
  {
    hide ValidHmac;
  }

  lemma ReachTakenOver(identity: string, n: LeaseSeconds)
    requires ValidHmac(identity)
    ensures ReserveBinding(FirstLease(identity, n).rows, identity, n, 2, n).result == Ok(ReuseToken(n + n))
    ensures Step(FirstLease(identity, n), Reserve(identity, n, 2), n) == TakenOver(identity, n)
  {
    hide ValidHmac;
    var first := FirstLease(identity, n);
    assert first.rows[0 := Rebound(first.rows[0], n + n)] == [ReuseRow(identity, n + n)];
  }

  function FailedReuse(identity: string, n: LeaseSeconds): Bindings {
    TakenOver(identity, n).(rows := [FailedRow(ReuseRow(identity, n + n), "BINDING_ACTIVATION_FAILED")], fences := map[1 := 2])
  }

  lemma FailureCodeIsSafe()
    ensures ValidSafeErrorCode("BINDING_ACTIVATION_FAILED")
  {
    var code := "BINDING_ACTIVATION_FAILED";
    forall i | 0 <= i < |code| ensures 'A' <= code[i] <= 'Z' || code[i] == '_' {
    }
  }

  lemma ReachFailedReuse(identity: string, n: LeaseSeconds)
    ensures Step(TakenOver(identity, n), Fail(1, "BINDING_ACTIVATION_FAILED", n), n) == FailedReuse(identity, n)
  {
    hide ValidSafeErrorCode;
    FailureCodeIsSafe();
    var w := TakenOver(identity, n);
    assert w.rows[0 := FailedRow(w.rows[0], "BINDING_ACTIVATION_FAILED")] == FailedReuse(identity, n).rows;
  }

  lemma ReachReusedLease(identity: string, n: LeaseSeconds)
    requires ValidHmac(identity)
    ensures ReserveBinding(FailedReuse(identity, n).rows, identity, 0, 3, n).result == Ok(ReuseToken(n))
    ensures Step(FailedReuse(identity, n), Reserve(identity, 0, 3), n) == ReusedLease(identity, n)
  {
    hide ValidHmac;
    var v := FailedReuse(identity, n);
    assert v.rows[0 := Rebound(v.rows[0], n)] == [ReuseRow(identity, n)];
  }

  /** The first reserver activates under the lease that is now the third one's. */
  function ReuseActive(identity: string, n: LeaseSeconds): BindingRow {
    Activated(ReuseRow(identity, n), 7, 0)
  }

  lemma ReuseActivates(identity: string, n: LeaseSeconds)
    ensures var w := ReusedLease(identity, n).(live := {7}, known := {7});
      && Step(ReusedLease(identity, n), CreateConversation(7), n) == w
      && ActivateBinding(w.rows, w.tokens[0], 7, 0, w.live) == BindingTx([ReuseActive(identity, n)], ReservationOf(ReuseActive(identity, n)))
  {
    var w := ReusedLease(identity, n).(live := {7}, known := {7});
    assert w.rows[0 := ReuseActive(identity, n)] == [ReuseActive(identity, n)];
  }

  lemma RunNone(w: Bindings, leaseSeconds: LeaseSeconds)
    ensures Run(w, [], leaseSeconds) == w
  {
  }
}
