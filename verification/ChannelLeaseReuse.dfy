/** Leases are compared by value: a run of the whole system in which a reserver whose lease
    ran out, and was taken over, activates the binding under the lease of a later one. */
module ChannelLeaseReuse {
  import opened Wrappers
  import opened ChatModels
  import opened ChannelBinding
  import opened ChannelBindingTheorems
  import opened ChannelSystem
  import opened ChannelProgress
  import opened ChannelEffects
  import C = ConversationProtocol
  import B = ChannelBindingProtocol

  /** A message of three deliveries of one identity. */
  predicate SameIdentity(m0: Inbound, m1: Inbound, m2: Inbound) {
    m0.identity == m1.identity == m2.identity
  }

  function Arrival(h: nat, m: Inbound, now: Time, freshId: Id): seq<SystemEvent> {
    [Deliver(m, now), TakeBinding(h, freshId)]
  }

  /** The first handler reserves and is slow; the second takes over when that lease has ended,
      and gives up; the third reserves on a clock that is behind; then the first goes on. */
  function Reuse(m0: Inbound, m1: Inbound, m2: Inbound, n: LeaseSeconds): seq<SystemEvent> {
    Arrival(0, m0, 0, 1) + Arrival(1, m1, n, 2) + [PortFails(1), FailFor(1)] + Arrival(2, m2, 0, 3)
    + [CreateFor(0, 7), ActivateFor(0, false)]
  }

  lemma RunTwo(s: System, a: SystemEvent, b: SystemEvent, config: Configuration)
    ensures Run(s, [a, b], config) == Step(Step(s, a, config), b, config)
  {
    hide Step, Run;
    assert [a, b] == [a] + [b];
    RunConcat(s, [a], [b], config);
    RunOne(s, a, config);
    RunOne(Step(s, a, config), b, config);
  }

  lemma ArrivalTakes(s: System, m: Inbound, now: Time, freshId: Id, token: BindingReservation, config: Configuration)
    requires freshId !in s.bindings.issued && token.status.BindingReserved?
    requires ReserveBinding(s.bindings.rows, m.identity, now, freshId, config.leaseSeconds).result == Ok(token)
    ensures Run(s, Arrival(|s.handlers|, m, now, freshId), config)
      == s.(bindings := B.Step(s.bindings, B.Reserve(m.identity, now, freshId), config.leaseSeconds),
            handlers := s.handlers + [Handler(m, now, HasToken(|s.bindings.tokens|), None)])
  {
    hide Run, ReserveBinding, B.Step, InboundData.Valid;
    RunTwo(s, Deliver(m, now), TakeBinding(|s.handlers|, freshId), config);
  }

  lemma GivingUpFails(s: System, h: nat, token: nat, config: Configuration)
    requires h < |s.handlers| && s.handlers[h].at == HasToken(token)
    ensures Run(s, [PortFails(h), FailFor(h)], config)
      == s.(bindings := B.Step(s.bindings, B.Fail(token, "BINDING_ACTIVATION_FAILED", s.handlers[h].now), config.leaseSeconds),
            handlers := s.handlers[h := s.handlers[h].(at := Finished(ServiceUnavailable))])
  {
    hide Run, B.Step, InboundData.Valid;
    RunTwo(s, PortFails(h), FailFor(h), config);
  }

  lemma GoingOnActivates(s: System, h: nat, token: nat, c: Id, w: B.Bindings, row: BindingRow, config: Configuration)
    requires h < |s.handlers| && s.handlers[h].at == HasToken(token) && token < |s.bindings.tokens| && c !in s.conversations
    requires B.Step(s.bindings, B.CreateConversation(c), config.leaseSeconds) == w && w.tokens == s.bindings.tokens
    requires ActivateBinding(w.rows, w.tokens[token], c, s.handlers[h].now, w.live) == BindingTx([row], ReservationOf(row))
    requires ReservationOf(row).Ok?
    ensures var v := Run(s, [CreateFor(h, c), ActivateFor(h, false)], config);
      && |v.handlers| == |s.handlers| && (forall g :: 0 <= g < |s.handlers| && g != h ==> v.handlers[g] == s.handlers[g])
      && v.handlers[h].at == Bound(s.bindings.tokens[token].bindingId, c)
      && v.bindings.rows == [row] && v.bindings.tokens == s.bindings.tokens
  {
    hide Run, InboundData.Valid, ActivateBinding, C.Initial, ReservationOf;
    RunTwo(s, CreateFor(h, c), ActivateFor(h, false), config);
  }

  /** The state before the first handler goes on: it holds the token of a lease that was taken
      over, and the third handler holds a token with the same lease. */
  function BeforeReuse(m0: Inbound, m1: Inbound, m2: Inbound, n: LeaseSeconds): System {
    EMPTY_SYSTEM.(
      bindings := ReusedLease(m0.identity, n),
      handlers := [
        Handler(m0, 0, HasToken(0), None),
        Handler(m1, n, Finished(ServiceUnavailable), None),
        Handler(m2, 0, HasToken(2), None)])
  }

  lemma ReachBeforeReuse(m0: Inbound, m1: Inbound, m2: Inbound, config: Configuration)
    requires SameIdentity(m0, m1, m2)
    ensures var n := config.leaseSeconds;
      Run(EMPTY_SYSTEM, Arrival(0, m0, 0, 1) + Arrival(1, m1, n, 2) + [PortFails(1), FailFor(1)] + Arrival(2, m2, 0, 3), config)
      == BeforeReuse(m0, m1, m2, n)
  {
    hide Run, Step, B.Step, InboundData.Valid, ReserveBinding, Arrival, ValidHmac;
    var n: LeaseSeconds, identity := config.leaseSeconds, m0.identity;
    InboundIsHmac(m0);
    var a, b, f, c := Arrival(0, m0, 0, 1), Arrival(1, m1, n, 2), [PortFails(1), FailFor(1)], Arrival(2, m2, 0, 3);
    RunConcat(EMPTY_SYSTEM, a + b + f, c, config);
    RunConcat(EMPTY_SYSTEM, a + b, f, config);
    RunConcat(EMPTY_SYSTEM, a, b, config);
    ReachFirstLease(identity, n);
    ReachTakenOver(identity, n);
    ReachFailedReuse(identity, n);
    ReachReusedLease(identity, n);
    ArrivalTakes(EMPTY_SYSTEM, m0, 0, 1, ReuseToken(n), config);
    var s1 := Run(EMPTY_SYSTEM, a, config);
    ArrivalTakes(s1, m1, n, 2, ReuseToken(n + n), config);
    var s2 := Run(s1, b, config);
    GivingUpFails(s2, 1, 1, config);
    var s3 := Run(s2, f, config);
    ArrivalTakes(s3, m2, 0, 3, ReuseToken(n), config);
    assert Run(s3, c, config).handlers == BeforeReuse(m0, m1, m2, n).handlers;
  }

  /** A binding that failed can hand out an old lease again to a reserver whose clock is
      behind; then the reserver whose lease it was, long displaced, is bound by it. It needs a
      clock behind an earlier reserver's: on clocks that do not go back it cannot happen
      (ForwardClocksFence). */
  lemma LeaseReuseAfterFailure(m0: Inbound, m1: Inbound, m2: Inbound, config: Configuration)
    requires SameIdentity(m0, m1, m2)
    ensures var n := config.leaseSeconds;
      var v := Run(EMPTY_SYSTEM, Reuse(m0, m1, m2, n), config);
      && |v.handlers| == 3
      && v.handlers[0].at == Bound(1, 7) && v.handlers[2] == Handler(m2, 0, HasToken(2), None)
      && v.bindings.tokens == [ReuseToken(n), ReuseToken(n + n), ReuseToken(n)]
      && v.bindings.rows == [ReuseActive(m0.identity, n)]
  {
    hide Run, Step, B.Step, InboundData.Valid, ActivateBinding, Arrival;
    var n := config.leaseSeconds;
    ReachBeforeReuse(m0, m1, m2, config);
    ReuseActivates(m0.identity, n);
    var s := BeforeReuse(m0, m1, m2, n);
    RunConcat(EMPTY_SYSTEM, Arrival(0, m0, 0, 1) + Arrival(1, m1, n, 2) + [PortFails(1), FailFor(1)] + Arrival(2, m2, 0, 3),
      [CreateFor(0, 7), ActivateFor(0, false)], config);
    GoingOnActivates(s, 0, 0, 7, ReusedLease(m0.identity, n).(live := {7}, known := {7}), ReuseActive(m0.identity, n), config);
  }
}
