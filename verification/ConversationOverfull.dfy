/** How a conversation becomes overfull: deliveries reserved one after the other, each as
    soon as the lease of the one before has run out, and none of them completed. */
module ConversationOverfull {
  import opened Wrappers
  import opened ChatModels
  import opened ConversationModels
  import opened ConversationStore
  import opened ConversationFacts
  import opened ConversationProtocol
  import opened ConversationCompletion
  import opened ConversationTheorems
  import opened ConversationProgress

  /** The clock of the n-th handler: the leases before it have just run out. */
  function Clock(first: Time, n: nat, settings: Settings): Time {
    first + n * settings.leaseSeconds
  }

  /** Handlers that reserve the requests in order, as exchanges `freshId`, `freshId + 1`,
      and so on, and stop. */
  function Abandoners(requests: seq<Request>, first: Time, freshId: Id, settings: Settings): seq<Event> {
    if requests == [] then []
    else
      var n := |requests| - 1;
      Abandoners(requests[..n], first, freshId, settings) + [ReserveEvent(requests[n], Clock(first, n, settings), freshId + n)]
  }

  predicate UnknownTo(rows: seq<Exchange>, request: Request) {
    forall k :: 0 <= k < |rows| ==> rows[k].key != request.deliveryId
  }

  /** Different deliveries to this conversation, none of which it knows. */
  predicate AllNew(w: World, requests: seq<Request>)
    requires w.conversation.Some?
  {
    && (forall i :: 0 <= i < |requests| ==> requests[i].conversationId == w.id && UnknownTo(w.conversation.value.rows, requests[i]))
    && (forall i, j :: 0 <= i < j < |requests| ==> requests[i].deliveryId != requests[j].deliveryId)
  }

  predicate IdsBelow(tickets: seq<Ticket>, freshId: Id) {
    forall t :: 0 <= t < |tickets| ==> tickets[t].reservation.exchangeId < freshId
  }

  predicate IsFree(rows: seq<Exchange>, now: Time) {
    rows != [] ==> !IsLeased(Newest(rows), now)
  }

  predicate KeysFollow(before: seq<Exchange>, requests: seq<Request>, rows: seq<Exchange>) {
    && |rows| == |before| + |requests|
    && (forall k :: 0 <= k < |before| ==> rows[k].key == before[k].key)
    && forall k :: |before| <= k < |rows| ==> rows[k].key == requests[k - |before|].deliveryId
  }

  /** What stands after the unanswered deliveries: their rows after those of before. */
  ghost predicate Piled(w: World, v: World, requests: seq<Request>, first: Time, freshId: Id, settings: Settings) {
    && w.conversation.Some? && v.conversation.Some? && v.id == w.id && Inv(v, settings)
    && v.conversation.value.expiresAt == w.conversation.value.expiresAt
    && KeysFollow(w.conversation.value.rows, requests, v.conversation.value.rows)
    && IdsBelow(v.tickets, freshId + |requests|)
    && IsFree(v.conversation.value.rows, Clock(first, |requests|, settings))
    && (requests != [] ==> InFlight(v))
  }

  lemma UnknownIsNotFound(rows: seq<Exchange>, request: Request)
    requires UnknownTo(rows, request)
    ensures FindByKey(rows, request.deliveryId).None?
  {
    FindByKeyOrigin(rows, request.deliveryId);
  }

  lemma NextClock(first: Time, n: nat, settings: Settings)
    ensures Clock(first, n + 1, settings) == Clock(first, n, settings) + settings.leaseSeconds
  {
    assert (n + 1) * settings.leaseSeconds == n * settings.leaseSeconds + settings.leaseSeconds;
  }

  /** One more delivery is reserved over the abandoned one before it. */
  lemma OneMore(v: World, request: Request, now: Time, freshId: Id, settings: Settings)
    requires Inv(v, settings) && v.conversation.Some? && request.conversationId == v.id && IdsBelow(v.tickets, freshId)
    requires now < v.conversation.value.expiresAt && UnknownTo(v.conversation.value.rows, request)
    requires IsFree(v.conversation.value.rows, now)
    ensures var u := Step(v, ReserveEvent(request, now, freshId), settings);
      && Inv(u, settings) && u.conversation.Some? && InFlight(u) && u.id == v.id && IdsBelow(u.tickets, freshId + 1)
      && u.conversation.value.expiresAt == v.conversation.value.expiresAt
      && |u.conversation.value.rows| == |v.conversation.value.rows| + 1
      && (forall k :: 0 <= k < |v.conversation.value.rows| ==> u.conversation.value.rows[k].key == v.conversation.value.rows[k].key)
      && Newest(u.conversation.value.rows).key == request.deliveryId
      && Newest(u.conversation.value.rows).lease == Some(now + settings.leaseSeconds)
  {
    hide Inv, FindByKey, HasProcessing, MaxOrdinal, ReservationFor, AbandonStale, ReserveStep, RequireActive, IsLeased;
    UnknownIsNotFound(v.conversation.value.rows, request);
    assert !Issued(v, freshId);
    NewDeliveryIsDecided(v, request, now, freshId, settings);
    ReservedIsInserted(v, request, now, freshId, settings);
    ReserveKeeps(v, request, now, freshId, settings);
  }

  lemma {:induction false} AbandonersPile(w: World, requests: seq<Request>, first: Time, freshId: Id, settings: Settings)
    requires Inv(w, settings) && w.conversation.Some? && AllNew(w, requests) && IdsBelow(w.tickets, freshId)
    requires IsFree(w.conversation.value.rows, first)
    requires requests != [] ==> Clock(first, |requests| - 1, settings) < w.conversation.value.expiresAt
    ensures Piled(w, Run(w, Abandoners(requests, first, freshId, settings), settings), requests, first, freshId, settings)
  {
    hide Inv, Step, InFlight, IsFree, AllNew, KeysFollow, IdsBelow, UnknownTo, Clock, Newest;
    ClockStarts(first, settings);
    if requests == [] {
      assert KeysFollow(w.conversation.value.rows, [], w.conversation.value.rows) by { NoneFollow(w.conversation.value.rows); }
    } else {
      var n := |requests| - 1;
      var front, events := requests[..n], Abandoners(requests, first, freshId, settings);
      NextClock(first, n, settings);
      if n > 0 { NextClock(first, n - 1, settings); }
      FrontIsNew(w, requests);
      AbandonersPile(w, front, first, freshId, settings);
      var v := Run(w, Abandoners(front, first, freshId, settings), settings);
      assert events[..|events| - 1] == Abandoners(front, first, freshId, settings);
      NextIsUnknown(w, requests, v.conversation.value.rows);
      var now := Clock(first, n, settings);
      OneMore(v, requests[n], now, freshId + n, settings);
      var u := Step(v, ReserveEvent(requests[n], now, freshId + n), settings);
      assert Run(w, events, settings) == u;
      KeysFollowOn(w.conversation.value.rows, requests, v.conversation.value.rows, u.conversation.value.rows);
      assert IsFree(u.conversation.value.rows, Clock(first, n + 1, settings)) by {
        LeaseRunsOut(u.conversation.value.rows, now + settings.leaseSeconds);
      }
    }
  }

  lemma ClockStarts(first: Time, settings: Settings)
    ensures Clock(first, 0, settings) == first
  {
  }

  lemma NoneFollow(rows: seq<Exchange>)
    ensures KeysFollow(rows, [], rows)
  {
  }

  lemma LeaseRunsOut(rows: seq<Exchange>, lease: Time)
    requires rows != [] && Newest(rows).lease == Some(lease)
    ensures IsFree(rows, lease)
  {
  }

  lemma NextIsUnknown(w: World, requests: seq<Request>, rows: seq<Exchange>)
    requires requests != [] && w.conversation.Some? && AllNew(w, requests)
    requires KeysFollow(w.conversation.value.rows, requests[..|requests| - 1], rows)
    ensures UnknownTo(rows, requests[|requests| - 1]) && requests[|requests| - 1].conversationId == w.id
  {
    var before := w.conversation.value.rows;
    assert UnknownTo(before, requests[|requests| - 1]);
    forall k | 0 <= k < |rows| ensures rows[k].key != requests[|requests| - 1].deliveryId {
      assert k < |before| || requests[..|requests| - 1][k - |before|] == requests[k - |before|];
    }
  }

  lemma FrontIsNew(w: World, requests: seq<Request>)
    requires requests != [] && w.conversation.Some? && AllNew(w, requests)
    ensures AllNew(w, requests[..|requests| - 1])
  {
  }

  lemma KeysFollowOn(before: seq<Exchange>, requests: seq<Request>, rows: seq<Exchange>, more: seq<Exchange>)
    requires requests != [] && KeysFollow(before, requests[..|requests| - 1], rows)
    requires |more| == |rows| + 1 && Newest(more).key == requests[|requests| - 1].deliveryId
    requires forall k :: 0 <= k < |rows| ==> more[k].key == rows[k].key
    ensures KeysFollow(before, requests, more)
  {
    forall k | |before| <= k < |more| ensures more[k].key == requests[k - |before|].deliveryId {
      if k < |rows| {
        assert requests[..|requests| - 1][k - |before|] == requests[k - |before|];
      }
    }
  }

  /** From any reachable conversation that is not being worked on: unanswered deliveries
      whose leases run out one after the other before it expires make it overfull as soon as
      they and the rows it had are `retained_exchange_limit` + 33. Then the last of them
      can no longer be completed by its own reserver, whatever the result. */
  lemma AbandonmentOverfills(w: World, requests: seq<Request>, first: Time, freshId: Id, chat: ChatResult, settings: Settings)
    requires Inv(w, settings) && w.conversation.Some? && AllNew(w, requests) && IdsBelow(w.tickets, freshId)
    requires IsFree(w.conversation.value.rows, first) && requests != []
    requires Clock(first, |requests| - 1, settings) < w.conversation.value.expiresAt
    requires chat.Valid() && Storable(chat)
    ensures var v := Run(w, Abandoners(requests, first, freshId, settings), settings);
      && Inv(v, settings) && InFlight(v)
      && TerminalCount(v.conversation.value.rows) == |w.conversation.value.rows| + |requests| - 1
      && (CompleteWith(v.conversation, Newest(v.tickets), chat, Newest(v.tickets).now, settings).result.Ok?
          <==> |w.conversation.value.rows| + |requests| < settings.retainedLimit + RETAINED_EXCHANGE_LIMIT + 1)
  {
    hide Inv, CompleteWith, InFlight, TerminalCount, ChatResult.Valid, Storable, Run, AllNew, IdsBelow, IsFree, Clock;
    hide Newest;
    AbandonersPile(w, requests, first, freshId, settings);
    var v := Run(w, Abandoners(requests, first, freshId, settings), settings);
    TerminalsInFlight(v, settings);
    CompletableIffNotOverfull(v, chat, settings);
  }

  // ----- from a new conversation -----

  function KeyOf(n: nat): (key: string)
    ensures |key| == n + 1 && NoControls(key)
  {
    seq(n + 1, i => 'd')
  }

  function Deliveries(id: Id, n: nat): (requests: seq<Request>)
    requires n <= 256
    ensures |requests| == n
    ensures forall i :: 0 <= i < n ==> requests[i].conversationId == id && |requests[i].deliveryId| == i + 1
  {
    if n == 0 then [] else Deliveries(id, n - 1) + [RequestData(id, KeyOf(n - 1), "q")]
  }

  /** Whatever the settings, a new conversation becomes overfull by retained_exchange_limit
      + 33 deliveries that nobody answers; its version is then 0 for as long as it lives. */
  lemma NewConversationOverfills(id: Id, start: Time, first: Time, later: seq<Event>, settings: Settings)
    requires Clock(first, settings.retainedLimit + RETAINED_EXCHANGE_LIMIT, settings) < start + settings.retentionSeconds
    ensures var events := Abandoners(Deliveries(id, settings.retainedLimit + RETAINED_EXCHANGE_LIMIT + 1), first, 0, settings);
      var v := Run(Initial(id, start, settings), events, settings);
      && |events| == settings.retainedLimit + RETAINED_EXCHANGE_LIMIT + 1
      && InFlight(v) && Overfull(v, settings)
      && var u := Run(v, later, settings);
         (u.conversation.Some? ==> Overfull(u, settings) && u.conversation.value.stateVersion == 0)
  {
    var w := Initial(id, start, settings);
    var n := settings.retainedLimit + RETAINED_EXCHANGE_LIMIT + 1;
    var requests := Deliveries(id, n);
    DeliveriesAreNew(id, start, n, settings);
    hide Inv, InFlight, TerminalCount, Run, AllNew, Clock, Deliveries, Initial, IdsBelow, IsFree, Abandoners;
    AbandonersPile(w, requests, first, 0, settings);
    AbandonersCount(requests, first, 0, settings);
    var v := Run(w, Abandoners(requests, first, 0, settings), settings);
    TerminalsInFlight(v, settings);
    NothingCompleted(id, start, requests, first, settings);
    OverfullIsForever(v, later, settings);
  }

  lemma DeliveriesAreNew(id: Id, start: Time, n: nat, settings: Settings)
    requires n <= 256
    ensures var w := Initial(id, start, settings);
      && Inv(w, settings) && w.conversation.Some? && w.conversation.value.rows == []
      && w.conversation.value.expiresAt == start + settings.retentionSeconds
      && AllNew(w, Deliveries(id, n)) && IdsBelow(w.tickets, 0) && forall now :: IsFree(w.conversation.value.rows, now)
  {
    InitialInv(id, start, settings);
    hide Inv, Deliveries;
  }

  lemma {:induction false} AbandonersCount(requests: seq<Request>, first: Time, freshId: Id, settings: Settings)
    ensures |Abandoners(requests, first, freshId, settings)| == |requests|
  {
    if requests != [] {
      AbandonersCount(requests[..|requests| - 1], first, freshId, settings);
    }
  }

  lemma {:induction false} NothingCompleted(id: Id, start: Time, requests: seq<Request>, first: Time, settings: Settings)
    ensures var v := Run(Initial(id, start, settings), Abandoners(requests, first, 0, settings), settings);
      v.conversation.Some? ==> v.conversation.value.stateVersion == 0
  {
    hide Step, Clock;
    if requests != [] {
      var n := |requests| - 1;
      var events := Abandoners(requests, first, 0, settings);
      NothingCompleted(id, start, requests[..n], first, settings);
      assert events[..|events| - 1] == Abandoners(requests[..n], first, 0, settings);
      ReserveKeepsVersion(Run(Initial(id, start, settings), Abandoners(requests[..n], first, 0, settings), settings),
        requests[n], Clock(first, n, settings), n, settings);
    }
  }

  lemma ReserveKeepsVersion(w: World, request: Request, now: Time, freshId: Id, settings: Settings)
    ensures var v := Step(w, ReserveEvent(request, now, freshId), settings);
      v.conversation.Some? ==> w.conversation.Some? && v.conversation.value.stateVersion == w.conversation.value.stateVersion
  {
    hide ReserveStep, ReserveTx, AbandonStale, ReservationFor, MaxOrdinal, FindByKey, HasProcessing;
    if request.conversationId == w.id {
      ReserveCases(w, request, now, freshId, settings);
    }
  }
}
