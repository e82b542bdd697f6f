/** The bounded recipient registry: `OfficialBotRecipientRegistry` of
    src/legal_chatbot/channels/recipients.py. */
module ChannelRecipients {
  import opened Wrappers
  import opened Sequences

  type ChatId = nat

  /** One entry of the ordered dictionary, oldest first. */
  datatype Entry = Entry(identity: string, chat: ChatId)

  predicate Keyed(entries: seq<Entry>) {
    forall i, j :: 0 <= i < j < |entries| ==> entries[i].identity != entries[j].identity
  }

  /** pop(identity, None) */
  function Without(entries: seq<Entry>, identity: string): seq<Entry> {
    if entries == [] then []
    else
      var rest := Without(entries[..|entries| - 1], identity);
      if entries[|entries| - 1].identity == identity then rest else rest + [entries[|entries| - 1]]
  }

  /** get(identity) */
  function Find(entries: seq<Entry>, identity: string): Option<ChatId> {
    if entries == [] then None
    else if entries[|entries| - 1].identity == identity then Some(entries[|entries| - 1].chat)
    else Find(entries[..|entries| - 1], identity)
  }

  /** The entries after remember(): the identity becomes the newest, the oldest go. */
  function Remembered(entries: seq<Entry>, maximum: nat, identity: string, chat: ChatId): seq<Entry> {
    Last(Without(entries, identity) + [Entry(identity, chat)], maximum)
  }

  /** while len > maximum: popitem(last=False) */
  method Evicted(entries: seq<Entry>, maximum: nat) returns (kept: seq<Entry>)
    ensures kept == Last(entries, maximum)
  {
    kept := entries;
    while |kept| > maximum
      invariant |kept| <= |entries| && Last(kept, maximum) == Last(entries, maximum)
    {
      LastOfTail(kept, maximum);
      kept := kept[1..];
    }
  }

  class Registry {
    const maximum: nat
    var recipients: seq<Entry>
    var bound: Registry?
    /** The registries a call may be forwarded to, this one included. */
    ghost var Chain: set<Registry>

    ghost predicate Valid()
      reads this, Chain
      decreases Chain
    {
      && this in Chain && Keyed(recipients)
      && (bound != null ==> bound in Chain && bound.Chain <= Chain && this !in bound.Chain && bound.Valid())
    }

    /** The registry that calls finally reach. */
    ghost function Target(): (r: Registry)
      requires Valid()
      reads this, Chain
      ensures r in Chain && r.Valid() && r.bound == null
      decreases Chain
    {
      if bound == null then this else bound.Target()
    }

    constructor (maximum: nat)
      ensures Valid() && fresh(Chain) && recipients == [] && bound == null && this.maximum == maximum
    {
      this.maximum := maximum;
      recipients := [];
      bound := null;
      Chain := {this};
    }

    method Bind(target: Registry)
      requires Valid() && target.Valid() && this !in target.Chain
      modifies this
      ensures Valid() && Target() == target.Target() && recipients == old(recipients)
    {
      bound := target;
      Chain := {this} + target.Chain;
    }

    method Unbind()
      requires Valid()
      modifies this
      ensures Valid() && Target() == this && recipients == old(recipients)
    {
      bound := null;
    }

    method Remember(identity: string, chat: ChatId)
      requires Valid()
      modifies Chain
      ensures Valid() && Target() == old(Target())
      ensures Target().recipients == Remembered(old(Target().recipients), Target().maximum, identity, chat)
      ensures forall r :: r in old(Chain) && r != Target() ==> unchanged(r)
      ensures Target().Chain == old(Target().Chain) && Target().bound == null && Chain == old(Chain) && bound == old(bound)
      decreases Chain
    {
      hide Keyed, Without, Last;
      if bound != null {
        bound.Remember(identity, chat);
        return;
      }
      RememberedIsKeyed(recipients, maximum, identity, chat);
      var kept := Evicted(Without(recipients, identity) + [Entry(identity, chat)], maximum);
      recipients := kept;
    }

    method Resolve(identity: string) returns (chat: Option<ChatId>)
      requires Valid()
      ensures chat == Find(Target().recipients, identity)
      decreases Chain
    {
      if bound != null {
        chat := bound.Resolve(identity);
        return;
      }
      chat := Find(recipients, identity);
    }

    method Clear(identity: Option<string>)
      requires Valid()
      modifies Chain
      ensures Valid() && Target() == old(Target())
      ensures Target().recipients == Cleared(old(Target().recipients), identity)
      ensures forall r :: r in old(Chain) && r != Target() ==> unchanged(r)
      ensures Target().Chain == old(Target().Chain) && Target().bound == null && Chain == old(Chain) && bound == old(bound)
      decreases Chain
    {
      if bound != null {
        bound.Clear(identity);
        return;
      }
      if identity.None? {
        recipients := [];
      } else {
        WithoutIsKeyed(recipients, identity.value);
        recipients := Without(recipients, identity.value);
      }
    }
  }

  function Cleared(entries: seq<Entry>, identity: Option<string>): seq<Entry> {
    if identity.None? then [] else Without(entries, identity.value)
  }

  lemma LastOfTail<T>(s: seq<T>, n: nat)
    requires |s| > n
    ensures Last(s[1..], n) == Last(s, n)
  {
  }

  // ----- the dictionary -----

  lemma {:induction false} WithoutMembers(entries: seq<Entry>, identity: string)
    ensures forall e :: e in Without(entries, identity) <==> e in entries && e.identity != identity
    ensures |Without(entries, identity)| <= |entries|
  {
    if entries != [] {
      WithoutMembers(entries[..|entries| - 1], identity);
      assert entries == entries[..|entries| - 1] + [entries[|entries| - 1]];
    }
  }

  lemma {:induction false} WithoutIsKeyed(entries: seq<Entry>, identity: string)
    requires Keyed(entries)
    ensures Keyed(Without(entries, identity))
  {
    if entries != [] {
      var front, last := entries[..|entries| - 1], entries[|entries| - 1];
      WithoutIsKeyed(front, identity);
      WithoutMembers(front, identity);
      var rest := Without(front, identity);
      forall i | 0 <= i < |rest| ensures rest[i].identity != last.identity {
        assert rest[i] in front;
      }
    }
  }

  lemma RememberedIsKeyed(entries: seq<Entry>, maximum: nat, identity: string, chat: ChatId)
    requires Keyed(entries)
    ensures Keyed(Remembered(entries, maximum, identity, chat)) && |Remembered(entries, maximum, identity, chat)| <= maximum
  {
    RemoveThenAppend(entries, Entry(identity, chat));
  }

  lemma {:induction false} FindWithout(entries: seq<Entry>, identity: string, other: string)
    ensures Find(Without(entries, identity), other) == if other == identity then None else Find(entries, other)
  {
    if entries != [] {
      FindWithout(entries[..|entries| - 1], identity, other);
      var rest, last := Without(entries[..|entries| - 1], identity), entries[|entries| - 1];
      assert (rest + [last])[..|rest|] == rest;
    }
  }

  // ----- the history of calls -----

  /** The registry after a history of remember() calls on an empty one. */
  function AfterAll(history: seq<Entry>, maximum: nat): seq<Entry> {
    if history == [] then []
    else
      var last := history[|history| - 1];
      Remembered(AfterAll(history[..|history| - 1], maximum), maximum, last.identity, last.chat)
  }

  /** The same without a bound: every identity once, by its latest call. */
  function Unbounded(history: seq<Entry>): seq<Entry> {
    if history == [] then []
    else Without(Unbounded(history[..|history| - 1]), history[|history| - 1].identity) + [history[|history| - 1]]
  }

  lemma RemoveThenAppend(entries: seq<Entry>, last: Entry)
    requires Keyed(entries)
    ensures Keyed(Without(entries, last.identity) + [last])
  {
    WithoutIsKeyed(entries, last.identity);
    WithoutMembers(entries, last.identity);
    var rest := Without(entries, last.identity);
    forall i | 0 <= i < |rest| ensures rest[i].identity != last.identity {
      assert rest[i] in rest;
    }
  }

  lemma {:induction false} UnboundedIsKeyed(history: seq<Entry>)
    ensures Keyed(Unbounded(history))
  {
    if history != [] {
      UnboundedIsKeyed(history[..|history| - 1]);
      hide Keyed, Without;
      RemoveThenAppend(Unbounded(history[..|history| - 1]), history[|history| - 1]);
    }
  }

  lemma {:induction false} WithoutConcat(a: seq<Entry>, b: seq<Entry>, identity: string)
    ensures Without(a + b, identity) == Without(a, identity) + Without(b, identity)
  {
    if b == [] {
      assert a + b == a;
    } else {
      assert (a + b)[..|a + b| - 1] == a + b[..|b| - 1];
      WithoutConcat(a, b[..|b| - 1], identity);
    }
  }

  lemma {:induction false} WithoutAbsent(entries: seq<Entry>, identity: string)
    requires forall e :: e in entries ==> e.identity != identity
    ensures Without(entries, identity) == entries
  {
    if entries != [] {
      WithoutAbsent(entries[..|entries| - 1], identity);
      assert entries == entries[..|entries| - 1] + [entries[|entries| - 1]];
    }
  }

  lemma {:induction false} WithoutOne(entries: seq<Entry>, identity: string)
    requires Keyed(entries)
    ensures |Without(entries, identity)| >= |entries| - 1
  {
    if entries != [] {
      var front, last := entries[..|entries| - 1], entries[|entries| - 1];
      if last.identity == identity {
        forall e | e in front ensures e.identity != identity {
        }
        WithoutAbsent(front, identity);
      } else {
        WithoutOne(front, identity);
      }
    }
  }

  /** Forgetting the oldest first or last makes no difference. */
  lemma RememberAfterCut(entries: seq<Entry>, maximum: nat, identity: string, chat: ChatId)
    requires Keyed(entries)
    ensures Remembered(Last(entries, maximum), maximum, identity, chat)
         == Last(Without(entries, identity) + [Entry(identity, chat)], maximum)
  {
    if |entries| > maximum {
      var cut := |entries| - maximum;
      var gone, kept := entries[..cut], entries[cut..];
      assert entries == gone + kept;
      WithoutConcat(gone, kept, identity);
      var a, b, x := Without(gone, identity), Without(kept, identity), [Entry(identity, chat)];
      assert a + b + x == a + (b + x);
      WithoutOne(kept, identity);
      LastOfConcat(a, b + x, maximum);
    }
  }

  /** The registry is the unbounded dictionary cut to its newest entries. */
  lemma {:induction false} RegistryIsNewest(history: seq<Entry>, maximum: nat)
    ensures AfterAll(history, maximum) == Last(Unbounded(history), maximum)
  {
    if history != [] {
      var last := history[|history| - 1];
      RegistryIsNewest(history[..|history| - 1], maximum);
      UnboundedIsKeyed(history[..|history| - 1]);
      RememberAfterCut(Unbounded(history[..|history| - 1]), maximum, last.identity, last.chat);
      assert last == Entry(last.identity, last.chat);
    }
  }

  // ----- which identities those are -----

  /** The identities called in a history. */
  function Identities(history: seq<Entry>): set<string> {
    set i | 0 <= i < |history| :: history[i].identity
  }

  /** The last call for the identity, if any. */
  predicate IsLatest(history: seq<Entry>, i: nat, identity: string) {
    i < |history| && history[i].identity == identity && forall j :: i < j < |history| ==> history[j].identity != identity
  }

  lemma IdentitiesAppend(history: seq<Entry>, last: Entry)
    ensures Identities(history + [last]) == Identities(history) + {last.identity}
  {
    var all := history + [last];
    forall x | x in Identities(history) + {last.identity} ensures x in Identities(all) {
      if x in Identities(history) {
        var i :| 0 <= i < |history| && history[i].identity == x;
        assert all[i].identity == x;
      } else {
        assert all[|history|].identity == x;
      }
    }
  }

  lemma IdentitiesWithout(entries: seq<Entry>, identity: string)
    ensures Identities(Without(entries, identity)) == Identities(entries) - {identity}
  {
    WithoutMembers(entries, identity);
    var rest := Without(entries, identity);
    forall x | x in Identities(entries) - {identity} ensures x in Identities(rest) {
      var i :| 0 <= i < |entries| && entries[i].identity == x;
      assert entries[i] in rest;
    }
    forall x | x in Identities(rest) ensures x in Identities(entries) - {identity} {
      var i :| 0 <= i < |rest| && rest[i].identity == x;
      assert rest[i] in entries;
    }
  }

  lemma {:induction false} KeyedCounts(entries: seq<Entry>)
    requires Keyed(entries)
    ensures |Identities(entries)| == |entries|
  {
    if entries != [] {
      var front, last := entries[..|entries| - 1], entries[|entries| - 1];
      KeyedCounts(front);
      assert entries == front + [last];
      IdentitiesAppend(front, last);
      assert last.identity !in Identities(front);
    }
  }

  lemma LatestBefore(front: seq<Entry>, last: Entry, i: nat, identity: string)
    requires IsLatest(front + [last], i, identity)
    ensures last.identity == identity ==> i == |front|
    ensures last.identity != identity ==> IsLatest(front, i, identity)
  {
    var all := front + [last];
    assert all[|front|] == last;
    if last.identity != identity {
      assert forall j :: 0 <= j < |front| ==> all[j] == front[j];
    }
  }

  lemma WithoutAround(a: seq<Entry>, e: Entry, b: seq<Entry>, identity: string)
    requires e.identity != identity
    ensures Without(a + [e] + b, identity) == Without(a, identity) + [e] + Without(b, identity)
  {
    WithoutConcat(a + [e], b, identity);
    WithoutConcat(a, [e], identity);
    assert [e][..0] == [] && Without([], identity) == [];
    assert Without([e], identity) == [e];
  }

  lemma UnboundedAppend(front: seq<Entry>, last: Entry)
    ensures Unbounded(front + [last]) == Without(Unbounded(front), last.identity) + [last]
  {
    assert (front + [last])[..|front|] == front;
  }

  /** In the unbounded dictionary an identity stands at its latest call, and after it stand
      exactly the identities called since. */
  lemma {:induction false} StandsByRecency(history: seq<Entry>, i: nat, identity: string)
    returns (older: seq<Entry>, newer: seq<Entry>)
    requires IsLatest(history, i, identity)
    ensures Unbounded(history) == older + [history[i]] + newer
    ensures Identities(newer) == Identities(history[i + 1..])
    decreases |history|
  {
    hide Without, Unbounded, Identities;
    var front, last := history[..|history| - 1], history[|history| - 1];
    assert history == front + [last];
    LatestBefore(front, last, i, identity);
    UnboundedAppend(front, last);
    if last.identity == identity {
      older, newer := Without(Unbounded(front), identity), [];
      assert history[i + 1..] == [];
      assert older + [last] + newer == older + [last];
    } else {
      var a, b := StandsByRecency(front, i, identity);
      WithoutAround(a, front[i], b, last.identity);
      older, newer := Without(a, last.identity), Without(b, last.identity) + [last];
      AppendInside(older, history[i], Without(b, last.identity), last);
      NewerIdentities(front, last, i, b);
    }
  }

  lemma AppendInside(a: seq<Entry>, e: Entry, b: seq<Entry>, last: Entry)
    ensures (a + [e] + b) + [last] == a + [e] + (b + [last])
  {
  }

  lemma NewerIdentities(front: seq<Entry>, last: Entry, i: nat, b: seq<Entry>)
    requires i < |front| && Identities(b) == Identities(front[i + 1..])
    ensures Identities(Without(b, last.identity) + [last]) == Identities((front + [last])[i + 1..])
  {
    hide Without, Identities;
    IdentitiesWithout(b, last.identity);
    IdentitiesAppend(Without(b, last.identity), last);
    assert (front + [last])[i + 1..] == front[i + 1..] + [last];
    IdentitiesAppend(front[i + 1..], last);
  }

  lemma {:induction false} FindAbsent(entries: seq<Entry>, identity: string)
    requires forall k :: 0 <= k < |entries| ==> entries[k].identity != identity
    ensures Find(entries, identity) == None
  {
    if entries != [] {
      FindAbsent(entries[..|entries| - 1], identity);
    }
  }

  lemma {:induction false} FindBefore(front: seq<Entry>, e: Entry, after: seq<Entry>)
    requires forall k :: 0 <= k < |after| ==> after[k].identity != e.identity
    ensures Find(front + [e] + after, e.identity) == Some(e.chat)
  {
    var all := front + [e] + after;
    if after == [] {
      assert all == front + [e];
    } else {
      assert all[..|all| - 1] == front + [e] + after[..|after| - 1];
      FindBefore(front, e, after[..|after| - 1]);
    }
  }

  lemma FindInNewest(older: seq<Entry>, e: Entry, newer: seq<Entry>, maximum: nat)
    requires Keyed(older + [e] + newer)
    ensures Find(Last(older + [e] + newer, maximum), e.identity) == if |newer| < maximum then Some(e.chat) else None
  {
    var all := older + [e] + newer;
    assert all[|older|] == e;
    forall k | 0 <= k < |newer| ensures newer[k].identity != e.identity {
      assert all[|older| + 1 + k] == newer[k];
    }
    if |newer| < maximum {
      var kept := if |all| <= maximum then older else older[|all| - maximum..];
      assert Last(all, maximum) == kept + [e] + newer;
      FindBefore(kept, e, newer);
    } else {
      assert Last(all, maximum) == newer[|newer| - maximum..];
      FindAbsent(newer[|newer| - maximum..], e.identity);
    }
  }

  lemma {:induction false} NeverCalledIsAbsent(history: seq<Entry>, identity: string)
    requires identity !in Identities(history)
    ensures identity !in Identities(Unbounded(history))
  {
    if history != [] {
      var front, last := history[..|history| - 1], history[|history| - 1];
      assert history == front + [last];
      IdentitiesAppend(front, last);
      NeverCalledIsAbsent(front, identity);
      IdentitiesWithout(Unbounded(front), last.identity);
      IdentitiesAppend(Without(Unbounded(front), last.identity), last);
    }
  }

  /** After any history of remember() calls, an identity resolves to the chat of its latest
      call exactly when fewer than `maximum` other identities have been called since: the
      registry holds the `maximum` most recently remembered identities and no others. */
  lemma ResolvesIffRecent(history: seq<Entry>, maximum: nat, i: nat, identity: string)
    requires IsLatest(history, i, identity)
    ensures Find(AfterAll(history, maximum), identity)
         == if |Identities(history[i + 1..])| < maximum then Some(history[i].chat) else None
  {
    RegistryIsNewest(history, maximum);
    UnboundedIsKeyed(history);
    var older, newer := StandsByRecency(history, i, identity);
    var all := older + [history[i]] + newer;
    forall a, b | 0 <= a < b < |newer| ensures newer[a].identity != newer[b].identity {
      assert all[|older| + 1 + a] == newer[a] && all[|older| + 1 + b] == newer[b];
    }
    KeyedCounts(newer);
    FindInNewest(older, history[i], newer, maximum);
  }

  lemma UnknownNeverResolves(history: seq<Entry>, maximum: nat, identity: string)
    requires identity !in Identities(history)
    ensures Find(AfterAll(history, maximum), identity) == None
  {
    RegistryIsNewest(history, maximum);
    NeverCalledIsAbsent(history, identity);
    var all := Unbounded(history);
    var kept := Last(all, maximum);
    forall k | 0 <= k < |kept| ensures kept[k].identity != identity {
      assert kept[k] == all[|all| - |kept| + k];
      assert all[|all| - |kept| + k].identity in Identities(all);
    }
    FindAbsent(kept, identity);
  }

  // ----- with clear() in between -----

  datatype Call = Remember(identity: string, chat: ChatId) | Clear(only: Option<string>)

  function AfterCalls(calls: seq<Call>, maximum: nat): seq<Entry> {
    if calls == [] then []
    else
      var before := AfterCalls(calls[..|calls| - 1], maximum);
      match calls[|calls| - 1]
      case Remember(identity, chat) => Remembered(before, maximum, identity, chat)
      case Clear(identity) => Cleared(before, identity)
  }

  /** What the calls last said about an identity: a chat, or nothing any more. */
  function LatestOf(calls: seq<Call>, identity: string): Option<ChatId> {
    if calls == [] then None
    else match calls[|calls| - 1]
      case Remember(other, chat) => if other == identity then Some(chat) else LatestOf(calls[..|calls| - 1], identity)
      case Clear(other) =>
        if other.None? || other.value == identity then None else LatestOf(calls[..|calls| - 1], identity)
  }

  lemma {:induction false} FindInLast(entries: seq<Entry>, maximum: nat, identity: string)
    ensures Find(Last(entries, maximum), identity).Some? ==> Find(Last(entries, maximum), identity) == Find(entries, identity)
    decreases |entries|
  {
    if |entries| > maximum && maximum > 0 {
      var kept := Last(entries, maximum);
      assert kept[..|kept| - 1] == Last(entries[..|entries| - 1], maximum - 1);
      FindInLast(entries[..|entries| - 1], maximum - 1, identity);
    }
  }

  /** Whatever is cleared in between, the registry never exceeds its bound and never
      resolves an identity to anything but the chat it was last remembered with. */
  lemma {:induction false} NeverStale(calls: seq<Call>, maximum: nat, identity: string)
    ensures Keyed(AfterCalls(calls, maximum)) && |AfterCalls(calls, maximum)| <= maximum
    ensures var found := Find(AfterCalls(calls, maximum), identity);
      found.Some? ==> found == LatestOf(calls, identity)
  {
    if calls != [] {
      var before := AfterCalls(calls[..|calls| - 1], maximum);
      NeverStale(calls[..|calls| - 1], maximum, identity);
      match calls[|calls| - 1]
      case Remember(other, chat) =>
        RememberedIsKeyed(before, maximum, other, chat);
        var all := Without(before, other) + [Entry(other, chat)];
        FindInLast(all, maximum, identity);
        FindWithout(before, other, identity);
        assert all[..|all| - 1] == Without(before, other);
      case Clear(other) =>
        if other.Some? {
          WithoutIsKeyed(before, other.value);
          WithoutMembers(before, other.value);
          FindWithout(before, other.value, identity);
        }
    }
  }
}
