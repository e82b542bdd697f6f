/** What the conversation transactions do to a table of exchanges whose ordinals are
    consecutive and whose rows are all terminal except possibly the newest one. */
module ConversationFacts {
  import opened Wrappers
  import opened Sequences
  import opened ChatModels
  import opened ConversationModels
  import opened SnapshotConstruction
  import opened ConversationStore

  // ----- rows that the store can write and read back -----

  /** A refusal lacks a retrieval run exactly for RETRIEVAL_FAILURE. */
  predicate FitsShape(chat: ChatResult) {
    chat.outcome.Refusal? ==> (chat.reason.RetrievalFailure? <==> chat.runId.None?)
  }

  /** Results the store accepts: safe text in the shape of the database. */
  predicate Storable(chat: ChatResult) {
    SafeText(chat.answer, ASSISTANT_TEXT_MAX_CHARS) && FitsShape(chat)
  }

  /** The row is the record of the result. */
  ghost predicate Records(row: Exchange, chat: ChatResult) {
    && chat.Valid() && Storable(chat)
    && row.status.Completed? && row.lease.None? && row.completedAt.Some?
    && row == CompletedRow(row, chat, row.completedAt.value)
  }

  /** A row as reserve inserts it or as a sweep leaves it. */
  predicate Unanswered(row: Exchange) {
    && row.NoResultFields() && row.completedAt.None? && row.references == []
    && match row.status
       case Processing => row.lease.Some? && row.reason.None?
       case Abandoned => row.lease.None? && row.reason == Some(LeaseExpiredReason)
       case _ => false
  }

  predicate WellKeyed(row: Exchange) {
    row.ordinal > 0 && SafeText(row.userText, USER_TEXT_MAX_CHARS)
  }

  lemma RecordIsChecked(row: Exchange, chat: ChatResult)
    requires WellKeyed(row) && Records(row, chat)
    ensures row.DatabaseChecks()
  {
    DerivedReferencesRoundTrip(chat);
  }

  lemma UnansweredIsChecked(row: Exchange)
    requires WellKeyed(row) && Unanswered(row)
    ensures row.DatabaseChecks()
  {
  }

  /** What replay reads back from a record. */
  function PersistedRecord(conversationId: Id, row: Exchange, chat: ChatResult): Persisted {
    Persisted(conversationId, row.id, row.ordinal, Completed, chat.answer, chat.outcome, chat.reason,
      chat.runId, chat.provider, chat.model, chat.requestId, DerivedReferences(chat))
  }

  lemma PersistedRecordIsValid(conversationId: Id, row: Exchange, chat: ChatResult)
    requires row.ordinal > 0 && chat.Valid() && SafeText(chat.answer, ASSISTANT_TEXT_MAX_CHARS)
    ensures PersistedRecord(conversationId, row, chat).Valid()
  {
    DerivedReferencesRoundTrip(chat);
    hide Distinct, ReferencesValid, Ordered, DerivedReferences, DocumentIds, SafeText;
    if chat.outcome.Answer? {
      assert |CitationIds(chat.citations)| == |chat.citations|;
    } else {
      WithoutAnswerNoReferences(chat);
    }
  }

  lemma WithoutAnswerNoReferences(chat: ChatResult)
    requires !chat.outcome.Answer?
    ensures DerivedReferences(chat) == []
  {
  }

  lemma PersistedOfCompletion(conversationId: Id, e: Exchange, chat: ChatResult, now: Time)
    requires WellKeyed(e) && chat.Valid()
    ensures PersistedOf(conversationId, CompletedRow(e, chat, now), DerivedReferences(chat))
         == if SafeText(chat.answer, ASSISTANT_TEXT_MAX_CHARS) then Some(PersistedRecord(conversationId, e, chat)) else None
  {
    hide ReferencesValid, Ordered, DerivedReferences;
    if SafeText(chat.answer, ASSISTANT_TEXT_MAX_CHARS) {
      PersistedRecordIsValid(conversationId, e, chat);
    }
  }

  /** Of the valid results, the database's shape check takes exactly those that fit. */
  lemma ShapeOfValidResults(e: Exchange, chat: ChatResult, now: Time)
    requires chat.Valid()
    ensures CompletedRow(e, chat, now).ResultShape() <==> FitsShape(chat)
  {
    hide Distinct;
  }

  /** ... and every other constraint is met by any valid result. */
  lemma CheckedIffShaped(e: Exchange, chat: ChatResult, now: Time)
    requires WellKeyed(e) && chat.Valid()
    ensures CompletedRow(e, chat, now).DatabaseChecks() <==> FitsShape(chat)
  {
    ShapeOfValidResults(e, chat, now);
    DerivedReferencesRoundTrip(chat);
    hide Distinct, FitsShape, Exchange.ResultShape;
  }

  /** A completion can be written and read back exactly when its result is storable. */
  lemma CompletionIsStorableIff(conversationId: Id, e: Exchange, chat: ChatResult, now: Time)
    requires WellKeyed(e) && chat.Valid()
    ensures (CompletedRow(e, chat, now).DatabaseChecks()
             && PersistedOf(conversationId, CompletedRow(e, chat, now), DerivedReferences(chat)).Some?) <==> Storable(chat)
  {
    PersistedOfCompletion(conversationId, e, chat, now);
    hide ReferencesValid, Ordered, DerivedReferences, PersistedOf, SafeText;
    if Storable(chat) {
      RecordIsChecked(CompletedRow(e, chat, now), chat);
    }
  }

  // ----- windows of rows -----

  /** Consecutive ordinals starting after `before`. */
  predicate Consecutive(rows: seq<Exchange>, before: nat) {
    forall i :: 0 <= i < |rows| ==> rows[i].ordinal == before + i + 1
  }

  predicate AllTerminal(rows: seq<Exchange>) {
    forall i :: 0 <= i < |rows| ==> IsTerminal(rows[i].status)
  }

  predicate DistinctIds(rows: seq<Exchange>) {
    forall i, j :: 0 <= i < j < |rows| ==> rows[i].id != rows[j].id
  }

  lemma MaxOrdinalOfConsecutive(rows: seq<Exchange>, before: nat)
    requires Consecutive(rows, before)
    ensures MaxOrdinal(rows) == if rows == [] then 0 else before + |rows|
  {
    if rows != [] {
      MaxOrdinalOfConsecutive(rows[..|rows| - 1], before);
    }
  }

  lemma FilterKeepsTerminal(rows: seq<Exchange>)
    requires AllTerminal(rows)
    ensures Filter(IsTerminalRow, rows) == rows
  {
    FilterAll(IsTerminalRow, rows);
  }

  lemma TerminalCountOf(rows: seq<Exchange>, last: Exchange)
    requires AllTerminal(rows)
    ensures Filter(IsTerminalRow, rows + [last]) == if IsTerminal(last.status) then rows + [last] else rows
    ensures TerminalCount(rows + [last]) == |rows| + (if IsTerminal(last.status) then 1 else 0)
  {
    FilterKeepsTerminal(rows);
    assert (rows + [last])[..|rows|] == rows;
  }

  lemma ConsecutiveIsOrdered(rows: seq<Exchange>, before: nat)
    requires Consecutive(rows, before)
    ensures OrderBy(OrdinalOf, rows) == rows
  {
    OrderByIdentity(OrdinalOf, rows);
  }

  /** How many of `total` terminal-or-finishing rows exceed the retained limit. */
  function Excess(total: nat, limit: nat): nat {
    Max(0, total - limit)
  }

  /** The plan of a reservation: the oldest rows, as many as exceed the limit. */
  lemma PlanOfWindow(rows: seq<Exchange>, last: Exchange, before: nat, limit: nat)
    requires Consecutive(rows, before) && AllTerminal(rows) && last.status.Processing? && limit >= 1
    ensures Excess(|rows| + 1, limit) <= |rows|
    ensures var oldest := rows[..Excess(|rows| + 1, limit)];
      PlanFor(rows + [last], limit) == Plan(Map(IdOf, oldest), Map(CandidateOf, oldest))
  {
    TerminalCountOf(rows, last);
    ConsecutiveIsOrdered(rows, before);
    hide Filter, OrderBy, Map;
    assert Take(rows, Excess(|rows| + 1, limit)) == rows[..Excess(|rows| + 1, limit)];
  }

  lemma FilterPrefixIds(rows: seq<Exchange>, n: nat)
    requires n <= |rows| && DistinctIds(rows)
    ensures Filter(IdIn(Map(IdOf, rows[..n])), rows) == rows[..n]
    ensures Filter(IdNotIn(Map(IdOf, rows[..n])), rows) == rows[n..]
  {
    var ids := Map(IdOf, rows[..n]);
    assert rows == rows[..n] + rows[n..];
    forall e | e in rows[..n] ensures e.id in ids {
      var i :| 0 <= i < n && rows[i] == e;
      assert ids[i] == e.id;
    }
    forall e | e in rows[n..] ensures e.id !in ids {
    }
    FilterConcat(IdIn(ids), rows[..n], rows[n..]);
    FilterAll(IdIn(ids), rows[..n]);
    FilterNone(IdIn(ids), rows[n..]);
    FilterConcat(IdNotIn(ids), rows[..n], rows[n..]);
    FilterNone(IdNotIn(ids), rows[..n]);
    FilterAll(IdNotIn(ids), rows[n..]);
    assert rows[..n] + [] == rows[..n] && [] + rows[n..] == rows[n..];
  }

  /** Locking the planned rows finds exactly the planned prefix. */
  lemma LockedPrefix(rows: seq<Exchange>, n: nat, before: nat, plan: Plan)
    requires n <= |rows| && DistinctIds(rows) && Consecutive(rows, before) && AllTerminal(rows[..n])
    requires plan.exchangeIds == Map(IdOf, rows[..n])
    ensures LockedCandidates(rows, plan) == Some(rows[..n])
  {
    FilterPrefixIds(rows, n);
    ConsecutiveIsOrdered(rows[..n], before);
    hide Filter, OrderBy;
    if plan.exchangeIds == [] {
      assert n == 0 && rows[..n] == [];
    }
  }

  lemma FindByIdAt(rows: seq<Exchange>, k: nat)
    requires k < |rows| && DistinctIds(rows)
    ensures FindById(rows, rows[k].id, rows[k].ordinal) == Some(rows[k])
  {
    if k > 0 {
      FindByIdAt(rows[1..], k - 1);
    }
  }

  lemma FindByIdOrigin(rows: seq<Exchange>, id: Id, ordinal: nat)
    requires FindById(rows, id, ordinal).Some?
    ensures exists k :: 0 <= k < |rows| && rows[k] == FindById(rows, id, ordinal).value && rows[k].id == id && rows[k].ordinal == ordinal
  {
    if !(rows[0].id == id && rows[0].ordinal == ordinal) {
      FindByIdOrigin(rows[1..], id, ordinal);
      var k :| 0 <= k < |rows[1..]| && rows[1..][k] == FindById(rows[1..], id, ordinal).value && rows[1..][k].id == id && rows[1..][k].ordinal == ordinal;
      assert rows[k + 1] == rows[1..][k];
    }
  }

  lemma FindByKeyOrigin(rows: seq<Exchange>, key: string)
    ensures FindByKey(rows, key).Some? ==>
      exists k :: 0 <= k < |rows| && rows[k] == FindByKey(rows, key).value && rows[k].key == key
    ensures FindByKey(rows, key).None? ==> forall k :: 0 <= k < |rows| ==> rows[k].key != key
  {
    if rows != [] && rows[0].key != key {
      FindByKeyOrigin(rows[1..], key);
      if FindByKey(rows, key).Some? {
        var k :| 0 <= k < |rows[1..]| && rows[1..][k] == FindByKey(rows[1..], key).value && rows[1..][k].key == key;
        assert rows[k + 1] == rows[1..][k];
      } else {
        forall k | 0 <= k < |rows| ensures rows[k].key != key {
          if k > 0 { assert rows[k] == rows[1..][k - 1]; }
        }
      }
    }
  }

  lemma ReplaceNewest(rows: seq<Exchange>, e: Exchange, done: Exchange)
    requires DistinctIds(rows + [e]) && done.id == e.id
    ensures ReplaceById(rows + [e], done) == rows + [done] && DistinctIds(rows + [done])
  {
    var all := rows + [e];
    forall i | 0 <= i < |rows| ensures rows[i].id != e.id {
      assert all[i] == rows[i] && all[|rows|] == e;
    }
    assert ReplaceById(all, done) == rows + [done];
    forall i, j | 0 <= i < j < |rows + [done]| ensures (rows + [done])[i].id != (rows + [done])[j].id {
      assert all[i].id == (rows + [done])[i].id && all[j].id == (rows + [done])[j].id;
    }
  }

  lemma DropOldest(rows: seq<Exchange>, done: Exchange, n: nat)
    requires DistinctIds(rows + [done]) && n <= |rows|
    ensures Filter(IdNotIn(Map(IdOf, rows[..n])), rows + [done]) == rows[n..] + [done]
  {
    hide Filter, DistinctIds;
    FilterPrefixIds(rows + [done], n);
    assert (rows + [done])[..n] == rows[..n];
    assert (rows + [done])[n..] == rows[n..] + [done];
  }

  lemma CountKept(rows: seq<Exchange>, done: Exchange, n: nat)
    requires n <= |rows| && AllTerminal(rows) && IsTerminal(done.status)
    ensures TerminalCount(rows[n..] + [done]) == |rows| - n + 1
  {
    assert AllTerminal(rows[n..]);
    TerminalCountOf(rows[n..], done);
  }

  /** The conversation after finishing its newest row and dropping the `n` oldest. */
  function Finished(conversation: Conversation, rows: seq<Exchange>, done: Exchange, n: nat,
                    update: StateUpdate, now: Time, settings: Settings): Conversation
    requires n <= |rows|
  {
    conversation.(
      stateVersion := conversation.stateVersion + 1, rollingSummary := update.rollingSummary,
      activeTopic := update.activeTopic, expiresAt := now + settings.retentionSeconds, rows := rows[n..] + [done])
  }

  /** Finishing the newest row of a window whose plan is its oldest prefix: every
      late check passes, and what is left is the rest with the newest completed. */
  lemma FinishOfWindow(conversation: Conversation, conversationId: Id, rows: seq<Exchange>, e: Exchange,
                       chat: ChatResult, update: StateUpdate, now: Time, settings: Settings)
    requires conversation.rows == rows + [e] && DistinctIds(rows + [e]) && AllTerminal(rows)
    ensures var n := Excess(|rows| + 1, settings.retainedLimit);
      var done := CompletedRow(e, chat, now);
      n <= |rows| && Finish(conversation, conversationId, e, rows[..n], chat, update, now, settings)
      == if !done.DatabaseChecks() then Tx(Some(conversation), Err(PersistenceFailure))
         else match PersistedOf(conversationId, done, done.references)
           case None => Tx(Some(conversation), Err(StateInvalid))
           case Some(persisted) => Tx(Some(Finished(conversation, rows, done, n, update, now, settings)), Ok(persisted))
  {
    hide Filter, TerminalCount, PersistedOf, DerivedReferences, ReplaceById, DistinctIds, AllTerminal;
    hide Exchange.DatabaseChecks;
    var n := Excess(|rows| + 1, settings.retainedLimit);
    var done := CompletedRow(e, chat, now);
    ReplaceNewest(rows, e, done);
    DropOldest(rows, done, n);
    CountKept(rows, done, n);
  }

  /** ... so a storable result is what decides. */
  lemma FinishDecided(conversation: Conversation, conversationId: Id, rows: seq<Exchange>, e: Exchange,
                      chat: ChatResult, update: StateUpdate, now: Time, settings: Settings)
    requires conversation.rows == rows + [e] && DistinctIds(rows + [e]) && AllTerminal(rows)
    requires WellKeyed(e) && chat.Valid()
    ensures var n := Excess(|rows| + 1, settings.retainedLimit);
      n <= |rows|
      && var tx := Finish(conversation, conversationId, e, rows[..n], chat, update, now, settings);
      && (Storable(chat) ==>
            tx == Tx(Some(Finished(conversation, rows, CompletedRow(e, chat, now), n, update, now, settings)),
                     Ok(PersistedRecord(conversationId, e, chat))))
      && (!Storable(chat) ==>
            tx == Tx(Some(conversation), Err(if FitsShape(chat) then StateInvalid else PersistenceFailure)))
  {
    hide DistinctIds, AllTerminal, WellKeyed, Finish, Finished, Exchange.DatabaseChecks, PersistedOf;
    hide ChatResult.Valid, Storable, DerivedReferences, PersistedRecord;
    FinishOfWindow(conversation, conversationId, rows, e, chat, update, now, settings);
    CheckedIffShaped(e, chat, now);
    CompletionIsStorableIff(conversationId, e, chat, now);
    PersistedOfCompletion(conversationId, e, chat, now);
    assert Storable(chat) ==> SafeText(chat.answer, ASSISTANT_TEXT_MAX_CHARS) by { StorableIsSafe(chat); }
  }

  lemma StorableIsSafe(chat: ChatResult)
    ensures Storable(chat) ==> SafeText(chat.answer, ASSISTANT_TEXT_MAX_CHARS)
  {
    hide SafeText;
  }
}
