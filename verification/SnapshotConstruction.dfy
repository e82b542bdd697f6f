/** References derived from answers and the bounded state snapshot:
    `_derived_references` and `_load_snapshot_for_conversation` of
    src/legal_chatbot/conversation/repository.py. */
module SnapshotConstruction {
  import opened Wrappers
  import opened Sequences
  import opened ChatModels
  import opened ConversationModels

  // ----- references derived from an answer -----

  /** Ids of one kind numbered from zero. */
  function Numbered(kind: ReferenceKind, ids: seq<Id>): (refs: seq<Reference>)
    ensures |refs| == |ids|
    ensures forall i :: 0 <= i < |ids| ==> refs[i] == Reference(kind, ids[i], i)
  {
    seq(|ids|, i requires 0 <= i < |ids| => Reference(kind, ids[i], i))
  }

  function DerivedReferences(chat: ChatResult): seq<Reference> {
    if !chat.outcome.Answer? then []
    else Numbered(CitationRef, CitationIds(chat.citations)) + Numbered(DocumentRef, DocumentIds(chat.citations))
  }

  /** The loop of _derived_references, with its set of documents already seen. */
  method DeriveReferences(chat: ChatResult) returns (refs: seq<Reference>)
    ensures refs == DerivedReferences(chat)
  {
    if !chat.outcome.Answer? {
      return [];
    }
    var documents: seq<Reference> := [];
    var seen: set<Id> := {};
    for i := 0 to |chat.citations|
      invariant documents == Numbered(DocumentRef, DocumentIds(chat.citations[..i]))
      invariant forall d :: d in seen <==> d in DocumentIds(chat.citations[..i])
    {
      var document := chat.citations[i].documentId;
      assert Map(DocumentIdOf, chat.citations[..i + 1]) == Map(DocumentIdOf, chat.citations[..i]) + [document];
      if document !in seen {
        seen := seen + {document};
        documents := documents + [Reference(DocumentRef, document, |documents|)];
      }
    }
    assert chat.citations[..|chat.citations|] == chat.citations;
    refs := Numbered(CitationRef, CitationIds(chat.citations)) + documents;
  }

  lemma NumberedKeepsIds(kind: ReferenceKind, other: ReferenceKind, ids: seq<Id>)
    requires other != kind
    ensures OfKind(kind, Numbered(kind, ids)) == Numbered(kind, ids)
    ensures OfKind(other, Numbered(kind, ids)) == []
    ensures IdsOfKind(kind, Numbered(kind, ids)) == ids
  {
    if kind.CitationRef? {
      FilterAll(IsCitationRef, Numbered(kind, ids));
      FilterNone(IsDocumentRef, Numbered(kind, ids));
    } else {
      FilterAll(IsDocumentRef, Numbered(kind, ids));
      FilterNone(IsCitationRef, Numbered(kind, ids));
    }
    assert Map(ReferenceIdOf, Numbered(kind, ids)) == ids;
  }

  lemma OfKindConcat(kind: ReferenceKind, a: seq<Reference>, b: seq<Reference>)
    ensures OfKind(kind, a + b) == OfKind(kind, a) + OfKind(kind, b)
    ensures IdsOfKind(kind, a + b) == IdsOfKind(kind, a) + IdsOfKind(kind, b)
  {
    match kind
    case CitationRef => FilterConcat(IsCitationRef, a, b);
    case DocumentRef => FilterConcat(IsDocumentRef, a, b);
  }

  /** The references of a valid answer give back its citation ids in order and its
      documents in first-seen order, in the order replay reads them. */
  lemma DerivedReferencesRoundTrip(chat: ChatResult)
    requires chat.Valid()
    ensures ReferencesValid(DerivedReferences(chat))
    ensures Ordered(KindOrdinalRank, DerivedReferences(chat))
    ensures IdsOfKind(CitationRef, DerivedReferences(chat)) == if chat.outcome.Answer? then CitationIds(chat.citations) else []
    ensures IdsOfKind(DocumentRef, DerivedReferences(chat)) == if chat.outcome.Answer? then DocumentIds(chat.citations) else []
  {
    if chat.outcome.Answer? {
      var c, d := CitationIds(chat.citations), DocumentIds(chat.citations);
      DedupMembers(Map(DocumentIdOf, chat.citations));
      NumberedPairIds(c, d);
      NumberedPairIsValid(c, d);
    }
  }

  lemma NumberedPairIds(c: seq<Id>, d: seq<Id>)
    ensures OfKind(CitationRef, Numbered(CitationRef, c) + Numbered(DocumentRef, d)) == Numbered(CitationRef, c)
    ensures OfKind(DocumentRef, Numbered(CitationRef, c) + Numbered(DocumentRef, d)) == Numbered(DocumentRef, d)
    ensures IdsOfKind(CitationRef, Numbered(CitationRef, c) + Numbered(DocumentRef, d)) == c
    ensures IdsOfKind(DocumentRef, Numbered(CitationRef, c) + Numbered(DocumentRef, d)) == d
  {
    var a, b := Numbered(CitationRef, c), Numbered(DocumentRef, d);
    NumberedKeepsIds(CitationRef, DocumentRef, c);
    NumberedKeepsIds(DocumentRef, CitationRef, d);
    OfKindConcat(CitationRef, a, b);
    OfKindConcat(DocumentRef, a, b);
    assert a + [] == a && [] + b == b && c + [] == c && [] + d == d;
  }

  lemma NumberedPairIsValid(c: seq<Id>, d: seq<Id>)
    requires Distinct(c) && Distinct(d) && |c| <= REFERENCE_LIMIT_PER_KIND && |d| <= REFERENCE_LIMIT_PER_KIND
    ensures ReferencesValid(Numbered(CitationRef, c) + Numbered(DocumentRef, d))
    ensures Ordered(KindOrdinalRank, Numbered(CitationRef, c) + Numbered(DocumentRef, d))
  {
    NumberedPairIds(c, d);
    var refs := Numbered(CitationRef, c) + Numbered(DocumentRef, d);
    forall i | 0 <= i < |refs|
      ensures refs[i] == if i < |c| then Reference(CitationRef, c[i], i) else Reference(DocumentRef, d[i - |c|], i - |c|)
    {
    }
    assert ReferencesUnique(refs);
  }

  // ----- recent turns -----

  function CompletedByOrdinal(rows: seq<Exchange>): seq<Exchange> {
    OrderBy(OrdinalOf, Filter(IsCompleted, rows))
  }

  function TurnsOf(e: Exchange): seq<Turn> {
    [Turn(if e.ordinal == 0 then 0 else 2 * e.ordinal - 1, UserRole, e.userText, None, None),
     Turn(2 * e.ordinal, AssistantRole, if e.assistantText.Some? then e.assistantText.value else "", e.outcome, e.reason)]
  }

  /** The query of the source: the newest ceil(limit / 2) completed exchanges, put
      back in order, flattened, and cut to the last `limit` turns. */
  function RecentTurns(rows: seq<Exchange>, limit: nat): seq<Turn> {
    var newest := Take(Reverse(CompletedByOrdinal(rows)), (limit + 1) / 2);
    Last(Flatten(Map(TurnsOf, Reverse(newest))), limit)
  }

  /** The whole completed history, as turns. */
  function AllTurns(rows: seq<Exchange>): seq<Turn> {
    Flatten(Map(TurnsOf, CompletedByOrdinal(rows)))
  }

  lemma FlattenTurnsStep(front: seq<Exchange>, e: Exchange)
    ensures Flatten(Map(TurnsOf, front + [e])) == Flatten(Map(TurnsOf, front)) + TurnsOf(e)
  {
    hide TurnsOf;
    assert Map(TurnsOf, front + [e]) == Map(TurnsOf, front) + [TurnsOf(e)];
    assert Map(TurnsOf, front + [e])[..|front|] == Map(TurnsOf, front);
  }

  predicate PairsAt(turns: seq<Turn>, s: seq<Exchange>, i: nat)
    requires |turns| == 2 * |s| && i < |s|
  {
    turns[2 * i] == TurnsOf(s[i])[0] && turns[2 * i + 1] == TurnsOf(s[i])[1]
  }

  lemma {:induction false} FlattenPairs(s: seq<Exchange>)
    ensures |Flatten(Map(TurnsOf, s))| == 2 * |s|
    ensures forall i :: 0 <= i < |s| ==> PairsAt(Flatten(Map(TurnsOf, s)), s, i)
  {
    if s != [] {
      var front := s[..|s| - 1];
      FlattenTurnsStep(front, s[|s| - 1]);
      assert s == front + [s[|s| - 1]];
      FlattenPairs(front);
      forall i | 0 <= i < |s| ensures PairsAt(Flatten(Map(TurnsOf, s)), s, i) {
        if i < |front| {
          assert PairsAt(Flatten(Map(TurnsOf, front)), front, i);
        }
      }
    }
  }

  /** The completed rows are all of them, in ordinal order. */
  lemma CompletedInOrder(rows: seq<Exchange>)
    ensures multiset(CompletedByOrdinal(rows)) == multiset(Filter(IsCompleted, rows))
    ensures forall i, j :: 0 <= i < j < |CompletedByOrdinal(rows)| ==>
      CompletedByOrdinal(rows)[i].ordinal <= CompletedByOrdinal(rows)[j].ordinal
  {
    OrderBySorts(OrdinalOf, Filter(IsCompleted, rows));
    hide OrderBy, Filter;
  }

  /** What the user asked in an exchange. */
  predicate IsUserTurn(t: Turn, e: Exchange) {
    t.role.UserRole? && t.text == e.userText && t.ordinal == 2 * e.ordinal - 1 && t.outcome.None? && t.reason.None?
  }

  /** What the assistant answered in it. */
  predicate IsAssistantTurn(t: Turn, e: Exchange) {
    && t.role.AssistantRole? && Some(t.text) == e.assistantText && t.ordinal == 2 * e.ordinal
    && t.outcome == e.outcome && t.reason == e.reason
  }

  predicate Alternates(turns: seq<Turn>, done: seq<Exchange>, k: nat)
    requires |turns| == 2 * |done| && k < |done|
  {
    IsUserTurn(turns[2 * k], done[k]) && IsAssistantTurn(turns[2 * k + 1], done[k])
  }

  /** The history alternates: of every completed exchange, in ordinal order, first what the
      user asked and then what the assistant answered. */
  lemma HistoryAlternates(rows: seq<Exchange>)
    requires forall e :: e in rows && e.status.Completed? ==> e.ordinal > 0 && e.assistantText.Some?
    ensures var done := CompletedByOrdinal(rows);
      |AllTurns(rows)| == 2 * |done| && forall k :: 0 <= k < |done| ==> Alternates(AllTurns(rows), done, k)
  {
    var done := CompletedByOrdinal(rows);
    FlattenPairs(done);
    CompletedInOrder(rows);
    SameElements(done, Filter(IsCompleted, rows));
    FilterMembers(IsCompleted, rows);
    hide Flatten, Filter, CompletedByOrdinal;
    forall k | 0 <= k < |done| ensures Alternates(AllTurns(rows), done, k) {
      assert PairsAt(AllTurns(rows), done, k) && done[k] in done;
    }
  }

  lemma NewestReversed<T>(s: seq<T>, n: nat)
    ensures Reverse(Take(Reverse(s), n)) == Last(s, n)
  {
    var a, b := Reverse(Take(Reverse(s), n)), Last(s, n);
    hide Reverse;
    assert |a| == |b|;
    forall i | 0 <= i < |b| ensures a[i] == b[i] {
      assert a[i] == Take(Reverse(s), n)[|b| - 1 - i] == Reverse(s)[|b| - 1 - i];
    }
  }

  /** Limiting the exchanges first loses nothing, for odd limits too: the snapshot's
      turns are the last `limit` of the whole flattened history. */
  lemma RecentTurnsAreTheLastOnes(rows: seq<Exchange>, limit: nat)
    ensures RecentTurns(rows, limit) == Last(AllTurns(rows), limit)
  {
    var all := CompletedByOrdinal(rows);
    var n := (limit + 1) / 2;
    NewestReversed(all, n);
    if |all| > n {
      var older, newer := all[..|all| - n], all[|all| - n..];
      assert all == older + newer && Last(all, n) == newer;
      assert Map(TurnsOf, all) == Map(TurnsOf, older) + Map(TurnsOf, newer);
      FlattenConcat(Map(TurnsOf, older), Map(TurnsOf, newer));
      FlattenPairs(newer);
      LastOfConcat(Flatten(Map(TurnsOf, older)), Flatten(Map(TurnsOf, newer)), limit);
    }
  }

  // ----- recent references -----

  function ReferencesByOrdinal(e: Exchange): seq<Reference> {
    OrderBy(OrdinalKindRank, e.references)
  }

  /** Within an exchange, references come by ordinal, and the citation of an ordinal comes
      before its document. */
  lemma ReferencesAreRanked(e: Exchange)
    ensures multiset(ReferencesByOrdinal(e)) == multiset(e.references)
    ensures forall i, j :: 0 <= i < j < |ReferencesByOrdinal(e)| ==>
      var a, b := ReferencesByOrdinal(e)[i], ReferencesByOrdinal(e)[j];
      a.ordinal < b.ordinal || (a.ordinal == b.ordinal && (a.kind == b.kind || a.kind.CitationRef?))
  {
    OrderBySorts(OrdinalKindRank, e.references);
    hide OrderBy;
    var refs := ReferencesByOrdinal(e);
    forall i, j | 0 <= i < j < |refs|
      ensures refs[i].ordinal < refs[j].ordinal
        || (refs[i].ordinal == refs[j].ordinal && (refs[i].kind == refs[j].kind || refs[i].kind.CitationRef?))
    {
      assert OrdinalKindRank(refs[i]) <= OrdinalKindRank(refs[j]);
    }
  }

  /** ... and those of one kind stay in the order they have. */
  lemma RankedKeepsKinds(kind: ReferenceKind, e: Exchange)
    requires Ordered(KindOrdinalRank, e.references)
    ensures IdsOfKind(kind, ReferencesByOrdinal(e)) == IdsOfKind(kind, e.references)
  {
    var refs := e.references;
    forall i, j | 0 <= i < j < |refs| && refs[i].kind == refs[j].kind
      ensures OrdinalKindRank(refs[i]) <= OrdinalKindRank(refs[j])
    {
      assert KindOrdinalRank(refs[i]) <= KindOrdinalRank(refs[j]);
    }
    match kind
    case CitationRef => OrderByKeeps(IsCitationRef, OrdinalKindRank, refs);
    case DocumentRef => OrderByKeeps(IsDocumentRef, OrdinalKindRank, refs);
  }

  /** Reference rows of the newest completed exchanges, newest exchange first. */
  function ReferenceStream(rows: seq<Exchange>, retained: nat): seq<Reference> {
    Flatten(Map(ReferencesByOrdinal, Take(Reverse(CompletedByOrdinal(rows)), retained)))
  }

  /** What the reference loop accumulates over a prefix of its rows. */
  function SelectReferences(stream: seq<Reference>, limit: nat): seq<Reference> {
    if stream == [] then []
    else
      var prior := SelectReferences(stream[..|stream| - 1], limit);
      var row := stream[|stream| - 1];
      var ids := IdsOfKind(row.kind, prior);
      if row.referenceId in ids || |ids| >= limit then prior
      else prior + [Reference(row.kind, row.referenceId, |ids|)]
  }

  /** The loop's bookkeeping for one kind matches the list built so far. */
  ghost predicate Tracks(kind: ReferenceKind, seen: set<Id>, count: nat, refs: seq<Reference>) {
    && count == |IdsOfKind(kind, refs)|
    && forall x :: x in seen <==> x in IdsOfKind(kind, refs)
  }

  /** The reference loop, with its seen sets and its counters per kind. */
  method LoadReferences(stream: seq<Reference>, limit: nat) returns (refs: seq<Reference>)
    ensures refs == SelectReferences(stream, limit)
  {
    refs := [];
    var seenCitations, citations: nat, seenDocuments, documents: nat := {}, 0, {}, 0;
    for i := 0 to |stream|
      invariant refs == SelectReferences(stream[..i], limit)
      invariant Tracks(CitationRef, seenCitations, citations, refs)
      invariant Tracks(DocumentRef, seenDocuments, documents, refs)
    {
      var row := stream[i];
      assert stream[..i + 1][..i] == stream[..i];
      if row.kind.CitationRef? {
        if row.referenceId !in seenCitations && citations < limit {
          SelectOne(refs, Reference(CitationRef, row.referenceId, citations));
          seenCitations := seenCitations + {row.referenceId};
          refs := refs + [Reference(CitationRef, row.referenceId, citations)];
          citations := citations + 1;
        }
      } else if row.referenceId !in seenDocuments && documents < limit {
        SelectOne(refs, Reference(DocumentRef, row.referenceId, documents));
        seenDocuments := seenDocuments + {row.referenceId};
        refs := refs + [Reference(DocumentRef, row.referenceId, documents)];
        documents := documents + 1;
      }
    }
    assert stream[..|stream|] == stream;
  }

  lemma SelectOne(refs: seq<Reference>, added: Reference)
    ensures OfKind(added.kind, refs + [added]) == OfKind(added.kind, refs) + [added]
    ensures IdsOfKind(added.kind, refs + [added]) == IdsOfKind(added.kind, refs) + [added.referenceId]
    ensures forall k: ReferenceKind :: k != added.kind ==> OfKind(k, refs + [added]) == OfKind(k, refs)
  {
    assert (refs + [added])[..|refs|] == refs;
  }

  predicate DenseOrdinals(refs: seq<Reference>) {
    forall i :: 0 <= i < |refs| ==> refs[i].ordinal == i
  }

  lemma TakeDedupStep(prefix: seq<Id>, x: Id, limit: nat)
    ensures var taken := Take(Dedup(prefix), limit);
      Take(Dedup(prefix + [x]), limit) == if x in taken || |taken| >= limit then taken else taken + [x]
  {
    assert (prefix + [x])[..|prefix|] == prefix;
  }

  lemma SelectStepOtherKind(kind: ReferenceKind, front: seq<Reference>, row: Reference, limit: nat)
    requires kind != row.kind
    ensures OfKind(kind, SelectReferences(front + [row], limit)) == OfKind(kind, SelectReferences(front, limit))
    ensures OfKind(kind, front + [row]) == OfKind(kind, front)
  {
    var prior := SelectReferences(front, limit);
    assert (front + [row])[..|front|] == front;
    SelectOne(front, row);
    SelectOne(prior, Reference(row.kind, row.referenceId, |IdsOfKind(row.kind, prior)|));
  }

  lemma SelectStepSameKind(front: seq<Reference>, row: Reference, limit: nat)
    ensures var prior := SelectReferences(front, limit);
      var ids := IdsOfKind(row.kind, prior);
      OfKind(row.kind, SelectReferences(front + [row], limit))
        == if row.referenceId in ids || |ids| >= limit then OfKind(row.kind, prior)
           else OfKind(row.kind, prior) + [Reference(row.kind, row.referenceId, |ids|)]
    ensures IdsOfKind(row.kind, front + [row]) == IdsOfKind(row.kind, front) + [row.referenceId]
  {
    var prior := SelectReferences(front, limit);
    assert (front + [row])[..|front|] == front;
    SelectOne(front, row);
    SelectOne(prior, Reference(row.kind, row.referenceId, |IdsOfKind(row.kind, prior)|));
  }

  /** One row, in terms of the kind's references only. */
  lemma KeepsFirstDistinct(prior: seq<Reference>, next: seq<Reference>, ids: seq<Id>, row: Reference, limit: nat)
    requires Map(ReferenceIdOf, prior) == Take(Dedup(ids), limit) && DenseOrdinals(prior)
    requires next == if row.referenceId in Map(ReferenceIdOf, prior) || |prior| >= limit then prior
                     else prior + [Reference(row.kind, row.referenceId, |prior|)]
    ensures Map(ReferenceIdOf, next) == Take(Dedup(ids + [row.referenceId]), limit) && DenseOrdinals(next)
  {
    TakeDedupStep(ids, row.referenceId, limit);
    if next != prior {
      assert Map(ReferenceIdOf, next) == Map(ReferenceIdOf, prior) + [row.referenceId];
    }
  }

  ghost predicate FirstDistinct(kind: ReferenceKind, selected: seq<Reference>, stream: seq<Reference>, limit: nat) {
    && IdsOfKind(kind, selected) == Take(Dedup(IdsOfKind(kind, stream)), limit)
    && DenseOrdinals(OfKind(kind, selected))
  }

  lemma FirstDistinctStep(kind: ReferenceKind, front: seq<Reference>, row: Reference, limit: nat)
    requires FirstDistinct(kind, SelectReferences(front, limit), front, limit)
    ensures FirstDistinct(kind, SelectReferences(front + [row], limit), front + [row], limit)
  {
    if kind == row.kind {
      SelectStepSameKind(front, row, limit);
      KeepsFirstDistinct(OfKind(kind, SelectReferences(front, limit)),
        OfKind(kind, SelectReferences(front + [row], limit)), IdsOfKind(kind, front), row, limit);
    } else {
      SelectStepOtherKind(kind, front, row, limit);
    }
  }

  /** Per kind: the first `limit` distinct ids of the stream, numbered densely. */
  lemma {:induction false} SelectedPerKind(kind: ReferenceKind, stream: seq<Reference>, limit: nat)
    ensures FirstDistinct(kind, SelectReferences(stream, limit), stream, limit)
  {
    if stream != [] {
      SelectedPerKind(kind, stream[..|stream| - 1], limit);
      FirstDistinctStep(kind, stream[..|stream| - 1], stream[|stream| - 1], limit);
      assert stream == stream[..|stream| - 1] + [stream[|stream| - 1]];
    }
  }

  lemma {:induction false} KindsPartition(refs: seq<Reference>)
    ensures |refs| == |OfKind(CitationRef, refs)| + |OfKind(DocumentRef, refs)|
  {
    if refs != [] {
      KindsPartition(refs[..|refs| - 1]);
    }
  }

  lemma {:induction false} PositionOfKind(refs: seq<Reference>, i: nat) returns (p: nat)
    requires i < |refs|
    ensures p == |OfKind(refs[i].kind, refs[..i])| < |OfKind(refs[i].kind, refs)|
    ensures OfKind(refs[i].kind, refs)[p] == refs[i]
  {
    p := |OfKind(refs[i].kind, refs[..i])|;
    assert refs == refs[..i] + refs[i..];
    OfKindConcat(refs[i].kind, refs[..i], refs[i..]);
    assert refs[i..] == [refs[i]] + refs[i + 1..];
    OfKindConcat(refs[i].kind, [refs[i]], refs[i + 1..]);
    assert OfKind(refs[i].kind, [refs[i]]) == [refs[i]] by { SelectOne([], refs[i]); assert [] + [refs[i]] == [refs[i]]; }
  }

  lemma PositionsOfKindAscend(refs: seq<Reference>, i: nat, j: nat)
    requires i < j < |refs| && refs[i].kind == refs[j].kind
    ensures |OfKind(refs[i].kind, refs[..i])| < |OfKind(refs[i].kind, refs[..j])|
  {
    var p := PositionOfKind(refs[..j], i);
    assert refs[..j][..i] == refs[..i];
  }

  lemma DenseReferencesAreUnique(refs: seq<Reference>)
    requires DenseOrdinals(OfKind(CitationRef, refs)) && DenseOrdinals(OfKind(DocumentRef, refs))
    requires Distinct(IdsOfKind(CitationRef, refs)) && Distinct(IdsOfKind(DocumentRef, refs))
    ensures ReferencesUnique(refs)
  {
    forall i, j | 0 <= i < j < |refs| && refs[i].kind == refs[j].kind
      ensures refs[i].referenceId != refs[j].referenceId && refs[i].ordinal != refs[j].ordinal
    {
      var kind := refs[i].kind;
      var p := PositionOfKind(refs, i);
      var q := PositionOfKind(refs, j);
      PositionsOfKindAscend(refs, i, j);
      assert IdsOfKind(kind, refs)[p] == refs[i].referenceId;
      assert IdsOfKind(kind, refs)[q] == refs[j].referenceId;
    }
  }

  lemma TakeDedupIsDistinct(ids: seq<Id>, limit: nat)
    ensures Distinct(Take(Dedup(ids), limit)) && |Take(Dedup(ids), limit)| <= limit
  {
    DedupMembers(ids);
  }

  /** Whatever the stream, the selected references satisfy the snapshot's validator. */
  lemma SelectedReferencesAreValid(stream: seq<Reference>, limit: nat)
    requires limit <= REFERENCE_LIMIT_PER_KIND
    ensures ReferencesValid(SelectReferences(stream, limit))
  {
    var refs := SelectReferences(stream, limit);
    SelectedPerKind(CitationRef, stream, limit);
    SelectedPerKind(DocumentRef, stream, limit);
    TakeDedupIsDistinct(IdsOfKind(CitationRef, stream), limit);
    TakeDedupIsDistinct(IdsOfKind(DocumentRef, stream), limit);
    KindsPartition(refs);
    DenseReferencesAreUnique(refs);
    forall i | 0 <= i < |refs| ensures refs[i].ordinal <= REFERENCE_LIMIT_PER_KIND - 1 {
      var p := PositionOfKind(refs, i);
      assert |IdsOfKind(refs[i].kind, refs)| <= limit;
    }
  }
}
