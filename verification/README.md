# Exactly-once chat delivery: a verified model

This project models, in Dafny, how the legal chatbot turns at-least-once webhook deliveries
into work that is done once, and proves what that design guarantees. It covers the two
persistent layers of the message path, the policies and printers around them, and three small
state machines.

**Conversation state.** A delivery reserves an exchange under a processing lease, is answered,
and completes the exchange under a version guard; stale exchanges are abandoned; the oldest
terminal exchanges are folded into a rolling summary; a completed delivery is replayed. Each
repository transaction holds its row lock, so it is one step: `ConversationStore` gives every
transaction as a function and as a method of a repository class proved to compute it.
`ConversationProtocol`, `ConversationCompletion`, `ConversationTheorems` and
`ConversationProgress` run any number of handlers over one conversation with arbitrary clocks;
a crash is a completion that never comes. `ConversationColumns` and `ConversationSnapshots` say
what the columns and the reservations of such runs hold, in terms of the requests and answers
themselves. `ConversationOverfull` and `UnstorableAnswer` follow
two ways in which a reserved delivery is never answered.

**Channel delivery.** `ChannelBinding*` and `ChannelOutbox*` do the same for the leased
identity-to-conversation binding and for the single outbound attempt. `ChannelSystem*` composes
all three tables: a handler is a program counter with the clock it read once, every await is a
step, and compaction and purge cascade as the foreign keys do. `ChannelDecisions` says where each
await takes a handler, from the rows it finds. `ChannelProgress` and
`ChannelFirstContact` decide how an undisturbed delivery ends, `ChannelEffects` says what an
acknowledged one leaves behind, and `ChannelForgetting`, `ChannelStopped`, `ChannelLeaseReuse` and
`UnreadableMessage` build runs of the whole system from it.

**Around them.** `SnapshotConstruction`, `ContextProjection` and `ConversationPolicy` bound what
a reservation sees and what a completion stores, and `ConversationEntries` reads a folded exchange
back from the summary; `ConversationReplay` and `ConversationService` replay; `RetrievalPlanning`
and `GroundedChat` are the fail-closed answer pipeline over adversarial ports, and
`GroundedResults` says what its result tells; `Json`, `Encoding` and `Prompt` print untrusted data
and read it back; `TsQuery` does so for quoted lexemes; `DemoGate`, `ChannelRecipients` and
`MetadataBackfill` are the milestone gate, the recipient registry and the cursor loop.

## What the proofs found

- **A plan of more than 32 ids can never complete.** Abandonment adds terminal rows without
  compaction, and a state update holds at most 32 compacted ids. A ticket in flight can complete
  exactly while fewer than `retained_exchange_limit + 32` exchanges are terminal
  (`CompletableIffNotOverfull`); from then on no completion ever succeeds, whatever happens,
  until the conversation is purged (`OverfullIsForever`). Such conversations are reachable:
  for every settings value, `retained_exchange_limit + 33` deliveries whose leases run out one
  after the other before the conversation expires are enough (`NewConversationOverfills`), and
  from any reachable idle conversation fewer by the rows it already has (`AbandonmentOverfills`).
- **A message with a line break is accepted and never served.** The channel allows line breaks
  in inbound text, a conversation request does not, and building the request is not guarded. A
  two-line first message leaves an active binding to an empty conversation and is answered as
  unavailable (`TwoLinesAreRefused`); so is every later delivery of it, whatever happens in
  between (`UnreadableIsRefusedForever`); over every run no such message is put to a conversation
  or to the chat port, sent or acknowledged (`UnreadableIsNeverServed`).
- **How an undisturbed delivery ends is decided by what it finds** (`DeliveryIsDecided`,
  `FirstContactIsDecided`): by the line breaks of its text, the conversation's expiry, the lease of
  the newest exchange, the number of rows, the shape and the characters of the chat result, the
  delivery's key in the outbound table, and a SENDING row of its binding.
- **A handler that stops between `mark_sending` and `complete` blocks its binding.** While its
  row is SENDING no other message of the identity is sent (`CrashBlocksBinding`). The next message
  is refused (`StoppedHandlerRefusesNext`), and so is every one that finds such a row whose
  exchange is not among the oldest that completing one more folds away (`DeliveryIsDecided`). Only
  deletion of the row, by compaction or purge, frees the binding.
- **Lease equality fences only between failures.** A binding that went through FAILED can hand
  out an old lease again to a reserver whose clock is behind, and then a displaced reserver is
  bound (`LeaseReuseAfterFailure`). On clocks that do not go back it cannot
  (`ForwardClocksFence`).
- **Deleting a row forgets its delivery.** For every n there is a run of the whole system, on
  clocks that only move forward, in which one delivery is acknowledged and sent n times, its
  expired conversation being purged in between (`DeletionForgets`). What holds without proviso is
  once per exchange (`EachExchangeIsServedOnce`) and once per inserted row
  (`SendsAreBoundedByInserts`).
- **Answers with line breaks cannot be stored.** The provider answer may contain line breaks and
  tabs, persisted text may not. A result can be stored exactly when the request is not grounded or
  the parsed answer has no control character (`EveryResultFitsTheStore`); a two-line answer is
  such a result (`TwoLinesCannotBeStored`). Its delivery then fails, stays PROCESSING, and is never
  answered while its exchange exists: whoever delivers it again is told that it is in progress
  until the lease ends and that the lease has expired after it (`AnswerWithControlIsNeverAnswered`).
  The database's shape check and the result's own validator are incomparable
  (`ShapeAndValidatorDiffer`); of the valid results the shape check takes exactly those in which a
  refusal lacks a run exactly for RETRIEVAL_FAILURE (`ShapeOfValidResults`).
- **A document number that cannot be normalised fails every later backfill run**, and no run ever
  reaches a row behind it (`FailureIsPermanent`).

Where comments and code differ, the model follows the code: the table comment lets a FAILED
binding keep a previous conversation, while `fail` always clears it.

## Model

| member | source | states |
|---|---|---|
| ConversationStore.ConversationRepository.CreateConversation | src/legal_chatbot/conversation/repository.py:154-168 | adds one empty conversation at version 0 that expires after the retention, and changes no other |
| ConversationStore.ConversationRepository.Reserve | src/legal_chatbot/conversation/repository.py:170-246 | the table and the answer after reserving are those of the reserving transaction: sweep, duplicate, busy, or insert with plan and snapshot; errors leave the table as it was |
| ConversationStore.ConversationRepository.Complete | src/legal_chatbot/conversation/repository.py:261-374 | the table and the answer after completing are those of the completing transaction, with every failed check undoing all writes |
| SnapshotConstruction.DeriveReferences | src/legal_chatbot/conversation/repository.py:94-122 | the loop with its seen set yields the numbered citation ids followed by the numbered first-seen documents |
| SnapshotConstruction.DerivedReferencesRoundTrip | src/legal_chatbot/conversation/repository.py:94-122 | the references of a valid answer are valid, already in replay order, and give back its citation ids in order and its first-seen document ids; other outcomes have none |
| SnapshotConstruction.RecentTurnsAreTheLastOnes | src/legal_chatbot/conversation/repository.py:578-610 | limiting the exchanges before flattening loses nothing, for odd limits too: the turns are the last `limit` of the whole flattened completed history |
| SnapshotConstruction.HistoryAlternates | src/legal_chatbot/conversation/repository.py:592-611 | turn 2k of the flattened history is what the user asked in the k-th completed exchange by ordinal, turn 2k + 1 what the assistant answered, with their ordinals, outcome and reason |
| SnapshotConstruction.ReferencesAreRanked | src/legal_chatbot/conversation/repository.py:622-640 | the references of an exchange come by ordinal, and of one ordinal the citation before the document |
| ConversationSnapshots.SnapshotShowsTheConversation | src/legal_chatbot/conversation/repository.py:574-670 | the snapshot of the ticket in flight has the version, the summary and the topic of the conversation, and the last turns of its completed exchanges, told by their rows |
| ConversationSnapshots.TurnsAreRequestsAndAnswers | src/legal_chatbot/conversation/repository.py:592-611 | over every run each user turn of every snapshot ever handed out is the text of the request with ordinal (t + 1) / 2, and each assistant turn the answer recorded for that exchange |
| ConversationSnapshots.ReferencesAreTheNewest | src/legal_chatbot/conversation/repository.py:613-664 | in every reachable state the references of the ticket in flight are the first distinct ones that the recorded answers cite, the newest answer first; the query's own limit never cuts |
| ConversationSnapshots.CandidatesTellTheirExchanges | src/legal_chatbot/conversation/repository.py:453-506 | the candidates of the ticket in flight are the oldest retained exchanges in order, each with its own request, its own answer and the numbers of what that answer cites |
| SnapshotConstruction.LoadReferences | src/legal_chatbot/conversation/repository.py:640-664 | the loop with its seen sets and counters per kind selects the references of the specification |
| SnapshotConstruction.SelectedPerKind | src/legal_chatbot/conversation/repository.py:640-664 | per kind, the selected ids are the first `limit` distinct ids of the stream in order, with dense ordinals |
| SnapshotConstruction.SelectedReferencesAreValid | src/legal_chatbot/conversation/models.py:171-190 | whatever the reference rows, the selected references satisfy the snapshot's uniqueness and bounds |
| ConversationPolicy.SummaryFolds | src/legal_chatbot/conversation/policy.py:135-146 | compacting A and then B gives the summary of compacting A and B at once, so cutting early loses nothing that is kept later |
| ConversationPolicy.SummaryIsTheNewestEnd | src/legal_chatbot/conversation/policy.py:135-146 | the summary is all of what was joined when it fits, and otherwise its last characters, index by index |
| ConversationEntries.EntryReadsBack | src/legal_chatbot/conversation/policy.py:245-297 | an independent reader gets back the status, outcome, reason and counts of a folded exchange from its entry, which ends with the beginnings of its texts: nothing in a text can pass for them |
| ConversationPolicy.SummaryIsStorable | src/legal_chatbot/conversation/policy.py:135-146 | appending to a storable summary yields a storable summary within its column |
| ConversationPolicy.StateUpdateExistsIffPlanFits | src/legal_chatbot/conversation/policy.py:212-223 | for a valid snapshot and plan, a state update can be built exactly when the plan has at most 32 ids |
| ConversationPolicy.UpdateIsDecided | src/legal_chatbot/conversation/policy.py:212-223 | for any reservation: an unsafe stored summary is a state error, a plan that is too long or repeats an id gives no update, and otherwise the update carries the plan's ids and the reservation's version |
| ContextProjection.SelectTurns | src/legal_chatbot/conversation/policy.py:165-182 | the newest-first loop with the shrinking budget keeps the turns of the specification |
| ContextProjection.ProjectChatContext | src/legal_chatbot/conversation/policy.py:149-193 | the projection as a whole, with the over-long topic and the invalid summary |
| ContextProjection.KeptTurnsAreASuffix | src/legal_chatbot/conversation/policy.py:168-182 | kept turns are a suffix of the recent turns, verbatim except that the oldest kept may be a nonempty prefix |
| ContextProjection.KeptTurnsFillTheBudget | src/legal_chatbot/conversation/policy.py:165-182 | kept turns never exceed the budget, and use all of it whenever a turn is dropped or shortened |
| ContextProjection.ProjectionUsesTheBudget | src/legal_chatbot/conversation/policy.py:162-191 | there is no context exactly when the topic alone is over the limit or there is nothing to say; otherwise the context is valid, within the limit, a suffix of the turns, and exactly as long as the limit whenever anything is cut |
| ContextProjection.KeptSummaryIsTheNewestEnd | src/legal_chatbot/conversation/policy.py:183-184 | the summary of a context is there exactly when one is given and topic and turns leave room; it is the whole summary when that fits, and otherwise exactly as much of its newest end as there is room |
| ContextProjection.CombinedLengthIsTheText | src/legal_chatbot/chat/prompt.py:109-118 | the length of a context counts every character of its summary, topic and turns and nothing else |
| ConversationFacts.CompletionIsStorableIff | src/legal_chatbot/conversation/orm.py:121-151 | a completed row passes every constraint and can be read back exactly when its text has no control characters and a refusal lacks a run exactly for RETRIEVAL_FAILURE |
| ConversationFacts.ShapeOfValidResults | src/legal_chatbot/conversation/orm.py:121-151 | for every valid result the shape check holds exactly when a refusal lacks a run exactly for RETRIEVAL_FAILURE |
| ConversationFacts.PlanOfWindow | src/legal_chatbot/conversation/repository.py:453-506 | on consecutive rows, the plan is the oldest rows, as many as exceed the limit with one more retained |
| ConversationFacts.LockedPrefix | src/legal_chatbot/conversation/repository.py:508-533 | locking the planned rows finds exactly the planned prefix |
| ConversationFacts.FinishOfWindow | src/legal_chatbot/conversation/repository.py:303-372 | finishing the newest row of a window whose plan is its oldest prefix passes the delete-count and retained-limit checks and leaves the rest with the newest row completed |
| ConversationProtocol.NextOrdinal | src/legal_chatbot/conversation/repository.py:207-216 | the maximum of the rows still there is the number of reservations ever made, so max + 1 is never a reused ordinal |
| ConversationProtocol.ReserveKeeps | src/legal_chatbot/conversation/repository.py:170-246 | a reserving transaction with any clock keeps the protocol invariant |
| ConversationCompletion.PlanIsOldestRows | src/legal_chatbot/conversation/repository.py:453-506 | while an exchange is in flight, the plan its reserver holds is still exactly the oldest rows, and its version and summary are still current |
| ConversationCompletion.CompletionInFlight | src/legal_chatbot/conversation/repository.py:261-374 | completing the ticket in flight succeeds exactly when the update can be built, the clock is inside both expiries and the result is storable; failure changes nothing |
| ConversationCompletion.SuccessIsInFlight | src/legal_chatbot/conversation/repository.py:285-302 | only the newest ticket, with its exchange still PROCESSING, can complete |
| ConversationCompletion.RunKeeps | src/legal_chatbot/conversation/repository.py:143-533 | every state of every run satisfies the invariant: window, identity, records, frozen conversation in flight, columns, bound |
| ConversationTheorems.WindowInvariant | src/legal_chatbot/conversation/repository.py:185-223 | in every reachable state the ordinals are a contiguous block ending at the largest ever issued, the k-th reservation has ordinal k, and only the newest row may be PROCESSING |
| ConversationTheorems.HistoryIsConserved | src/legal_chatbot/conversation/repository.py:344-354 | the exchanges folded away followed by the retained rows are exactly the exchanges ever reserved, each once, in ordinal order, and the stored summary is the summary of exactly the folded ones |
| ConversationTheorems.FoldedAreTheCandidates | src/legal_chatbot/conversation/repository.py:303-354 | the rows a completion deletes are exactly its oldest rows and exactly the candidates that were summarised for it |
| ConversationTheorems.LifecycleIsIdempotent | src/legal_chatbot/conversation/repository.py:170-343 | exchanges move only from PROCESSING to COMPLETED or ABANDONED and are then frozen, every id is reserved once, and state_version counts the completed exchanges |
| ConversationTheorems.CompletedOrdinalsIncrease | src/legal_chatbot/conversation/repository.py:285-343 | a completion is of an exchange newer than everything completed before, folded exchanges included |
| ConversationTheorems.CompletionIsDecidedByStatus | src/legal_chatbot/conversation/repository.py:261-374 | for a ticket holder on its own clock with a storable result and a plan that fits, completion succeeds exactly when its exchange is still PROCESSING, and the terminal count goes from T to min(T + 1, limit) |
| ConversationTheorems.PlanIsBoundedByAbandonments | src/legal_chatbot/conversation/repository.py:436-466 | a plan holds at most one exchange more than were abandoned since the last completion |
| ConversationTheorems.ConstraintsAlwaysHold | src/legal_chatbot/conversation/orm.py:67-168 | in every reachable state all rows pass the CHECK constraints, keys and ordinals are unique, at most one row is PROCESSING, and none is FAILED |
| ConversationTheorems.OverfullIsForever | src/legal_chatbot/conversation/models.py:431-450 | once retained limit + 32 exchanges are terminal, no later event completes anything |
| ConversationColumns.ReservingWrites | src/legal_chatbot/conversation/repository.py:170-240 | a reserving transaction that fails writes nothing, one that finds the delivery writes the swept rows, and one that reserves adds one new exchange of its request, later than all others, under a lease from now |
| ConversationColumns.CompletionWrites | src/legal_chatbot/conversation/repository.py:303-372 | a completion writes its result field by field into its own row, counts itself, starts the retention anew, and stores the beginning of its own question as the topic |
| ConversationColumns.CompletingIsGuarded | src/legal_chatbot/conversation/repository.py:261-374 | whatever the state: a completion that fails changes nothing, and one that succeeds found an active conversation of the expected version and its exchange processed under its lease, and folded away exactly the planned rows, all terminal, down to the limit |
| ConversationColumns.TopicIsTheLastQuestion | src/legal_chatbot/conversation/policy.py:120-132 | in every reachable state there is no topic exactly at version 0; otherwise the topic is the beginning of the question completed last, cut to its maximum, and the conversation expires one retention after that completion |
| ConversationColumns.PurgedIffExpired | src/legal_chatbot/conversation/repository.py:376-408 | purging removes a conversation exactly when its retention has passed |
| ConversationProgress.SnapshotIsValid | src/legal_chatbot/conversation/models.py:151-190 | the snapshot built from recorded rows always satisfies its own validator, turns with strictly increasing ordinals included |
| ConversationProgress.PlanIsValid | src/legal_chatbot/conversation/models.py:253-265 | the plan built from recorded rows always satisfies its own validator |
| ConversationProgress.IdleReserveSucceeds | src/legal_chatbot/conversation/repository.py:170-240 | a new delivery on an idle, active conversation is always reserved |
| ConversationProgress.CompletableIffNotOverfull | src/legal_chatbot/conversation/models.py:431-450 | the ticket in flight can be completed by its holder exactly when the conversation is not overfull |
| ConversationProgress.CompletionMeetsItsFate | src/legal_chatbot/conversation/repository.py:261-374 | on its own clock the ticket in flight completes, or fails with exactly PERSISTENCE_FAILURE for an overfull conversation or a result of the wrong shape, and STATE_INVALID for a result with a control character |
| ConversationProgress.CompletionIsDecided | src/legal_chatbot/conversation/repository.py:261-374 | in every reachable state, for every ticket and by any clock: how completing ends, from the size of its plan, whether its exchange is still being processed, the expiry, the lease, and the shape and the characters of the result |
| ConversationOverfull.AbandonmentOverfills | src/legal_chatbot/conversation/repository.py:185-233 | from any reachable conversation nobody works on, n deliveries reserved as each lease before runs out and never answered leave n - 1 more terminal rows, and the last of them can still be completed exactly while rows and deliveries together are fewer than retained limit + 33 |
| ConversationOverfull.NewConversationOverfills | src/legal_chatbot/conversation/repository.py:436-451 | for every settings value a run of retained limit + 33 reservations overfills a new conversation whenever that many leases fit into the retention, and whatever follows its version stays 0 |
| ConversationProgress.ReserveIsDecided | src/legal_chatbot/conversation/repository.py:170-246 | in every reachable state what reserving answers is decided by the expiry, by the row of the delivery and by the lease of the newest row; stored data failing validation is never the reason |
| ConversationProgress.FreeMakesProgress | src/legal_chatbot/conversation/service.py:60-173 | a conversation nobody works on, whatever crashed handlers left in it, serves a new delivery to completion and bumps its version exactly when it has room and the result can be stored |
| ConversationReplay.ReplayByLoop | src/legal_chatbot/conversation/service.py:242-269 | the loop with its citation and document lists computes the replayed answer, or fails |
| ConversationReplay.ReplayIsSameOrRefused | src/legal_chatbot/conversation/service.py:175-269 | for any resolver, replaying a record gives a valid result: the fixed refusal with its run, or the same text, provider metadata, citation ids in order and first-seen documents |
| ConversationReplay.ReplayReturnsTheAnswer | src/legal_chatbot/conversation/service.py:242-269 | while every citation still resolves to its identity, run and document the answer comes back, equal when the citations are |
| ConversationReplay.CompletedIsReadBack | src/legal_chatbot/conversation/repository.py:673-716 | reserving the delivery of a completed row returns exactly the record of its result |
| ConversationReplay.ReplayRoundTrip | src/legal_chatbot/conversation/service.py:175-269 | complete any result, let anything happen, reserve the delivery again while its row exists: the replay equals the result for an agreeing resolver and is the same or refused for any other |
| ConversationService.Service.Respond | src/legal_chatbot/conversation/service.py:60-173 | one uninterrupted delivery: reserve, then status, refusal, replay or answer and complete; the chat port is asked exactly when the delivery was reserved |
| ConversationService.ReservesItsOwn | src/legal_chatbot/conversation/service.py:289-304 | the service's checks of duplicate identities never fire on what reserve returns |
| ConversationService.FreshReplyIsThePorts | src/legal_chatbot/conversation/service.py:100-173 | a delivery that is not a duplicate is answered with what the chat port returned if that is a valid result, and otherwise with the refusal that retrieval failed |
| ConversationService.RespondIsIdempotent | src/legal_chatbot/conversation/service.py:60-173 | delivering again within the retention gives the same result marked as duplicate, whatever the chat port would now say |
| ChannelBinding.BindingRepository.Reserve | src/legal_chatbot/channels/repository.py:156-190 | the bindings and the answer after reserving are those of the transaction: insert, active, processing, or rebind with a new lease |
| ChannelBinding.BindingRepository.Activate | src/legal_chatbot/channels/repository.py:192-231 | the bindings and the answer after activating are those of the transaction, unique index and foreign key included |
| ChannelBinding.BindingRepository.Fail | src/legal_chatbot/channels/repository.py:233-272 | the bindings and the answer after failing are those of the transaction |
| ChannelBinding.ReserveKeepsTable | src/legal_chatbot/channels/orm.py:35-82 | reserving keeps every constraint of the binding table, succeeds for every valid HMAC, and never returns FAILED |
| ChannelBinding.ActivateKeepsTable | src/legal_chatbot/channels/orm.py:58-81 | activating keeps every constraint of the binding table and returns the activated conversation, and fails as a persistence error exactly when only the unique index or the foreign key objects |
| ChannelBinding.FailKeepsTable | src/legal_chatbot/channels/orm.py:58-81 | failing keeps every constraint of the binding table, and succeeds only with a code of capitals, digits and underscores |
| ChannelBindingProtocol.RunKeeps | src/legal_chatbot/channels/repository.py:145-297 | every run under arbitrary clocks keeps the table, the fences and the log of activations |
| ChannelBindingTheorems.ActiveIsAbsorbing | src/legal_chatbot/channels/repository.py:274-297 | an active binding keeps its row, conversation included, until that conversation is purged |
| ChannelBindingTheorems.ActivationIsNeverUndone | src/legal_chatbot/channels/service.py:209-246 | after a committed activation its caller's fail is rejected and changes nothing, however late |
| ChannelBindingTheorems.ConversationsAreNeverShared | src/legal_chatbot/channels/orm.py:76-81 | over a whole run, purges included, no conversation is bound twice and no binding activated twice; two active bindings have two conversations |
| ChannelBindingTheorems.DisplacedIsFenced | src/legal_chatbot/channels/repository.py:211-219 | a reserver displaced since the binding last failed can neither activate nor fail it, at any clock |
| ChannelBindingTheorems.TakeoverIsLater | src/legal_chatbot/channels/repository.py:280-297 | taking over installs a lease strictly later than all since the last failure |
| ChannelBindingTheorems.ActivationIsDecidedByLease | src/legal_chatbot/channels/repository.py:192-231 | on its own clock a reserver activates exactly when the binding is still BINDING under its lease |
| ChannelLeaseReuse.LeaseReuseAfterFailure | src/legal_chatbot/channels/repository.py:286-297 | a run of the whole system in which a failed binding hands out an old lease again and the reserver displaced from it is bound |
| ChannelBindingTheorems.ForwardClocksFence | src/legal_chatbot/channels/repository.py:211-219 | when no reserver's clock is behind an earlier one's, a reserver whose binding was ever handed out under a later lease can neither activate nor fail it, failures in between or not |
| ChannelOutbox.OutboundRepository.Reserve | src/legal_chatbot/channels/repository.py:332-372 | the deliveries and the answer after reserving are those of the transaction: inactive binding, existing delivery, mismatch, unique violation, insert |
| ChannelOutbox.OutboundRepository.MarkSendingOnce | src/legal_chatbot/channels/repository.py:374-417 | the deliveries and the answer after marking are those of the transaction, the partial unique index included |
| ChannelOutbox.OutboundRepository.Complete | src/legal_chatbot/channels/repository.py:419-457 | the deliveries and the answer after completing are those of the transaction |
| ChannelOutbox.CompletionIsWritable | src/legal_chatbot/channels/repository.py:526-540 | every valid receipt turns a SENDING row into a row that passes its constraints and can be returned |
| ChannelOutboxProtocol.RunKeeps | src/legal_chatbot/channels/repository.py:323-457 | every interleaving keeps the table, one winner per row, and one logged send per winner that called |
| ChannelOutboxTheorems.AtMostOneSendPerRow | src/legal_chatbot/channels/repository.py:386-413 | the adapter is called at most once per row ever inserted, only by the winner of PENDING to SENDING |
| ChannelOutboxTheorems.AtMostOneSendWhileRowExists | src/legal_chatbot/channels/orm.py:122-126 | two sends for rows that still exist are of two deliveries |
| ChannelOutboxTheorems.SendsAreBoundedByInserts | src/legal_chatbot/channels/repository.py:332-372 | the adapter is called for a delivery no more often than rows were inserted for it |
| ChannelOutboxTheorems.StatusIsTheReceipt | src/legal_chatbot/channels/repository.py:526-540 | a final row was called, and is SENT exactly for SENT, FAILED exactly for a rejection and UNKNOWN exactly for a timeout, an unavailable channel or an invalid response, with the code of that call; a PENDING row was never called |
| ChannelOutboxTheorems.AcknowledgedMeansSent | src/legal_chatbot/channels/repository.py:475-481 | a reservation answers SENT only for a row of that delivery whose one call returned SENT |
| ChannelOutboxTheorems.ReservingAgainReports | src/legal_chatbot/channels/repository.py:475-481 | reserving a delivery again answers RESERVED for a PENDING row, PROCESSING for a SENDING one, and from then on SENT, FAILED or UNKNOWN as the one logged call returned, with its code |
| ChannelOutboxTheorems.RecordingIsFaithful | src/legal_chatbot/channels/repository.py:419-457 | recording succeeds exactly when the row still exists; then the row and the answer say SENT, FAILED or UNKNOWN as the recorder's own call did, with its code, and no other row changes |
| ChannelOutboxTheorems.CrashBlocksBinding | src/legal_chatbot/channels/orm.py:178-183 | while a SENDING row is neither recorded nor deleted, marking any other row of its binding fails |
| ChannelSystemSteps.RunKeeps | src/legal_chatbot/channels/service.py:62-246 | every event of every handler and every purge keeps the three tables linked and every handler's assumptions true |
| ChannelSystemTheorems.EachExchangeIsServedOnce | src/legal_chatbot/channels/service.py:98-176 | over whole runs no exchange is put to the chat port twice and none is sent twice, deletions or not; every send is for a row inserted for one exchange and its delivery |
| ChannelSystemTheorems.AcknowledgedMeansDelivered | src/legal_chatbot/channels/service.py:158-207 | ACKNOWLEDGED is returned only after a call for the handler's own delivery that returned SENT |
| ChannelSystemTheorems.OutboundRowsAreLinked | src/legal_chatbot/channels/orm.py:113-127 | every outbound row belongs to a completed exchange of its own delivery in the conversation its binding is active for |
| ChannelSystemTheorems.AtMostOncePerRememberedDelivery | src/legal_chatbot/channels/repository.py:342-354 | two sends of exchanges that still exist are of two deliveries |
| ChannelSystemTheorems.ComponentsKeepTheirPromises | src/legal_chatbot/channels/service.py:62-207 | every conversation, the bindings and the outbound table of the composed system satisfy their component invariants, so the component theorems hold of it |
| ChannelDecisions.ArrivalIsDecided | src/legal_chatbot/channels/service.py:70-96 | an arrived handler inserts a row for an unknown identity, is bound by an active row, waits for a leased one and takes over any other under a lease of its own |
| ChannelDecisions.ActivatingIsDecided | src/legal_chatbot/channels/service.py:209-246 | activating binds exactly when the row is still held under the handler's token and the conversation is there and nobody else's; a commit that is reported as failed is a commit whose handler gives up |
| ChannelDecisions.GivingUpIsDecided | src/legal_chatbot/channels/service.py:209-246 | giving up fails the row exactly while it is held under the handler's token, and always answers that the service is unavailable |
| ChannelDecisions.AskingIsDecided | src/legal_chatbot/conversation/service.py:100-135 | the chat port is asked once for the handler's exchange, and its valid result stands; anything else becomes the fixed refusal |
| ChannelDecisions.CompletingIsDecided | src/legal_chatbot/channels/service.py:98-124 | a handler with its answer is refused for a plan that is too long or a result of the wrong shape, not retried when its exchange, its lease or its conversation is gone or its result has a control character, and otherwise replies |
| ChannelDecisions.ReplyingIsDecided | src/legal_chatbot/channels/service.py:126-161 | a reply is refused when it cannot be formatted or its binding is not active; an existing outbound row decides by its status; otherwise one PENDING row is inserted unless the exchange is gone or taken |
| ChannelDecisions.MarkingIsDecided | src/legal_chatbot/channels/service.py:163-180 | marking owns the send exactly when the row is PENDING and no row of its binding is SENDING |
| ChannelDecisions.RecordingIsDecided | src/legal_chatbot/channels/service.py:182-207 | a delivered message is acknowledged, any other is not retried, and a row that is gone or a commit that is not reported refuses |
| ChannelDecisions.FailingIsDecided | src/legal_chatbot/channels/service.py:62-207 | a repository call that raises makes a handler that has a token give up its binding first, and any other answer that the service is unavailable |
| ChannelDecisions.CascadeIsExact | src/legal_chatbot/channels/orm.py:113-127 | the cascade of the foreign keys deletes exactly the outbound rows whose exchange or whose binding is gone |
| ChannelProgress.DeliveryIsDecided | src/legal_chatbot/channels/service.py:62-207 | for every inbound message of a bound identity and every reachable state whose conversation does not know the delivery: how the handler ends, run alone with a working channel, from the text, the expiry, the newest lease, the row count, the chat result, the delivery key and the SENDING rows found at its arrival |
| ChannelFirstContact.FirstContactIsDecided | src/legal_chatbot/channels/service.py:62-246 | from every reachable state every first message of an unknown identity, run alone with a working channel, is bound to a new conversation, and it is acknowledged exactly when its text has no line break, its result can be stored and its delivery key is nobody else's |
| ChannelProgress.ReservingIsDecided | src/legal_chatbot/channels/service.py:98-124 | a bound handler is refused for a text with a line break; otherwise it replays, waits, gives up or asks by the expiry of its conversation, its delivery's row and the newest row's lease alone |
| ChannelProgress.RedeliveryIsDecided | src/legal_chatbot/channels/service.py:98-161 | delivering a completed delivery again asks and sends nothing: a SENT row is acknowledged, a PENDING one is taken up again, any other is not retried, and a text with a line break is refused |
| UnreadableMessage.TwoLinesAreRefused | src/legal_chatbot/channels/models.py:105-116 | a two-line message is a valid inbound message; from nothing, its handler ends as unavailable with an active binding to an empty conversation, and nothing asked or sent |
| UnreadableMessage.UnreadableIsRefusedForever | src/legal_chatbot/channels/service.py:98-102 | after a first message with a line break, whatever happens, every later delivery of it while the identity is bound ends as unavailable and changes nothing |
| UnreadableMessage.UnreadableIsNeverServed | src/legal_chatbot/conversation/models.py:97-108 | over every run no message with a line break gets past its binding, is put to the chat port, or is acknowledged |
| ChannelEffects.ServedLeaves | src/legal_chatbot/channels/service.py:98-207 | an acknowledged delivery leaves exactly its exchange, its inserted row and one call of the adapter, and moves no other handler |
| ChannelStopped.StoppedHandlerRefusesNext | src/legal_chatbot/channels/service.py:158-207 | from every reachable state: when the handler of a first message stops after winning the right to send, it has sent nothing, and the next message of the identity is refused |
| ChannelForgetting.DeletionForgets | src/legal_chatbot/channels/orm.py:188-203 | for every n a run of the whole system from nothing, with purges of expired conversations, acknowledges one delivery n times and sends it n times |
| ChatModels.FixedRefusalIsValid | src/legal_chatbot/chat/service.py:581-605 | a fixed refusal with an allowed reason is always a valid result with storable text |
| RetrievalPlanning.PlanRetrieval | src/legal_chatbot/chat/service.py:383-450 | the planning stage gives the expansion and makes the calls of the specification, for any planner and resolver |
| RetrievalPlanning.ExpansionIsThePlan | src/legal_chatbot/chat/service.py:470-488 | the quoted disjunction reads back to exactly the plan's phrases and terms, so nothing the planner returns becomes query syntax |
| RetrievalPlanning.ExpandsIff | src/legal_chatbot/chat/service.py:383-486 | the request is expanded exactly when a safe plan came back that can be quoted, says more than the question, names no other identity and has anchors that resolve; its documents are those of the anchors |
| RetrievalPlanning.RequestIsGuarded | src/legal_chatbot/chat/service.py:110-363 | for any ports: the explicit temporal intent or what the phrases say, and no planner for it; at most one planner, retrieval and provider call in this order; a retrieval request of the user's own text expanded at most by a safe plan's phrases; and answers that cite exactly what this retrieval returned |
| RetrievalPlanning.RespondToRequest | src/legal_chatbot/chat/service.py:110-363 | the whole of respond: guard, plan, one retrieval request, and the pipeline on what it returns |
| GroundedChat.Respond | src/legal_chatbot/chat/service.py:122-363 | from the retrieval on, the pipeline returns what the first stage that does not accept decides, and makes only the guarded calls |
| GroundedChat.ReresolveCitations | src/legal_chatbot/chat/service.py:557-579 | the loop resolves each citation once in order until one has drifted, and returns them all or nothing |
| GroundedChat.AnswersExactlyWhenGrounded | src/legal_chatbot/chat/service.py:110-363 | there is an answer exactly when every stage accepts, and it carries the parsed text and exactly the candidates' citation ids in order |
| GroundedResults.ResultTellsTheStage | src/legal_chatbot/chat/service.py:110-363 | for any ports: the first stage that fails names its reason with its fixed text and nothing else; when none fails the result is the parser's text with the provider's names and, excerpt by excerpt, citations equal in all eight identity fields |
| GroundedResults.DriftIsRefused | src/legal_chatbot/chat/service.py:557-579 | when everything before has worked and one resolved citation differs in any one of its fields, or does not resolve, the result is the refusal CITATION_REVALIDATION_FAILURE |
| GroundedResults.ProviderIsShownTheEvidence | src/legal_chatbot/chat/service.py:500-538 | without the quality adapter the provider's prompt decodes to the policy, the user's question and the very excerpts of the candidates, and is the one built with the user's context |
| Encoding.Utf8ReadsBack | src/legal_chatbot/chat/service.py:258 | the bytes by which a response is bounded are UTF-8: they read back to the text's code points |
| Encoding.CharReadsBack | src/legal_chatbot/chat/service.py:258 | every character takes as few bytes as can hold its code point, from which it is read back |
| GroundedChat.ProviderIsGuarded | src/legal_chatbot/chat/service.py:183-214 | no port call is repeated; the provider is called at most once and only with the prompt of evidence that matches the candidates in order |
| GroundedChat.EveryResultFitsTheStore | src/legal_chatbot/conversation/orm.py:121-151 | every result is valid and meets the database's shape check, and it is storable exactly when the request is not grounded or the parsed answer has no control character |
| GroundedChat.TwoLinesCannotBeStored | src/legal_chatbot/chat/models.py:36-37 | with ports that all work and an answer of two lines the request is grounded and its result cannot be stored |
| UnstorableAnswer.UnstorableIsNeverAnswered | src/legal_chatbot/conversation/service.py:60-173 | a result that cannot be stored makes the service fail; whatever follows short of storing something else for that ticket, every redelivery while the exchange exists is told in progress, lease expired or conversation expired, and never gets an answer |
| UnstorableAnswer.AnswerWithControlIsNeverAnswered | src/legal_chatbot/conversation/models.py:80-88 | so it is with every grounded answer of the pipeline that holds a line break or a tab |
| GroundedChat.ShapeAndValidatorDiffer | src/legal_chatbot/chat/models.py:325-367 | a retrieval failure that names a run is a valid result that no row can hold, and an answer without citations fits a row but is not valid |
| Json.GuardIsTheReplacements | src/legal_chatbot/chat/prompt.py:45 | the three successive replacements of the whole text are the guard of each of its characters |
| Json.GuardedHasNoMarkup | src/legal_chatbot/chat/prompt.py:41-45 | guarded text contains none of the characters that form delimiters |
| Json.ReadPrintedChars | src/legal_chatbot/chat/prompt.py:41-45 | a printed and guarded string decodes to itself, quotation marks, controls and markup included |
| Json.EscapesAreShortest | src/legal_chatbot/chat/prompt.py:41-45 | a character that must be escaped takes two characters if there is a code for it and six otherwise; any other stands for itself |
| Json.Reads | src/legal_chatbot/chat/prompt.py:41-45 | reading a compact value followed by text that does not start with a digit gives back the value and that text |
| Json.CompactRoundTrip | src/legal_chatbot/chat/prompt.py:41-45 | decoding is the inverse of compact printing, for every value |
| Prompt.DelimitersOccurOnce | src/legal_chatbot/chat/prompt.py:90-130 | each delimiter occurs exactly once, those of the context exactly when it is included, whatever the untrusted texts hold |
| Prompt.PromptRoundTrip | src/legal_chatbot/chat/prompt.py:83-102 | the text between the delimiters decodes to exactly the question and to the excerpts in order, numbered from one, and the policy stands alone between its own |
| Prompt.ContextOnlyExtends | src/legal_chatbot/chat/prompt.py:105-131 | optional context only extends the base prompt within the bound, is included exactly when it fits, and decodes to the same summary, topic and turns |
| Prompt.PromptIsBounded | src/legal_chatbot/chat/prompt.py:103-131 | no prompt exceeds its bound |
| Prompt.PromptExistsIff | src/legal_chatbot/chat/prompt.py:73-104 | there is a prompt exactly when the question, the number of excerpts, each excerpt, all excerpts together and the sections with their delimiters are within their bounds |
| Prompt.ContextFitsIff | src/legal_chatbot/chat/prompt.py:105-130 | the context is included exactly when its texts, its JSON and the whole prompt with it are within their bounds |
| TsQuery.CloseIsGreedy | src/legal_chatbot/documents/fts_query.py:8 | the scanner's closing quote is the furthest one for which the text in between matches the lexeme pattern |
| TsQuery.LexemesOfRendered | src/legal_chatbot/documents/fts_query.py:28-32 | scanning rendered lexemes gives back any lexemes: empty ones, ones with quotes, ones with the separator |
| TsQuery.OutputHoldsFirstDistinct | src/legal_chatbot/documents/fts_query.py:11-32 | the output scans to exactly the first max_lexemes distinct lexemes in first-seen order, the count and flag agree, and a maximum out of range is an error |
| TsQuery.RebuildIsIdentity | src/legal_chatbot/documents/fts_query.py:11-32 | rebuilding from its own output is the identity and truncates nothing |
| DemoGate.Gate.Do | scripts/demo_gate.py:36-53 | start, submit, approve and reject change exactly the state the guards allow, and an error changes nothing |
| DemoGate.StartedMeansAllPass | scripts/demo_gate.py:36-41 | a milestone that has ever started has every transitive dependency PASS |
| DemoGate.ApprovalsAreTopological | scripts/demo_gate.py:46-49 | each milestone is approved at most once, after everything it depends on, and is PASS exactly when approved |
| DemoGate.CyclesNeverStart | scripts/demo_gate.py:38-40 | a milestone on a dependency cycle never leaves NOT_STARTED |
| DemoGate.PassIsAbsorbing | scripts/demo_gate.py:36-53 | a milestone that passed keeps its whole entry |
| DemoGate.HistoryYieldsStatus | scripts/demo_gate.py:28 | replaying a milestone's history through the status automaton yields its status |
| DemoGate.StampsAreTheHistory | scripts/demo_gate.py:36-53 | over every run the stamps of a milestone are those of its history: its last start, approval and rejection, and the submission since its last start |
| DemoGate.StartableIff | scripts/demo_gate.py:38-40 | start is accepted exactly for a milestone not started or rejected whose direct dependencies have all been approved |
| ChannelRecipients.Registry.Remember | src/legal_chatbot/channels/recipients.py:21-28 | the registry that calls are forwarded to has the identity as its newest entry and its oldest entries evicted; no other registry of the chain changes |
| ChannelRecipients.Registry.Resolve | src/legal_chatbot/channels/recipients.py:30-33 | the chat id held by the registry that calls are forwarded to |
| ChannelRecipients.Registry.Clear | src/legal_chatbot/channels/recipients.py:35-42 | one identity or all are removed from the registry that calls are forwarded to |
| ChannelRecipients.Evicted | src/legal_chatbot/channels/recipients.py:27-28 | the eviction loop leaves the newest `maximum` entries |
| ChannelRecipients.ResolvesIffRecent | src/legal_chatbot/channels/recipients.py:21-33 | an identity resolves to its latest chat exactly when fewer than `maximum` other identities were remembered since |
| ChannelRecipients.UnknownNeverResolves | src/legal_chatbot/channels/recipients.py:30-33 | an identity never remembered never resolves |
| ChannelRecipients.NeverStale | src/legal_chatbot/channels/recipients.py:21-42 | with clears interleaved the bound holds and nothing resolves but to the chat last remembered and not cleared |
| MetadataBackfill.DocumentMetadataBackfill.Run | src/legal_chatbot/documents/metadata_backfill.py:32-77 | scans each eligible row once, sets every missing key to its normalisation and nothing else, counts both, for every batch size alike; a number that cannot be normalised leaves exactly the whole batches before it |
| MetadataBackfill.BatchIsNext | src/legal_chatbot/documents/metadata_backfill.py:60-77 | each batch is the next eligible rows of the table as it was at the start, although earlier ones are no longer eligible |
| MetadataBackfill.FilledIsExact | src/legal_chatbot/documents/metadata_backfill.py:45-56 | existing keys and all numbers are untouched, and a key appears exactly where a missing one has a normalisation |
| MetadataBackfill.UpdateWritesOnce | src/legal_chatbot/documents/metadata_backfill.py:45-56 | the update changes the row of its id unless that has a key already, and counts exactly what it changes |
| MetadataBackfill.SecondRunUpdatesNothing | src/legal_chatbot/documents/metadata_backfill.py:49-57 | a second run leaves the table as it is and updates no row |
| MetadataBackfill.RunsAgree | src/legal_chatbot/documents/metadata_backfill.py:32-57 | when every number can be normalised, any number of runs with any batch sizes leaves the table one run leaves |
| MetadataBackfill.FailureIsPermanent | src/legal_chatbot/documents/metadata_backfill.py:45-47 | a number that cannot be normalised fails every run of any sequence of later runs, whatever their batch sizes, and the rows from it on are never touched |

## Left out

- Sessions, driver errors and the retries after a unique violation: every locked transaction is one step with the unique indexes as guards, so the raced reads are the next step's reads. Rows are values in a table field of the repository class rather than objects shared between sessions.
- `ChannelService.handle_inbound` is the step function of a handler's program counter, not one straight method, because other handlers may run at each of its awaits; `ChannelProgress` and `ChannelFirstContact` run the steps of one handler alone.
- Unicode NFC folding, stripping and case folding are the identity; a control character is one of category Cc (the other C categories are not distinguished).
- SHA-256 and HMAC: keys are the delivery id itself and any 64 hexadecimal digits, so two deliveries collide only when they are equal.
- UUIDs are fresh numbers: an event that draws a used one does not happen.
- Ordinals, versions and timestamps are unbounded integers; the 32-bit width of the ordinal column is not modelled. Timestamps that nothing reads (created_at, updated_at) are not modelled.
- Rejection of naive timestamps and of arguments of the wrong Python type: the types exclude them.
- The foreign key from exchanges to retrieval runs, and the resolver, retrieval and provider internals behind the ports.
- The content filters of provider answers (URLs, UUIDs, evidence tokens) are a predicate on the text, and the provider's JSON parser is a port that returns anything.
- The planner's patterns (safe plans, protected identities) and the temporal phrase lists are predicates on the text; the planner's own prompt and parser are behind its port.
- The prompt that the quality adapter's context selects is any function of the evidence, not its structured text.
- Wording of the prompt policy and of the context notice: a parameter without markup. Surrogate code points do not occur in the model's strings.
- Locators, titles and other display metadata of citations are one display field; the formatter's text is a parameter of the outbound step.
- `load_snapshot`, `derive_retrieval_query` and `to_chat_context`: single-branch readers over what is modelled.
- Purging is one conversation at a time, with its cascade; the limit and order of a purge batch are not modelled.
- A recipient registry with a negative maximum, or one forwarded to itself: the source raises for both.
- Logging, settings loading, HTTP, webhook parsing and authentication, ingestion, retrieval, evaluation and reporting.
