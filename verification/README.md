# MailGable: models and proofs

MailGable keeps mail in two stores that share no transaction: rows in D1 and objects in R2.  Mail providers, webhooks
and redelivered mail drive it, and any request may die between two steps.  This project models the parts of it where
that matters, and its codecs, in Dafny 4.11, and proves what they promise.

How it is modelled:

- A D1 statement is one atomic action on maps, a D1 batch is all or nothing, R2 is a set of keys.
- A request that takes part in a concurrent protocol is a worker with a program counter.  `Run` plays any sequence of
  actions of any number of workers, so a statement about every `Run` covers every interleaving, every crash point and
  every repetition.  An action that is not enabled changes nothing.
- Lost answers, failed writes, the clock, the provider's verdict and the server's replies are parameters of the actions.
- Loops and updates in place are methods and classes, proved against functions; the properties are lemmas about those
  functions.
- Hashes are taken to be injective and random tokens to be new: `Outbound` carries the payload hash as a number, and
  `JsonReader.HashInputEqualIffSame` says that what is hashed separates any two different payloads.

The files by topic:

| topic | files |
|---|---|
| sending and retrying | `Outbound` (protocol and invariant), `OutboundOutcomes` (what becomes of a request), `OutboundFailures` (what `failed` means), `OutboundRuns` (where the guarantees end) |
| delivery events | `Delivery` |
| receiving and forwarding | `Inbound`, `Forwarding`, `ForwardingRuns` |
| threads and their list | `Threads`, `ThreadCrashes`, `Cursor`, `Pagination`, `Lex` |
| deletion and cleanup | `Retention`, `Cleanup` |
| routing synchronisation | `RoutingRules`, `RoutingApply` |
| recipients | `Addresses`, `Recipients` |
| MIME | `Mime` (printer), `MimeParser` (reference parser for RFC 2046 section 5.1.1), `MimeReading` (their round trip), `MimeFields` (what the header fields say) |
| JSON, UTF-8, base64, percent-encoding | `JsonText`, `Json`, `JsonReader`, `Utf8`, `Base64`, `Percent` |
| sessions, logins, credentials | `Sessions`, `LoginBursts`, `Credentials` |

Where the code does less than its comments, documentation or names say, the project follows the code and gives both a
concrete failure and the exact condition, or the assumption under which the promise holds:

- A message is accepted at most once if and only if the retry window plus the delay of a call stays below the lifetime
  of the provider's key (`OutboundRuns.AtMostOnceIffSafe`).  This holds for every run, changes of `OUTBOUND_PROVIDER`
  included, in which no send resumes a row through a provider other than the pinned one (`Outbound.AtMostOncePinned`,
  `OutboundRuns.PinnedAtMostOnceIffSafe`).  The code does not check that: a send goes through the active provider, and
  then a message can be accepted twice if and only if its row's provider has a window
  (`OutboundRuns.SwitchingDoublesIffWindow`).
- A row marked `failed` may have been accepted.  What it says depends on the write that marked it
  (`OutboundFailures.WhatFailedMeans`): after the refusal of a repeated call, or a delivery event, the message was accepted;
  after any other refusal it was not, if the window is safe and every call was made while no other was unsettled and the row
  did not say `failed`; an expired window decides nothing.  So a row marked `failed` was certainly not accepted, if in
  addition no request wrote `failed` for an expired window, no refusal of a repeated call was read, and no delivery event
  came (`OutboundFailures.FailedIsRefused`); for each of the five there is a run in which it alone goes wrong
  (`OutboundRuns.FailedMayBeAccepted`, `OutboundRuns.RefusedMayBeAccepted`, `OutboundRuns.ReportedMayBeAccepted`).  Where
  there is no window, an accepted message is marked `failed` if and only if the last of the expired-window writes and the
  delivery events said so; before any delivery event, if and only if an expired-window write took place
  (`OutboundFailures.AcceptedFailsIffExpired`).
- The status writes at `src/mail/outbound.ts:298`, `:302`, `:353` and `:388` do not look at the old status and can
  overwrite a delivery status (`Delivery.UnguardedWriteBreaksStatus`, exactly when); the next delivery event repairs it
  (`Delivery.CommitHealsStatus`).
- `truncateUtf8` can return a string that ends in a high surrogate, if and only if the input has two adjacent ones
  (`Utf8.TruncationIsLongestWholeIff`).
- `stableStringify` prints Infinity (what `JSON.parse` makes of `1e999`) like null, and -0 like 0; these are its only
  collisions besides key order (`JsonReader.StringifyEqualIffSame`).
- The forwarding lease excludes a second driver if and only if drivers act on a claim for at most 899 000 ms, one second
  less than the 15 minutes in the code (`ForwardingRuns.ExclusiveIffQuick`): SQLite compares whole seconds.
- A claim INSERT that commits but is reported as failed can lose the raw message; in every run this is the only way, and
  it concerns that one message (`Inbound.ArchiveIsConsistent`, `Inbound.LostClaimAnswerLosesMail`).
- A thread whose deletion failed is not always "fully intact", as two comments in `src/mail/retention.ts` say: it is if and
  only if there was nothing to delete before the failure (`Retention.IntactIffNothingDeleted`,
  `Retention.FailedDeletionIsNotIntact`).  It is always deletable by a later attempt (`Retention.RetryFinishes`).
- Running `reconcileProviderMessageId` again after a crash is as good as an uninterrupted run if and only if every source
  thread that had not been tidied keeps a message and already had a right row (`ThreadCrashes.RerunRepairsIff`); an emptied
  one is not removed by any later reconciliation (`ThreadCrashes.LeftoverStays`).
- A delivery whose claim finds its thread's row gone stores nothing and throws; this happens only if another attempt at the
  same thread has removed the empty row that both had placed (`Inbound.OnlyAnUndoPreventsStoring`), and then it does
  (`Inbound.UndoCanPreventStoring`).  Otherwise a claim that does not throw always leaves a row (`Inbound.ClaimStoresIff`).
- A subject that is itself written like an encoded word is archived as it is, so that a reader decodes it into another one;
  every other subject is read back (`MimeFields.SubjectIsReadIff`).
- A file name with a lone surrogate, which cutting it to 160 code units can leave behind, makes `encodeURIComponent` throw,
  so that the message cannot be archived (`Mime.RawOutgoingMessage`).
- An idle limit of five minutes or less bounds the whole session, and any limit may act up to five minutes early
  (`Sessions.SmallLimitIsAbsolute`, `Sessions.GapCanExpireEarly`).
- Two rotations started together can leave the Worker with an old credential and no journal
  (`Credentials.ConcurrentRotationsLoseTheJournal`).
- A cursor whose key does not have the two checked forms leads back to the first page (`Pagination.LostKeyRestarts`).
- The closing check of the routing synchronisation compares two orders; when it fails, the table is right all the same,
  unless several rows have one normalised address or a row has none (`RoutingApply.DoneMatchesIff`,
  `RoutingApply.MailboxTable.ApplyRoutingPlan`).
- Overlapping logins can record more failures than the limit, by exactly the number in flight less one
  (`LoginBursts.BurstsAreLimited`, `LoginBursts.BurstsReachTheLimit`).

## Model

| member | source | states |
|---|---|---|
| Outbound.AtMostOnce | src/mail/outbound.ts:278-405 | for every run of any number of sends and retries on one key, with any lost or late answers and crashes and a fixed provider: at most one acceptance; without a retry window at most one provider call ever; an acceptance is of the row's own payload at the row's provider, after archiving, and inside created_at + window + slack; status `sent` only if the provider accepted |
| Outbound.AtMostOncePinned | src/mail/outbound.ts:278-405 | the same over every run in which OUTBOUND_PROVIDER may change at any time, as long as no send resumes a row with an active provider other than the row's: at most one acceptance where the window is safe, one call at most where there is none, and every acceptance is of the row's payload, at its provider, in time |
| Outbound.NoWindowAtMostOnce | src/mail/outbound.ts:295-301 | a row pinned to a provider without a window needs no such care: in every run, switches included, one call and one acceptance at most |
| OutboundOutcomes.FirstSendSettles | src/mail/outbound.ts:303-364 | from every reachable state in which the key has no row, an undisturbed send stores and archives the message, calls the active provider once, and settles the row as the answer says: `sent`, `sending`, `retryable_failed` or `failed` |
| OutboundOutcomes.RepeatedSendSettles | src/mail/outbound.ts:280-364 | from every reachable state with a waiting row inside its window, an undisturbed send of the same payload marks the row `sending`, archives the message if that is missing, calls the active provider and settles the row by the answer |
| OutboundOutcomes.RetrySettles | src/mail/outbound.ts:366-405 | the same for a retry of an archived message, through the provider the row is pinned to |
| OutboundOutcomes.LateRequestFails | src/mail/outbound.ts:295-301 | outside the window a send or retry calls nobody and marks a waiting row `failed` |
| OutboundOutcomes.SettledRowIsLeftAlone | src/mail/outbound.ts:280-290 | a request ends without touching anything if and only if the row is settled or the payload another one (for a retry: the row is settled or the message not archived) |
| OutboundOutcomes.FailedArchivingIsRetryable | src/mail/outbound.ts:349-357 | a failed archiving leaves `retryable_failed`, and nobody is called |
| OutboundOutcomes.AnswerIsRecorded | src/providers/resend.ts:66-95 | in any state, the answer a request reads is recorded in the row, unless the row has been settled; a settled row keeps its status |
| OutboundOutcomes.UnansweredIsSending | src/providers/resend.ts:66-70 | a call whose answer does not come leaves a waiting row `sending`, so that it can be retried |
| OutboundRuns.AtMostOnceIffSafe | src/mail/outbound.ts:291-301 | at most one acceptance over all runs with a fixed provider if and only if window + slack is below the lifetime of the provider's key (or there is no window) |
| OutboundRuns.PinnedAtMostOnceIffSafe | src/mail/outbound.ts:291-302 | the same over all runs in which no send resumes a row through another provider, if and only if every provider's window is safe |
| Outbound.StepKeepsInv | src/mail/outbound.ts:278-364 | every single step of a send or retry keeps the protocol invariant: grants are within the window, only the worker whose INSERT won calls a provider without a window, acceptances are of the row |
| Outbound.AcceptedIsRemembered | src/providers/resend.ts:56-65 | a call that arrives while window + slack is below the key's lifetime finds the first acceptance still remembered |
| OutboundRuns.DeployedWindows | docs/providers/RESEND.md:6-7 | with the documented lifetimes and the deployed windows: no run with a fixed provider has two acceptances if and only if calls take less than one hour (Resend), less than five minutes (Brevo), and in any case at Cloudflare |
| OutboundRuns.SwitchingProviderDoubles | src/mail/outbound.ts:256-260 | if OUTBOUND_PROVIDER changes between a lost answer and a resend, some run has two acceptances, whatever the margins |
| OutboundRuns.SwitchingDoublesIffWindow | src/mail/outbound.ts:295-302 | over all runs, switches included, a row's message can be accepted twice if and only if its provider has a window |
| OutboundFailures.WhatFailedMeans | src/providers/resend.ts:79-88 | in every run in which no send resumes through another provider, late calls, refused repetitions and delivery events included: a row marked by a refused repetition or a delivery event was accepted; with a safe window and calls made one by one on rows that do not say `failed`, a row not marked for an expired window was not accepted if and only if a call that repeated nothing was refused |
| OutboundFailures.FailedIsRefused | src/mail/outbound.ts:292-364 | with a safe window, a row that says `failed` was certainly not accepted, in every such run without expired-window write, refused repetition or delivery event, in which every call was made while no other was unsettled and the row did not say `failed` |
| OutboundFailures.AcceptedFailsIffExpired | src/mail/outbound.ts:295-301 | without a window, in every run, delivery events included: an accepted message is marked `failed` if and only if the last of the expired-window writes and delivery events wrote `failed`; before any delivery event, if and only if some request wrote `failed` for the missing window |
| OutboundRuns.FailedMayBeAccepted | src/mail/outbound.ts:297-301 | at every provider, a run in which nothing but the expired-window write goes wrong and an accepted message ends as `failed`, and one in which a message that was never sent does |
| OutboundRuns.RefusedMayBeAccepted | src/resend-policy.ts:11-15 | at every provider with a window, an accepted message ends as `failed` in a run in which only a call beside another one goes wrong, in one with only a call on a row that says `failed`, and in one in which only the repetition of the call is refused |
| OutboundRuns.ReportedMayBeAccepted | src/providers/events.ts:161-168 | at every provider, a run in which nothing but a delivery event marks a message as `failed` that was accepted and `sent` |
| OutboundRuns.ExpiryMayBeTakenBack | src/providers/cloudflare-email.ts:159-161 | at every provider, a run in which an accepted message is marked `failed` for its window and a later delivery event takes it back |
| Delivery.UpdateRecipientSummary | src/providers/events.ts:18-26 | the loop computes the join of the stored summary with what the event says by itself |
| Delivery.JoinIsCommutative | src/providers/events.ts:18-26 | merging does not depend on order |
| Delivery.JoinIsAssociative | src/providers/events.ts:18-26 | merging does not depend on grouping |
| Delivery.JoinIsLeastUpperBound | src/mail/constants.ts:20-31 | merging is idempotent and gives the least summary above both in the rank order |
| Delivery.JoinAllIsMaximum | src/providers/events.ts:18-26 | the summary of a list of events gives each recipient the highest-ranked status some event reports for it, and no other recipient |
| Delivery.MoreEventsSayMore | src/providers/events.ts:18-26 | more events never lower a summary |
| Delivery.SameEventsSameSummary | src/providers/events.ts:18-26 | order and repetition of events do not matter |
| Delivery.AggregateDeliveryStatus | src/lib.ts:339-352 | the computation over Object.values depends only on the set of statuses, in whatever order they are listed |
| Delivery.BadIffAnyNegative | src/lib.ts:342-350 | the aggregate is negative or partially_failed if and only if some recipient is negative |
| Delivery.BestIsMaximum | src/lib.ts:351 | without negatives the aggregate is the highest-ranked status present, and at least `sent` |
| Delivery.WorstFailureWins | src/lib.ts:344-349 | if every recipient has failed, the aggregate is the highest-ranked failure |
| Delivery.RankIsPosition | src/mail/constants.ts:20-31 | the ranks ascend along the ten statuses in their order, and a failure prevails over everything that is none |
| Delivery.AggregateIsMonotone | src/lib.ts:339-352 | while no recipient is negative, a higher summary has an aggregate of at least the same rank |
| Delivery.NoUpdateIsLost | src/providers/events.ts:146-220 | in every run of any number of workers, with failed swaps, crashes and redeliveries: the stored summary is the pointwise rank-maximum of the events whose swap committed; an event is recorded as correlated if and only if its worker's lookup had found the message, and then what it says is in the summary |
| Delivery.NewEventIsMerged | src/providers/events.ts:172-218 | from every reachable state, an undisturbed worker with a new event about a known message ends with the event's status in the summary for exactly its recipients (unless a stronger one is there), the message status drawn from the summary, and the event recorded as correlated |
| Delivery.DuplicateIsIgnored | src/providers/events.ts:181-186 | a recorded event changes nothing when it comes again |
| Delivery.UnknownEventIsRecorded | src/providers/events.ts:186-218 | an event about no known message is recorded and changes nothing else |
| Delivery.LateSwapIsRetried | src/providers/events.ts:151-168 | a swap that finds another summary is tried again, up to eight times, and then succeeds if nothing intervenes; after the eighth the worker gives up without a trace |
| Delivery.GuardedWritesYield | src/mail/outbound.ts:361 | provider outcomes and the final `sent` are written if and only if the status still waits for one; after a commit they never are |
| Delivery.StatusTracksSummary | src/providers/events.ts:161-168 | if every unguarded write lands while the status it was decided on stands, then once an event has committed the message status equals the aggregate of the summary throughout the run |
| Delivery.UnguardedWriteBreaksStatus | src/mail/outbound.ts:302-303 | an unguarded write after a commit keeps the status right if and only if it writes `failed` and every recipient has failed |
| Delivery.CommitHealsStatus | src/providers/events.ts:162-168 | whatever was written before, unguarded writes included: once a swap commits, the status is the aggregate of everything committed, and stays so through any run whose unguarded writes land while their status stands |
| Delivery.StatusOnlyAdvances | src/lib.ts:339-352 | after the first commit the status rank never falls while no recipient is negative, and once one is negative the status stays negative or partially_failed |
| Inbound.ArchiveIsConsistent | src/mail/inbound.ts:77-130 | in every interleaving of deliveries: each message row's thread exists; its raw object is gone if and only if the attempt that made the row was told its claim had failed and deleted its object (never, if no failed statement was committed); one winner per message id; no two rows share an object |
| Inbound.NewMailIsStored | src/mail/inbound.ts:77-130 | from every reachable state, the undisturbed delivery of mail without a row adds exactly its row, which names the attempt's own object, that object, and its thread |
| Inbound.DuplicateLeavesNoTrace | src/mail/inbound.ts:115-128 | from every reachable state, the undisturbed delivery of a duplicate into the same thread leaves rows, objects and threads as they were |
| Inbound.ClaimStoresIff | src/mail/inbound.ts:94-114 | in every run, after a claim that does not throw the mail has a row, for ever, if and only if it had one before or its thread was still there; a new row is the winner's own |
| Inbound.OnlyAnUndoPreventsStoring | src/mail/inbound.ts:116-119 | in every run, a thread placed for a claim is gone only if another attempt at the same thread has removed it |
| Inbound.UndoCanPreventStoring | src/mail/inbound.ts:84-89 | two deliveries of one mail: the first fails to store its object and removes the empty thread, and the second cannot claim |
| Inbound.ClaimedMailStays | src/mail/inbound.ts:94-128 | whatever runs after a claim, the row stays as it is, and its raw object stays stored unless its own misinformed attempt deletes it |
| Inbound.ObjectsAreAccountedFor | src/mail/inbound.ts:79-128 | in every run R2 holds exactly the objects of rows that have not lost theirs in that way, those of attempts still before their claim or undo, and those that died or failed to be deleted |
| Inbound.QuietStateIsClean | src/mail/inbound.ts:115-128 | when all attempts have ended, nothing was left behind and no claim was misreported, objects and threads are exactly those of the message rows |
| Inbound.LostMailWasMisreported | src/mail/inbound.ts:94-120 | a row without its object comes from a claim that threw after it had committed, and from the delete that followed |
| Inbound.LostClaimAnswerLosesMail | src/mail/inbound.ts:115-120 | such a run exists for every message |
| Forwarding.LeaseEndIsExact | src/inbound-forwarding.ts:91 | a claim can be taken over from one instant on, between 14:59.000 (exclusive) and 15:00.000 after its stamp, because SQLite compares whole seconds |
| Forwarding.DrivenSays | src/inbound-forwarding.ts:82-118 | one target's row after a driver: an accepted row and an unexpired claim stay; any other gets one more attempt and the new stamp, and is accepted if the copy was sent and that was written, else failed; it counts as accepted if it was, or if the copy was sent |
| Forwarding.ForwardTable.EnsureAttemptRows | src/inbound-forwarding.ts:67-73 | exactly the missing targets get a pending row; existing rows stay |
| Forwarding.ForwardTable.ClaimTarget | src/inbound-forwarding.ts:82-98 | `claimed` if and only if the row is pending, failed or stale in flight; one more attempt and the new stamp on that row only; `accepted` if and only if it was accepted |
| Forwarding.ForwardTable.ClaimAll | src/inbound-forwarding.ts:144-152 | the claiming loop claims exactly the claimable targets and counts the others |
| Forwarding.ForwardTable.ForwardAll | src/inbound-forwarding.ts:158-168 | each claimed row ends accepted or failed by its own luck alone; a forward counts as accepted even if its write failed |
| Forwarding.ForwardTable.DriveAll | src/inbound-forwarding.ts:141-168 | the two loops together leave every target's row as driving it alone would |
| Forwarding.ForwardTable.ForwardInboundCopies | src/inbound-forwarding.ts:128-183 | nothing configured and a loop leave the table untouched; else it fails if and only if no target was or became accepted, and the table is as driven |
| ForwardingRuns.AcceptedIsEarnedAndFinal | src/inbound-forwarding.ts:82-126 | over every run, with no assumption on time: attempts equals the successful claims, accepted means that some forward() returned and its write committed, and accepted is never left |
| ForwardingRuns.DriverIsDriven | src/inbound-forwarding.ts:128-168 | from any state, an undisturbed driver of the concurrent protocol does to a target's row exactly what the sequential driver does to each of its targets, and sends a copy if and only if it could claim and the forward succeeded |
| ForwardingRuns.LeaseExcludes | src/inbound-forwarding.ts:82-98 | if drivers finish before their lease ages out: one holder at a time, no forward starts on an accepted target, one accepted write at most, and a second copy only after an accepted write failed to commit |
| ForwardingRuns.ExclusiveIffQuick | src/inbound-forwarding.ts:28-91 | all of this holds in every run in which drivers act on a claim for at most d milliseconds if and only if d is at most 899 000; even one accepted write at most needs no less |
| ForwardingRuns.SlowDriverSendsTwice | src/inbound-forwarding.ts:89-92 | for every larger d, a run without crash or lost write in which two copies are sent and two accepted writes commit |
| Threads.LatestIsNewest | src/mail/threads.ts:84-91 | the latest message is in the thread, none of its messages is newer, and its time is the maximum |
| Threads.SourcesAreDistinct | src/mail/threads.ts:131-135 | the source threads are listed once each, and are exactly those with a message to move |
| Threads.RefreshedIsExact | src/mail/threads.ts:79-102 | a refreshed row says what recomputing it would say: refreshing it again changes nothing |
| Threads.MailStore.UpdateMessages | src/mail/threads.ts:137-147 | the two UPDATE statements rewrite exactly the parent and the replies |
| Threads.MailStore.ReconcileProviderMessageId | src/mail/threads.ts:125-157 | the whole store afterwards equals the reference transformation, and between its statements the store is exactly that of the crash points below |
| Threads.MessagesAreConserved | src/mail/threads.ts:137-147 | no message is lost or invented; exactly the mailbox's incoming replies move, and only into the parent thread; exactly the parent learns the id, if it had none |
| Threads.RepliesMove | src/mail/threads.ts:131-147 | in terms of columns: a message moves if and only if it is incoming mail of the parent's mailbox, filed elsewhere, that answers the id or mentions it among its references |
| Threads.OnlyEmptiedThreadsGo | src/mail/threads.ts:149-155 | a thread row disappears if and only if it had mail and lost all of it |
| Threads.ConsistencyIsKept | src/mail/threads.ts:125-157 | unique ids, and every message's thread has a row |
| Threads.SummarySays | src/mail/threads.ts:79-102 | a refreshed row, message by message: the number of unread incoming messages (0 if and only if there is none), whether there is an outgoing reply, incoming or outgoing mail, an attachment, and the columns and time of a message than which none in the thread is newer; an empty thread keeps its time |
| Threads.TouchedRowsSayWhatIsThere | src/mail/threads.ts:149-156 | after a reconciliation the row of every surviving thread that gained or lost mail says this of the mail then in it, with subject and mailbox as before; other rows are as they were |
| Threads.CacheIsExact | src/mail/threads.ts:149-156 | every surviving touched thread's stored summary equals its recomputation; an untouched thread keeps its row and is exact if and only if it was |
| Threads.ReconcilingTwice | src/mail/threads.ts:125-157 | a second run changes nothing but timestamps |
| ThreadCrashes.RerunRepairsIff | src/mail/threads.ts:131-156 | for every point at which a run can die: running it again gives, up to timestamps, what an uninterrupted run gives if and only if every source thread not tidied yet keeps a message and its row was right already |
| ThreadCrashes.RerunAfterCrashKeepsThreads | src/mail/threads.ts:143-157 | after a crash behind the message updates, a second run removes no thread and leaves every row but the parent's |
| ThreadCrashes.EmptyThreadStays | src/mail/threads.ts:131-157 | a thread without messages is kept unchanged by any sequence of reconciliations of messages filed elsewhere |
| ThreadCrashes.LeftoverStays | src/mail/threads.ts:149-155 | so an emptied source thread that was not deleted before the crash is never removed by later reconciliations, although the uninterrupted run removes it |
| Cursor.DecodeEncode | src/mail/threads.ts:159-176 | for any JSON reader that reads what was printed, however tolerant otherwise, decoding undoes encoding exactly on keys with a timestamp form and an accepted id, and gives null for all others |
| Cursor.StrictAgrees | src/mail/threads.ts:167-168 | a strict UTF-8 and JSON reader is one |
| Cursor.DecodedIsChecked | src/mail/threads.ts:169 | whatever text is decoded, both parts have the checked forms |
| Cursor.CursorLength | src/mail/threads.ts:191 | the exact length of a cursor; any usual key stays within the 400 characters that are kept |
| Pagination.ListingIs | src/mail/threads.ts:193-237 | the query lists exactly the filtered rows behind the cursor, strictly descending by (last_message_at, thread_id) |
| Pagination.AnswerIsFirstPage | src/mail/threads.ts:221-249 | one answer: the first threads, newest first, of all that match and are older than the cursor; `has_more` and a cursor if and only if there are more than fit, and the cursor stands for the last one shown |
| Lex.LessIff | src/mail/threads.ts:222 | the text order: at the first difference the smaller unit, or the end, comes first |
| Pagination.ListingAfter | src/mail/threads.ts:221-224 | asking behind the last row of a page gives the rest of the listing |
| Pagination.PageCountIsCeiling | src/mail/threads.ts:238-243 | the page count is max(1, ceil(n / limit)) |
| Pagination.TraverseIsWalk | src/mail/threads.ts:244-248 | following the cursor texts is the same as following the keys |
| Pagination.PagesCoverList | src/mail/threads.ts:221-248 | an unchanged table is shown completely, in order, once, in max(1, ceil(n / limit)) pages |
| Pagination.UnchangedThreadIsShownOnce | src/mail/threads.ts:221-248 | whatever happens to other threads between pages, an unchanged matching thread is shown exactly once by a traversal that reaches the last page |
| Pagination.UsualThreadsAreCursorSafe | src/mail/threads.ts:164-176 | ISO timestamps and accepted ids survive the cursor |
| Pagination.LostKeyRestarts | src/mail/threads.ts:191 | a key that does not survive it restarts the traversal at the first page |
| Retention.NoObjectIsOrphaned | src/mail/retention.ts:21-45 | wherever deletion stops, every object that is left and was named by a row is still named by one |
| Retention.NoObjectIsOrphanedIff | src/mail/retention.ts:21-45 | without that condition on keys: deletion orphans no object if and only if it stops before the rows, or every stored object with a key that is empty or longer than 1000 characters is named by another thread too |
| Retention.LongKeyIsOrphaned | src/mail/retention.ts:23 | such an object survives the row that named it |
| Retention.IntactIffNothingDeleted | src/mail/retention.ts:76 | a failed deletion leaves everything as it was if and only if there was nothing to delete before the point of failure, for each such point |
| Retention.RowsIntactIff | src/mail/retention.ts:25-43 | it leaves the rows as they were if and only if it failed in the objects or there was no row to delete |
| Retention.FailedDeletionIsNotIntact | src/mail/retention.ts:29-36 | a thread of 1001 objects whose second delete call fails keeps its rows and loses a thousand objects |
| Retention.OtherThreadsAreUntouched | src/mail/retention.ts:21-45 | deleting one thread leaves the messages, attachments, forwarding attempts and objects of another, unless they share a key; a reply in it can only lose a parent that was deleted |
| Retention.RetryFinishes | src/mail/retention.ts:25-28 | after any number of attempts stopped anywhere, one complete attempt leaves neither rows nor objects of the thread, nor events or forwarding attempts of its messages |
| Cleanup.Archive.UniqueKeys | src/mail/retention.ts:22-23 | each clipped non-empty key once |
| Cleanup.Archive.DeleteObjects | src/mail/retention.ts:29-36 | calls of 1000 keys: it succeeds if and only if no call that is made fails, and then all keys are gone; else exactly the keys of the calls before the failing one, and of that what it had removed |
| Cleanup.Archive.DeleteEvents | src/mail/retention.ts:38-41 | the events of all messages of the thread, or exactly those of the messages before the failing statement |
| Cleanup.Archive.DeleteThreadData | src/mail/retention.ts:21-45 | the two stores afterwards are those of the stopping point it reports; without a fault it completes, and a failed object deletion leaves every D1 row unchanged |
| Cleanup.Archive.Purge | src/mail/retention.ts:70-79 | a batch removes only threads of the batch, and every one that meets no fault; messages, events and forwarding attempts of other threads stay |
| Cleanup.Archive.PurgeDue | src/mail/retention.ts:85-97 | of the due threads the 50 oldest are taken, and all of these without faults go |
| Cleanup.Archive.PurgeExpired | src/mail/retention.ts:63-97 | both batches, each oldest first and bounded by 50; a retention of 0 keeps everything outside the trash; no other thread goes, nor an event of one |
| Cleanup.Archive.CleanupMail | src/mail/retention.ts:49-100 | the batches, and then all of the rows deleted by date or none. A message goes only with a due thread; an event by age or with such a message; a forwarding attempt by age once settled, or with such a message, and none of a purged message is left; audit rows and probes by age |
| Cleanup.Archive.CleanupRuns | src/mail/retention.ts:66 | n runs without faults leave max(0, due - 50 n) due threads of either kind, and after one of them there is no event and no settled forwarding attempt from before its cut-off |
| Cleanup.OldestBatch | src/mail/retention.ts:67-69 | the batch is the first 50 of the due threads by stamp and id, in order |
| Cleanup.BatchIsOldest | src/mail/retention.ts:67-87 | due are kept threads whose last message, and threads in the trash whose last change, lies before the cut-off; a batch has the 50 oldest by that stamp, and all if there are fewer |
| Cleanup.OldestAreGone | src/mail/retention.ts:63-80 | after a run without faults exactly the oldest batch of the due threads is gone |
| Cleanup.RunsDrain | src/mail/retention.ts:66 | over any chain of such runs the expired set shrinks by min(50, remaining) until it is empty |
| RoutingRules.AddItems | src/routing-sync.ts:202-215 | a page is added if and only if all items are objects and no id repeats, and then completely and in order |
| RoutingRules.ReadPage | src/routing-sync.ts:179-215 | a page is accepted, or no consistent snapshot exists at all |
| RoutingRules.FetchAllRoutingRules | src/routing-sync.ts:172-222 | against any server: at most 100 requests; a result is the concatenation of pages 1 to N of one consistent snapshot; a refusal means that there is none |
| RoutingRules.SnapshotPagesAreOk | src/routing-sync.ts:185-200 | if the server's pages form a snapshot, the loop accepts every one of them |
| RoutingRules.DerivePlan | src/routing-sync.ts:105-119 | an address is planned if and only if some enabled literal rule names it, and receives if and only if one of these leads to the Worker |
| RoutingRules.PlanSays | src/routing-sync.ts:85-119 | the same in the rules' own fields: enabled, one matcher of type literal on the recipient, a non-empty local part without white space at the domain; one action, of type worker, with this Worker as its only value |
| RoutingRules.PlanIgnoresOrder | src/routing-sync.ts:113-119 | rules with the same members give the same plan |
| RoutingApply.DoneMatchesIff | src/routing-sync.ts:247-290 | for every table whatever: after the statements the active managed mailboxes are, as a map, exactly the plan if and only if no row that the run does not reach (without an address, or beside another row taken for its address) contradicts it |
| RoutingApply.DoneMatches | src/routing-sync.ts:261-290 | so they always are if no two rows had the same normalised address and none had none |
| RoutingApply.KeysStayDistinct | src/routing-sync.ts:261-280 | no two rows come to have the same address |
| RoutingApply.OthersAreUntouched | src/routing-sync.ts:261-290 | no row is deleted or renamed; a row taken for a planned address has the plan's receive flag and is sendable, active and managed; managed rows off the plan lose all three flags and stay managed; unmanaged rows off the plan and rows the run does not reach stay |
| RoutingApply.DoneIsSettled | src/routing-sync.ts:264-279 | a second run inserts and changes nothing |
| RoutingApply.MailboxTable.PlanStatements | src/routing-sync.ts:261-280 | one UPDATE or INSERT for each planned address; the counters add up to the addresses that were not right already |
| RoutingApply.MailboxTable.DeactivateStatements | src/routing-sync.ts:282-290 | one statement for each managed row off the plan, active or not, and their number |
| RoutingApply.MailboxTable.Batch | src/routing-sync.ts:292-296 | all statements or none; it fails if and only if one of them violates a unique constraint |
| RoutingApply.MailboxTable.Verify | src/routing-sync.ts:298-315 | the check passes if and only if the table matches the plan and the database lists the addresses in the plan's own order |
| RoutingApply.MailboxTable.ApplyRoutingPlan | src/routing-sync.ts:243-318 | for every table: the batch fails, and then changes nothing, if and only if the id or address of a missing mailbox is taken, by a row or by one added before it; otherwise the table is that of the statements; success means that it matches the plan; no insert and no change reported if and only if every row taken for a planned address was right. If rows have distinct non-empty normalised addresses, the committed table always matches and is settled, and the check fails only over the order |
| Addresses.NormalizeIsIdempotent | src/lib.ts:135-143 | every accepted address is its own normal form, for any lower-casing that does nothing the second time |
| Addresses.TrimIs | src/lib.ts:140 | trimming takes off white space only, and all of it |
| Addresses.BracketedIsFirst | src/lib.ts:141 | the address in angle brackets is the first match there is, and none is found only if there is none |
| Addresses.ValidIff | src/lib.ts:135-137 | valid are exactly the texts of at most 320 units with a local part, an at sign, and a domain with something on either side of a dot, without white space, at signs or angle brackets |
| Recipients.RecipientTokens | src/mail/helpers.ts:95-111 | the worklist ends and agrees with flattening the nested lists, unless it stops early with more tokens than are allowed |
| Recipients.StrictRecipientList | src/mail/helpers.ts:113-122 | it accepts exactly what the recursive reference accepts, with the same list |
| Recipients.ListAcceptedIff | src/mail/helpers.ts:113-122 | a field is accepted if and only if it can be read, has at most 50 tokens and names valid addresses only |
| Recipients.ListNames | src/mail/helpers.ts:113-122 | the list holds exactly the addresses to which some token, however deeply nested, is normalised |
| Recipients.TokensAre | src/mail/helpers.ts:107 | the tokens of a text are its stretches between semicolons, commas, line ends and the ends, trimmed, without the empty ones |
| Recipients.ListIsProper | src/mail/helpers.ts:113-122 | an accepted list holds at most 50 normalised valid addresses, each once |
| Recipients.PlanListsEachOnce | src/mail/outbound.ts:88-97 | To, CC and BCC are duplicate-free and pairwise disjoint, at most 50 together, To not empty |
| Recipients.EachAddressHasItsPlace | src/mail/outbound.ts:88-95 | an address is on To if and only if the To field names it, on CC if and only if the CC field does and To does not, on BCC if and only if the BCC field or the configuration does and neither To nor CC; so nobody named only there is visible |
| Recipients.PlanExistsIff | src/mail/outbound.ts:65-97 | there is a plan if and only if every field is acceptable, To names somebody, required copies are configured, and at most 50 different addresses are named in all |
| Recipients.PlanCoversRecipients | src/mail/outbound.ts:65-97 | an address is on some list if and only if it was requested or is copied automatically; required copies are there |
| Recipients.RetryRebuildsPlan | src/mail/outbound.ts:210-225 | a retry rebuilds exactly the lists of the first attempt from the stored row |
| Recipients.StoredPlanSays | src/mail/outbound.ts:210-225 | whatever is stored: a retry goes to those the stored To names, then CC, then BCC, each once, and is refused if To names nobody or more than 50 are named |
| Mime.WrappedLines | src/mail/helpers.ts:91-93 | wrapped base64 has lines of at most 76 characters, none of them like a delimiter, which together are the text |
| Mime.MimeHeaderIsOneLine | src/mail/helpers.ts:87-89 | no subject can break out of its header line |
| Mime.PushParts | src/mail/outbound.ts:160-169 | the loop over the uploads writes the parts of the outer multipart |
| Mime.FirstLines | src/mail/outbound.ts:150-159 | the first part: the plain text, or the two alternatives in a multipart of their own |
| Mime.MessageText | src/mail/outbound.ts:132-170 | the lines pushed step by step are those of the structured form |
| Mime.RawOutgoingMessage | src/mail/outbound.ts:119-172 | the archived bytes are the UTF-8 encoding of that text; there are none if and only if some file name has a lone surrogate |
| MimeFields.FieldsAre | src/mail/outbound.ts:132-142 | each header field appears once and says what it should: sender, To list, CC list, subject, date, identifier, the message answered and the references; what is empty has no line |
| MimeFields.JoinedIsRead | src/mail/outbound.ts:134-135 | the addresses of a list are read back one by one |
| MimeFields.SubjectIsReadIff | src/mail/helpers.ts:87-89 | a subject is read back as it was given if and only if it is not itself written like an encoded word |
| MimeFields.AsciiSubjectIsKept | src/mail/helpers.ts:88 | a subject of visible ASCII characters and spaces is printed as it is |
| MimeFields.TypesAre | src/mail/outbound.ts:144-163 | plain text, HTML and uploads are announced with their own types |
| MimeParser.SplitAtBreak | src/mail/outbound.ts:171 | a line break separates lines whatever stands around it, even next to stray CR or LF |
| MimeParser.MultipartOfWritten | src/mail/outbound.ts:147-170 | parts without delimiter lines, written between delimiters, are read back as they are |
| MimeReading.ParsePrintedMessage | src/mail/outbound.ts:119-172 | the reference parser reads the printed message back as its headers, the plain text, the HTML text if any, and every upload in order, for every subject, body and list of accepted uploads |
| MimeReading.ParseArchivedMessage | src/mail/outbound.ts:171 | the same from the archived bytes |
| MimeReading.FileNameIsRead | src/mail/outbound.ts:163-165 | the file name in an attachment's headers decodes to the name that was given |
| MimeReading.LeavesDecode | src/mail/outbound.ts:145-168 | the leaves decode to the UTF-8 bytes of the texts and to the bytes of the uploads |
| Percent.ComponentIsRead | src/mail/outbound.ts:163-165 | what encodeURIComponent prints is read back, for every text it does not throw for |
| Percent.FromToBytes | src/mail/outbound.ts:171 | a text is read back from its UTF-8 bytes |
| MimeReading.UploadHasNoBoundary | src/mail/outbound.ts:163 | an upload is never taken for a multipart, not even with a declared type of multipart/mixed |
| JsonText.ReadCharsOfEscape | src/lib.ts:314 | every string, lone surrogates included, is read back from its escaped text whatever follows (RFC 8259 section 7) |
| JsonText.EscapeIsWellFormed | src/lib.ts:314 | escaping leaves no lone surrogate |
| Json.CanonEqualIffSame | src/lib.ts:310-315 | canonical forms are equal if and only if the values are equal up to key order, the sign of zero, and infinite numbers counting as null |
| Json.SortedListingIsUnique | src/lib.ts:314 | a set of properties has one sorted listing |
| JsonReader.StringifyPrintsCanon | src/lib.ts:310-315 | sorting printed pairs is printing sorted pairs |
| JsonReader.ReadPrint | src/lib.ts:310-315 | unique readability: a printed value is read back and reading stops where it ends |
| JsonReader.ReadStringify | src/lib.ts:310-315 | reading what stableStringify prints gives the canonical value |
| JsonReader.StringifyEqualIffSame | src/lib.ts:310-315 | two parsed values print alike if and only if they are the same in that sense |
| JsonReader.InfinityPrintsAsNull | src/lib.ts:311 | the collision in its smallest form |
| JsonReader.HashInputEqualIffSame | src/mail/outbound.ts:115 | the bytes given to SHA-256 are equal if and only if the payloads are the same |
| Utf8.DecodeEncode | src/lib.ts:165 | on well-formed strings UTF-8 encoding is undone by strict decoding (RFC 3629 section 3) |
| Utf8.AdjustedSizeIsMonotone | src/lib.ts:168-176 | the encoded size of the adjusted prefix grows with the search position |
| Utf8.LastFittingPosition | src/lib.ts:166-176 | the binary search ends at the last position that fits |
| Utf8.LastPositionIsLongestCut | src/lib.ts:177-179 | that position gives the longest clean cut |
| Utf8.ShrinkToFit | src/lib.ts:180 | the closing loop ends at the longest prefix that fits |
| Utf8.TruncateUtf8 | src/lib.ts:163-182 | the method returns the longest clean cut, the whole string if it fits, or nothing for a limit of 0 or less |
| Utf8.TruncationIsSafe | src/lib.ts:163-182 | always a prefix within the limit that splits no surrogate pair, and the whole string if it fits |
| Utf8.TruncationIsLongestWhole | src/lib.ts:163-182 | without adjacent high surrogates: the longest prefix within the limit not ending in a high surrogate |
| Utf8.AdjacentHighsAreKept | src/lib.ts:177-179 | with them: a limit at which the result ends in a high surrogate |
| Utf8.TruncationIsLongestWholeIff | src/lib.ts:163-182 | the promise holds for every limit if and only if the string has no two adjacent high surrogates |
| Utf8.WellFormedIsCutWhole | src/lib.ts:163-182 | so a well-formed string is always cut to its longest whole prefix within the limit, which is well-formed |
| Base64.BytesToBase64 | src/lib.ts:72-79 | the chunked conversion is the encoding of the whole |
| Base64.DecodeEncode | src/lib.ts:78-83 | atob undoes btoa |
| Base64.DecodeUrlEncodeUrl | src/lib.ts:90-98 | the URL-safe form is undone by its decoder, uses only the characters of RFC 4648 section 5, and has the exact length |
| Sessions.LagIsBounded | src/auth.ts:235-237 | over every request sequence last_seen_at lags the last accepted request by at most five minutes |
| Sessions.AcceptedIff | src/auth.ts:218-244 | a request is let in if and only if the session is not revoked or over, the admin enabled, the browser the same (if recorded) and the idle limit not passed; any other revokes the session; only last_seen_at changes otherwise, after more than five minutes |
| Sessions.BadRequestEndsSession | src/auth.ts:218-228 | over every request sequence, one request from another browser, after the end, or of a disabled admin revokes the session for good |
| Sessions.GoodRequestsKeepSession | src/auth.ts:231 | without an idle limit nothing else does |
| Sessions.LongGapIsRefused | src/auth.ts:229-234 | after any gap longer than the idle limit the session is refused and revoked |
| Sessions.ShortGapsAreAccepted | src/auth.ts:229-237 | gaps of at most the limit less five minutes never expire the session before its absolute end |
| Sessions.GapCanExpireEarly | src/auth.ts:231-237 | a gap one millisecond longer can |
| Sessions.SmallLimitIsAbsolute | src/auth.ts:55-60 | a limit of five minutes or less ends the session that long after login, however busy it is |
| Sessions.RevokedStaysRevoked | src/auth.ts:203-217 | revocation is terminal |
| Sessions.SessionTable.GetSession | src/auth.ts:208-244 | the one row visited, and the verdict |
| Sessions.SessionTable.SelectNewest | src/auth.ts:173-175 | five of the newest live sessions of the admin, or all |
| Sessions.SessionTable.TrimSessions | src/auth.ts:168-178 | at most five live sessions of the admin remain, the newest, and exactly the others become revoked |
| Sessions.SessionTable.CreateSession | src/auth.ts:180-201 | at most five live sessions after a login, the new one among them if it is the newest, other admins untouched |
| Sessions.AdmittedIff | src/auth.ts:155-166 | a login is turned away if and only if 12 failures from its address or 8 for its account were recorded in the 15 minutes before |
| Sessions.FailuresAreLimited | src/auth.ts:155-166 | sequential logins record at most 12 failures of one address and 8 for one account in any 15 minutes |
| LoginBursts.BurstsAreLimited | src/auth.ts:310-331 | with at most k logins of the address or account in flight at a time, at most limit + k - 1 of its failures are recorded in any 15 minutes, however the logins overlap |
| LoginBursts.BurstsReachTheLimit | src/auth.ts:312-330 | for every k a run reaches that number |
| Credentials.NoJournalMeansEqual | scripts/credentials.mjs:198-246 | in every run of one command at a time, with a crash or remote failure anywhere: no pending journal means that the Worker has the local value of every runtime key; a pending one, of all but the key it names |
| Credentials.PendingUntilRecovered | scripts/credentials.mjs:251-286 | over every run of one command at a time from a pending state: until a recovery finishes, journal and local store stay, no rotation has any effect, and nothing but the Worker's value of the pending key can change, to the local one; the recovery that finishes makes all equal |
| Credentials.OneRecoveryRestores | scripts/credentials.mjs:251-279 | from any pending state one successful recovery clears the journal and makes all keys equal, leaving the local store alone |
| Credentials.RotationTakesEffect | scripts/credentials.mjs:198-246 | an undisturbed rotation sets the local value, the Worker's exactly for a runtime key, and leaves no journal |
| Credentials.OperatorKeysStayLocal | scripts/credentials.mjs:225-230 | an operator-local key never reaches the Worker, even when commands overlap |
| Credentials.ConcurrentRotationsLoseTheJournal | scripts/credentials.mjs:205-220 | two rotations that both pass the check can end with an old Worker value and no journal |

## Left out

- Outbound.AtMostOnce: holds for a fixed OUTBOUND_PROVIDER, and `AtMostOncePinned` for runs in which no send resumes a row through another one, which the code does not enforce. A provider is a keyed acceptor with a lifetime, which may give a repeated call any answer but does not accept it again; a call is assumed to arrive within `slack` of the clock reading that allowed it, and delivery events to come only for accepted messages. The payload beyond its hash, the send-rate limit and the partial failures inside `archiveOutgoing` (one action that works or fails) are not modelled.
- Delivery.NoUpdateIsLost: one message at a time; an event with an empty provider event id, which skips the duplicate check, is not modelled, and neither is correlation by tag or provider id (a parameter `found`). A summary stored with its keys in another order makes the compare-and-swap fail; this is the action `SwapMissed`.
- Delivery.StatusTracksSummary: takes the status read and the unguarded write as one step; `UnguardedWriteBreaksStatus` says what happens otherwise.
- Inbound.ArchiveIsConsistent: attachments and the steps behind `ensureThread` are left out.
- ForwardingRuns.LeaseExcludes: assumes drivers finish within their lease, which the code does not enforce; `ExclusiveIffQuick` says how quick is quick enough. Clocks of different drivers agree.
- Forwarding.ForwardTable.ForwardAll: audit headers and logging are left out, and the write of `markFailed` does not throw.
- Threads.LatestIsNewest: SQLite leaves the choice among messages with equal times open; the model takes the first row.
- Threads.MailStore.ReconcileProviderMessageId: one clock reading for the whole run; a source thread with an empty id, which the loop skips, is treated like any other; participants, which `ensureThread` writes, are left out. Statuses written by delivery events without a refresh make a stored summary stale; `CacheIsExact` is about the threads a run touches.
- ThreadCrashes.RerunRepairsIff: nothing else happens between the crash and the second run.
- Pagination.ListingIs: text order is by code unit, which is SQLite's byte order for the ASCII timestamps and ids in use.
- Retention.NoObjectIsOrphaned: no message is inserted into the thread while it is deleted; keys fit into 1000 characters, and `NoObjectIsOrphanedIff` says what happens if they do not.
- Cleanup.Archive.CleanupRuns: the cut-offs do not move from run to run, and no thread has an empty id.
- RoutingRules.FetchAllRoutingRules: HTTP errors, timeouts and malformed replies are one failure; the in-flight coalescing of synchronisations is left out.
- RoutingRules.DerivePlan: the domain is given trimmed and in lower case; the sorting of the plan is the parameter `order` of `RoutingApply`.
- RoutingApply.MailboxTable.ApplyRoutingPlan: normalisation, the unique index's folding, the stable ids and the plan's order are parameters; of several rows with one normalised address any may be the one taken; no other request writes mailboxes during the run.
- Recipients.RetryRebuildsPlan: about the address fields of the stored lists; their JSON wrapping is covered by `JsonReader`.
- Addresses.NormalizeIsIdempotent: `toLowerCase` is a parameter of which only idempotence is used.
- Mime.RawOutgoingMessage: the plain text derived from HTML is a parameter, and the boundaries are one-line strings beginning with m and a. Names and addresses are given as single lines.
- MimeReading.ParsePrintedMessage: is about a reference parser for what the printer prints; PostalMime is not part of this model.
- JsonReader.StringifyEqualIffSame: numbers are their decimal texts, equal exactly when the texts are; number formatting itself is not modelled, nor is `undefined`, which parsed JSON does not contain.
- LoginBursts.BurstsAreLimited: the two rows recorded for a login, one for the address and one for the account, are written in one step.
- Credentials.NoJournalMeansEqual: for one command at a time; environment overrides, `applySecrets` and the credential probes are left out.
- HTTP routing, headers, cookies, static assets, the user interface, HTML sanitising, password derivation, HMAC, Svix checks, payload normalisers of the providers, setup and release scripts, storage probe, audit log and attachment download are left out: plumbing, foreign code, or tables settled by reading.
