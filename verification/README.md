# Lyra backend: a verified model

Lyra is a self-hosted mail client. This project models the parts of its Rust
backend where correctness depends on more than one function, and proves what
they promise. Each module states the model, then the theorems about it.

- **Job queue and worker pool** (`JobTable`, `WorkerPool`, `PoolOutcomes`,
  `PoolTermination`, `PoolWork`, over `MapSums`).
  The table with its single-statement writes, and the pool as a step relation:
  acquiring a permit, SELECT, the in-flight check and the compare-and-set are
  separate steps, tasks move through program counters, any write can fail, the
  process can restart, and anybody may enqueue duplicates at any time. The main
  results hold in every interleaving.
- **Poll scheduler** (`PollScheduler`, `PollBackoff`). Backoff state, one account's turn and the
  whole tick, over histories in which other components change the table freely
  as long as rows only move forward.
- **WebDAV reader** (`XmlTags`, `XmlNesting`, `XmlShape`, `XmlForest`, `XmlLoops`,
  `XmlSelfClosed`, `XmlText`, `XmlEntities`, `XmlCdata`, `XmlContent`, `XmlPanic`, `SyncReport`). The tag scanner, the
  nesting-aware element search, text extraction and the sync-collection report,
  against a renderer of XML trees; and exactly when a malformed text panics.
- **CardDAV mirror** (`CardDav`, `CardDavRows`). The contact table and cursor, against a server
  that is a history of views with tokens naming them.
- **IMAP** (`UidSet`, `MailMove`). UID-set compression against the grammar of
  section 9 of RFC 3501; move and delete with every command able to fail before,
  halfway through or after its effect, and other sessions acting in between.
- **iCalendar** (`IcalText`, `Vevent`, `IcsFeed`, `IcalProperty`, `VeventProperty`,
  `BuiltFeed`). Escaping, building, unfolding, reading and feed splitting.
- **Remote images and media cache** (`ImageScan`, `ImageRewrite`, `ImageTags`,
  `MediaCache`).

Loops of the source are loops here, proved equal to a specification function;
state updated in place is a class. Functions are sometimes passed as values with
a predicate tying them to the real one: that keeps proofs about trees and runs
from unfolding the text searches underneath.

Where the code and its comments differ, the code is followed:

- "Every extractor degrades to empty" (`dav_protocol.rs`): `tag_text` panics when a
  closing tag hides inside the opening tag, as in `<href </href></href>`, because its
  two slice bounds cross. `XmlPanic.TagTextPanicsIff` says exactly when,
  `XmlPanic.MalformedPanics` gives a family, `XmlPanic.ApartNeverPanics` what is safe.
- "CDATA section: pass content through verbatim" (`strip_tags`): `tag_text` unescapes it
  afterwards. `XmlCdata.CdataReadsBackIff` says exactly which content survives,
  `XmlCdata.CdataIsUnescaped` shows one that does not.
- "Text content of the first element (child tags stripped)" (`tag_text`): the text ends at
  the first closing tag of the name, so an element nested in one of its own name takes what
  follows it away. `XmlContent.NestedText` says what is read of any tree,
  `XmlContent.WholeTextIff` when that is all of it, `XmlContent.NestedLosesText` reads `xy`
  of `<a>x<a>y</a>z</a>`.
- "Removed: propstat 404 or a bare status 404" (`parse_sync_response`): "404" anywhere in
  the response will do, in its href too. `SyncReport.RefusedIsIgnoredIff` says exactly when a
  refusal is left alone, `SyncReport.ForbiddenPassesForRemoval` is a 403 that removes.
- A self-closed element of the searched name, such as `<response/>`, counts as an opening
  tag, so nothing behind it is found: `XmlSelfClosed.SelfClosedHidesTheRest`.
- Unfolding by section 3.1 of RFC 5545 removes one white space character per fold;
  `unfold_ical` removes all leading white space. Exactly which folds are undone is
  `IcsFeed.FoldingIsUndoneIff`; `IcsFeed.FoldBeforeSpaceLosesIt` is a fold that is not.
- The module comment of `pim_dav.rs` speaks of an etag diff; the fallback fetches every
  listed item and removes nothing. `CardDav.FallbackIsExactIff` says when the copy is
  exact afterwards, `CardDav.FallbackKeepsStaleRow` shows a row that stays. A failed
  cursor read has the same effect: `CardDav.ReadFaultIsExactIff`, with
  `CardDav.ReadFaultKeepsStaleRow` for a row that stays.
- `move_uid` without MOVE files what it removes only for a UID that was assigned before
  the call: `MailMove.MoveFilesIff`.
- "Apply a terminal job outcome once per job id" (`scheduler.rs`): only the last id is
  remembered. `PollScheduler.CountsOnceIff` says that the next turns count every outcome once
  just when no two rows tie for the newest; `PollScheduler.AlternatingTiesCountTwice` is a
  table with two orders that count three failures of two.
- A tick's insert that lands and still reports an error is not followed by a pause:
  `PollScheduler.LandedErrorIsUnspaced`, from any state. `PollScheduler.SpacingIff` says
  exactly after which inserts all rows stay spaced.

## Model

| member | source | states |
|---|---|---|
| JobTable.InFlight.TryBegin | backend/src/jobs.rs:142-144 | reports ownership exactly when the account was not in flight, and it is afterwards |
| JobTable.InFlight.Finish | backend/src/jobs.rs:146-148 | releases exactly this account |
| JobTable.JobStore.Enqueue | backend/src/jobs.rs:166-206 | adds one pending row with the payload given, no attempts and both stamps at the call, due exactly from `run_at` on, and touches no other row |
| JobTable.JobStore.Commit | backend/src/jobs.rs:429-506 | the four terminal or pending writes change exactly one row, and no row is ever deleted |
| JobTable.JobStore.ReclaimStaleRunning | backend/src/jobs.rs:335-344 | every running row becomes pending, nothing else changes, and the count is theirs |
| JobTable.JobStore.ClaimDue | backend/src/jobs.rs:232-283 | claims the first due row in (run_at, created_at) order, or nothing when none is due |
| JobTable.JobStore.ClaimNext | backend/src/jobs.rs:286-332 | never passes over an eligible row: claims the first due, readable row whose account is not in flight, nothing only if there is none |
| JobTable.FirstEligibleIsLeast | backend/src/jobs.rs:296-330 | the row a walk over the listing picks has the least `run_at` of all eligible rows of the table and, among those, the least `created_at` |
| JobTable.ClaimNextAgreesWithClaimDue | backend/src/jobs.rs:262-332 | with nothing in flight and readable payloads both claims take the same row |
| WorkerPool.StepKeepsInv | backend/src/jobs.rs:286-361 | every poller, task, enqueue, restart and failing step keeps row ownership, in-flight exactness, permits, attempt and call bounds |
| WorkerPool.RunKeepsInv | backend/src/jobs.rs:851-881 | so does every run |
| WorkerPool.AtMostOneSyncPerAccount | backend/src/jobs.rs:536-555 | in every reachable state at most one task is inside the account sync of any account, whatever was claimed before |
| WorkerPool.InFlightIsWhatIsSynced | backend/src/jobs.rs:132-152 | the in-flight set is exactly the accounts some task is syncing |
| WorkerPool.RunningRowsAreOwnedOnce | backend/src/jobs.rs:348-361 | each running row has one live task or is an orphan; live tasks never exceed the permits |
| WorkerPool.CleanRunsLeaveNoOrphans | backend/src/jobs.rs:851-881 | without failed writes and with startup reclaim there are no orphans |
| WorkerPool.CleanRunsBoundRunningRows | backend/src/jobs.rs:851-881 | then running rows stay within the permits too |
| WorkerPool.StepIsForward | backend/src/jobs.rs:429-506 | no step deletes a row, rewrites a payload or creation time, takes attempts back, moves `run_at` without charging an attempt, or leaves completed or failed |
| WorkerPool.NoRunLosesOrReopensAJob | backend/src/jobs.rs:429-506 | the same over whole runs |
| WorkerPool.DelaysAreThirtyOrSixty | backend/src/jobs.rs:471-495 | a reschedule is 30 s or 60 s, so the shift cap is never reached |
| WorkerPool.SendsAreBounded | backend/src/jobs.rs:699-760 | at most three attempts per send, and at most three plugin calls plus one per reclaim of the row |
| PoolOutcomes.RunsSendFewTimes | backend/src/jobs.rs:699-760 | counted over the run itself, a job is sent at most three times plus once for each restart that took it back from running |
| PoolOutcomes.SyncStatusIsOutcome | backend/src/jobs.rs:544-571 | in every run a finished sync job is completed exactly when its last sync returned ok, and failed exactly when it did not |
| PoolOutcomes.SendStatusIsOutcome | backend/src/jobs.rs:699-760 | a finished send is completed exactly when the last plugin call was ok, and failed exactly when it was refused before the call, its last error was not transient, or the third attempt is spent |
| PoolOutcomes.SettledStatusIsOutcome | backend/src/jobs.rs:573-635 | a backup and a wake-up end as they settled |
| PoolOutcomes.SendErrorIsHandled | backend/src/jobs.rs:728-755 | the first two transient errors put the send back, due exactly from 30 and 60 seconds on; any other error, and a third, fails it |
| PoolOutcomes.BusySyncIsPutBack | backend/src/jobs.rs:540-543 | a sync that finds its account in flight leaves its row pending and due as before, and the in-flight set alone |
| PoolOutcomes.ChangedRowsAreStamped | backend/src/jobs.rs:429-506 | whatever a step changes of the table bears the time of the step |
| PoolTermination.OneStepClaimIsARun | backend/src/jobs.rs:286-332 | a claim seen as one step is a run of the fine-grained pool |
| PoolTermination.EveryStepDescends | backend/src/jobs.rs:524-635 | each step of a closed pool lowers a natural-number measure |
| PoolTermination.EveryRunIsFinite | backend/src/jobs.rs:524-635 | no run without new jobs, restarts or failed writes is longer than the measure |
| PoolWork.EveryActionPays | backend/src/jobs.rs:286-332 | with the claim in separate steps, polling never raises the measure and every claim, task step and write lowers it |
| PoolWork.WorkIsBounded | backend/src/jobs.rs:286-332 | in every interleaving of a closed pool the claims, task steps and writes stay within the first state's measure, however long it polls |
| PoolTermination.StopsOnlyWhenNothingIsLeft | backend/src/jobs.rs:300-330 | the pool stops only at rows that are finished, not due or unreadable |
| PollScheduler.Backoff.ObserveOutcome | backend/src/scheduler.rs:71-95 | applies an outcome unless its job id is the remembered one |
| PollScheduler.Backoff.MarkEnqueued | backend/src/scheduler.rs:104-109 | the account is next due one delay after now |
| PollScheduler.LatestTerminalSync | backend/src/scheduler.rs:242-278 | returns a finished sync job of the account that none is stamped after, whatever order ties come in, and nothing only when there is none |
| PollScheduler.AlternatingTiesCountTwice | backend/src/scheduler.rs:71-95 | one table of two failed rows with equal stamps and two listings of it that, in turn, make three failures of them |
| PollScheduler.CountsOnceIff | backend/src/scheduler.rs:71-95 | after a history with fixed ties, all turns that can follow count every outcome once just when no two finished rows tie for the newest |
| PollScheduler.RankedListingGivesTop | backend/src/scheduler.rs:257-277 | a listing that settles ties by a fixed order gives the row that is top in it |
| PollScheduler.PendingOrRunningSyncJobId | backend/src/scheduler.rs:197-230 | finds a queued sync job of the account exactly when there is one |
| PollScheduler.PollAccount | backend/src/scheduler.rs:148-172 | one account's turn does what the specified turn does, database faults and any order of ties included |
| PollScheduler.PollTick | backend/src/scheduler.rs:144-174 | a tick is the turns in order up to the first database error |
| PollScheduler.TickIsHistory | backend/src/scheduler.rs:144-174 | a tick is a history of turns, one for each account until a call fails, that leads to the tick's tables and backoff |
| PollScheduler.TickCountsRows | backend/src/scheduler.rs:145-174 | the number a tick returns is the number of rows it added |
| PollScheduler.LatestNeverGoesBack | backend/src/scheduler.rs:242-278 | over any history the top finished job only moves up in the order of stamps and fixed ties |
| PollScheduler.OutcomesCountOnce | backend/src/scheduler.rs:71-95 | over any history in which ties keep one order, whichever it is, each finished job moves the backoff at most once |
| PollScheduler.UntiedOutcomesCountOnce | backend/src/scheduler.rs:71-95 | over any history at all the same holds for an account no two of whose finished rows bear the same stamps |
| PollScheduler.DelayFollowsFailures | backend/src/scheduler.rs:55-95 | the delay is the base after a success, min(base·2^k, 3600) after k failures since |
| PollBackoff.FailureBacksOff | backend/src/scheduler.rs:82-102 | after the k-th failure since a success, observed at t, a turn inserts exactly when nothing is queued and its `now` has reached t + min(base·2^k, 3600), until the next failure or enqueue |
| PollBackoff.EnqueueBacksOff | backend/src/scheduler.rs:97-109 | after an enqueue marked at t the same holds of t plus the delay |
| PollBackoff.NewAccountIsPolled | backend/src/scheduler.rs:97-102 | an account that never failed nor was enqueued is polled whenever nothing is queued |
| PollBackoff.InsertedIsSync | backend/src/scheduler.rs:160-169 | the row inserted is a sync of this account for its user, due from the tick's time on |
| PollScheduler.EnqueuesAreSpaced | backend/src/scheduler.rs:97-109 | any two rows ticks insert for one account are at least min(base, 3600) seconds apart, in every history where no insert lands with an error in less time than that |
| PollScheduler.LandedErrorIsUnspaced | backend/src/scheduler.rs:160-169 | from any state, after an insert that lands with an error and whose job gets done the next row can come at the moment the error does, which is unspaced when that is sooner than the gap |
| PollScheduler.SpacingIff | backend/src/scheduler.rs:160-169 | whatever follows a turn's insert stays spaced just when the insert did not land with an error, or took the tick at least the gap |
| PollScheduler.TurnKeepsAtMostOneQueued | backend/src/scheduler.rs:155-168 | a turn never makes a second queued sync job for any account |
| PollScheduler.TickKeepsAtMostOneQueued | backend/src/scheduler.rs:144-174 | nor does a whole tick |
| XmlLoops.FindOpenTag | backend/src/dav_protocol.rs:39-62 | the jumping search equals the scan at every position |
| XmlLoops.FindCloseTag | backend/src/dav_protocol.rs:65-79 | the same for closing tags, though it resumes two characters on |
| XmlLoops.CountDepth | backend/src/dav_protocol.rs:82-114 | the depth counter finds where the open levels are all closed |
| XmlLoops.FindElement | backend/src/dav_protocol.rs:82-114 | the element search equals its specification |
| XmlLoops.ResponseBlocks | backend/src/dav_protocol.rs:117-125 | the block loop returns the specified blocks |
| XmlNesting.Elements | backend/src/dav_protocol.rs:117-125 | on every string the spans are in bounds, non-empty, disjoint and ordered |
| XmlNesting.BlocksAreSlices | backend/src/dav_protocol.rs:117-125 | on every string the blocks are exactly those slices |
| XmlForest.ScannerInvertsRendering | backend/src/dav_protocol.rs:39-125 | on every rendered tree the search returns the first element in document order and the blocks are the outermost elements, whatever prefixes and nesting |
| XmlForest.ElementCutsFirst | backend/src/dav_protocol.rs:82-114 | the span found cuts out exactly that element's text |
| XmlSelfClosed.SelfClosedHidesTheRest | backend/src/dav_protocol.rs:39-114 | of a document with a self-closed element of the searched name exactly the elements before it are found |
| XmlText.StripTagsLoop | backend/src/dav_protocol.rs:162-191 | the one-pass stripper equals its specification |
| XmlText.UnescapeInvertsEscape | backend/src/dav_protocol.rs:127-134 | unescaping an escaped string gives it back, for every string |
| XmlEntities.UnescapeDecodes | backend/src/dav_protocol.rs:127-134 | a text written with any mix of the six entities and plain characters decodes to what it means |
| XmlText.EscapedHasNoAngles | backend/src/dav_protocol.rs:193-198 | escaped text holds no angle bracket |
| XmlText.EscapedTextReads | backend/src/dav_protocol.rs:137-146 | text written escaped reads back, if non-empty and trimmed |
| XmlCdata.SectionReads | backend/src/dav_protocol.rs:162-176 | a CDATA section without the end marker inside reads as its content, unescaped and trimmed |
| XmlCdata.UnfinishedSectionStrips | backend/src/dav_protocol.rs:168-176 | a section that never ends is all content |
| XmlCdata.UnfinishedTagStrips | backend/src/dav_protocol.rs:177-185 | a tag that never ends leaves nothing |
| XmlCdata.UnescapeFixesIff | backend/src/dav_protocol.rs:127-134 | unescaping leaves a text alone exactly when it holds none of the six entities |
| XmlCdata.CdataReadsBackIff | backend/src/dav_protocol.rs:168-176 | trimmed section content reads back verbatim exactly when it holds none of the six entities |
| XmlCdata.CdataIsUnescaped | backend/src/dav_protocol.rs:168-176 | a concrete section that comes back changed |
| XmlCdata.CdataOfEscaped | backend/src/dav_protocol.rs:168-176 | a section holding escaped text reads as the text itself |
| XmlContent.StripsToText | backend/src/dav_protocol.rs:162-191 | stripping a rendered tree leaves exactly its text and section content, in document order |
| XmlContent.NestedText | backend/src/dav_protocol.rs:137-146 | on any tree the text of a name is the unescaped, trimmed text of its first element up to the first closing tag of that name |
| XmlContent.WholeTextIff | backend/src/dav_protocol.rs:136-146 | that is the element's whole text just when no text follows a closing tag of the name nested in it |
| XmlContent.TreeText | backend/src/dav_protocol.rs:137-146 | so it is the whole text if no element of that name is nested |
| XmlContent.NestedLosesText | backend/src/dav_protocol.rs:136-146 | a concrete element that loses the text behind the nested one |
| XmlPanic.TagTextPanicsIff | backend/src/dav_protocol.rs:137-146 | on every text it panics exactly when an element is found whose opening tag hides a closing tag of that name |
| XmlPanic.MalformedPanics | backend/src/dav_protocol.rs:137-146 | a name's opening tag holding its own closing tag, then that closing tag, panics, for every name |
| XmlPanic.ApartNeverPanics | backend/src/dav_protocol.rs:137-146 | a text with no opening bracket between a bracket and its end never panics |
| SyncReport.CrashesIff | backend/src/dav_protocol.rs:569-601 | a body crashes the reader exactly when the opening tag of its token hides a closing tag of that name, or that of some response's href does, or with a readable href that of its etag |
| SyncReport.ApartNeverCrashes | backend/src/dav_protocol.rs:569-601 | a body with no opening bracket between a bracket and its end never crashes it |
| SyncReport.MalformedTokenCrashes | backend/src/dav_protocol.rs:571-582 | a token whose opening tag hides its closing tag does |
| SyncReport.LeafText | backend/src/dav_protocol.rs:137-146 | the text of the first element of a name in any tree reads back what was escaped into it |
| SyncReport.MemberReads | backend/src/dav_protocol.rs:584-598 | each rendered response reads as its member: changed with etag, removed by its 404, or refused and ignored unless it says 404 |
| SyncReport.ParseSyncResponse | backend/src/dav_protocol.rs:569-601 | the loop computes the specified report |
| SyncReport.ReaderInvertsReport | backend/src/dav_protocol.rs:569-601 | reading a rendered multistatus returns exactly its changed members and its removed ones, refusals that say 404 among them, in order, its token and its flag, with any prefix, attributes and spacing on each element |
| SyncReport.WithoutFalse404 | backend/src/dav_protocol.rs:588-590 | with no such refusal those are the changed and removed members as written |
| SyncReport.RefusedIsIgnoredIff | backend/src/dav_protocol.rs:588-590 | a response with another status and no etag is ignored just when its text holds no "404", else removed |
| SyncReport.RefusalPassesForRemoval | backend/src/dav_protocol.rs:588-590 | a refusal for an href that holds "404" removes it, whatever the status |
| SyncReport.ForbiddenPassesForRemoval | backend/src/dav_protocol.rs:588-590 | a concrete 403 that removes a contact |
| SyncReport.FlagIff | backend/src/dav_protocol.rs:574-581 | a token is flagged just when its opening tag holds "invalid" or "denied" |
| SyncReport.PlainHeadIsNoFlag | backend/src/dav_protocol.rs:574-581 | a token tag without the letter i in prefix and attributes is never flagged |
| CardDav.Mirror.UpsertContact | backend/src/pim_dav.rs:163-265 | no data or an unchanged etag changes nothing, else exactly this href's row is replaced or added |
| CardDav.Mirror.TombstoneContact | backend/src/pim_dav.rs:267-276 | exactly the rows of this account and href go |
| CardDav.Mirror.SyncCarddav | backend/src/pim_dav.rs:91-132 | a sync is the specified pass; any failed request leaves both tables alone |
| CardDav.SyncFrame | backend/src/pim_dav.rs:91-132 | whatever the server answers and whichever writes fail, there is one row per account and href and other accounts keep their rows and cursors |
| CardDav.UpsertEffect | backend/src/pim_dav.rs:163-265 | with strong etags an upsert sets exactly its own href to the served data |
| CardDav.TombstoneEffect | backend/src/pim_dav.rs:267-276 | a delete drops exactly its own href |
| CardDavRows.UpsertWrites | backend/src/pim_dav.rs:163-265 | an upsert leaves the table alone if the etag is current, else the contact's row carries the collection, the item's etag or none, and its data, and all others stay |
| CardDavRows.SyncStoresEtags | backend/src/pim_dav.rs:91-132 | after a report-driven sync every contact fetched with its etag carries the view's etag |
| CardDavRows.SyncFilesNewContacts | backend/src/pim_dav.rs:91-132 | a contact not held before is filed under the first collection |
| CardDavRows.NothingNewChangesNothing | backend/src/pim_dav.rs:205-207 | a sync that only names contacts stored with their etags and removes none held leaves the rows alone |
| CardDavRows.RepeatedSyncKeepsRows | backend/src/pim_dav.rs:205-207 | repeating a report-driven sync whose items carry etags changes no row |
| CardDavRows.SyncFailsIff | backend/src/pim_dav.rs:91-160 | a sync fails exactly when the collections are not answered, or neither report nor listing gives a plan, or the fetch fails |
| CardDavRows.SyncCounts | backend/src/pim_dav.rs:91-132 | the numbers returned count the items but for lost writes and the reported removals, and the cursor saved is the report's token, or none after a fallback |
| CardDav.ReportStep | backend/src/pim_dav.rs:136-147 | a report-driven sync carries an exact copy of the old view to an exact copy of the new one |
| CardDav.FallbackStep | backend/src/pim_dav.rs:148-158 | the fallback overlays the listed view on what was there and clears the cursor |
| CardDav.FallbackIsExactIff | backend/src/pim_dav.rs:148-158 | the copy is exact afterwards just when it held nothing the server dropped |
| CardDav.FallbackKeepsStaleRow | backend/src/pim_dav.rs:148-158 | a concrete dropped contact that stays |
| CardDav.ReadFaultIsExactIff | backend/src/pim_dav.rs:31-43 | after a failed cursor read the copy is exact just when every contact held is still served or named as removed |
| CardDav.ReadFaultKeepsStaleRow | backend/src/pim_dav.rs:31-43 | a concrete exact copy that is not exact afterwards |
| CardDav.ReportRunsConverge | backend/src/pim_dav.rs:91-160 | from nothing, after any report-driven run the local contacts are exactly the view the saved token names |
| CardDav.MixedRunsCover | backend/src/pim_dav.rs:91-160 | with fallbacks and failed cursor reads in between, everything in the named view is mirrored with its data |
| UidSet.FormatUidSet | backend/src/imap.rs:1071-1100 | prints the canonical ranges; the 32-bit increment never overflows |
| UidSet.FormatIsCanonical | backend/src/imap.rs:1071-1100 | ranges ascend, are disjoint, cannot be merged and hold exactly the listed UIDs |
| UidSet.FormatReadsBack | backend/src/imap.rs:1071-1100 | the text read by the sequence-set grammar is exactly the listed set, and is in the grammar just when 0 is not listed |
| MailMove.Session.ExpungeUidIfSafe | backend/src/imap.rs:670-697 | runs as specified for both capabilities |
| MailMove.Session.DeleteUid | backend/src/imap.rs:649-662 | runs as specified, stopping at the first failed command |
| MailMove.Session.MoveUid | backend/src/imap.rs:699-726 | runs as specified for every mix of capabilities |
| MailMove.DeleteRemovesOnlyUid | backend/src/imap.rs:649-697 | whatever fails, no message but the given one is removed |
| MailMove.MoveRemovesOnlyUid | backend/src/imap.rs:670-726 | the same for a move |
| MailMove.MoveFilesWhatItRemoves | backend/src/imap.rs:699-726 | what a move removes is in the destination, for every UID already assigned |
| MailMove.MoveFilesIff | backend/src/imap.rs:699-726 | that holds under every script just when the server has MOVE or the UID was assigned before the call, with UIDPLUS or without |
| MailMove.MoveNeverLoses | backend/src/imap.rs:699-726 | a message no other session flags stays unflagged or is filed, even if others expunge what is flagged |
| MailMove.CalmDelete | backend/src/imap.rs:649-697 | undisturbed, a delete removes the message, or only flags it when EXPUNGE would take others |
| MailMove.CalmMove | backend/src/imap.rs:670-726 | undisturbed, a move files the message once and removes it, or leaves it flagged |
| MailMove.DeleteOkMeansDone | backend/src/imap.rs:649-662 | a delete succeeds only if every command did, and whenever all do |
| MailMove.MoveOkMeansDone | backend/src/imap.rs:699-726 | so does a move |
| MailMove.MoveOkMeansFiled | backend/src/imap.rs:699-726 | a move that succeeds has filed a message that was there when it began |
| IcalText.EscapeText | backend/src/pim_write.rs:10-22 | the loop escapes character by character |
| IcalText.UnescapeInvertsEscape | backend/src/pim_write.rs:10-22 | unescaping per section 3.3.11 of RFC 5545 gives the text back with CR read as LF |
| IcalText.EscapedStaysOnLine | backend/src/pim_write.rs:10-22 | escaped text holds no line break |
| IcalText.EscapedNeverSeparates | backend/src/pim_write.rs:10-22 | escaped text holds no comma or semicolon without a backslash |
| IcalText.ByteLenIff | backend/src/dav.rs:248-248 | a text is as many bytes as characters exactly when it is ASCII |
| IcalText.SplitTwiceIsRawLines | backend/src/ics.rs:111-112 | cutting at CRLF and then at LF gives each line once, one CR dropped |
| Vevent.ParseVeventFields | backend/src/dav.rs:219-260 | the line loop, left at the first END, reads the specified fields |
| Vevent.WrittenLinesReadBack | backend/src/pim_write.rs:84-119 | field text never adds a line |
| Vevent.ReaderInvertsBuilder | backend/src/pim_write.rs:84-119 | reading a built event gives the escaped trimmed texts, the dates as written and the same all-day flag |
| Vevent.BuildFailsIff | backend/src/pim_write.rs:84-106 | nothing is built exactly when the summary is blank, or the start or an end that is given does not convert |
| Vevent.BuiltFieldsAre | backend/src/pim_write.rs:84-119 | the fields read back are the dates given, converted, and the texts given, trimmed and escaped, blank ones left out |
| VeventProperty.FieldIsLastLine | backend/src/dav.rs:229-257 | each field is the trimmed value of the event's last line for it, in any case and with any parameters |
| VeventProperty.AllDayIff | backend/src/dav.rs:246-249 | an event is all-day exactly when its start does not say DATE-TIME and says DATE or is eight bytes long |
| VeventProperty.DateTimeIsTimed | backend/src/dav.rs:246-249 | a DATE-TIME start is never all-day |
| VeventProperty.PlainStartIsDayIff | backend/src/dav.rs:246-249 | a plain start is all-day exactly when it is eight bytes long |
| BuiltFeed.BuiltLinesCarry | backend/src/pim_write.rs:113-118 | the built lines give the UID once and the time stamp once |
| BuiltFeed.FeedReadsBuilt | backend/src/pim_write.rs:84-119 | a built event read as a feed is one event with the same fields and the trimmed UID, or one from its start if that is blank |
| IcsFeed.UnfoldIcal | backend/src/ics.rs:109-122 | the loop computes the specified unfolding |
| IcsFeed.FoldingIsUndoneIff | backend/src/ics.rs:109-122 | a fold is undone exactly when its continuation text is empty or does not start with white space, or only white space precedes it on a continuation line |
| IcsFeed.FoldBeforeSpaceLosesIt | backend/src/ics.rs:113-114 | a concrete fold that is not undone |
| IcsFeed.FoldingKeepsTheFeed | backend/src/ics.rs:66-107 | such a fold anywhere changes nothing of what is read |
| IcsFeed.ParseOneVevent | backend/src/ics.rs:124-158 | the last UID, RRULE and STATUS win; a missing UID is made from the start date |
| IcsFeed.ParseIcsFeed | backend/src/ics.rs:66-107 | the feed loop returns one event per END line and the last calendar name outside events |
| IcsFeed.OneEventPerEnd | backend/src/ics.rs:80-89 | on every text there are as many events as END lines |
| IcsFeed.SectionIsItsEvent | backend/src/ics.rs:66-107 | each VEVENT is the event at its place in the feed, read from its own lines |
| IcsFeed.FeedReadsSections | backend/src/ics.rs:66-122 | on every feed each VEVENT is the event at its place, with fields, UID, rule, status and blob from its own lines alone |
| IcsFeed.EventReadsOwnLines | backend/src/ics.rs:82-83 | the blob's lines are the section's lines |
| IcalProperty.FeedReadsUid | backend/src/ics.rs:130-145 | the UID is the trimmed value of the section's last UID line, in any case and with any parameters, or made from the start date if that is blank |
| IcalProperty.FeedWithoutUid | backend/src/ics.rs:143-145 | so it is without such a line |
| IcalProperty.FeedReadsRule | backend/src/ics.rs:130-142 | the rule is the trimmed value of the last RRULE line, none without one |
| IcalProperty.FeedReadsStatus | backend/src/ics.rs:130-142 | the status likewise |
| IcalProperty.FeedReadsDates | backend/src/ics.rs:146-158 | the dates are the fields' dates normalised, the blob the section's lines |
| IcalProperty.FeedReadsName | backend/src/ics.rs:94-100 | the calendar's name is the trimmed value of the last X-WR-CALNAME line outside events |
| IcalProperty.AnyCaseWrites | backend/src/ics.rs:134-134 | a property's name counts in any mix of cases |
| IcalProperty.KindIff | backend/src/ics.rs:74-80 | the markers are those words in ASCII letters of any case |
| IcalProperty.LineIff | backend/src/dav.rs:232-238 | so are they, trimmed, for the reader of fields |
| ImageRewrite.RewriteBlocked | backend/src/privacy.rs:179-212 | the loop computes the specified rewriting |
| ImageRewrite.CutKeepsText | backend/src/privacy.rs:184-208 | the text between tags and the tags, in order, are the whole document |
| ImageRewrite.RewriteIsIdempotent | backend/src/privacy.rs:179-212 | for any harmless policy a second pass blocks and changes nothing |
| ImageRewrite.BlockedIffChanged | backend/src/privacy.rs:195-211 | `blocked` is reported exactly when the text changed |
| ImageRewrite.TitlesAreHarmless | backend/src/privacy.rs:331-335 | a title cannot close its attribute or open a tag |
| ImageScan.AttrReads | backend/src/privacy.rs:26-27 | the first attribute of the name that starts a word is read back, whatever quotes, spacing and text surround it |
| ImageRewrite.BlocksExactlyRemoteTags | backend/src/privacy.rs:184-211 | on every document the output is the same text with exactly the remote ones of its image tags replaced, reported just when there is one |
| ImageTags.IsRemoteIff | backend/src/privacy.rs:147-150 | an address is remote exactly when it is white space, then `http://` or `https://`, then anything |
| ImageTags.OthersAreLocal | backend/src/privacy.rs:147-150 | one that starts otherwise is not |
| ImageTags.WrittenAttrReads | backend/src/privacy.rs:26-27 | the first attribute of a name is read in any case, quotes and spacing |
| ImageTags.WrittenImageIsJudged | backend/src/privacy.rs:184-208 | an image tag written in a document is replaced by the blocked span with its caption exactly when its `src` is remote, and kept as it is otherwise |
| ImageTags.ImageWithoutSrcIsKept | backend/src/privacy.rs:190-206 | a tag without a `src` is kept |
| ImageTags.TextIsKept | backend/src/privacy.rs:184-211 | a document without image tags is left alone |
| ImageTags.ImgAheadIff | backend/src/privacy.rs:23-24 | a tag starts exactly where `<img`, in any case, ends a word |
| ImageTags.UnquotedReadsAsNone | backend/src/privacy.rs:26-27 | a value without quotes is not read |
| ImageTags.CaptionIsAlt | backend/src/privacy.rs:321-329 | the caption is the trimmed `alt` text, escaped, or "Image" if that is blank |
| ImageTags.CaptionWithoutAlt | backend/src/privacy.rs:321-329 | without `alt` it is "Image" |
| ImageTags.CaptionDecodes | backend/src/privacy.rs:331-335 | the escaped caption decodes to the caption |
| ImageRewrite.BlockingIsIdempotent | backend/src/privacy.rs:23-27 | both results for the actual blocking policy and the two scanners |
| MediaCache.Walk | backend/src/media.rs:501-527 | the stack walk lists every readable cached file exactly once and sums their lengths |
| MediaCache.Cache.EvictCacheIfNeeded | backend/src/media.rs:501-540 | exactly the shortest oldest-first prefix that brings the rest under the cap is removed, each with its side file; the subtraction never saturates |
| MediaCache.SideFileOfExtended | backend/src/media.rs:148-150 | the side file's name is the file's with its extension, if any, replaced |
| MediaCache.KeptFilesStay | backend/src/media.rs:514-536 | no file that is kept is removed as another's side file, and with names free of dots it keeps its own |
| MediaCache.SideFilesCanBeShared | backend/src/media.rs:148-150 | two names that differ in the extension only share a side file |
| MediaCache.WalkedAreNotMeta | backend/src/media.rs:515-517 | the walk counts no side file |
| MediaCache.ShortestIsUnique | backend/src/media.rs:527-538 | there is one such prefix, empty just when all fits |
| MediaCache.ByAgeSorts | backend/src/media.rs:530-530 | sorting is a permutation into age order |
| MediaCache.ByAgeIsStable | backend/src/media.rs:530-530 | entries of one age keep the order of the walk |
| MediaCache.EvictsOldestOnly | backend/src/media.rs:530-538 | what stays fits, one entry more would not, nothing kept is older than what went, and no byte is lost count of |
| MediaCache.NewestStays | backend/src/media.rs:475-499 | a strictly newest entry no larger than the cap is never evicted |
| MediaCache.FreshImageStays | backend/src/media.rs:71-72 | so a fetched image survives its own write |

## Left out

- HTTP handlers, SQL and ORM plumbing, network and TLS, MIME, cryptography: behaviour of libraries.
- Panics inside a sync and several processes on one database: the in-flight set and the startup reclaim are not built for them.
- Error strings, progress and log rows, backup jobs' own work: a job's outcome is a step of the model.
- CalDAV incremental sync: the next token is not stored (`backend/src/pim_dav.rs:414`), so there is no cursor to be right about.
- Contact fields derived from a vCard, photos, homeset discovery: a row holds href, etag, collection and data.
- `fetch_metadata`, `unfold_header`, `unfold_bytes`, proxy URL rewriting, vCard building: they would add easier members only.
- Offsets count characters, not bytes; every delimiter searched for is ASCII. `ByteLen` gives the byte length where the code compares one.
- XmlForest.ScannerInvertsRendering: rendered trees have no angle bracket in attributes and no self-closed element of the searched name; for the latter see `XmlSelfClosed`.
- SyncReport.ReaderInvertsReport: hrefs, etags and the token are non-empty and trimmed, since text is trimmed on reading; prefixes hold no white space, attributes no angle brackets.
- PollScheduler.OutcomesCountOnce: ties are taken to keep one order, since alternating ones break it; without ties no order is assumed.
- MediaCache.SideFileOfExtended: a path ends in a file name, as listed ones do; one ending in `..` or a slash is not modelled.
- CardDav.ReportRunsConverge: every fetch is answered from the view the report names, equal etags mean equal data, and no database call fails.
- MailMove.MoveNeverLoses: nobody takes filed mail out of the destination, and no other session acts between the DELETED search and EXPUNGE.
- Vevent.ReaderInvertsBuilder: date conversion and the clock are parameters; converted dates are taken to hold no white space and a timed date not to be eight bytes long.
- BuiltFeed.FeedReadsBuilt: the UID and the time stamp are one line each and do not end in a carriage return.
- Upper-casing covers the characters whose upper case is ASCII; every other character maps outside ASCII, where no property name is.
- ImageRewrite.BlockingIsIdempotent: the class of word characters is a parameter.
- MediaCache.Cache.EvictCacheIfNeeded: file sizes add up without overflowing 64 bits; a removal that fails still counts as freed, as in the code.
