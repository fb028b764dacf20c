# Verified model of the conversation client and its terminal tools

This project models the parts of the repository where several things happen at once or where a small
slip would lose something: the prompt queue and attachment protocol of the desktop client, the swapping
of session state, the JSON-RPC client of the Agent Host, waiting on the terminal grid, the line-buffered
byte stream, package versions, the key notation and styled terminal output.

Check everything with `dafny verify dfyconfig.toml`.

## How the model is built

Each component comes as functions on values that say what one uninterrupted stretch of code does, as a
class or methods with loops that do it the way the source does and are proved to equal those functions,
and as lemmas about the functions, over single steps and over whole runs. JavaScript `Map`s whose order
matters are sequences in insertion order.

| files | component |
|---|---|
| `QueueSnapshot`, `Session`, `SessionProofs`, `SessionEffects`, `ConversationQueue` | queue snapshots, submissions, public ids and cancellation of one session |
| `AttachmentStore`, `AttachmentProofs`, `AttachmentEffects`, `ConversationAttachmentStore` | staged files and reservations |
| `AttachmentManifest`, `ManifestLimits`, `ManifestIntact` | the manifest written and restored, and which runs of operations leave one that a restart accepts |
| `Protocol`, `ProtocolInvariant`, `ProtocolTheorems`, `ProtocolEffects`, `ProtocolSnapshots`, `ReconciliationPlan` | all sessions, Host calls, the store and reconciliation work lists, interleaved |
| `SessionWorld`, `SessionRecords` | live fields shared by reference with session records, against sessions that share nothing |
| `Transcript`, `TranscriptTail`, `BackgroundTasks`, `BackgroundEffects`, `BackgroundTaskList` | the bounded projections of a session |
| `HostClient`, `HostResponses`, `HostEvents`, `AcpHostClient` | requests, who gets which answer, permissions and their events, children, starting and stopping of the Host client |
| `GridWait`, `StableWait` | feeder, resizer and waiter as interleaved steps; waiting for a quiet grid |
| `LineReader`, `LinePipe` | reader task, channel and cursor reader under any schedule |
| `Semver`, `SemverText`, `RemoteCatalog` | version texts, precedence, and what a remote package is to a running one |
| `Keys` | key notation to key events |
| `StyledRuns`, `StyledHtml`, `StyledLook` | rows of cells to runs, runs to HTML, and what a reader of the page sees |

The watch channel of tokio is taken to report an unseen version before it reports closure, and its mpsc
channel to be first-in first-out. Prompt and attachment ids are random in the source; here a new one is
simply different from all known ones. Section 11 of Semantic Versioning 2.0.0 is written out as the
predicate `Semver.Precedes`, independently of the code; JSON-RPC response matching is that of section 5 of
the JSON-RPC 2.0 Specification.

## Main results

- Attachments of a prompt are deleted only for cause and end in one way (`DeletionIsJustified`,
  `NeverBothReturnedAndDeleted`, `UnfinishedPromptsKeepAttachments`), in every interleaving of prompts,
  sessions, snapshots, reconnects and reconciliation loops (`ProtocolInvariant.StepKeepsInv`). And they do meet
  that end: `CompletionDeletesAll`, `DefiniteFailureReturnsAll`, `SnapshotIsCarriedOut`.
- After an applied snapshot a session shows what the Host said, save for one branch (`SnapshotsAreExact`,
  `SnapshotExactIff`, `FaithfulStepIff`); public queue ids are kept (`EntryKeepsItsId`) and never reused
  (`PublicIdsNeverReused`).
- Live fields shared by reference behave as if every session had a state of its own (`Controller.PerformAll`).
- A restart after any run gives back the whole store if and only if limits and links allow it
  (`RestartAfterRun`, with `OperationFitsIff` and `RunFitsIff`).
- Every request and permission request of the Host client ends once, for a cause of its own, and every exit
  leaves nothing open (`RequestsSettleOnce`, `SettlementsHaveCauses`, `SelectionsHaveCauses`,
  `NothingOpenAfterTheEnd`, `AnnouncedIff`, `AcpHostClient.Perform`).
- The line-buffered stream delivers exactly the deliverable bytes, and gets to the end (`Drive`, `DriveToEnd`,
  `DeliversEverythingIff`).
- Waiting on the grid loses no wakeup (`NoLostWakeup`); when a quiet window can be untrue is decided for
  every reachable state (`UntrueMatchIff`).
- The bounded transcript is the longest end of the whole one that fits (`TranscriptIsLongestEnd`, `RunFlagIff`);
  background tasks stay bounded and keep what they must (`BackgroundTasks.RunKeeps`, `BackgroundEffects.StepEffect`).
- Version comparison is the precedence of Semantic Versioning (`CompareSemver`, `ParseSemverIff`); key notation
  and styled output round-trip (`WrittenKeysAreRead`, `KeptTextIsRead`, `CoalescedRunsAreUnique`, `PageShowsText`,
  `PageShowsLook`).

## What does not hold, and exactly when it does

Where the code does not do what its comments or names suggest, the code is modelled as it is; a lemma
shows a concrete case, and another one says when the expected property holds.

- A prompt can be shown as running after a snapshot says that nothing runs. `#completeSubmission` clears
  the running prompt when no snapshot has arrived on the connection, whichever prompt it was
  (`SomeRunForgetsRunning`); `FaithfulStepIff` and `SnapshotExactIff` give the conditions.
- Limits that a restart checks are not all checked when the store changes, and a manifest that breaks one is
  refused, which empties the store. A release can leave more than ten drafts (`TenReservedAndOneMoreOverflow`),
  a link counts against the restored total but not against capacity when staged
  (`FullOfFilesAndOneLinkOverflow`), and nothing bounds the number of records (`ManyScopesAndOneLinkOverflow`).
  `OperationFitsIff` gives the exact guard of every operation, and `RunFitsIff` lifts it to runs.
- The text of a link is measured before it is normalised, and normalised once more on restart. A link that grows
  past the limit is staged and then refused (`LengthenedLinkIsRefused`, `RestartAfterRun`).
- `transcriptTruncated` stays false when the only message grows past the cap (`SoleOverflowIsSilent`, `FlagIff`).
- An `ended` wait can miss a condition made true by a resize after the last check (`LateResizeIsNotAnnounced`);
  without such a resize it cannot (`EndedOnFinalGrid`, `QuietEndIsTrue`).
- `wait_stable` can report a quiet window although the grid changed in it, because `select!` may take the
  timer when both branches are ready (`LateBumpIsOverlooked`); `UntrueMatchIff` says from which states, and
  `PoliteMatchesAreTrue` that this choice is the only cause. A timer polled late also lets a match come after
  the deadline; polled on time it does not (`OnTimeMatchIsWithinDeadline`).
- An unfinished line is dropped when the source fails (`DeliversEverythingIff`).
- The end of a bracket in key notation is a byte offset used as a count of characters; text behind a
  bracket that is not ASCII can be swallowed (`KelvinSwallowsText`, `GoesOnBehindBracketIff`), and
  `NothingIsLostIff` says of every text whether any of it is.
- Blank runs at the end of a styled line are dropped although they are underlined, inverse or otherwise
  not of default style, which the comment there excludes (`UnderlinedBlanksAreDropped`, `TrimIsDefaultTrimIff`).
- The page does not show inverse video (`TagTellsStyle`, `LookIsStyleIff`).
- When the answer to a permission request cannot be written, the request has left the table and no
  `permission-resolved` is ever emitted for it (`AnUnsentAnswerIsNeverAnnounced`, `SilenceIsForGood`);
  `AnnouncedIff` and `LeavingIsAnnouncedIff` give the conditions.

## Model

| member | source | states |
|---|---|---|
| `QueueSnapshot.ProjectQueueChanged` | desktop/src/conversation-controller.js:2132-2185 | A received value is accepted if and only if every check holds (bounds, valid fields, pairwise distinct ids and positions below the count); each received entry then stands at its position with its id, version, owner and text, and there is nothing else |
| `QueueSnapshot.CollectEntries` | desktop/src/conversation-controller.js:2146-2178 | The entry loop with its two `Set`s fails exactly when some entry is unacceptable or two entries share an id or a position |
| `QueueSnapshot.SortByPosition` | desktop/src/conversation-controller.js:2179 | Sorting keeps the entries as a multiset and orders them strictly by position |
| `QueueSnapshot.OrderIsForced` | desktop/src/conversation-controller.js:2132-2185 | Two accepted snapshots with the same entries are the same sequence: the order is determined by the contents |
| `SessionProofs.SnapshotSettles` | desktop/src/conversation-controller.js:1384-1455 | After an applied snapshot no submission is unknown; one that is listed or running is shown as queued or running accordingly; any other that remains is untouched and was not live before |
| `SessionProofs.SnapshotExactIff` | desktop/src/conversation-controller.js:1432-1455 | After an applied snapshot, running means the running prompt and queued means listed and not running, if and only if the snapshot stranded no submission |
| `SessionProofs.FaithfulStepIff` | desktop/src/conversation-controller.js:571-660 | A step keeps every shown status backed by the queue if and only if it is not a completion before the first snapshot of a connection while another prompt is shown as running |
| `SessionProofs.StepKeepsNames` | desktop/src/conversation-controller.js:1391-1405 | Every step keeps the two id maps mutual inverses, every listed or running prompt named, and old ids tied to their prompts |
| `SessionProofs.PublicIdsNeverReused` | desktop/src/conversation-controller.js:1483-1489 | Over every run a public id never names two prompts, and every listed or running prompt has one |
| `SessionProofs.RevisionsGrow` | desktop/src/conversation-controller.js:1385-1391 | Between reconnects the revision never falls and every applied snapshot raises it strictly |
| `SessionProofs.StepKeepsCancel` | desktop/src/conversation-controller.js:592-601 | Each step keeps: no request means no target, and a target while a prompt runs is that prompt |
| `SessionProofs.CompletionForgetsPrompt` | desktop/src/conversation-controller.js:590-605 | After a completion the prompt is in the table no more, no cancellation is left waiting for it, the other submissions are as they were, and a running prompt is forgotten only before the first snapshot of a connection |
| `SessionProofs.FailureSettlesPrompt` | desktop/src/conversation-controller.js:639-652 | After a failure the prompt is unknown if the failure is uncertain and gone otherwise, no cancellation is left waiting for it, and the other submissions and the queue are as they were |
| `SessionEffects.PublicIdIsKept` | desktop/src/conversation-controller.js:1391-1405 | A prompt keeps its public id through every step, unless an applied snapshot lacks it and it is not submitted here, and then it has none; exactly a prompt that a snapshot shows live gets one, and a new one |
| `SessionEffects.EntryKeepsItsId` | desktop/src/conversation-controller.js:1483-1489 | Over any stretch of a run in which a prompt stays listed or running, its entry is shown under the same public id |
| `SessionEffects.EntriesAreShown` | desktop/src/conversation-controller.js:1406-1417 | Every entry of an applied snapshot is shown in its place with the text, owner and version received, and its prompt's public id |
| `SessionEffects.CancelIsForItsTarget` | desktop/src/conversation-controller.js:801-816 | A request to cancel is for the running prompt, else the first submission shown as running, else the first one on its way; with nothing to stop, or while one is pending, nothing changes |
| `SessionEffects.CancelStaysUntilEnded` | desktop/src/conversation-controller.js:592-601 | A pending cancellation stays with its target until its prompt ends, the connection does, the Host refuses, or a snapshot shows its target not running; nothing else starts one |
| `SessionEffects.TableAfterStep` | desktop/src/conversation-controller.js:475-660 | In every step but a snapshot each submission becomes what its own case says, in the same order, and a new one comes last, on its way, with its attachments |
| `SessionEffects.SettleAllSplits` | desktop/src/conversation-controller.js:1432-1455 | A snapshot settles the table submission by submission, in order |
| `SessionEffects.SettleAllOne` | desktop/src/conversation-controller.js:1432-1455 | A live submission becomes running or queued, one that is unknown or was live goes, any other stays as it is |
| `SessionEffects.SnapshotAfterReconnectApplies` | desktop/src/conversation-controller.js:1165-1182 | After a reconnect the next snapshot is applied, whatever its revision |
| `SessionEffects.BusyAfterStep` | desktop/src/conversation-controller.js:1406-1455 | A session is busy from a submission on, and then as applied snapshots tell |
| `ConversationQueue.ConversationQueue.EnsurePublicQueueId` | desktop/src/conversation-controller.js:1483-1489 | A named prompt keeps its id and nothing changes; another gets the next one, entered in both maps |
| `ConversationQueue.ConversationQueue.DropDeadNames` | desktop/src/conversation-controller.js:1398-1404 | The clean-up loop forgets exactly the ids of prompts that are neither live nor submitted here, in both maps |
| `ConversationQueue.ConversationQueue.SettleSubmissions` | desktop/src/conversation-controller.js:1432-1455 | The loop that deletes from the table while iterating over it leaves what `SettleAll` says, and collects exactly the accepted and the reconciled prompts |
| `ConversationQueue.ConversationQueue.HandleQueueChanged` | desktop/src/conversation-controller.js:1384-1455 | The whole synchronous handler equals the specified step: an older or equal revision changes nothing |
| `ConversationQueue.ConversationQueue.CancelCurrentTask` | desktop/src/conversation-controller.js:801-816 | The target is the running prompt, else the first running submission, else the first submitting or unknown one; without anything to stop nothing changes |
| `ConversationQueue.ConversationQueue.FindFirst` | desktop/src/conversation-controller.js:808-816 | The first submission, in insertion order, with one of the given statuses |
| `ConversationQueue.ConversationQueue.MarkDisconnected` | desktop/src/conversation-controller.js:1165-1173 | Every submitting submission becomes unknown and the cancellation is dropped |
| `ConversationQueue.ConversationQueue.MarkUnknown` | desktop/src/conversation-controller.js:640-640 | The submission of an uncertain failure becomes unknown, and no other changes |
| `ProtocolInvariant.StepKeepsInv` | desktop/src/conversation-controller.js:475-660 | The protocol invariant (tables, calls, reservations and work lists agree) is kept by every step of every interleaving |
| `ProtocolInvariant.RunKeepsInv` | desktop/src/conversation-controller.js:1373-1547 | So it holds in every reachable state |
| `ReconciliationPlan.PlanDecides` | desktop/src/conversation-controller.js:1513-1547 | The work list accepts exactly the reserved prompts that are live and deletes exactly those removed; it marks unknown only others that have a waiting reservation, among them every one whose reservations all wait (what an entry does is `JobDoesItsAction`) |
| `ReconciliationPlan.SnapshotDecidesEveryReservation` | desktop/src/conversation-controller.js:1467-1547 | After an applied snapshot every reserved prompt of the session is put down once: for acceptance if and only if live, for deletion if and only if removed, and as unknown otherwise if the Host had not taken it |
| `ReconciliationPlan.SnapshotAcceptsLivePrompts` | desktop/src/conversation-controller.js:1467-1478 | Reservations of this client's prompts that the snapshot shows live are accepted at once |
| `ProtocolEffects.StepEffect` | desktop/src/conversation-controller.js:475-660 | In every step of the protocol each single record meets its fate: deleted, or kept with the reservation told for it, in the same order |
| `ProtocolEffects.CompletionDeletesAll` | desktop/src/conversation-controller.js:571-588 | Over any run, when the Host call of a prompt completes none of the prompt's attachments is left, and exactly the records not reserved for it remain, unchanged; a late completion changes nothing |
| `ProtocolEffects.JobDoesItsAction` | desktop/src/conversation-controller.js:1524-1545 | Whenever a reconciliation loop goes on, it carries out the next entry of its list: accepted, unknown, or deleted, for that prompt alone |
| `ProtocolEffects.SnapshotIsCarriedOut` | desktop/src/conversation-controller.js:1513-1547 | Once the list of an applied snapshot has been carried out, each reserved prompt is accepted if live, deleted if removed, unknown if the Host had not taken it, and left alone otherwise, whatever else happened that left its attachments alone |
| `ProtocolTheorems.ReservationsOnlyEnd` | desktop/src/conversation-attachment-store.js:251-317 | Over any stretch of a run the reservations of a known prompt only shrink |
| `ProtocolTheorems.NeverBothReturnedAndDeleted` | desktop/src/conversation-controller.js:571-638 | Over any run an attachment reserved for a prompt is given back or deleted at most once, never both |
| `ProtocolTheorems.EndedForGood` | desktop/src/conversation-attachment-store.js:306-317 | Once given back or deleted it is never reserved for that prompt again |
| `ProtocolTheorems.AbsentWasShown` | desktop/src/conversation-controller.js:1427-1429 | A prompt counts as absent only after an applied snapshot of its session lacked it while it had been live or its outcome was unknown |
| `ProtocolTheorems.DeletionIsJustified` | desktop/src/conversation-controller.js:1430-1455 | Apart from account clearing, an attachment reserved for a prompt is deleted only when that prompt's Host call completes, or after a snapshot showed it absent (that completion does delete is `CompletionDeletesAll`) |
| `ProtocolTheorems.UnfinishedPromptsKeepAttachments` | desktop/src/conversation-controller.js:475-540 | While a prompt has no known end, exactly its own attachments stay reserved for it |
| `ProtocolTheorems.DefiniteFailureReturnsAll` | desktop/src/conversation-controller.js:622-638 | A definite failure makes exactly the prompt's attachments drafts again, with the same ids, and changes nothing else about any record |
| `ProtocolTheorems.UncertainFailureKeepsAll` | desktop/src/conversation-controller.js:622-638 | An uncertain failure keeps every attachment reserved for the prompt, with status unknown |
| `ProtocolTheorems.SessionsStayValid` | desktop/src/conversation-controller.js:293-313 | The naming and cancellation invariants hold in every session of every reachable protocol state |
| `ProtocolSnapshots.SnapshotsAreExact` | desktop/src/conversation-controller.js:1384-1455 | Over every run of the whole protocol each applied snapshot opens the gate of its session, and as long as no step made that session lose its running prompt it shows every submission exactly as the Host does |
| `ProtocolSnapshots.SomeRunForgetsRunning` | desktop/src/conversation-controller.js:602-606 | Witness: a run of the protocol (two prompts, a reconnect, the reply to the second prompt) after which an applied snapshot leaves a prompt shown as running although nothing runs |
| `SessionWorld.OnlyReachedChange` | desktop/src/conversation-controller.js:293-313 | Work under `#withSessionRecord`, nested to any depth, changes no session it does not name |
| `SessionWorld.BackgroundWorkIsNotShown` | desktop/src/conversation-controller.js:2058-2067 | Work on sessions other than the one on screen leaves the snapshot on screen alone |
| `SessionWorld.UntouchedSessionsKeepTheirState` | desktop/src/conversation-controller.js:282-313 | A session keeps its whole state over any run of loading, leaving and background work that does not touch it |
| `SessionWorld.PublishShows` | desktop/src/conversation-controller.js:2058-2067 | Publishing keeps the new snapshot with its session and shows it if and only if that session is on screen |
| `SessionWorld.ScreenStaysTrue` | desktop/src/conversation-controller.js:293-313 | Work on the session on screen keeps the screen showing what that session published last, as long as it does not come back to it from another session |
| `SessionWorld.WorkStores` | desktop/src/conversation-controller.js:282-313 | A change, a replacement or an assignment stores its value in that field of that session alone; a change in place of what is no container throws |
| `SessionRecords.FieldListIsComplete` | desktop/src/conversation-controller.js:112-144 | The list of copied fields names every per-session field |
| `SessionRecords.CreateState` | desktop/src/conversation-controller.js:2070-2104 | A new session state has the initial values and shares no container with anything |
| `SessionRecords.Controller.NothingIsShared` | desktop/src/conversation-controller.js:282-291 | No array, map or set is reachable from two sessions or from two fields of one session |
| `SessionRecords.Controller.Capture` | desktop/src/conversation-controller.js:282-285 | Storing the live fields changes what no session holds |
| `SessionRecords.Controller.Restore` | desktop/src/conversation-controller.js:287-291 | Loading a record changes what no session holds, provided the loaded one was stored |
| `SessionRecords.Controller.Mutate` | desktop/src/conversation-controller.js:282-313 | Changing a shared container in place changes one field of the loaded session and nothing of any other |
| `SessionRecords.Controller.Publish` | desktop/src/conversation-controller.js:2058-2067 | Publishing sets the snapshot of the loaded session, and the one on screen only if that session is on screen |
| `SessionRecords.Controller.WithSessionRecord` | desktop/src/conversation-controller.js:293-313 | Loads, works and gives back: the result is the work done on that session's own state, the session, authority and snapshot loaded before are loaded again, also after an exception and at any nesting |
| `SessionRecords.Controller.Do` | desktop/src/conversation-controller.js:293-313 | Any piece of work on the live fields acts as the same work on separate session states |
| `SessionRecords.Controller.Leave` | desktop/src/conversation-controller.js:1009-1034 | The first half of opening an Agent stores what was loaded and loses nothing |
| `SessionRecords.Controller.Enter` | desktop/src/conversation-controller.js:1058-1063 | The second half loads the existing record of the session, or a fresh one |
| `SessionRecords.Controller.Reset` | desktop/src/conversation-controller.js:1998-2011 | Forgets all sessions and replaces every live field |
| `SessionRecords.Controller.PerformAll` | desktop/src/conversation-controller.js:262-313 | Over any run of such steps the shared live fields behave as if every session had a state of its own |
| `AttachmentProofs.OperationKeepsBound` | desktop/src/conversation-attachment-store.js:397-447 | Every complete store operation keeps ids distinct and the bytes of files and images of every scope within 50 MiB |
| `AttachmentProofs.RunKeepsBound` | desktop/src/conversation-attachment-store.js:126-198 | So over any run of complete operations |
| `AttachmentProofs.ReserveMovesDrafts` | desktop/src/conversation-attachment-store.js:251-284 | Reserving moves exactly the named drafts to the prompt, touches no other reservation, and undoing it restores the store exactly |
| `AttachmentEffects.StagingOne` | desktop/src/conversation-attachment-store.js:397-437 | An item is refused for its own faults or for want of room, found among the drafts, or appended as a draft with exactly its name, type, size, digest and encoding |
| `AttachmentEffects.StagingBatch` | desktop/src/conversation-attachment-store.js:171-190 | A staged batch appends only drafts that hold its items, and every item is found afterwards |
| `AttachmentEffects.StagingLink` | desktop/src/conversation-attachment-store.js:200-227 | A link is found among the drafts, refused for want of room, or appended under its host name with its text |
| `AttachmentEffects.DiscardingOne` | desktop/src/conversation-attachment-store.js:229-236 | Discarding takes exactly the named draft away and is refused for anything else |
| `AttachmentEffects.Reserving` | desktop/src/conversation-attachment-store.js:251-284 | At most ten different drafts are reserved as submitting for the prompt and nothing else changes; when refused, or when the prompt cannot be built, nothing changes at all |
| `AttachmentProofs.MarkKeepsReservations` | desktop/src/conversation-attachment-store.js:475-481 | Changing a status changes neither who holds what nor what is a draft |
| `AttachmentProofs.ReleaseReturnsDrafts` | desktop/src/conversation-attachment-store.js:306-311 | Releasing turns exactly the records of that scope, session and prompt into drafts and touches no other |
| `AttachmentProofs.ConsumeDeletesExactly` | desktop/src/conversation-attachment-store.js:313-317 | Consuming deletes exactly the records of that scope, session and prompt |
| `AttachmentProofs.StagingKeepsReserved` | desktop/src/conversation-attachment-store.js:126-236 | Staging, linking and discarding never touch a reserved record |
| `AttachmentProofs.ReservationOpsKeepTheRest` | desktop/src/conversation-attachment-store.js:464-481 | Reservation operations change nothing of a record but its reservation, and keep the order |
| `ConversationAttachmentStore.ConversationAttachmentStore.StageItem` | desktop/src/conversation-attachment-store.js:397-437 | Reuses a draft with the same content, or checks the capacity and adds a record with its file and the bytes in it |
| `ConversationAttachmentStore.ConversationAttachmentStore.StageUntilFailure` | desktop/src/conversation-attachment-store.js:171-190 | The batch loop adds records at the end, remembers the ids it created and keeps files and records in step |
| `ConversationAttachmentStore.ConversationAttachmentStore.StageBytes` | desktop/src/conversation-attachment-store.js:171-198 | A batch is staged whole or not at all: a new file holds the bytes of its item and the others keep theirs; after a failure the records, duplicates included, and the files are what they were |
| `ConversationAttachmentStore.ConversationAttachmentStore.RemoveRecords` | desktop/src/conversation-attachment-store.js:603-610 | The removal loop deletes exactly the given records and their files |
| `ConversationAttachmentStore.ConversationAttachmentStore.ReleaseReservation` | desktop/src/conversation-attachment-store.js:306-311 | The loop over the records in place does what `Release` says |
| `ConversationAttachmentStore.ConversationAttachmentStore.ConsumeReservation` | desktop/src/conversation-attachment-store.js:313-317 | Records and staged files of the prompt go together, and every other file keeps its bytes |
| `AttachmentManifest.RecordRoundTrip` | desktop/src/conversation-attachment-store.js:534-579 | A written record is restored as itself if and only if its staged bytes are intact and its stored fields pass their own validators |
| `AttachmentManifest.RestoreManifest` | desktop/src/conversation-attachment-store.js:483-532 | The restore loop gives back the records in order exactly when each restores, ids are distinct and all limits hold; otherwise the store starts empty |
| `AttachmentManifest.ManifestRoundTrip` | desktop/src/conversation-attachment-store.js:581-601 | Restoring the manifest just written gives the same records and reservations in the same order if and only if every record is intact and the store fits the limits |
| `AttachmentManifest.ReleaseFitsIff` | desktop/src/conversation-attachment-store.js:306-311 | Releasing keeps the store restorable if and only if drafts and released attachments together stay within ten |
| `ManifestLimits.StageLinkFitsIff` | desktop/src/conversation-attachment-store.js:200-227 | Staging a link keeps the store restorable if and only if it adds no record, or a record is free and the text fits the bytes left |
| `ManifestLimits.StageFitsIff` | desktop/src/conversation-attachment-store.js:171-198 | Staging files keeps the store restorable if and only if it fails or the records it adds, one for each new content, stay within a thousand |
| `ManifestLimits.OperationFitsIff` | desktop/src/conversation-attachment-store.js:483-532 | For every operation of the store: a restorable store stays restorable if and only if the operation passes a guard that can be checked beforehand |
| `ManifestLimits.RunFitsIff` | desktop/src/conversation-attachment-store.js:483-532 | Over every run from the empty store: all stores on the way can be restored if and only if every operation passed its guard |
| `ManifestLimits.TenReservedAndOneMoreOverflow` | desktop/src/conversation-attachment-store.js:306-311 | Witness: a run of restorable stores to ten reserved links and one draft, from which a release leaves a store that is refused on restart |
| `ManifestLimits.FullOfFilesAndOneLinkOverflow` | desktop/src/conversation-attachment-store.js:200-227 | Witness: a run to 20, 20 and 10 MiB of files, after which staging one link leaves a store that is refused |
| `ManifestLimits.ManyScopesAndOneLinkOverflow` | desktop/src/conversation-attachment-store.js:490-498 | Witness: a run to a thousand links in as many scopes, after which staging one more leaves a store that is refused |
| `ManifestIntact.RunKeepsSound` | desktop/src/conversation-attachment-store.js:397-437 | Over every run of operations and every staging directory that follows them, each record passes all checks of a restart, save for normalising the name and text of a link once more |
| `ManifestIntact.RestartAfterRun` | desktop/src/conversation-attachment-store.js:483-579 | After every run a restart gives back all records and reservations in order if and only if the store fits the limits and every link in it passes normalisation unchanged |
| `ManifestIntact.LengthenedLinkIsRefused` | desktop/src/conversation-attachment-store.js:702-718 | A link that normalising made longer than 2048 characters is staged, and the manifest record it leaves is refused |
| `BackgroundTasks.RunKeeps` | desktop/src/conversation-controller.js:1800-1867 | The same over every run: later lists only continue the listed tasks or add newer ones |
| `BackgroundTasks.TerminalTasksNeverChange` | desktop/src/conversation-controller.js:1620-1652 | Over every run a terminal task never changes while it is listed |
| `BackgroundTasks.RunningEvictedLast` | desktop/src/conversation-controller.js:1859-1865 | A running task is evicted only if no terminal task remains |
| `BackgroundEffects.StepEffect` | desktop/src/conversation-controller.js:1620-1652 | Every step makes of each listed task what is told for it, appends what is new with the next ids, and lets tasks go only for want of room |
| `BackgroundEffects.ReconciledBecomes` | desktop/src/conversation-controller.js:1826-1839 | A running task takes kind and status from the Host's list; one that the list lacks is stopped if it came from a replay; a terminal one takes nothing |
| `BackgroundEffects.OneTooManyLeaves` | desktop/src/conversation-controller.js:1859-1865 | Of one task too many the oldest terminal one leaves, or the oldest if all run, and the others stay in order |
| `BackgroundTaskList.BackgroundTaskList.EvictExcess` | desktop/src/conversation-controller.js:1859-1865 | The eviction loop keeps list and id map in step and drops what `Evict` says |
| `BackgroundTaskList.BackgroundTaskList.RecordBackgroundTask` | desktop/src/conversation-controller.js:1620-1638 | A new task or a command that turns out to be a monitor; the result tells whether anything changed |
| `BackgroundTaskList.BackgroundTaskList.RecordBackgroundTaskCompletion` | desktop/src/conversation-controller.js:1640-1652 | Only a running task takes an outcome; the result tells whether anything changed |
| `BackgroundTaskList.BackgroundTaskList.ReconcileListed` | desktop/src/conversation-controller.js:1826-1839 | The loop that updates shared task objects in place does what the specification says task by task |
| `BackgroundTaskList.BackgroundTaskList.ReconcileBackgroundTasks` | desktop/src/conversation-controller.js:1800-1844 | List and id map follow the Host list: listed tasks updated, replayed ones stopped, unknown ones appended |
| `BackgroundTaskList.BackgroundTaskList.Perform` | desktop/src/conversation-controller.js:1620-1867 | Every step of the list as it runs is the specified step, clearing included, and keeps list and id map in step |
| `Transcript.Transcript.AppendMessage` | desktop/src/conversation-controller.js:1654-1679 | The two dropping loops and the cut together do what the specified step does |
| `Transcript.AppendKeepsSuffix` | desktop/src/conversation-controller.js:1654-1679 | After a step the kept text is the end of the kept text before it followed by the new text, within 200 messages and 200000 units |
| `Transcript.FlagIff` | desktop/src/conversation-controller.js:1656-1678 | A step raises the flag if and only if it drops text, except when the only message grows past the cap |
| `Transcript.RunKeepsSuffix` | desktop/src/conversation-controller.js:1654-1679 | Over any run the kept text is a suffix of everything appended, within both bounds, with increasing ids, and a raised flag means that text was dropped |
| `Transcript.RunFlagIff` | desktop/src/conversation-controller.js:1654-1679 | Without that exception the flag tells exactly whether the transcript is complete |
| `Transcript.SoleOverflowIsSilent` | desktop/src/conversation-controller.js:1657-1678 | Witness of the exception: a run of two appends that loses text without the flag |
| `TranscriptTail.TranscriptIsLongestEnd` | desktop/src/conversation-controller.js:1654-1679 | Over any run the kept messages are the longest end of the whole transcript that fits, with the same ids, roles and texts; only a last message too long by itself is cut, and stands alone |
| `HostClient.StepKeepsBooks` | desktop/src/host/acp-client.js:517-854 | Every step keeps both tables in order: each issued id pending or settled once, each admitted permission open or finished once, results written exactly for the finished ones |
| `HostClient.RequestsSettleOnce` | desktop/src/host/acp-client.js:796-827 | In every reachable state each issued id is pending or settled, never both, and settled only once (by what, and with which outcome, is `SettlementsHaveCauses`) |
| `HostClient.IdsAreNeverReused` | desktop/src/host/acp-client.js:796-815 | Request lines carry strictly increasing ids |
| `HostClient.LateResponseChangesNothing` | desktop/src/host/acp-client.js:658-676 | A response to a settled or unknown request changes nothing |
| `HostResponses.ResponseSettlesItsRequest` | desktop/src/host/acp-client.js:658-676 | A response of the running child settles exactly the request it names, with what it carries |
| `HostResponses.TimerRejectsItsRequest` | desktop/src/host/acp-client.js:796-815 | A request timer rejects exactly its own request, or does nothing once that is settled |
| `HostResponses.EndRejectsAll` | desktop/src/host/acp-client.js:821-827 | The end of a connection rejects exactly the pending requests, in order, with its reason |
| `HostResponses.SettlementsHaveCauses` | desktop/src/host/acp-client.js:658-827 | Over any run every settlement was caused by a step that gave that request that outcome |
| `HostResponses.ValuesComeFromOwnResponses` | desktop/src/host/acp-client.js:658-676 | Over any run a resolved value was carried by a response that names its request, from the child then running |
| `HostResponses.PendingWasAsked` | desktop/src/host/acp-client.js:796-815 | In every reachable state the line of each pending request has been written |
| `HostClient.DroppedChildHasNoEffect` | desktop/src/host/acp-client.js:607-656 | Over any run a child that was dropped never comes back, and its lines, its exit and its failed start have no effect |
| `HostClient.NothingOpenAfterTheEnd` | desktop/src/host/acp-client.js:517-527 | After an exit, a stop or a failed start nothing is pending: every request was settled and every permission request finished |
| `HostClient.PermissionsAreAnsweredOnce` | desktop/src/host/acp-client.js:541-565 | A permission request leaves the table once; no id gets more results than it had finished requests; a selected option was one of those offered |
| `HostResponses.RespondDecidesItsRequest` | desktop/src/host/acp-client.js:533-565 | A decision goes to the open request it is for, with its option and its line; one for no open request or for an option not offered changes nothing |
| `HostResponses.TimerExpiresItsRequest` | desktop/src/host/acp-client.js:722-732 | The timer of a permission request cancels that request as expired |
| `HostResponses.RequestIsAdmitted` | desktop/src/host/acp-client.js:698-760 | A proper request with a new id is admitted with its options and stays open while nobody decides |
| `HostResponses.RequestIsDecidedAtOnce` | desktop/src/host/acp-client.js:737-757 | Without a listener or with one that throws it is cancelled at once, and with one that decides it is decided so |
| `HostResponses.BadRequestIsRefused` | desktop/src/host/acp-client.js:698-721 | A malformed request, one without options and one whose id is open are refused, and nothing is admitted |
| `HostResponses.StopCancelsAll` | desktop/src/host/acp-client.js:829-837 | Stopping cancels every open request in order, and those that cannot be answered get no answer |
| `HostResponses.SelectionsHaveCauses` | desktop/src/host/acp-client.js:541-565 | Over any run an option selected for a request was selected for that request by a listener |
| `HostEvents.AnnouncedIff` | desktop/src/host/acp-client.js:541-565 | In every reachable state a permission request that left the table was announced by `permission-resolved` if and only if its answer was written or it was dropped |
| `HostEvents.LeavingIsAnnouncedIff` | desktop/src/host/acp-client.js:541-565 | In the step in which it leaves it is announced if and only if that step can write its answer or needs none |
| `HostEvents.AnnouncementsAreTruthful` | desktop/src/host/acp-client.js:541-565 | At most one event and one result for each request, only when it is gone, and the event tells what was written |
| `HostEvents.SilenceIsForGood` | desktop/src/host/acp-client.js:829-854 | A request that is gone and was not announced is not announced later, over any run |
| `HostEvents.AnUnsentAnswerIsNeverAnnounced` | desktop/src/host/acp-client.js:541-565 | Witness: a reachable state in which a request is gone and was never announced |
| `AcpHostClient.AcpHostClient.RejectPending` | desktop/src/host/acp-client.js:821-827 | The loop rejects every pending request in order and empties the table |
| `AcpHostClient.AcpHostClient.ResolvePermission` | desktop/src/host/acp-client.js:541-565 | Unknown ids and options not offered are refused without effect; otherwise the entry leaves and its result is written if it can be |
| `AcpHostClient.AcpHostClient.CancelIncomingPermissions` | desktop/src/host/acp-client.js:829-837 | The loop answers every open request, or drops it when the answer cannot be written |
| `AcpHostClient.AcpHostClient.ClearIncomingPermissions` | desktop/src/host/acp-client.js:839-854 | The loop drops every open request without an answer |
| `AcpHostClient.AcpHostClient.Perform` | desktop/src/host/acp-client.js:517-854 | Every step of the client as it runs is the specified step |
| `AcpHostClient.StartWithBoundedRetry` | desktop/src/host/acp-client.js:567-585 | At most the allowed attempts, another one only after the Host exited, and the last attempt decides |
| `GridWait.NoLostWakeup` | crates/codegen/ptyctl/src/wait.rs:97-129 | In every interleaving, while the feeder lives, a parked waiter with nothing left to wake it has a condition that is false on the current grid |
| `GridWait.EndedSawEverything` | crates/codegen/ptyctl/src/wait.rs:119-122 | `ended` is reported only after a check that saw every chunk ever fed |
| `GridWait.CheckDecides` | crates/codegen/ptyctl/src/wait.rs:103-117 | A check ends in a match if and only if the condition holds on the grid at that moment |
| `GridWait.MatchWasSeen` | crates/codegen/ptyctl/src/wait.rs:103-117 | Over any run a match was seen by a check on the grid as it was then |
| `GridWait.WokenWaiterSees` | crates/codegen/ptyctl/src/wait.rs:97-125 | A waiter woken by an unseen change checks again and matches if the grid then meets the condition |
| `GridWait.EndedOnFinalGrid` | crates/codegen/ptyctl/src/wait.rs:119-122 | If no resize came since the last check, `ended` is decided on the final grid, and the condition is false on it |
| `GridWait.QuietEndIsTrue` | crates/codegen/ptyctl/src/wait.rs:119-122 | From a parked wait whose feeder is gone, `ended` is never reported on a grid that meets the condition unless a resize comes |
| `GridWait.LateResizeIsNotAnnounced` | crates/codegen/ptyctl/src/session.rs:272-283 | From every parked wait whose feeder is gone, a resize to any screen that meets the condition can be followed by `ended` |
| `GridWait.RawTail.Push` | crates/codegen/ptyctl/src/wait.rs:202-213 | The raw tail is always the last 2048 bytes of everything pushed |
| `StableWait.MatchComesAfterWindow` | crates/codegen/ptyctl/src/wait.rs:140-164 | A match comes at least a full window after the last mark, and the end of that window is within the deadline |
| `StableWait.OnTimeMatchIsWithinDeadline` | crates/codegen/ptyctl/src/wait.rs:140-164 | With timers polled on time a match comes exactly at the end of its window, within the deadline |
| `StableWait.PoliteMatchesAreTrue` | crates/codegen/ptyctl/src/wait.rs:140-164 | If `select!` does not take the timer while a change is ready, the grid was unchanged for the whole window |
| `StableWait.UntrueMatchIff` | crates/codegen/ptyctl/src/wait.rs:138-164 | From every reachable state a later match can be untrue if and only if the window can still end in time and the feeder is alive, or an unseen bump is too recent |
| `StableWait.TimeoutIsDue` | crates/codegen/ptyctl/src/wait.rs:140-164 | A timeout is never early, and `ended` means that the feeder is gone |
| `StableWait.DeadlineEndsTheWait` | crates/codegen/ptyctl/src/wait.rs:138-164 | Once the deadline has passed, whichever branch is taken ends the wait, with a match only if the window ended within the deadline |
| `StableWait.RoundsAreBounded` | crates/codegen/ptyctl/src/wait.rs:138-164 | Each round after the first is paid for by a bump or by the one closure |
| `StableWait.LateBumpIsOverlooked` | crates/codegen/ptyctl/src/wait.rs:143-162 | Every wait with a live feeder and a window that can end in time can report a match although a bump came within the window |
| `LineReader.ReadLineCapped` | crates/codegen/xai-acp-lib/src/line_reader.rs:140-177 | One line, the end, or the error, whatever pieces the source comes in; accumulation never exceeds the cap by more than one fill |
| `LinePipe.ReaderTask.Step` | crates/codegen/xai-acp-lib/src/line_reader.rs:62-86 | Whatever the reader task does, what is queued and still to come stays the same sequence |
| `LinePipe.LineBufferedRead.PollRead` | crates/codegen/xai-acp-lib/src/line_reader.rs:95-133 | Serves the held line first, then the next item; pending only between lines, 0 only at the end |
| `LinePipe.Drive` | crates/codegen/xai-acp-lib/src/line_reader.rs:62-133 | For any pieces and any schedule of task steps and reads: delivered bytes are a prefix of the deliverable lines, no read spans two lines, waiting happens only at a line boundary, and 0 means that everything was delivered |
| `LinePipe.DriveToEnd` | crates/codegen/xai-acp-lib/src/line_reader.rs:62-133 | After any schedule, alternating the task with reads into slices of any size above zero tells the consumer the end within a bounded number of rounds, with everything deliverable delivered, and an error reported if and only if there is one |
| `LinePipe.DeliversEverythingIff` | crates/codegen/xai-acp-lib/src/line_reader.rs:68-85 | The deliverable bytes are the source bytes if and only if no line exceeds the cap and the source ends properly or after a newline |
| `Semver.NumericIdentifierOrder` | desktop/src/package-controller.js:536-540 | Comparing lengths and then texts of digit strings without leading zeros is comparing the integers |
| `Semver.PrecedesTransitive` | desktop/src/package-controller.js:507-534 | Precedence is transitive |
| `Semver.PrecedesAsymmetric` | desktop/src/package-controller.js:507-534 | Precedence is asymmetric and irreflexive |
| `Semver.ComparePrerelease` | desktop/src/package-controller.js:515-533 | The prerelease loop decides the precedence of sections 11.4.1 to 11.4.4, and 0 only for equal lists |
| `Semver.CompareParsed` | desktop/src/package-controller.js:507-534 | On parsed versions the result is the sign of the precedence of section 11, and 0 only for equal versions |
| `SemverText.ParseSemverIff` | desktop/src/package-controller.js:542-555 | A text is accepted if and only if it is the text of a version with some build metadata, and then gives that version |
| `SemverText.CompareSemver` | desktop/src/package-controller.js:507-534 | An error exactly when a text is no version; otherwise the order of the two versions, build metadata ignored |
| `RemoteCatalog.Availabilities` | desktop/src/package-controller.js:286-308 | Every remote package gets the answer that precedence dictates against the last running package with its id |
| `Keys.ParseSpecial` | crates/codegen/ptyctl/src/keys.rs:77-148 | The prefix loop and the name table do what `Special` says (the table itself is pinned by `NameIsInTable`) |
| `Keys.ParseToEvents` | crates/codegen/ptyctl/src/keys.rs:39-67 | The character loop, with its byte offset used as a count, does what `Events` says |
| `Keys.SpelledTextIsTyped` | crates/codegen/ptyctl/src/keys.rs:39-67 | Writing each `<` of any Unicode text as `<lt>` and parsing gives exactly its characters as plain key presses |
| `Keys.PrefixOrderIsIrrelevant` | crates/codegen/ptyctl/src/keys.rs:77-100 | Order, repetition, letter case and M or A of the prefixes make no difference |
| `Keys.WrittenKeysAreRead` | crates/codegen/ptyctl/src/keys.rs:39-148 | Characters and supported key presses in any mixture, each press written with any of its names and any prefixes that mean its modifiers, are read back one by one |
| `Keys.CanBeWrittenIff` | crates/codegen/ptyctl/src/keys.rs:102-147 | A key press can be written in brackets if and only if it is supported |
| `Keys.NameIsInTable` | crates/codegen/ptyctl/src/keys.rs:102-134 | A text is a name of a key if and only if the table has it for that key |
| `Keys.LongTextIsKeyIff` | crates/codegen/ptyctl/src/keys.rs:102-147 | A text of two or more characters without a modifier prefix is a key if and only if the table has it |
| `Keys.GoesOnBehindBracketIff` | crates/codegen/ptyctl/src/keys.rs:47-52 | Reading goes on right behind the bracket if and only if its content is ASCII or nothing follows |
| `Keys.KeptTextIsRead` | crates/codegen/ptyctl/src/keys.rs:39-67 | The key presses of any text are those of the text without the swallowed parts, read exactly |
| `Keys.NothingIsLostIff` | crates/codegen/ptyctl/src/keys.rs:39-67 | All of a text is read, and exactly, if and only if every bracket that exact reading meets and takes for a key is ASCII or ends the text |
| `Keys.KelvinSwallowsText` | crates/codegen/ptyctl/src/keys.rs:47-52 | Witness: a bracket around the Kelvin sign is read as k and swallows the two characters behind it |
| `StyledRuns.CoalesceRow` | crates/codegen/ptyctl/src/styled.rs:99-149 | The coalescing loop builds the coalesced runs of what the row shows, cursor and zero-width characters included, spacers left out |
| `StyledRuns.CoalesceExpands` | crates/codegen/ptyctl/src/styled.rs:99-149 | Coalesced runs show exactly the glyphs of the row, none is empty and neighbours differ |
| `StyledRuns.CoalescedRunsAreUnique` | crates/codegen/ptyctl/src/styled.rs:99-149 | No other such runs show the same glyphs |
| `StyledRuns.ExtractStyledLine` | crates/codegen/ptyctl/src/styled.rs:91-163 | The line is the coalesced runs of the row, trimmed |
| `StyledRuns.TrimDropsMaximalTail` | crates/codegen/ptyctl/src/styled.rs:151-157 | Trimming drops exactly the longest tail of blank runs without colours or bold |
| `StyledRuns.TrimmedRunsShowPrefix` | crates/codegen/ptyctl/src/styled.rs:151-157 | What is left shows the same glyphs up to a blank, uncoloured, not bold end |
| `StyledRuns.LastKeptIsVisible` | crates/codegen/ptyctl/src/styled.rs:151-157 | The run a trimmed line ends in has a character that is not blank, a colour, or is bold |
| `StyledRuns.TrimIsDefaultTrimIff` | crates/codegen/ptyctl/src/styled.rs:151-157 | Only runs of default style are dropped if and only if no run of another style is blank, uncoloured and not bold with only such runs behind it |
| `StyledRuns.UnderlinedBlanksAreDropped` | crates/codegen/ptyctl/src/styled.rs:151-157 | Witness: two underlined blanks at the end of a line are dropped although their style is not the default |
| `StyledHtml.PageShowsText` | crates/codegen/ptyctl/src/styled.rs:180-231 | A reader of the rendered lines sees exactly the text of the runs, markup characters included |
| `StyledLook.PageShowsLook` | crates/codegen/ptyctl/src/styled.rs:180-231 | A reader of tags, classes and style declarations sees every character with the colours, bold, italic, underline, strikeout and dim of its run |
| `StyledLook.TagTellsStyle` | crates/codegen/ptyctl/src/styled.rs:184-222 | The tag of a run describes its style, up to inverse video |
| `StyledLook.LookIsStyleIff` | crates/codegen/ptyctl/src/styled.rs:184-222 | What the page shows of a style is the style if and only if it is not inverse |
| `StyledLook.CursorReplacesItsCell` | crates/codegen/ptyctl/src/styled.rs:116-123 | The cursor character stands in exactly the cell under the cursor, with that cell's look; a cursor elsewhere changes nothing |
| `StyledLook.RowShowsItsCells` | crates/codegen/ptyctl/src/styled.rs:105-149 | Without a cursor a row shows each cell that is no spacer, with its zero-width characters and its look |
| `StyledHtml.HtmlEscape` | crates/codegen/ptyctl/src/styled.rs:304-316 | The escaping loop computes the escaped text that `ReadEscaped` shows to be read back |
| `StyledHtml.ReadEscaped` | crates/codegen/ptyctl/src/styled.rs:304-316 | Escaped text is read back as the text, whatever follows it |
| `StyledHtml.RenderBody` | crates/codegen/ptyctl/src/styled.rs:182-228 | The rendering loops build the specified page body |

## Left out

- ProtocolTheorems.SessionsStayValid: assumes that the loaded session does not change inside `#submit` between its check and its last step, and that the Host names no prompt it was not yet given.
- ProtocolTheorems.DeletionIsJustified: excludes account clearing, which is assumed not to happen while a prompt is being prepared; one account is modelled at a time.
- AttachmentProofs.RunKeepsBound: speaks of files and images only, because links are not charged, and of store operations run one at a time, because `stageBytes` checks the capacity before it awaits.
- Transcript.RunKeepsSuffix: says only that a raised flag means dropped text; the converse has the exception of `FlagIff`.
- SessionRecords.Controller.WithSessionRecord: work between two awaits is a tree of in-place changes, replacements, assignments, publications, branches, exceptions and nested calls whose decisions may depend on anything the session holds; listeners called by `#publish` are taken not to change sessions.
- SessionRecords.Controller.Enter: `openPromise` admits one opening at a time, so nothing is loaded when the second half runs.
- AcpHostClient.StartWithBoundedRetry: takes the outcome of each attempt as given; a `stop` and a second `start` between two attempts of the first are not modelled there, while `Spawn` in `HostClient` may happen in any state.
- HostClient.PermissionsAreAnsweredOnce: listeners of `permission-request` may answer and may throw; they do not otherwise call back into the client.
- ConversationAttachmentStore.ConversationAttachmentStore.ReleaseReservation: persisting the manifest is taken to succeed; disk errors are not modelled, nor are they for staging.
- AttachmentManifest.ManifestRoundTrip: name, MIME, link, image and reservation validators, the digest and the file system are parameters; what they accept is not modelled.
- ManifestIntact.RestartAfterRun: takes from those validators that a sanitised name and a normalised type do not change when checked again and that the digest is that of the bytes; `consume` and the clearing of accounts are not among its operations.
- QueueSnapshot.ProjectQueueChanged: character patterns and text limits of an entry are one opaque flag; an entry keeps the fields used later.
- Keys.ParseSpecial: Unicode lower-casing is a parameter of which only its effect on ASCII is assumed; encoding key events to bytes belongs to `terminput` and is not part of this model.
- StyledHtml.PageShowsText: colours are texts that close no tag; the conversion of palette entries to hexadecimal is left out.
- GridWait.NoLostWakeup: one waiter; text and regular-expression conditions are one predicate on the screen.
- LinePipe.DriveToEnd: reads and task steps are taken to alternate after the given schedule; a dropped reader, which makes the reader task stop sending, is left out.
- Queue mutations (remove, edit, reorder, send now, clear): a failed one stays in place and keeps blocking, so there is no progress to state.
- The fallback of `#submit` for stores without reservations, and the prompt text and content blocks built from attachments.
- Plan refresh, artifacts, project state, tool activities and the permission dialog of a session, whose own steps would only repeat the shapes proved here.
- The access refresh and extension envelopes of the Host client, and the validation of its method arguments.
- Workspaces, prompt history, dictation, windows, IPC, the user interface, real processes, files and networks.
