# Verified models of the publication, campaign, broadcast and alert services

Four services of this system share one design: a serialized `transact` section over a JSON document, and external sends
whose answer is a success, a refusal or unknown. This project models each of them twice.

* As a **machine**: a state, an action datatype, `Enabled` and `Step`, and `Run` over any sequence of enabled actions.
  Every transaction body is one step, every platform call is one step with an arbitrary answer, a failed write and a
  restart are steps. Main results are statements about every run, by induction over its actions.
* As a **class** with the fields the service updates in place, its loops and its error replies. Each method is proved
  against the functions the machine steps with, so what is proved about runs holds of what the methods do.

Times are integers, prices and percentages are reals, ids are naturals handed out in order (or assumed fresh where the
program draws them at random). `dafny verify dfyconfig.toml` checks the whole project.

## The models

**Channel publication** (`PublicationModel`, `PublicationMachine`, `PublicationSafety`, `PublicationTheorems`,
`PublicationResend`, `ChannelEngine`). Jobs carry a unique idempotency key; a job is claimed, delivered to all
destinations at once by independent lanes with bounded retries, finished, recovered after a restart, and pruned by a
bounded history. A failed write is swallowed: memory keeps what the file lost. Main results: keys, delivery records and
executors stay unique in every interleaving; a stored SENT or UNKNOWN is never sent again; in every run whose restarts
lose no such answer, at most one call per job and destination is accepted or left without an answer, and no call follows
it; after a restart a destination can be called again *if and only if* `CanResend` holds of the reloaded document, of
whatever size, and a run with two accepted sends shows that this happens even when every write succeeds.

**Editorial content** (`ContentLifecycle`). Revisions, approvals, the engine's decision, and the platform calls that
come later. The store is the one above: writes fail silently and restarts reload the file. The code reads an item before
the transaction that writes it, so an edit *fits* when its patch changed what it read, or what it writes is what is
there. Everything sent was approved in every run whose edits fit, and an edit leads to an unapproved send if and only if
it does not fit and the item is approved. In runs whose restarts find the newest revisions on disk, no revision denotes
two texts if and only if every edit fits; a restart can spoil that if and only if it takes a stored item back to an
older revision. A cancel holds until a mark, an approval, a schedule or a restart revives the item.

**Movement messages** (`MovementPolicy`, `MovementService`). A round selects, publishes for as long as the platform
takes, and then records and re-arms without looking again; rounds may overlap. The promise is that over whole days any two
consecutive recorded events of one symbol are a cooldown apart, both at or above the threshold, and separated by a re-arm
below half of it. While restarts lose nothing that still counts, that holds *if and only if* every record finds its slot as
ready as the selection did, so in particular when no round records what another one has selected and will still record; a
run from the start shows two overlapping rounds that break it. A restart can break it by itself if and only if it forgets
an event or its disarming while that still counts.

**Broadcasts** (`BroadcastModel`, `BroadcastTheorems`, `BroadcastWorker`). Conservation of the five status counts, final
outcomes, at most one accepted message and at most `maxAttempts * (1 + maxRetries)` counted attempts per recipient over
the life of a job, exactly how many are left at each moment, and a measure that makes draining end. While no outcome is
lost in a write or a restart, an accepted or unanswered message is the last one a recipient is sent, manual retries
included. A lost acceptance of a recipient that is still PENDING breaks the first bound, and only that does; lost
counted answers break the second. Runs from the start show both, by a failed write and by a restart.

**Alerts** (`AlertModel`, `AlertMachine`, `AlertService`, `AlertEvaluator`, `AlertNotifications`). One shot per alert,
capacity and distinctness over every interleaving; indexes that equal scans; crossings over price paths; and how often
one trigger can be notified. A triggered alert triggers again after a restart if and only if the file still holds it
ACTIVE or DISABLED, and by a target that does not fire only if it was edited or enabled while the engine was at work.
Recovery can be started at run time by administration, and the start of a later attempt does not
clear an earlier error; both lead to a second notification, from the start, and for each the exact condition is proved.

**Campaigns** (`Attribution`, `CampaignEvents`, `CampaignTracking`, `CampaignTrackingService`, `CampaignIndexes`,
`CampaignStore`, `CampaignMetrics`, `CampaignConservation`, `Conversions`, `ConversionService`). Attribution by lexicographic
extremes, idempotent ingestion, a cached attribution record and when exactly it agrees with the recomputed choice, click
retention, drafts with incremental indexes that equal rebuilt ones, reload, fresh ids, append-only corrections, and
conservation laws of reports. Texts, and with them ids such as `evt_10`, are compared character by character (`Texts`).

## Where the code differs from what its comments say

* A comment says a failed or skipped job "delivered nothing"; a record left SENDING by a crash may have been delivered
  and is sent again when the job is executed again (`PublicationResend.AcceptedTwice`).
* `prunePreviousDays` is described as called once per market cycle; nothing calls it.
* First touch is described as the earliest observed touch. The stored record keeps the first *ingested* one, the
  attribution rules take the earliest by business time.
* A conversion credited to a campaign that a report filters out is listed as unattributed, under the bucket of credited
  conversions (`CampaignConservation.ConversionsConserved`).
* A cancelled item is said never to be published by its job; a failure mark that comes after the cancel overwrites the
  status and keeps the approval (`ContentLifecycle.FailureMarkRevives`).
* `reopen` is said to keep the revision; it starts a new one.
* The last touch is said to break ties by ingestion time and id; the stored one keeps the first of equal times
  (`CampaignTracking.LastTouchAgreesExactly`).
* Repeated samples above a threshold are said not to create a message each time; rounds that overlap, because one of them
  waits between two attempts, do (`MovementPolicy.OverlapCrowds`).
* The totals of a report do not carry the clients of its campaigns (`CampaignMetrics.Totals`).

## Model

| member | source | states |
|---|---|---|
| PublicationModel.PruneIsUnique | src/channel/publication.store.ts:461-480 | history retention is deterministic: limit and document admit one choice of jobs to drop |
| PublicationModel.OldestGoFirst | src/channel/publication.store.ts:466-471 | no finished job is kept while a younger finished one is dropped |
| PublicationModel.PruneKeepsDocument | src/channel/publication.store.ts:457-480 | pruning restores the bound, keeps all unfinished jobs, leaves no delivery without its job, and exceeds the limit only when nothing finished is left |
| PublicationSafety.StepKeeps | src/channel/channel-engine.service.ts:386-630 | every step of every interleaving keeps unique keys, one record per job and destination, one executor per PUBLISHING job, and lanes in agreement with the stored records |
| PublicationSafety.ClaimKeeps | src/channel/channel-engine.service.ts:493-527 | a claim never gives a job two executors and never leaves a PUBLISHING job without one |
| PublicationSafety.LaneStoreKeeps | src/channel/channel-engine.service.ts:1004-1058 | storing one lane's record disturbs no other lane or executor, and pruning at that moment cannot take the job away |
| PublicationTheorems.ReachableStates | src/channel/channel-engine.service.ts:386-527 | in every reachable state: keys unique, one record per job and destination, no job held twice, each executor's job PUBLISHING, nothing stuck, history bounded |
| PublicationTheorems.RecoverySendsNothing | src/channel/channel-engine.service.ts:1228-1315 | no step taken during recovery calls a platform |
| PublicationTheorems.CallsNeedOpenRecord | src/channel/channel-engine.service.ts:985-1002 | a platform call happens only while the stored record is neither SENT nor UNKNOWN |
| PublicationTheorems.SettledForever | src/channel/channel-engine.service.ts:985-1002 | once SENT or UNKNOWN is on disk no run whatsoever calls that destination for that job again |
| PublicationTheorems.SettledUntilRestart | src/channel/publication.store.ts:495-513 | within one process lifetime the outcome in memory suffices, even if every write fails |
| PublicationTheorems.FinishTellsTheTruth | src/channel/channel-engine.service.ts:561-587 | a job finishes PUBLISHED exactly when some configured destination has a stored confirmation, FAILED otherwise |
| PublicationTheorems.CallsBounded | src/channel/channel-engine.service.ts:1029-1070 | from the start, in every run: each execution calls each destination at most `maxAttempts` times |
| PublicationResend.AtMostOneAccepted | src/channel/channel-engine.service.ts:971-1078 | one accepted send per job and destination, from every invariant state, in every run whose restarts find accepted answers on disk |
| PublicationResend.AcceptedAtMostOnce | src/channel/channel-engine.service.ts:971-1078 | the same from the start, re-executions and failed writes included, and no call of any kind after the accepted one |
| PublicationResend.DecidedAtMostOnce | src/channel/channel-engine.service.ts:985-1050 | from the start, in every run whose restarts find those answers on disk: of the calls for one job and destination at most one is accepted or remains without an answer, and it is the last |
| PublicationResend.BarredForever | src/channel/channel-engine.service.ts:1228-1315 | a target that recovery or a settled record bars is never called again in any continuation |
| PublicationResend.ResendPath | src/channel/channel-engine.service.ts:455-464 | from every reloaded document that allows it, an explicit run recovers, claims and calls the destination once more |
| PublicationResend.ResolvedAboveLimitGoes | src/channel/publication.store.ts:461-480 | above the history limit the job that recovery resolves is the one that pruning drops |
| PublicationResend.DropsNext | src/channel/channel-engine.service.ts:1228-1315 | a job among the first in the order of recovery (interrupted before pending ones, each kind oldest first), as many as are above the limit, is dropped or stays among them with each job resolved |
| PublicationResend.ResendExactlyWhen | src/channel/channel-engine.service.ts:1228-1315 | after a restart some run calls the destination again if and only if the reloaded document, of any size, has an unpublished job without SENT or UNKNOWN for it, not about to be closed as PUBLISHED, and not among the first of the recovery that the history limit drops |
| PublicationResend.AcceptedTwice | src/channel/channel-engine.service.ts:455-464 | with every write durable, a crash between acceptance and the write of the answer leads to two accepted sends |
| ChannelEngine.PublicationStore.Removable | src/channel/publication.store.ts:466-468 | the finished jobs listed oldest first, each once |
| ChannelEngine.PublicationStore.DeleteJob | src/channel/publication.store.ts:471-479 | a job goes together with exactly its deliveries |
| ChannelEngine.PublicationStore.PruneHistory | src/channel/publication.store.ts:461-480 | the loop removes exactly the prescribed jobs |
| ChannelEngine.PublicationStore.CreateIfAbsent | src/channel/channel-engine.service.ts:400-442 | a second job with a key is never made; a new one survives the pruning of its own transaction |
| ChannelEngine.PublicationStore.Claim | src/channel/channel-engine.service.ts:493-527 | PENDING, FAILED and SKIPPED jobs are claimed, PUBLISHING and PUBLISHED ones refused, missing ones reported |
| ChannelEngine.PublicationStore.FinishJob | src/channel/channel-engine.service.ts:1088-1118 | the new document, or an error and no change for a job that has gone |
| ChannelEngine.PublicationStore.SaveDelivery | src/channel/channel-engine.service.ts:1004-1027 | storing a record prunes nothing and replaces the one record of its target |
| ChannelEngine.Engine.ReadRecord | src/channel/channel-engine.service.ts:971-1002 | the one stored record of the target, or a new one; open exactly when the target is not settled |
| ChannelEngine.Engine.Attempts | src/channel/channel-engine.service.ts:1029-1078 | stops after the first answer that is no retryable refusal, counts and stores every attempt, sleeps the doubling pauses |
| ChannelEngine.Engine.DeliverTo | src/channel/channel-engine.service.ts:971-1078 | a settled target costs no call; otherwise at most `maxAttempts` calls and exactly `delay * (2^(calls-1) - 1)` of sleep, the record is SENT, refused or UNKNOWN as the last answer was an acceptance, a refusal or none, and the target is settled exactly if it was no refusal |
| ChannelEngine.Engine.Recover | src/channel/channel-engine.service.ts:1228-1315 | in the order of the two lists: afterwards no job is unfinished; interrupted ones are PUBLISHED iff some delivery is SENT, else FAILED iff some is UNKNOWN, else SKIPPED; deliveries unchanged; exactly the first jobs above the history limit are gone |
| ChannelEngine.DropsExactly | src/channel/publication.store.ts:461-480 | during recovery the document is above the limit exactly when the next job is one of those that go |
| ChannelEngine.RecoveryStep | src/channel/channel-engine.service.ts:1231-1283 | resolving one job keeps the evidence by which the others are resolved |
| ContentLifecycle.SentWasApproved | src/channel/channel-engine.service.ts:828-908 | over all runs whose edits fit, with failed writes and restarts: a set approval is of exactly the present material, and everything sent was approved at its job's revision |
| ContentLifecycle.UnapprovedSentExactly | src/channel/content.service.ts:208-315 | after an edit something unapproved can be sent if and only if the edit does not fit and the item is approved |
| ContentLifecycle.RevisionsHaveOneMeaning | src/channel/content.service.ts:208-452 | in runs whose restarts find the newest revisions on disk: no revision denotes two materials if and only if every edit fits the item it writes over |
| ContentLifecycle.RestartSpoilsExactly | src/channel/publication.store.ts:495-513 | after a restart some orderly run gives one revision two materials if and only if a stored item went back to an older revision |
| ContentLifecycle.LostWritesSendTwoTexts | src/channel/publication.store.ts:495-513 | from an empty store: lost writes, a restart, and two texts are sent as one revision |
| ContentLifecycle.DecidedWhenApproved | src/channel/channel-engine.service.ts:828-870 | at the moment of the decision the item is neither draft nor cancelled, is approved, and has the job's revision |
| ContentLifecycle.DecisionOutlives | src/channel/channel-engine.service.ts:971-1078 | the decision is made once: it can be delivered after any run without a restart for as long as fewer executions of it have ended than had begun, cancels and edits included |
| ContentLifecycle.RevisionOrSame | src/channel/content.service.ts:208-619 | each operation either starts a revision without approval or leaves the material alone |
| ContentLifecycle.StaleEditExactly | src/channel/content.service.ts:208-315 | an edit against an older snapshot keeps revisions meaningful iff its patch changed the snapshot or rewrites what is there |
| ContentLifecycle.StaleEditSendsUnapproved | src/channel/content.service.ts:208-315 | two interleaved edits let an unapproved text go out under another text's approval |
| ContentLifecycle.ContentService.Create | src/channel/content.service.ts:83-202 | revision 1, draft, unapproved; or a refusal and no item |
| ContentLifecycle.ContentService.Edit | src/channel/content.service.ts:208-315 | field by field the given value or the old one, the button kept; a new revision without approval and schedule if and only if some field differs; published items and bad text are refused |
| ContentLifecycle.EditIsSent | src/channel/content.service.ts:208-315 | what an edit gives, compared with the present item or a stale copy, is in every message of the item that is decided before its next edit or a restart |
| ContentLifecycle.ContentService.SetCta | src/channel/content.service.ts:328-393 | a new button is a new revision, the same button changes nothing |
| ContentLifecycle.ContentService.ApproveContent | src/channel/content.service.ts:395-452 | approves the present revision, never a published or cancelled item |
| ContentLifecycle.ContentService.ScheduleContent | src/channel/content.service.ts:460-525 | a failed item that was never approved can be scheduled, but no execution renders it |
| ContentLifecycle.ContentService.CancelContent | src/channel/content.service.ts:531-574 | the cancelled item is refused as it then stands, and at its revision once it is reopened; published items are refused |
| ContentLifecycle.CancelledStaysOut | src/channel/channel-engine.service.ts:828-870 | a cancelled item is not rendered at its revision in any run in which nothing revives it |
| ContentLifecycle.WithdrawnStep | src/channel/content.service.ts:531-619 | exactly a mark, an approval or a schedule at that revision, or a restart that lost the cancel, ends the withdrawal |
| ContentLifecycle.RevivedExactly | src/channel/channel-engine.service.ts:1142-1166 | which single actions make a cancelled item renderable again, and on which days |
| ContentLifecycle.FailureMarkRevives | src/channel/channel-engine.service.ts:1142-1166 | from an empty store: a late failure mark overwrites CANCELLED, and the cancelled item is sent at its old revision |
| ContentLifecycle.ContentService.ReopenContent | src/channel/content.service.ts:577-619 | only a cancelled item, as a draft of a new revision |
| ContentLifecycle.ContentService.MarkFailed | src/channel/content.service.ts:622-647 | a published item stays published |
| MovementPolicy.EventsApartExactly | src/channel/channel-policy.service.ts:182-306 | from the start, over overlapping rounds, failed writes and restarts that lose nothing that still counts: all consecutive recorded events of a symbol and day are the cooldown apart, both at or above threshold, a re-arm below half of it between them, if and only if every record finds the slot still ready at the time its round selected |
| MovementPolicy.ConsecutiveEvents | src/channel/channel-engine.service.ts:136-176 | so they are in every such run in which no record of a slot lies between another round's selection of it and that round's record |
| MovementPolicy.OverlapCrowds | src/channel/channel-engine.service.ts:136-176 | from the start: two rounds select a symbol before either has recorded it, both record it, and no re-arm lies between, whichever round is the later one |
| MovementPolicy.RestartCrowdsExactly | src/channel/publication.store.ts:495-513 | after a restart some orderly run breaks that if and only if, at some time still to come that day, the file has a slot off cooldown which memory has on cooldown, or armed which memory has not |
| MovementPolicy.LostRecordCrowds | src/channel/channel-policy.service.ts:290-306 | from the start: a lost record, a restart, and a second event within the cooldown |
| MovementPolicy.StepKeeps | src/channel/channel-policy.service.ts:253-306 | a record that finds its slot ready, and any other step, keeps: what memory lets through is due, the last event a cooldown ago and a re-arm after it, and what a round has selected is ready or was recorded by another round |
| MovementPolicy.UnreadyCrowds | src/channel/channel-policy.service.ts:290-306 | and a record that does not find it ready always comes too soon after the last event or without a re-arm |
| MovementPolicy.ThresholdFor | src/channel/channel-policy.service.ts:160-172 | a threshold that exists is positive: a missing one never means unrestricted messages |
| MovementService.CandidatesSourced | src/channel/channel-policy.service.ts:182-247 | every candidate has a moving row and an event state that allows it, no symbol twice |
| MovementService.CandidatesComplete | src/channel/channel-policy.service.ts:182-247 | every such row is a candidate |
| MovementService.CandidatesExactly | src/channel/channel-policy.service.ts:182-247 | a candidate is exactly a fresh row that rises or falls by its threshold or more, off cooldown and armed |
| MovementService.ReArmsExactlyCalm | src/channel/channel-policy.service.ts:253-287 | of a snapshot exactly the symbols below half their threshold are armed, all other states stay |
| MovementService.ChannelPolicy.SelectMovementCandidates | src/channel/channel-policy.service.ts:182-247 | the loop of early exits selects exactly the specified candidates |
| MovementService.ChannelPolicy.UpdateMovementReArm | src/channel/channel-policy.service.ts:253-287 | the loop arms exactly what is specified, writes once and only for a change, and is a run of the machine |
| MovementService.ChannelPolicy.PrunePreviousDays | src/channel/channel-policy.service.ts:309-319 | exactly the slots of other days are armed |
| MovementService.ChannelPolicy.BeginRound | src/channel/channel-engine.service.ts:136-147 | up to the publication: nothing qualifying ends the round without a re-arm, otherwise what is selected can be selected by the machine |
| MovementService.ChannelPolicy.EndRound | src/channel/channel-engine.service.ts:166-175 | after the publication, from whatever the other rounds have made of the state: what was published is recorded with the time of the selection, the snapshot of the selection re-arms but never what it has just published, and this, failed writes included, is a run of the machine |
| BroadcastTheorems.StepKeeps | src/admin/admin-broadcast.service.ts:263-1055 | commands, ticks, failed writes and restarts keep totals, rosters, attempt limits and the running batch consistent |
| BroadcastTheorems.CountsAddUp | src/admin/admin-broadcast.service.ts:1059-1099 | the five status counts sum to the total, a closed job has nothing pending, nobody is enlisted twice |
| BroadcastTheorems.TerminalForever | src/admin/admin-broadcast.service.ts:879-904 | SENT, UNKNOWN and SKIPPED recipients never change again in any run |
| BroadcastTheorems.AttemptsBounded | src/admin/admin-broadcast.service.ts:553-644 | counted attempts stay within the budget of one run and one per manual retry, unless a counted answer of a still pending recipient is lost |
| BroadcastTheorems.AttemptsExactly | src/admin/admin-broadcast.service.ts:553-877 | between two ticks some run that loses no counted answer exceeds a number of counted attempts if and only if those made and what the record and the retries left still allow exceed it |
| BroadcastTheorems.AtMostOneAccepted | src/admin/admin-broadcast.service.ts:780-904 | at most one accepted message per recipient, cancels in mid-batch and retries included, unless an acceptance of a still pending recipient is lost |
| BroadcastTheorems.DecidedIsLast | src/admin/admin-broadcast.service.ts:780-904 | from the start: a recipient whose send was accepted or remained without an answer is never sent to again, manual retries included, unless such an answer of a still pending recipient is lost |
| BroadcastTheorems.BroadcastSafety | src/admin/admin-broadcast.service.ts:553-904 | both bounds from the start, recipient by recipient, with failed writes and restarts at every other moment |
| BroadcastTheorems.SendableExactly | src/admin/admin-broadcast.service.ts:553-904 | some run sends a recipient another accepted message if and only if it is stored PENDING, or FAILED with a manual retry left |
| BroadcastTheorems.LostAcceptanceExactly | src/admin/admin-broadcast.service.ts:879-904 | after a failed outcome write or a restart has dropped an acceptance, some run accepts once more if and only if the recipient is still PENDING |
| BroadcastTheorems.AcceptedTwice | src/admin/admin-broadcast.service.ts:879-904 | from the start, by a failed write and by a restart: two accepted messages |
| BroadcastTheorems.AttemptsUnbounded | src/admin/admin-broadcast.service.ts:879-904 | from the start: dropped refusals make any number of counted attempts possible |
| BroadcastTheorems.WorkStep | src/admin/admin-broadcast.service.ts:668-761 | each processed recipient that is not rate-limited strictly lowers the attempts that are left |
| BroadcastTheorems.DrainingEnds | src/admin/admin-broadcast.service.ts:668-761 | without new jobs or retries only as many outcomes can be stored as attempts were left |
| BroadcastWorker.AudienceExact | src/admin/admin-broadcast.service.ts:170-258 | an identity is enlisted exactly when its first row is eligible, and once |
| BroadcastWorker.PreviewExact | src/admin/admin-broadcast.service.ts:170-258 | the preview lists exactly those identities, strictly ascending |
| BroadcastWorker.ResolveAudience | src/admin/admin-broadcast.service.ts:170-258 | the loop with its seen-set and the sort by identity compute that preview |
| BroadcastWorker.OpenedIs | src/admin/admin-broadcast.service.ts:306-359 | saving recipient after recipient makes the document the machine's prepare step makes |
| BroadcastWorker.NumberedDistinct | src/admin/admin-broadcast.service.ts:335-340 | no two recipients of a new job share an identity |
| BroadcastWorker.RewriteAll | src/admin/admin-broadcast.service.ts:505-510 | the loop rewrites exactly the recipients of the job in one status and counts them |
| BroadcastWorker.BroadcastService.Prepare | src/admin/admin-broadcast.service.ts:263-393 | replies for an empty or too large audience and a failed write, otherwise the new document with ids from the sequence |
| BroadcastWorker.BroadcastService.Confirm | src/admin/admin-broadcast.service.ts:399-472 | idempotent on RUNNING, refused on closed jobs |
| BroadcastWorker.BroadcastService.Cancel | src/admin/admin-broadcast.service.ts:475-550 | skips exactly the pending recipients and reports how many |
| BroadcastWorker.BroadcastService.Retry | src/admin/admin-broadcast.service.ts:553-644 | requeues exactly the failed recipients, within the limit of manual retries |
| BroadcastWorker.BroadcastService.NextRunnableJob | src/admin/admin-broadcast.service.ts:763-777 | the oldest due RUNNING job, none only if there is none |
| BroadcastWorker.BroadcastService.ChooseBatch | src/admin/admin-broadcast.service.ts:695-706 | the first due pending recipients in the order of their id texts, fewer than a batch only when no more are due |
| BroadcastWorker.BroadcastService.StoreOutcome | src/admin/admin-broadcast.service.ts:879-904 | a recipient that is no longer pending keeps its outcome |
| BroadcastWorker.BroadcastService.SendTo | src/admin/admin-broadcast.service.ts:780-877 | which status, how many attempts and which due time each answer leaves: no answer is UNKNOWN, a refusal is PENDING or at last FAILED, a rate limit costs no attempt |
| BroadcastWorker.BroadcastService.BackOff | src/admin/admin-broadcast.service.ts:935-955 | only a RUNNING job is postponed |
| BroadcastWorker.BroadcastService.Finalize | src/admin/admin-broadcast.service.ts:961-1055 | closes exactly when nothing is pending, as FAILED iff none is SENT and the FAILED and UNKNOWN recipients are more than none |
| BroadcastWorker.BroadcastService.SendBatch | src/admin/admin-broadcast.service.ts:717-752 | the loop is a run of send and store steps and stops at the first rate limit |
| BroadcastWorker.BroadcastService.ProcessTick | src/admin/admin-broadcast.service.ts:668-761 | a tick is a run of the machine: it takes the oldest runnable job and its first due recipients, sends to all of them or up to the first rate limit, closes or postpones the job, and its counters are the numbers of answers of each kind |
| AlertMachine.RunKeeps | src/alerts/alert.service.ts:248-619 | over any interleaving, in memory and on disk: TRIGGERED has its record, a record only beside TRIGGERED or DELETED, capacity kept, no two held alerts alike |
| AlertMachine.CapacityKept | src/alerts/alert.service.ts:248-320 | no transaction takes a user over the limit, though limits are read before the critical section |
| AlertMachine.DistinctKept | src/alerts/alert.service.ts:486-526 | create and edit never give a user two held alerts with one target |
| AlertMachine.GuardUnreachable | src/alerts/alert.service.ts:580-589 | no reachable ACTIVE alert has a delivery record, so the second guard never decides |
| AlertMachine.SpentForever | src/alerts/alert.service.ts:323-376 | TRIGGERED and DELETED never return, DELETED stays, records are not lost, while restarts find this alert's status and record |
| AlertMachine.SpentStaysAsIs | src/alerts/alert.service.ts:426-527 | until a restart, what has triggered or been deleted keeps its target, baseline and owner |
| AlertMachine.FreshTriggersAtMostOnce | src/alerts/alert.service.ts:573-619 | an alert triggers at most once in every run in which no restart finds it ACTIVE or DISABLED in the file after it has triggered |
| AlertMachine.WritesMakeDurable | src/alerts/alert.store.ts:209-240 | while writes succeed every run meets both conditions |
| AlertMachine.RetriggersExactly | src/alerts/alert.store.ts:263-281 | after a restart some run triggers an alert that has triggered before if and only if the file holds it ACTIVE or DISABLED |
| AlertMachine.TriggeredTwice | src/alerts/alert.service.ts:573-619 | from an empty book: a lost write, a restart, and a second trigger |
| AlertService.AlertService.constructor | src/alerts/alert.store.ts:81-131 | loading row by row gives the file's records and exact indexes |
| AlertService.AlertService.SaveAlert | src/alerts/alert.store.ts:242-261 | a save keeps both indexes equal to full scans, without empty entries |
| AlertService.AlertService.ListActiveBySymbol | src/alerts/alert.store.ts:171-182 | the indexed query is the scan for ACTIVE alerts of the symbol |
| AlertService.AlertService.ListAlertsByUser | src/alerts/alert.store.ts:157-168 | the indexed query is the scan by owner |
| AlertService.AlertService.CountForCapacity | src/alerts/alert.store.ts:367-371 | the number of held alerts of a user |
| AlertService.AlertService.HasDuplicate | src/alerts/alert.service.ts:283-293 | found exactly when another held alert of the user has the target |
| AlertService.AlertService.Create | src/alerts/alert.service.ts:248-320 | limit first, then duplicate, else stored; refusals change nothing |
| AlertService.AlertService.Enable | src/alerts/alert.service.ts:323-376 | idempotent, refused for triggered alerts, percentage alerts restart from a usable price |
| AlertService.AlertService.Disable | src/alerts/alert.service.ts:379-419 | idempotent, refused for triggered alerts |
| AlertService.AlertService.Edit | src/alerts/alert.service.ts:426-527 | order of refusals, fresh baseline for percentages, status and kind untouched |
| AlertService.AlertService.Remove | src/alerts/alert.service.ts:530-560 | soft delete, foreign alerts look missing |
| AlertService.AlertService.ReserveTrigger | src/alerts/alert.service.ts:573-619 | succeeds exactly for an ACTIVE alert without record |
| AlertService.AlertService.EvaluateSymbol | src/alerts/alert-engine.service.ts:77-132 | exactly the ACTIVE alerts whose target lies between the previous and the present price, or whose percentage from the baseline is reached, become TRIGGERED with a record at that price; nothing else changes |
| AlertMachine.StaleOnlyWhenRewritten | src/alerts/alert-engine.service.ts:80-118 | a pass triggers an alert whose stored target does not fire only when it was edited or enabled between the listing and the reservation |
| AlertMachine.EditedTriggers | src/alerts/alert-engine.service.ts:80-118 | and an edit in between does lead to such a trigger |
| AlertEvaluator.FiresExactly | src/alerts/alert-evaluator.ts:23-190 | the evaluation fires exactly on a crossing of the target, or from the distance to the baseline on, for an ACTIVE alert of the symbol and a positive price |
| AlertEvaluator.WaitsForSecond | src/alerts/alert-evaluator.ts:74-133 | without a price before it no price triggers a price alert |
| AlertEvaluator.FiresOnceAtFirstCrossing | src/alerts/alert-evaluator.ts:74-133 | over any price path from the first price of a symbol on: one firing, at the first price at or past the target with any earlier price on the near side, none otherwise |
| AlertEvaluator.JumpFires | src/alerts/alert-evaluator.ts:74-133 | a path from the near side to or past the target always fires |
| AlertEvaluator.PercentThreshold | src/alerts/alert-evaluator.ts:144-190 | a percentage alert fires exactly from baseline plus, or down from baseline minus, its percentage |
| AlertEvaluator.ReasonIsKind | src/alerts/alert-evaluator.ts:23-63 | only ACTIVE alerts fire, with the reason of their kind |
| AlertNotifications.CallsBounded | src/alerts/alert-notification.service.ts:67-175 | at most `(r + 1) * (1 + maxRetries)` calls over `r` recoveries of the record, and no more recoveries of it than listings, whatever crashes, deletes and tasks interleave |
| AlertNotifications.RecordIsTruthful | src/alerts/alert.service.ts:630-712 | in every run, in memory and in the file: a delivered record was delivered, and one closed without an error has a deleted alert |
| AlertNotifications.EndTellsTheTruth | src/alerts/alert-notification.service.ts:67-175 | the first task by itself, with deletes and failed writes: every call is counted, and at its end the record is closed, DELIVERED exactly if the last call succeeded |
| AlertNotifications.StepIsTransaction | src/alerts/alert.service.ts:630-712 | what each step does to the record is one transaction of the alert document, or nothing |
| AlertNotifications.NotifiedAtMostOnce | src/alerts/alert-notification.service.ts:67-175 | from the start without a crash: at most one successful call, unless a recovery dispatches a second task for a waiting record of a TRIGGERED alert whose first task is not at its end |
| AlertNotifications.DoubledExactly | src/alerts/alert-notification.service.ts:186-218 | after a recovery some crash-free run has two successful calls if and only if it dispatched such a second task |
| AlertNotifications.RecoveryDuringDispatch | src/bot/admin/admin.service.ts:2147-2153 | from the start: recovery started by administration while a task runs leads to two successful calls |
| AlertNotifications.StaleCopyOverwritesDelivered | src/alerts/alert-notification.service.ts:186-218 | recovery acts on copies: it can close as FAILED what has been delivered since it listed the record |
| AlertNotifications.ResentExactlyWhen | src/alerts/alert-notification.service.ts:186-218 | after a restart a user can be notified iff the record waits for a TRIGGERED alert and has no begun attempt or a recorded error |
| AlertNotifications.FirstAttemptNeverResent | src/alerts/alert-notification.service.ts:186-218 | a crash in the first attempt never leads to another call |
| AlertNotifications.StaleErrorResends | src/alerts/alert.service.ts:630-650 | from the start, every write succeeding: a crash in the second attempt can lead to two notifications, because the start of an attempt keeps the earlier error |
| AlertNotifications.AlertNotificationService.Deliver | src/alerts/alert-notification.service.ts:67-175 | at most `1 + maxRetries` calls, ends terminal, DELIVERED iff the last call succeeded, early end only for a changed alert or missing adapter |
| AlertNotifications.AlertNotificationService.RecoverPending | src/alerts/alert-notification.service.ts:186-218 | resumes exactly the safe records, closes exactly the unknown ones |
| Attribution.DecidesByExtreme | src/campaigns/attribution.ts:81-114 | credit iff some touch lies in the window, and then to the lexicographic minimum or maximum of those |
| Attribution.BucketsPartition | src/campaigns/attribution.ts:41-114 | the four buckets, each by its own condition on the touches, partition all inputs |
| Attribution.OrderFree | src/campaigns/campaign.store.ts:858-874 | for distinct event ids the decision does not depend on the order of the list |
| Attribution.LaterTouchIgnored | src/campaigns/attribution.ts:24-33 | a touch after the conversion changes no credit and no expiry |
| Attribution.CreditIsLastTouch | src/campaigns/attribution.ts:117-168 | both models credit together, so the credited decision is always the last-touch one |
| Attribution.SortTouchesSorts | src/campaigns/campaign.store.ts:858-874 | sorting is a sorted permutation, by business time, ingestion time and the text of the event id |
| Attribution.NinthIsLast | src/campaigns/campaign.store.ts:858-874 | of two touches of one time the one ingested later need not be the last touch: `evt_10` sorts before `evt_9` |
| CampaignTracking.RunKeeps | src/campaigns/campaign-tracking.service.ts:107-540 | every run, failed writes and restarts with a lagging id sequence included, keeps event keys and ids unique and the attribution records equal to what the log implies |
| CampaignTracking.IngestedAtMostOnce | src/campaigns/campaign-tracking.service.ts:147-268 | at most one START per campaign and identity and one ALERT_CREATED per alert after any run |
| CampaignTracking.RecordAgreesWithLog | src/campaigns/campaign-tracking.service.ts:496-575 | a record iff touches, last time maximal, campaign equal to the recomputed last touch when that is unique and eligible |
| CampaignTracking.LastTouchAgreesExactly | src/campaigns/campaign-tracking.service.ts:556-575 | in every reachable log, while the latest touch time is eligible: the record and the recomputed last touch agree if and only if, of the touches of that time, the first ingested and the last in the sort order are of one campaign |
| CampaignTracking.TiedTouchesDisagree | src/campaigns/campaign-tracking.service.ts:556-575 | two starts of one user at one time reach a log in which they differ |
| CampaignTracking.FirstTouchNeverChanges | src/campaigns/campaign-tracking.service.ts:496-540 | first-touch fields are never rewritten, late earlier touches included |
| CampaignTracking.PrunedMembers | src/campaigns/campaign.service.ts:900-931 | only clicks go, and exactly the expired ones and those behind a full quota |
| CampaignTracking.NewestClicksStay | src/campaigns/campaign.service.ts:900-931 | what stays is unexpired and no unexpired click that goes is newer |
| CampaignTracking.QuotaOfClicksStays | src/campaigns/campaign.service.ts:900-931 | as many clicks of a campaign stay as are unexpired, up to the maximum |
| CampaignTracking.OldClicksGo | src/campaigns/campaign.service.ts:900-931 | by age alone a click goes exactly when it was recorded more than the retention time before |
| CampaignTrackingService.CampaignTrackingService.Start | src/campaigns/campaign-tracking.service.ts:107-210 | recorded exactly for an accepting campaign and a new key: one event, and a record whose first touch stays and whose last one only a later touch replaces; otherwise nothing but an id is used |
| CampaignTrackingService.CampaignTrackingService.AlertCreated | src/campaigns/campaign-tracking.service.ts:220-294 | recorded once, for the campaign the user was attributed to at that time, never without one |
| CampaignTrackingService.CreditsLatest | src/campaigns/campaign-tracking.service.ts:452-464 | at ingestion the last touch up to that time is credited, if it lies in the window |
| CampaignTrackingService.CampaignTrackingService.VerifyMembership | src/campaigns/campaign-tracking.service.ts:305-444 | a join only on an observed change from outside to inside, never on a missing answer |
| CampaignTrackingService.CampaignTrackingService.PersistClick | src/campaigns/campaign.service.ts:852-893 | the click and the pruning are one transaction |
| CampaignTrackingService.PruneClicks | src/campaigns/campaign.service.ts:900-931 | the loop with per-campaign counters keeps exactly what is specified |
| CampaignIndexes.IndexedTouchesAreScanned | src/campaigns/campaign.store.ts:207-233 | with unique ids the indexed lookup lists what a full scan lists, in order |
| CampaignIndexes.RemovedKey | src/campaigns/campaign.store.ts:693-707 | deleting one key equals rebuilding without the event |
| CampaignStore.CampaignDraft.NextId | src/campaigns/campaign.store.ts:781-786 | a handed-out id is never a stored one |
| CampaignStore.CampaignDraft.HasEventKey | src/campaigns/campaign.store.ts:656-658 | the incremental index answers as a scan of the draft's events |
| CampaignStore.CampaignDraft.SaveEvent | src/campaigns/campaign.store.ts:687-692 | the incremental index stays the rebuilt one |
| CampaignStore.CampaignDraft.RemoveEvent | src/campaigns/campaign.store.ts:693-707 | the incremental index stays the rebuilt one when an event is removed |
| CampaignStore.CampaignDraft.SaveImport | src/campaigns/campaign.store.ts:740-744 | the import index stays the rebuilt one when the indexed or a new import is saved |
| CampaignStore.CampaignDraft.SaveCampaign | src/campaigns/campaign.store.ts:629-633 | the token index stays the rebuilt one when a campaign with its own token is saved |
| CampaignStore.CampaignDraft.PickToken | src/campaigns/campaign.service.ts:222-235 | an unused token, or none only when all attempts hit used ones |
| CampaignStore.CampaignStore.Load | src/campaigns/campaign.store.ts:380-480 | loading gives the document's rows, rebuilt indexes, and sequences above every stored id but no higher than needed |
| CampaignStore.CampaignStore.RebuildIndexes | src/campaigns/campaign.store.ts:354-378 | the loops build each index from the rows |
| CampaignStore.CampaignStore.Finish | src/campaigns/campaign.store.ts:274-299 | a failed write leaves rows, indexes and file unchanged; a written draft becomes the live state with the indexes it kept incrementally |
| CampaignStore.CampaignStore.Restart | src/campaigns/campaign.store.ts:129-166 | reloading the last written document gives the same rows and indexes; sequences can only lag |
| CampaignStore.CampaignStore.ListTouches | src/campaigns/campaign.store.ts:207-233 | the loop over the identity index returns the scan |
| CampaignStore.CampaignStore.Ingest | src/campaigns/campaign.store.ts:274-299 | a whole ingestion: recorded once under a fresh id, or nothing changes but sequences |
| CampaignStore.CampaignStore.CreateCampaign | src/campaigns/campaign.service.ts:201-275 | a campaign with a token nobody has, or nothing stored |
| Conversions.ChainsDisjoint | src/campaigns/campaign-conversion.service.ts:287-336 | two registrations never end in one row |
| Conversions.OneActivePerChain | src/campaigns/campaign-conversion.service.ts:287-336 | a chain of corrections holds one ACTIVE row, its end |
| Conversions.InForce | src/campaigns/campaign-conversion.service.ts:287-336 | links are finite and acyclic and end in an ACTIVE row of the same kind and identity |
| Conversions.ActiveRowsAreRegistrations | src/campaigns/campaign-conversion.service.ts:165-336 | as many ACTIVE rows as written registrations, after any corrections and failed writes |
| Conversions.DoubledExactlyWhenStale | src/campaigns/campaign-conversion.service.ts:138-146 | a registration makes a second ACTIVE row exactly when one was written since its check |
| Conversions.DoubledExactly | src/campaigns/campaign-conversion.service.ts:138-146 | over all runs: two ACTIVE rows of one kind and identity stand if and only if a written registration found one |
| Conversions.DoubleRegistration | src/campaigns/campaign-conversion.service.ts:138-146 | from an empty ledger: two registrations checked before either is written |
| Conversions.OneCountedImport | src/campaigns/campaign-conversion.service.ts:434-469 | per key one counted import, and the index rebuilt in insertion order points at it |
| Conversions.ImportKeeps | src/campaigns/campaign-conversion.service.ts:434-469 | replacing an import keeps one counted row per key, and the index pointing at it |
| Conversions.ReplacedExactly | src/campaigns/campaign-conversion.service.ts:414-469 | over all runs: as many numbers of a key are superseded as were to be replaced, if and only if no import that was to replace nothing found one, that is, passed its check too early |
| Conversions.SilentReplacement | src/campaigns/campaign-conversion.service.ts:414-469 | from an empty ledger: two imports, both checked before either is written |
| ConversionService.ConversionService.FindActive | src/campaigns/campaign-conversion.service.ts:550-566 | found exactly when there is an ACTIVE row of kind and identity |
| ConversionService.ConversionService.RegisterConversion | src/campaigns/campaign-conversion.service.ts:114-216 | credited by the last-touch decision at the time of the conversion; conflicts and bad input change nothing |
| ConversionService.ConversionService.CorrectConversion | src/campaigns/campaign-conversion.service.ts:224-346 | only an ACTIVE row, re-attributed at its possibly corrected time |
| ConversionService.ConversionService.Import | src/campaigns/campaign-conversion.service.ts:357-483 | a second number for a key needs an explicit replacement; the new row is last, exactly the counted row of its key is superseded, and the index points at the new one |
| ConversionService.ConversionService.FindCounted | src/campaigns/campaign-conversion.service.ts:414-419 | the scan for a counted row agrees with the index |
| CampaignMetrics.Scan | src/campaigns/campaign-metrics.service.ts:447-691 | the loops give every campaign, bucket and day exactly what all rows give it |
| CampaignMetrics.Totals | src/campaigns/campaign-metrics.service.ts:246-286 | every number of the totals is the sum, every set the union over the selected campaigns; impressions exist iff some campaign has them; clients are not carried over |
| CampaignMetrics.UnionAtMostSum | src/campaigns/campaign-metrics.service.ts:877-907 | distinct identities of the totals are at most the sum over the campaigns |
| CampaignConservation.CampaignNumbers | src/campaigns/campaign-metrics.service.ts:510-632 | raw clicks are native plus imported; starts, joins, alerts, leads and customers are counts of rows |
| CampaignConservation.CampaignSets | src/campaigns/campaign-metrics.service.ts:510-588 | who started, joined, set alerts and converted, how many imports of which providers were counted, straddle the window or are of another metric, and impressions exactly if some import has them |
| CampaignConservation.ExcludedAddsUp | src/campaigns/campaign-metrics.service.ts:552-588 | the excluded imports of a report are those its campaigns could not count whole |
| CampaignConservation.ConversionsConserved | src/campaigns/campaign-metrics.service.ts:601-638 | every ACTIVE conversion of the window is counted once, by a selected campaign or in one bucket |
| CampaignConservation.DaysAddUp | src/campaigns/campaign-metrics.service.ts:492-632 | starts, leads, customers and native clicks add up to the same by day and by campaign |
| CampaignConservation.TotalStartsAreNewStarts | src/campaigns/campaign-tracking.service.ts:147-184 | in every reachable log a campaign's total starts are its new starts, in every window |
| CampaignConservation.SplitEvents | src/campaigns/campaign-metrics.service.ts:484-492 | native counts are additive over a split window |
| CampaignConservation.SplitConversions | src/campaigns/campaign-metrics.service.ts:601-638 | credits and buckets are additive over a split window |
| CampaignConservation.SplitImports | src/campaigns/campaign-metrics.service.ts:552-588 | imported clicks of the halves are at most those of the whole, since nothing is prorated |
| CampaignConservation.SplitStarters | src/campaigns/campaign-metrics.service.ts:522-530 | distinct starters of the whole are the union of the halves |

## Left out

- BroadcastTheorems.AttemptsBounded: a lost counted answer is shown to break the bound, not that each one does; a recipient with attempts to spare, as AttemptsExactly counts them, stays within it.
- MovementPolicy.EventsApartExactly: it speaks of recorded events; a message that a restart cuts off from its record leaves no event, and the job key that two rounds of one minute with the same symbols share is not in this machine.
- MovementService.ChannelPolicy.BeginRound: a snapshot lists each symbol once, as the configured symbols are listed.
- MovementService.ChannelPolicy.PrunePreviousDays: no step of the machine, since nothing calls it.
- BroadcastWorker.BroadcastService.Retry: the checks before a transaction and the transaction are one step; text validation and the enabled switch are left out.
- BroadcastWorker.BroadcastService.ProcessTick: the method runs alone; interleaving with commands, failed writes and restarts is in the machine it refines.
- AlertService.AlertService.EvaluateSymbol: runs alone; deletes, disables, edits and enables in the middle of a pass are interleaved in AlertMachine.
- ConversionService.ConversionService.Import: runs alone; an import written between the check and the transaction of another one is interleaved in Conversions.
- AlertNotifications.AlertNotificationService.Deliver: what the loop sees before each attempt is given; interleaved tasks, stale copies, crashes and failed writes are in the machine of the same module.
- CampaignStore.CampaignDraft.SaveImport: only the row the index points at, or a new one, is saved, as the one caller does; memberships, rejection counters and metadata of campaigns are not in the modelled document.
- CampaignTrackingService.CampaignTrackingService.Start: payload resolution and the campaign's dates are an input; click classification and replay damping are left out.
- CampaignMetrics.Scan: the split of conversions by source and model, currencies, ratios and the rendering of metrics are left out.
- Files, HTTP, cron and module wiring: a write succeeds or fails, a platform call is an oracle.
- Shape checks on loading a document: a loaded document is one that was written.
- Message rendering, captions, media rules and Persian formatting: a text is a value, a rendered message a function of content.
- Configuration parsing and ranges of limits: configuration values are parameters.
- Calendar and time zones: a non-decreasing function from times to days.
- Jobs created while recovery is running: start-up finishes recovery before publications begin.
- Market data gates, daily range events, the publishing switch and its settings document: short checks beside the modelled paths.
- Campaign status transitions, deep links, rejection counters, audit rows other than their ids: simple counters and lookups.
- User store, referrals, sales, monitoring, admin access, incidents and activity: outside the four services.
