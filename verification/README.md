# Rescue request service: a verified model

The service keeps rescue requests in a key-value store that many short-lived
functions change at the same time through conditional writes. These files model
the parts where concurrency, retries and encodings interact, and prove what every
run keeps.

| module | what it is about |
|---|---|
| `RequestLifecycle`, `RequestStore`, `Writers` | statuses, the CURRENT and EVENT# items with the two conditional writes, and the use cases that write them |
| `Outcomes` | when each use case acts, what it leaves in CURRENT and the log, and what it answers |
| `EventLog` | every interleaving of those writers, with arbitrarily stale reads |
| `Resolution` | that an open request can always be brought to its end, and in how many steps |
| `AppendFallback`, `FallbackRaces` | the append without a transaction: alone, among transactional writers, and among others of its kind |
| `Idempotency` | the lock protocol: reserve, reclaim, retry, finalize, replay, expiry, crashes |
| `EffectOnce` | the two queue-driven ingests on top of both: how often one message takes effect |
| `RequestCreation` | the multi-item create with retries, fallbacks and rollback |
| `StreamPoller` | the lease, the queue drain and the event keys of the stream |
| `CitizenStatus` | which events the status page shows when CURRENT and the log are read apart |
| `IncidentCatalog` | sequence numbers, names and sort keys of synced incidents |
| `Maintenance` | removal of requests whose incident is gone |
| `Geohash`, `DuplicateSignature`, `IsoTime` | the codes and strings the above rely on |
| `ByteOrder`, `Marks`, `Whitespace`, `Wrappers` | string order, joined texts, trimming, options |

How the model works. A use case reads CURRENT, decides, and issues one
conditional write. Reads are not consistent, so a read may return any value
CURRENT ever had; with that, one atomic step "decide on some past value, then
write" covers every interleaving, and the class methods (`Repository`, the use
cases in `Writers`) are proved to do exactly that step. The lock protocol and the
stream poller are machines over a table, a clock and the parties at work; clock
readings may be arbitrarily late when a write arrives. The methods `CheckAndReserve` and
`Handler` run with any steps of others in between. Fresh ids, the clock and the
answers of the backend are parameters.

Where the code does not meet the natural stronger claim, the exact condition is
proved:

- an evaluation's correlation check may be out of date when its write commits
  (`EventLog.EvaluationsAreLinearizableIff`, `EventLog.StaleCorrelationCommits`);
- the non-transactional append deletes the event key even when its own put failed:
  a stale caller erases a committed event (`FallbackRaces.KeepsCommittedLogIff`), a
  caller that is not stale erases the event of another fallback under way, which
  then moves CURRENT to an event that is not there (`FallbackRaces.TwoFallbacksRace`);
  the log survives exactly without such deletes (`FallbackRaces.LogSurvivesIff`);
- a fallback whose update and rollback delete both fail leaves an event that blocks
  the request (`AppendFallback.LeftoverIff`, `FallbackRaces.MoveKeepsLeftoverIff`);
- an evaluation whose delivery dies between commit and finalize is applied again
  when the request is still open and waits for it
  (`EffectOnce.LostFinalizeDuplicates`, `EffectOnce.OneMessageTwoEvents`); this cannot
  happen to mission messages (`EffectOnce.OneEventPerMission`);
- catalog numbers repeat from the 1000001st incident on, but for the last ten
  catalog sizes of each length (`IncidentCatalog.NextIsFreshIff`);
- the status page misses events when its query lags behind CURRENT, or is more than
  15 or 19 events ahead of it
  (`CitizenStatus.RecentAreNewestIff`, `CitizenStatus.LatestIsCurrentIff`);
- a failed create leaves items behind exactly when its fallback had stored an item
  whose rollback delete fails (`RequestCreation.Table.CreateRescueRequest`,
  `RequestCreation.TraceExactlyWhenRollbackFailed`);
- a redelivered stream message is stored again unless it has its own id and a
  timestamp other than zero (`StreamPoller.RedeliveryKeepsKeyIff`);
- a stored incident without a number gets the number of the next new one
  (`IncidentCatalog.NumberlessSharesNumber`);
- the transactional puts overwrite, and two creates with one phone hash, and only
  those, meet (`RequestCreation.CreatesMeetIff`).

`docs/ServiceData.md:350` calls the stream key's timestamp 13 digits; the code pads
to 13 characters and lets longer or negative numbers through, and the model
follows the code.

## Model

| member | source | states |
|---|---|---|
| RequestStore.Repository.GetCurrentState | src/adapters/persistence/rescue_request_repository.py:401-405 | an eventually consistent read returns some value CURRENT has had |
| RequestStore.Repository.AppendEventAndUpdateCurrent | src/adapters/persistence/rescue_request_repository.py:502-540 | the two-item transaction takes effect as a whole exactly when the event key is free and the version is the expected one |
| RequestStore.Repository.UpdateCurrentFields | src/adapters/persistence/rescue_request_repository.py:630-656 | an existing CURRENT is updated exactly when the version condition, if any, holds; no event is touched |
| Writers.FillTransitionUpdates | src/application/services/state_transition_service.py:66-82 | the updates filled in step by step are those the transition stands for |
| Writers.ExecuteTransition | src/application/services/state_transition_service.py:27-98 | a staff transition is one step of the interleaved machine, and its answer tells what happened to the store |
| Writers.IngestEvaluation | src/application/usecases/ingest_rescue_request_evaluation.py:51-134 | the same for an evaluation message |
| Writers.IngestMission | src/application/usecases/ingest_mission_status_changed.py:80-205 | the same for a mission message, which ignores the transition table |
| Writers.UpdatePriority | src/application/usecases/update_rescue_request_priority.py:54-115 | the same for a priority change, which bumps no version |
| RequestLifecycle.TransitionAllowedIff | src/domain/rules/transition_rules.py:4-26 | a status may be asked for exactly if the request is open and it is the next rank, assignment right after submission, or cancellation |
| RequestLifecycle.TerminalIsLast | src/domain/rules/transition_rules.py:4-11 | nothing follows exactly the statuses of the last rank |
| Outcomes.TransitionDecidedIff | src/application/services/state_transition_service.py:27-46 | staff get a transition exactly if the version asked for is the one read, it is possible, and it brings unit, reason and a score in range as needed; otherwise which error |
| Outcomes.EvaluationDecidedIff | src/application/usecases/ingest_rescue_request_evaluation.py:55-134 | an evaluation appends exactly if it was made of the data the request waits for and the request is open; it is skipped or refused exactly otherwise |
| Outcomes.MissionDecidedIff | src/application/usecases/ingest_mission_status_changed.py:80-205 | a mission of the request's incident appends exactly if it is under way and the request not yet in progress, or has resolved it; otherwise it leaves its data only, is skipped or refused |
| Outcomes.PriorityDecidedIff | src/application/usecases/update_rescue_request_priority.py:54-115 | a priority change is written exactly on an open request of the version asked for |
| Outcomes.TransitionLeaves | src/application/services/state_transition_service.py:48-89 | after a committed transition CURRENT has the status asked for and the new unit, if any, and the event under its version says who, why, which unit and score |
| Outcomes.EvaluationLeaves | src/application/usecases/ingest_rescue_request_evaluation.py:85-134 | after a committed evaluation a request that was submitted is triaged and any other status is as read, and event and CURRENT hold score and correlation |
| Outcomes.MissionLeaves | src/application/usecases/ingest_mission_status_changed.py:107-179 | after a committed mission event the request is in progress or resolved as the mission is, its team assigned, and an earlier time of assignment kept |
| Outcomes.FieldsLeave | src/adapters/persistence/rescue_request_repository.py:630-656 | writes without an event change no attribute outside the details but the source id |
| Outcomes.WriteLeavesDetail | src/adapters/persistence/rescue_request_repository.py:284-299 | after any committed write of any use case each detail attribute has the value the call gives it, and its old one if the call gives none |
| Outcomes.AnswerTells | src/application/usecases/update_rescue_request_priority.py:54-115 | an answer with an event means that event is new in the log, one with fields that no event is, every other that nothing changed |
| Outcomes.ErrorTells | src/application/usecases/update_rescue_request_priority.py:93-105 | a conflict means exactly a cancelled write under a version, the other errors what the decision or the store refused |
| EventLog.AppendPlan | src/application/services/state_transition_service.py:40-89 | whichever writer appends, its event is the next version, chained to the status read, never from a terminal status, never lowering the rank, with unit and reason where required, and the write is conditioned on the version read |
| EventLog.FieldsPlan | src/application/usecases/update_rescue_request_priority.py:71-97 | no other write touches status, version, last event, assignment or correlation id |
| EventLog.VersionDeterminesStatus | src/adapters/persistence/rescue_request_repository.py:520-532 | a value of CURRENT read at any time agrees with the present one on everything versioned if the versions are equal, so the validated status is still the status at commit |
| EventLog.StepKeepsInv | src/adapters/persistence/rescue_request_repository.py:508-540 | each step of each writer, decided on any past CURRENT, keeps the log invariant |
| EventLog.RunKeepsInv | src/application/usecases/create_rescue_request.py:146-188 | in every reachable state events occupy exactly versions 1..stateVersion and chain, CURRENT mirrors the last one, requests under way have unit and time of assignment, cancellations have a reason, and a recorded correlation id was an earlier source id |
| EventLog.StemsFromOneCreate | src/application/usecases/create_rescue_request.py:146-188 | in every run each request stems from exactly one creation, and whatever was written since, its incident and first event are as made then |
| EventLog.StepGrows | src/domain/rules/transition_rules.py:4-26 | one step never changes an existing event, lowers the rank, or touches what is versioned in a terminal request |
| EventLog.RunGrows | src/domain/rules/transition_rules.py:4-26 | along every run earlier logs are unchanged parts of later ones, the rank never falls, and a terminal request keeps status, version, last event, assignment and log forever |
| EventLog.ChangesWithinRank | src/domain/rules/transition_rules.py:4-11 | the number of status changes in a log is bounded by the rank reached |
| EventLog.AtMostFourChanges | src/domain/rules/transition_rules.py:4-26 | however many writers race, at most four events change a request's status |
| Resolution.AskedForIff | src/application/services/state_transition_service.py:27-98 | in every state that keeps the invariant staff who read CURRENT and bring what is needed get the status they ask for exactly if it may follow, and otherwise nothing changes |
| Resolution.CanBeResolved | src/domain/rules/transition_rules.py:4-26 | from every such state staff can resolve a request that is not cancelled, in three transitions after submission and one for each rank left otherwise |
| Resolution.NotInFewer | src/domain/rules/transition_rules.py:4-26 | and no shorter sequence of transitions, whatever they ask for, does |
| EventLog.OneEventPerMissionStatus | src/application/usecases/ingest_mission_status_changed.py:107-179 | however many mission messages arrive, and however often, a request has at most one event of each mission status |
| EventLog.MissionEventsFollowMissions | src/application/usecases/ingest_mission_status_changed.py:26-29 | in every run a mission event sets IN_PROGRESS exactly for EN_ROUTE and RESOLVED exactly for RESOLVED, and there is none for other mission statuses |
| EventLog.CommitsExactlyWhenCurrent | src/adapters/persistence/rescue_request_repository.py:527-532 | a decided append commits if and only if the version it read is still current |
| EventLog.TransitionsAreLinearizable | src/application/services/state_transition_service.py:27-89 | a transition that commits on a stale read is the one that would have been decided on the CURRENT it met |
| EventLog.MissionsAreLinearizable | src/application/usecases/ingest_mission_status_changed.py:97-179 | the same for every mission write, appended or metadata only, but for the priority score copied into an event |
| EventLog.EvaluationsAreLinearizableIff | src/application/usecases/ingest_rescue_request_evaluation.py:55-134 | for evaluations it holds if and only if the correlation still holds at commit |
| EventLog.StaleCorrelationCommits | src/application/usecases/create_citizen_update.py:134-142 | in any open request an update between read and commit makes CURRENT record an evaluation of superseded data |
| AppendFallback.FallbackAppend | src/adapters/persistence/rescue_request_repository.py:200-233 | put, update and delete have the stated combined effect and answer, whichever of them the backend refuses |
| AppendFallback.AnswersTell | src/adapters/persistence/rescue_request_repository.py:562-566 | a conflict is answered exactly for a taken key or a version that is not the expected one, and any refusal of the backend's own as its error |
| AppendFallback.AgreesWithTransactionIffKeyFree | src/adapters/persistence/rescue_request_repository.py:200-233 | undisturbed, the fallback ends in the transaction's state with the transaction's answer if and only if the event key was free |
| AppendFallback.AllOrNothing | src/adapters/persistence/rescue_request_repository.py:209-233 | with a free key, the fallback appends or leaves the table as it was if and only if its put failed, its delete works, or its update goes through |
| FallbackRaces.KeepsCommittedLogIff | src/adapters/persistence/rescue_request_repository.py:209-226 | on any store whose committed log is well-formed, also one where another fallback has placed its event: an undisturbed fallback succeeds if and only if its key is free, keeps the committed log if and only if the version it read is current, and takes away what lies under its key whenever it fails |
| FallbackRaces.UpdateAppends | src/adapters/persistence/rescue_request_repository.py:215-224 | while no harmful delete has happened, a fallback that has placed its event always meets its condition, and its update is one append of a transactional writer to the committed log |
| FallbackRaces.DeleteKeepsSoundIff | src/adapters/persistence/rescue_request_repository.py:224-226 | a failed fallback's delete is harmful if and only if it ends soundness: it then breaks the log at once, or the update of a fallback still waiting breaks it |
| FallbackRaces.LogSurvivesIff | src/adapters/persistence/rescue_request_repository.py:200-233 | in every run of fallbacks and transactional writers the logs stay well-formed and waiting events in place if and only if no failed fallback deletes an event that is committed or waited for |
| AppendFallback.RunAround | src/adapters/persistence/rescue_request_repository.py:210-224 | transactional writers acting while the event is placed do what they would do without it, or nothing |
| FallbackRaces.HarmlessRunsSerialize | src/adapters/persistence/rescue_request_repository.py:200-233 | with any number of fallbacks, each in single steps, and transactional writers interleaved and no harmful delete, what is committed is what some run of transactional writers alone commits |
| FallbackRaces.TwoFallbacksRace | src/adapters/persistence/rescue_request_repository.py:209-226 | two fallbacks that both read the current version: the second deletes the first one's event, and the log survives if and only if that delete is refused |
| AppendFallback.LeftoverIff | src/adapters/persistence/rescue_request_repository.py:209-233 | a decided append leaves its event behind without having appended it if and only if the update and then the delete fail; and the same append can be made later if and only if it has not |
| AppendFallback.LeftoverEventBlocks | src/adapters/persistence/rescue_request_repository.py:224-233 | with an event left behind no later run of transactional writers ever moves the request's version or status |
| FallbackRaces.MoveKeepsLeftoverIff | src/adapters/persistence/rescue_request_repository.py:224-233 | an event left ahead of CURRENT stays, and the version with it, under every step but a failed fallback's delete of just that event |
| FallbackRaces.LeftoverBlocksUntilDeleted | src/adapters/persistence/rescue_request_repository.py:224-233 | so the request is blocked for fallbacks as well until such a delete |
| Idempotency.NormalizedScopeSameKey | src/application/services/idempotency_service.py:25-35 | retries, which pass the normalized scope on, use the same key |
| Idempotency.NormalizedScope | src/application/services/idempotency_service.py:25-29 | a scope without space at its ends counts as it is, a blank or missing one as GLOBAL |
| Idempotency.KeysAgreeIff | src/application/services/idempotency_service.py:32-35 | two requests meet in one record if and only if operation, normalized scope and key agree, for scopes of the form used |
| Idempotency.RouteKeysAgreeIff | src/application/usecases/update_rescue_request_priority.py:45-49 | one route called for two ids, or with two keys, has two records, for ids without a colon |
| Idempotency.ColonInScopeCollides | src/adapters/utils/hashing.py:16-17 | with a second colon in the scope that fails for every key |
| Idempotency.RecordIsOwn | src/adapters/persistence/idempotency_repository.py:27-202 | in every run the record a request finds under its key was made for its own operation and scope |
| Idempotency.LockTimes | src/application/services/idempotency_service.py:92-95 | a lock lasts five minutes from its clock reading, a record a day |
| Idempotency.Table.ReserveKey | src/adapters/persistence/idempotency_repository.py:27-36 | takes the lock exactly when there is no record |
| Idempotency.Table.ReclaimKey | src/adapters/persistence/idempotency_repository.py:39-93 | takes the lock exactly when the record is in progress for the same request with the expected, expired lock; fails without effect |
| Idempotency.Table.RetryFailedKey | src/adapters/persistence/idempotency_repository.py:96-145 | takes the lock exactly when the record has failed for the same request; fails without effect |
| Idempotency.Table.FinalizeKey | src/adapters/persistence/idempotency_repository.py:155-202 | stores the outcome exactly while the record is in progress and names this owner |
| Idempotency.RunKeepsProto | src/adapters/persistence/idempotency_repository.py:27-202 | over every run an owner with an unexpired lock is the one in an in-progress record, and locks end before the record's time to live |
| Idempotency.AtMostOneHolder | src/adapters/persistence/idempotency_repository.py:69-90 | in every run a key has at most one owner with an unexpired lock, and that owner can finalize |
| Idempotency.OneLife | src/adapters/persistence/idempotency_repository.py:71-87 | until the record is deleted its fingerprint, operation and scope never change, and once completed it never changes at all |
| Idempotency.CompletionComesFromOwner | src/application/services/idempotency_service.py:105-112 | the response that is replayed was stored by a finalize of the run, made by the owner the record named at that moment |
| Idempotency.FinalizeSettles | src/adapters/persistence/idempotency_repository.py:155-202 | in every run a holder in time settles its record: after a success no reserve, reclaim or retry has effect, after a failure a retry takes the lock exactly if it is of the same request |
| Idempotency.RelockLeaves | src/adapters/persistence/idempotency_repository.py:79-87 | taking over a lock clears the error and changes nothing but the lock |
| Idempotency.SupersededForGood | src/adapters/persistence/idempotency_repository.py:193-202 | an owner that lost its record never finalizes it again |
| Idempotency.LateReclaimersLose | src/adapters/persistence/idempotency_repository.py:76-77 | a reclaim that expects a lock somebody else has taken over stays without effect after any finalizes, retries, deletions and new reservations whose clock readings are less than a lock's length old |
| Idempotency.OldClockRestoresLock | src/application/services/idempotency_service.py:92-95 | a clock reading a whole lock's length old can bring the old end back, so that bound is tight |
| Idempotency.ExactlyOneReclaimerWins | src/adapters/persistence/idempotency_repository.py:71-78 | of any number of callers that saw the same expired lock, with anybody acting before each, at most one gets it, and the first does if it finds the record as read |
| Idempotency.Attempt | src/application/services/idempotency_service.py:89-209 | one attempt writes at most once, for the claim of the call, and returns what the record read and the write's condition demand |
| Idempotency.CheckAndReserve | src/application/services/idempotency_service.py:79-209 | with anybody acting in between, one call makes at most four attempts; its history is the others' steps with at most one write of its own after each, all for the same key and claim; a grant names the lock now in the record, a replay returns the completed record's response, the first attempt is settled as the record read demands, it gives up only after four lost attempts, and what lies under its key is a record of its own operation and scope |
| Idempotency.RetryReservation | src/application/services/idempotency_service.py:54-76 | retries are bounded, and every write of theirs is for the key and claim of the first attempt |
| EffectOnce.EvaluationKeysAgreeIff | src/application/usecases/ingest_rescue_request_evaluation.py:36-42 | two evaluations of a request share a key if and only if they share the id |
| EffectOnce.MissionKeysAgreeIff | src/application/usecases/ingest_mission_status_changed.py:41-49 | two mission messages about a request share a key if and only if they agree on mission, status and time, given a validated time, even one whose date and time are separated by # |
| EffectOnce.IngestKeysAgreeIff | src/application/usecases/ingest_mission_status_changed.py:41-49 | two validated messages, of either kind and about any requests, share a key if and only if they are about one request and the same evaluation or the same progress of a mission |
| EffectOnce.AppendCounts | src/application/usecases/ingest_rescue_request_evaluation.py:106-134 | a commit adds its own effect and no other, to its own request and no other |
| EffectOnce.EffectsAreConserved | src/application/usecases/ingest_rescue_request_evaluation.py:36-176 | in every run, with crashes, overruns and expiry, the events a key appended are those in flight plus those its record remembers plus those forgotten |
| EffectOnce.AtMostOneEffect | src/application/usecases/ingest_rescue_request_evaluation.py:36-176 | if no delivery at work has outlived its lock and nothing was forgotten, a key has at most one effect, and exactly one once the record says updated |
| EffectOnce.YoungIsTimely | template.yaml:28-28 | a delivery that started at most the functions' thirty seconds ago has not outlived its lock |
| EffectOnce.CleanRunForgetsNothing | src/application/usecases/ingest_rescue_request_evaluation.py:159-176 | deliveries that end in time and do not die between commit and finalize leave nothing forgotten |
| EffectOnce.AtMostOneEffectInCleanRuns | src/application/usecases/ingest_mission_status_changed.py:41-77 | so in every such run any number of deliveries of one message appends at most one event, and exactly one once recorded |
| EffectOnce.OneEventPerMission | src/application/usecases/ingest_mission_status_changed.py:107-179 | in every run, whatever crashes, overruns or expires, no two events of a request stem from one mission message |
| EffectOnce.OneEventPerEvaluation | src/application/usecases/ingest_rescue_request_evaluation.py:106-134 | no two events of a request stem from one evaluation whose deliveries at work hold their locks and left nothing forgotten |
| EffectOnce.OneEventPerMessageUnderIngestKey | src/application/usecases/ingest_mission_status_changed.py:41-49 | both for the keys the service builds, the premise for evaluations only |
| EffectOnce.RedeliveryIsAdmitted | src/application/services/idempotency_service.py:113-135 | once the dead owner's lock has run out the same message is let in again |
| EffectOnce.EvaluationOfCurrentCounts | src/application/usecases/ingest_rescue_request_evaluation.py:55-134 | an evaluation that reads CURRENT adds an event if and only if the request is open and waits for it |
| EffectOnce.LostFinalizeDuplicates | src/application/usecases/ingest_rescue_request_evaluation.py:129-166 | a delivery that dies between commit and finalize is followed, on redelivery, by a second event if and only if the request is still open and waits for that evaluation |
| EffectOnce.OneMessageTwoEvents | src/application/usecases/ingest_rescue_request_evaluation.py:36-176 | a run from the empty system in which one evaluation appends two events, for any key, request and content |
| RequestCreation.CreateKeysDistinct | src/application/usecases/create_rescue_request.py:118-229 | the items of a create have distinct keys whatever the ids and hashes |
| RequestCreation.CreatesMeetIff | src/application/usecases/create_rescue_request.py:190-229 | the creates of two requests write a common key if and only if their phone hashes agree |
| RequestCreation.LookupKeysAgreeIff | src/adapters/persistence/rescue_request_repository.py:463-487 | two creates are found under one phone and code, one incident or one signature if and only if they agree on these |
| RequestCreation.IncidentIndexOrder | src/adapters/persistence/rescue_request_repository.py:480-488 | an incident's requests sort by the time they came in, then by id, also with the fraction of a second left out |
| RequestCreation.FirstEventKey | src/application/usecases/create_rescue_request.py:174-174 | the first event lies where the event queries look for version 1 |
| RequestCreation.CourseIs | src/adapters/persistence/rescue_request_repository.py:329-391 | which answers lead to the fallback, on the local stage and elsewhere, and which to which error |
| RequestCreation.DecidingIs | src/adapters/persistence/rescue_request_repository.py:324-335 | the transaction is tried up to three times, as long as it conflicts |
| RequestCreation.Table.PutItemsWithRollback | src/adapters/persistence/rescue_request_repository.py:180-197 | stores all items, or stops at the first that fails or whose key is taken and leaves exactly those earlier ones whose rollback delete failed |
| RequestCreation.Table.CreateRescueRequest | src/adapters/persistence/rescue_request_repository.py:302-391 | for every sequence of backend answers it returns normally only with every item stored as given; when it raises, the table has changed if and only if the fallback was tried and a rollback delete of an item stored before the failing one failed; and the first answer that is not retried, or the first item that cannot be put, decides the result |
| RequestCreation.WithoutOne | src/adapters/persistence/rescue_request_repository.py:190-196 | deleting one stored item whose key had been free undoes exactly its put |
| RequestCreation.TraceExactlyWhenRollbackFailed | src/adapters/persistence/rescue_request_repository.py:180-197 | a failed fallback leaves a trace if and only if the delete of some item before the failing one failed |
| RequestCreation.FailedCreateLeavesNoTrace | src/adapters/persistence/rescue_request_repository.py:189-197 | with working rollback deletes a failed fallback leaves the table exactly as it was |
| StreamPoller.EventKeyInjective | stream-service/src/poller.mjs:32-40 | a stream key determines timestamp and id, whatever they are |
| StreamPoller.EventKeyOrder | stream-service/src/stream.mjs:69-80 | for times from 1970 on that fit 13 digits, keys sort by time and then id, so a reader resuming after a key sees later events |
| StreamPoller.NormalizingCarries | stream-service/src/poller.mjs:67-91 | an event is stored as it came, anything else whole under the id and time of its delivery |
| StreamPoller.KeyForIs | stream-service/src/poller.mjs:36-40 | the key has the event's own time and id, and the delivery's where that is missing, unreadable, zero or empty |
| StreamPoller.KeyLayout | stream-service/src/poller.mjs:32-40 | a key is thirteen digits of time, a # and the id |
| StreamPoller.RedeliveryKeepsKeyIff | stream-service/src/poller.mjs:36-40 | every delivery of a message gets the same key if and only if it has its own id and a timestamp that parses to something but zero |
| StreamPoller.OneLeaseHolder | stream-service/src/poller.mjs:93-142 | in every run at most one poller has an unexpired lease, and no late release or acquisition by another disturbs it |
| StreamPoller.LeaseLasts | stream-service/src/poller.mjs:93-142 | a lease keeps others away for exactly 55 seconds, or up to its release |
| StreamPoller.RunKeepsDrain | stream-service/src/poller.mjs:144-177 | in every run each message is queued or has an item under the key it was last stored with |
| StreamPoller.NoMessageLost | stream-service/src/poller.mjs:158-177 | in every run with crashes each message sent is still queued or has an item under the very key it was stored with; if no two messages meet under one key that item is the event as sent, or holds all that was sent |
| StreamPoller.SeparateItems | stream-service/src/poller.mjs:36-40 | two messages that left the queue share an item if and only if they were stored with one id and one timestamp |
| StreamPoller.OneItemPerEvent | stream-service/src/poller.mjs:144-156 | an event with its own id and timestamp is stored once however often it is delivered |
| StreamPoller.Stream.AcquireLease | stream-service/src/poller.mjs:93-118 | succeeds exactly when there is no lease, it has expired, or it is the caller's own |
| StreamPoller.Stream.ReleaseLease | stream-service/src/poller.mjs:120-142 | ends the caller's own lease and no other |
| StreamPoller.Stream.ProcessMessage | stream-service/src/poller.mjs:158-177 | its steps are exactly: store, whatever others do, delete, as far as the calls succeed; it succeeds if and only if both do; what it stores carries the message |
| StreamPoller.Stream.OneTurn | stream-service/src/poller.mjs:206-235 | its steps are exactly one receive, which may fail, and the batch in order up to the first failure or the end of the time |
| StreamPoller.Stream.Handler | stream-service/src/poller.mjs:179-250 | its steps are exactly acquire, the turns of the loop, release; the lease is not the caller's any more or has ended, however the loop ends; the messages counted are the first of those received, all of them if nothing fails and time lasts, and gone from the queue for good |
| CitizenStatus.PageIsNewest | src/adapters/persistence/rescue_request_repository.py:415-434 | a descending page holds the newest events, latest first, as many as fit |
| CitizenStatus.KeyLayout | src/application/services/state_transition_service.py:50-50 | event keys are EVENT# and ten digits |
| CitizenStatus.LatestIsCurrentIff | src/application/usecases/get_citizen_status.py:15-26 | the latest event shown is that of CURRENT's version if and only if the query, which may lag or run ahead, saw at least that version and at most 19 more, and otherwise the last one seen |
| CitizenStatus.RecentAreNewestIff | src/application/usecases/get_citizen_status.py:15-22 | the recent events are the newest five up to that version if and only if the query saw at least that version, and at most 15 more or a log that fits a page |
| IncidentCatalog.ToAlpha | src/application/usecases/sync_incident_catalog.py:77-83 | the loop yields the bijective base-26 numeral, and A for numbers that are not positive |
| IncidentCatalog.OrdinalOfAlpha | src/application/usecases/sync_incident_catalog.py:77-83 | the numeral gives back its number |
| IncidentCatalog.AlphaOfOrdinal | src/application/usecases/sync_incident_catalog.py:77-83 | every non-empty string of capitals is the numeral of its number |
| IncidentCatalog.AlphaIncreases | src/application/usecases/sync_incident_catalog.py:77-83 | numerals increase in shortlex order |
| IncidentCatalog.AlphaLength | src/application/usecases/sync_incident_catalog.py:77-83 | a numeral has L letters exactly between the two geometric sums |
| IncidentCatalog.FirstNames | src/application/usecases/sync_incident_catalog.py:73-83 | names begin with IncidentA, and IncidentAA follows IncidentZ |
| IncidentCatalog.Catalog.GetNextIncidentSequence | src/adapters/persistence/incident_catalog_repository.py:33-45 | one more than the number of the item with the greatest sort key |
| IncidentCatalog.Catalog.Sync | src/application/usecases/sync_incident_catalog.py:14-62 | a sync stopped after any iteration has processed exactly that prefix |
| IncidentCatalog.TalliesAddUp | src/application/usecases/sync_incident_catalog.py:56-62 | fetched = created + updated + skipped |
| IncidentCatalog.LastFetchIsStored | src/application/usecases/sync_incident_catalog.py:39-54 | after a sync each fetched incident has the remote fields fetched for it last and the time of the sync |
| IncidentCatalog.UnfetchedStay | src/application/usecases/sync_incident_catalog.py:23-54 | and every other incident is as it was |
| IncidentCatalog.NumberStays | src/application/usecases/sync_incident_catalog.py:65-70 | a number, less its fraction, and a name once given stay through any sync |
| IncidentCatalog.NumberlessSharesNumber | src/application/usecases/sync_incident_catalog.py:31-34 | a stored incident without a number gets the same as the first new incident after it |
| IncidentCatalog.SyncKeepsNumbering | src/application/usecases/sync_incident_catalog.py:23-54 | a sync keeps numbers 1..n without gaps, names and sort keys built from them, and every first number and name |
| IncidentCatalog.SortKeyOrder | src/application/usecases/sync_incident_catalog.py:51-51 | sort-key order is number order among numbers of one padded width, in particular up to six digits |
| IncidentCatalog.LongerSortsEarlyIff | src/application/usecases/sync_incident_catalog.py:51-51 | a number of more than six digits sorts before the largest number one digit shorter if and only if it is not among the ten largest of its length |
| IncidentCatalog.LastIsTop | src/adapters/persistence/incident_catalog_repository.py:34-44 | the descending query finds, in a catalog of any size, the number that is greatest as a sort key |
| IncidentCatalog.NextIsFreshIff | src/adapters/persistence/incident_catalog_repository.py:33-45 | for a catalog of any size the number allocated next is unused if and only if there are at most 999999 incidents or the count has nines for all digits but the last; otherwise it is the power of ten of as many digits, which is taken |
| IncidentCatalog.RunKeepsNumbering | src/application/usecases/sync_incident_catalog.py:14-62 | over every run of syncs, interrupted ones included, that start where the next number is fresh, numbering stays gapless and every incident keeps its first number and name |
| IncidentCatalog.NumbersAreDistinct | src/application/usecases/sync_incident_catalog.py:65-70 | distinct incidents have distinct numbers |
| IncidentCatalog.NamesAreDistinct | src/application/usecases/sync_incident_catalog.py:73-83 | and distinct names |
| Maintenance.RequestTable.ScanKeysAndRefs | src/adapters/persistence/rescue_request_repository.py:35-57 | paging collects every page in order |
| Maintenance.RequestTable.DeleteRequestsByIds | src/adapters/persistence/rescue_request_repository.py:79-91 | exactly the items of these requests go, and their number is returned |
| Maintenance.RequestTable.DeleteOrphanedRequests | src/application/usecases/internal_maintenance.py:37-53 | exactly the items of requests with a master naming no known incident go; both counts are right |
| Maintenance.NoOrphansRemain | src/application/usecases/internal_maintenance.py:37-53 | afterwards each master names a known incident, everything else is untouched, and a second pass changes nothing |
| Maintenance.KnownIff | src/application/usecases/internal_maintenance.py:38-42 | known are exactly the catalog's ids that are not blank |
| Maintenance.SurvivesIff | src/application/usecases/internal_maintenance.py:43-48 | a request survives as a whole if and only if each of its masters names an incident of the catalog |
| Geohash.SymbolsSpellBase32 | src/adapters/utils/geohash.py:1-1 | the alphabet by its runs is the literal one |
| Geohash.Halving | src/adapters/utils/geohash.py:13-26 | comparing with the middle of a cell yields the next bit of the cell number and the next cell |
| Geohash.HalvingEncodes | src/adapters/utils/geohash.py:4-34 | the bits found by halving are the interleaved bits of the clamped floor indices, longitude first |
| Geohash.EncodeGeohash | src/adapters/utils/geohash.py:4-34 | the loop computes that closed form for every point and precision |
| Geohash.CellOfW | src/adapters/utils/geohash.py:4-34 | the points from the equator to 45 north and 90 to 135 east get the code w |
| Geohash.Prefix | src/adapters/utils/geohash.py:12-34 | a lower precision gives a prefix of a higher one |
| Geohash.CellContainsPoint | src/adapters/utils/geohash.py:13-26 | the cell contains the point |
| Geohash.SameCodeIffSameCell | src/adapters/utils/geohash.py:4-34 | two points get one code if and only if they lie in one cell |
| Geohash.CornerRoundTrip | src/adapters/utils/geohash.py:4-34 | encoding a cell's lower corner returns its code |
| DuplicateSignature.TimeBucketDecides | src/domain/rules/duplicate_rules.py:23-27 | two times have one bucket text if and only if they share the day and the five minutes |
| DuplicateSignature.BucketsAreFiveMinutes | src/domain/rules/duplicate_rules.py:26-26 | two times of day share a bucket if and only if they share a five-minute step |
| DuplicateSignature.InternationalPhone | src/adapters/utils/phone_normalizer.py:4-13 | a number with +66 is the national one |
| DuplicateSignature.BareCountryCode | src/adapters/utils/phone_normalizer.py:10-11 | without the plus that takes more than nine digits |
| DuplicateSignature.NationalPhone | src/adapters/utils/phone_normalizer.py:4-13 | every other string of digits stays as it is |
| DuplicateSignature.SeparatorsDoNotMatter | src/adapters/utils/phone_normalizer.py:7-7 | a character that is no digit and no plus changes nothing, wherever it stands |
| DuplicateSignature.RawDecides | src/domain/rules/duplicate_rules.py:16-20 | the string that is hashed is equal for two submissions if and only if they agree on incident, phone, type, cell and bucket, whatever bars the incident id contains |
| DuplicateSignature.DuplicatesAreClose | src/domain/rules/duplicate_rules.py:8-27 | equal strings mean latitudes within 180/2^17, longitudes within 360/2^18 degrees and times less than five minutes apart |
| IsoTime.IsoOrder | src/application/services/idempotency_service.py:92-95 | byte order on the stored timestamps is chronological order, also with the fraction left out |
| IsoTime.IsoFirst | src/application/usecases/create_rescue_request.py:211-212 | texts that begin with a timestamp sort by time and then by the rest |
| IsoTime.StoredExpiryCheckAgrees | src/adapters/persistence/idempotency_repository.py:76-77 | the store's comparison of lock times agrees with the service's |

## Left out

- HTTP, SNS and SQS plumbing, message parsing, field-by-field validation and response shaping: a call arrives validated, and only the status field of a stored result body is kept.
- Hashing, random ids and tracking codes: hashes are injective and drawn ids fresh; owner ids are a counter.
- The wording of backend errors: an answer of the backend is an enumerated value.
- The idempotency lock around staff transitions, priority changes, patches, citizen updates and creates: their keys follow the same protocol, but only the two ingests are composed with the event log. The gap in which some of them raise between reservation and their `try` is a crash of the protocol.
- A finalize without a lock owner, and the unscoped fallback hash: no caller uses them.
- A lock expiry that does not parse: the records are those the service writes.
- The maintenance deletes as writers of the interleaved event log.
- Uniqueness of the phone number: the transactional puts carry no condition, so it rests on a check before the create.
- Lost answers of the backend: a write that reports failure wrote nothing.
- Concurrent syncs, and index reads that lag behind: a sync reads the catalog as it is.
- Queries of events since a version and of updates since a time, and cursors.
- Two invocations of the poller under one request id at the same time: a request id names one owner.
- A release of the lease that the backend refuses: the lease then runs out by itself.
- Time to live of stream items, and visibility timeouts: a queued message may be received at any time.
- Floating-point rounding in the geohash: coordinates are reals, and at the precision used every midpoint is exactly representable.
- Python's `%Y` padding of years: the year is written in plain decimals, and the bucket text is decided by it all the same.
- Geohash.EncodeGeohash: the bit set by `|=` on a clear bit is written as an addition.
- The backend's own guarantees: conditional writes and transactions are taken to be atomic.
