# HomeSignal: verified models of the stateful cores

This project models the parts of HomeSignal that keep state over whole runs, and proves what
every run keeps. Each component has the same shape: the state is a value, one operation is a
function on it, a class with the fields and the control flow of the Go code is proved to do
exactly what that function does, and lemmas say, field by field, what every operation comes to,
and cover all runs. Whatever comes from outside (clocks, the cloud's answers, failing calls,
crashes, the iteration order of a map) is a parameter that a lemma quantifies over.

| file | component |
|---|---|
| `Enrollment.dfy`, `EnrollmentManager.dfy`, `EnrollmentSafety.dfy`, `EnrollmentEffects.dfy`, `EnrollmentOutcomes.dfy`, `EnrollmentRuns.dfy`, `EnrollmentGaps.dfy`, `EnrollmentNames.dfy`, `EnrollmentSecrets.dfy`, `EnrollmentIdentity.dfy` | the agent's claim protocol, with crashes between any two effects |
| `Ingest.dfy`, `IngestRuns.dfy`, `MaterialHash.dfy`, `MaterialCollisions.dfy`, `StrictJson.dfy` | telemetry ingest: deduplication, canonical encoding, duplicate-key check |
| `Commands.dfy`, `CommandRuns.dfy`, `CommandOperations.dfy` | the command lifecycle |
| `Idempotency.dfy`, `RateLimiter.dfy` | the idempotency store and the fixed-window limiter |
| `Releases.dfy` | dotted versions and compatibility windows |
| `Presence.dfy` | the presence upsert |
| `Alerting.dfy`, `AlertOutcomes.dfy` | alert folding |
| `Migration.dfy` | the migration runner |
| `Common.dfy`, `Strings.dfy` | shared types; the string and sorting operations of Go's library |

`Fault` in `Common.dfy` says how a call to a store turns out: it works, it fails without effect,
or it takes effect and still reports an error. Times are integers and Go's zero time is 0.

The enrollment model logs every effect on the disk and every request to the cloud, starting from
a blank device. A crash is a cut of the log followed by a restart on the disk that the cut leaves;
`Rule` says what each effect may be, given the log before it, and every log the agent produces
obeys it. Since the rule speaks of prefixes, all consequences hold at every crash point.

Findings about the code that came out of the proofs, each with the exact condition:

- The claim-state graph holds for every run without failed file operations as long as the clock
  does not go backwards. A session that is over when it is opened is kept in memory but not saved
  (enrollment_manager.go:194-204); if the clock then goes back, a poll can save REVOKED directly
  after UNCLAIMED. `LeavesTheGraphExactlyWhen` says which passes do so, `BackwardClockExample` is
  a run with one.
- An agent stopped between the removal of the poll token and the save of the claimed record
  (enrollment_manager.go:397-401), or whose save fails there, waits after its next start for a
  confirmation it can never ask for again (`CrashAfterTokenRemoval`, `StuckExactlyAt`,
  `StuckForever`). Every pass that confirms a claim has such a point (`EveryConfirmationCanBeCut`).
- When the save that gives up a session does not take effect, the token of the next session is
  stored beside the record of the old one (`CrossesExactlyWhen`); an agent stopped then presents
  the new token for the old session (`CrossedTokenIsPresented`). In all other runs every token is
  presented for its own session (`TokensAreTheSessionsOwn`).
- The claim certificate and the private key of the claim stay on the disk after a crash between
  their storage and their removal, and also without one when a write is reported as failed,
  because the removal is only deferred after both writes (`ClaimMaterialLeftBehind`).
- A sliding window as long as the limiter's window holds at most `2 * limit - 1` allowed requests,
  and for every positive limit and every window of at least two clock ticks some run reaches that
  (`SlidingBound`, `SlidingBoundIsTight`); `limit` itself is kept by all runs exactly when it is at
  most one or the window is at most one tick (`LimitSlidesExactlyWhen`).
- Two calls with one idempotency key both do the work exactly when they overlap or an out-of-order
  lookup drops the response in between (`ProducesTwiceExactlyOnOverlapOrDrop`).
- Scope and key are joined by a bar, so two calls share an entry also when one scope goes on, after a
  bar, with what the other key begins with, and only then (`SharesEntryExactlyWhen`); keys without a
  bar are always answered within their own scope (`AnsweredOnlyForTheSameScopeAndKey`).
- Telemetry moves last_seen_at, so it decides whether a lifecycle event that is delivered later still
  changes the connection state. All deliveries of the same events agree exactly when no connect and
  disconnect share the latest time and no telemetry is later than all lifecycle events
  (`ConvergesExactlyWhen`).
- A database that was migrated before is, after an upgrade, that of a fresh install exactly when every
  applied script has kept its place among the scripts (`UpgradeIsAFreshInstallExactlyWhen`).
- In a repository that keeps one result per command, as the index `command_results_one_terminal_idx`
  in backend/migrations/000002_core_domain_schema.sql:360 does, a command whose result was recorded
  but reported as failed, or not followed by a save, is stranded: it is not terminal and nothing can
  end it (`StrandsExactlyWhen`, `CanBeEndedExactlyWhenNothingRecorded`).
- Telemetry can be accepted as unchanged although the last write for its state has another hash,
  exactly when that write left its hash unrecorded beside a different one
  (`LatestStateIsCurrentUnlessStale`).
- Different materials can have the same hashed text, because a value may hold a line break. Among
  the maps with one set of keys it takes a value that holds the line a neighbouring value begins
  with (`SharesTextExactlyWhen`); a health snapshot can be such a map
  (`SnapshotSharesTextExactlyWhen`), and the changed one is then answered as unchanged and never
  written (`ChangedSnapshotIsSuppressed`). Even with a hash that never collides, the latest state
  holds the accepted material for all others, and only for them (`LatestMaterialIsCurrentExactlyWhen`).
- An alert candidate is recorded before it is verified, so one whose verification fails is answered
  as a duplicate on every retry and never folded (`CandidateIsFoldedExactlyWhenAtOnce`).

## Model

| member | source | states |
|---|---|---|
| EnrollmentManager.Manager.RunOnce | homesignal/cmd/agent/enrollment_manager.go:78-119 | one reconcile pass changes record, code, reasons, disk and log exactly as the pass whose runs are analysed |
| EnrollmentManager.Manager.CreatePairingSession | homesignal/cmd/agent/enrollment_manager.go:143-207 | opens a session: key, request, token file, record, save, with every early exit |
| EnrollmentManager.Manager.PollPairingSession | homesignal/cmd/agent/enrollment_manager.go:209-261 | polls and acts on each answer, including the refresh that is kept in memory only |
| EnrollmentManager.Manager.HandleApprovedClaim | homesignal/cmd/agent/enrollment_manager.go:263-294 | stores the claim material, provisions, and drops the material whatever the outcome |
| EnrollmentManager.Manager.ProvisionDevice | homesignal/cmd/agent/enrollment_manager.go:296-332 | asks for a certificate, with the template and ids RequestsOfAPass says, and refuses an empty one |
| EnrollmentManager.Manager.AcceptProvisionedCertificate | homesignal/cmd/agent/enrollment_manager.go:333-353 | writes the certificate, saves as pending what ApprovingOutcome says, and only then asks for confirmation |
| EnrollmentManager.Manager.FinalizeClaim | homesignal/cmd/agent/enrollment_manager.go:355-362 | resumes a confirmation with the stored poll token or gives up without it |
| EnrollmentManager.Manager.FinalizeClaimWithPollToken | homesignal/cmd/agent/enrollment_manager.go:364-412 | acts on the verdict as FinalizingOutcome says; for a confirmed claim the token is removed before the record is saved |
| EnrollmentManager.Manager.CheckClaimedStatus | homesignal/cmd/agent/enrollment_manager.go:414-436 | keeps, revokes or reports a claimed device |
| EnrollmentManager.Manager.NormalizeRecord | homesignal/cmd/agent/enrollment_manager.go:438-448 | fills a missing schema version, creation time and claim state |
| EnrollmentManager.Manager.ClearPendingFields | homesignal/cmd/agent/enrollment_manager.go:472-482 | clears every pending field and the pairing code and nothing else |
| EnrollmentManager.Manager.AddDegraded | homesignal/cmd/agent/enrollment_manager.go:492-502 | adds a reason once |
| EnrollmentManager.Manager.EnsureDevicePrivateKey | homesignal/cmd/agent/enrollment_storage.go:142-171 | keeps an existing key, generates and writes a missing one |
| EnrollmentSafety.StartKeeps | homesignal/cmd/agent/enrollment_storage.go:18-67 | on the disk left by any lawful log an agent starts, in step with the saved record |
| EnrollmentSafety.RunOnceKeeps | homesignal/cmd/agent/enrollment_manager.go:78-119 | a pass only appends to the log, every appended effect obeys the rule of the protocol, and the invariant holds again |
| EnrollmentSafety.LawfulDisk | homesignal/cmd/agent/enrollment_manager.go:339-401 | at the end of any lawful log the saved record is well formed: pending certificate means a complete provisioning, CLAIMED means a complete claim |
| EnrollmentSafety.RunKeeps | homesignal/cmd/agent/enrollment_manager.go:54-119 | the invariant holds after every run, with crashes, failed file operations, deletions by others and arbitrary answers |
| EnrollmentEffects.RequestsOfAPass | homesignal/cmd/agent/enrollment_manager.go:143-436 | every request of a pass and all that is in it: session, token, template, device, thing, key, certificate, by the record, the files and the answers |
| EnrollmentOutcomes.PassShowsItsError | homesignal/cmd/agent/enrollment_manager.go:78-119 | a pass shows exactly the one reason for which it ended early |
| EnrollmentOutcomes.WakingOutcome | homesignal/cmd/agent/enrollment_manager.go:82-86 | the record is completed, each missing field and no other, and no reason is left over |
| EnrollmentOutcomes.OpenSessionOutcome | homesignal/cmd/agent/enrollment_manager.go:98-111 | an open session is polled while it has time left, and otherwise given up with all that was pending for a new one |
| EnrollmentOutcomes.CreatingOutcome | homesignal/cmd/agent/enrollment_manager.go:143-207 | with which error the request for a session ends, and which fields of the record it has changed |
| EnrollmentOutcomes.PollingOutcome | homesignal/cmd/agent/enrollment_manager.go:209-261 | what each answer to a poll, and none, does to code, expiry, state and record, and the error it ends with |
| EnrollmentOutcomes.ApprovingOutcome | homesignal/cmd/agent/enrollment_manager.go:263-353 | the first thing that stops an approved claim, or what is pending when its confirmation is asked for |
| EnrollmentOutcomes.FinalizingOutcome | homesignal/cmd/agent/enrollment_manager.go:364-412 | what each verdict does to every field of the record, and the error it ends with |
| EnrollmentOutcomes.ClaimedOutcome | homesignal/cmd/agent/enrollment_manager.go:87-96 | what a pass of a claimed device does to the record, and the error it ends with |
| EnrollmentOutcomes.PollWords | homesignal/cmd/agent/enrollment_manager.go:236-260 | the words of each answer to a poll; no word means two things |
| EnrollmentOutcomes.VerdictWords | homesignal/cmd/agent/enrollment_manager.go:386-411 | the words that confirm and deny a claim |
| EnrollmentOutcomes.StartOutcome | homesignal/cmd/agent/enrollment_storage.go:18-67 | when a process starts on a disk, with which record, and what it saves |
| EnrollmentRuns.SavedRecordsFollowTheGraph | homesignal/cmd/agent/enrollment_manager.go:78-119 | consecutive saved records follow the claim-state graph; REVOKED is never left whatever fails; without a failed operation the one exception needs a clock that went backwards |
| EnrollmentRuns.CertificateLock | homesignal/cmd/agent/enrollment_manager.go:98-111 | between a saved certificate and any later session request, poll or provisioning there is a confirmed claim |
| EnrollmentRuns.ClaimedMeans | homesignal/cmd/agent/enrollment_manager.go:386-401 | at every moment CLAIMED on the disk has a device id, a time, nothing pending, a key and certificate the agent wrote unless others deleted them, no poll token, and a confirmation behind it |
| EnrollmentRuns.PendingCertificateMeans | homesignal/cmd/agent/enrollment_manager.go:339-350 | at every moment a saved pending certificate has its device id, its key and its certificate |
| EnrollmentSecrets.SavedSessionHasItsToken | homesignal/cmd/agent/enrollment_manager.go:188-206 | at every moment a saved session that is still polled has its token beside it, unless a file operation failed or others deleted it; a token beside a saved session is the one the cloud opened that session with, unless tokens were crossed |
| EnrollmentSecrets.TokensAreTheSessionsOwn | homesignal/cmd/agent/enrollment_manager.go:209-227 | in any run, unless tokens were crossed, a poll and a confirmation present the token with which the cloud opened the session |
| EnrollmentSecrets.CrossesExactlyWhen | homesignal/cmd/agent/enrollment_manager.go:98-102 | a pass stores the token of a new session beside the record of another exactly when the save that gives up the other one has not taken effect |
| EnrollmentSecrets.CrossedTokenIsPresented | homesignal/cmd/agent/enrollment_manager.go:188-192 | an agent stopped then presents the token of the new session for the old one |
| EnrollmentRuns.OnlySavedProvisioningsAreConfirmed | homesignal/cmd/agent/enrollment_manager.go:364-379 | confirmation is asked for complete provisionings only, and for the saved one unless a file operation failed |
| EnrollmentRuns.PassOfAClaimedAgent | homesignal/cmd/agent/enrollment_manager.go:87-96 | a claim is lost exactly when a credential file is missing and revoked exactly when the cloud says so |
| EnrollmentRuns.PassOfAWaitingAgent | homesignal/cmd/agent/enrollment_manager.go:107-110 | an agent that awaits confirmation settles exactly on the verdict |
| EnrollmentRuns.PassOfAPollingAgent | homesignal/cmd/agent/enrollment_manager.go:236-260 | a live session is given up exactly on expiry; a poll that says "claimed" changes nothing saved |
| EnrollmentRuns.RevokedForever | homesignal/cmd/agent/enrollment_manager.go:112-113 | once REVOKED is saved, in every continuation the saved record stays, nothing is asked or written, and only claim files are removed |
| EnrollmentRuns.SessionIsSaved | homesignal/cmd/agent/enrollment_manager.go:160-206 | a good session is saved with the cloud's id, expiries and a positive interval, with its token and the device key beside it |
| EnrollmentRuns.ClaimCompletes | homesignal/cmd/agent/enrollment_manager.go:143-412 | a good session and a timely approval end in a saved claim with the ids of the confirmation, else of the provisioning, else of the poll |
| EnrollmentIdentity.RequestsOfARun | homesignal/cmd/agent/enrollment_manager.go:54-119 | in any run each request was made in one pass, with the record, files, configuration and answers of that pass |
| EnrollmentIdentity.ProvisioningsAreAsApproved | homesignal/cmd/agent/enrollment_manager.go:296-325 | in any run a certificate is requested for the device and thing of an approval in the same pass and session, with its template, or the configured one exactly where it names none |
| EnrollmentIdentity.ConfirmationsAreAsProvisioned | homesignal/cmd/agent/enrollment_manager.go:319-379 | in any run a confirmation is asked for the ids a provisioning before it has given, in its session |
| EnrollmentIdentity.ClaimedDeviceIsTheNamedOne | homesignal/cmd/agent/enrollment_manager.go:305-401 | at every moment of any run a claimed device has the device id and thing of the confirmation, else of the provisioning, else of the poll answer, all of one session |
| EnrollmentIdentity.IdentityStays | homesignal/cmd/agent/enrollment_storage.go:18-67 | in any run all records and session requests carry the identifier of the first start, and all records its time |
| EnrollmentGaps.CrashAfterTokenRemoval | homesignal/cmd/agent/enrollment_manager.go:392-401 | in any run, a pass cut anywhere leaves the agent stuck exactly when the token was lost after the certificate was saved; without failed operations, exactly between the removal and the next save |
| EnrollmentGaps.EveryConfirmationCanBeCut | homesignal/cmd/agent/enrollment_manager.go:386-401 | every pass without failed operations that ends in a saved claim can be cut so that the agent is stuck |
| EnrollmentGaps.StuckExactlyAt | homesignal/cmd/agent/enrollment_manager.go:386-401 | which answers and which cut of a pass leave an agent stuck whose memory is in step with its record |
| EnrollmentGaps.StuckForever | homesignal/cmd/agent/enrollment_manager.go:355-362 | in no continuation of a run does a stuck agent get unstuck, change its saved record or ask the cloud anything |
| EnrollmentGaps.LeavesTheGraphExactlyWhen | homesignal/cmd/agent/enrollment_manager.go:194-255 | without failed operations a pass saves a record off the graph exactly when it polls for an unsaved session that the clock has made current again and the answer is revoked |
| EnrollmentGaps.BackwardClockExample | homesignal/cmd/agent/enrollment_manager.go:201-204 | a concrete run without failed operations that leaves the graph |
| EnrollmentGaps.ClaimMaterialLeftBehind | homesignal/cmd/agent/enrollment_manager.go:281-294 | exactly when the claim certificate and when the claim key is on the disk after a whole pass, or after one cut anywhere by a crash |
| EnrollmentSecrets.ClaimedCertificateIsTheConfirmedOne | homesignal/cmd/agent/enrollment_manager.go:296-401 | at every moment the certificate file of a claimed device is the one issued under the id the cloud confirmed, and its key file the key that certificate was requested with, unless others deleted credentials |
| EnrollmentSecrets.PendingCertificateIsOnTheDisk | homesignal/cmd/agent/enrollment_manager.go:339-350 | at every moment the certificate file is the one issued under the saved pending id, beside the key it was requested with, unless others deleted credentials |
| EnrollmentSecrets.SecretRun | homesignal/cmd/agent/enrollment_manager.go:78-119 | every run keeps record, saved record and secret files in step |
| Ingest.RuntimePipeline.Ingest | telemetry-ingest/internal/pipeline/pipeline.go:33-126 | one request changes store, writer and sink as the analysed step does and gives its reply |
| IngestRuns.ReplyMeans | telemetry-ingest/internal/pipeline/pipeline.go:33-126 | in any state and under any faults: when a request is accepted, what the answer says of the write, the duplicate and the unchanged hash, each if and only if, and which stage a refusal names |
| IngestRuns.RequestLeaves | telemetry-ingest/internal/pipeline/pipeline.go:62-125 | exactly when the write, the hash and the key are left behind |
| Ingest.RuntimePipeline.ShouldSuppressUnchangedTelemetry | telemetry-ingest/internal/pipeline/pipeline.go:147-156 | suppression exactly for telemetry whose stored hash equals the new one and can be read |
| Ingest.RuntimePipeline.RecordFailure | telemetry-ingest/internal/pipeline/pipeline.go:257-269 | a failure is recorded if there is a sink, and its error is ignored |
| Ingest.MemoryDedupeStore.RecordMessage | telemetry-ingest/internal/pipeline/memory.go:46-51 | adds exactly the key |
| Ingest.MemoryDedupeStore.RecordMaterialHash | telemetry-ingest/internal/pipeline/memory.go:60-65 | replaces the hash of exactly that state key |
| Ingest.MemoryWriter.WriteLatest | telemetry-ingest/internal/pipeline/memory.go:13-18 | appends the message |
| IngestRuns.DedupeRefinesWriteEverything | telemetry-ingest/internal/pipeline/pipeline.go:62-114 | without faults the writes are those of writing every first sighting, less telemetry that repeats its hash; the stored hash is that of the last write and of the last accepted first sighting |
| IngestRuns.WrittenAtMostOnce | telemetry-ingest/internal/pipeline/pipeline.go:63-82 | without faults no device and message id is written twice |
| IngestRuns.AcceptedIsBackedByAWrite | telemetry-ingest/internal/pipeline/pipeline.go:84-156 | under any faults an accepted reply is backed by a write that stands for the message that made its id known; the write may have been replaced since |
| IngestRuns.LatestStateIsCurrentUnlessStale | telemetry-ingest/internal/pipeline/pipeline.go:92-156 | under any faults the hash of the next accepted telemetry is that of the last write for its key, unless and only unless that write left its hash unrecorded beside a different one |
| IngestRuns.LatestMaterialIsCurrentExactlyWhen | telemetry-ingest/internal/pipeline/pipeline.go:92-156 | with an injective hash and no unrecorded one in the way, accepted telemetry of one schema finds its material in the latest state exactly when no other material of the schema shares its text |
| IngestRuns.ChangedSnapshotIsSuppressed | telemetry-ingest/internal/pipeline/pipeline.go:92-96 | a health snapshot that differs from the one before but shares its text is answered as unchanged and not written, in any state and for any hash |
| IngestRuns.NoWriterLosesEverything | telemetry-ingest/internal/pipeline/pipeline.go:96-108 | without a writer messages are accepted and never written |
| IngestRuns.EveryRequestIsAccountedFor | telemetry-ingest/internal/pipeline/pipeline.go:40-125 | with a working sink, requests are accepted ones plus recorded failures |
| MaterialHash.CanonicalText | telemetry-ingest/internal/pipeline/hash.go:10-24 | whatever order the map is iterated in, the text is the canonical one |
| MaterialHash.Hash | telemetry-ingest/internal/pipeline/hash.go:10-27 | the hash is a function of the map alone |
| MaterialHash.CanonicalTextIsUnique | telemetry-ingest/internal/pipeline/hash.go:11-15 | a map has one canonical text |
| MaterialHash.RoundTrip | telemetry-ingest/internal/pipeline/hash.go:17-23 | a line decoder recovers the map exactly when no key holds '=' or a line break and no value a line break |
| MaterialHash.CanonicalTextIsInjective | telemetry-ingest/internal/pipeline/hash.go:17-23 | on such maps equal texts come from equal maps |
| MaterialCollisions.SharesTextWithSomeMapExactlyWhen | telemetry-ingest/internal/pipeline/hash.go:17-24 | over all maps, a map shares its text with another exactly when it has two entries or more or an = in its key or value |
| MaterialCollisions.SharesTextExactlyWhen | telemetry-ingest/internal/pipeline/hash.go:17-24 | among the maps with the same clean keys, exactly those share a text in which a value holds the separator of its own key, not the first, or of the next key |
| MaterialCollisions.OneLineValuesAreAlone | telemetry-ingest/internal/pipeline/hash.go:17-24 | without line breaks in its values such a map has a text of its own |
| MaterialCollisions.SnapshotSharesTextExactlyWhen | telemetry-ingest/internal/pipeline/health_snapshot.go:30-35 | the exact condition for an accepted health snapshot, with another one that would be accepted |
| StrictJson.RejectDuplicateJSONKeys | telemetry-ingest/internal/pipeline/strict_json.go:10-22 | the verdict on a whole payload, trailing tokens included |
| StrictJson.RejectDuplicateValueKeys | telemetry-ingest/internal/pipeline/strict_json.go:24-80 | consumes exactly one value or reports the error of the recursive check |
| StrictJson.AcceptedExactlyWhenUnique | telemetry-ingest/internal/pipeline/strict_json.go:10-80 | any token stream is accepted if and only if it is the stream of one tree in which no object repeats a key |
| StrictJson.ValueExact | telemetry-ingest/internal/pipeline/strict_json.go:24-80 | on a tree followed by anything the check consumes exactly the tree's tokens, or reports a repeated key |
| StrictJson.ComplaintsOnTrees | telemetry-ingest/internal/pipeline/strict_json.go:10-22 | a tree with a repeated key is refused for that, and any token after an acceptable tree is refused |
| StrictJson.EndOfInputExactlyWhenItCanGoOn | telemetry-ingest/internal/pipeline/strict_json.go:10-80 | a stream is complained about as ended exactly when something can follow that makes it acceptable; every other complaint stays whatever follows |
| StrictJson.TheFirstBadTokenIsBlamed | telemetry-ingest/internal/pipeline/strict_json.go:24-80 | every other complaint is about the first token after which nothing acceptable can follow, and fits it |
| Commands.Service.CreateCommand | backend/internal/domain/commands/service.go:187-233 | creates a queued command with its deadlines or nothing |
| Commands.Service.MarkCommandSent | backend/internal/domain/commands/service.go:235-256 | queued to sent, restarting the ack window |
| Commands.Service.RecordCommandAck | backend/internal/domain/commands/service.go:258-290 | stores an ack in time; a late one times the command out and is an error |
| Commands.Service.ExpireMissingCommandAck | backend/internal/domain/commands/service.go:292-310 | times out a sent command after its ack deadline |
| Commands.Service.RecordCommandProgress | backend/internal/domain/commands/service.go:312-352 | appends progress, then marks the command running; an answer without an error has exactly one event appended |
| Commands.Service.RecordCommandResult | backend/internal/domain/commands/service.go:354-400 | records the result, then saves the command as terminal |
| Commands.Service.ExpireCommandResult | backend/internal/domain/commands/service.go:402-435 | records a timeout and ends the command after its result deadline |
| Commands.Service.CancelCommand | backend/internal/domain/commands/service.go:437-465 | records a cancellation and ends any live command |
| Commands.Service.Load | backend/internal/domain/commands/service.go:467-480 | the stored command or an error |
| Commands.Repository.RecordResult | backend/migrations/000002_core_domain_schema.sql:347-360 | a strict repository refuses a second result for a command |
| CommandOperations.CreateMeans | backend/internal/domain/commands/service.go:187-233 | exactly when a command is created, and every field of it |
| CommandOperations.SentMeans | backend/internal/domain/commands/service.go:235-256 | when a command is marked as sent, and what changes |
| CommandOperations.AckMeans | backend/internal/domain/commands/service.go:258-290 | exactly when an ack is answered with the command, and what a timely and a late one store |
| CommandOperations.AckExpiryMeans | backend/internal/domain/commands/service.go:292-310 | when a missing ack ends a command, and the answer otherwise |
| CommandOperations.ProgressMeans | backend/internal/domain/commands/service.go:312-352 | exactly when an event is appended, with what in it, and when the report is answered with the command |
| CommandOperations.ProgressIsWhatWasReported | backend/internal/domain/commands/service.go:312-352 | in any run the progress of a command is what was reported while it waited for its end, nothing lost and nothing twice |
| CommandOperations.ResultMeans | backend/internal/domain/commands/service.go:354-400 | when a result is recorded, with what in it, and what is saved and answered then |
| CommandOperations.ResultExpiryMeans | backend/internal/domain/commands/service.go:402-435 | when a missing result ends a command, with which result, and the answer otherwise |
| CommandOperations.CancelMeans | backend/internal/domain/commands/service.go:437-465 | a command of any status but an ended one is canceled, with which result |
| CommandRuns.StatusNeverGoesBack | backend/internal/domain/commands/service.go:235-465 | no operation lowers the rank of a status; terminal commands never change; only progress on a running command changes it at the same rank |
| CommandRuns.AtMostFourStatusChanges | backend/internal/domain/commands/service.go:235-465 | in any run a command changes its status at most four times |
| CommandRuns.TerminalExactlyWhenOneResult | backend/internal/domain/commands/service.go:354-465 | with a reliable repository a command is terminal exactly when one result with its status is recorded |
| CommandRuns.TerminalHasAResult | backend/internal/domain/commands/service.go:390-398 | under any faults a terminal command has a result with its status |
| CommandRuns.CanBeEndedExactlyWhenNothingRecorded | backend/internal/domain/commands/service.go:390-398 | with one result per command a live command can be ended exactly when none is recorded |
| CommandRuns.StrandedForever | backend/internal/domain/commands/service.go:354-465 | no continuation of a run ends a command whose result was recorded in vain |
| CommandRuns.StrandsExactlyWhen | backend/internal/domain/commands/service.go:354-465 | any operation strands a command exactly when its result is applied and then reported as failed or not followed by a save that takes effect |
| CommandRuns.AckDeadlineComesFirst | backend/internal/domain/commands/service.go:187-256 | the ack deadline precedes the result deadline at creation, and after sending exactly when the wait was shorter than the difference of the windows |
| CommandRuns.DeadlinesDecide | backend/internal/domain/commands/service.go:258-310 | an ack is stored only by its deadline; timeouts happen only strictly after theirs |
| CommandRuns.ExpiriesFireExactlyAfterDeadlines | backend/internal/domain/commands/service.go:292-435 | the expiry checks fire exactly after the deadline |
| CommandRuns.CommandCompletes | backend/internal/domain/commands/service.go:235-400 | a command answered in time, with any report, reaches the reported status with exactly that progress and that result added |
| Idempotency.IdempotencyStore.GetOrStore | backend/internal/controlplane/idempotency.go:33-70 | the response and the new entries of a call, given by scope and key, that does not overlap |
| Idempotency.IdempotencyStore.FirstSection | backend/internal/controlplane/idempotency.go:43-57 | the first critical section |
| Idempotency.IdempotencyStore.SecondSection | backend/internal/controlplane/idempotency.go:61-67 | the second critical section |
| Idempotency.SharesEntryExactlyWhen | backend/internal/controlplane/idempotency.go:41 | which pairs of scope and key share an entry |
| Idempotency.ScopesAreApart | backend/internal/controlplane/idempotency.go:41 | keys without a bar are apart in every scope, and each key in two scopes |
| Idempotency.SubjectsAreApart | backend/internal/controlplane/app.go:202 | scopes of two subjects, or two routes, are apart |
| Idempotency.AnsweredOnlyForTheSameScopeAndKey | backend/internal/controlplane/idempotency.go:33-70 | in any run a replay or a conflict is due to an earlier call that shares the entry; for keys without a bar, one of the same scope and key |
| Idempotency.WorkRunsExactlyWhen | backend/internal/controlplane/idempotency.go:33-70 | a call runs its work exactly when every earlier one that shares its entry and ran its own started more than ttl ago |
| Idempotency.ProducesExactlyWhenStale | backend/internal/controlplane/idempotency.go:40-70 | the work runs exactly when every earlier run for the key started more than ttl ago |
| Idempotency.FreshKeysAreAnsweredByTheLastRun | backend/internal/controlplane/idempotency.go:44-56 | otherwise the last run's response is replayed, or a conflict if the request hash differs |
| Idempotency.ReplaysAreFaithful | backend/internal/controlplane/idempotency.go:43-67 | in any interleaving a replay is the response stored last for that key, with the same request hash, apart from the replay header |
| Idempotency.LookupMissesExactlyWhen | backend/internal/controlplane/idempotency.go:43-67 | in any order of the sections a lookup misses exactly when the response stored last is too old for it or was dropped by an earlier lookup |
| Idempotency.ProducesTwiceExactlyOnOverlapOrDrop | backend/internal/controlplane/idempotency.go:40-67 | of two calls within ttl the second runs the work again exactly when it looks up before the first stores, or after a drop |
| Idempotency.ProducesTwiceExactlyOnOverlap | backend/internal/controlplane/idempotency.go:40-67 | if the lookups keep the order of the clock, exactly when it overlaps the first |
| RateLimiter.Limiter.Allow | backend/internal/controlplane/idempotency.go:92-114 | counts the request in its scope's bucket, decides, and computes a waiting time of at least one second |
| RateLimiter.SlidingBound | backend/internal/controlplane/idempotency.go:92-114 | any half-open interval as long as the window holds at most 2 * limit - 1 allowed requests of a scope |
| RateLimiter.SlidingBoundIsTight | backend/internal/controlplane/idempotency.go:98-107 | for every limit and every window of two ticks or more a run reaches the bound |
| RateLimiter.LimitSlidesExactlyWhen | backend/internal/controlplane/idempotency.go:98-107 | every run stays within the limit in every sliding window exactly when the limit is at most one or the window at most one tick |
| RateLimiter.BucketBound | backend/internal/controlplane/idempotency.go:98-107 | at most limit requests are allowed in one bucket |
| RateLimiter.AllowedExactlyWhileBucketHasRoom | backend/internal/controlplane/idempotency.go:98-107 | a request is allowed exactly when fewer than limit were allowed before it in its bucket |
| RateLimiter.BucketsApart | backend/internal/controlplane/idempotency.go:98-101 | buckets of a scope begin at least a window apart |
| Releases.ParseDottedVersion | backend/internal/domain/releases/service.go:493-514 | the parsed components or an error |
| Releases.ParseReadsWhatIsWritten | backend/internal/domain/releases/service.go:493-514 | decimal components are read back, with or without a leading v and any pre-release or build text |
| Releases.ParsedVersionIsNatural | backend/internal/domain/releases/service.go:493-514 | parsed components are never negative |
| Releases.CompareDottedVersion | backend/internal/domain/releases/service.go:461-491 | the comparison of the parsed components or an error |
| Releases.CompareMeans | backend/internal/domain/releases/service.go:474-490 | the sign says which version has the smaller component where they first differ |
| Releases.CompareIsReversed | backend/internal/domain/releases/service.go:474-490 | the comparison is reflexive and reverses its sign |
| Releases.CompareIsTransitive | backend/internal/domain/releases/service.go:474-490 | the comparison is transitive |
| Releases.EqualExactlyUpToTrailingZeros | backend/internal/domain/releases/service.go:474-490 | versions compare equal exactly when they agree after dropping trailing zeros |
| Releases.WindowIsConvex | backend/internal/domain/releases/service.go:432-459 | between two versions inside a window all versions are inside |
| Releases.ValidWindowContainsItsEnds | backend/internal/domain/releases/service.go:380-392 | a window is valid exactly when a side is open or it contains its ends |
| Releases.WithinMeansInside | backend/internal/domain/releases/service.go:432-459 | for any value and bounds the window test is an error exactly when a version it looks at does not parse, and otherwise agrees with the version order |
| Releases.CompatibilityForVersion | backend/internal/domain/releases/service.go:158-216 | the verdict by artifact status and deciding window |
| Releases.FirstWindowDecides | backend/internal/domain/releases/service.go:181-215 | for any host and any windows exactly one window decides, or none: the first that contains the host or cannot be decided |
| Releases.SupportedExactlyWhen | backend/internal/domain/releases/service.go:158-216 | a host is supported if and only if its version is known and published and the first deciding window contains it and is a supported one |
| Releases.RefusedBecause | backend/internal/domain/releases/service.go:158-216 | the reason in every other case: unknown version, each status, no window, unsupported window with and without a reason |
| Releases.BadVersionExactlyWhen | backend/internal/domain/releases/service.go:181-215 | versions are refused exactly when an undecidable window comes before every containing one |
| Presence.Writer.WriteLifecycle | telemetry-ingest/internal/storage/postgres/lifecycle.go:13-145 | event and presence row change together or not at all, for claimed devices and known event types only |
| Presence.RowMeans | telemetry-ingest/internal/storage/postgres/lifecycle.go:77-133 | with telemetry mixed in, the row holds the latest times of all events, of connects and of disconnects |
| Presence.StateMeans | telemetry-ingest/internal/storage/postgres/writer.go:194-206 | the state is that of the last lifecycle event not delivered after a later event, telemetry included |
| Presence.PresenceConverges | telemetry-ingest/internal/storage/postgres/lifecycle.go:77-133 | all deliveries of the same events, telemetry included, in any order and with repetitions, end in the same row unless a connect and a disconnect share the latest time or telemetry is later than all of them |
| Presence.ConvergesExactlyWhen | telemetry-ingest/internal/storage/postgres/lifecycle.go:93-96 | all deliveries of the same events agree if and only if there is neither such a clash nor such telemetry |
| Presence.DistinctTimesConverge | telemetry-ingest/internal/storage/postgres/lifecycle.go:77-133 | with distinct times and a lifecycle event as the latest the state is its |
| Presence.LastSeenNeverDecreases | telemetry-ingest/internal/storage/postgres/lifecycle.go:99-126 | the three times never decrease, telemetry included |
| Alerting.Service.Intake | backend/internal/domain/alerting/service.go:135-196 | folds one candidate into the store |
| Alerting.Service.CreateOne | backend/internal/domain/alerting/service.go:247-284 | opens an alert under a fresh id with one created event |
| Alerting.Service.ResolveOne | backend/internal/domain/alerting/service.go:286-308 | resolves an active alert with one event and leaves a resolved one alone |
| Alerting.Service.Act | backend/internal/domain/alerting/service.go:198-245 | acknowledge, snooze and resolve |
| Alerting.Service.RecordEvent | backend/internal/domain/alerting/service.go:325-342 | appends one event, with the system as actor where none is given |
| AlertOutcomes.IntakeRefuses | backend/internal/domain/alerting/service.go:135-159 | which candidates and verifications are refused, and what is left of them |
| AlertOutcomes.IntakeFolds | backend/internal/domain/alerting/service.go:160-196 | every field of the active alert after a recovered and after a repeated problem, and the event recorded |
| AlertOutcomes.IntakeOpens | backend/internal/domain/alerting/service.go:247-284 | exactly when an alert is opened, every field of it, and the event recorded |
| AlertOutcomes.ActionMeans | backend/internal/domain/alerting/service.go:198-308 | when acknowledging, snoozing and resolving take effect, the fields they change and no others, and the event with its actor |
| Alerting.StepKeeps | backend/internal/domain/alerting/service.go:135-308 | every operation keeps the index, the event counts and the candidates consistent, and resolved alerts as they were resolved |
| Alerting.AtMostOneActiveAlert | backend/internal/domain/alerting/service.go:160-180 | in every reachable state a key has at most one active alert and the lookup finds it |
| Alerting.EventsCountOccurrences | backend/internal/domain/alerting/service.go:187-194 | the occurrence count is the number of created and updated events |
| Alerting.CandidateInAtMostOneEvent | backend/internal/domain/alerting/service.go:146-152 | a candidate is behind at most one event |
| Alerting.ResolvedForever | backend/internal/domain/alerting/service.go:286-308 | a resolved alert never becomes active again |
| Alerting.IntakeDecides | backend/internal/domain/alerting/service.go:160-195 | a new candidate resolves, raises, opens or is ignored, by its verification and the state before |
| Alerting.RecordedCandidatesAreSettled | backend/internal/domain/alerting/service.go:146-159 | once a candidate is recorded, no continuation of a run brings an event for it if there is none yet |
| Alerting.CandidateIsFoldedExactlyWhenAtOnce | backend/internal/domain/alerting/service.go:146-195 | at any time there is an event for a candidate exactly when its first intake was verified and could be folded; every retry is a duplicate |
| Migration.SortScripts | backend/internal/platform/migration/migration.go:86-95 | sorted strictly by version with every script kept, or an error exactly when a version repeats |
| Migration.Runner.ReadApplied | backend/internal/platform/migration/migration.go:228-249 | the applied rows by version |
| Migration.Runner.Pending | backend/internal/platform/migration/migration.go:157-175 | the scripts without a row, in order, or the checksum error |
| Migration.Runner.ApplyPending | backend/internal/platform/migration/migration.go:177-218 | one transaction per script, cut anywhere; what it leaves is what DatabaseHoldsTheFirstScripts says |
| Migration.StatementsAreTheParts | backend/internal/platform/migration/migration.go:266-277 | the statements are the non-blank parts of the text between semicolons, trimmed, in order and as often as they occur, and the parts make up the text |
| Migration.StatementsAreUnique | backend/internal/platform/migration/migration.go:266-277 | there is no other way to cut the text and list its parts |
| Migration.ApplyReaches | backend/internal/platform/migration/migration.go:177-218 | a run that starts after n scripts ends after the scripts it got to and nowhere in between: how many, and when it fails, by the cut |
| Migration.InterruptedRunsResume | backend/internal/platform/migration/migration.go:157-218 | after any cut runs the log is a prefix, a full run reaches the database of one uninterrupted run, and a further one changes nothing |
| Migration.DatabaseHoldsTheFirstScripts | backend/internal/platform/migration/migration.go:177-218 | after any cut runs the schema is the statements of the first scripts, as many as there are rows, in order and each once, and each row has the version, name and checksum of its script; a run without a cut leaves all |
| Migration.SameRowsSameDatabase | backend/internal/platform/migration/migration.go:191-207 | the number of rows determines the whole database |
| Migration.ChangedScriptsAreRefused | backend/internal/platform/migration/migration.go:169-171 | a run is refused exactly when the last row for some script's version has another checksum |
| Migration.UpgradeIsAFreshInstallExactlyWhen | backend/internal/platform/migration/migration.go:157-218 | after any runs of some scripts a run of more of them gives the database of a fresh install exactly when every applied script has kept its place |
| Migration.ChecksumChangeStopsEverything | backend/internal/platform/migration/migration.go:169-171 | a run is refused, and changes nothing, exactly when a recorded checksum differs |

## Left out

- File paths in the device record: a fresh record always gets the three default paths, so files are named by their role.
- Torn writes: a save or a secret write is never partial; it can fail, and it can take effect and still be reported as failed.
- Keys, signing requests, PEM and SHA-256: a key file parses or does not, a request can be made or not, and the hash is an arbitrary function of the canonical text.
- Failing starts of the agent other than by the content of the saved record.
- Lifecycle fields last_client_id and last_session_identifier, which depend on the order of delivery by design, and the SQL around the two upsert rules; of telemetry only its effect on last_seen_at is kept.
- Parsing, schema validation, authority resolution and the payload identity check of ingest: a request arrives with their outcome.
- Overlapping Ingest calls: looking up and recording a message are separate steps, so at-most-once is stated for calls that do not overlap.
- JSON lexing: the duplicate-key check starts from tokens, without commas and colons.
- Field trimming and JSON validity in commands and alerts: strings arrive trimmed and validity is a flag; payloads and metadata are not carried. Commands also leave out idempotency key and requesting user.
- Commands.Repository.RecordResult: the refusal of a second result is optional, so that the results also cover a repository that would take it.
- Clock readings within one operation: commands and alerts read the clock once per operation in the model.
- Alerting.Repository.SaveAlert: the index of active alerts drops a key only for the alert it names, like a partial unique index; the in-memory repository of the unit tests (backend/internal/domain/alerting/service_test.go:264-272) drops it for any alert of the key that is saved as resolved.
- Failing repositories in alerting.
- Aliasing: entries, headers and messages are values, so the copies that cloneResponse and normalizePayload make have no counterpart.
- Goroutines, tickers, timeouts and mutexes: passes and critical sections are atomic steps in some order.
- Channel and artifact registration, repository errors and the blank-request check around CompatibilityForVersion.
- Migration file names, directory reading, section parsing and the creation of schema_migrations.
- Handlers, clients, read models, notifications, recipients, backups, diagnostics, artifacts, portal and design mock: input and output, or counting and record building.
