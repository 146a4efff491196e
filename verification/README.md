# edgectl control loop, modelled and verified

The repository steers edge nodes. *Mirage* takes an issue, turns it into a plan of commands, and reconciles: one pass
picks the next pending command, takes its seed lock, sends the command to the *ghost* that owns the seed, and records
the event that comes back. Ghosts also report events on their own over framed sessions, retrying until Mirage
acknowledges them. Every message is a TLV payload in a frame with a fixed header.

The model follows the code branch by branch. Code that updates state is a class with methods; each method is proved
equal to a function on values, and what the code is for is proved about those functions: over every run of calls, every
interleaving of mutex sections, and every sequence of bytes.

| file | models |
|---|---|
| Bytes, Errors | Go's bytes, fixed-width integers, `strings.TrimSpace` byte by byte, `%d`, error values |
| Tlv, Framing, Schema, Session | the wire: fields, frames, the schema table, the four envelopes |
| WireContract | the wire's numbers, required fields, checks and error causes, stated apart from the code |
| Planning, Orchestration | issues to plans; the orchestrator's stores, mutex sections and calls |
| Accounting, Progress, Answers | runs of whole calls: exact accounts; plan order, settling, repeated events; what the calls answer |
| SeedLocks | ReconcileOnce split at its mutex sections, any number of passes interleaved |
| Ghost, GhostRuns | the execution store and pipeline; any number of pipeline calls interleaved |
| Admin, Client | the ghost's admin service; Mirage's executor over it |
| EndToEnd, Sizes | orchestrator, executor, wire and ghosts together; how large messages get |
| MirageServer, ConnectionLoop | registry with write-once acks; the connection loop over a byte stream |
| Delivery, Observation, DeliveryExact | clients, first-in first-out connections of whole frames, and Mirage, interleaved |
| Counterexamples, Unobserved | inputs on which the code does less than one may expect |
| Backoff, Outbox, MirageClient | retry delays, the outbox, and the two retry loops |

Assumptions that recur: the JSON codec of command args is exact on string maps; a seed is an arbitrary function of seed
id, operation and args, chosen anew for every call; clocks and random draws are parameters. Functions with `now`, `at`
or a clock take whatever reading the code would make.

Where documentation and code differ, the model follows the code. docs/architecture/control-loop.md line 21 says event
ingest is idempotent by `event_id`; the code compares command ids (`Progress.IngestIgnoredIff`). Desired state is stored
under the raw intent id and looked up trimmed, so results about lookups take a trimmed id. A failed step does not stop a
plan: "satisfied" means every command was observed, not that every command succeeded. An admin command frame's own
ghost id is not compared with the ghost that executes it.

## Model

| member | source | states |
|---|---|---|
| `EndToEnd.SubmittedPlanGoesThrough` | internal/mirage/orchestration.go:203-340 | Submitting an n-step plan and reconciling it n times, whatever the seeds do and the clocks say, leaves nothing pending; every step has run on its own ghost, and the event of its complete execution there is the event Mirage has observed; ghosts have run nothing else. Assumes ghosts in order, radiating and new to the plan's command ids, free seed locks, trimmed intent id, and that events and reports fit in a frame. |
| `EndToEnd.IssueIsCarriedOut` | internal/mirage/orchestration.go:424-481 | What an issue asks for is what is done: after its submission and as many passes as it has steps (one, without a plan), the ghost of every step holds a complete execution with the id, seed, operation and args the issue gives that step, defaults included, and Mirage has observed its event. |
| `EndToEnd.PlanGoesThrough` | internal/mirage/orchestration.go:269-340 | The same from any point of a plan already under way: as many passes as commands are pending finish it. |
| `EndToEnd.PassAdvances` | internal/mirage/ghost_admin_client.go:242-273 | One pass over orchestrator, executor, wire and ghost: it returns a report, exactly one command less is pending, and on its ghost exactly that command was added, complete, with the event Mirage recorded; locks are as before. |
| `EndToEnd.SubmitMakesReady` | internal/mirage/orchestration.go:203-225 | Submitting a plan whose steps can run at once puts the loop in the state PlanGoesThrough starts from, with every step pending. |
| `EndToEnd.OneExecution` | internal/ghost/server.go:265-306 | A command that has run has one execution record on its ghost, complete, with that event and with the command's intent, seed, operation and args. |
| `EndToEnd.SmallTextsTravel` | internal/mirage/orchestration.go:484-515 | The size assumption holds whenever texts are at most 400000 bytes long and the plan has at most 10000 steps. |
| `EndToEnd.PassAnswersIff` | internal/ghost/server.go:178-229 | A pass that hands the next command to its ghost, everything fitting in frames, returns a report if and only if the ghost has not seen the command id before. |
| `EndToEnd.SeenCommandSticks` | internal/mirage/orchestration.go:269-340 | When the ghost has seen the next command id, Mirage's stores stay as they are over any number of passes, and every further pass fails. |
| `EndToEnd.ResubmissionSticks` | internal/mirage/orchestration.go:203-225 | The end-to-end property fails on resubmission, because command ids are reused: a plan that was submitted, went through and is submitted again keeps all its steps pending over any number of passes. |
| `Counterexamples.SmallLaunch` | internal/mirage/orchestration.go:203-225 | The assumptions of the end-to-end theorem are met by a booted orchestrator, one radiating ghost and an issue of any number of steps up to a thousand. |
| `Client.ExecutorContract` | internal/mirage/ghost_admin_client.go:106-134 | Over a transport to a ghost service, ExecuteCommand returns exactly the event the ghost stored for the command, or the ghost's refusal, or an error when command or event is too large for a frame; the service runs the command once. |
| `Client.ExecutorEchoes` | internal/mirage/ghost_admin_client.go:241-273 | The executor answers every trimmed command id with an event for that command id. |
| `Client.GhostAdminCommandExecutor.ExecuteCommand` | internal/mirage/ghost_admin_client.go:242-273 | Trims, calls, fills in empty event fields and validates, for any transport. |
| `Client.GhostControlClient.ExecuteAdminCommand` | internal/mirage/ghost_admin_client.go:106-134 | Encodes the command, sends the frame, reads and decodes the answer, for any transport. |
| `Client.ExecutorFillsIn` | internal/mirage/ghost_admin_client.go:242-273 | Over any transport the executor answers with the event it was sent, what that left empty taken from the command, or with the first error, a field blank even so included. |
| `Client.RequestsAreTrimmed` | internal/mirage/ghost_admin_client.go:106-120 | A request goes out trimmed, to ghost.local when it names no ghost. |
| `Accounting.ExactAccounting` | internal/mirage/orchestration.go:549-560 | Over every run of whole calls: ByCommandID holds only planned ids, Events has one entry per key, and pending plus observed is the length of the plan. |
| `Accounting.AccountsFromBoot` | internal/mirage/orchestration.go:156-163 | The same from a new orchestrator, per intent: its events are for different commands of its plan, and all others are pending. |
| `Accounting.OneEntryPerKey` | internal/mirage/orchestration.go:331-333 | When the index is as large as the event list, every event is indexed under its own id and no two events share a command. |
| `Accounting.RecordConsistentIff` | internal/mirage/orchestration.go:331-333 | Recording an event keeps the accounts if and only if its command is planned and not yet observed. |
| `Accounting.Verdict` | internal/mirage/orchestration.go:484-515 | An event's report says satisfied if and only if it closes the last pending command with a non-error outcome, failed if and only if its outcome is error; it names the event's intent, command, id and outcome. |
| `Accounting.ReconcileKeeps` | internal/mirage/orchestration.go:269-340 | A pass keeps the accounts, the plans, and every other intent's observed state, whatever the executor does beyond echoing trimmed command ids. |
| `Accounting.ReconcileCloses` | internal/mirage/orchestration.go:269-340 | A pass that dispatches and reports has observed the executor's event for that very command, one command less is pending, and the report says satisfied exactly at the last non-error one. |
| `Accounting.IngestCloses` | internal/mirage/orchestration.go:343-373 | A newly matched ingested event takes one command off the pending ones, and its report says satisfied exactly at the last non-error one, failed exactly for an error. |
| `Accounting.ReportableIff` | internal/mirage/orchestration.go:389-421 | An event can be reported on if and only if it is a valid message that fits in a frame and its report fits in one. |
| `Answers.PassesTellTheTruth` | internal/mirage/orchestration.go:269-340 | Whatever a pass answers is the intent's latest report and true of the stores it leaves: it names the intent, says satisfied only with nothing pending, and says complete whenever nothing is. |
| `Answers.TurnedAway` | internal/mirage/orchestration.go:285-299 | When the first command not observed is blocking and another command holds its lock, something is pending, the pass answers in progress for that intent and that command, and the answer is all it adds to the stores. |
| `Accounting.BlockedSays` | internal/mirage/orchestration.go:609-619 | That answer in full, with the holder of the lock. |
| `Answers.PassEnds` | internal/mirage/orchestration.go:300-340 | How a pass that can pick its next command ends: without executor it keeps the lock; a command that cannot travel, an executor's error, an event or report that cannot travel give the lock back and record nothing; else the event is recorded. |
| `Answers.UnknownIntent` | internal/mirage/orchestration.go:269-277 | A pass over an intent never submitted fails and changes nothing. |
| `Answers.IngestTellsTheTruth` | internal/mirage/orchestration.go:343-373 | The same for whatever ingest answers, repeated events included. |
| `Answers.IngestEnds` | internal/mirage/orchestration.go:343-373 | How ingest ends: no owner, nothing changes; a command already observed, the latest report; an event that cannot be reported on, its error and nothing recorded; a new one, recorded with its report, and the lock of its blocking command is free. |
| `Answers.ReportSays` | internal/mirage/orchestration.go:484-515 | The words of a report: failed, satisfied, or how many of how many commands are done, in terms of the commands still pending. |
| `Answers.SnapshotExact` | internal/mirage/orchestration.go:246-266 | There is a snapshot if and only if the trimmed id is stored; its pending count and the recorded events add up to the plan; it is 0 if and only if every command has an event. |
| `Answers.SnapshotCountsDown` | internal/mirage/orchestration.go:203-266 | From a submission, over every run of whole calls without another, the snapshot starts at the plan's length and every event recorded takes off exactly one. |
| `Answers.SubmitAcceptsIff` | internal/mirage/orchestration.go:203-225 | A submission is refused if and only if a text of the issue, a step's ghost, seed or operation, or without a plan the target's ghost is missing; then nothing changes. Else the issue is stored, stamped when it bears no time, and no other intent is touched. |
| `Answers.RegisterBinds` | internal/mirage/orchestration.go:188-200 | Registering binds the trimmed id and nothing else; a blank one is refused. |
| `Answers.PassesAreKept` | internal/mirage/server.go:247-254 | The server's report list gains exactly the answers of passes, each true of the stores at that point. |
| `Answers.EventsAreKept` | internal/mirage/server.go:267-274 | And exactly the reports on matched events, each true too. |
| `Answers.Words` | internal/mirage/orchestration.go:24-34 | The words of phases, completion states and outcomes; ghosts and Mirage use the same outcomes. |
| `Answers.IDForms` | internal/mirage/orchestration.go:467 | cmd.<sanitised intent id>.<step>, exec.<command id> and evt.<command id>. |
| `Accounting.IngestKeeps` | internal/mirage/orchestration.go:343-373 | Ingesting an event keeps the accounts; a match means its command is observed; other intents are untouched. |
| `Progress.ProgressIsKept` | internal/mirage/orchestration.go:532-560 | Over every run without a resubmission the plan stays, observed commands stay observed, and the number of pending commands never grows. |
| `Progress.PlanOrderFromSubmission` | internal/mirage/orchestration.go:203-340 | From a submission, over every run of whole calls without ingest for or resubmission of the intent, the recorded events are those of the first commands of the plan, in plan order, one each. |
| `Progress.PlanOrder` | internal/mirage/orchestration.go:532-546 | The same from any state of an intent that is in plan order. |
| `Progress.PassesFollowPlan` | internal/mirage/orchestration.go:532-546 | With ingest allowed, in any order: every event a reconcile pass records stands after the events of all earlier commands of its plan, and is the first of its own command. |
| `Progress.SettledForever` | internal/mirage/orchestration.go:278-283 | Once nothing is pending, every further ReconcileOnce, whatever runs in between short of a resubmission, returns the same phase-complete report and changes nothing. |
| `Progress.SettledReconcile` | internal/mirage/orchestration.go:518-529 | Reconciling a settled intent returns its last report, which is phase-complete, and leaves the stores as they are. |
| `Progress.ReplayChangesNothing` | internal/mirage/orchestration.go:343-373 | After any run without a resubmission, an event for a command that was matched before is matched again and changes no store at all. |
| `Progress.IngestIgnoredIff` | internal/mirage/orchestration.go:353-359 | Ingest leaves what an intent has observed alone if and only if the command is observed, or the event is no valid message, or its report does not fit; any other event is recorded, also under an event id recorded before. So the event id plays no part. |
| `Progress.EventsAreFirstOffers` | internal/mirage/orchestration.go:343-373 | Over every run without a resubmission, of all events ingest matches and passes come back with, an intent has recorded the first for each command, in order, and nothing else. |
| `Progress.EventIDsOnceIff` | internal/mirage/orchestration.go:343-373 | Over every run without a resubmission: recorded event ids are pairwise different if and only if no two events, each the first offered for its command, come under one event id. |
| `Progress.NamedEventsOnce` | internal/mirage/orchestration.go:331-333 | When event ids determine command ids, as those of ghosts do, events are recorded once per event id. |
| `Counterexamples.OneEventIDTwice` | internal/mirage/orchestration.go:353-359 | Two commands of one plan, two events under one event id: both are recorded and both count. |
| `Accounting.IngestKeepsIff` | internal/mirage/orchestration.go:633-644 | The lookup trims the command id and the stores do not: a newly recorded event keeps the accounts if and only if its command id came in trimmed. |
| `Accounting.OwnerUnique` | internal/mirage/orchestration.go:633-644 | A command id determines the intent and plan entry that own it, for intents with different sanitised ids. |
| `Accounting.LookupDeterminedIff` | internal/mirage/orchestration.go:633-644 | The lookup over the unordered map has one right answer for every command id, whatever order intents are visited in, if and only if no two intents have the same sanitised id. |
| `Accounting.LookupDetermined` | internal/mirage/orchestration.go:633-644 | For one command id: two right answers are the same answer when sanitised ids differ. |
| `Accounting.CollidingIntents` | internal/mirage/orchestration.go:584-589 | Submitting intents a/b and a.b to any store leaves a lookup with two right answers, one in each plan. |
| `Accounting.NonePendingIff` | internal/mirage/orchestration.go:532-560 | PendingCount is 0 if and only if every command is observed, if and only if there is no next command. |
| `Planning.CommandIDInjective` | internal/mirage/orchestration.go:467 | cmd.<id>.<k> determines the sanitised intent id and the step number, for every id and number. |
| `Planning.PlanIDsDistinct` | internal/mirage/orchestration.go:459-481 | Command ids are unique within a plan. |
| `Planning.PlanHasShape` | internal/mirage/orchestration.go:424-481 | Every stored plan is non-empty, its k-th step has id cmd.<id>.<k>, the intent's id, trimmed and non-blank texts, and the lock key of its ghost and seed. |
| `Planning.SanitizeID` | internal/mirage/orchestration.go:584-589 | As long as the trimmed id, spaces and slashes turned into dots, every other byte kept. |
| `Planning.TargetNamesGhost` | internal/mirage/orchestration.go:577-581 | A target names a ghost by its id, with or without ghost: and a space before it. |
| `Planning.LockKeyIdentifiesIff` | internal/mirage/orchestration.go:604-606 | A lock key belongs to one ghost and seed if and only if there is one place where it can be cut at a separator into two trimmed, non-blank texts. |
| `Planning.StepLockIdentifiesIff` | internal/mirage/orchestration.go:604-606 | The same for steps of stored plans: a step shares its lock with no step for another ghost or seed if and only if its key can be cut in one place only. |
| `Planning.LockKeysCollide` | internal/mirage/orchestration.go:604-606 | a with b::c and a::b with c have one key. |
| `Planning.NormalizeIssueToCommands` | internal/mirage/orchestration.go:424-456 | Yields the plan the issue specifies, or the error of its first failing check. |
| `Planning.PlanCommandsFromIssue` | internal/mirage/orchestration.go:459-481 | An explicit plan is taken step by step and in order, unless a step is invalid. |
| `Orchestration.NextPendingCommand` | internal/mirage/orchestration.go:532-546 | The first command in plan order that has not been observed. |
| `Orchestration.PendingCommandCount` | internal/mirage/orchestration.go:549-560 | Counts the commands not yet observed. |
| `Orchestration.Orchestrator.SubmitIssue` | internal/mirage/orchestration.go:203-225 | Stores the plan under the raw intent id and forgets what was observed for it; a rejected issue changes nothing. |
| `Orchestration.Orchestrator.RegisterExecutor` | internal/mirage/orchestration.go:188-200 | Binds the trimmed ghost id. |
| `Orchestration.Orchestrator.SnapshotIntent` | internal/mirage/orchestration.go:246-266 | Looks the trimmed id up and reports its pending count. |
| `Orchestration.Orchestrator.BeginReconcile` | internal/mirage/orchestration.go:269-304 | First mutex section: settles, blocks with a report, or takes the lock and picks the next command; a missing executor leaves the lock taken. |
| `Orchestration.Orchestrator.FinishReconcile` | internal/mirage/orchestration.go:318-340 | Second mutex section: records event and report and drops the lock, or changes nothing but the entry's existence. |
| `Orchestration.Orchestrator.ReconcileOnce` | internal/mirage/orchestration.go:269-340 | Both sections around the dispatch through the wire and the executor, every error path releasing only its own lock. |
| `Orchestration.Orchestrator.IngestObservedEvent` | internal/mirage/orchestration.go:343-373 | Records the event under the owner some order of the lookup finds, or answers a repetition with the latest report. |
| `Orchestration.Orchestrator.FindPlannedCommandByCommandID` | internal/mirage/orchestration.go:633-644 | Finds an owner if and only if there is one, for every order of visiting the map. |
| `Orchestration.Orchestrator.ReleaseSeedLock` | internal/mirage/orchestration.go:647-657 | Drops the lock only if intent and command own it. |
| `Orchestration.Orchestrator.DispatchCommandEnvelope` | internal/mirage/orchestration.go:376-386 | A command comes back from the wire unchanged, or is refused for being invalid or too large. |
| `Orchestration.Orchestrator.IngestEventEnvelopeAndBuildReport` | internal/mirage/orchestration.go:389-421 | Event and report go through the wire: the event unchanged, the report with trimmed ids, or the first thing that cannot travel. |
| `SeedLocks.SeedLockExclusion` | internal/mirage/orchestration.go:285-340 | Over every interleaving of the mutex sections with one pass per intent and no ingest, every blocking command that is out holds its lock, so two different ones for one ghost and seed are never out together. |
| `SeedLocks.LockTableExact` | internal/mirage/orchestration.go:285-340 | With every planned ghost registered the lock table is at every point exactly the blocking commands in flight. |
| `SeedLocks.BeginStrandsIff` | internal/mirage/orchestration.go:300-304 | A pass leaves a lock without an owner in flight if and only if the next pending command is blocking, its lock is free or its own, and its ghost has no executor. |
| `SeedLocks.StrandedForever` | internal/mirage/orchestration.go:300-304 | A stranded lock stays over every interleaving that registers no executor for the ghost, does not submit the intent again and ingests no event of the intent or for another blocking command of that ghost and seed; no blocking command for that ghost and seed goes out again, of whatever intent. |
| `SeedLocks.IngestStealsIff` | internal/mirage/orchestration.go:369-371 | Ingest takes a lock from a pass in flight if and only if it newly records a blocking command of the same ghost and seed. |
| `SeedLocks.StolenLockBreaksExclusion` | internal/mirage/orchestration.go:369-371 | From any state in order: after the ingest of the event of a blocking command in flight, the pass of another intent whose next command blocks on the same seed goes out too, and two conflicting commands are out together. |
| `Counterexamples.LockStolenByIngest` | internal/mirage/orchestration.go:369-371 | Such a run from the empty orchestrator. |
| `SeedLocks.FinishStealsIff` | internal/mirage/orchestration.go:335-337 | A pass that finishes takes the lock of another pass in flight if and only if that pass has a conflicting command, which takes two passes over one intent. |
| `Counterexamples.LockLostToTwin` | internal/mirage/orchestration.go:335-337 | Such a run from the empty orchestrator. |
| `GhostRuns.AtMostOnce` | internal/ghost/pipeline.go:15-86 | Under every interleaving of accept, run and complete of any number of calls, Seed.Execute is called at most once per command id, lookups agree, records keep their identity and only go from accepted to complete, and no call fails a validation after acceptance. |
| `GhostRuns.OnceFromBoot` | internal/ghost/server.go:77-85 | From a new ghost through its lifecycle and any calls: no two invocations are for one command, and each command run is on record and found by its message id. |
| `GhostRuns.InterleavedEndsComplete` | internal/ghost/pipeline.go:15-49 | An accepted command whose call runs and completes ends complete, with the valid event the call returns, whatever is interleaved. |
| `Ghost.NothingFailsAfterAcceptance` | internal/ghost/pipeline.go:52-151 | Every validation after acceptance passes if and only if the clock is positive; the event carries the record's ids and the clock's time and says success if and only if the seed resolved, returned no error, exited 0 and its normalised status is ok. |
| `Ghost.AcceptedEndsComplete` | internal/ghost/pipeline.go:15-49 | A command is refused if and only if one of the intake checks fails, then nothing changes; else exactly one record is added, complete, with the valid event returned. |
| `Ghost.FailureIsStored` | internal/ghost/pipeline.go:63-133 | When the seed of an accepted command is not found or returns an error, the stored record has outcome and status error, an exit code other than 0 and a message on stderr; a seed that ran has its stdout, non-empty stderr and non-zero exit code stored unchanged; the record holds the request the seed was given. |
| `Ghost.FailuresShow` | internal/ghost/pipeline.go:63-133 | The texts, exit codes and statuses of failed resolutions, erring seeds and seeds that ran. |
| `Ghost.AcceptsIff` | internal/ghost/server.go:178-229 | A command is accepted if and only if its envelope is valid, the ghost radiates, it is addressed to it, and neither its trimmed command id nor its message id is on record. |
| `Ghost.RefusalsMean` | internal/ghost/server.go:178-229 | Each refusal names a condition that fails. |
| `Ghost.LifecycleInOrder` | internal/ghost/server.go:88-151 | Over every sequence of lifecycle calls the phase moves on by one for each that succeeds, three at most; id and registry stay once given, and no execution is touched. |
| `Ghost.LifecycleSteps` | internal/ghost/server.go:88-151 | Each lifecycle call succeeds in the phase before its own and no other, or names what is wrong and changes nothing. |
| `Ghost.RunSeedValid` | internal/ghost/pipeline.go:63-133 | A seed result is always valid, carries the resolved seed's id, and is ok with exit code 0 exactly under those conditions. |
| `Ghost.LookupsAgree` | internal/ghost/server.go:265-306 | Whatever record one of the three lookups finds, the other two find, and no other record has its message id. |
| `Ghost.HandleAgrees` | internal/ghost/server.go:178-229 | Intake keeps the maps in agreement, adds exactly the record of an accepted command, and leaves a rejected one without trace. |
| `Ghost.FinishAgrees` | internal/ghost/server.go:232-262 | Completion replaces only the terminal fields of one record and keeps the maps in agreement. |
| `Ghost.ExecutionIDInjective` | internal/ghost/execution.go:49-51 | Execution ids determine trimmed command ids. |
| `Ghost.EventIDInjective` | internal/ghost/envelopes.go:104-106 | Event ids determine trimmed command ids. |
| `Ghost.Server.HandleCommand` | internal/ghost/server.go:178-229 | Intake in its order of checks, on all three maps. |
| `Ghost.Server.CompleteExecution` | internal/ghost/server.go:232-262 | Completion of whatever record the store holds by then; none, no change. |
| `Ghost.Server.HandleCommandAndExecute` | internal/ghost/pipeline.go:15-49 | The pipeline from intake to the stored event, stopping at the first invalid stage. |
| `Ghost.Server.Appear` | internal/ghost/server.go:88-108 | Boot to appeared, with a trimmed non-blank id, and in no other phase. |
| `Ghost.Server.Seed` | internal/ghost/server.go:127-151 | Appeared to seeded, with a registry, and in no other phase. |
| `Ghost.Server.Radiate` | internal/ghost/server.go:111-124 | Seeded to radiating, and in no other phase. |
| `Ghost.Server.GetExecution` | internal/ghost/server.go:265-274 | Lookup by trimmed execution id. |
| `Ghost.Server.ExecutionByCommandID` | internal/ghost/server.go:282-291 | Lookup by trimmed command id. |
| `Ghost.Server.ExecutionByMessageID` | internal/ghost/server.go:294-306 | Lookup by message id, through the command map. |
| `Admin.LogsExact` | internal/ghost/admin_control.go:68-123 | Over any run of admin calls shorter than the message sequence: a fresh message id each, one complete execution per accepted command, two aligned logs that only grow and list exactly those executions in message order. |
| `Admin.CustodyTraced` | internal/ghost/admin_control.go:102-122 | The message id of a verification record leads to the complete execution whose event stands beside it in the other log, and the record agrees with both. |
| `Admin.ExecuteStep` | internal/ghost/admin_control.go:68-123 | A refused admin command only uses up a message id; an accepted one adds one complete execution, its event to one log and its verification record to the other. |
| `Admin.RejectedIff` | internal/ghost/admin_control.go:68-96 | An admin command is accepted if and only if the ghost radiates, seed and operation are not blank, and its id, or cmd.<ghost>.<message number> when it brings none, is new. |
| `Admin.UnnamedAllRun` | internal/ghost/admin_control.go:68-123 | Over every run of commands without ids on a radiating ghost each is accepted and executed once, its command, request and trace ids carrying the number of its message; assuming no command on record has an id the ghost may still give out. |
| `Admin.UnnamedAllDiffer` | internal/ghost/admin_control.go:68-123 | So no two of them share a command, request or trace id. |
| `Admin.NumberedReads` | internal/ghost/admin_control.go:76-81 | A numbered id starts with its prefix and the ghost's id and gives back ghost and number. |
| `Admin.MessageIDFreshIff` | internal/ghost/admin_control.go:73 | The next message id is usable if and only if the sequence has not reached its last value. |
| `Admin.ServeFramed` | internal/ghost/admin_control.go:283-318 | A framed command is executed as if handed over directly, and its event is framed under the same message id. |
| `Admin.Service.ExecuteAdminCommand` | internal/ghost/admin_control.go:68-123 | Fills in missing ids from the sequence, runs the pipeline, appends to both logs. |
| `Admin.Service.ExecuteAdminCommandEnvelope` | internal/ghost/admin_control.go:283-318 | Frame in, frame out, with every decoding and encoding error. |
| `Observation.AnsweredMeansObserved` | internal/ghost/mirage_client.go:251-341 | Over every run of sends, retries, stale acks, timeouts, disconnects, re-registrations, submissions and reconciles: whatever call is answered, every plan watched before that has the command has observed exactly one event for it. |
| `Observation.SubmittedIsWatched` | internal/mirage/orchestration.go:203-225 | A plan submitted at any point of the run is watched from then on if no ack for one of its commands is on its way and the events on their way or being sent for its commands can be reported on. Earlier answers do not matter. |
| `DeliveryExact.DeliverySoundIff` | internal/ghost/mirage_client.go:251-341 | That is exact. For a plan just submitted, events under way fitting in a report and every command having an event that can be sent and reported on: in every run whatever is answered from here on for one of its commands has been observed, if and only if no ack for one of its commands is on its way on any connection. |
| `Unobserved.SmallPlansReportable` | internal/mirage/orchestration.go:484-515 | Every command has such an event in plans of at most 10000 steps with ids of at most 400000 bytes. |
| `Observation.DeliveryFromBoot` | internal/mirage/service.go:456-506 | From boot: for a plan that was clear at its submission, every later answer for one of its commands means exactly one observed event. |
| `Unobserved.StaleAckAnswers` | internal/ghost/mirage_client.go:284-341 | A run of the failing kind from boot, for every event, ghost and issue: the event is sent twice before its plan is submitted, the ack left behind answers the call made after the submission, and nothing has been observed. |
| `Unobserved.AnsweredNotObserved` | internal/ghost/mirage_client.go:284-341 | Such a run of one ghost and one small issue: planned, answered, not observed. |
| `Delivery.AnsweredMeansStored` | internal/ghost/mirage_client.go:313-341 | Over every run at all, a call that returned an ack returned the accepted ack Mirage stores for that ghost and event id. |
| `Delivery.AnswerTellsTheFirst` | internal/mirage/server.go:205-234 | Over every run: the ack a call returned names the ghost it came from and the command and time of the first event Mirage accepted from that ghost under that event id, with status accepted and code 0. |
| `Delivery.TravelsAsGiven` | internal/ghost/mirage_client.go:251-283 | An event with trimmed texts travels as it is, stamped only when it bears no time. |
| `Delivery.NothingLostWhileOpen` | internal/mirage/service.go:456-506 | Over every run at all: while a connection is served, the events written are in order the acks read, the acks in flight and the events in flight; afterwards acks read and in flight answer the oldest events. |
| `Delivery.ExactlyOnceEffect` | internal/mirage/server.go:205-234 | Over every run at all, a ghost's EventCount (mod 2^64) is the number of distinct event ids accepted from it, and stored acks are under exactly those ids. |
| `Delivery.EffectFromBoot` | internal/mirage/server.go:205-234 | From boot: EventCount is the number of distinct event ids accepted (mod 2^64), and every answered event is one of those counted. |
| `Delivery.RunIsPiped` | internal/mirage/service.go:456-506 | The invariant behind these two, kept by every step; stored acks stay as they are. |
| `Observation.AcknowledgedIsObservedIff` | internal/mirage/service.go:476-495 | Acknowledged does not mean observed: an event of a planned, unobserved command is acknowledged in any case, and observed if and only if it is a valid message and its report fits in a frame. |
| `Observation.BlankFieldsDecode` | internal/protocol/session/eventwire.go:114-138 | An event with blank fields passes the decoder: it checks presence and type only. |
| `Unobserved.BlankFieldUnobserved` | internal/mirage/service.go:476-495 | First cause: an event of a planned command with a blank seed id is read, acknowledged and not observed. |
| `Unobserved.LargeReportUnobserved` | internal/mirage/service.go:476-495 | Second cause: an event that can be sent, whose report is too large for a frame. |
| `MirageServer.CountIsDistinct` | internal/mirage/server.go:159-234 | Registrations, re-registrations, disconnects and repeated events keep EventCount equal to the number of distinct event ids. |
| `MirageServer.AcksWriteOnce` | internal/mirage/server.go:219-233 | A stored ack never changes over any run, and answers every repetition. |
| `MirageServer.AcksTellTheFirst` | internal/mirage/server.go:205-234 | Over every run from an empty registry: an ack is stored for a ghost and an event id if and only if such an event was accepted, and it bears the first one's ghost, command and time, status accepted, code 0. |
| `MirageServer.ConnectionShown` | internal/mirage/server.go:159-202 | Over every run a ghost shows as connected if and only if its latest registration has not been followed by a disconnect, under that registration's address. |
| `MirageServer.TimesKept` | internal/mirage/server.go:159-234 | The first registration sets the registration time for good; only a new event sets the last event time. |
| `MirageServer.LifecycleInOrder` | internal/mirage/server.go:89-124 | Over every sequence of lifecycle calls the phase moves on by one for each that succeeds, three at most; the id stays once given; nothing else is touched. |
| `MirageServer.LifecycleSteps` | internal/mirage/server.go:89-124 | Each lifecycle call succeeds in the phase before its own and no other, or names what is wrong and changes nothing. |
| `MirageServer.ReplayOnlyReports` | internal/mirage/server.go:267-274 | A repeated event leaves the orchestrator as it is but adds one report to the server's list. |
| `MirageServer.Server.AcceptEvent` | internal/mirage/server.go:205-234 | First event under an id: ack stored and counted; later ones: the stored ack. |
| `MirageServer.Server.UpsertRegistration` | internal/mirage/server.go:159-190 | Keeps counters, acks and first registration time of a known ghost. |
| `MirageServer.Server.MarkGhostDisconnected` | internal/mirage/server.go:193-202 | Clears connection state and nothing else. |
| `MirageServer.Server.ObserveEvent` | internal/mirage/server.go:267-274 | Ingests the event and appends the report of a match. |
| `MirageServer.Server.ReconcileIntent` | internal/mirage/server.go:247-254 | Runs one pass and appends its report. |
| `MirageServer.Server.RecentReports` | internal/mirage/server.go:277-288 | The last reports, all of them without a positive limit. |
| `MirageServer.Server.Appear` | internal/mirage/server.go:89-102 | Boot to appeared, and in no other phase. |
| `MirageServer.Server.Shimmer` | internal/mirage/server.go:105-113 | Appeared to shimmer, and in no other phase. |
| `MirageServer.Server.Seed` | internal/mirage/server.go:116-124 | Shimmer to seeded, and in no other phase. |
| `ConnectionLoop.HandleConn` | internal/mirage/service.go:456-506 | For whatever bytes arrive: the registry, the frames written, the events served and the orchestrator's stores when the loop ends. |
| `ConnectionLoop.Turn` | internal/mirage/service.go:456-506 | One turn: read, observe, accept, acknowledge, in that order, with every way to leave the loop. |
| `ConnectionLoop.LoopCounts` | internal/mirage/service.go:456-506 | Whatever bytes arrive, the loop counts distinct event ids, changes no stored ack and no other ghost. |
| `ConnectionLoop.StreamServed` | internal/mirage/service.go:456-506 | Events framed back to back are served one by one in order, all of them when their acks can be framed. |
| `MirageClient.MirageSession.SendEventWithAck` | internal/ghost/mirage_client.go:251-310 | If the clock advances by each slept delay there are at most floor(AckTimeout/d)+2 tries; each sends the same event under the next message id; the call ends at the first ack for it, after the deadline, or cancelled; the event stays in the outbox exactly when no ack was read, as it was queued and with two marks for every try. |
| `MirageClient.TriesBounded` | internal/ghost/mirage_client.go:284-309 | A try that fails inside the deadline leaves room for one more, never beyond the bound. |
| `MirageClient.MirageSession.SendEventOnce` | internal/ghost/mirage_client.go:313-341 | One frame out, one frame in; only an ack for this event id counts. |
| `MirageClient.ConnectAndRegister` | internal/ghost/mirage_client.go:75-103 | Dials until the first attempt that succeeds, is rejected, is the last allowed or is cancelled; at most MaxConnectAttempts times when that is positive. |
| `Backoff.DelaysMonotoneIff` | internal/protocol/session/backoff.go:10-32 | Unjittered delays never decrease if and only if the initial delay does not exceed a positive maximum. |
| `Backoff.DelaysMultiply` | internal/protocol/session/backoff.go:10-32 | Exponential: unjittered and with a whole multiplier every delay is that many times the one before while that is within a positive maximum, and the maximum from then on. |
| `Backoff.DelaysScale` | internal/protocol/session/backoff.go:10-32 | With any multiplier, one below 1 counting as 1, the same up to the rounding. |
| `Backoff.JitterScales` | internal/protocol/session/backoff.go:24-30 | A jittered delay is the unjittered one times half to one and a half, as the draw says, up to the rounding. |
| `Backoff.DelaysCappedIff` | internal/protocol/session/backoff.go:10-32 | Unjittered delays never exceed a positive maximum if and only if the initial one does not. |
| `Backoff.JitterCappedIff` | internal/protocol/session/backoff.go:24-30 | Jitter comes after the cap: from the second attempt on no draw takes the delay above a positive maximum if and only if one and a half times the unjittered delay is at most the maximum plus one. |
| `Backoff.JitterBound` | internal/protocol/session/backoff.go:24-30 | A jittered delay is always less than one and a half times the unjittered one, and so than one and a half times a positive maximum. |
| `Backoff.JitterExceedsCap` | internal/protocol/session/backoff.go:24-30 | A draw of 0.75 takes a delay capped at 500 to 625. |
| `Backoff.DelayAtLeast` | internal/protocol/session/backoff.go:10-32 | No delay, jittered or not, is below half of the smaller of initial delay and positive maximum, rounded down. |
| `Outbox.ListingDetermined` | internal/protocol/session/outbox.go:80-91 | Two listings of one outbox are equal, whatever order the map was visited in. |
| `Outbox.LessMeans` | internal/protocol/session/outbox.go:80-91 | The order of listings: a proper prefix first, else the smaller byte at the first difference. |
| `Outbox.AttemptsCounted` | internal/protocol/session/outbox.go:36-68 | Over every run from an empty box: an event is in it if and only if it was put in and not taken out since, as it was put in, with one attempt more for every mark since then. |
| `Outbox.MarkShows` | internal/protocol/session/outbox.go:47-60 | A mark sets time and trimmed error of the latest attempt and touches no other event. |
| `Outbox.EventOutbox.List` | internal/protocol/session/outbox.go:80-91 | Every pending event once, in bytewise event id order. |
| `Outbox.EventOutbox.Upsert` | internal/protocol/session/outbox.go:36-44 | Inserts or replaces under the trimmed id; a blank id is ignored. |
| `Outbox.EventOutbox.MarkAttempt` | internal/protocol/session/outbox.go:47-60 | Counts an attempt on an event that is in the box, and on no other. |
| `Outbox.EventOutbox.Remove` | internal/protocol/session/outbox.go:63-68 | Removes under the trimmed id. |
| `Outbox.EventOutbox.Get` | internal/protocol/session/outbox.go:71-77 | Looks up under the trimmed id. |
| `Framing.NeverMisread` | internal/protocol/frame/frame.go:67-198 | Under the default limits and before any tail, a written frame is read back normalised, leaving the tail, if and only if auth is at most 65503 bytes and magic and version are zero or current; else it is rejected. |
| `Framing.LongAuthIsRejected` | internal/protocol/frame/frame.go:165 | Auth blocks of 65504 to 65536 bytes pass the writer's limit, wrap header_len and are rejected by the reader. |
| `Framing.AcceptedReencodes` | internal/protocol/frame/frame.go:67-243 | Accepted bytes re-encode to exactly the bytes consumed if and only if the has_auth bit agrees with the auth bytes. |
| `Framing.AcceptedShape` | internal/protocol/frame/frame.go:67-132 | What acceptance says about header, lengths, limits and the bytes consumed. |
| `Framing.SelfDelimiting` | internal/protocol/frame/frame.go:67-198 | k written frames followed by any tail are read back as exactly those k frames, leaving exactly the tail. |
| `Framing.HeaderReadsBack` | internal/protocol/frame/frame.go:201-243 | Header bytes decode to the header. |
| `Framing.HeaderWritesBack` | internal/protocol/frame/frame.go:201-243 | 32 bytes are the encoding of the header they decode to. |
| `Framing.EncodeHeader` | internal/protocol/frame/frame.go:201-212 | Fills the buffer at the contract's offsets, big-endian. |
| `Framing.DecodeHeader` | internal/protocol/frame/frame.go:215-243 | The header, or the first of length, magic, version and flags that is wrong. |
| `Framing.ReadFrame` | internal/protocol/frame/frame.go:67-132 | The frame or the first failing check, and exactly the bytes consumed. |
| `Framing.WriteFrame` | internal/protocol/frame/frame.go:135-198 | The frame with its header filled in, or an error and nothing written. |
| `WireContract.FrameNumbers` | internal/protocol/frame/frame.go:13-65 | Magic, version, known flags, and the default limits of 64 KiB and 8 MiB. |
| `WireContract.HeaderPlaces` | internal/protocol/frame/frame.go:201-243 | Where in the 32 bytes each header field is. |
| `WireContract.BytePlaces` | internal/protocol/frame/frame.go:201-212 | Which digit of an integer each of its bytes is, the most significant first. |
| `WireContract.HeaderFilledIn` | internal/protocol/frame/frame.go:135-198 | A frame read back has the caller's ids and upper flags, current magic and version, the lengths of what follows, and an auth bit that says whether there is auth. |
| `WireContract.FrameErrorsMean` | internal/protocol/frame/frame.go:67-132 | Each error of reading names a condition the bytes fail. |
| `WireContract.WriteErrorsMean` | internal/protocol/frame/frame.go:135-198 | A frame is written if and only if auth and payload are within the limits and no unknown flag is set; each error names what fails. |
| `Tlv.DecodeUndoesEncodeIff` | internal/protocol/tlv/tlv.go:48-83 | Decoding an encoding gives the same ordered list if and only if every value is shorter than 2^32 bytes and no length check is upset by the cut to 32 bits, at any length. |
| `Tlv.ParseUndoesEncode` | internal/protocol/tlv/tlv.go:48-83 | So it does for values and payloads below 2^32 bytes, unknown ids and duplicates kept. |
| `Tlv.LargePayloadRefused` | internal/protocol/tlv/tlv.go:60-62 | A payload of 2^32 bytes and more that the encoder writes and the decoder refuses. |
| `Tlv.EncodeUndoesParse` | internal/protocol/tlv/tlv.go:48-72 | Whatever is accepted, at any length, is the encoding of the list returned. |
| `Tlv.DecodesIffEncodes` | internal/protocol/tlv/tlv.go:48-83 | Below 2^32 bytes a payload decodes to a list if and only if it is its encoding. |
| `Tlv.EncodingInjective` | internal/protocol/tlv/tlv.go:75-83 | Two lists with one encoding are one list. |
| `Tlv.DecodeFields` | internal/protocol/tlv/tlv.go:48-72 | The cursor loop terminates and never reads out of bounds, at any length. |
| `Tlv.EncodeFields` | internal/protocol/tlv/tlv.go:75-83 | The fields' bytes in order. |
| `Tlv.EncodeField` | internal/protocol/tlv/tlv.go:37-45 | Id, type, 32-bit length, value, in one buffer. |
| `Tlv.GetFieldFirst` | internal/protocol/tlv/tlv.go:86-96 | GetField is the first match. |
| `WireContract.FieldPlaces` | internal/protocol/tlv/tlv.go:37-45 | Where id, type, length and value of a field are. |
| `WireContract.ParseErrorsMean` | internal/protocol/tlv/tlv.go:48-72 | When a payload is refused, it is some whole fields and then fewer bytes than a field header has, or fewer than the header asks for. |
| `Schema.ViolationFrom` | internal/protocol/schema/schema.go:133-163 | No complaint if and only if every requirement is met. |
| `Schema.FirstMissNamed` | internal/protocol/schema/schema.go:133-163 | The error names the first requirement, in table order, that is missed, and how. |
| `WireContract.ValidIff` | internal/protocol/schema/schema.go:79-163 | A message passes if and only if its type is known and the first field under each required number has the required type; the numbers and types are listed apart from the code's table. |
| `Session.EnvelopeRoundTrip` | internal/protocol/session/eventwire.go:80-196 | A valid envelope within the payload limit, and no other, encodes; before any tail it is read back as one frame with its message id and type and decodes to the same envelope (a Report with trimmed ids; a Command given an exact args codec). |
| `WireContract.MessagesAreMarked` | internal/protocol/session/eventwire.go:80-196 | Every message is one frame without auth under its message id; acks and no others are marked as responses. |
| `WireContract.MessageNumbers` | internal/protocol/schema/schema.go:11-20 | Message types, flags and field types by number. |
| `WireContract.FieldNumbers` | internal/protocol/session/eventwire.go:80-196 | The fields of the four messages by number and type, in the order written. |
| `WireContract.EventChecks` | internal/protocol/session/eventwire.go:27-47 | An event is invalid if and only if one of its six texts is blank, and the first of them is named. |
| `WireContract.AckChecks` | internal/protocol/session/eventwire.go:60-77 | The same for acks, which also need a time. |
| `WireContract.CommandChecks` | internal/protocol/session/command_report_wire.go:25-42 | The same for commands. |
| `WireContract.ReportChecks` | internal/protocol/session/command_report_wire.go:58-72 | The same for reports. |
| `WireContract.CommandEnvChecks` | internal/ghost/command.go:29-49 | The same for accepted commands, which also need a message id. |
| `WireContract.SeedExecuteChecks` | internal/ghost/envelopes.go:26-40 | The same for seed requests. |
| `WireContract.SeedResultChecks` | internal/ghost/envelopes.go:53-64 | The same for seed results. |
| `WireContract.TerminalChecks` | internal/ghost/envelopes.go:78-101 | The same for terminal events, which also need a known outcome and a time. |
| `Session.NonConfusion` | internal/protocol/schema/schema.go:79-163 | A payload encoded for one of the four kinds is rejected by the decoders of the other three. |
| `Session.UnknownFieldsIgnored` | internal/protocol/session/eventwire.go:114-138 | Fields the decoder never consults, inserted anywhere, change neither schema acceptance nor the decoded envelope. |
| `Session.AppendedDuplicatesIgnored` | internal/protocol/tlv/tlv.go:86-96 | Nor do duplicates of present ids appended at the end. |
| `Session.EncodeEventFrame` | internal/protocol/session/eventwire.go:80-111 | The frame of a valid event, or the first error. |
| `Session.EncodeEventAckFrame` | internal/protocol/session/eventwire.go:141-170 | The frame of a valid ack, or the first error. |
| `Session.EncodeCommandFrame` | internal/protocol/session/command_report_wire.go:75-109 | The frame of a valid command, args only when there are any, or the first error. |
| `Session.EncodeReportFrame` | internal/protocol/session/command_report_wire.go:139-180 | The frame of a valid report, optional fields only when present, or the first error. |
| `Session.DecodeFrame` | internal/protocol/session/command_report_wire.go:112-209 | The envelope in a frame's payload, for each of the four kinds, or the first error. |
| `Bytes.PutUint` | internal/protocol/session/eventwire.go:217-228 | Writes an integer big-endian at an offset and leaves the rest of the buffer alone. |
| `Bytes.U64Inverse` | internal/protocol/session/eventwire.go:224-236 | 64-bit integers and their eight bytes determine each other. |
| `Bytes.U32Inverse` | internal/protocol/tlv/tlv.go:109-117 | 32-bit integers and their four bytes determine each other. |
| `Bytes.TrimSpaceParts` | internal/ghost/execution.go:37 | What strings.TrimSpace takes off is white space at both ends and nothing else. |
| `WireContract.SpacesAreRunes` | internal/ghost/execution.go:37 | The bytes trimmed are the UTF-8 forms of the code points that are white space. |

## Left out

- TCP, TLS, certificates, listeners, the JSON line protocol around control calls, signals and tickers: connections carry whole frames, and a control call is a function from request frame to response frame.
- Reads that time out in the middle of a frame, and write errors of the in-memory writer; `Delivery` has failing writes and reads of whole frames.
- JSON encoding of command args: an exact codec is assumed.
- Installed seeds, the seed registry's own methods and tools: a seed is an arbitrary function.
- `SeedDependencies`, `Snapshot`, `ListIntentIDs`, `RecentAdminEvents`, `VerificationView` and other listings, log lines, buildlog persistence, discovery text added to seed lists: easy, and nothing depends on them.
- The pass-through methods of Mirage's server (SubmitIssue, RegisterExecutor, SnapshotIntent) and ghost spawning.
- Identities of executors: the orchestrator's store holds the set of bound ghost ids, and each pass is given the function its executor computes.
- The registration handshake's JSON and identity checks: a connection begins registered.
- Two processes sharing one ghost: `Admin` and `EndToEnd` take the admin boundary as the ghost's only driver; `GhostRuns` does not.
- SingleCommandLoop: a smaller copy of the reconcile loop.
- Rounding of floating-point delays and overflow of durations: delays are reals, rounded down once.
- Backoff.NextBackoffDelay: with a maximum of zero or less the delay is unbounded here, while the code's conversion to int64 would overflow in the end.
- MirageClient.MirageSession.SendEventWithAck: the bound on tries assumes a clock that advances by each slept delay, a shortest delay above zero and no negative ack timeout.
- Accounting.ExactAccounting: assumes executors that echo trimmed command ids and ingested events with trimmed command ids; `Client.ExecutorEchoes` discharges the first.
- SeedLocks.SeedLockExclusion: assumes one pass in flight per intent and no event ingest; `SeedLocks.IngestStealsIff`, `SeedLocks.StolenLockBreaksExclusion` and `SeedLocks.FinishStealsIff` say exactly what happens otherwise.
- Observation.AnsweredMeansObserved: speaks of events with ids of the form evt.<command id> whose reports fit in a frame, and of runs without resubmission, without intents of one sanitised id and without ingest outside the connection loop. A plan submitted while an ack for one of its commands is on its way is not watched (`DeliveryExact.DeliverySoundIff`, `Unobserved.StaleAckAnswers`); events with invalid fields and reports that do not fit are acknowledged without being observed (`Observation.AcknowledgedIsObservedIff`).
