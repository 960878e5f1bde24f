# Relay collaboration: a verified model

This Dafny project models the parts of the relay backend whose correctness spans many steps: how
a collaboration round is admitted, delivered, repaired and finished; the event-authoritative
project store; the parser of leading mentions; four data migrations that must not change what the
data means; the resumable event tail; and the token dashboard. `dafny verify dfyconfig.toml`
checks all of it.

## How the model is laid out

- `Policy`, `Round`, `RoundVerdicts`, `RunRequest`: the round policy, and the driver that delivers
  one assignment after another with an arbitrary outcome for each delivery. `RunRequest` is the
  stored request that the registry advances in place; `Round` is its specification and everything
  proved about whole rounds. `RoundVerdicts` says of every delivery, from the roster and the
  outcomes alone, what becomes of it.
- `WorkGraph`, `WorkGraphItems`, `Fingerprint`: the compiler from a roster to a dependency graph,
  the manifest and the owner of its result; what the manifest says of each member; the canonical
  payload that identifies a message intent.
- `Admission`, `AdmissionSafety`, `AdmissionMarks`, `AdmissionOverlap`, `AdmissionConflict`,
  `AdmissionBackend`, `AdmissionRecovery`, `AdmissionRecords`, `AdmissionAnswers`: admission as a
  sequence of looks at the stores and of store transactions. `Admission` says what each of them
  does. `AdmissionSafety` lets any number of attempts overlap in any way, with crashes before any
  write, with completions, cancellations, the reaper and other writers in between, and proves what
  every reachable state satisfies. Messages, decisions and rounds are recorded by a look and a
  later append; `AdmissionMarks` says which overlaps can record one twice, `AdmissionOverlap` when
  two attempts at one prepared request can, and `AdmissionConflict` what an attempt has written by
  the time it is refused for its fingerprint. `AdmissionBackend` is the class that performs the
  transactions in the order of the source. `AdmissionRecovery` says what an attempt achieves when
  nothing interrupts it, however earlier attempts were cut short, `AdmissionRecords` exactly what
  it puts on record, and `AdmissionAnswers` what every such call is answered and leaves in the
  stores.
- `Projects`, `ProjectLedger`, `ProjectChanges`, `ProjectStore`: the project tables, what every
  transaction and every run of transactions keeps, what each change does to each field, and the
  class whose update loop retries against other writers.
- `Mentions`, `MentionPrinting`: the cursor loop over leading mentions, how it reads a name, and
  the printer it inverts.
- `IdBackfill`, `IdBackfillJson`, `IdBackfillKeys`, `IdBackfillUpgrade`: the two-phase id rewrite,
  the references in columns, documents and compatibility keys, and the class that performs it all.
- `HistoryPrune`, `NodeAgents`, `Slugs`, `HandlePlan`: the collapse of duplicate history, the maps
  that become rows and back, slugs, and the handle plan.
- `EventTail`, `TokenDashboard`: the resumable tail of a session's event log (Last-Event-ID,
  section 9.2 of the WHATWG HTML Living Standard), and the aggregation of usage rows.
- `Text`, `Sequences`, `Wrappers`: strings, sorting and deduplication, options and results.

Code that changes things step by step is modelled by classes and loops, each tied by its `ensures`
to a function of the old state, and the properties are proved about that function.

## What the code does that its descriptions do not say

- The policy offers a repair for any failed member behind a coordinator that acts. When a member's
  exit reports the failure, the driver takes the offer. When its run could not be carried out, the
  driver only acts on a decision to continue, so a discussion round with a repair left fails
  (backend/relay/daemon_registry/registry.py:3043-3063) although the docstring promises to keep
  collecting (line 3275). `Round.ParticipantFailureSurvival` says exactly when, and
  `Round.RunFailureEndsDiscussion` reaches such an ending.
- A rerun or handoff of a thread that is over is two events, the decision and the status that
  reopens the thread. A retry after a crash between the two finds the decision on record, does not
  reopen the thread, and ends the request
  (backend/relay/daemon_registry/node_backend.py:770-798,
  backend/relay/sessions/controller.py:288-305). `AdmissionRecovery.DecisionCutBeforeItsStatus`
  shows it for every such thread; `AdmissionRecovery.UninterruptedAttempt` gives the exact
  condition under which an attempt is admitted.
- Concurrent retries converge on one session and one run request, as the design promises
  (docs/adr/016-collaboration-conductor.md:86-88), and only one of them activates it; but an event
  id is not a key of the event log, so two overlapping retries can record one round twice
  (backend/relay/sessions/controller.py:182-199). The scope that keeps attempts apart is a lock
  within one process (backend/relay/daemon_registry/registry.py:437-459).
  `AdmissionOverlap.OverlapRecordsRoundTwice` gives the overlap,
  `AdmissionMarks.OnceExactlyWithoutRivals` the exact condition on any attempts in progress, and
  `AdmissionOverlap.TwoAttemptsNeverRivalExactly` the condition on two calls: one does not pass its
  checks, or the round is on record already.
- A request that has ended can become active again. `update_run_request` writes back the whole row
  that it read before its transaction, whatever the status is by then
  (backend/relay/persistence/daemon_store.py:2793-2825), so a progress note or a change of node that
  read the request while it ran can revive it
  (backend/relay/daemon_registry/registry.py:2565-2595), although the note is meant not to (line 2567).
  `AdmissionSafety.RevivedExactlyByOverwrite` says that nothing else does, and
  `AdmissionSafety.LateOverwriteRevives` when it happens: no other request of the session is active.
  What `AdmissionSafety` proves holds with such writes in between.
- An attempt that is refused because its key belongs to different work has written nothing, unless
  it overlaps with the winner of a new thread: then it can leave the thread's session behind, under
  its own goal, and the winner's request goes on in it (`AdmissionConflict.ConflictWrites`,
  `AdmissionConflict.LoserLeavesItsSession`). `AdmissionConflict.LeavesItsSessionExactly` says which
  calls can.
- A roster that arrives compiled is taken as it is. Its deliveries respect its dependencies exactly
  when every item depends only on items before it
  (`WorkGraph.RespectedExactlyWhenBackward`).
- The compiled graph is acyclic when assignment ids are distinct; in full it is acyclic exactly
  when no member that waits for others repeats an earlier id (`WorkGraph.AcyclicExactlyWhen`).
- A synthesizer in ask mode owns the result in the manifest and never reports it
  (`WorkGraph.ResultOwnersAgree`).
- The second of the three attempts of the project store's loop never writes: after a write conflict
  the re-read version differs, so the loop answers with a version conflict
  (`ProjectStore.DatabaseProjectStore.Mutate`).
- The last seven daily buckets of the dashboard equal its totals exactly when no usable row is
  dated in the future (`TokenDashboard.DaysAddUp`).

## Model

| member | source | states |
|---|---|---|
| Round.RoundTerminates | backend/relay/collaboration/policy.py:34-64 | whatever the outcomes, a round of n members ends within n + 2r deliveries and never asks for more than r repairs, and the stored repair count is the number of send-backs in the log |
| Round.BoundIsTight | backend/relay/collaboration/policy.py:34-78 | for every roster of two or more with an acting coordinator some outcomes use exactly n + 2r deliveries and complete the round |
| Round.SettledExactlyOnce | backend/relay/collaboration/policy.py:44-78 | a completed round settled every index once, in increasing order; failure entries and the stored result are those of the log; only index 0 is redelivered after settling, only in answer to a send-back; resume index and repair note are present together exactly while a repair is unanswered |
| Round.StepKeepsValid | backend/relay/daemon_registry/registry.py:2937-3264 | every delivery keeps the round's invariant and strictly lowers 2·(r − repairs) + (n − high-water index) + outstanding repair |
| Round.ParticipantFailureSurvival | backend/relay/daemon_registry/registry.py:3043-3063 | a discussion or review member's failing exit never fails the round; a run that could not be carried out fails it if and only if there is a task, the index is above 0, a repair is left, and an acting coordinator leads |
| Round.RunFailureEndsDiscussion | backend/relay/daemon_registry/registry.py:3266-3312 | a concrete round in which an unreachable discussion member ends the round with a repair left and no failure recorded |
| Round.DriveAppend | backend/relay/daemon_registry/registry.py:2937-2945 | delivering a sequence of outcomes in two parts is delivering it whole |
| RoundVerdicts.EveryVerdictIsDue | backend/relay/daemon_registry/registry.py:2937-3312 | whatever the outcomes, every verdict in the log follows from the member delivered to, the outcome, the task and the repairs used before it; nothing is delivered behind a verdict that ends the round, and the last verdict says how it stands |
| RoundVerdicts.SentBackExactly | backend/relay/collaboration/policy.py:34-55 | a delivery is sent back if and only if its run exits with an error, the round has a task, the index is above 0, fewer repairs than allowed are used, and the first member is a coordinator in action mode |
| RoundVerdicts.RepairsNeedATaskAndALead | backend/relay/collaboration/policy.py:34-55 | a round without a task or without an acting coordinator in the lead sends nothing back and delivers each index at most once, in order |
| RoundVerdicts.SendBackHandsOver | backend/relay/collaboration/policy.py:46-55 | a send-back goes to index 0 with the failed index to resume at and a note of the failure and of the member it is for, and changes nothing else |
| RoundVerdicts.LabelIsFirstName | backend/relay/daemon_registry/registry.py:3037-3042 | a failure is recorded under the first name of the member that is not empty |
| RunRequest.RunRequest.SendBackForRepair | backend/relay/daemon_registry/registry.py:3203-3264 | the stored request goes back to index 0, to resume at the failed index, if and only if there is a task, the index is above 0, a repair is left and an acting coordinator leads; it is unchanged otherwise |
| RunRequest.RunRequest.ContinueAfterNonActionFailure | backend/relay/daemon_registry/registry.py:3266-3312 | the stored request moves past a failed member if and only if that is a discussion or review member and no repair is available; it is unchanged otherwise |
| RunRequest.RunRequest.ApplyEvent | backend/relay/daemon_registry/registry.py:3001-3200 | for each of the four terminal outcomes the stored round becomes the specified one, with the specified verdict |
| RunRequest.RunRequest.Advance | backend/relay/daemon_registry/registry.py:2937-3200 | one terminal event makes the stored request the specified next round, logs the delivery, and keeps the invariant |
| RunRequest.RunRequest.DeliverRound | backend/relay/daemon_registry/registry.py:2937-3200 | the loop over any answers ends, as the specification drives it, in at most n + 2r deliveries |
| WorkGraph.CompileAssignmentWorkGraph | backend/relay/collaboration/service.py:830-881 | the loop builds the compiled roster, and hands an already compiled one straight back |
| WorkGraph.RecompilingChangesNothing | backend/relay/collaboration/service.py:846-881 | the shortcut for a compiled roster gives what compiling it again with the same purpose would give |
| WorkGraphItems.DependsOnAllOrNone | backend/relay/collaboration/service.py:848-881 | the manifest of an uncompiled roster has an item for each member in order; it depends on all members before it, in order, if its member synthesizes or the round accomplishes work, and else on none |
| WorkGraphItems.DependsExactly | backend/relay/collaboration/service.py:848-861 | among distinct ids an item depends on another if and only if that comes before it and its member synthesizes or the round accomplishes work |
| WorkGraphItems.KindSays | backend/relay/collaboration/service.py:905-924 | for each kind of work, exactly which members are given it, by synthesizer, mode, coordinator and role |
| WorkGraphItems.OwnerSays | backend/relay/collaboration/service.py:897-902 | an item is owned by its agent, or by a stand-in that names the executor, the agent kind, or unknown |
| WorkGraphItems.ObjectiveSays | backend/relay/collaboration/service.py:862-881 | a given objective stands; else it is the brief, or the default for the kind, and says the item's number and whether it builds on others unless the member is alone, coordinates or synthesizes |
| WorkGraphItems.StrategySays | backend/relay/collaboration/service.py:746-795 | a lone addressed member is served directly, otherwise the purpose decides; a synthesis ends the round if and only if it is a discussion or review that is not direct |
| WorkGraphItems.CompiledIsRecorded | backend/relay/collaboration/service.py:768-794 | a roster that arrives compiled is recorded with its own items |
| WorkGraph.AcyclicExactlyWhen | backend/relay/collaboration/service.py:848-881 | the compiled graph has no dependency cycle if and only if no waiting member repeats an earlier assignment id |
| WorkGraph.DeliveriesRespectDependencies | backend/relay/collaboration/service.py:846-881 | on the graph that a roster compiles to, every delivery of every round, repairs and resumed retries included, finds the items it depends on settled, if and only if the roster arrives uncompiled or its items depend only on items before them |
| WorkGraph.RespectedExactlyWhenBackward | backend/relay/collaboration/policy.py:34-78 | whatever graph a round runs on, every delivery of every round finds its dependencies settled if and only if every item depends only on items before it |
| WorkGraph.BackwardIsAcyclic | backend/relay/collaboration/service.py:846-847 | a graph that arrives compiled, with distinct items that depend only on items before them, has no cycle |
| WorkGraph.ResultOwnersAgree | backend/relay/collaboration/service.py:961-975 | the manifest's owner is the only index that can report the round result, and reports it exactly when it is not in ask mode |
| WorkGraph.ManifestOwnerReports | backend/relay/collaboration/service.py:735-827 | for a roster with distinct ids, compiled before or not, an index of the compiled roster reports if and only if the manifest names its id as owner and it is not in ask mode |
| WorkGraph.JustOneReports | backend/relay/collaboration/policy.py:81-99 | with no synthesizer and a member that is not in ask mode exactly one index reports |
| Fingerprint.FingerprintIsCanonical | backend/relay/collaboration/service.py:139-176 | two message intents have the same payload if and only if they agree in thread, text, purpose and message id and address the same set of agents |
| Fingerprint.PreparedSays | backend/relay/collaboration/service.py:139-176 | a message becomes a round in the mode of its purpose, for each addressed agent once or for the room, under its key or else its message id |
| Fingerprint.SortRawIsSort | backend/relay/collaboration/service.py:676-698 | sorting the raw assignments of a list of agents gives the assignments of the sorted agents |
| Sequences.SortedDedupIsCanonical | backend/relay/collaboration/service.py:676-698 | two lists have equal deduplicated sorts if and only if they have the same elements |
| Sequences.DedupInOrder | backend/relay/collaboration/service.py:147 | what is mentioned first comes first |
| Text.StripIs | backend/relay/persistence/project_store.py:386-392 | a text is its stripped text with only space before and behind it |
| Admission.LatestUserTurnIsLatest | backend/relay/sessions/bridge.py:173-183 | the latest user turn is the creation or a user event, and no turn is later by time and position |
| Admission.LatestDecisionIsLatest | backend/relay/daemon_registry/node_backend.py:918-933 | the latest decision is behind the latest user turn and is the last of those that are; there is none exactly when none is |
| AdmissionBackend.LatestDecisionKindAfterLatestUser | backend/relay/daemon_registry/node_backend.py:918-933 | the loop that keeps the best decision so far returns the kind of the latest decision |
| AdmissionBackend.ServerDaemonNodeBackend.AdmitRequest | backend/relay/daemon_registry/node_backend.py:289-341 | from the idempotency check to the durable request, cut short after any number of steps, the calls in this order make exactly the first steps of the attempt |
| AdmissionBackend.ServerDaemonNodeBackend.RecordRunIntent | backend/relay/daemon_registry/node_backend.py:689-768 | the same from the durable request to the round on record |
| AdmissionBackend.ServerDaemonNodeBackend.ActivateRunRequest | backend/relay/daemon_registry/registry.py:1822-1887 | the same from the round on record to the answer |
| AdmissionBackend.ServerDaemonNodeBackend.RunSync | backend/relay/daemon_registry/node_backend.py:277-365 | one call stopped by a crash after any number of steps is exactly the first steps of the attempt, leaves consistent stores and records nothing twice |
| AdmissionBackend.PartlyKeeps | backend/relay/daemon_registry/node_backend.py:277-365 | however early a crash stops an attempt, the stores keep their invariant and the attempt its own |
| AdmissionSafety.DoKeepsOneActive | backend/migrations/versions/20260811_0061_reserve_prepared_run_requests.py:17-35 | no transaction whatever gives a session a second active request: the index rejects it |
| AdmissionSafety.StepKeeps | backend/relay/daemon_registry/node_backend.py:291-365 | every step of an attempt keeps the invariant of the stores and its own, and makes only the write its phase is due |
| AdmissionSafety.RunKeeps | backend/relay/daemon_registry/node_backend.py:291-365 | every state of every run of overlapping attempts, crashes and other writers satisfies the invariant |
| AdmissionSafety.OneActiveRequestPerSession | backend/relay/persistence/daemon_store.py:2501-2579 | in every state of every run, however attempts overlap, two active requests of one session are the same request |
| AdmissionSafety.AdmittedAtMostOnce | backend/relay/daemon_registry/node_backend.py:387-472 | from any reachable state on, however attempts overlap, a request id has one session for good and at most one activation, its round is on record in no other session, and every finished attempt named that session |
| AdmissionSafety.RunRemembers | backend/relay/persistence/daemon_store.py:2793-2875 | over any run, writes without a guard included, a durable request keeps its session, round and fingerprint and never returns to prepared |
| AdmissionSafety.RevivedExactlyByOverwrite | backend/relay/persistence/daemon_store.py:2793-2875 | a request that has ended is active after a move if and only if the move is an unguarded write of it with an active status that the index lets pass |
| AdmissionSafety.EndedStaysEnded | backend/relay/persistence/daemon_store.py:2827-2875 | over any run without such a write a request that has ended has ended for good |
| AdmissionSafety.LateOverwriteRevives | backend/relay/daemon_registry/registry.py:2565-2595 | a row read while its request was running and written back behind its end revives it if and only if no other request of the session is active |
| AdmissionSafety.WorkersShareTheFingerprint | backend/relay/daemon_registry/node_backend.py:419-452 | in every state of every run an attempt past the check works on a request with its fingerprint, or one of the two has none |
| AdmissionMarks.MarksStayOnce | backend/relay/daemon_registry/node_backend.py:701-768 | a run in which no two attempts are ever between their look and their append of the same thing records every message, decision and round at most once |
| AdmissionMarks.RivalsRepeat | backend/relay/sessions/controller.py:182-199 | in every state with two such attempts, their two appends put the thing on record twice |
| AdmissionMarks.OnceExactlyWithoutRivals | backend/relay/sessions/controller.py:182-199 | the attempts in progress record everything at most once, however they go on among other writers, if and only if no two of them ever come to be between look and append of the same thing |
| AdmissionMarks.ScopedRunsRecordOnce | backend/relay/daemon_registry/registry.py:437-459 | if attempts begin only while none in progress is on their request or session, nothing is ever recorded twice |
| AdmissionOverlap.OverlapRecordsRoundTwice | backend/relay/sessions/controller.py:182-199 | any two attempts on one prepared request that overlap and pass their checks, be they messages, reruns, handoffs or new threads, can record its round twice if it is not on record |
| AdmissionOverlap.TwoAttemptsNeverRivalExactly | backend/relay/daemon_registry/node_backend.py:387-472 | two attempts that arrive together at one prepared request never come to be between look and append of the same thing, however they go on, if and only if one does not pass its checks or the round is on record |
| AdmissionOverlap.EntersExactly | backend/relay/daemon_registry/node_backend.py:419-472 | an attempt gets past the checks on a durable request if and only if that is prepared, fingerprints agree, the node admits it, and its owner is the session's |
| AdmissionConflict.ConflictWrites | backend/relay/daemon_registry/node_backend.py:305-341 | over any run, an attempt refused for its fingerprint has written nothing or only created its session, and nothing if and only if it did not come to create its session while that was missing |
| AdmissionConflict.OtherFingerprintIsRefused | backend/relay/daemon_registry/node_backend.py:387-430 | an attempt that meets a durable request with another fingerprint never writes anything in any run and can only be refused or stop |
| AdmissionConflict.ReplyWritesNothing | backend/relay/daemon_registry/node_backend.py:419-430 | an attempt that names its session writes nothing before it is refused for its fingerprint, however attempts overlap |
| AdmissionConflict.ScopedConflictWritesNothing | backend/relay/daemon_registry/registry.py:437-459 | if attempts on one request or session do not overlap, an attempt refused for its fingerprint has written nothing |
| AdmissionConflict.LoserLeavesItsSession | backend/relay/daemon_registry/node_backend.py:326-341 | any two overlapping attempts at one new thread with different fingerprints can leave the session created by the one that is refused, under its goal, with the other's request in it |
| AdmissionConflict.LeavesItsSessionExactly | backend/relay/daemon_registry/node_backend.py:305-341 | from any reachable state, a call can come to be refused for its fingerprint and have written if and only if it names no session, passes its checks, carries a fingerprint, and its request id is in use by no request and no session |
| AdmissionRecovery.UninterruptedAttempt | backend/relay/daemon_registry/node_backend.py:291-365 | an uninterrupted attempt on any consistent stores admits its request with one activation and one round on record if and only if its session is not over or it will reopen it, by a message of its own or by a new rerun or handoff; otherwise it ends the request; a message that is due is then on record once |
| AdmissionRecovery.DispatchesExactly | backend/relay/daemon_registry/node_backend.py:711-727 | a call dispatches a decision again if and only if it carries a rerun or a handoff, or carries none, repeats the text of its thread, and the last decision behind the latest user turn is a rerun or a handoff |
| AdmissionRecords.RecordsExactly | backend/relay/daemon_registry/node_backend.py:701-768 | in every session, the messages, decisions and rounds on record afterwards are those before, and once each the message, decision and round that the call has to add |
| AdmissionRecords.NewTextIsRecorded | backend/relay/daemon_registry/node_backend.py:711-750 | a reply without a decision whose text is new, or behind which no rerun or handoff stands, is on record exactly once and admitted, even if its thread was over |
| AdmissionRecords.RedispatchAddsNoMessage | backend/relay/daemon_registry/node_backend.py:711-729 | a rerun, a handoff, and the same text behind such a decision add no user message to any session |
| AdmissionAnswers.EveryCallIsAnswered | backend/relay/daemon_registry/node_backend.py:277-365 | every uninterrupted call on any consistent stores is answered as the request, the thread, the owner, the other requests and the decision found call for; one that does not pass its checks writes nothing |
| AdmissionAnswers.PassedCallLeaves | backend/relay/daemon_registry/node_backend.py:326-345 | a call that passes its checks leaves its request in its thread, with its own fingerprint and round if it is new; every other request and thread is kept, and a thread it opens has its owner, goal and time |
| AdmissionAnswers.CheckExactly | backend/relay/daemon_registry/registry.py:1703-1820 | before it inserts its request an attempt takes that up if it already works in the thread, is refused if another works there, and else goes on |
| AdmissionAnswers.InsertExactly | backend/relay/persistence/daemon_store.py:2501-2579 | an insertion that comes second takes up the request that is there, with its thread and round, answers for it if it was activated, and is a conflict if it is for other work |
| AdmissionAnswers.ActivateExactly | backend/relay/daemon_registry/registry.py:1822-1887 | only a prepared request of a live thread is claimed, and one of a thread that is over ends as that did; whoever comes later finishes if a command is on its way, confirms if the request is underway without one, and is refused otherwise |
| AdmissionAnswers.ClaimExactly | backend/relay/daemon_registry/registry.py:1822-1887 | the claim activates a request that is still prepared and changes nothing else; one that lost is answered by what the request is then |
| AdmissionAnswers.ConfirmExactly | backend/relay/daemon_registry/registry.py:1822-1887 | the last look finishes in a live thread and is refused in one that is over or gone |
| AdmissionRecovery.SomeAttemptRecoversEnded | backend/relay/daemon_registry/node_backend.py:770-798 | a concrete rerun of a thread that is over meets the conditions of the next row |
| AdmissionRecovery.DecisionCutBeforeItsStatus | backend/relay/daemon_registry/node_backend.py:770-798 | for every rerun or handoff of a thread that is over, a cut between decision and status makes the retry end the request that an uncut attempt would admit |
| ProjectLedger.ExecuteKeepsValid | backend/relay/persistence/project_store.py:134-341 | every creation and mutation keeps the invariant: versions, event versions and event counts agree, sequences are 0 to version − 1, every prefix of the events replays to the project in its last event, member rows are the members in position, live names are unique per owner |
| ProjectLedger.EveryRunIsConsistent | backend/relay/persistence/project_store.py:262-341 | after any transactions from empty tables the snapshot is its replay, its version the number of its events, and two live projects of one owner have different case-folded names |
| ProjectLedger.RunEvolves | backend/relay/persistence/project_store.py:187-231 | over any run a project keeps id, owner, computer, workspace subpath and creation time, its version only rises, and it is never changed once archived |
| ProjectLedger.AtMostOneCommits | backend/relay/persistence/project_store.py:262-320 | of any two writers in a run that expect the same version of a project at most one commits |
| ProjectLedger.ClaimIsLinearizable | backend/relay/persistence/project_store.py:270-320 | with any transactions between a read and its claim, the claim succeeds or fails exactly as the whole mutation after them would |
| ProjectLedger.ReplaceMembersIs | backend/relay/persistence/project_store.py:322-341 | after a replacement the rows of a project are exactly its members at their positions, and other projects' rows are unchanged |
| ProjectChanges.MutationSays | backend/relay/persistence/project_store.py:187-231 | a change that succeeds gives each field the patch names its value, leaves each other field as it was, raises the version by one and dates it; an archive disables and dates; snapshot, columns, member rows and event hold just that |
| ProjectChanges.UpdateRefusedExactly | backend/relay/persistence/project_store.py:262-320 | an update is refused, with this error, for exactly these reasons in this order: no such project, archived or another version, no lead, name taken by a live project of the owner, an agent twice |
| ProjectChanges.ArchiveRefusedExactly | backend/relay/persistence/project_store.py:212-231 | an archive of a live project at the expected version is never refused |
| ProjectChanges.CreationRefusedExactly | backend/relay/persistence/project_store.py:134-152 | a creation is refused for exactly these reasons in this order: a bad payload, the id in use or no lead, name taken, an agent twice |
| ProjectChanges.NormalizedExactly | backend/relay/persistence/project_store.py:369-392 | a patch is accepted if and only if it names allowed fields, a name of 1 to 120 characters once stripped and a boolean; only its name changes, by stripping; each error has its cause |
| ProjectChanges.NewProjectSays | backend/relay/persistence/project_store.py:344-366 | a payload makes a project if and only if its stripped name and computer are there and the name is not too long; every field of the project is as given, with its defaults |
| ProjectChanges.CreationSays | backend/relay/persistence/project_store.py:134-152 | a creation that succeeds stores the new project, its columns, its member rows and its first event |
| ProjectChanges.FieldsHoldTheLastNamed | backend/relay/persistence/project_store.py:187-231 | over any run each field holds what the last committed change that names it says, and is as it was if none does |
| ProjectChanges.FieldsSinceCreation | backend/relay/persistence/project_store.py:134-231 | from its creation on, a field holds what the last committed change that names it says, else what it was created with |
| ProjectStore.DatabaseProjectStore.CreateProject | backend/relay/persistence/project_store.py:134-152 | the stored tables and the answer are those of one creation, the project is stored with its rows and first event, and the invariant holds |
| ProjectStore.DatabaseProjectStore.ClaimRow | backend/relay/persistence/project_store.py:286-320 | the conditional update writes everything or nothing, and reports a lost version as a conflict |
| ProjectStore.DatabaseProjectStore.Attempt | backend/relay/persistence/project_store.py:262-320 | one attempt, with other writers between read and claim, does what a mutation after them does, or loses where that would lose |
| ProjectStore.DatabaseProjectStore.Mutate | backend/relay/persistence/project_store.py:262-320 | the retry loop does what one uninterrupted mutation after the first attempt's interference does; the internal conflict never escapes |
| ProjectStore.DatabaseProjectStore.UpdateProject | backend/relay/persistence/project_store.py:187-210 | a patch that does not normalise changes nothing; any other is one mutation by the normalised patch, and if it succeeds the answer, the row and its columns hold the patch's values and no other field is different |
| ProjectStore.DatabaseProjectStore.ArchiveProject | backend/relay/persistence/project_store.py:212-231 | archiving is one mutation that disables and dates the project and changes nothing else |
| Mentions.SkipSpace | backend/relay/api/collaboration_routes.py:109-114 | the counter loop returns the length of the leading horizontal space |
| Mentions.ScanMentions | backend/relay/api/collaboration_routes.py:62-98 | the cursor loop ends on every text and returns what the recursive scan reads |
| Mentions.LeadingMentionAgentIds | backend/relay/api/collaboration_routes.py:38-98 | the parser returns the scanned ids, each once in the order of first mention, or the refusal |
| Mentions.LongestNameWins | backend/relay/api/collaboration_routes.py:65-93 | a text is read as an agent if and only if that is the one longest of the candidates it names, as ambiguous if and only if two of the longest tie, and as prose or a missing address if and only if it names nobody |
| Mentions.NamesExactly | backend/relay/api/collaboration_routes.py:101-106 | a text names an agent if and only if it starts with the name in any case and the name ends there |
| Mentions.CandidatesAre | backend/relay/api/collaboration_routes.py:54-60 | the candidates are the agents that are not deleted, are enabled and have a name |
| Mentions.HorizontalSpaceIs | backend/relay/api/collaboration_routes.py:117-124 | the space skipped is what strip() removes, but for the newline and five controls, and a byte order mark |
| Mentions.NeverFailsOpen | backend/relay/api/collaboration_routes.py:62-98 | a text that opens with an at sign and a word is refused or addresses somebody; it never reads as addressed to nobody |
| MentionPrinting.NameFitsOnly | backend/relay/api/collaboration_routes.py:101-106 | a printed name before a space, a newline or the end of the text is matched by its own agent, and by another's name only if that name is the same or one goes on past the other behind a space or a newline |
| MentionPrinting.ReadsPrintedExactly | backend/relay/api/collaboration_routes.py:65-93 | among distinct names, a printed name is read as its agent if and only if what follows does not make it a longer name, whichever shorter names it goes on past itself |
| MentionPrinting.MentionsRoundTrip | backend/relay/api/collaboration_routes.py:38-106 | printing mentions in any spelling and spacing and parsing gives back their agents, each once in the order of first mention, if names are distinct, each printed name is ended by a space, a newline or the end of the text, and no text makes one longer |
| MentionPrinting.ApartNamesStop | backend/relay/api/collaboration_routes.py:101-106 | where no name goes on past another, no text makes a printed name longer |
| IdBackfill.StagingStaysUnique | backend/migrations/versions/20260728_0039_backfill_entity_uuid_ids.py:218-238 | whichever rows the first statement has reached, public ids are unique |
| IdBackfill.UnstagingStaysUnique | backend/migrations/versions/20260728_0039_backfill_entity_uuid_ids.py:218-238 | whichever rows the second statement has reached, public ids are unique |
| IdBackfill.StagedInjective | backend/migrations/versions/20260728_0039_backfill_entity_uuid_ids.py:218-238 | two row ids with the same staged value are the same |
| IdBackfill.CombinedIsFaithful | backend/migrations/versions/20260728_0039_backfill_entity_uuid_ids.py:81-90 | the combined mapping sends every legacy public id to its own row's id and no other public id anywhere |
| IdBackfill.ReferencesKeepTheirRows | backend/migrations/versions/20260728_0039_backfill_entity_uuid_ids.py:102-143 | a reference that resolved to a row resolves to the same row after the migration |
| IdBackfill.ReferencesResolveExactly | backend/migrations/versions/20260728_0039_backfill_entity_uuid_ids.py:102-143 | a reference resolves to a row afterwards if and only if it did before, or already held that row's id and no legacy id is spelled so |
| IdBackfill.MappingMaps | backend/migrations/versions/20260728_0039_backfill_entity_uuid_ids.py:154-164 | a table's mapping holds exactly its legacy public ids, each with its row's id |
| IdBackfill.ReplaceColumnValues | backend/migrations/versions/20260728_0039_backfill_entity_uuid_ids.py:186-195 | every value of a reference column is rewritten, and no value that is not mapped changes |
| IdBackfill.StageRows | backend/migrations/versions/20260728_0039_backfill_entity_uuid_ids.py:218-238 | the first statement, row by row, stages every mapped row without breaking the unique index at any step |
| IdBackfill.UnstageRows | backend/migrations/versions/20260728_0039_backfill_entity_uuid_ids.py:218-238 | the second statement, row by row, leaves every row that had a public id with its own id, without breaking the unique index at any step |
| IdBackfillUpgrade.Backfill.ReplacePublicIds | backend/migrations/versions/20260728_0039_backfill_entity_uuid_ids.py:218-238 | both statements leave every row that had a public id with its own id as public id |
| IdBackfillUpgrade.Backfill.Upgrade | backend/migrations/versions/20260728_0039_backfill_entity_uuid_ids.py:73-145 | the migration settles every entity table, and rewrites every reference column of a table with legacy ids, every compatibility key and every JSON column, all by the ids there were before |
| IdBackfillUpgrade.KeysKeepTheirNodes | backend/migrations/versions/20260728_0039_backfill_entity_uuid_ids.py:115-121 | a compatibility key keeps its fields, each legacy node id among them replaced by its node's id |
| IdBackfillUpgrade.ItemsListMapping | backend/migrations/versions/20260728_0039_backfill_entity_uuid_ids.py:154-164 | in the order of the rows the legacy ids are those of the mapping, each once |
| IdBackfillKeys.KeysAreRewritten | backend/migrations/versions/20260728_0039_backfill_entity_uuid_ids.py:198-211 | replacing one legacy id after another, in any order, replaces each field that is one by its new id and leaves the other fields, if legacy ids have no separator, occur in fields only as a whole, and in no new id |
| IdBackfillKeys.JoinHolds | backend/migrations/versions/20260728_0039_backfill_entity_uuid_ids.py:115-121 | a key is its fields with a colon between each two |
| IdBackfillKeys.ReplaceEmbeddedValues | backend/migrations/versions/20260728_0039_backfill_entity_uuid_ids.py:198-211 | one statement for each legacy id over all rows leaves every key with all of them replaced in turn |
| IdBackfillJson.ReplaceJsonValues | backend/migrations/versions/20260728_0039_backfill_entity_uuid_ids.py:241-288 | the paging loop rewrites every row exactly once, leaves nulls alone, and counts the rows it changes |
| IdBackfillJson.RewriteKeepsPlaces | backend/migrations/versions/20260728_0039_backfill_entity_uuid_ids.py:291-304 | a rewritten document has the same places, and each holds what was there, rewritten |
| IdBackfillJson.EmbeddedReferencesKeepTheirRows | backend/migrations/versions/20260728_0039_backfill_entity_uuid_ids.py:291-304 | a legacy id held anywhere in a document resolves afterwards to the row it resolved to before |
| IdBackfillJson.EmbeddedReferencesResolveExactly | backend/migrations/versions/20260728_0039_backfill_entity_uuid_ids.py:213-304 | a text held anywhere in a document resolves to a row afterwards if and only if it was the row's legacy id, or already was its own id and no legacy id occurs in it |
| IdBackfillJson.OtherTextsStay | backend/migrations/versions/20260728_0039_backfill_entity_uuid_ids.py:213-215 | a text in which no legacy id occurs stays as it is |
| IdBackfillJson.EmbeddedIdsAreRewritten | backend/migrations/versions/20260728_0039_backfill_entity_uuid_ids.py:213-215 | in a text of legacy ids and characters that occur in no legacy id, no two ids side by side, each id becomes its row's id and the rest stays |
| HistoryPrune.CollapseKeepsMeaning | backend/migrations/versions/20260730_0053_prune_heartbeat_daemon_events.py:61-75 | collapsing a history keeps its stutter-free states, its first and last event and every unreadable event, leaves no state three times in a row, and is idempotent |
| HistoryPrune.UpgradeCollapsesEveryNode | backend/migrations/versions/20260730_0053_prune_heartbeat_daemon_events.py:41-86 | the migration leaves for every node exactly the collapse of its history |
| HistoryPrune.MarkRedundant | backend/migrations/versions/20260730_0053_prune_heartbeat_daemon_events.py:61-75 | the inner loop marks exactly the events that repeat both neighbours |
| HistoryPrune.GroupByNode | backend/migrations/versions/20260730_0053_prune_heartbeat_daemon_events.py:41-75 | the dictionary holds every registered node with its events in order |
| HistoryPrune.InHistoryExactly | backend/migrations/versions/20260730_0053_prune_heartbeat_daemon_events.py:41-60 | a registration belongs to the node its payload names, or else to that of its column |
| HistoryPrune.MarkGroups | backend/migrations/versions/20260730_0053_prune_heartbeat_daemon_events.py:61-75 | an id is marked if and only if it is redundant in some node's history |
| HistoryPrune.DaemonEvents.Upgrade | backend/migrations/versions/20260730_0053_prune_heartbeat_daemon_events.py:41-86 | the log loses its dead rows and the marked rows and nothing else, also when deleted in chunks of five hundred |
| NodeAgents.Group | backend/migrations/versions/20260730_0051_normalize_daemon_node_agents.py:90-111 | the grouping loop over the rows by node and agent gives every node with rows the maps that hold exactly its rows, with the disabled agents in the order of their names |
| NodeAgents.Downgrade | backend/migrations/versions/20260730_0051_normalize_daemon_node_agents.py:78-125 | every node's columns hold exactly its rows; a node without rows reads as empty |
| NodeAgents.RowsRoundTrip | backend/migrations/versions/20260730_0051_normalize_daemon_node_agents.py:90-152 | downgrading and upgrading again keeps every key, and gives the same table if and only if every status is non-empty, no details are a JSON null and every role is absent or non-empty |
| NodeAgents.MapsRoundTrip | backend/migrations/versions/20260730_0051_normalize_daemon_node_agents.py:54-152 | upgrading and downgrading again keeps non-null details and non-empty roles, sorts the disabled agents and lists each once, and gives every agent a status, "unknown" where there was none |
| NodeAgents.SoundMapsAreSettled | backend/migrations/versions/20260730_0051_normalize_daemon_node_agents.py:128-152 | the round trip gives the same maps if and only if every agent had a status, no details were null, no role was empty, and the disabled agents were sorted and listed once |
| NodeAgents.SecondRoundTrip | backend/migrations/versions/20260730_0051_normalize_daemon_node_agents.py:54-152 | from the second round trip on nothing changes |
| Slugs.SlugShape | backend/relay/persistence/employee_handle_backfill.py:23-27 | a slug is empty or has 2 to 64 characters of the handle alphabet, no leading hyphen or dot, none at its end unless it was cut, and no two hyphens in a row |
| Slugs.SlugKeepsLetters | backend/relay/persistence/employee_handle_backfill.py:23-27 | a name with two letters, digits or underscores or more has a slug, and that has those of the lowered name in order, all of them or as many as come before the cut |
| Slugs.SlugOfSlug | backend/relay/persistence/employee_handle_backfill.py:23-27 | a name that is a slug is its own slug |
| Slugs.HyphenateRun | backend/relay/persistence/employee_handle_backfill.py:25 | a run of other characters, however long, becomes one hyphen between what stands on its two sides |
| Slugs.CollapseRun | backend/relay/persistence/employee_handle_backfill.py:26 | a run of hyphens, however long, becomes one hyphen |
| Slugs.AlphabetIs | backend/relay/persistence/employee_handle_backfill.py:25 | the characters of the handle alphabet |
| HandlePlan.FreeSuffixIsLeast | backend/relay/persistence/employee_handle_backfill.py:54-58 | the suffix found is free, every smaller one is taken, and there are no more tries than suffixed names taken |
| HandlePlan.HandleIsLeastFree | backend/relay/persistence/employee_handle_backfill.py:41-67 | a handle is free, plain whenever that is free, and else carries the least free suffix from 2 up, at most the number of taken names plus one |
| HandlePlan.ChooseHandle | backend/relay/persistence/employee_handle_backfill.py:54-58 | the suffix loop ends and returns that handle |
| HandlePlan.PlanHandles | backend/relay/persistence/employee_handle_backfill.py:41-67 | the planning loop returns the specified plan |
| HandlePlan.PlanIsOneToOne | backend/relay/persistence/employee_handle_backfill.py:30-67 | nobody is dropped or reordered and all handles are distinct and new |
| HandlePlan.PlanningAPrefix | backend/relay/persistence/employee_handle_backfill.py:30-67 | planning a prefix of the employees gives the prefix of the plan, each row against the handles before it |
| HandlePlan.PlanEmployeeHandles | backend/relay/persistence/employee_handle_backfill.py:30-67 | everybody keeps their place and gets a handle of their own: the slug of the user name, else of the display name, else the first eight characters of the id, plain unless an earlier row has it and else with the first free number; the row says which and whether there is a number |
| EventTail.EventStream.Run | backend/relay/api/session_routes.py:851-923 | the loop sends exactly the frames of the specified stream, whatever each tick appends or reports |
| EventTail.SendsOnePiece | backend/relay/api/session_routes.py:867-923 | with appends between pages a connection sends a contiguous piece of the log from its cursor on, each event once; a terminal frame without a timeout comes only after every event there was |
| EventTail.EndsOrBreaksOff | backend/relay/api/session_routes.py:867-915 | every connection either ends with a tick whose status its one terminal frame carries, out of time exactly when the session was not over or not everything was sent, or breaks off with no terminal frame when the client or the session is gone |
| EventTail.PageIsFull | backend/relay/api/session_routes.py:867-888 | a page is as long as the limit allows, one event at least, or goes to the end of the log |
| EventTail.DrainFinishes | backend/relay/api/session_routes.py:867-923 | once a finished session is quiet, enough pages to hold the backlog send everything and end the stream |
| EventTail.ReconnectResumes | backend/relay/api/session_routes.py:851-866 | a reconnect never skips an event, and starts exactly behind the last one received if and only if that one carries an id that no earlier event has |
| EventTail.ReconnectRepeats | backend/relay/api/session_routes.py:851-866 | where event ids are unique a reconnect repeats only the events without an id received last |
| EventTail.CutAndReconnect | backend/relay/api/session_routes.py:851-923 | a connection cut after any event with an id that no earlier event has and its reconnect send together one piece of the log from the first cursor on |
| EventTail.JoinedConnectionsSendOnePiece | backend/relay/api/session_routes.py:851-923 | what a client holds, up to an event with such an id, and what its reconnect sends join into one piece of the log |
| TokenDashboard.ColumnsAddUp | backend/relay/api/admin_routes.py:897-937 | adding up a table by columns or by rows gives the same |
| TokenDashboard.PartsAddUp | backend/relay/api/admin_routes.py:897-937 | selections that split a whole between them have tallies that add up to the whole's, counter by counter |
| TokenDashboard.TallyBalances | backend/relay/api/admin_routes.py:957-966 | in every tally the total is input + output + cache, and is positive if and only if a usable row is in it |
| TokenDashboard.WhatCounts | backend/relay/api/admin_routes.py:885-937 | which rows each day, the totals, each employee and each session count, and by which stamp |
| TokenDashboard.Accumulate | backend/relay/api/admin_routes.py:888-937 | after the loop every day, the totals, every employee and every session hold the tally of their own rows; each session's entry names its first row and its latest stamp |
| TokenDashboard.DaysAddUp | backend/relay/api/admin_routes.py:885-910 | the days shown add up to the window; the last seven with the rows dated later add up to the totals, so they equal the totals if and only if no usable row is dated later |
| TokenDashboard.EmployeesRanked | backend/relay/api/admin_routes.py:911-943 | the ranked employees are those of the summary days, most tokens first, each with its tally and number of sessions, and add up to the totals |
| TokenDashboard.SessionsRanked | backend/relay/api/admin_routes.py:923-942 | the ranked sessions are those of all usable rows, most recent first, and add up to all usable rows |
| TokenDashboard.DashboardTokens | backend/relay/api/admin_routes.py:865-955 | the dashboard's totals, fourteen days up to today, employees and sessions are these, it is available if and only if the summary has a usable row, and it shows the ten most recent sessions |

## Left out

- HTTP routing, headers, cookies, authentication, logging, configuration and the web client: plumbing around the modelled operations.
- Digests and name-based UUIDs (section 5.5 of RFC 9562): taken to be injective, so request ids and payloads are compared and not bytes.
- The SQL engine and JSON encoding: a table is a map or list of rows, a transaction is atomic, a unique index is a check that rejects the write.
- Admission.Attempt: a caller without an idempotency key, or without a manifest that names a round, is not modelled; the source then has no id to recognise a retry by.
- Admission.Enter: node readiness, computer identity, agent checks and capacity are one flag of the attempt, because they read stores that admission does not write; the reads before the first write are one step.
- Reopening an expired admission: it depends on the reaper's own bookkeeping, and those states are excluded.
- Deleting a session, and what happens to commands after a request is activated, up to the terminal events that `RunRequest` applies.
- The assignment event that a handoff writes, and the text of the dispatched goal: neither takes part in what is retried.
- Fingerprint.FingerprintIsCanonical: covers message intents; recovery and run intents carry no addressed agents.
- Trimming and shape checks of a reported round result: a report arrives as a valid result or as none.
- Character case is a parameter that maps one character to one character; mappings that change a string's length are not modelled.
- IdBackfillUpgrade.Backfill.Upgrade: does not model a legacy id that is the empty text inside JSON.
- IdBackfillKeys.KeysAreRewritten: a key in which a legacy id is part of a longer field is not characterised; keys are joined by colons.
- AdmissionSafety.RunRemembers: does not promise that an ended request stays ended, because `update_run_request` (backend/relay/persistence/daemon_store.py:2793-2825) writes without a guard; such a write never says prepared, because whoever reads a prepared request and writes it this way ends it.
- HandlePlan: the summary of a plan only counts its rows.
- HistoryPrune.UpgradeCollapsesEveryNode: the canonical text of a node's payload is given with the event; how it is serialised is not modelled.
- EventTail: time, heartbeats, disconnects and the wait for new events are what each tick says they are; a page is an atomic slice of the log.
- TokenDashboard.DashboardTokens: the query that supplies the usage rows, and the parsing of timestamps into dates, are inputs; an absent text is an empty one.
