# Verification model of the Vertep stateful cores

This project models the eight parts of Vertep whose guarantees hold over whole runs, and proves
those guarantees in Dafny. Run `dafny verify dfyconfig.toml` here.

Each core has the same shape. A state datatype holds the durable records and whatever history
a theorem speaks about. `Step(state, event)` follows the code branch by branch. An invariant is
shown to survive every event, and theorems about runs (`IsRun(trace, events)`) follow from it,
for any events in any order. What a step means is stated apart from its definition as well: when
exactly a call is taken, and what it records, tells or undoes. Beside it a class performs the
operations as the code does, on fields changed in place and with the code's loops, and each
method is proved to make exactly the specified step. Where code and promise part ways, a lemma
gives the exact condition and another a concrete case.

| files | what they model |
|---|---|
| `MediaIntegrity`, `BoxTree` | the walk over the boxes of an MP4 file, and a printer of box trees as its specification |
| `TextOrder`, `Timestamps` | texts in character order, and the texts that stand for times |
| `RolloutModel`, `RolloutProofs`, `RolloutInvariant`, `RolloutRuns`, `RolloutCommands`, `RolloutCoordinator` | the rolling update of nodes, with canary, self-tests, timeouts, rollback and cancel fence |
| `Governance`, `GovernanceCriteria`, `GovernanceCalls`, `GovernanceProofs`, `GovernanceRuns`, `GovernanceClient` | opening and consolidating issues on an unreliable remote |
| `ProviderSwitch`, `ProviderReports`, `ProviderRuns`, `ProviderSwitcher` | the provider switch transaction over two files and the environment |
| `Dispatch`, `DispatchCalls` | task leases |
| `TaskQueue`, `QueueLeases`, `LocalQueue`, `QueueBackends` | the task queue, its leases, its heap, its Redis scripts, and when the two agree |
| `Storyboard`, `StoryboardCalls` | storyboard versions and their retry budget |
| `Budget`, `BudgetReports`, `Audit` | the laboratory's run limiter and its hash-chained trail |

## Where the code does not meet its promise

- Rolling update: freshness compares texts. The tester's own stamps compare as times (`IsoOrder`),
  and `FreshnessExact` says which others do. A stamp east of UTC approves phases begun after it
  (`OlderOffsetApproves`), so does one marked `Z` with fewer than six digits of a fraction
  (`OlderZuluApproves`), and a null time, read as the text `None`, approves every phase
  (`NullTimeApproves`). A fraction of one to five digits with a numeric zone errs the other way:
  it refuses a phase begun at that very time.
- Rolling update: a second operator rollback can send an already rolled-back or cancelled node
  back (`RepeatedRollbackExact` says exactly when, `RepeatedRollbackSendsBack` is such a run).
- Provider switch: when the rollback's write fails, the unverified overrides stay on file and
  the next switch takes them as its baseline (`BeginHazard`, `FailedRollbackIsTakenAsBaseline`).
- Provider switch: a heartbeat reads the transaction before it takes the lock, and may roll back
  a switch confirmed in between (`StepInv`, `StaleHeartbeatUndoesConfirmed`).
- Governance: a persisted plan does not reserve its numbers. After a crash another creation may
  be given one, and then no retry of the transfer is accepted (`RetryExactly`, `StuckTransfer`).
- Governance: with the identifier series exhausted, a finding falls back to its own key and may
  be given a number in use (`NumbersStep`, `CollisionExample`).
- Dispatcher: a transport whose cancel raises stops the sweep of a departed worker's leases
  (`SweepExact`, `OrphanIsRenewed`).
- Task queue: the Redis script gives up after 100 deferred tasks, and a released, swept or
  retried task keeps its enqueue time's place in Redis but goes to the back of the heap.
  `StepAgrees` says exactly which operations keep the backends agreeing; `ReleaseParts` is a case.
- Storyboard: a worker lost while its job is still marked queued costs an attempt and leaves the
  job without a task, since that status may not be entered twice (`QueuedJobIsStranded`,
  `StrandedRun`).
- Budget: a run stuck for more than a day no longer blocks the next, though its usage is still
  unknown (`UnsettledBlocksForADay`, `StuckRunStopsBlocking`).
- Audit: the hash does not cover the extra data (`ExtraNotCovered`), and it fixes the fields of an
  entry exactly when none of its texts contains the separator (`FieldsDetermined`,
  `HeadFixesFields`, `BoundaryNotCovered`); otherwise it fixes only the canonical records.

## Model

| member | source | states |
|---|---|---|
| MediaIntegrity.DecodeHeader | adapters/media_integrity.py:75-86 | reads one box header with its 32-bit, 64-bit or to-the-end size; refuses exactly the implausible and truncated ones |
| MediaIntegrity.BoxTreeHasVideoHandler | adapters/media_integrity.py:68-97 | the loop with recursion finds a video handler exactly when the recursive definition does |
| MediaIntegrity.WalkTopLevel | adapters/media_integrity.py:109-135 | the top-level loop succeeds exactly when boxes tile the file, and yields the last movie box |
| MediaIntegrity.WalkMovie | adapters/media_integrity.py:136-158 | the movie loop succeeds exactly when boxes tile the movie and some track has a video handler |
| MediaIntegrity.VerifyMp4 | adapters/media_integrity.py:100-163 | accepts exactly the payloads of the declarative acceptance predicate, for every byte sequence; all loops terminate |
| MediaIntegrity.BoxesTile | adapters/media_integrity.py:109-135 | boxes found by the walk tile the range: each declares its own size and they meet end to end |
| MediaIntegrity.TilingIsFound | adapters/media_integrity.py:109-135 | conversely any tiling of the range is the one the walk finds, so the walk has one answer |
| MediaIntegrity.AcceptedIsTiled | adapters/media_integrity.py:100-163 | acceptance implies that boxes tile the whole file and the whole last movie box, starting with ftyp |
| MediaIntegrity.CutIsRejected | adapters/media_integrity.py:109-135 | cutting an accepted file strictly inside a top-level box that declares its size is rejected, wherever the cut falls |
| MediaIntegrity.CutToEnd | adapters/media_integrity.py:85-91 | for a last box that runs to the end of the file, exactly which cuts stay accepted: those that keep its header and, for a movie box, leave whole boxes with a video track |
| MediaIntegrity.SameInPrefix | adapters/media_integrity.py:68-97 | the verdict on a range depends only on the bytes of that range |
| BoxTree.DecodeEncode | adapters/media_integrity.py:75-86 | printed big-endian numbers of any width read back |
| BoxTree.ReadPrinted | adapters/media_integrity.py:75-91 | a printed header is read back with its kind, header size and length, for all three size forms |
| BoxTree.WalkForest | adapters/media_integrity.py:68-97 | on any printed forest the recursive search finds a video handler exactly when the forest has one |
| BoxTree.WalkMovies | adapters/media_integrity.py:109-130 | on any printed forest the top-level walk finds exactly the printed boxes and the last movie among them |
| BoxTree.WalkTracks | adapters/media_integrity.py:139-158 | on any printed movie the track check is exact |
| BoxTree.AcceptsExactlyVideo | adapters/media_integrity.py:100-163 | any printed box forest, in any size forms, is accepted exactly when it starts with ftyp and a track of its last movie reaches a video handler |
| BoxTree.CodesSpellNames | adapters/media_integrity.py:68-158 | the box types singled out are the four-letter names in ASCII |
| RolloutInvariant.OrderedNodesMeaning | core/rolling_update.py:82-86 | each requested node once; the named orders put one kind first and sort within a kind |
| RolloutProofs.BeginMeaning | core/rolling_update.py:272-303 | what turning a rollout around does to every node, field by field: who rolls back, since when, with which request, and to the version it had noted; and the state after |
| RolloutProofs.RevertNodesMeaning | core/rolling_update.py:391-431 | what one reconcile of a rolling-back rollout does to every node: rolled back exactly when confirmed, failed when overdue, untouched once an overdue node ended the loop; and the state after |
| RolloutProofs.AdvanceMeaning | core/rolling_update.py:334-381 | the active node fails exactly without a record, past its timeout, on an update error or a failed self-test; otherwise it leaves draining exactly when its record reports drained, noting the version that record reports, is tested once it reports the target, and is ready exactly when approved |
| RolloutInvariant.RunActiveMeaning | core/rolling_update.py:432-496 | a reconcile of a running rollout succeeds exactly when all nodes are ready, and else advances or fails the one node after the ready ones, as AdvanceMeaning states |
| RolloutInvariant.InvStep | core/rolling_update.py:105-496 | every operation, agent report and environment change keeps the invariant |
| RolloutRuns.OneNodeAtATime | core/rolling_update.py:132-162 | in every reachable forward rollout the phases read READY, at most one active, PENDING; with an unpromoted canary all later nodes are PENDING |
| RolloutRuns.StepContinues | core/rolling_update.py:132-496 | every step is a new start or keeps operation and nodes, makes a node READY or ROLLED_BACK only on evidence, and only raises phase ranks |
| RolloutRuns.PreviousStep | core/rolling_update.py:347-353 | in any step of an operation a node that leaves PENDING or DRAINING for UPDATING has a record that reports drained, spelled out for CORE and workers, and notes the version it reports; every other step keeps the noted version |
| RolloutRuns.PreviousWasReported | core/rolling_update.py:347-353 | in every run a node with a previous version, or whose update has begun, left draining earlier in the same operation while its record reported exactly that version |
| RolloutRuns.ReadyWasApproved | core/rolling_update.py:363-380 | the step of the run at which a READY node was approved exists, in the same operation |
| RolloutRuns.SucceededOnlyIfApproved | core/rolling_update.py:436-441 | SUCCEEDED only if every node was approved in this operation |
| RolloutRuns.ApprovalEvidence | core/rolling_update.py:470-495 | approval means target version reported, PASSED, the node's own nonce, operation and version echoed, and a text not before the start: a stamp as the tester writes it, or any that compares as its time or earlier, is not older; of any other its clock reading passes |
| RolloutRuns.RequestAge | core/rolling_update.py:182-204 | a request seen later was already there or carries a nonce drawn since |
| RolloutRuns.NonceBelongsToOneNode | core/rolling_update.py:182-204 | two requests with one nonce, anywhere in a run, are the same request of the same node |
| RolloutRuns.LinearlyManyChanges | core/rolling_update.py:272-318 | without a repeated operator rollback an operation on n nodes makes at most 7n phase changes |
| RolloutRuns.RepeatedRollbackExact | core/rolling_update.py:306-311 | exactly when a second operator rollback keeps every phase rank from falling |
| RolloutRuns.RepeatedRollbackSendsBack | core/rolling_update.py:306-311 | counterexample: a run in which the second operator rollback sends a cancelled node back |
| RolloutRuns.TimeoutChangesSomePhase | core/rolling_update.py:314-318 | a reconcile past the timeout of an active or rolling-back node changes some phase |
| RolloutRuns.FewLateTicks | core/rolling_update.py:314-318 | an operation on n nodes sees at most 7n reconciles past the timeout of an active or rolling-back node |
| RolloutRuns.TerminalStays | core/rolling_update.py:132-179 | the five final states stay, nodes included, until a new start |
| RolloutRuns.FailureTurnsEveryNode | core/rolling_update.py:272-303 | after a failure exactly the READY nodes, those under test that did not just fail, and the workers reporting the target roll back; none stays PENDING or active, and each keeps its previous version |
| RolloutRuns.RolledBackWasConfirmed | core/rolling_update.py:321-331 | the step of the run at which a ROLLED_BACK node was confirmed exists, in the same operation |
| RolloutRuns.RolledBackToWhatItRan | core/rolling_update.py:321-331 | a ROLLED_BACK node with a previous version reported that version when it left draining and again, later, when its rollback was confirmed |
| RolloutRuns.RevertedOnlyIfConfirmed | core/rolling_update.py:391-431 | state ROLLED_BACK only if each node that was rolling back was confirmed |
| RolloutRuns.ConfirmationEvidence | core/rolling_update.py:321-331 | confirmation means the node's own previous version reported and a bound PASSED self-test of it, with a text not before the phase start in the same sense |
| RolloutRuns.ConfirmationAnswersEarlierRequest | core/rolling_update.py:182-204 | when tokens cannot be guessed, a rollback is confirmed only by an answer to a request issued before that step |
| RolloutRuns.CancelUnacknowledged | core/rolling_update.py:165-179 | a fresh cancel fence has been acknowledged by nobody |
| RolloutRuns.FenceHolds | core/rolling_update.py:105-129 | after a cancel a tied CORE record stays unchanged until a report carries the matching acknowledgement |
| RolloutRuns.CancelHolds | core/rolling_update.py:105-179 | over an honest run every CORE record tied to a cancelled operation stays as the cancel left it until the matching acknowledgement or a new start |
| RolloutRuns.CleanupNeverUnties | core/rolling_update.py:249-269 | clearing a cancelled worker's commands ties it to the fence and never unties it |
| RolloutCommands.LaunchMeaning | core/rolling_update.py:132-153 | a launch is taken exactly within the stated limits and with no rollout going on, and starts each requested node once, pending, with nothing to go back to, under an unused token |
| RolloutCommands.BeginTells | core/rolling_update.py:272-303 | when a rollback begins every node that rolls back is told so, with its own previous version and request; what agents reported and all other records stay |
| RolloutCommands.RevertNodesTell | core/rolling_update.py:391-431 | a reconcile reminds every rolling-back node it reaches of its previous version and request, releases those confirmed, and touches no other record |
| RolloutCommands.RunActiveTells | core/rolling_update.py:334-496 | a reconcile tells the node it works on exactly what its new phase calls for and touches no other record; on a failure those that roll back are told so |
| RolloutCommands.ReportMeaning | core/rolling_update.py:105-129 | a CORE report is refused exactly when the node is no CORE of the rollout or the fence holds unacknowledged; taken, it writes its own fields and the time and keeps the others |
| RolloutCommands.CancelMeaning | core/rolling_update.py:165-179 | a cancel leaves ready, failed and rolled-back nodes, cancels every other, touches no record and raises an unused fence token |
| RolloutCommands.CleanupMeaning | core/rolling_update.py:249-269 | after a cancel exactly the cancelled nodes' workers lose every command and carry the fence; what else they report stays, and so does every other worker |
| RolloutCommands.CoreNames | core/rolling_update.py:89-97 | CORE nodes are core itself and every name that begins with core- |
| Timestamps.IsoOrder | core/rolling_update.py:15-16 | texts of UTC times as `_now` writes them, with and without microseconds, sort as the times do |
| Timestamps.StampAgainstStart | core/rolling_update.py:375-377 | comparing a phase start with a stamp of any fraction and zone compares clock readings; fewer than six digits marked Z count as their whole unit, fewer than six with an offset as before an equal time |
| RolloutRuns.FreshnessOfAnyText | core/rolling_update.py:375-377 | for any text and any time: it approves no phase begun after that time if and only if none begun a microsecond after it, and exactly those begun by then if and only if also one begun just then |
| RolloutRuns.FreshnessExact | core/rolling_update.py:375-377 | a stamp approves no phase begun after it if and only if its offset is zero or west and it is not marked Z with fewer than six digits; exactly those begun by then if and only if its offset is zero and it has six digits or more, or a numeric zone and no digits but zeros |
| RolloutRuns.OlderOffsetApproves | core/rolling_update.py:485-492 | counterexample: every stamp in a zone east of UTC approves phases begun after it, up to its offset later |
| RolloutRuns.OlderZuluApproves | core/rolling_update.py:485-492 | counterexample: every stamp marked Z with fewer than six digits approves phases begun after it, up to its last digit's unit |
| RolloutRuns.NullTimeApproves | core/rolling_update.py:363-380 | counterexample: a self-test whose time is null approves a node however old it is |
| RolloutCoordinator.RolloutStore.StartRollout | core/rolling_update.py:132-153 | a valid request, with no rollout under way, replaces the record by all-PENDING nodes in order under a new operation id; anything else is refused and writes nothing |
| RolloutCoordinator.RolloutStore.PromoteRollout | core/rolling_update.py:156-162 | only a rollout awaiting promotion is promoted and runs on; any other is left as it was and the call says so |
| RolloutCoordinator.RolloutStore.CancelRollout | core/rolling_update.py:165-179 | the loop cancels every node not READY, FAILED or ROLLED_BACK and raises a fence with a new token; a rollout not under way is left alone |
| RolloutCoordinator.RolloutStore.UpdateCoreCoordinator | core/rolling_update.py:105-129 | an acknowledgement in the update counts before the fence is checked; a fenced or foreign update writes nothing |
| RolloutCoordinator.RolloutStore.EnsureRequest | core/rolling_update.py:182-204 | keeps a matching request, else draws a new nonce |
| RolloutCoordinator.RolloutStore.BeginRollback | core/rolling_update.py:272-303 | the in-place loop over nodes, workers and coordinators agrees with the step that BeginMeaning describes |
| RolloutCoordinator.RolloutStore.CleanupCancelledWorkers | core/rolling_update.py:249-269 | clears the commands of exactly the cancelled nodes' workers and stamps the fence on them |
| RolloutCoordinator.RolloutStore.ReconcileRollback | core/rolling_update.py:391-431 | the loop with its early return agrees with the step that RevertNodesMeaning describes |
| RolloutCoordinator.RolloutStore.ReconcileCoreActive | core/rolling_update.py:334-381 | the active CORE node fails or moves exactly as AdvanceMeaning states from what its coordinator record reports, and the in-place changes are that step |
| RolloutCoordinator.RolloutStore.ReconcileWorkerActive | core/rolling_update.py:445-495 | the active worker node fails or moves exactly as AdvanceMeaning states from what its record reports, a missing worker failing it, and the in-place changes are that step |
| RolloutCoordinator.RolloutStore.ReconcileRollout | core/rolling_update.py:384-496 | the whole reconcile, cleanup first, is one Tick of the runs the theorems speak of |
| GovernanceProofs.SendStep | lab/governance.py:350-380 | every step keeps: only the last request of a key can be unrefused, every unrefused request has a committed intent, applied requests made different issues |
| GovernanceProofs.RecordStep | lab/governance.py:328-380 | every step keeps: one record per key, each describing the published content and backed by an issue that had exactly the approved body |
| GovernanceRuns.AtMostOneIssuePerKey | lab/governance.py:350-380 | in every run with lost replies, crashes, late deliveries and retries, two requests of one key never both take effect; a key is sent again only after a refusal |
| GovernanceRuns.UnrefusedHasIntent | lab/governance.py:374-380 | every unrefused request in a run has a durable intent that blocks another |
| GovernanceProofs.RequestExactlyWhen | lab/governance.py:350-380 | a new create request goes out exactly when the search is empty and the key has no intent, or a refused one with this very content |
| GovernanceCriteria.CleanPicks | lab/governance.py:735-736 | of a list of criteria exactly the items that are not blank are kept, trimmed and in their order, each from a place of its own |
| GovernanceCriteria.CleanMeaning | lab/governance.py:735-736 | a text is a criterion exactly when it is not empty and some item, trimmed, is that text |
| GovernanceCriteria.CleanCounts | lab/governance.py:735-736 | a criterion counts as often as it is written |
| GovernanceCriteria.PlanSoundMeaning | lab/governance.py:745-781 | a plan is sound exactly when, on the lists as written, the source is named and something remains, every successor has its own title and a criterion, and what they take is what remains, each criterion at one place |
| GovernanceCriteria.PlannedNumbers | lab/governance.py:795-817 | every number of an accepted plan is the asked-for, well-formed one or a reserved one, and nobody else holds it: unused anywhere, or held by an earlier attempt of this very transfer |
| GovernanceCalls.EffectMeaning | lab/governance.py:350-380 | a request is recovered only from a search hit that carries its marker, title and very body under an intent of the same content, and is sent only when nothing was found |
| GovernanceCalls.IssueCall | lab/governance.py:616-698 | an existing record is returned only when it is the key's first and of the same title, kind, metadata and identifier; anything new goes out only with the gate's leave, unrecorded, with exactly the content asked for |
| GovernanceCalls.LabCall | lab/governance.py:406-475 | the same for findings: the record must hold this very finding, and a retry keeps the number of its intent |
| GovernanceCalls.RoundMeaning | lab/governance.py:853-872 | a verification round goes on exactly when every successor has a record and this one's first record points to the source and holds the body read back |
| GovernanceCalls.CoverageMeaning | lab/governance.py:873-879 | the source is to be closed exactly when every successor has a record, no criterion stands twice in the records, and they hold what remained |
| GovernanceCalls.CloseMeaning | lab/governance.py:884-892 | what is closed is the issue the caller names or else the one on the source's first record; with neither nothing is closed |
| GovernanceRuns.RetryKeepsPlan | lab/governance.py:783-820 | a retried consolidation keeps exactly the persisted plan and its identifiers |
| GovernanceRuns.RetryExactly | lab/governance.py:783-820 | a retried consolidation goes on if and only if every number of its plan is well formed and still free or the transfer's own |
| GovernanceRuns.PlansReserveNothing | lab/governance.py:334-348 | a persisted plan adds nothing to the identifiers known to be held |
| GovernanceRuns.StuckTransfer | lab/governance.py:783-820 | counterexample: a run in which a planned number is given away after a crash, and every retry is refused |
| GovernanceRuns.StepInv | lab/governance.py:350-912 | every step keeps all invariants, and histories only grow |
| GovernanceRuns.PlansKept | lab/governance.py:783-820 | over a whole run a persisted plan never changes |
| GovernanceRuns.CoveredGrows | lab/governance.py:853-879 | coverage once verified is never lost |
| GovernanceRuns.ClosedOnlyIfMoved | lab/governance.py:718-912 | a source is closed, or asked to be closed, only if every remaining criterion that is not blank after trimming stands in exactly one persisted successor record, and the records hold nothing else; the successors link to it, were each read back as approved, and are those first reserved |
| GovernanceRuns.NumbersStep | lab/governance.py:334-348 | every step keeps identifiers unique among decision keys, except exactly one collision, which a caller can see before the call: an exhausted series and an admissible new finding keyed by a number in use |
| GovernanceRuns.NumberBelongsToOneKey | lab/governance.py:334-348 | in every run without that collision an identifier belongs to one decision key |
| GovernanceRuns.CollisionExample | lab/governance.py:446-459 | the collision, at the end of a run: the series is exhausted and a finding's key is a number in use |
| GovernanceClient.Client.AlreadyCreated | lab/governance.py:328-332 | the loop finds the first record of a key |
| GovernanceClient.Client.RecordByIdentifier | lab/governance.py:382-386 | the loop finds the first record of an identifier |
| GovernanceClient.Client.CreateEffect | lab/governance.py:350-380 | the intent is durable before anything is sent; otherwise recovered, refused or a duplicate, exactly as specified |
| GovernanceClient.Client.CreateIssue | lab/governance.py:616-698 | up to the request: exactly the specified outcome and durable change |
| GovernanceClient.Client.ProposeLabIssue | lab/governance.py:406-475 | up to the request: exactly the specified outcome and durable change |
| GovernanceClient.Client.PersistOutcome | lab/governance.py:374-380 | the record, or the intent marked refused or uncertain |
| GovernanceClient.CheckPlan | lab/governance.py:745-781 | the planning loop accepts exactly the plans that, on the lists as written, give every remaining criterion that is not blank to one place of one titled successor and take nothing else |
| GovernanceClient.Client.ResolveIdentifiers | lab/governance.py:795-817 | the identifier loop agrees with its recursive specification |
| GovernanceClient.Client.PlanConsolidation | lab/governance.py:719-831 | the plan is durable before the first remote effect, and only a sound, unchanged one |
| GovernanceClient.Client.CreateSuccessor | lab/governance.py:833-853 | the next successor, keyed by its own identifier |
| GovernanceClient.Client.VerifySuccessor | lab/governance.py:853-879 | one round of link and body checks, or the coverage check |
| GovernanceClient.Client.CloseSource | lab/governance.py:880-890 | the close request, for the number given or on record |
| GovernanceClient.Client.RecordTransfer | lab/governance.py:896-903 | the transfer record, after the confirmed close |
| ProviderRuns.UndoRestores | core/provider_switch.py:592-627 | undoing the changed keys one by one gives back exactly the previous overrides |
| ProviderRuns.StepInv | core/provider_switch.py:140-428 | every step keeps the way back to the last confirmed overrides, except exactly the two hazards |
| ProviderRuns.BeginHazard | core/provider_switch.py:349-376 | the first hazard is exactly a switch begun while a failed activation's overrides are still on file |
| ProviderRuns.FreshHeartbeatIsSafe | core/provider_switch.py:140-172 | a heartbeat that acts on the transaction still on file is never the second hazard |
| ProviderRuns.RollbackLandsOnConfirmed | core/provider_switch.py:286-310 | without a hazard every rollback, supersession, refusal or recovery leaves the confirmed overrides, and only a commit of reports that ProviderReports.ConfirmedWasObserved spells out confirms |
| ProviderReports.ConfirmedWasObserved | core/provider_switch.py:175-195 | in every run, hazards included, overrides become confirmed only when each target's first report of the delivered revision, or the heartbeat's report, has no error and observes every delivered value |
| ProviderReports.CheckMeaning | core/provider_switch.py:392-410 | the check passes exactly when the matrix is fine and every target vouches so for what is delivered |
| ProviderReports.DifferingValueRollsBack | core/provider_switch.py:184-193 | one key observed otherwise in one target's first report of the revision makes the call roll back |
| ProviderReports.HeartbeatMeaning | core/provider_switch.py:140-172 | a heartbeat that reports the delivered revision confirms exactly when it has no error and observes every value, and otherwise restores the previous overrides |
| ProviderReports.DeliveredMeaning | core/provider_switch.py:85-103 | what is delivered is, variable by variable, the override of each one on the allow list, or after a rolled-back switch with workers what it was before |
| ProviderReports.RolledBackDelivery | core/provider_switch.py:376-381 | after a rolled-back switch each switched variable is delivered as it was overridden, set or defaulted before |
| ProviderReports.AwaitedSwitch | core/provider_switch.py:286-310 | while a switch awaits its worker, another slot's choice changes nothing and the same slot's first restores overrides and environment |
| ProviderSwitcher.SwitchIsAllOrNothing | core/provider_switch.py:313-428 | a call whose writes complete leaves the wanted overrides and environment on record when matrix and reports are fine, and otherwise leaves both exactly as they were |
| ProviderRuns.RestartRestores | core/provider_switch.py:256-276 | a crash at any point and a restart leave the confirmed overrides, or a switch that awaits its worker with the way back |
| ProviderRuns.AtRestIsConfirmed | core/provider_switch.py:256-427 | with completing writes and crashes anywhere, at rest the environment is the inherited one with the overrides, which are the confirmed ones unless a worker is awaited |
| ProviderRuns.FailedRollbackIsTakenAsBaseline | core/provider_switch.py:592-627 | counterexample: after a rollback that could not be written the next rollback lands on a backend never confirmed |
| ProviderRuns.StaleHeartbeatUndoesConfirmed | core/provider_switch.py:140-172 | counterexample: a heartbeat that read a transaction before the lock undoes the switch confirmed since |
| ProviderSwitcher.VerifyWorkers | core/provider_switch.py:175-195 | confirmed exactly when every target's first report of the revision has no error and observes every expected value, a missing one as empty; contradicted exactly when some first report does not |
| ProviderSwitcher.DriveIsRun | core/provider_switch.py:286-428 | every whole call returns and is a run of single steps, so what each step keeps, the call keeps |
| ProviderSwitcher.Switcher.RestoreEnvironment | core/provider_switch.py:163-167 | the loop restores exactly the captured variables |
| ProviderSwitcher.Switcher.ApplyOverrides | core/provider_switch.py:270-276 | the loop applies exactly the validly named overrides |
| ProviderSwitcher.Switcher.Restart | core/provider_switch.py:256-276 | an interrupted activation is undone in file and environment and recorded as rolled back; a failed write stops the recovery there without stopping the start |
| ProviderSwitcher.Switcher.RollBack | core/provider_switch.py:592-627 | overrides and environment are put back; when the overrides cannot be written the environment still is and no rollback is recorded |
| ProviderSwitcher.Switcher.SwitchProvider | core/provider_switch.py:286-310 | an awaiting selection of the same slot is first taken back to its baseline, one of another slot refuses the call; the whole call is the run that DriveIsRun describes |
| ProviderSwitcher.Switcher.Switch | core/provider_switch.py:313-428 | the activation is recorded before the overrides are written, and both before the environment changes; each failure stops where the code stops |
| ProviderSwitcher.Switcher.Verify | core/provider_switch.py:392-424 | success, exactly when matrix, write and every target's first report are fine, leaves the new overrides committed, or awaiting when no worker is online; anything else, a failed commit record among it, rolls back |
| ProviderSwitcher.Switcher.ReconcileActivation | core/provider_switch.py:140-172 | a report of the delivered revision commits when it has no error and observes every delivered value, and otherwise restores the previous overrides and captured variables; any other report changes nothing |
| Dispatch.StepInv | core/dispatcher.py:270-511 | every call keeps lease ids unique and at most one live lease per worker |
| Dispatch.LiveLeasesDistinctWorkers | core/dispatcher.py:371-416 | in every run, from the last call on, two live leases never share a worker or an id |
| Dispatch.SweepReaches | core/dispatcher.py:358-365 | unregistering revokes exactly those leases of the worker that come before the first cancel that raises, that one included |
| Dispatch.BecomesDead | core/dispatcher.py:316-365 | a lease id dies when accepted, revoked, replaced, swept with its worker, or expired |
| Dispatch.DeadIdNeverServes | core/dispatcher.py:324-339 | no accept or renew with a dead id ever succeeds again |
| Dispatch.AtMostOneResult | core/dispatcher.py:316-322 | each lease id yields at most one accepted result in any run |
| DispatchCalls.AcceptedExactly | core/dispatcher.py:316-330 | a result is accepted exactly when the task is leased to that worker under that id, unexpired, and the worker is registered and was heard from in the last 45 seconds |
| DispatchCalls.AcceptedWasGiven | core/dispatcher.py:316-330 | in every run an accepted result has an earlier assign or submit that gave this task to this worker under this id |
| DispatchCalls.RenewedExactly | core/dispatcher.py:332-339 | a renewal is granted exactly for an unexpired lease of that worker and id, and moves its expiry by the duration |
| DispatchCalls.RenewedWasGiven | core/dispatcher.py:332-339 | in every run a granted renewal has an earlier assign or submit that gave this task to this worker under this id |
| DispatchCalls.AssignedExactly | core/dispatcher.py:371-416 | a task is assigned exactly when it has no live lease and some worker can take it, spelled out check by check; the first such worker in registration order gets it under a new id |
| DispatchCalls.SubmittedExactly | core/dispatcher.py:298-314 | a submission keeps its assignment exactly when the worker has a transport that took the task |
| DispatchCalls.RegistryMeaning | core/dispatcher.py:292-357 | registering, a heartbeat and a transport change the named worker's own entries only, a new worker comes last, and no lease is touched |
| DispatchCalls.WithoutJoins | core/dispatcher.py:358-365 | leaving the registration order removes the worker and keeps the others in their places |
| Dispatch.FailedSubmitLeavesNothing | core/dispatcher.py:298-314 | a failed submit leaves no new lease; a successful one adds exactly its own |
| Dispatch.SweepExact | core/dispatcher.py:358-365 | exactly when unregistering leaves a lease of the departed worker: a cancel of an earlier one raised |
| Dispatch.StaffedStep | core/dispatcher.py:358-365 | every call keeps every lease with a registered worker, except exactly that sweep |
| Dispatch.LeasesAreStaffed | core/dispatcher.py:342-365 | in every run whose cancels do not raise, every lease's worker is registered |
| Dispatch.OrphanIsRenewed | core/dispatcher.py:332-339 | counterexample, a run: the lease an abandoned sweep leaves is renewed, though it can never be accepted |
| Dispatch.Dispatcher.FindCandidates | core/dispatcher.py:453-485 | the loop lists exactly the eligible workers, in registration order |
| Dispatch.Dispatcher.AssignTask | core/dispatcher.py:367-416 | the first eligible worker in registration order gets a lease with a new id and a refreshed heartbeat; a task with a live lease, or none eligible, changes nothing |
| Dispatch.Dispatcher.SubmitTask | core/dispatcher.py:298-314 | assigns and sends; without a transport, or when sending raises, the lease is revoked again |
| Dispatch.Dispatcher.AcceptResult | core/dispatcher.py:316-330 | accepts, and removes the lease, exactly when the task is leased to this worker under this id, unexpired, and the worker is registered and was heard from in the last 45 seconds |
| Dispatch.Dispatcher.RenewLease | core/dispatcher.py:332-339 | extends exactly the named live lease of the named worker; no registration or heartbeat is asked for |
| Dispatch.Dispatcher.RevokeTask | core/dispatcher.py:492-501 | removes the task's lease, live or not, and says whether there was one |
| Dispatch.Dispatcher.UnregisterNode | core/dispatcher.py:358-365 | removes the worker and then its leases one by one, up to the first cancel that raises |
| TaskQueue.StepInv | core/queue.py:176-386 | every operation keeps each task in exactly one place and the ready rows in order |
| TaskQueue.ExactlyOnePlace | core/queue.py:176-386 | over any run every task is in exactly one of ready, in flight, dead or finished |
| TaskQueue.BuryExact | core/queue.py:329-344 | dead-lettering keeps the partition exactly when the task is known, not ready and not buried |
| TaskQueue.DiscardMeaning | core/queue.py:271-281 | a discarded task is neither ready nor in flight, the partition kept |
| TaskQueue.SweepMovesExactly | core/queue.py:295-316 | a sweep at t moves exactly the in-flight tasks not active at t |
| TaskQueue.ClaimIsLeast | core/queue.py:200-227 | the heap claim takes the least due task by priority and sequence and leaves all others ready |
| QueueLeases.LeaseKeepsTask | core/queue.py:200-246 | in any run a claimed task stays in flight under its deadline, and no other claim returns it, until it is given back or a sweep comes at the claim's time plus the lease |
| QueueLeases.ClaimTakesFirst | core/queue.py:200-227 | a claim takes, of the tasks whose time has come, the one of highest priority and earliest enqueued, leases it from now, and takes none only when none has come |
| QueueLeases.SweptExactly | core/queue.py:295-316 | a sweep makes ready exactly the tasks whose deadline has come and leaves every other lease as it was |
| QueueLeases.TaskAsEnqueued | core/queue.py:176-386 | in any run a ready or in-flight task has the priority, time and deferral it was enqueued with; a retried dead letter keeps priority and deferral |
| QueueLeases.RenewedExactly | core/queue.py:237-246 | a renewal moves the deadline of exactly the named in-flight task |
| TaskQueue.RunClaimScript | core/queue.py:12-28 | the script's pop and re-add loop claims the first due of the first hundred and leaves all others |
| TaskQueue.ScoreIsLexicographic | core/queue.py:183-186 | the score orders by priority, then time, for times below the weight |
| TaskQueue.MirrorIsTheHeap | core/queue.py:176-192 | the sorted set and the heap list the same tasks in the same order when times follow sequences |
| TaskQueue.BackendsAgree | core/queue.py:200-227 | the backends claim the same task if and only if at most 99 deferred tasks precede it, or none is due |
| QueueBackends.MirrorsExactly | core/queue.py:176-192 | the sorted set mirrors the heap exactly when it lists the same tasks in the same order and enqueue times follow sequences |
| QueueBackends.EnqueueMirrors | core/queue.py:176-192 | an enqueue keeps the backends agreeing exactly when the new task is later than the ready ones of its priority |
| QueueBackends.ReleaseMirrors | core/queue.py:283-293 | a release keeps the backends agreeing exactly when every ready task of its priority was enqueued earlier |
| QueueBackends.SweepMirrors | core/queue.py:295-316 | a sweep keeps them agreeing exactly when the swept tasks fit behind the ready ones in sweep order, whatever order Redis walks its hash in |
| QueueBackends.ClaimMirrors | core/queue.py:200-227 | a claim keeps them agreeing exactly when at most 99 deferred tasks come first or none is due, and then takes the same task |
| QueueBackends.StepAgrees | core/queue.py:176-386 | exactly the agreeable operations, of all nine, keep the backends the same; a caller can check which those are beforehand |
| QueueBackends.BackendsAgreeOverRuns | core/queue.py:12-386 | over any run of agreeable operations the backends hold the same and claim the same, and the next operation keeps it so exactly when it is agreeable |
| TaskQueue.ReleaseParts | core/queue.py:283-293 | counterexample: after a release the backends claim different tasks |
| LocalQueue.TaskQueue.Claim | core/queue.py:212-227 | the pop and re-push loops make exactly the specified claim |
| LocalQueue.TaskQueue.Enqueue | core/queue.py:176-192 | the task is ready under the next sequence number, behind all of its priority |
| LocalQueue.TaskQueue.Ack | core/queue.py:229-235 | an in-flight task is finished; any other is left alone |
| LocalQueue.TaskQueue.Renew | core/queue.py:237-246 | moves the deadline of an in-flight task, expired or not, and refuses any other |
| LocalQueue.TaskQueue.Discard | core/queue.py:271-281 | the filter loop removes the task from in flight and from every ready row, keeping the order of the rest |
| LocalQueue.TaskQueue.Release | core/queue.py:283-293 | an in-flight task becomes ready again under a new sequence number |
| LocalQueue.TaskQueue.RequeueExpired | core/queue.py:295-316 | collects, sorts and re-enqueues exactly the expired, and reads a zero time as now |
| LocalQueue.TaskQueue.DeadLetter | core/queue.py:329-344 | the task leaves in flight and is appended to the dead letters, whether or not it was in flight |
| LocalQueue.TaskQueue.RequeueDeadLetter | core/queue.py:367-386 | the first dead letter of the id becomes ready under a new id and time |
| Storyboard.StepInv | core/storyboard.py:17-407 | every operation keeps versions 1..n, only the last pending, the active one last |
| Storyboard.HistoryHasNoGaps | core/storyboard.py:163-218 | the same over every run |
| Storyboard.HistoryOnlyGrows | core/storyboard.py:201-218 | a step appends at most one version, only on an admitted result of the job's task, and renumbers none |
| Storyboard.SpentStep | core/storyboard.py:26-57 | an automatic requeue spends exactly one attempt of the version's budget, and nothing refunds it |
| Storyboard.BudgetHolds | core/runtime.py:32-124 | for one version failed results, lost leases and lost workers together cause at most N-1 automatic requeues unless a branch restarts the budget |
| Storyboard.BudgetRestartsAndPins | core/storyboard.py:352-383 | a history branch restarts the budget; a retry keeps the pinned revision |
| StoryboardCalls.GenerateMeaning | core/storyboard.py:26-89 | the first attempt at a version starts its budget and pins the revision wanted, or the job's; queueing it again keeps both; the new task is queued at the job's priority |
| StoryboardCalls.ResultMeaning | core/storyboard.py:91-218 | case by case: only the job's own task counts; a failure spends an attempt and requeues below the limit, else fails the job; only the very next version is appended, superseding what was pending |
| StoryboardCalls.ApprovalMeaning | core/storyboard.py:240-265 | exactly the last version, still undecided and with its images approved, is approved; nothing else changes |
| StoryboardCalls.RejectionMeaning | core/storyboard.py:322-339 | exactly the last version, still undecided, is rejected; nothing else changes |
| StoryboardCalls.RegenerationMeaning | core/storyboard.py:341-350 | exactly the last version, still undecided, is superseded and the next one queued |
| StoryboardCalls.BranchMeaning | core/storyboard.py:352-383 | a branch is taken exactly from a decided version; an approved one is superseded, and the next version starts with a fresh budget and revision |
| StoryboardCalls.LostLeaseMeaning | core/runtime.py:32-124 | a lost lease counts only for the task of a job being generated, spends one attempt, and requeues below the limit, else fails the job |
| StoryboardCalls.LostWorkerMeaning | core/api/job_helpers.py:1815-1865 | a lost worker counts only for the task of a queued or generating job and spends one attempt; a generating one is requeued below the limit, a queued one is not |
| Storyboard.ExpiryClearsTheQueue | core/runtime.py:32-124 | the expired id is neither ready nor in flight afterwards, every task stays in one place, the replacement is the job's task |
| Storyboard.WorkerLossClearsTheQueue | core/api/job_helpers.py:1815-1865 | the same when the worker's heartbeat is lost while the job is generating |
| Storyboard.QueuedJobIsStranded | core/api/job_helpers.py:1836-1843 | a lost worker leaves the job without task and unfailed exactly when it is still marked queued and has attempts left |
| Storyboard.StrandedRun | core/api/job_helpers.py:1815-1843 | such a run from the start: a worker lost before its job is marked as generating |
| Storyboard.StoryboardService.QueueBoard | core/storyboard.py:26-89 | a new version restarts the budget and pins its revision, a retry keeps both; the task is queued and becomes the job's |
| Storyboard.StoryboardService.AcceptResult | core/storyboard.py:91-218 | a foreign, stale or wrongly numbered result changes nothing; a failure spends one attempt; a storyboard supersedes all pending ones and is appended |
| Storyboard.StoryboardService.ExpireLease | core/runtime.py:32-124 | only the job's own generating task is handled: discarded, one attempt spent, replaced or buried |
| Storyboard.StoryboardService.LoseWorker | core/api/job_helpers.py:1815-1865 | only the job's own queued or generating task is handled: discarded, one attempt spent, replaced or buried |
| Storyboard.StoryboardService.ApproveBoard | core/storyboard.py:240-265 | only the active pending version, with its images approved, is approved |
| Storyboard.StoryboardService.RejectBoard | core/storyboard.py:322-339 | only the active pending version is rejected |
| Storyboard.StoryboardService.RegenerateBoard | core/storyboard.py:341-350 | the active pending version is superseded and the next one queued |
| Storyboard.StoryboardService.RegenerateFromHistory | core/storyboard.py:352-383 | any decided version may be branched from, which queues the next version with a fresh budget; a pending one refuses |
| Budget.StepInv | lab/budget.py:144-212 | reserving, settling and pausing keep what each run was admitted on |
| Budget.RoomKept | lab/budget.py:199-212 | settling a run keeps the room found for every later run |
| Budget.WindowIsPrefix | lab/budget.py:114-126 | the counts of any window of an ordered ledger are those of a prefix |
| Budget.EveryWindowIsBounded | lab/budget.py:113-196 | every one-hour and 24-hour window ending at any time holds at most the allowed runs, one unsettled run, and tokens below the limit plus the last run's |
| Budget.UnsettledBlocksForADay | lab/budget.py:187-188 | a reservation succeeds if and only if the other limits leave room and no unsettled run started within the last day |
| Budget.StuckRunStopsBlocking | lab/budget.py:128-141 | a run stuck for over a day no longer blocks the next |
| BudgetReports.RecordedExactly | lab/budget.py:199-212 | a report settles the last running run: it keeps its start and has exactly the tokens and status reported, every other run unchanged; with none running nothing changes |
| BudgetReports.ReportedTokensBlock | lab/budget.py:169-212 | in every run, once the tokens reported for runs started within a day add up to the limit, no reservation is granted |
| BudgetReports.ReservedExactly | lab/budget.py:169-196 | a reservation is granted exactly when no pause is on and the hour, day, unsettled and token checks leave room; then it adds one running run that starts now |
| BudgetReports.PauseHolds | lab/budget.py:145-166 | no reservation is granted before a pause is over, which lasts a second at least |
| BudgetReports.CountIsNumber | lab/budget.py:113-126 | the count of a window is the number of runs started in it |
| Budget.BudgetLedger.Usage | lab/budget.py:128-141 | the counting loop equals the declarative counts of the window |
| Budget.BudgetLedger.ReserveRun | lab/budget.py:169-196 | a run is recorded exactly when the ledger is awake and hour, day, token and unsettled checks leave room; a due pause is cleared either way |
| Budget.BudgetLedger.RecordRun | lab/budget.py:199-212 | the backward loop gives the last running run exactly the tokens and status reported, keeps its start and every other run, and does nothing when none runs |
| Audit.AppendKeepsTrail | lab/audit.py:69-89 | a trail is valid after an append exactly when it was valid before |
| Audit.RecordOfDecision | lab/audit.py:69-89 | the record holds every field as decided, the next number, the hash of the record before it or 64 zeros, and its own hash over all of these joined |
| Audit.HeadFixesTrail | lab/audit.py:29-33 | two valid trails of equal length and head have the same canonical records |
| Audit.SnapshotDetectsRewriting | lab/audit.py:110-114 | a later valid trail that carries a snapshot's head still begins with the snapshot's canonical records |
| Audit.RewritingShows | lab/audit.py:92-107 | rewriting an entry breaks the trail, or was the last entry and changes the head |
| Audit.DroppingShows | lab/audit.py:92-107 | dropping an entry breaks the trail exactly when it is not the last, and always shows against a snapshot |
| Audit.FieldsDetermined | lab/audit.py:29-33 | the canonical text of an entry determines its sequence, texts and previous hash if and only if none of the texts contains the separator |
| Audit.HeadFixesFields | lab/audit.py:92-114 | length and head of a valid trail fix the fields of every entry if and only if no text of any entry contains the separator |
| Audit.BoundaryNotCovered | lab/audit.py:29-33 | counterexample: a boundary between two fields can be moved under one canonical text, for any texts |
| Audit.ExtraNotCovered | lab/audit.py:29-33 | whatever the extra data and the stored hash are replaced by, the canonical text is the same |
| Audit.Verify | lab/audit.py:92-107 | reports exactly the problems present; none exactly when the trail is valid |
| Audit.AuditTrail.Append | lab/audit.py:69-89 | chains the new record to the last one |

## Left out

- I/O, HTTP, Telegram, GitHub, Ollama, FFmpeg and PostgreSQL: only their outcomes appear, as event parameters; a section under a lock is one step.
- Times are integers and each locked call reads the clock once. A self-test's `checked_at` is any text, and is compared with the text of the phase start, which only the coordinator writes; elsewhere ISO texts, time zones and unparsable stamps are not modelled.
- RolloutRuns.FreshnessExact: speaks of stamps with a date, a `T`, a time to the second, any digits of a fraction and a zone `Z` or in whole minutes; for texts of any other shape the condition is that of RolloutRuns.FreshnessOfAnyText.
- Random values (operation ids, nonces, fence tokens, lease and task ids) are numbers never drawn before; that nobody reports one before it is drawn is assumed only by the honest-run lemmas.
- Event texts, audit reasons and the wording of errors; a refused call is one that changes nothing.
- RolloutRuns.LinearlyManyChanges: excludes a repeated operator rollback, for which it is false; RolloutRuns.RepeatedRollbackExact gives the exact condition.
- RolloutRuns.RevertedOnlyIfConfirmed: excludes operator rollbacks in between for the same reason.
- Dispatch.LeasesAreStaffed: only for cancels that do not raise, since otherwise it is false; Dispatch.SweepExact gives the exact condition.
- Dispatcher: shadow results and their parity, the protocol version check and `available_worker` with its floating-point load score.
- Task queue: cancellation lists, the watchdog lock and the generation counter; the heap is kept as its pop order, Python's `heapq` being taken to pop in order; Redis scores are integers, so rounding of doubles is not modelled, and equal scores, which Redis orders by text, count as disagreement.
- TaskQueue.ExactlyOnePlace: assumes new ids, since `enqueue` accepts a duplicate, and burying only tasks neither ready nor buried; TaskQueue.BuryExact shows that condition to be exact.
- Storyboard: image storyboards, scripts, voice, the worker record's fields and the content of artifacts; an artifact is malformed or carries its version. Other parts of CORE may set the job's status and revision or drop its task at any time, but change neither its history nor its attempts.
- Governance: the policy gate, the remote inventory and the search are parameters, and searches may miss issues; the remote may be edited by anyone at any time; equal digests stand for equal contents; a create request the remote refused has no effect, as the code documents. Dry-run transports, evidence for closing an `ir` issue, `delegate_close_ir`, journals and the text rendering of bodies are left out.
- GovernanceRuns.NumberBelongsToOneKey: excludes the one collision with an exhausted series, for which it is false; GovernanceRuns.NumbersStep shows the condition to be exact.
- Governance.FullTitle: identifiers contain no dash, so equal contents are compared field by field rather than as one joined title.
- Provider switch: the provider matrix, endpoint validation, engine probes and the capability filter are decisions of the environment; the environment inherited at start is the same at every start; the snapshot file, which nothing reads back, and the second worker check after a rollback, which only picks the error, are left out.
- ProviderRuns.RollbackLandsOnConfirmed: excludes the two hazards, for which it is false; ProviderRuns.StepInv shows them to be exactly the exceptions.
- ProviderRuns.AtRestIsConfirmed: assumes that every durable write completes or the process crashes, and that a heartbeat acts on the transaction still on file.
- Budget: token counts are not negative, limits stay fixed, reservations are made in time order; the model allow-list and journals of pauses are left out.
- Audit: SHA-256 is an injective function whose texts contain no separator; redaction of extra data is left out.
- PNG, JPEG, WebP and PPM checks of the media verifier.
