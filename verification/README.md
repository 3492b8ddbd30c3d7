# Power control: a verified model

The power control service carries out power transitions (on, off, restarts) on the hardware of a
machine, keeps track of power states, and sets power limits. This project models its five connected
parts and proves what they keep.

1. **The transition runner** (`Xnames`, `TransitionModel`, `Sequencing`, `TierRunner`, `TierShape`,
   `TierCounts`, `Bystanders`, `RunBuilding`, `ZeroDeadline`, `TierTraces`, `Outcomes`, `Restarts`, `Failures`,
   `TaskOrigins`, `Commands`, `Successes`, `SequencedRuns`, `TransitionRunner`). `TierRunner` is a transition system
   whose events are the steps of one run: abort checks, lost reservations, commands, answers, polls,
   time-outs. Hardware, reservation service and clock are free to answer anything. The properties are
   about every log of events. `TransitionRunner.Runner` is the runner in the form of the source, an
   object updated in place, and each of its methods is proved to be the matching event.
2. **The record protocol** (`TransitionRecords`, `Timestamps`, `RecordProtocol`, `RecordClients`). Runner, API abort,
   keep-alive and reaper as atomic reads and writes of one record, in any interleaving and with crashes
   anywhere; `RecordClients.Instances` holds the clients with their retry loops.
3. **Power-status mastership and the status cache** (`Mastership`, `StatusCache`). The election by
   test-and-set, and the agreement between the in-memory map of the master and the store.
4. **The storage layer and completion** (`PagedStorage`, `EtcdStorage`, `StoreClients`, `Compression`). Truncation,
   paging, reading back, test-and-set over the first page with failing writes, the clients of a record with
   pages, and completion and deletion stopped at any point.
5. **Retention, reservations and power capping** (`Retention`, `Reservations`, `PowerCap`).

## Where the code departs from its evident intent

The model follows the code. Each departure is a lemma with an input, and where the intended property
can be rescued, a condition under which it holds, in both directions.

- The runner does not return after an early abort (internal/domain/transitions.go:328-330, 550-552):
  `RecordProtocol.AbortedRecordIsRevived`, `RecordProtocol.FinalStatusLeftIff` and
  `Compression.SecondCompletionLosesTheTasks`. No command results from it:
  `TierTraces.NoCommandsWhenAllFinished`.
- The soft-restart walk over ancestors does not advance on a requested ancestor
  (internal/domain/transitions.go:1442-1450): `Sequencing.WalkTerminatesIff`, `Sequencing.WalkHangsOnRequestedModule`.
- A deadline of zero counts a confirmed command twice (internal/domain/transitions.go:861-871, 892, 936):
  `ZeroDeadline.FinishesAtZeroIff`, `ZeroDeadline.RestartNeedNotFinish`, `ZeroDeadline.EscalationNeedNotFinish`.
- The power sequence has no on or off tiers for the management switches, so that such a task is still
  unfinished when its transition completes: `TierCounts.UnservedTaskIsLeftAlone`.
- A failed status is undone in some run exactly when a node to be shut down is listed as the supply that is failed
  with another one: `Failures.FailureUndoneInSomeRunIff`, with the run in `Failures.EntangledIsUndone`. Without
  nodes among the power supplies no run ever undoes one: `Failures.FailureIsNeverUndone`.
- A graceful restart is confirmed by a state that held before it: `Sequencing.RestartIsConfirmedByItsStart`.
- A soft restart that is advertised because of a restart action can be diverted to off and on, which the
  hardware then lacks: `Sequencing.AdvertisedIsDispatchable`, `Sequencing.ForceRestartOnlyNode`.
- Pages of tasks start at multiples of one size and are cut by another
  (internal/storage/storage_etcd_impl.go:682-687): `EtcdStorage.StoreThenReadIff`.
- A store does not delete pages of an earlier, longer store: `EtcdStorage.LeftoverPagesMatterIff`.
- The copy handed out for test-and-set has empty lists (internal/model/transitions.go:318-332), and the
  pages are written even when the test failed (internal/storage/storage_etcd_impl.go:890-904):
  `EtcdStorage.TestHoldsIff`, `EtcdStorage.EtcdStore.GetThenTAS`. So the API abort gives up on every unfinished record
  whose first page holds something, its keep-alive never refreshes it, and the reaper restarts it while it runs:
  `StoreClients.SignalAbort`, `StoreClients.RefreshActivity`, `StoreClients.LivePagedTransition`.
- A record whose pages cannot be read is returned without them and without an error
  (internal/storage/storage_etcd_impl.go:753-769): `EtcdStorage.EtcdStore.GetTransition`.
- A refresh of the mastership that is carried out but reported as an error ends it:
  `Mastership.HiddenRefreshEndsMastership`. A lock that expires during a check lets a fresh master be
  displaced: `Mastership.ExpiredLockDisplacesAFreshMaster`.
- A new master leaves entries of components that HSM no longer reports in the store for ever, failed writes are
  not repeated, and transitions gained by a controller whose states are undefined are not stored:
  `StatusCache.NewMasterAgreesIff`, `StatusCache.ForgottenComponentStaysStored`,
  `StatusCache.LostWriteIsNotRepeated`, `StatusCache.GainedActionsMissedIff`.
- Expired records that were just deleted use up slots of the selection of the oldest records:
  `Retention.Sweep`.
- After reacquiring reservations the wrong error variable is tested (internal/hsm/state_manager.go:210-213), and
  a failing reservation call ends the run without a release: `Reservations.HeldAfterRun`,
  `Reservations.ReacquiredButKept`. With locking disabled no entry is returned as reserved, and so every
  component of a request fails: first clause of `Reservations.Hsm.ReserveComponents`.
- The status code of a controller's answer is never found bad (internal/domain/power-cap.go:739,
  internal/domain/transitions.go:831), and controls out of range do not fail the operation if another
  one is in range: `PowerCap.PatchNode`, `PowerCap.PartOfARequestCanBeSent`.

## Conventions

- An xname is a path of letter/number segments. `TypeOf` follows the recognition table for the names that
  power control acts on and all their ancestors; other names are `Invalid`.
- The tasks of a run are keyed by their xname; the pointers of the source are the entries of that map.
- Clock readings that are stored are pairwise distinct, as their resolution makes them in practice.
- Setting the master flag and starting the refreshing loop is one step.
- The encoding of records is injective, and the encoded size is an arbitrary function of the record.
- Loops that can run for ever (confirmation, keep-alive, refreshing) take the number of rounds as an input,
  and so stand for every prefix of the endless loop.
- Go iterates over maps in any order; the loops here pick any remaining element.
- Supported transitions in the status cache are a set, and one refresh from HSM reads the clock once.

## Model

| member | source | states |
|---|---|---|
| `Xnames.ParentHasParentType` | vendor/github.com/Cray-HPE/hms-xname/xnametypes/hmstypes.go:124-580 | the parent of a recognised name has the parent type of the table |
| `Xnames.NamesOfTypes` | vendor/github.com/Cray-HPE/hms-xname/xnametypes/hmstypes.go:124-580 | the type of every name that power control acts on |
| `Xnames.AncestorIsHigher` | vendor/github.com/Cray-HPE/hms-xname/xnametypes/hmstypes.go:124-580 | among the types that can be switched, every ancestor is on a strictly higher power level |
| `TransitionModel.TierOfIsTheOnlyTier` | internal/domain/transitions.go:64-113 | the 14 tiers list each served action and type exactly once |
| `Sequencing.ToPCSPowerActions` | internal/domain/power-status.go:926-978 | for every list of reset types, the operations without repeats and exactly those that the reset types support |
| `Sequencing.WalkTerminatesIff` | internal/domain/transitions.go:1426-1452 | the ancestor walk ends if and only if no proper ancestor is requested, and then never reports that power drops |
| `Sequencing.WalkHangsOnRequestedModule` | internal/domain/transitions.go:1442-1450 | a node whose requested compute module cannot restart: the walk never ends |
| `Sequencing.WalkAncestors` | internal/domain/transitions.go:1426-1452 | the walk as a loop; it says whether the original loop ends and what it reports |
| `Sequencing.UnfinishedIsQueued` | internal/domain/transitions.go:1365-1549 | exactly which unfinished tasks sequencing would neither queue nor settle |
| `Sequencing.ScheduleKeepsResumable` | internal/domain/transitions.go:1365-1549 | sequencing queues only actions of the operation and leaves tasks that a later runner can resume |
| `Sequencing.ResumableIsQueued` | internal/domain/transitions.go:1365-1549 | every resumable unfinished task is queued or settled |
| `Sequencing.RecordedOperation` | internal/domain/transitions.go:1610-1626 | the operation recorded with a command is the one that sequencing would answer with just that action |
| `Sequencing.RestartIsConfirmedByItsStart` | internal/domain/transitions.go:1452-1460 | a graceful restart is queued alone, and only in the state that will confirm it |
| `Sequencing.NeededWorkIsQueued` | internal/domain/transitions.go:1350-1549 | for every operation and every unfinished task: each of the four actions is queued if and only if the operation still requires it, the status is unsupported, failed or succeeded exactly when it should be, and nothing else of the task changes but its counter and a confirmed off |
| `Sequencing.SentResetType` | internal/domain/transitions.go:1577-1593 | for every list of reset types: what is sent is one that the component offers, in its own spelling, the preferred one if it is offered; none exactly when there is none |
| `Sequencing.PayloadForm` | internal/domain/transitions.go:1594-1606 | the three forms of the request body |
| `Sequencing.AdvertisedIffPossible` | internal/domain/power-status.go:926-978 | an operation is advertised if and only if the reset types allow one way of carrying it out |
| `Sequencing.HangsOnIff` | internal/domain/transitions.go:1420-1452 | exactly the tasks on which sequencing never ends |
| `Sequencing.QueuedShape` | internal/domain/transitions.go:1365-1549 | actions are queued once, the counter grows by their number, and the two off actions exclude each other |
| `Sequencing.QueueLeadsToGoal` | internal/domain/transitions.go:1365-1549 | the queued actions end in the goal of the operation, a task is settled as succeeded only in the goal, and a new restart really restarts, but for controllers without a restart action |
| `Sequencing.AdvertisedIsDispatchable` | internal/domain/transitions.go:1397-1478 | for every list of reset types, all actions queued for an advertised operation have a payload, if and only if it is not a diverted soft restart on hardware without on or off |
| `Sequencing.ForceRestartOnlyNode` | internal/domain/transitions.go:1573-1606 | a node that offers a soft restart and has no payload for the shutdown that is queued |
| `TierShape.TierListHas` | internal/domain/transitions.go:684-698 | a tier handles once each component it serves that is queued for its action |
| `TierShape.RunKeepsShape` | internal/domain/transitions.go:683-999 | every event keeps the lists well formed, what is under way inside its tier, and escalations behind their shutdown tier |
| `TierCounts.ActionsDueCountsTiers` | internal/domain/transitions.go:684-698 | the actions still due for a component are the tiers still to run that list it |
| `TierCounts.CounterAtTierBoundary` | internal/domain/transitions.go:683-999 | for every run with a non-zero deadline: at each tier boundary the counter of an unfinished task is the number of tiers to come that list its component, escalations included |
| `TierCounts.EveryServedTaskFinishes` | internal/domain/transitions.go:683-999 | at the end of every run with a non-zero deadline each task whose actions have tiers is finished |
| `TierCounts.UnservedTaskIsLeftAlone` | internal/domain/transitions.go:64-113 | a task whose actions have no tier keeps its status through every run, or is failed by another |
| `ZeroDeadline.SafeTaskFinishes` | internal/domain/transitions.go:861-999 | with deadline zero, a task of any request with at most one command left to be counted twice, a possible force-off included, is finished at the end of every run; one more is allowed when the first is only waited for |
| `ZeroDeadline.RestartNeedNotFinish` | internal/domain/transitions.go:861-871 | deadline zero: in any request whose commands exist, a run that leaves an off-then-on task in progress |
| `ZeroDeadline.EscalationNeedNotFinish` | internal/domain/transitions.go:956-978 | deadline zero: in any request whose commands exist, a run that leaves an escalated shutdown in progress |
| `ZeroDeadline.UnsafeNeedNotFinish` | internal/domain/transitions.go:861-999 | deadline zero: for every unsafe task of any request whose commands exist, a run that ends with it unfinished |
| `ZeroDeadline.FinishesAtZeroIff` | internal/domain/transitions.go:861-999 | deadline zero: a task of any request whose commands exist finishes in every run if and only if its listings and a possible force-off are at most one, or two when its first command is only waited for |
| `TierTraces.CommandsFollowPowerOrder` | internal/domain/transitions.go:64-113 | in the command trace of every run: descendants go off before ancestors, ancestors on before descendants, every off precedes every restart and these every on, and controllers are restarted last |
| `TierTraces.TimeoutIsForcedIff` | internal/domain/transitions.go:956-978 | a time-out queues the component for force-off and leaves its task alone if and only if it was a shutdown that may be forced; otherwise the task fails and nothing is queued |
| `TierTraces.SoftRunIsUnforced` | internal/domain/transitions.go:956-978 | with soft-off and nothing queued for force-off, no run escalates or forces anything off |
| `TierTraces.EscalatedIsForcedOnce` | internal/domain/transitions.go:956-978 | in a completed run each escalated component is visited once, in the force-off tier after its shutdown tier, and in no other |
| `TierTraces.AbortIsContained` | internal/domain/transitions.go:708-712 | without storage errors, a run in which an abort is signaled sends further commands only in the tier whose check it had passed and was still sending for, and none from a tier boundary |
| `TierTraces.EveryAbortIsContained` | internal/domain/transitions.go:708-712 | the same of every signal in the log of every run |
| `TierTraces.CompletedWithoutAbort` | internal/domain/transitions.go:708-712 | a completed run has seen no abort |
| `TierTraces.AbortFailsUnfinished` | internal/domain/transitions.go:1084-1098 | an abort fails exactly the unfinished tasks and leaves the finished ones as they are |
| `TierTraces.AbortedHasNoUnfinished` | internal/domain/transitions.go:1084-1098 | no reachable aborted run has an unfinished task |
| `TierTraces.AbortedIsFinal` | internal/domain/transitions.go:708-712 | an aborted run changes nothing any more |
| `TierTraces.NoCommandsWhenAllFinished` | internal/domain/transitions.go:322-330 | when all tasks are finished before the tiers, as after an early abort, no run sends a command |
| `TierTraces.UnlistedIsNeverCommanded` | internal/domain/transitions.go:684-698 | a component that sequencing did not queue is never commanded, escalations included |
| `TierTraces.FailedNodeFailsItsModule` | internal/domain/transitions.go:1641-1685 | a failed shutdown fails the requested compute module, and nothing else when a supply outside the request is on |
| `TierTraces.FailedNodeKeepsPower` | internal/domain/transitions.go:1641-1685 | if some supply of the node was on, one that is on is outside the request or failed |
| `TierTraces.OnlyDependentsFail` | internal/domain/transitions.go:1641-1685 | nothing else is failed: only the compute module, and the last supply that is on if all that are on are requested |
| `TierTraces.FailedNodeBenchesItsPower` | internal/domain/transitions.go:753-756 | the compute module and the chosen supply are then failed and not being handled |
| `TierTraces.FailedNodeProtectsItsPower` | internal/domain/transitions.go:753-756 | for every way in which a node's shutdown fails and every later run: its compute module and the chosen supply stay failed and are never commanded again |
| `TierTraces.FailedStaysFailed` | internal/domain/transitions.go:753-756 | a failed component that is not being handled stays failed and gets no command for the rest of the run |
| `TierTraces.FailureUndoneIff` | internal/domain/transitions.go:846-947 | exactly which answers undo a failed status of a component that is under way |
| `Failures.NotEntangledWithoutNodeSupplies` | internal/domain/transitions.go:1641-1685 | without nodes among the power supplies no two nodes are entangled |
| `Failures.FailureIsNeverUndone` | internal/domain/transitions.go:846-947 | without entangled nodes no event of any run undoes a failed status |
| `Failures.FailedForGood` | internal/domain/transitions.go:846-947 | so a task that has failed at some point of a run is failed ever after |
| `Failures.EntangledIsUndone` | internal/domain/transitions.go:1641-1685 | a run in which the failure of a node that supplies another one is undone |
| `Failures.FailureUndoneInSomeRunIff` | internal/domain/transitions.go:846-947 | for requests whose node shutdowns are all sent: some run undoes a failed status if and only if two nodes are entangled |
| `Outcomes.SuccessWasObserved` | internal/domain/transitions.go:914-947 | in every run with a non-zero deadline a task succeeds only when its component is read in the end state of the last tier that lists it |
| `Outcomes.SucceededInFinalState` | internal/domain/transitions.go:914-947 | that state is the one the queued actions lead to in tier order, escalations included |
| `Restarts.RestartedThroughOff` | internal/domain/transitions.go:914-947 | in every run with a non-zero deadline a succeeded task that was queued for off and on was read off before it was read on |
| `Commands.EveryCommandIsSent` | internal/domain/transitions.go:752-801 | in every completed run a component that has not failed was sent the command of every action it was queued for, escalations included, or had been sent it by an earlier runner |
| `Successes.EverythingCanSucceed` | internal/domain/transitions.go:683-999 | for every feasible request with a non-zero deadline there is a run in which every queued task succeeds, having been sent all its commands |
| `SequencedRuns.RequestCanSucceed` | internal/domain/transitions.go:683-999 | the same of every request as a runner finds it, with tiers and payloads for what is queued: every task is finished, and every one with work to do has succeeded |
| `SequencedRuns.CommandsOfRun` | internal/domain/transitions.go:752-801 | every run from sequencing sends what was queued for all that has not failed in the end |
| `SequencedRuns.SequencedWork` | internal/domain/transitions.go:1319-1568 | sequencing queues every unfinished task for exactly the work its operation requires, and leaves the others alone |
| `SequencedRuns.ReservedIff` | internal/domain/transitions.go:1550-1562 | which reservations sequencing asks for or lists for release |
| `SequencedRuns.LossMeans` | internal/domain/transitions.go:610-642 | which components a missing reservation fails |
| `SequencedRuns.SoftOffNeverForces` | internal/domain/transitions.go:299-301 | in every run of a soft-off nothing is escalated and no command forces anything off |
| `TaskOrigins.RunKeepsResumable` | internal/domain/transitions.go:683-999 | wherever a run is stopped, every task is new or has an operation that the transition issues |
| `SequencedRuns.EveryTaskIsResumable` | internal/domain/transitions.go:1227-1315 | however many runners take a transition over, each stopped anywhere, every task that one of them finds can be resumed |
| `SequencedRuns.TasksStayResumable` | internal/domain/transitions.go:683-999 | sequencing and every run after it keep that |
| `SequencedRuns.SuccessMeansGoal` | internal/domain/transitions.go:683-999 | in every run a succeeded task had nothing to do and was in the goal state, or was read in the goal state, after being read off if it was to go off and on |
| `TransitionRunner.Runner.SequenceComponents` | internal/domain/transitions.go:1319-1568 | for every request: whether the walk hangs, and otherwise exactly the required work queued for each task, each list and the reservations asked for |
| `TransitionRunner.Runner.SequenceOne` | internal/domain/transitions.go:1330-1566 | the same for one component, with nothing else changed |
| `SequencedRuns.SequencingIsSequenced` | internal/domain/transitions.go:1319-1568 | sequencing leaves lists without repeats, of unfinished requested components, and no component on both off lists |
| `SequencedRuns.SequencedIsCounted` | internal/domain/transitions.go:1319-1568 | after sequencing the counter of a task is the number of its listings, and an unfinished one has some |
| `TransitionRunner.Runner.FailDependentComps` | internal/domain/transitions.go:1641-1685 | the loop over the supplies computes the dependents of the specification |
| `TransitionRunner.Runner.ScanComponent` | internal/domain/transitions.go:752-801 | one component of a tier: skipped, awaited, failed or commanded, as the event says |
| `TransitionRunner.Runner.CollectAnswer` | internal/domain/transitions.go:820-880 | one answer, the case of deadline zero included |
| `TransitionRunner.Runner.PollComponent` | internal/domain/transitions.go:914-947 | one poll: failed, confirmed or still waiting |
| `TransitionRunner.Runner.ExpireComponent` | internal/domain/transitions.go:956-978 | one time-out: forced off next if it was a shutdown that may be forced, and failed with its dependents otherwise |
| `TransitionRunner.Runner.DoAbort` | internal/domain/transitions.go:1084-1098 | the abort as its event |
| `TransitionRunner.Runner.CheckReservations` | internal/domain/transitions.go:714-739 | reservations found expired fail unfinished components and their dependents |
| `TransitionRunner.Runner.ConfirmTier` | internal/domain/transitions.go:891-980 | the confirmation loop follows the transition system whatever is answered |
| `TransitionRunner.Runner.RunTier` | internal/domain/transitions.go:684-998 | one tier, from the check to the last time-out |
| `TransitionRunner.Runner.RunTiers` | internal/domain/transitions.go:683-999 | the whole walk over the power sequence is a run of the transition system |
| `TransitionRunner.Runner.FailUnreserved` | internal/domain/transitions.go:588-656 | components without a reservation or valid deputy key are failed, with the compute modules of nodes to be shut down, before the first tier |
| `SequencedRuns.NoCommandWithoutReservation` | internal/domain/transitions.go:588-656 | in every run each command goes to a component whose reservation or deputy key was obtained |
| `SequencedRuns.PowerIsProtected` | internal/domain/transitions.go:1641-1685 | for every failed shutdown in the log of a run the compute module and the chosen supply are out of it from then on |
| `SequencedRuns.TraceResults` | internal/domain/transitions.go:683-999 | of every run from sequencing: aborts contained, escalations carried out once, power protected, failures final without entanglement |
| `SequencedRuns.RunResults` | internal/domain/transitions.go:683-999 | all results above for every run that starts from sequencing tasks as a runner finds them |
| `TransitionRunner.Runner.RunReserved` | internal/domain/transitions.go:588-999 | the part after reserving is a run from what sequencing left, with all its results |
| `TransitionRunner.Runner.Execute` | internal/domain/transitions.go:530-999 | sequencing, reserving and tiers together: exactly the required work queued, a run of the transition system with all its results, every queued command sent to what has not failed, success only in the goal state, no force-off in a soft-off, no command without a reservation, none at all when reserving fails, and tasks that can be resumed |
| `RecordProtocol.TasKeepsAbortSignal` | internal/domain/transitions.go:187-234 | in every state, no write that tests the stored value erases an abort signal |
| `RecordProtocol.FinalStatusLeftIff` | internal/domain/transitions.go:1022-1058 | among those writes only the runner's store leaves a final status, exactly when it had read that record and it is unchanged |
| `RecordProtocol.RunsMoveForward` | internal/domain/transitions.go:1022-1058 | in every interleaving without acting on a finished or missing record the status only moves forward |
| `RecordProtocol.AbortedRecordIsRevived` | internal/domain/transitions.go:1022-1058 | two steps of a runner that turn an aborted record back to in-progress |
| `RecordProtocol.ReapWrites` | internal/domain/transitions.go:1707-1758 | what the reaper makes of an unchanged record: deleted if expired and finished, signaled if expired and unfinished, claimed if abandoned, compressed if finished; and whether it starts a runner |
| `RecordProtocol.TasWrites` | internal/domain/transitions.go:187-234 | exactly what the other writes leave in the store |
| `RecordProtocol.AtMostOneRestartPerRecord` | internal/domain/transitions.go:1707-1749 | whatever the interleaving, at most one runner is ever started on behalf of one abandoned record |
| `RecordProtocol.LiveTransitionIsNeverRestarted` | internal/domain/transitions.go:1102-1150 | while writes of the activity time are at most three intervals apart no reaper starts a runner |
| `RecordClients.AcceptedAbortLasts` | internal/domain/transitions.go:187-234 | an accepted abort is still signaled, or the record final, after any further steps that do not act on a finished or missing record |
| `RecordClients.Instances.AbortTransition` | internal/domain/transitions.go:187-234 | the answer of the API was true of the record at some moment during the call, whatever reads and writes fail |
| `RecordClients.Instances.StoreTransition` | internal/domain/transitions.go:1022-1058 | the runner's store with retries and failing reads and writes: an abort is reported only if read, and an unreported success replaced an unsignaled record |
| `RecordClients.Instances.KeepAlive` | internal/domain/transitions.go:1102-1150 | a refresh changes the activity time of an unfinished record and nothing else |
| `RecordClients.Instances.ReapRecord` | internal/domain/transitions.go:1707-1749 | an unchanged record is deleted, signaled, claimed or compressed as it should be; a runner is started if and only if it was unfinished, abandoned and unchanged |
| `Mastership.AtMostOneCurrent` | internal/domain/power-status.go:983-1057 | in every reachable state at most one instance remembers the stored value, even if errors hide writes |
| `Mastership.FlagAfterRefresh` | internal/domain/power-status.go:1031-1057 | after a refresh that reports a result the flag is kept if and only if the master was current |
| `Mastership.DisplacedIff` | internal/domain/power-status.go:983-1029 | exactly which steps of others end a mastership: a claim on a missing value, or on the stored one when it is at least 45 seconds old |
| `Mastership.ClaimWinsIff` | internal/domain/power-status.go:1009-1028 | a claim with a known result succeeds if and only if no value was seen, or the one seen is still stored and at least 45 seconds old; what it then stores |
| `Mastership.OverdueMasterIsReplaced` | internal/domain/power-status.go:983-1029 | a master that is 45 seconds overdue is replaced by the first candidate whose calls succeed |
| `Mastership.GivingUp` | internal/domain/power-status.go:1040-1056 | giving up drops the flag; neither that nor a crash or an expired lock changes the stored time |
| `Mastership.RefreshingMasterIsNeverDisplaced` | internal/domain/power-status.go:983-1057 | a master that refreshes within 45 seconds stays current in every run, if the lock outlives the checks |
| `Mastership.ExpiredLockDisplacesAFreshMaster` | internal/domain/power-status.go:983-1029 | a run in which the lock does not, and two instances carry the flag |
| `Mastership.HiddenRefreshEndsMastership` | internal/domain/power-status.go:1031-1057 | a hidden success leaves no current master, and the flag is dropped next |
| `Mastership.Cluster.GetPowerStatusMaster` | internal/domain/power-status.go:983-1029 | the election as a method: yes exactly with the flag, and then current; with the lock, yes if and only if the claim was reported and the value read was missing, or 45 seconds old and unchanged |
| `Mastership.Cluster.RefreshMaster` | internal/domain/power-status.go:1031-1057 | the refreshing loop drops the flag only when no longer current |
| `StatusCache.AgreementFromEmptyStore` | internal/domain/power-status.go:299-391 | after any sequence of refreshes and readings from an empty store, per component whose writes succeed: absent, equal, or still undefined and unavailable |
| `StatusCache.CellAgreementIsKept` | internal/domain/power-status.go:878-923 | agreement of the whole record is kept from any agreeing state |
| `StatusCache.TouchRestoresAgreement` | internal/domain/power-status.go:878-923 | any step that writes or deletes a component makes map and store agree; any other leaves the store |
| `StatusCache.NewMasterAgreesIff` | internal/domain/power-status.go:299-391 | exactly when a new master agrees with an entry left by an earlier one |
| `StatusCache.ForgottenComponentStaysStored` | internal/domain/power-status.go:319-326 | an entry that HSM no longer reports stays in the store through every run of a new master |
| `StatusCache.NewMasterOverOldStore` | internal/domain/power-status.go:299-391 | an input on which a new master and the old store disagree |
| `StatusCache.LostWriteIsNotRepeated` | internal/domain/power-status.go:895-922 | a failed write stays missing through every run without a change of that component |
| `StatusCache.GainedActionsMissedIff` | internal/domain/power-status.go:361-384 | exactly when transitions gained by a controller do not reach the store |
| `StatusCache.RememberedIsLastRead` | internal/domain/power-status.go:878-923 | over every behaviour: the remembered states are those of the last reading since the component was added, or the initial ones, or those forced when actions were gained |
| `StatusCache.RememberedHasLastWord` | internal/domain/power-status.go:299-391 | whatever is in the map has such an event |
| `StatusCache.TransitionsAreSupported` | internal/domain/power-status.go:340-384 | the remembered transitions are those of the reset types when the component was added or gained them |
| `StatusCache.MonitoredIffServed` | internal/domain/power-status.go:332-347 | what is monitored is exactly what the power sequence serves |
| `StatusCache.Master.UpdateHWState` | internal/domain/power-status.go:878-923 | the map then has the states read; if one of them is new, the whole entry is replaced and stored, its transitions kept; otherwise nothing changes |
| `StatusCache.Master.UpdateComponentMap` | internal/domain/power-status.go:299-391 | the step of the specification for every component; an empty answer is refused |
| `PagedStorage.TruncationIsIdempotent` | internal/storage/storage_etcd_impl.go:547-595 | messages are bounded by the limit plus six and are prefixes of the original ones, the rest of the task is kept, and a second truncation changes nothing |
| `PagedStorage.PageList` | internal/storage/storage_etcd_impl.go:676-693 | the loop that cuts a list, with every access in range |
| `PagedStorage.FillPages` | internal/storage/storage_etcd_impl.go:597-674 | the loops that fill the pages, every access in range, each page with its own pieces |
| `PagedStorage.BreakIntoPages` | internal/storage/storage_etcd_impl.go:597-674 | the first page and the others are those of the specification |
| `PagedStorage.SplitContents` | internal/storage/storage_etcd_impl.go:597-731 | the first piece and the pages make up each list |
| `PagedStorage.SplitThenAssemble` | internal/storage/storage_etcd_impl.go:597-731 | splitting and reading back returns the record, except for tasks cut off when the page size was halved |
| `EtcdStorage.StoreThenReadIff` | internal/storage/storage_etcd_impl.go:479-532 | for every record and settings: what is read back is the record, truncated if and only if too large, if and only if no tasks are dropped; exactly when and which are dropped otherwise |
| `EtcdStorage.PageListIsUnique` | internal/storage/storage_etcd_impl.go:119-135 | numeric order determines the list of pages |
| `EtcdStorage.PagesAfterStore` | internal/storage/storage_etcd_impl.go:455-477 | the pages read after a store are those written, then those left by a longer one |
| `EtcdStorage.LeftoverPagesMatterIff` | internal/storage/storage_etcd_impl.go:744-797 | left pages change the read exactly when they hold something |
| `EtcdStorage.TestHoldsIff` | internal/model/transitions.go:318-332 | the test of a paged record holds if and only if the stored lists are empty and the rest is as read |
| `EtcdStorage.WritingChangesIff` | internal/storage/storage_etcd_impl.go:896-904 | writing pages changes nothing if and only if those that get written are there already |
| `EtcdStorage.EtcdStore.GetThenTAS` | internal/storage/storage_etcd_impl.go:887-906 | a read, any changes by others, and a test-and-set: a compare-and-swap, equal to that of the record protocol, for records without pages; for others it succeeds if and only if the record is the one read with empty lists; when a failed one changes nothing |
| `EtcdStorage.EtcdStore.TruncateTaskMessages` | internal/storage/storage_etcd_impl.go:547-595 | the loop truncates every task and nothing else |
| `EtcdStorage.EtcdStore.TruncateAndPage` | internal/storage/storage_etcd_impl.go:479-532 | what is written is the specification's record and pages |
| `EtcdStorage.EtcdStore.StoreTransition` | internal/storage/storage_etcd_impl.go:455-477 | the whole new state of the store, whichever writes fail |
| `EtcdStorage.EtcdStore.GetTransitionPages` | internal/storage/storage_etcd_impl.go:772-797 | all pages of the record and no others, in numeric order |
| `EtcdStorage.EtcdStore.GetTransition` | internal/storage/storage_etcd_impl.go:744-770 | the assembled record, and the value for a later test; the first page alone when the pages cannot be read |
| `EtcdStorage.EtcdStore.TASTransition` | internal/storage/storage_etcd_impl.go:887-906 | succeeds exactly on the tested record; a failed test still writes pages, a reported error does not, and may hide a write |
| `EtcdStorage.EtcdStore.DeleteTransition` | internal/storage/storage_etcd_impl.go:852-876 | removes the record and its pages and nothing else, whichever deletions fail |
| `EtcdStorage.EtcdStore.StoreThenGet` | internal/storage/storage_etcd_impl.go:455-477 | store then get over the object: equal if and only if no tasks are dropped, locations and task ids always |
| `StoreClients.Swap` | internal/storage/storage_etcd_impl.go:744-906 | a read and a test-and-set without interference fail exactly when the record has pages and its first page holds something |
| `StoreClients.SignalAbort` | internal/domain/transitions.go:187-234 | the API abort gives up exactly on such unfinished records |
| `StoreClients.RefreshActivity` | internal/domain/transitions.go:1102-1150 | the keep-alive never refreshes such a record |
| `StoreClients.ReapListed` | internal/domain/transitions.go:1707-1749 | pages or not, the reaper signals every expired unfinished record, deletes every expired finished one, and starts a runner for exactly the abandoned unfinished ones |
| `StoreClients.LivePagedTransition` | internal/domain/transitions.go:1102-1150 | a live transition with pages is restarted exactly when more than three intervals have passed |
| `Compression.CompletionThroughTheStore` | internal/domain/transitions.go:1872-1890 | the completed record read back shows the same counts, the same tasks up to truncation, and all of them if and only if none are dropped |
| `Compression.CountsAreExact` | internal/model/transitions.go:198-209 | each category counts exactly the tasks with its status |
| `Compression.CountsAddUp` | internal/model/transitions.go:176-224 | the total is the sum of the five categories |
| `Compression.ToTransitionResp` | internal/model/transitions.go:176-224 | the loop gives the client's view of record and tasks |
| `Compression.TransitionStore.CompressAndComplete` | internal/domain/transitions.go:1872-1898 | stopped after any number of steps, with any deletions failing, the client sees the same tasks and counts, if and only if the record was uncompressed or agreed already |
| `Compression.TransitionStore.DeleteTransition` | internal/domain/transitions.go:1804-1824 | stopped anywhere, no task is left without its record; exactly when it completes |
| `Compression.SecondCompletionLosesTheTasks` | internal/domain/transitions.go:550-552 | a second completion replaces the list of tasks by an empty one |
| `Retention.InsertAndShift` | internal/domain/transitions.go:1777-1795 | the slots hold the first records of the list with the new one inserted by age |
| `Retention.SelectOldest` | internal/domain/transitions.go:1768-1796 | the slots hold the oldest finished records, in order |
| `Retention.SelectionIsOldest` | internal/domain/transitions.go:1768-1796 | the selection is sorted, without repeats, only finished records, and none outside is older |
| `Retention.RemainingCount` | internal/domain/power-cap.go:1057-1080 | every slot is filled, and what remains is the number kept plus the slots that went to expired records |
| `Retention.DeleteExpired` | internal/domain/transitions.go:1707-1758 | the first pass deletes exactly the expired finished records and counts the others |
| `Retention.Sweep` | internal/domain/transitions.go:1706-1800 | only finished records are deleted; with a limit, exactly the allowed number of unexpired ones remains, if and only if no slot went to an expired one |
| `Reservations.SettledMeans` | internal/hsm/state_manager.go:166-269 | for arbitrary answers: which entries are owned, still need a reservation, and which keys they have |
| `Reservations.InterruptedMeans` | internal/hsm/state_manager.go:203-241 | what an entry is when a later call has failed |
| `Reservations.Hsm.ReserveComponents` | internal/hsm/state_manager.go:166-269 | when it succeeds, every entry, the requests made, what the service holds, and a returned list of exactly the entries no longer needing a reservation, without repeats |
| `Reservations.Hsm.ReacquireHeld` | internal/hsm/state_manager.go:203-224 | the entries confirmed by the check, and the effect of an error |
| `Reservations.Hsm.AcceptDeputies` | internal/hsm/state_manager.go:226-241 | the entries with valid deputy keys, and the effect of an error |
| `Reservations.Hsm.AcquireRest` | internal/hsm/state_manager.go:243-268 | asks for exactly the entries not answered so far |
| `Reservations.SettledOwners` | internal/hsm/state_manager.go:315-332 | the owned entries are exactly the confirmed and the newly acquired ones |
| `Reservations.Hsm.ReleaseComponents` | internal/hsm/state_manager.go:315-354 | asks for exactly the owned entries; which entries are given back or refused |
| `Reservations.ReleasedMeans` | internal/hsm/state_manager.go:340-351 | what becomes of a released, a refused and any other entry |
| `Reservations.Hsm.ReserveAndRun` | internal/domain/transitions.go:569-658 | a run past reserving asks to release all it owns, one that fails while reserving asks for nothing |
| `Reservations.HeldAfterRun` | internal/domain/transitions.go:569-658 | a run leaves nothing held if and only if each reacquired reservation was confirmed or acquired anew; a failing one keeps all it reacquired |
| `Reservations.ReacquiredButKept` | internal/hsm/state_manager.go:203-224 | two inputs on which reservations are kept |
| `PowerCap.Node.ExtractPowerCapInfo` | internal/hsm/state_manager.go:498-563 | the controls by name, each with the last slot that carries the name, its range and path |
| `PowerCap.ExtractedIsWellFormedIff` | internal/hsm/state_manager.go:498-563 | every control has a slot of its own in range, and an Apollo node one control, exactly when the report had slots or there were no earlier controls |
| `PowerCap.CapAtMeans` | internal/hsm/state_manager.go:507-558 | name, path, range and slot of each control, in both schemas |
| `PowerCap.TargetMeans` | internal/hsm/state_manager.go:518-521 | the target for setting limits |
| `PowerCap.ContainsIff` | internal/domain/power-cap.go:987-1002 | a vendor is recognised exactly by an occurrence in the address |
| `PowerCap.BeforeFragmentMeans` | internal/hsm/state_manager.go:539-546 | the path is what precedes the first fragment mark |
| `PowerCap.DeepBesideControls` | internal/domain/power-cap.go:545-556 | a patch of the newer schema goes to the deep resource beside the controls |
| `PowerCap.RejectionMeans` | internal/domain/power-cap.go:563-585 | exactly which nodes are accepted, and which are unsupported |
| `PowerCap.SendableIff` | internal/domain/power-cap.go:588-610 | exactly which controls are sent |
| `PowerCap.LimitMeans` | internal/domain/power-cap.go:611-634 | a limit has the requested value and the known bounds |
| `PowerCap.CheckRanges` | internal/domain/power-cap.go:588-640 | limits for exactly the requested known controls in range, complaints for exactly those out of range |
| `PowerCap.PatchOperation` | internal/domain/power-cap.go:492-653 | one operation per node, under way if and only if the node is accepted and some requested control is in range |
| `PowerCap.GeneratePowerCapPayload` | internal/domain/power-cap.go:818-869 | which of the three forms is used and what each place holds |
| `PowerCap.PatchNode` | internal/domain/power-cap.go:492-653 | from HSM's report to the request: something is sent if and only if a control may be, each such control and no other has its value in its own place, and the outcome does not depend on the status code |
| `PowerCap.SentValuesAreInRange` | internal/domain/power-cap.go:818-869 | every value in any payload is a requested one of a known control, zero or at least the known minimum and at most the known maximum |
| `PowerCap.PartOfARequestCanBeSent` | internal/domain/power-cap.go:588-653 | a request of which one control is sent and another is out of range |

## Left out

- HTTP handlers, routing, health checks, profiling and start-up: request plumbing without a deep invariant.
- Redfish and HSM calls, JSON, Vault and certificates: their results are arbitrary inputs, the encoding is abstract.
- Setting up tasks (`setupTransitionTasks`, `getPowerStateHierarchy`) and waiting for controllers (`waitForBMC`): the
  run starts from any component map whose unfinished tasks have recognised names and that are new or left by earlier runners.
- The branch for Rosetta components (`e0`): no such component reaches the runner.
- In-memory storage and the lock providers: thin wrappers; the lock of the election is modelled with its expiry.
- Decoding of power states (`getHWStatesFromHW`) and of power limits (`parsePowerCapRFData`): vendor field mappings.
- Status descriptions and error texts of tasks in the runner; truncation and paging do cover them.
- Power-cap snapshots, the response of power-cap tasks and their completion: they would only add easy members.
- Retention of power-cap tasks beyond the selection: that reaper also deletes expired tasks that are not finished.
- The message text, path cleaning and map order when the address of a power-cap patch is built; the path is taken as clean.
- TransitionRunner.Runner.Execute: a loop that never ends is reported as `hung` instead of being run, and the confirmation loop is cut after any number of rounds.
- Reservations.Hsm.ReserveComponents: stated for requests with distinct names and for answers about names that were asked for, each at most once; the runner makes only such requests, and another answer would stop the original with a nil pointer.
- Reservations.Hsm.ReleaseComponents: all refused entries carry one reason.
- PowerCap.PatchOperation: the failed operations of unknown controls are given as the set of their names.
