# Verification of the etcd cluster lifecycle controller

The controller keeps an etcd cluster at N machines. It puts up the first machine, waits until etcd
is initialised, adds machines one by one, rolls them out when their configuration changes, scales
down, removes the old members after the control plane has been upgraded, and tears everything down.
A second loop checks the health of the members and removes those that keep failing.

The project models both loops as they run, and proves what holds over their whole runs.

## How it is built

| file | what it holds |
|---|---|
| `Wrappers`, `Text`, `Machines` | strings and URLs, machines, their addresses, ages and iteration orders |
| `EtcdPlane` | which machines are up to date, which one to give up, where the next one goes |
| `Membership` | the etcd membership and the removal of a member with its machine |
| `Cluster` | the EtcdadmCluster object, the world (API server, etcd, clock, log of effects), the answers of calls |
| `ReconcileSpec` | what one Reconcile decides, marks and does, as functions |
| `Reconciler` | the reconciler as classes whose methods change the world step by step, each proved against `ReconcileSpec` |
| `HealthCheck` | the health checker: its functions, and the class whose methods are proved against them |
| `Runs` | events of the controller and of its environment, runs of them, and what a Reconcile does to a live cluster |
| `Effects`, `Removals`, `Choices` | what single steps can do to machines and to the membership, and which machines they choose, by what is written on these |
| `Outcomes`, `Reports` | when the next Reconcile is due, and exactly what one reports: errors, Ready, CreationComplete |
| `Rollout`, `Pacing`, `Ready`, `EarlyReady` | a whole rollout: its counts, its pace, what the status says meanwhile, and when it says too much |
| `Convergence`, `ScaleDown`, `Bootstrap`, `Balance` | reaching N matching machines, scaling down, starting, failure domains |
| `CreationCap`, `Interleaving` | bounds under interference and under every interleaving of the two loops |
| `MemberSafety`, `Quorum`, `Counters`, `Queue` | the membership: member before machine, quorum, the history behind each removal, and what leaves the removal queue |
| `Cleanup`, `CleanupRounds`, `MajorityLost` | the removal of old members, alone and beside the health checker, and how the two together lose a majority |
| `Canonical`, `Bookkeeping` | the endpoint string, the Secret, and the rest of the status |
| `Teardown` | no orphans |
| `Samples` | states that meet the hypotheses of the theorems |

A call that leaves the controller gets its result from an answer that is a parameter (`Answers` for
a Reconcile, `RoundAnswers` for a health check round): whether a listing, a write or a health check
succeeds, which name is generated, in which order a loop over a map goes. A theorem about runs
speaks of all answers and of all orders of events. An event is one Reconcile, one round of the
health checker, one turn of its removal loop, or a step of the environment: a machine gets an
address, joins etcd or disappears, the clock advances, initialisation is reported, the control
plane is upgraded, deletion is requested, ownership is edited by hand. One Reconcile, one removal
and one patch are atomic.

Of its environment the model supposes that a machine gets its address once and for itself, that a
member which joins belongs to a listed machine and brings an id and a peer URL of its own, and that
a machine disappears only after its deletion was asked for.

Cluster API's choices among failure domains enter by contract: `PickMost` finds a domain that holds
an eligible machine, `PickFewest` a least-populated one (`EtcdPlane.ChoicesExist` shows that both
can be met).

## Where the code does less than one would expect

Each of these has a lemma that shows the failing family and one that gives the exact condition.

- The wait between two machines of a rollout depends on a condition that only the patch at the end
  of a Reconcile records. When that patch is lost, the rollout does not wait
  (`Pacing.LostPatchesLoseThePace`, `Pacing.GateIsExact`).
- The same holds at the start: when the first patch is lost, a second machine is put up before etcd
  has been initialised (`Bootstrap.LostPatchLosesTheOrder`, `Bootstrap.InitGateIsExact`).
- Ready should be false during a rollout. It is, once a patch has recorded that the rollout is under
  way. When the patches of its first steps are lost and the next Reconcile returns early for a
  failing listing, its deferred block persists Ready = true among outdated machines
  (`EarlyReady.LostPatchesShowReady`, `EarlyReady.ReadyIsExact`).
- The removal of old members and the health checker do not know of each other. After a cleanup that
  met an error, a round can take an owned member and leave the owned ones without a majority
  (`MajorityLost.RoundTakesTheMajority`, `CleanupRounds.OwnedMembersRemain`).
- `Status.Endpoints` is assigned before the Secret is written, so a Secret that missed an update is
  never repaired (`Canonical.StaleSecretStays`, `Canonical.AgreementIsExact`).
- The quorum gate of the health check counts machines that are still bootstrapping as healthy
  members, so that a round removes a member although most members failed
  (`Quorum.BootstrappingOpensTheGate`, `Quorum.RoundIsExact`, `Quorum.MajorityIsExact`).
- For an invalid retries annotation the log speaks of the default, but the threshold becomes what
  parsing returned, so that one failure can be enough (`Counters.QueueIsExact`).
- The host in an endpoint key is the machine's address only if that is free of URL delimiters. An
  IPv6 address is not. For another address the machine is deleted while its member stays, and the
  member of a different machine may go instead (`Text.AddressRoundTrip`, `Text.HostBehindUser`,
  `MemberSafety.OwnMemberIffPlain`).

## Model

| member | source | states |
|---|---|---|
| Text.Sort | controllers/status.go:78 | the endpoints in ascending order, the same ones as often as before |
| Text.LexMeans | controllers/status.go:78 | the ascending order is that of Go strings: a prefix comes first, otherwise the first different character decides |
| Text.SortedUnique | controllers/status.go:78-79 | a collection of endpoints has one sorted listing |
| Text.SplitJoin | controllers/scale.go:78 | splitting a joined list of comma-free strings on commas gives the list back, and one empty part for the empty list |
| Text.URLsInjective | controllers/helpers.go:206-208 | different addresses have different client URLs and different peer URLs |
| Text.HostOfPlain | controllers/helpers.go:206-220 | for an address free of delimiters the host of its client URL is the address |
| Text.HostBehindUser | controllers/helpers.go:206-220 | from an address with user information the host behind it is recovered, which can be another machine's address |
| Text.AddressRoundTrip | controllers/helpers.go:206-220 | address to client URL and back is the identity if and only if the address is free of URL delimiters |
| Machines.GetEtcdMachineAddress | controllers/helpers.go:175-204 | the loop finds the last address of each kind; external names win over external addresses, both over internal ones |
| Machines.BestAddress | controllers/helpers.go:175-204 | among the addresses that are the last of their kind and not empty, the external name wins, then the external address, the internal name, the internal address; empty exactly when there is none |
| Machines.OwnedSplits | controllers/controller.go:264 | the two counts differ exactly when some machine is not owned |
| Machines.Oldest | controllers/etcd_plane.go:97-111 | the machine created first, by name among equals |
| Machines.Newest | controllers/etcd_plane.go:141-144 | the machine created last, by name among equals |
| Machines.ArrangeAnyOrder | controllers/controller.go:276 | every order of a loop over a map is covered by the answers |
| EtcdPlane.LimitMeansMatching | controllers/controller.go:309-319 | the fail-safe's comparison means that the matching machines, owned or not, exceed N |
| EtcdPlane.PoolIsOutdated | controllers/etcd_plane.go:59-70 | the pool selected from is outdated, unless there is none outdated or the only annotated machines are not outdated |
| EtcdPlane.SelectionIsTotal | controllers/etcd_plane.go:59-116 | a machine is always found: the oldest of its failure domain in the pool of highest priority; when exactly it is not an outdated one |
| Choices.AnnotatedFirst | controllers/etcd_plane.go:59-70 | the machine given up has the delete annotation if and only if some owned machine has; it is outdated if and only if an annotated one is, or some is and none is annotated |
| Choices.OldestOfItsDomain | controllers/etcd_plane.go:82-117 | among the machines annotated and outdated alike it is the oldest outside all failure domains, if there is one, and otherwise the oldest of the domain picked |
| Choices.RolloutNeeded | controllers/etcd_plane.go:147-223 | nothing needs a rollout if and only if every active owned machine has a configuration and a template that are missing or the spec's |
| Choices.MadeFromAnother | controllers/etcd_plane.go:147-223 | a machine made from one spec needs a rollout under another if and only if configuration or template differ |
| Choices.RolloutIsTriggered | controllers/controller.go:305-316 | a Reconcile that can read the machines and has no old members to remove takes the rollout branch if and only if it finds an active owned machine of another configuration or template |
| Choices.DoomedIsAnnotated | controllers/scale.go:39-47 | in any state: an owned machine whose deletion a Reconcile asks for is annotated if and only if some owned machine is |
| Choices.AlwaysAnnotated | controllers/scale.go:39-47 | so it is at every Reconcile of every run |
| Choices.DisownedIsChosen | controllers/upgrade.go:54-64 | in any state: a machine given up in a rollout is annotated if and only if some owned one is, and outdated unless the only annotated ones are not |
| Choices.AnnotatedLeaveFirst | controllers/scale.go:39-47 | in every interleaving of a scale-down no machine without the annotation leaves before all annotated ones do |
| Membership.StringSlicesEqual | controllers/helpers.go:237-247 | true exactly for equal slices |
| Membership.MemberForPeerURLs | controllers/helpers.go:227-234 | the first member with exactly these peer URLs, or none |
| Membership.WithoutMember | controllers/scale.go:107 | the membership without the members of that id, and with all others |
| Reconciler.ApiServer.Delete | controllers/scale.go:113-115 | a machine that is gone is no error; one that is there gets its deletion timestamp, or the call fails without effect |
| Reconciler.Reconciler.RemoveEtcdMemberAndDeleteMachine | controllers/scale.go:92-130 | the machines, members, log and error for every outcome of the calls: member first, machine after it, the last member never |
| Reconciler.Reconciler.RemoveEtcdMachine | controllers/scale.go:49-62 | the same behind the creation of the client, for the member whose only peer URL is https, the address, and port 2380 |
| Reconciler.Reconciler.CloneConfigsAndGenerateMachine | controllers/helpers.go:66-113 | one new owned machine of the current spec in the given failure domain, or nothing and an error |
| Reconciler.Reconciler.ScaleUpEtcdCluster | controllers/scale.go:34-37 | a machine in the failure domain with the fewest up-to-date ones |
| Reconciler.Reconciler.InitializeEtcdCluster | controllers/scale.go:24-32 | certificates first, then the machine |
| Reconciler.Reconciler.ScaleDownEtcdCluster | controllers/scale.go:39-47 | the removal of the selected machine with the member of its address |
| Reconciler.Reconciler.RemoveFromListOfOwnedMachines | controllers/upgrade.go:54-64 | the selected machine loses its owner and nothing else |
| Reconciler.Reconciler.UpgradeEtcdCluster | controllers/upgrade.go:17-52 | with one replica create and then disown, otherwise disown and then create |
| Reconciler.Reconciler.RemoveOldMembers | controllers/controller.go:274-281 | the loop over old machines in any order, up to the first error |
| Reconciler.Reconciler.LookAfterOldMembers | controllers/controller.go:264-294 | what is marked about old members, and when the Reconcile ends with their removal |
| Reconciler.Reconciler.AwaitNewest | controllers/controller.go:325-347 | when a rollout step waits for age, address or health, how long, and which check it passed |
| Reconciler.Reconciler.Rollout | controllers/controller.go:316-351 | the rollout branch: fail-safe, gate, marks, step |
| Reconciler.Reconciler.Roll | controllers/controller.go:348-351 | the marks of a rollout step, and the step |
| Reconciler.Reconciler.CompleteRollout | controllers/controller.go:352-377 | what is marked when nothing needs a rollout, and the renewal of certificates |
| Reconciler.Reconciler.CreateFirstMachine | controllers/controller.go:380-385 | the marks and the machine of the first step |
| Reconciler.Reconciler.Resize | controllers/controller.go:379-409 | the second switch |
| Reconciler.Reconciler.AdjustReplicas | controllers/controller.go:394-409 | its last cases: scale up, scale down, settled |
| Reconciler.Reconciler.Scale | controllers/controller.go:352-409 | the branch without a rollout and what follows it, or the error of the certificates |
| Reconciler.Reconciler.RollOutOrScale | controllers/controller.go:305-409 | a rollout takes precedence over scaling |
| Reconciler.Reconciler.ReconcileNormal | controllers/controller.go:243-412 | the decision, what it marks and what it does, through both switches and all early returns |
| Reconciler.Reconciler.ReconcileDelete | controllers/controller.go:414-455 | delete requests for all machines that have none yet, past errors; the finalizer goes when no machine is left |
| Reconciler.Reconciler.CheckOwnedMachines | controllers/machines.go:68-99 | endpoint, listening and error of every owned machine |
| Reconciler.Reconciler.CheckOwnedMachine | controllers/machines.go:76-95 | the three outcomes of one check, and none without an address |
| Reconciler.Reconciler.CountHealthy | controllers/status.go:34-40 | the number of healthy machines |
| Reconciler.Reconciler.FindUnhealthy | controllers/status.go:58-69 | the first unhealthy machine in the order of the loop |
| Reconciler.Reconciler.ListEndpoints | controllers/machines.go:23-32 | the endpoints that are not empty, in the order of the loop |
| Reconciler.Reconciler.UpdateStatus | controllers/status.go:17-108 | conditions, status and Secret for all cases, with the error |
| Reconciler.Reconciler.PublishEndpoints | controllers/status.go:77-105 | the status is written before the Secret, and CreationComplete after it |
| Reconciler.Reconciler.Finish | controllers/controller.go:198-233 | the deferred block: what reaches the API server, the error and the requeue |
| Reconciler.Reconciler.Persist | controllers/controller.go:216-232 | Ready during a rollout, the patch or its error, and the requeue after 20 seconds |
| Reconciler.Reconciler.Reconcile | controllers/controller.go:142-241 | one Reconcile as a whole, with all its early returns |
| HealthCheck.HealthChecker.CleanUpOldMachines | controllers/periodic_healthcheck.go:148-160 | exactly the counters of endpoints that are not listed go; the queue stays |
| HealthCheck.HealthChecker.CheckMachine | controllers/periodic_healthcheck.go:163-204 | counter and queue after one check |
| HealthCheck.HealthChecker.PerformChecks | controllers/periodic_healthcheck.go:148-204 | counters and queue after the checks of a round, in any order |
| HealthCheck.HealthChecker.RemoveOneUnhealthy | controllers/periodic_healthcheck.go:215-232 | one turn: nothing while fewer than N machines are active, otherwise one removal, kept in the queue on error |
| HealthCheck.HealthChecker.RemoveUnhealthy | controllers/periodic_healthcheck.go:213-236 | the loop takes each queued endpoint once, in some order, past errors |
| HealthCheck.HealthChecker.PeriodicHealthCheck | controllers/periodic_healthcheck.go:126-243 | one round as a whole, behind its gates |
| Runs.DecisionTable | controllers/controller.go:264-409 | for every state: exactly when each decision is taken |
| Runs.MarkTable | controllers/controller.go:264-409 | what each decision marks on the conditions and annotations that later decisions read |
| Runs.StatusKeeps | controllers/status.go:17-108 | the status block changes nothing that decisions read, and never unsets CreationComplete |
| Runs.ReconcileLive | controllers/controller.go:198-241 | every Reconcile of a live cluster decides, acts and marks so, and its marks are persisted or lost as a whole |
| Effects.ActKeeps | controllers/controller.go:243-412 | a decision makes at most one machine, of the spec, loses none and adopts none |
| Effects.ReconcileKeeps | controllers/controller.go:142-241 | so does every Reconcile in every state; without the finalizer, while deleting or before its gates it makes none |
| Effects.RoundKeeps | controllers/periodic_healthcheck.go:126-243 | a round makes no machine and changes no owner |
| Rollout.ReconcileMoves | controllers/controller.go:315-396 | one Reconcile of a rollout makes one move or none, and when |
| Rollout.WholeRollout | controllers/controller.go:315-351 | in every run: no member removed, N - 1 or N machines owned (1 or 2 for one replica), over exactly at N creations and N disownings, with the N new machines owned and matching, and the fail-safe is never decided |
| Rollout.RolloutProgress | controllers/upgrade.go:28-51 | until then a Reconcile whose calls succeed makes exactly one of the 2N moves |
| Pacing.RolloutIsPaced | controllers/controller.go:325-351 | creations at least 60 seconds apart, each machine checked at that age before the next is created, the last one included |
| Pacing.GateIsExact | controllers/controller.go:325 | while the newest machine is not ready the rollout holds still if and only if the persisted condition says it is under way |
| Pacing.LostPatchesLoseThePace | controllers/controller.go:223 | every rollout of three or more replicas that is not marked at its start loses its pace when its patches are lost |
| Outcomes.WaitIsExact | controllers/controller.go:325-335 | a wait for the age of 60 seconds asks to be run again at the first moment it is over: before it every Reconcile waits for the rest, from then on none does, and with an address and a passed check it takes a rollout step |
| Ready.ReadyTable | controllers/status.go:46-74 | Ready is set with exactly N owned machines, all healthy, and newly set only then; when it can stay set |
| Ready.ReconcileReady | controllers/controller.go:216-220 | the persisted Ready is false while the rollout is marked, and otherwise true with all N machines healthy, and only then or, left as it was, with a surplus |
| Ready.ReconcileRequeues | controllers/controller.go:228-232 | a Reconcile without error that leaves Ready false asks to be run again, after a positive time |
| Outcomes.RequeueIsExact | controllers/controller.go:228-232 | when the next Reconcile is due: at once after old members were removed, at the end of a wait for age, otherwise in 20 seconds if Ready is false and there was no error |
| Outcomes.EarlyEnds | controllers/controller.go:142-196 | a Reconcile that ends before its main part changes nothing or adds the finalizer; what it returns for each reason |
| Reports.ReportIsExact | controllers/status.go:17-108 | for every persisted Reconcile: exactly when Ready is true, when CreationComplete is, and what the condition on endpoints says |
| Reports.ErrorIsExact | controllers/controller.go:198-241 | a Reconcile reports an error if and only if its decision met a failing call, a call of the deferred block failed, or the status block found a machine that listens but fails |
| Ready.NotReadyDuringRollout | controllers/controller.go:348-363 | in runs in which the patches get through until one has marked the rollout: from its first step until all N machines match and are healthy the rollout is announced and Ready is false, and health check rounds do nothing while it is marked; a start already marked has Ready false |
| Ready.RoundsAreInvisible | controllers/periodic_healthcheck.go:83-87 | a run with health check rounds while the rollout is marked goes where the run without them goes |
| Ready.WholeRolloutWithRounds | controllers/controller.go:315-351 | the counts of a whole rollout hold with health check rounds among its events, each of which finds it marked, fewer than N active machines, or nothing to remove |
| EarlyReady.MarkIsExact | controllers/controller.go:243-351 | while outdated machines are left a persisted Reconcile leaves the rollout marked if and only if it was, or the Reconcile could read the machines |
| EarlyReady.ReadyIsExact | controllers/controller.go:198-226 | while outdated machines are left a persisted Reconcile leaves Ready true if and only if the rollout is not marked, an early return keeps it so, and all N owned machines are healthy |
| EarlyReady.LostPatchesShowReady | controllers/controller.go:198-226 | every rollout of three or more replicas with addresses that is not marked at its start has a run, with its first patches lost, to a persisted Ready in its middle, where health checks are not paused |
| Convergence.ConvergeStepDecreases | controllers/controller.go:301-409 | every Reconcile that changes the machines brings the measure down, and when one does |
| Convergence.Converges | controllers/controller.go:301-409 | in every run the acting Reconciles are at most the measure of the start; it is zero exactly at N owned matching machines |
| Convergence.ConvergedStays | controllers/controller.go:403-411 | there a Reconcile changes no machine and no member |
| Convergence.ConvergenceProgress | controllers/upgrade.go:28-51 | before that a Reconcile whose calls succeed acts |
| ScaleDown.SelectsAgain | controllers/etcd_plane.go:59-116 | the selection does not depend on deletion timestamps: while the machine is terminating it is selected again |
| ScaleDown.ScaleDownIsExact | controllers/controller.go:397-400 | in every interleaving with disappearances exactly d machines go from N + d, one at a time, and never below N |
| ScaleDown.ScaleDownProgress | controllers/scale.go:39-47 | while there is surplus a Reconcile whose calls succeed asks for the deletion of the next one |
| Bootstrap.BootingEvent | controllers/controller.go:379-396 | at the start no step adds more than one machine, and a second one only after a Reconcile has noted the initialisation |
| Bootstrap.BootstrapOrder | controllers/controller.go:379-396 | in every run from zero machines: at most N, all matching, and more than one only once initialisation was reported and noted |
| Bootstrap.BootstrapEnds | controllers/status.go:104-105 | creation first counts as complete with N owned, active, matching and healthy machines |
| Bootstrap.ReconcileCompletes | controllers/status.go:104-105 | CreationComplete is set only with N owned healthy machines and never unset by a Reconcile |
| Bootstrap.NeverUnset | controllers/status.go:104-105 | in every run, of all events, CreationComplete stays set |
| Bootstrap.RoundWaits | controllers/periodic_healthcheck.go:78-82 | before that a health check round changes nothing |
| Bootstrap.BootstrapProgress | controllers/controller.go:379-396 | what each step does when its calls succeed: first machine, note, one more |
| Bootstrap.InitGateIsExact | controllers/controller.go:386-396 | with one machine and no initialisation reported none is added if and only if the persisted condition is False |
| Bootstrap.LostPatchLosesTheOrder | controllers/controller.go:383 | every start with three or more replicas whose first patch is lost puts up a second machine before initialisation is reported, whatever becomes of later patches |
| Balance.PlacedBalanced | controllers/etcd_plane.go:119-125 | a machine placed in a least-populated domain keeps any two domains within one of each other |
| Balance.RolloutBalanced | controllers/etcd_plane.go:119-138 | so are the new machines at every point of every rollout |
| Balance.BootstrapBalanced | controllers/scale.go:34-37 | and the machines at every point of every start |
| CreationCap.GuardHolds | controllers/controller.go:319-323 | with more than N matching machines, owned or not, the rollout branch creates nothing |
| CreationCap.GuardIsExact | controllers/controller.go:309-351 | when its calls succeed it creates a machine if and only if at most N machines match and fewer than N are owned (one, for one replica) |
| CreationCap.CreationsAreCapped | controllers/controller.go:309-323 | however ownership is edited between steps, the rollout branch creates at most N + 1 machines while none is lost |
| Interleaving.TurnBounded | controllers/periodic_healthcheck.go:214-232 | one turn of the removal loop keeps N - 1 active machines, for any queue |
| Interleaving.StaysBounded | controllers/periodic_healthcheck.go:214-232 | every interleaving of rounds, turns, Reconciles and disappearances keeps N - 1 <= active owned <= owned <= N |
| Removals.RemovalIsSafe | controllers/scale.go:92-130 | a removal takes out no member but that of its address, never the last one, and a machine dies only without its member |
| Removals.RemovalSucceeds | controllers/scale.go:92-130 | when its calls succeed it does take out the member and ask for the deletion, unless that is the last member |
| Removals.RemovalIsExact | controllers/scale.go:49-130 | for every outcome of its calls: when a removal reports an error, when the member goes, and which machine gets its deletion timestamp |
| Removals.RemovalIsOrdered | controllers/scale.go:92-130 | what a removal asks for: the member that goes, after it the machine, and nothing else |
| Removals.TurnsAreSafe | controllers/periodic_healthcheck.go:214-233 | the same for the whole removal loop in any order |
| MemberSafety.OwnMemberIffPlain | controllers/periodic_healthcheck.go:222 | the removal of a queued machine takes out its own member if and only if its address is free of URL delimiters; in any case the machine gets its deletion timestamp and the member at the recovered host is gone |
| MemberSafety.MemberBeforeMachine | controllers/scale.go:92-130 | in every run outside teardown a machine gets its deletion timestamp only when no member has its peer URL, and the membership never becomes empty |
| Cleanup.LoopSparesOwned | controllers/controller.go:276-281 | in any order and with any errors the loop takes out no owned machine's member |
| Cleanup.CleanupKeepsMajority | controllers/controller.go:264-284 | while no health check intervenes: once one old member is gone the N owned members are a majority of every membership that follows |
| CleanupRounds.OwnedMembersRemain | controllers/controller.go:264-284 | with health check rounds and removal turns among them, while old machines remain: at least N - 1 owned members are left, but for one more for each deletion call that failed, and they are a majority if and only if fewer old ones are left, for certain once two old ones are gone |
| MajorityLost.RoundTakesTheMajority | controllers/periodic_healthcheck.go:211-232 | from N owned and N old members, a cleanup that stops after one removal and a round that finds its gate open leave N - 1 owned members of 2N - 2, for every N > 1 |
| Cleanup.OldMembersWait | controllers/controller.go:268-273 | before the control plane is upgraded no Reconcile touches an old machine or its member |
| Cleanup.AnnotationDrops | controllers/controller.go:285-289 | the annotation is dropped exactly by a persisted Reconcile that sees no machine without owner |
| Cleanup.CleanupProgress | controllers/controller.go:274-284 | a cleanup whose calls succeed takes out every old member and asks for the deletion of every old machine |
| Counters.ChecksHere | controllers/periodic_healthcheck.go:163-204 | the order of the checks does not matter to any endpoint |
| Counters.QueueIsExact | controllers/periodic_healthcheck.go:173-190 | a failing owned machine is newly queued if and only if its failures in a row come up to 5 or the number annotated; at the first failure when the value that parsing the annotation returns is at most 0 |
| Counters.CountersRefineHistory | controllers/periodic_healthcheck.go:148-204 | in every run of rounds each counter is the number of failures since the last success, round without listing, or start, and every queued machine has its reason |
| Counters.RemovedFailedTooOften | controllers/periodic_healthcheck.go:149-232 | every machine removed was owned when it failed for the T-th time in a row and has passed no check since |
| Queue.EntriesLeft | controllers/periodic_healthcheck.go:213-233 | after a round an entry is still in the queue if and only if its turn found fewer than N active machines or its removal reported an error |
| Queue.QueueAfter | controllers/periodic_healthcheck.go:148-236 | the whole queue after a round, by the history of checks: who failed too often or was queued and did not pass, and was not removed without error; entries of machines not listed stay |
| Queue.BackOnlyByFailing | controllers/periodic_healthcheck.go:232 | in every run of rounds a machine removed without error is queued again only after its endpoint failed a check in a later round |
| Queue.RoundReports | controllers/periodic_healthcheck.go:236-243 | a round sets Ready to false if and only if something is queued, no removal reports an error, and the status can be updated; it changes nothing else |
| Queue.RemovalUnsetsReady | controllers/periodic_healthcheck.go:241-242 | a round that removed a machine without error leaves Ready false when the status can be updated |
| Quorum.CountersAreTheFailing | controllers/periodic_healthcheck.go:148-204 | after the checks of a round the counters are exactly those of the endpoints that failed in it |
| Quorum.GateMeans | controllers/periodic_healthcheck.go:212 | the gate is open if and only if fewer than half of all listed machines failed |
| Quorum.PassingStay | controllers/periodic_healthcheck.go:213-233 | no member that passed this round is removed, in any order, with any errors |
| Quorum.RoundKeepsQuorum | controllers/periodic_healthcheck.go:212-233 | at every point of the removals the machines that passed are a strict majority of the membership |
| Quorum.MajorityIsExact | controllers/periodic_healthcheck.go:212-233 | with machines still bootstrapping that holds if and only if fewer than half of the others failed |
| Quorum.BootstrappingOpensTheGate | controllers/periodic_healthcheck.go:212 | whenever more than half of the machines past bootstrapping failed, but fewer than half of all: a member is removed, and those that passed are no majority |
| Quorum.RoundIsExact | controllers/periodic_healthcheck.go:212-233 | a round of a steady cluster with an empty queue removes one member if and only if fewer than half of all machines failed; then those that passed are a majority if and only if at most half of those past bootstrapping failed |
| Canonical.OrderDoesNotMatter | controllers/machines.go:23-32 | the endpoint string does not depend on the order of the loop |
| Canonical.StringsAreCanonical | controllers/status.go:77-84 | two collections of comma-free endpoints have the same string if and only if they are the same, and splitting it gives the sorted list |
| Canonical.ReadyIsComplete | controllers/status.go:46-79 | when Ready is newly set, exactly N machines are owned, all healthy, and the string splits into exactly their URLs: https, address, port 2379 |
| Canonical.AgreementIsExact | controllers/status.go:84-101 | a Reconcile keeps status and Secret in agreement if and only if it publishes nothing new or writes both or neither |
| Canonical.SecretAgrees | controllers/status.go:84-101 | in every run in which they are written together the Secret's client URLs are the status's |
| Canonical.StaleSecretStays | controllers/status.go:84-91 | in every run in which the same machines stay owned a Secret that missed an update stays as it is, and out of agreement |
| Canonical.SecretNamesAMember | controllers/status.go:92-93 | the address in the Secret is that of an owned machine, the one whose URL comes first |
| Bookkeeping.ReplicasAreCounted | controllers/status.go:34-56 | ready replicas are the owned healthy machines; the resize condition says too few, too many or exactly N |
| Bookkeeping.OutdatedMembersAreTold | controllers/controller.go:264-294 | outdated members are reported exactly while some machine is not owned; the upgrade annotation goes only when nothing needs a rollout, exactly when the end of one is noted or the cluster is settled |
| Bookkeeping.ChecksResume | controllers/periodic_healthcheck.go:62-87 | after a rollout, health checks resume with the Reconcile that finds nothing to roll out and renews the certificates, unless paused, switched off or before creation is complete |
| Bookkeeping.ChecksWait | controllers/periodic_healthcheck.go:72-77 | until the certificates are renewed every round does nothing |
| Bookkeeping.CertificatesAreTold | controllers/controller.go:348-377 | the certificates' condition after each decision |
| Teardown.StepGuarded | controllers/controller.go:183-196 | every step keeps the finalizer while there are machines, and adds none once deletion is requested |
| Teardown.NoOrphans | controllers/controller.go:183-240 | in every run from an empty state machines exist only while the finalizer does |
| Teardown.OnlyShrinks | controllers/controller.go:414-454 | once deletion is requested the set of machines only shrinks |
| Teardown.TeardownProgress | controllers/controller.go:423-454 | a teardown step without error has asked for the deletion of every machine, says so, and is due in 30 seconds, or found none and let the object go |
| Teardown.TeardownIsExact | controllers/controller.go:433-447 | a teardown step asks once for the deletion of every machine not terminating, whichever requests fail, and of no other |

## Left out

- Health checks over HTTP and TLS, and port probing: a check passes, fails, or finds the port closed, as an answer.
- Certificates: generation succeeds or fails, as an answer.
- The Kubernetes client, caches and watches: machine lists are fresh, and a health check's status update never conflicts.
- Machine and configuration templates: a configuration and a template are opaque values, and one that cannot be found counts as matching.
- Labels, the selector in the status, the summary condition, log messages and recorded events.
- How `PickMost` and `PickFewest` choose: only the contracts above, as functions of their arguments.
- Generated names are numbers, which decide between machines created at the same time.
- The clock counts seconds, and replica counts are not bounded to 32 bits.
- etcd itself: a list or a removal acts on the whole membership at once or fails without effect.
- A failing listing inside the health checker's removal loop, which the code reads as no machines.
- The health checker's map of clusters: one checker belongs to one EtcdadmCluster, and the fields `endpoints` and `ownedMachines` of its entry, which decide nothing, are not modelled.
- A Secret object that is replaced: there is one, whatever `Status.InitMachineAddress` says.
- Text.HostOfPlain: user information inside an address is dropped, as in the code; percent escapes and bracketed IPv6 hosts are read as errors, so the round trip fails for them, as it does in the code for a bare IPv6 address.
- Rollout.WholeRollout: supposes that the control plane's upgrade is not announced before the rollout is over; after it, old members are removed (`Cleanup.CleanupProgress`).
- ScaleDown.ScaleDownIsExact: supposes that no machine is annotated or reconfigured while the scale-down lasts, and has no rounds of the health checker in its runs.
- Convergence.Converges: has no rounds of the health checker in its runs, and supposes that no removal of old members is pending, which goes on even at N owned matching machines (`Cleanup.CleanupProgress`).
- Bootstrap.BootstrapOrder: covers the start up to and including the step at which creation is complete; from there on `Interleaving.StaysBounded` applies.
- Cleanup.CleanupKeepsMajority: supposes that no machine joins while the cleanup lasts, and has no rounds of the health checker in its runs; `CleanupRounds.OwnedMembersRemain` has them.
- CleanupRounds.OwnedMembersRemain: supposes that no machine joins while the cleanup lasts, and stops where the last old machine has disappeared.
- MemberSafety.MemberBeforeMachine: supposes that a generated name is not one that is still queued for removal, and that addresses are free of URL delimiters; `CleanupRounds.OwnedMembersRemain` supposes the same.
- EarlyReady.ReadyIsExact: with one replica supposes that Ready was false, since with a surplus the status block leaves it as it was; `Reports.ReportIsExact` has that case too.
- API conversions, deep copies, the webhook beyond the domain of the replica count, and the wiring of the manager.
