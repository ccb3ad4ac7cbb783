# Application controller: a verified model

A Dafny model of the Application controller and its push agent: the reconcile and condition state machine,
the per-kind readiness table, the claim protocol for component watches, the counter-delta collector, and the
push stream. `dafny verify dfyconfig.toml` checks everything.

The model has one module per file.

| module | what it covers |
|---|---|
| `Text` | byte-wise string order, decimal printing, trimming and splitting |
| `Readiness` | the verdict of one component object, by kind |
| `Kinds` | what each kind's verdict means, over the raw fields of an object of that group and kind |
| `Ordering` | the component list and its sort by `group/kind/name` |
| `Conditions` | timestamped conditions and their edits |
| `Reconcile` | one reconcile: list, sort, count, edit the conditions, then write, hold or do nothing |
| `ReconcileRuns` | whole runs of reconciles of one Application under a clock that never goes back |
| `Watches` | which components an Application lists, whom an event reaches, and the claim / watch / roll-back protocol between parallel reconcilers |
| `Counters` | counter deltas of one endpoint, a tick over all endpoints, the gate |
| `CounterRuns` | runs of log lines, exporter restarts, successful and failed scrapes |
| `Protocol` | sample truncation and chunked frames over one shared array |
| `Scope` | parsing of the namespace list, and the two scope tests |
| `Backoff` | waits between connection attempts, the loop and the reader goroutines of its attempts as interleaved steps |
| `Stream` | informer handlers, producers, connections and the cache as interleaved atomic steps; an enqueue is two steps, reading the channel and offering to it |
| `StreamWire` | grammar, order, isolation and bound of every connection's wire |
| `StreamConvergence` | what the receiver holds after replaying a connection's wire |
| `StreamSnapshot` | what a snapshot must contain, and that a connection can always get its receiver up to date |

Loops that edit a value or an object in place are methods (`Conditions.StatusEditor`, `Counters.Collector`,
`Reconcile.StoredApplication`, `Protocol.TruncateInPlace`). Each is proved equal to a specification function or to a
statement about its inputs, and the run theorems are proved about that. Protocols between goroutines are
transition systems whose executions are arbitrary interleavings.

## The main results

- **No infinite hold, and exactly what postpones recovery.** A held reconcile asks to come back exactly at
  `lastTransitionTime + period`, within (0, period] over every run. Held and still-not-ready reconciles leave that
  deadline alone, and the first healthy one at or after it stores Ready=True (`HoldWithinPeriod`, `DeadlineStable`,
  `Released`). Over every run a status that is not Ready stays so if and only if every recovery comes less than a
  period after the last change between False and Unknown (`NeverReadyIff`), and for every n there is such a run with
  2n recoveries (`PostponedForever`). One error restarts the wait only once (`ErrorRestartsWait`).
- **What was seen is stored.** After a reconcile whose write succeeds the stored status is what it saw, whatever was
  stored before, except that a recovery may be held back; a loss of readiness is stored at once (`SeenIsStored`,
  `LossIsStored`, `SeenIsStoredAlways`). A failing workload keeps its Application from Ready=True (`NotReadyBlocks`).
- **Flap rate.** Two stored rises of Ready are at least one period apart, so a window of length L holds at most
  L/period + 1 of them (`RisesApart`, `FlapRate`).
- **Stored-status invariant, quiescence, invisible scale-up** over every run (`StoredInvariant`, `QuiescentRun`,
  `ScaleUpInvisible`), resting on exact conditions for a canonical sort order (`CanonicalOrderIff`) and for an
  invisible rescale (`RescaleInvisibleIff`).
- **One watch per kind** under every interleaving and failure pattern (`OneWatchPerKind`). After a reconciler is
  through an Application's kinds, a listed workload component's kind is claimed or watched exactly when no roll-back
  of it at or after the reconciler's own pass was left without a later claim (`TriggerComplete`); a run shows that
  this happens (`PassedThenRolledBack`).
- **Conservation of counts.** Reported, lost and pending lines add up to the lines that happened, at every
  endpoint and at every point of every run, with losses given by the events that cause them (`Conservation`), so
  nothing is ever over-reported; a pair's reported lines are exactly those up to each endpoint's last successful scrape
  if and only if every restart before it found nothing pending and was seen (`NeverOverReports`). What reaches the
  send queue equals what the collector computed if and only if every tick with a movement crossed the gate, was
  connected and found room (`DeliveredIff`).
- **Each rejection affects its own wait.** In every interleaving of the reconnect loop with its readers the flag taken
  at a swap is that attempt's own verdict, and the waits are the closed form (`FlagIsOwn`, `WaitsAreClosedForm`).
- **Wire grammar and isolation** of every connection (`WireGrammarAndIsolation`).
- **Complete snapshots.** A finished snapshot carries exactly the unchanged cached Applications of the configured
  namespaces (`SnapshotComplete`), and from every reachable state a connection that is not over can bring its receiver
  up to date (`AlwaysSettles`).
- **Stream convergence** for every interleaving, reconnects included. What a settled receiver holds is the last delta
  its channel accepted, else the listing (`HoldsAccepted`), and the cached value for every key whose last word was not
  spoilt (`Convergence`). Where nothing was dropped and no earlier connection's delta got in, a key converges if and
  only if its last change since registration was not a deletion seen as a tombstone (`ConvergesIff`). A dropped delta
  and an earlier connection's delta each have their exact condition (`DropLoses`, `StaleOverwrites`), and a concrete
  run shows the latter (`StaleDeltaDiverges`).

## Where the code and its documentation differ

The model follows the code.

- A count whose frame is dropped is not recovered by the next scrape (`CounterRuns.DroppedIsGone`, with a run in
  `CounterRuns.DroppedNotRecovered`): the baseline is replaced before anything is sent (logmetrics/deltas.go:63),
  whereas push/pusher.go:475-478 says the next scrape recovers it.
- "Disconnected" means "before the first connection" (`Protocol.SendLogMetrics`): the send channel is never cleared
  (push/pusher.go:253-256, 483-486).
- The stabilization wait runs from the stored Ready condition's last change of status
  (controllers/application_controller.go:112-113), not from recovery; docs/adr/0001-fix-stabilization-infinite-loop.md:40
  speaks of Ready=False only, but Unknown counts too, and each change between the two restarts the wait
  (`ReconcileRuns.NeverReadyIff`).
- A deletion that reaches the handler as a tombstone is ignored (push/pusher.go:443-446).
- An empty metric name or fallback label is replaced by its default (logmetrics/collector.go:102-119), so neither
  can be switched off as logmetrics/collector.go:76 says.
- A Job is Ready on Complete=True (controllers/status.go:328-340), where README.md:54 says "started"; a Rollout's
  serving phases are not enough for Ready (controllers/status.go:402-411), where README.md:53 says they are.
- A scale-up of a Rollout usually shows (`Readiness.RolloutRescaleIff`), unlike that of the four built-in kinds.
- A route's verdict does depend on the order of its parents when a malformed parent and a rejecting one, or two
  parents malformed in different ways, meet (`Readiness.RouteOrderIrrelevantIff`).

## Model

| member | source | states |
|---|---|---|
| `Text.FormatNatInjective` | controllers/application_controller.go:148 | two different counts never print alike |
| `Text.RatioInjective` | controllers/application_controller.go:148 | the text `ready/total` determines both numbers, so comparing the texts compares the counts |
| `Text.FormatNatReads` | controllers/application_controller.go:148 | a count prints as the decimal text that denotes it, without leading zeros |
| `Text.RatioReads` | controllers/application_controller.go:148-154 | the text splits at its slash into the two numbers, the ready one first |
| `Text.LexMeaning` | controllers/application_controller.go:238 | in the string order the first difference decides, and a proper prefix comes first |
| `Text.SplitJoin` | push/pusher.go:56 | splitting undoes joining, for any non-empty list of parts free of the separator |
| `Text.SplitStep` | push/pusher.go:56 | splitting takes the text before the first separator and then splits the rest |
| `Text.TrimSpace` | push/pusher.go:57 | the result has no space at either end and only characters of the input |
| `Text.TrimSpaceCuts` | push/pusher.go:57 | only blanks go: the result is what is left between two blank ends |
| `Text.TrimSpacePadded` | push/pusher.go:57 | all blanks go: whatever blanks stand around a trimmed text, trimming gives that text |
| `Readiness.FirstStatus` | controllers/status.go:557-571 | the lookup fails exactly when no entry has the type, and otherwise gives the status of the first entry that has it |
| `Readiness.ConditionHasStatus` | controllers/status.go:557-571 | the early-return loop asks whether the first matching entry has that status, so it cannot report True and False for one name |
| `Readiness.DeploymentStatus` | controllers/status.go:119-165 | the loop's two flags mean "some entry is True", whatever the order of the entries |
| `Readiness.ReplicaSetStatus` | controllers/status.go:168-199 | the failure flag means "some entry is True"; Ready iff no failure, and either a replica available or scaled to zero |
| `Readiness.FirstDecidedMeaning` | controllers/status.go:486-508 | the parent loop returns early exactly when some parent makes it, with the outcome of one that does |
| `Readiness.VisitParent` | controllers/status.go:487-507 | one pass of the loop: whether the parent ends it and with what, and else whether it is healthy |
| `Readiness.RouteStatus` | controllers/status.go:477-513 | the loop with its early returns gives the outcome of the first deciding parent, else whether any is healthy |
| `Readiness.RouteReadyIff` | controllers/status.go:469-513 | a route is Ready iff some parent is Accepted and ResolvedRefs, none has either False, and none is malformed |
| `Readiness.RouteOrderIrrelevantIff` | controllers/status.go:486-508 | permuting the parents keeps the early outcome exactly when all deciding parents agree |
| `Readiness.RoutePermutation` | controllers/status.go:486-512 | without malformed parents, permuting them keeps the verdict |
| `Readiness.LookupPermutation` | controllers/status.go:557-571 | with unique condition types, permuting the conditions keeps every lookup |
| `Readiness.RouteConditionsPermuted` | controllers/status.go:477-571 | permuting the conditions of any parents keeps the route's verdict, if their types are unique |
| `Readiness.RescaleInvisibleIff` | controllers/status.go:90-199 | for the four scalable kinds, a new spec.replicas and generation leave the verdict alone exactly when zero is not crossed or the object's status decides by itself |
| `Readiness.UnknownIff` | controllers/status.go:24-62 | over all kinds an error comes with Unknown, and Unknown with an error, except exactly for a Rollout in an unrecognised phase with too few replicas |
| `Readiness.RolloutRescaleIff` | controllers/status.go:359-427 | a Ready Rollout that is rescaled stays Ready exactly when the available replicas cover the new count |
| `Kinds.DeploymentReadyIff` | controllers/status.go:119-165 | a Deployment is Ready iff it converts, has no ReplicaFailure=True entry, and has an Available=True entry or is parked at zero; no other count or generation matters |
| `Kinds.ReplicaSetReadyIff` | controllers/status.go:168-199 | a ReplicaSet is Ready iff it converts, has no ReplicaFailure=True entry, and has a replica available or is parked at zero |
| `Kinds.ReplicaFailureBlocks` | controllers/status.go:161-198 | a Deployment or ReplicaSet with a ReplicaFailure=True entry anywhere is never Ready |
| `Kinds.StatefulSetReadyIff` | controllers/status.go:90-116 | every managed pod ready and at least one, however many are desired; or parked at zero |
| `Kinds.DaemonSetReadyIff` | controllers/status.go:202-319 | a DaemonSet: no scheduled pod unavailable, also with none scheduled; a ReplicationController: a replica available, or parked at zero |
| `Kinds.JobReadyIff` | controllers/status.go:321-341 | a Job is Ready iff some entry is Complete=True and none before it Failed=True |
| `Kinds.RolloutIff` | controllers/status.go:359-450 | no phase alone makes a Rollout Ready; and it is an error exactly when a field it has to read is malformed |
| `Kinds.GatewayReadyIff` | controllers/status.go:465-545 | the first Accepted and the first Programmed entry are True; Unknown iff the conditions cannot be read |
| `Kinds.AgentReadyIff` | controllers/status.go:522-545 | the first Accepted entry is True; Unknown iff the conditions cannot be read |
| `Kinds.HTTPRouteIff` | controllers/status.go:477-571 | Ready iff some parent has accepted and resolved, none refuses, none is malformed, over the entries' positions; Unknown iff the parents cannot be read or a malformed one comes before every refusing one |
| `Kinds.ServiceReadyIff` | controllers/status.go:229-580 | a load balancer needs a cluster address and an address or host name for each of its ingress entries, at least one; other known types are Ready at once |
| `Kinds.CoreReadyIff` | controllers/status.go:216-356 | when claims, pods, disruption budgets and cron jobs are Ready |
| `Kinds.OtherReadyIff` | controllers/status.go:65-87 | any other kind is Ready unless its conditions cannot be read or say Ready=False or InProgress=True |
| `Kinds.ConversionError` | controllers/status.go:90-94 | a typed kind that does not convert is Unknown, with that error |
| `Ordering.KeyInjective` | controllers/application_controller.go:236-238 | for slash-free groups and kinds the joined sort key identifies group, kind and name |
| `Ordering.KeyCollision` | controllers/application_controller.go:236-238 | without that premise two kinds can share a key |
| `Ordering.KeyOrder` | controllers/application_controller.go:235-239 | the listing goes by group, then kind, then name, each in byte order |
| `Ordering.SortUnique` | controllers/application_controller.go:235-239 | two sorted permutations of a tie-free list are equal |
| `Ordering.CanonicalOrderIff` | controllers/application_controller.go:235-239 | the sorted list is unique exactly when no two different entries share a key |
| `Ordering.InsertSorts` | controllers/application_controller.go:235-239 | inserting keeps a list sorted and adds exactly the new entry |
| `Ordering.SortStatuses` | controllers/application_controller.go:235-239 | the result is a sorted permutation of the list |
| `Conditions.SetConditionMeaning` | controllers/condition.go:36-59 | after an edit the condition carries the request, its transition time moved exactly when its status did, other conditions are untouched, types stay unique |
| `Conditions.SetConditionFixpoint` | controllers/condition.go:47-49 | repeating a request changes nothing, at any time |
| `Conditions.StatusEditor.Set` | controllers/condition.go:36-59 | the in-place edit: the last condition of the type is replaced, kept or appended, and nothing else changes |
| `Conditions.StatusEditor.Add` | controllers/condition.go:61-72 | the new condition is the one found from now on, all other types are found as before, and a type that was absent stays the only one of its name |
| `Reconcile.CountReadyFull` | controllers/application_controller.go:304-307 | the ready count reaches the total exactly when every entry is Ready |
| `Reconcile.CountReadyIs` | controllers/application_controller.go:137-142 | the ready count is the number of positions that hold a Ready entry |
| `Reconcile.WorkloadCounts` | controllers/application_controller.go:293-303 | the two workload counts are the numbers of positions that hold a workload, and a Ready one |
| `Reconcile.WorkloadKinds` | controllers/application_controller.go:246-261 | the twelve kinds that decide, by name |
| `Reconcile.DistinctMeaning` | controllers/application_controller.go:133-158 | the messages shown are those of the error list, none twice, the first one first |
| `Reconcile.AggregateShows` | controllers/application_controller.go:157-158 | the Error condition's text contains every message, and is the message itself if there is only one |
| `Reconcile.AggregateReady` | controllers/application_controller.go:293-308 | the verdict is "every workload component is Ready", also for none, and the counts are those of the workload components |
| `Reconcile.CountAllReady` | controllers/application_controller.go:137-142 | the number of Ready entries of the whole list |
| `Reconcile.ObjectStatuses` | controllers/application_controller.go:214-241 | the statuses of all listed objects in a sorted order, and the errors of listing and of each status, in order |
| `Reconcile.NewApplicationStatus` | controllers/application_controller.go:131-164 | the edited copy is the stored status with the two conditions set from the view, the new list, count text and generation |
| `Reconcile.NotReady` | controllers/application_controller.go:284-291 | the scan finds the first Ready condition that is not True, if any |
| `Reconcile.IsTransitioningToReady` | controllers/application_controller.go:263-280 | true exactly when the new status says Ready=True and the stored one has a Ready condition that is not True |
| `Reconcile.Stabilize` | controllers/application_controller.go:89-117 | the branch structure: unchanged with or without the error requeue, held for the rest of the period, or a write |
| `Reconcile.ReconcileOnce` | controllers/application_controller.go:64-121 | the whole method on the stored object: new stored status, requeue and failure, in terms of the decision on the view it computed, which `SeenIsStored` explains |
| `ReconcileRuns.GuardMeaning` | controllers/application_controller.go:263-291 | with unique types the two scans read the one Ready condition |
| `ReconcileRuns.NewConditionsMeaning` | controllers/application_controller.go:149-161 | both conditions carry their requests with the right times; all other conditions are untouched |
| `ReconcileRuns.DecideMeaning` | controllers/application_controller.go:89-117 | holding, writing and doing nothing characterised by the stored Ready condition and the clock; the hold ends at lastTransition + period |
| `ReconcileRuns.StepMeaning` | controllers/application_controller.go:64-121 | an event leaves the status or writes the new one; a write that makes Ready True has waited out the period |
| `ReconcileRuns.SeenIsStored` | controllers/application_controller.go:107-164 | from any stored status: a successful reconcile stores the Ready verdict, reason, error text, components and generation it saw, unless it holds back a recovery; a failed write changes nothing |
| `ReconcileRuns.LossIsStored` | controllers/application_controller.go:107-120 | a loss of readiness or an error is stored at once, also from Ready=True |
| `ReconcileRuns.SeenIsStoredAlways` | controllers/application_controller.go:64-121 | the same after every run |
| `ReconcileRuns.RestRequeue` | controllers/application_controller.go:90-95 | an errored reconcile that finds nothing to write comes back after 30 seconds, an error-free one does not |
| `ReconcileRuns.UniqueAlways` | controllers/condition.go:36-72 | condition types stay unique over every run |
| `ReconcileRuns.WriteCoupled` | controllers/application_controller.go:131-164 | every written status: Ready=Unknown iff Error=True, Ready=True iff Error=False and all workloads Ready, count text matches the list, and a Ready=False message names a ready count below its workload count |
| `ReconcileRuns.DatedStep` | controllers/condition.go:46-57 | one more event keeps "transition time is the time of the last write that changed the status" |
| `ReconcileRuns.StoredInvariant` | controllers/application_controller.go:131-164 | over every run from the empty status: coupled or never written, only the two conditions, and each transition time is that of the last write changing the status and not later than the update time |
| `ReconcileRuns.FellAfter` | controllers/condition.go:50-54 | after Ready rose, a later loss of readiness carries a transition time no earlier than that write |
| `ReconcileRuns.RisesApart` | controllers/application_controller.go:107-121 | two stored rises of Ready are at least one period apart |
| `ReconcileRuns.RisesSpread` | controllers/application_controller.go:107-121 | n rises in a window span at least (n-1) periods |
| `ReconcileRuns.FlapRate` | controllers/application_controller.go:107-121 | a window of length L holds at most L/period + 1 rises |
| `ReconcileRuns.HoldDeadline` | controllers/application_controller.go:111-117 | for any stored status, the requeue of a hold is positive and lands at lastTransition + period |
| `ReconcileRuns.HoldWithinPeriod` | controllers/application_controller.go:111-117 | over every run from the empty status the requeue lies in (0, period] and lands at lastTransition + period |
| `ReconcileRuns.DeadlineMovesIff` | controllers/condition.go:50-54 | an event moves the deadline exactly when it changes the stored Ready status |
| `ReconcileRuns.DeadlineStable` | docs/adr/0001-fix-stabilization-infinite-loop.md:38-43 | any number of held or still-not-ready reconciles leave the deadline and the status where they are |
| `ReconcileRuns.RecoveryStep` | controllers/application_controller.go:111-120 | a healthy reconcile holds before the deadline and stores Ready=True at or after it |
| `ReconcileRuns.Released` | docs/adr/0001-fix-stabilization-infinite-loop.md:38-43 | the same after any number of waiting reconciles: no infinite hold |
| `ReconcileRuns.ErrorRestartsWait` | controllers/application_controller.go:284-291 | an errored write on a Ready=False status restarts the wait once: after any further errors and early recoveries, a recovery is stored iff it comes a full period after that write |
| `ReconcileRuns.NeverReadyIff` | controllers/application_controller.go:107-121 | over every run, a status that is not Ready is never reported Ready iff every recovery comes less than a period after the last change between False and Unknown |
| `ReconcileRuns.PostponedForever` | controllers/application_controller.go:107-121 | for every n, a run of n rounds alternating between not ready and erred, with 2n recoveries in between, is never Ready |
| `ReconcileRuns.Fixpoint` | controllers/application_controller.go:89-95 | a status computed from a view is unchanged by every later reconcile with that view |
| `ReconcileRuns.ConsistentTieFree` | controllers/application_controller.go:235-239 | listing an object twice causes no tie between different entries |
| `ReconcileRuns.PermutedStatuses` | controllers/application_controller.go:217-234 | listing in another order gives a permutation of the same statuses |
| `ReconcileRuns.PermutedErrors` | controllers/application_controller.go:226-231 | an error-free listing is error-free in any order |
| `ReconcileRuns.ErrorsMeaning` | controllers/application_controller.go:226-231 | the errors of a listing are those of its objects, none lost and none made up |
| `ReconcileRuns.Quiescent` | controllers/application_controller.go:86-95 | after a write, a reconcile of the same error-free resources in any listing and sorting order does nothing |
| `ReconcileRuns.QuiescentRun` | controllers/application_controller.go:86-95 | any run of such reconciles never changes the stored status |
| `ReconcileRuns.ScaledUpSame` | controllers/status.go:90-199 | rescaling any set of the four kinds between nonzero counts keeps every status and every error |
| `ReconcileRuns.ScaleUpInvisible` | controllers/application_controller.go:86-95 | from a status that a reconcile wrote or found at rest, such a rescale makes the next reconcile write nothing, in any listing order |
| `ReconcileRuns.UnwatchedIrrelevant` | controllers/application_controller.go:394-401 | error-free listings that differ only in objects of other than workload kinds ask for the same Ready status |
| `ReconcileRuns.NotReadyBlocks` | controllers/application_controller.go:293-308 | a listed workload that is not Ready keeps its Application from asking for Ready=True |
| `ReconcileRuns.ReplicaFailureBlocksApplication` | controllers/status.go:161-198 | in particular a Deployment or ReplicaSet with a ReplicaFailure=True entry |
| `Watches.StripVersionGroup` | api/v1beta1/application_types.go:329-342 | a group is kept, with or without a version suffix; a bare version is the core group |
| `Watches.StripVersionStable` | api/v1beta1/application_types.go:329-342 | the result is a bare group and stripping again changes nothing |
| `Watches.Targets` | controllers/application_controller.go:393-410 | the kinds gone through are exactly the mapped workload kinds of the Application |
| `Watches.ListKind` | controllers/application_controller.go:198-209 | a List call returns exactly the selected objects of that kind in the namespace |
| `Watches.FetchComponents` | controllers/application_controller.go:166-212 | exactly the selected objects of a mapped, listable declared kind; an error iff the selector is invalid or a List fails |
| `Watches.VersionIgnored` | controllers/application_controller.go:187-405 | a version in a declared kind's group changes neither what is listed nor what is watched |
| `Watches.ApplicationsForComponent` | controllers/application_controller.go:436-459 | exactly the Applications in the component's namespace whose valid selector accepts its labels |
| `Watches.ListedIsTriggered` | controllers/application_controller.go:166-212 | every workload component an Application lists is of a kind it makes sure is watched, and an event on it requests the Application |
| `Watches.ExclusiveStep` | controllers/application_controller.go:411-424 | every atomic step keeps claims exclusive, entries claimed or watched but not both, and nothing watched twice |
| `Watches.InvAlways` | controllers/application_controller.go:382-430 | the invariant over every interleaving |
| `Watches.OneWatchPerKind` | controllers/application_controller.go:379-424 | at most one successful watch per kind; a kind is in the map iff watched or claimed; an unwatched one is claimed by exactly one reconciler |
| `Watches.WatchedForever` | controllers/application_controller.go:379-381 | a watched kind stays watched and stays in the map |
| `Watches.RetryWatches` | controllers/application_controller.go:419-424 | a run: after a failed watch and its roll-back the next round watches the kind |
| `Watches.PassedAt` | controllers/application_controller.go:393-424 | a target that a reconciler is past was passed at a step of the same round of its loop |
| `Watches.InMapIff` | controllers/application_controller.go:411-424 | from a pass on, a kind is missing from the map iff some roll-back of it was not followed by a claim |
| `Watches.TriggerComplete` | controllers/application_controller.go:382-459 | once a reconciler is through, every listed workload component was passed at some step, and its kind is claimed or watched iff no roll-back at or after that step, its own included, was left without a later claim; an event on it requests the Application |
| `Watches.PassedThenRolledBack` | controllers/application_controller.go:411-424 | a run in which two reconcilers are through and the kind is in nobody's hands |
| `Counters.WithDefaults` | logmetrics/collector.go:89-126 | every configured name and positive threshold is kept; afterwards no metric name or fallback label is empty and the threshold is positive |
| `Counters.BelongsIff` | logmetrics/deltas.go:96-104 | every sample belongs to exactly one pair: its namespace label, and its service label unless that is absent or empty, then its fallback label |
| `Counters.ServiceLabelWins` | logmetrics/deltas.go:97-99 | a non-empty service label decides, whatever the other labels say |
| `Counters.SumAdds` | logmetrics/deltas.go:128-137 | a sample adds its value to the pair it belongs to and to no other |
| `Counters.SumByServicePair` | logmetrics/deltas.go:123-139 | the pairs present are exactly those that some sample belongs to, except the nameless one, each with the sum of its samples |
| `Counters.SampleByServicePair` | logmetrics/deltas.go:72-90 | each pair's first non-empty sample text, and no entry for the others |
| `Counters.ScrapeSampleIff` | logmetrics/deltas.go:55-90 | a pair's text is that of the first sample of the error family that belongs to it and has one |
| `Counters.MergeMetric` | logmetrics/deltas.go:40-46 | one metric's movements are merged per pair, in any iteration order, touching no other field |
| `Counters.MergeSamples` | logmetrics/deltas.go:55-61 | sample texts are merged per pair, in any iteration order, touching no count |
| `Counters.CurrentCounters` | logmetrics/deltas.go:28-36 | the stored counters hold exactly the sums of the scrape |
| `Counters.Diff` | logmetrics/deltas.go:38-61 | every pair's three movements and sample text against the baseline |
| `Counters.Collector.constructor` | logmetrics/collector.go:153-165 | starts with defaults applied and no baseline |
| `Counters.Collector.ComputeDeltas` | logmetrics/deltas.go:27-65 | the movements against this endpoint's last successful scrape are exact, other endpoints' baselines are untouched, and this scrape becomes the baseline |
| `Counters.Accumulate` | logmetrics/collector.go:214-219 | each of the three counts grows by the delta's, a sample text already held stays, and identity is kept |
| `Counters.AddDeltas` | logmetrics/collector.go:208-220 | one endpoint's deltas are added per pair, in any iteration order |
| `Counters.TickSampleMeaning` | logmetrics/collector.go:217-219 | a tick's text of a pair is that of the first endpoint that has one, truncated |
| `Counters.Collector.Aggregate` | logmetrics/collector.go:200-221 | each pair's totals are its movements over all endpoints scraped; a failed scrape leaves that endpoint's baseline |
| `Counters.Accounting` | logmetrics/collector.go:223-241 | error and warn counts split exactly into sent, below the gate and unattributed |
| `Counters.WeightIs` | logmetrics/collector.go:237 | the counts accounted for are the sums of error and warn counts |
| `Counters.Gate` | logmetrics/collector.go:223-241 | in any iteration order: the split is exact, a pair is sent at most once with its totals, and iff it has a service and crosses the threshold |
| `Counters.Collector.RunOnce` | logmetrics/collector.go:187-255 | one tick: the frame holds exactly the named pairs whose error or warn movement reaches the threshold, once each, with their movements; none if there are none |
| `CounterRuns.BumpAdds` | logmetrics/deltas.go:123-139 | one more log line raises the sum of its own pair by one and of no other |
| `CounterRuns.CountsIff` | logmetrics/deltas.go:96-104 | a line counts for the pair its labels belong to |
| `CounterRuns.CounterAfter` | logmetrics/deltas.go:27-65 | how each event moves one endpoint's counter and baseline; only its own successful scrape moves the baseline |
| `CounterRuns.Conservation` | logmetrics/deltas.go:106-117 | reported + lost + pending lines equal the lines that happened at an endpoint, all nonnegative, where lost is what was pending at a restart plus the old baseline at a scrape that fails to see one |
| `CounterRuns.NothingLostIff` | logmetrics/deltas.go:106-117 | nothing is lost at an endpoint iff every restart finds nothing pending and every first scrape after one sees the drop |
| `CounterRuns.ResetSeenIff` | logmetrics/deltas.go:111-117 | a scrape after a restart loses nothing exactly when the old baseline is zero or above the counter |
| `CounterRuns.SeenIff` | logmetrics/deltas.go:24-26 | an endpoint reported at most the lines up to its last successful scrape, and exactly those iff no event up to it lost anything |
| `CounterRuns.ExactWithoutRestart` | logmetrics/deltas.go:24-26 | without restarts the reported lines are exactly those up to the last successful scrape, failed ones in between notwithstanding |
| `CounterRuns.TotalsAreSums` | logmetrics/collector.go:207-216 | reported and happened totals are the sums over the endpoints |
| `CounterRuns.NeverOverReports` | logmetrics/deltas.go:18-22 | over every run the reported lines of a pair are at most those that happened, and exactly those scraped iff no restart lost any; in particular without restarts |
| `CounterRuns.TickAddsUp` | logmetrics/collector.go:200-221 | a tick's totals are what its scrapes report, with lines and restarts going on in between |
| `CounterRuns.TicksNeverOverReport` | logmetrics/collector.go:200-221 | however a run is cut into ticks, the totals never exceed the lines |
| `CounterRuns.FrameAmount` | logmetrics/collector.go:223-253 | a tick's frame adds up, for a pair, to its movements if it has a service and crosses the gate, and to nothing otherwise |
| `CounterRuns.DeliveredIff` | push/pusher.go:475-494 | over every run of ticks the frames that reach the queue carry at most the lines that happened, and all that was computed iff every tick with a movement crossed the gate, was connected and found room |
| `CounterRuns.DroppedIsGone` | logmetrics/deltas.go:63 | the counts of a tick that is not sent are missing from everything delivered, whatever ticks follow |
| `CounterRuns.DroppedNotRecovered` | push/pusher.go:475-478 | a run: two errors, the first tick's frame dropped, the second sent; one error delivered |
| `CounterRuns.Telescoping` | logmetrics/deltas.go:38-65 | an endpoint's deltas sum to its last value plus the values held just before each drop |
| `Protocol.TruncateSample` | push/protocol.go:166-171 | a prefix of at most 256 bytes, the text itself if it fits and exactly 256 bytes otherwise |
| `Protocol.Chunks` | push/protocol.go:176-189 | for any positive size: consecutive non-empty slices covering the list, all full but the last |
| `Protocol.GlueIsPrefix` | push/protocol.go:176-189 | the slices, put together, are the list in order |
| `Protocol.ChunkCount` | push/protocol.go:176-189 | no fewer chunks would do |
| `Protocol.ClipIdempotent` | push/protocol.go:150-156 | truncating an already truncated list changes nothing |
| `Protocol.ClippedIs` | push/protocol.go:153-156 | truncation leaves every other field as it is |
| `Protocol.TruncateInPlace` | push/protocol.go:153-156 | exactly the slice's samples are truncated in the shared array |
| `Protocol.SendLogMetrics` | push/pusher.go:479-494 | the frames hold the input in order with every sample truncated, ceil(n/100) of them, 1 to 100 entries each; nothing is offered or touched before the first connection |
| `Protocol.Delivered` | push/pusher.go:491-493 | slices that partition a list glue back to the whole list |
| `Scope.ParseNamespaces` | push/pusher.go:54-62 | entries are trimmed, non-blank and comma-free, and are the non-blank trimmed parts in order |
| `Scope.ParseJoin` | push/pusher.go:50-62 | parsing undoes joining, for any names with any blanks around each and any all-blank parts in between |
| `Scope.ParseExample` | push/pusher.go:51 | "ops, dev" parses to ops and dev |
| `Scope.InScope` | push/pusher.go:496-506 | true iff the list is empty or holds the namespace |
| `Scope.ListNamespace` | push/pusher.go:382-393 | exactly the cached Applications of the namespace, of all of them for the empty name |
| `Scope.ListApps` | push/pusher.go:377-396 | exactly the cached Applications some entry covers |
| `Scope.ScopeAgreesIff` | push/pusher.go:376-396 | the listing path and the delta path cover the same Applications exactly when no entry is blank |
| `Scope.ScopeAgrees` | push/pusher.go:54-62 | they agree for every input string |
| `Backoff.Wait` | push/pusher.go:151-189 | every wait lies in [1s, 30s] |
| `Backoff.Start` | push/pusher.go:144-190 | for every list of verdicts the loop's waits are the closed form: 30s from a rejection on, else doubling from the last established attempt |
| `Backoff.WaitFollows` | push/pusher.go:169-188 | the closed form obeys the rule attempt by attempt; a rejection overrides the reset of its own attempt |
| `Backoff.JoinedStep` | push/pusher.go:268-296 | every step keeps: a reader runs only while its own attempt does, and a set flag is that attempt's verdict |
| `Backoff.FlagIsOwn` | push/pusher.go:268-349 | in every interleaving the flag at a swap is set iff a reader ended with code 1008 after the last dial |
| `Backoff.WaitsAreClosedForm` | push/pusher.go:151-189 | in every interleaving the waits are the closed form of the attempts' own verdicts |
| `Backoff.EveryHistory` | push/pusher.go:153-189 | every history of verdicts comes about in some execution, with the closed form as its waits |
| `Stream.OrderlyStep` | push/pusher.go:196-297 | only the last connection is live or has handlers, and calls hold channels no older than their own connection's, after every step |
| `StreamWire.FifoWriter` | push/pusher.go:300-324 | every writer action keeps accepted = drained + lost + queued, in order |
| `StreamWire.WritingWriter` | push/pusher.go:280-293 | every writer action keeps the frame grammar |
| `StreamWire.SnappingWriter` | push/pusher.go:362-372 | every writer action keeps the snapshot frames equal to the listing so far, within the chunk size |
| `StreamWire.InvStep` | push/pusher.go:196-528 | every step of any goroutine or of the cache keeps all of these for all connections |
| `StreamWire.InvAlways` | push/pusher.go:196-528 | the invariant over every interleaving |
| `StreamWire.AcceptedHistory` | push/pusher.go:513-522 | what a connection's channel has accepted is exactly what the steps offered to that channel while it had room |
| `StreamWire.WireGrammarAndIsolation` | push/pusher.go:253-324 | every wire is a prefix of hello, snapshots, snapshot_end, then queued frames and heartbeats; queued frames go out in order of acceptance, none from another connection's channel, at most one lost; the queue holds at most 4096 |
| `StreamWire.SnapshotPartition` | push/pusher.go:353-373 | the snapshot frames carry the listing in order, none empty or over the chunk size, all of it by snapshot_end |
| `StreamSnapshot.ListedStep` | push/pusher.go:382-394 | every step keeps: an unchanged cached Application is in the listing once a namespace that covers it has been listed |
| `StreamSnapshot.SnapshotComplete` | push/pusher.go:353-396 | a finished snapshot carries an Application that the cache holds, unchanged since the connection opened, iff its namespace is configured or none is |
| `StreamSnapshot.SnapshotChunks` | push/pusher.go:362-370 | a finished snapshot uses no more frames than its listing needs |
| `StreamSnapshot.RegisteredFirst` | push/pusher.go:259-284 | nothing goes out before the handlers are registered, and they stay so while the connection is not over |
| `StreamSnapshot.ToSettled` | push/pusher.go:300-324 | a streaming connection can deliver all it has without dropping anything |
| `StreamSnapshot.AlwaysSettles` | push/pusher.go:196-297 | from every reachable state a connection that is not over can bring its receiver to the cached value of every clean key in scope |
| `StreamSnapshot.ProducerDelivers` | push/pusher.go:491-527 | what a producer offers to a settled connection goes out and leaves the inventory alone |
| `StreamSnapshot.Beats` | push/pusher.go:311-321 | a streaming connection can send a heartbeat at any time, without effect on the inventory |
| `StreamConvergence.ReplayTrace` | docs/adr/0005-outbound-push-mode.md:67-72 | replaying a trace: after snapshot_end the last delta about a key decides, else the snapshot |
| `StreamConvergence.TracksStep` | push/pusher.go:442-456 | every step keeps "the last word about a clean key, sent, queued, in flight or undelivered, is what the cache says" |
| `StreamConvergence.TracksAlways` | push/pusher.go:196-528 | the same over every interleaving |
| `StreamConvergence.Holding` | push/pusher.go:353-373 | what the receiver holds for a key on a streaming connection: the last delta, else the listing |
| `StreamConvergence.Convergence` | push/pusher.go:253-297 | on a settled connection the receiver holds the cached value of every clean key in scope and nothing out of scope |
| `StreamConvergence.CleanRun` | push/pusher.go:442-456 | no key is spoilt as long as no step since the opening drops, ignores a tombstone, or delivers an earlier connection's delta |
| `StreamConvergence.ConvergesWhenClean` | push/pusher.go:253-297 | then the settled receiver holds exactly the cached Applications in scope |
| `StreamConvergence.HoldsAccepted` | push/pusher.go:253-324 | in every run a settled receiver holds what the last accepted delta about the key said, else the listing; so it converges iff that is what the cache says |
| `StreamConvergence.MissedStep` | push/pusher.go:442-456 | while tombstones are the only spoilers, every step keeps: a dirty key has left the cache and the last word still says it is there |
| `StreamConvergence.DirtyIff` | push/pusher.go:443-446 | then a key is dirty iff its last change since registration was a deletion seen as a tombstone |
| `StreamConvergence.ConvergesIff` | push/pusher.go:442-456 | then the settled receiver agrees with the cache about a key in scope iff its last change since registration was not such a deletion |
| `StreamConvergence.TombstoneDiverges` | push/pusher.go:443-446 | in every settled state a deletion seen as a tombstone leaves the Application with the receiver |
| `StreamConvergence.DropLoses` | push/pusher.go:520-526 | after a delta is dropped on a full queue with no later word, the receiver ends with what it would hold without it, and converges iff that is what the dropped delta said |
| `StreamConvergence.StaleOverwrites` | push/pusher.go:513-522 | an earlier connection's delta that reaches a settled connection overwrites what the receiver holds, and the key converges iff it agrees with the cache |
| `StreamConvergence.StaleDeltaDiverges` | push/pusher.go:513-522 | such a run exists: the receiver settles on an Application the cache has replaced |

## Left out

Assumptions:

- One reconcile at a time per Application, each reading its own last write, under a monotone clock; the write is
  atomic and may fail (the retry loop on conflicts is not modelled).
- Time is an integer number of nanoseconds. The API server's truncation of stored times to whole seconds is not
  modelled, which can shorten a hold by up to a second.
- The early exits of Reconcile for a missing or deleting Application are omitted; they change nothing. So is a
  write that finds the Application gone.
- A REST mapping is a fixed map that answers with the kind it was asked for, a label selector an arbitrary
  predicate that may fail to convert.
- Counter values are naturals. A live exporter keeps exporting a series it has exported, so a series disappears only
  by a restart. Fractional and negative samples and floating-point rounding are not modelled.
- Counters stay within 64 bits.
- The receiver's behaviour is taken from docs/adr/0005-outbound-push-mode.md:67-72; its code is not part of this
  repository.
- The informer delivers notifications of one handler in order, replays the cache as adds on registration, and gives
  removed handlers nothing more than the call they are in. A frame whose write fails is not on the wire.

Modelled on values rather than in place:

- `Watches` and `Stream`: the shared map of watched kinds and the send channel are fields of a state value that atomic
  steps replace, since a method's contract cannot speak about other goroutines between its own steps. The waits of
  Start, the chunk loop, the scope loops and the truncation are methods.
- Stream frames of counts and cluster events carry an opaque number for their content; the content of count frames is
  the subject of `Protocol`. Which cluster events are forwarded is not modelled.
- In `CounterRuns` whether a connection had been made and whether the queue had room is any choice per tick, for the
  frame that holds the pair's entry; what then happens to a queued frame is the subject of `StreamWire`.
- The loop of Start runs for ever in `Backoff`; cancelling its context only ends a run.
- The sort is some sorted permutation; the library's algorithm is not modelled. The insertion sort in `Ordering` shows
  that one exists.

Stated weaker than one might wish, because more is false:

- StreamConvergence.Convergence: speaks of keys whose last word was not spoilt by a tombstone, a dropped delta or an
  earlier connection's delta, because the code can diverge on those; `HoldsAccepted` and `ConvergesIff` say exactly when.
- ReconcileRuns.WriteCoupled: says nothing of statuses written by anyone but the controller.

Not modelled:

- Turning an unstructured object into its typed form is a field record with a possible error.
- The text of an aggregated error list follows the library's form: brackets and commas around several messages.
- JSON, signatures and tokens, TLS, dialing, deadlines, pings, HTTP scraping, endpoint discovery and parsing of the
  exposition format.
- The count of dropped frames and the rate limiting of its log line; all log messages.
- Command-line flags and wiring, charts, custom resource definitions and generated code.
