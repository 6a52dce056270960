# Napwake, modelled

Napwake scales idle Kubernetes workloads to zero and wakes them. This project models the parts of it whose correctness
no single function shows, and proves what holds of them over every input, graph or run:

- **The doorman's ports** (`Ports`, `PortAllocator`, `PortAllocatorProperties`, `DoormanProtocol`, `DoormanDrains`,
  `DoormanRuns`, `DoormanRecords`). One doorman serves the cluster, so a port on two routes sends one workload's
  traffic to another. Who has a port is spread over the leader's memory, statuses and EndpointSlices, each written at
  its own moment. The allocator is a class with the source's fields and methods; the protocol is a transition system
  whose steps are calls, writes, listings, loads that end, failures, crashes and time, over those same functions of
  the memory.
- **Dependencies** (`Workloads`, `WorkloadIds`, `WorkloadGraph`, `Search`, `Chains`, `DependencyHolds`,
  `DependencyWaits`): the search, which awake dependents hold a workload up, which dependencies a resume waits for,
  and that neither can deadlock.
- **Depends-on annotations** (`Text`, `Lists`, `DependsOn`, `Inheritance`, `OptInDependencies`): reading and printing
  them, which annotation is used, and that a namespace's list never makes its workloads depend on each other in a
  circle.
- **The activity clock** (`ActivityClock`, `ActivityRuns`): a status that may be stale, a memory a restart loses and
  sources that may be unreadable, and what a pause then says of the time before it.
- **Capacity and accounting** (`Sums`, `Placements`, `Shortfall`, `HeldPaused`, `PodRequests`, `SpareCapacity`,
  `Sampler`, `SamplerRuns`, `Rounding`, `CostTotals`, `CostRuns`, `Savings`, `SavingsRuns`, `DryRunTotals`,
  `DryRunRuns`): the shortfall as an exact optimum, accumulators and exactly when they count a time twice, and what is
  saved against what is paused.
- **Finding ScaledObjects** (`ScaledObjectFinder`): how old what interleaved calls reuse may be.

Code that updates fields or loops is a class or a method, proved against a function of the old state; the laws are
lemmas about those functions. Methods that range over a Go map pick keys in any order. `Times` and `Wrappers` hold
what modules share.

## What the doorman's protocol needs

`DoormanProtocol.Sane` and `Prompt` bound how long things take from the clock reading of the call concerned: a
reconcile that takes ports ends within portsReload, and a load at least portDrain sooner. `InTime` is what keeps ports
apart: no call that takes ports, and no load's listing, meets a slice or status with a port that its workload gave up
and whose drain is over, and what a call gives up drains past the clock reading of any load under way. That calls act,
and what they give up leaves the API server, within portDrain is enough (`OnTimeIsInTime`). And it is what it takes: a
call has a port shared exactly when it takes one that is over (`SharesOnlyWhatIsOver`), and anyone may be given one
that is (`OverIsTaken`). Reconciles are limited to two minutes and portDrain is one, so the code alone doesn't ensure
it. `reconcileDoorman` starts dropped ports draining before it deletes their slices, and `LateDeletionSharesAPort` is
the run in which that deletion never comes.

## Where the code and its promises part

Each is a lemma with the input or run that shows it, beside the theorem that says exactly when the promise is kept.

- `assign` says it keeps existing ports that are still the owner's; a key without a port may be given a later key's
  (`EarlierKeyMayTakeALaterOnesPort`). A key's port is safe from that exactly when all keys up to it have usable
  ports, no two the same (`KeptUnlessAnEarlierPicks`).
- A leader that stops after a workload took back a draining port, and before the status says so, leaves a drain its
  successor goes by, and the port is given away when it ends (`LostRetakeSharesAPort`, `SharedExactlyWhenOver`).
- Of two statuses with one port still draining a new leader honours the first it lists (`OverlappingDrainIsLost`). A
  status's drain is dated from a later clock reading than the memory's, so the two can overlap. A running drain is
  lost exactly when it's listed after another's and no slice or route read has the port (`LostExactlyWhenPassedOver`).
- A dry-run workload's would-be pause leaves its pods up, so it may hold a live dependency for good
  (`MixedFleetStaysUp`). All settle exactly when no live workload yet to pause has such a dependent
  (`PausesEndWithAllSettled`), and otherwise all do but those stuck behind one (`SettlesUnlessStuck`).
- Inherited depends-on lists can't make a cycle within a namespace, but can across two (`InheritedListsCircleAcross`,
  `InheritedCirclesLeave`).
- In a would-be pause no gap in watching is looked for, and one can count as idle time (`DryRunCountsAGap`): exactly
  the stretches such a gap covers go unwatched (`EveryStretchIsEvaluated`). And an operator that restarts in one
  doesn't restart the clock, so activity no write recorded is forgotten (`RestartForgetsActivity`,
  `PausesExactlyWhenUnshown`).
- Statuses keep times to the second, so a month's stretches, or a dry-run's pauses, may overlap by less than that,
  once a write (`WriteCountsASecondTwice`, `WriteMeasuresASecondTwice`); and a clock that goes back has time counted
  twice (`ClockGoingBackCountsTwice`). They overlap exactly when one begins, as the status has it, before the last had
  ended (`TotalsCountNothingTwice`, `PausesAreMeasuredOnce`).
- Saved hours are documented as at most the paused ones. But paused time counts from the settle that enters Paused,
  once the pods have stopped, and is credited from `PausedAt`, when the target was scaled to zero. So a workload woken
  soon after a sample saves more than it was paused for (`StoppingPodsSaveMoreThanPaused`), as does a month that what
  was credited before it is drained into (`NewMonthSavesMoreThanPaused`). They aren't more, to rounding, exactly when
  what's due for credited time that isn't counted as paused is within what's counted for time that isn't credited and
  what shares fall short of all that's held (`SavedIsWithinPaused`).

## Model

| member | source | states |
|---|---|---|
| PortAllocator.AllocatePort | internal/doorman/routes.go:114-128 | A port from a random start is in range and unused, and there is none only when every port in range is used. |
| PortAllocator.Allocator.ExpireDrains | internal/controller/doorman.go:1004-1008 | Exactly the drains not over are left. |
| PortAllocator.Allocator.CountOthers | internal/controller/doorman.go:1058-1063 | The count is the number of ports the namespace's other workloads claim, whatever order they are gone through in. |
| PortAllocator.Allocator.WithinLimits | internal/controller/doorman.go:1053-1068 | Refused for the workload before the namespace, and for the namespace exactly when its others' ports and n together pass its limit. |
| PortAllocator.Allocator.Fits | internal/controller/doorman.go:1041-1051 | Loads what is due as assigning would, and its verdict on the limits is the one assigning then comes to. |
| PortAllocator.Allocator.Choose | internal/controller/doorman.go:1014-1032 | Every key gets a route; with all existing ports usable none is picked; it fails for want of a port only when fewer are free than there are keys. |
| PortAllocator.Allocator.ReleaseLocked | internal/controller/doorman.go:1088-1098 | The owner's ports but those kept leave the claims and drain from now; nothing else moves. |
| PortAllocator.Allocator.Release | internal/controller/doorman.go:1080-1086 | All the owner's ports are given up. |
| PortAllocator.Allocator.Assign | internal/controller/doorman.go:994-1039 | Once what is due has loaded, assigns as specified; a load that fails leaves everything as it was. |
| PortAllocator.Allocator.AssignLoaded | internal/controller/doorman.go:994-1039 | Refused, it changes no claim; else the owner holds exactly the routes' ports; the limit verdict is that of fits; with all existing ports usable it never picks. |
| PortAllocator.Allocator.ClaimAll | internal/controller/doorman.go:1034-1037 | The chosen ports are the holder's and drain no longer; other claims and drains stay. |
| PortAllocator.Allocator.Load | internal/controller/doorman.go:1106-1125 | Loads only what is due, and fails exactly when that is due and could not be read; then nothing has changed. |
| PortAllocator.Allocator.FinishLoad | internal/controller/doorman.go:1118-1124 | What was read is merged unless another load got there first. |
| PortAllocator.ClaimEach | internal/controller/doorman.go:1135-1144 | Each port read is claimed for the owner and its namespace, unless it is already claimed or drains for the same owner; what that makes of any one port is Ports.AllClaimedAt. |
| PortAllocator.Allocator.DrainEach | internal/controller/doorman.go:1149-1153 | A status's unexpired drains are added for ports not known to drain. |
| PortAllocator.Allocator.Merge | internal/controller/doorman.go:1127-1170 | The memory becomes the merge of what was read with the newer claims, which Ports' laws say the owners, drains and namespaces of. |
| PortAllocator.Allocator.KeepNewer | internal/controller/doorman.go:1164-1168 | Claims made since the last load are kept, where nothing read has the port. |
| PortAllocator.RoutedMeans | internal/controller/doorman.go:1014-1032 | Routes are one a key in order, on distinct ports in range that are free for the owner. |
| PortAllocator.UsableRoutes | internal/controller/doorman.go:1022-1029 | When every key has a usable port of its own, keeping them is the only routing. |
| Ports.AssignedHolds | internal/controller/doorman.go:1034-1038 | After assigning, the holder has exactly the chosen ports, which drain for nobody; what it dropped drains from now; no other owner's claim or drain changes. |
| Ports.AssignedInNamespace | internal/controller/doorman.go:1053-1068 | What a namespace then holds is its other workloads' ports and the chosen ones, which are disjoint, so the counts add. |
| Ports.MergedHolds | internal/controller/doorman.go:1127-1170 | Whatever the lists' order: known drains stay; nothing given up during the read is claimed again; every port read is claimed or drains for its owner; each claim newer than the last load is kept unless its port was read. |
| Ports.LoadsEveryHalfHour | internal/controller/doorman.go:1100-1104 | A load is due before the first call, and half an hour after the last one. |
| Ports.AllClaimedAt | internal/controller/doorman.go:1135-1144 | Claiming ports for an owner leaves what was claimed, and claims just those of them that are not claimed and do not drain for it, in its namespace. |
| Ports.MergedClaims | internal/controller/doorman.go:1127-1170 | Every claim a merge makes is of an owner read with the port, in the namespace it was read in, or a newer one just as it was. |
| Ports.MergedInNamespace | internal/controller/doorman.go:1127-1170 | Of lists that give each port to one holder: what a namespace has after a merge is exactly the ports read in it, in a status that was not draining for its owner or a slice that is not, and the newer claims there of ports not so read. |
| PortAllocatorProperties.AssignedStaysWithinLimits | internal/controller/doorman.go:1009-1039 | An assignment the limits allow leaves the owner holding exactly its routes' ports, within its limit, and the namespace within its own. |
| PortAllocatorProperties.WithinBothIsAccepted | internal/controller/doorman.go:1053-1068 | A workload may have n ports if and only if n is within its limit and, with its namespace's ports that are not its own, within the namespace's; refusals say which, and how many it would be. |
| PortAllocatorProperties.LoadedStaysWithinLimits | internal/controller/doorman.go:1053-1170 | After a load an assignment is allowed only within what the namespace's limit leaves beside every port read of its other workloads: limits hold across leaders and reloads. |
| PortAllocatorProperties.KeptWhenAllBeforeAre | internal/controller/doorman.go:1022-1029 | While every key up to one has a usable port, no two the same, it keeps its own in every routing. |
| PortAllocatorProperties.KeptUnlessAnEarlierPicks | internal/controller/doorman.go:1014-1029 | A usable port is out of earlier keys' reach, whatever is picked, if and only if they all have usable ports, none the same as another's or as it; else some routing gives it to one of them. |
| PortAllocatorProperties.EarlierKeyMayTakeALaterOnesPort | internal/controller/doorman.go:1014-1029 | Counterexample to keeping every usable port: an earlier key without one may pick a later key's. |
| PortAllocatorProperties.RepeatGivesTheSame | internal/controller/doorman.go:994-1039 | Assigning again from the routes given is within limits, needs no pick, and can only give the same routes. |
| PortAllocatorProperties.DrainKeepsOthersOff | internal/controller/doorman.go:1070-1078 | Over any assigns, releases and loads, a draining port first goes, before its drain ends, to one it drains for or a load has read it for. |
| PortAllocatorProperties.ReleasedPortsDrain | internal/controller/doorman.go:1080-1170 | A port released at t first goes, before t + portDrain, to the one that released it or one a load has since read it for, even with reloads whose reads interleave. |
| DoormanProtocol.TakePortsKeepsInv | internal/controller/doorman.go:252-366 | A reconcile that takes ports keeps the protocol's invariant: what is in use is guarded in memory, and one port for one workload. |
| DoormanProtocol.GiveUpKeepsInv | internal/controller/doorman.go:410-429 | Giving up every port keeps the invariant, loaded leader or not, and even with a slice the listing missed. |
| DoormanProtocol.WriteKeepsInv | internal/controller/doorman.go:300-366 | Writing a slice, or the status, of what a reconcile claimed keeps the invariant, and stays visible to a load under way. |
| DoormanProtocol.ListKeepsInv | internal/controller/doorman.go:904-924 | Listing some workloads' statuses, and later their slices, namespace by namespace or all at once, misses nothing a new claim does not cover. |
| DoormanProtocol.EndReadKeepsInv | internal/controller/doorman.go:1110-1170 | A load that ends, however stale what it read, leaves everything in use guarded for its workload. |
| DoormanProtocol.StepKeepsInv | internal/controller/doorman.go:403-474 | Every step, a crash and a lost write among them, keeps the invariant when calls and listings meet no port that is over and still in a slice or status. |
| DoormanProtocol.OnTimeIsInTime | internal/controller/doorman.go:410-429 | What leaves the API server within portDrain of the call that gave it up is in time for every step. |
| DoormanProtocol.SharesOnlyWhatIsOver | internal/controller/doorman.go:1008-1037 | A call has ports shared if and only if it takes one its owner gave up, whose drain is over, and that another's slice or status still has. |
| DoormanProtocol.OverIsTaken | internal/controller/doorman.go:1008-1037 | Another workload may be given a held port if and only if its owner no longer claims it and its drain is over. |
| DoormanDrains.TakePortsKeepsDrains | internal/controller/doorman.go:453-474 | The drains a status is about to note are guarded in memory at least as long. |
| DoormanDrains.UnloadedGiveUpKeepsDrains | internal/controller/doorman.go:403-474 | A leader that has not loaded notes drains of routes that any load under way has read. |
| DoormanDrains.FirstLoadKeepsDrain | internal/controller/doorman.go:1145-1163 | A new leader's first load guards a running drain unless, and only unless, another's unexpired drain of the port is listed first and nothing read has the port as its owner's. |
| DoormanDrains.ReloadKeepsDrain | internal/controller/doorman.go:1127-1170 | A later load neither loses a running drain nor claims its port for another. |
| DoormanDrains.StepKeepsDrains | internal/controller/doorman.go:445-474 | Every step keeps noted drains running for their owners alone, but a first load that passes one over. |
| DoormanRuns.PortsStayExclusive | internal/controller/doorman.go:403-474 | Over every run in time, or on time, no port is in two workloads' statuses, slices or reconciles, and a loaded leader guards all in use. |
| DoormanRuns.SharedExactlyWhenOver | internal/controller/doorman.go:403-474 | After any run in time, the next call has a port shared if and only if it takes one that is over and still another's; and a held port may be given away if and only if it is over. |
| DoormanRuns.GivesOnlyFreePorts | internal/controller/doorman.go:994-1039 | Over every run a workload is only given ports that no other's slice, status route, reconcile or unexpired noted drain has. |
| DoormanRuns.LostExactlyWhenPassedOver | internal/controller/doorman.go:1145-1163 | After any such run, a new leader's load loses a running drain if and only if it passes it over. |
| DoormanRuns.LateDeletionSharesAPort | internal/controller/doorman.go:306-366 | Counterexample, from an API server with nothing: a workload takes a port, gives it up, its slice is never deleted, and the next to take the port shares it. All but that last call is in time. |
| DoormanRuns.LostRetakeSharesAPort | internal/controller/doorman.go:1139-1144 | Counterexample, from nothing: a workload gives a port up, takes it back while it drains and writes its slice, and the leader stops before the status; the next gives the port away when the noted drain ends. |
| DoormanRuns.OverlappingDrainIsLost | internal/controller/doorman.go:1149-1153 | Counterexample, from nothing and in time throughout: a status dates its drain from after the memory's, another takes and gives up the port in between, and a new leader honours only the first listed. |
| DoormanRecords.RecordPortDrains | internal/controller/doorman.go:445-474 | The status lists exactly the drains not over nor taken back, and each route given up once, from now. |
| DoormanRecords.ListsWhatDrains | internal/controller/doorman.go:453-474 | No drain that is over or port kept is listed, nor anything that neither drained nor was a route; every other drain is, as it was, and every route given up, for a minute unless it drained already. |
| DoormanRecords.DrainsAreRecorded | internal/controller/doorman.go:453-474 | What the status comes to list is what the protocol's status write has, to the second. |
| DoormanRecords.SlicePorts | internal/controller/forwarder.go:603-622 | Direct slices carry the doorman ports; forwarded ones the forwarder's, for exactly the routes it listens for. |
| DoormanRecords.RecordDoormanPorts | internal/controller/forwarder.go:642-654 | Records each port name with its doorman port. |
| DoormanRecords.SliceFor | internal/controller/doorman.go:317-325 | Forwarded or not, a slice gives back the routes' doorman ports by name. |
| DoormanRecords.SliceHoldsRoutes | internal/controller/forwarder.go:624-640 | Read back, a slice has every route's doorman port under its name, and no other. |
| WorkloadGraph.NodeOf | internal/controller/workloadgraph.go:52-68 | Whatever a node waits for it declares, and whatever it declares is a dependency. |
| WorkloadGraph.NodeDependsOn | internal/controller/workloadgraph.go:52-68 | A node's dependencies are exactly what the workload declares and what has been learned of it. |
| WorkloadGraph.NodeDeclares | internal/controller/workloadgraph.go:52-68 | It declares just what the spec lists, waits for just what is marked waitForReady, and otherwise is as the workload is. |
| WorkloadGraph.StepMeans | internal/controller/dependencies.go:132-147 | An edge of each kind is one its own list has, to another workload, in the node's namespace or one whose dependents-from names that or any. |
| WorkloadGraph.Owner | internal/controller/workloadgraph.go:178-190 | Of the nodes with a target the oldest owns it, the first by UID of those as old. |
| WorkloadGraph.OwnerUpTo | internal/controller/workloadgraph.go:178-190 | The owner of a workload is a claimant that none other was claimed before. |
| WorkloadGraph.Reaches | internal/controller/dependencies.go:157-183 | True exactly when a path of one or more allowed, non-self edges through owned workloads leads to the target; ends on every graph. |
| Search.Expand | internal/controller/dependencies.go:165-180 | Following one node's edges keeps the search sound and complete. |
| Search.Reaches | internal/controller/dependencies.go:160-183 | Breadth-first search finds exactly what a path leads to, cycles or not. |
| DependencyHolds.HoldsIt | internal/controller/dependencies.go:193-204 | Holds unless it is only learned and a path of dependencies, declared or learned, leads from the workload back to the dependent. |
| DependencyHolds.HoldsOf | internal/controller/dependencies.go:206-229 | A cycle exactly when declared dependencies lead back; else the holders, each once, are the acting, allowed, awake dependents of another UID, all but those only learned that the workload depends on in turn. |
| DependencyHolds.LeftOutOnlyInTurn | internal/controller/dependencies.go:193-252 | An awake dependent is left out if and only if it does not declare the workload and a path leads from that back to it; one not awake, acting, allowed or other never holds. |
| DependencyHolds.PausesOnlyUnderItsOwn | internal/controller/dependencies.go:193-252 | Nothing pauses under an awake dependent that it does not itself depend on in turn. |
| DependencyHolds.LearnedHoldsAsDeclared | internal/controller/dependencies.go:193-204 | Where no path leads back, a learned dependent holds exactly as it would had it declared the workload. |
| DependencyHolds.CirclesAreDeclared | internal/controller/dependencies.go:193-229 | Workloads holding each other awake in a circle do so by declared dependencies all the way round. |
| DependencyHolds.LearnedNeverDeadlocks | internal/controller/dependencies.go:193-204 | Holding awake is acyclic if and only if its declared part is, whatever is learned. |
| DependencyHolds.LocalCheckSuffices | internal/controller/dependencies.go:211-216 | If no workload's declared dependencies lead back to it, which each checks for itself, holding awake has no cycle. |
| DependencyHolds.AllHeldAreStuck | internal/controller/dependencies.go:238-252 | When every unsettled workload is held, each is blocked by one in dry-run, or held by an unsettled one that is stuck in turn: nothing else keeps a fleet awake. |
| DependencyHolds.PauseSettlesOne | internal/controller/dependencies.go:206-229 | Pausing an unheld workload, of any fleet, settles exactly one more and keeps what the argument needs. |
| DependencyHolds.SettlesUnlessStuck | internal/controller/dependencies.go:206-252 | However unheld workloads are paused until none can be, the ones that end settled are exactly those not stuck to begin with, whatever mix is in dry-run. |
| DependencyHolds.PausesEndWithAllSettled | internal/controller/dependencies.go:206-252 | Pausing ends, with all settled if and only if nobody in dry-run blocked a live workload yet to pause. |
| DependencyHolds.MixedFleetStaysUp | internal/controller/dependencies.go:238-252 | Counterexample to pausing ending with all paused: a live workload that only an Idle dry-run one depends on. |
| DependencyWaits.Judge | internal/controller/dependencies.go:474-508 | One reference's verdict, in the order the checks are made; VerdictMeans says what each is of. |
| DependencyWaits.WaitForDependencies | internal/controller/dependencies.go:445-531 | Waits for exactly the listed, allowed workloads found neither up, at zero of their own accord, waiting in turn, nor past their deadline; goes on only when each found is one of those; wakes exactly the paused ones waited for; fails only on an unreadable one. |
| DependencyWaits.VerdictMeans | internal/controller/dependencies.go:533-596 | On what is read: up is all replicas Ready and observed, or some with the managing one Running or Idle, or unmanaged after 120 seconds; off is zero replicas and not Paused, Pausing or Resuming; the deadline is the progress deadline or 600 seconds; and each skip has the first reason of these. |
| DependencyWaits.WaitsAreRelated | internal/controller/dependencies.go:187-191 | A resume waits only on what does not wait for it. |
| DependencyWaits.NoMutualWait | internal/controller/dependencies.go:490-494 | What is left to wait on, after the skip, has no cycle of any length. |
| DependencyWaits.SomeResumeGoesOn | internal/controller/dependencies.go:445-531 | Of any workloads resuming, one waits on none of the others, whatever is read. |
| DependsOn.ParseDependencies | internal/controller/optin_settings.go:240-256 | Splits into the entries read and those that cannot be, in order, the empty ones skipped. |
| DependsOn.BlanksAreSkipped | internal/controller/optin_settings.go:243-247 | Blanks around an entry are nothing to it, and alone they are no entry. |
| DependsOn.ShortEntryReads | internal/controller/optin_settings.go:258-277 | Without a namespace an entry is of the dependent's own, its kind in any case. |
| DependsOn.EntryReads | internal/controller/optin_settings.go:258-277 | With one, it is read if and only if namespace and name are not empty and the kind is one of the two. |
| DependsOn.PrintReadsBack | internal/controller/dependencies.go:65-82 | A printed id is read as one dependency, and survives trimming and splitting. |
| DependsOn.RoundTrip | internal/controller/optin_settings.go:240-277 | Ids printed, joined by commas and read back are the same ids in order, with none rejected. |
| Text.SplitJoin | internal/controller/optin_settings.go:243 | Splitting undoes joining for parts without the separator. |
| Text.TrimStrips | internal/controller/optin_settings.go:244 | Trimming leaves just what is between the blanks at either end. |
| OptInDependencies.ReadValue | internal/controller/optin_settings.go:217-236 | A value is refused exactly when it has entries and none can be read; else its first 20 dependencies are used, with a problem for each entry skipped and for a list cut short. |
| OptInDependencies.Dependencies | internal/controller/optin_settings.go:67-91 | The workload's value is used before its namespace's, and each refused one is reported with what is used instead. |
| OptInDependencies.NothingDroppedUnsaid | internal/controller/optin_settings.go:211-238 | With no problem reported, the dependencies are all the annotation lists. |
| OptInDependencies.ProblemsAreReported | internal/controller/optin_settings.go:67-91 | What is reported is exactly the entries of the value used that cannot be read, that its list is cut short, and each value refused before it, with where the setting came from instead. |
| OptInDependencies.FirstUsableIsChosen | internal/controller/optin_settings.go:67-91 | The value used is the workload's if any of its entries can be read or it has none, and else its namespace's if that is so of it. |
| OptInDependencies.ResolvedIsListed | internal/controller/optin_settings.go:211-238 | What is resolved is the first 20 dependencies that the value used lists, and all of them when there are no more. |
| OptInDependencies.DependsOnAllOthers | internal/controller/optin_settings.go:295-297 | A workload depends on every dependency resolved for it but those that name itself. |
| Inheritance.InheritsDependsOn | internal/controller/optin_controller.go:165-207 | A workload takes the list exactly unless the list, or what its workloads' own lists lead to, names it. |
| OptInDependencies.InheritsIn | internal/controller/optin_controller.go:165-207 | The same of a namespace's annotations. |
| Inheritance.CyclesAreOwn | internal/controller/optin_controller.go:158-171 | No workload on a cycle within the namespace takes its list. |
| OptInDependencies.NeverOnItself | internal/controller/optin_settings.go:295-297 | No workload depends on itself, whichever annotation names it. |
| OptInDependencies.InheritedListMakesNoCycle | internal/controller/optin_controller.go:158-207 | Every workload on a cycle of a namespace's effective dependencies has its own annotation's, not the inherited ones. |
| OptInDependencies.InheritedCirclesLeave | internal/controller/optin_controller.go:158-207 | In a whole cluster, a circle of dependencies on which any workload takes its namespace's list leaves that namespace: it visits two at least. |
| OptInDependencies.InheritedListsCircleAcross | internal/controller/optin_controller.go:182-184 | Counterexample across namespaces: a cluster where two lists naming each other's workload make a circle of inherited dependencies. |
| ActivityClock.GapTolerance | internal/controller/activity.go:327-334 | Half of idleAfter, but never less than two checks nor more than the unobserved gap. |
| ActivityClock.Memo.Reset | internal/controller/activity.go:213-230 | The clock starts at now, and is in memory. |
| ActivityClock.Memo.Resume | internal/controller/activity.go:235-248 | Goes on from the later of the status's and the memory's clocks, and knows which it had. |
| ActivityClock.Memo.Observe | internal/controller/activity.go:232-325 | The clock a check leaves, in status and in memory, is the one specified; other workloads' are untouched. |
| ActivityClock.NoteAnnotations | internal/controller/activity.go:278-289 | Each annotation counts, one in the future as now. |
| ActivityClock.ObservedMeans | internal/controller/activity.go:204-325 | A check leaves the clock past each of its own marks, never behind the memory without a gap, and at one of these or at what it read. |
| ActivityClock.SourceIsTheFirst | internal/controller/activity.go:204-325 | A clock that was before now says its activity is from the first source that shows any now, in the order they are looked at, a wake request as an annotation; with none it stays before now. |
| ActivityClock.ActivitySeenCounts | internal/controller/activity.go:290-325 | A check that reads the CPU, and finds it or queries active, leaves the clock at now or later, but for queries a would-be pause holds back. |
| ActivityClock.RestartsAfterAGap | internal/controller/activity.go:250-277 | Outside a would-be pause a clock once evaluated restarts if and only if a restarted operator has only the status to go by, or neither status nor memory was evaluated within the tolerated gap. |
| ActivityClock.Decide | internal/controller/activity.go:782-887 | Undecided exactly when a source cannot be read; else it pauses, or would but for dependents, if and only if the forecast brings that forward or the clock has run out with no hold until later, and there is no veto unless it is Idle already. |
| ActivityClock.ClockRunsOut | internal/controller/activity.go:963-980 | A Running workload's clock runs out at pauseAt; an Idle one's has unless activity came after it went Idle, or an annotation in that second. |
| ActivityClock.OnlyLaterActivityEndsIdle | internal/controller/activity.go:963-980 | Once Idle, a check's mark after the pause began ends it, and nothing from before that second does. |
| ActivityRuns.MarkLasts | internal/controller/activity.go:232-325 | Once marked past a time, no later clock in memory is before it, through restarts, stale statuses, would-be pauses and unreadable sources, unless a restarted operator's first check is in a would-be pause. |
| ActivityRuns.ClocksAreMarked | internal/controller/activity.go:204-325 | Every clock there has been stands at, or within its second of, some mark. |
| ActivityRuns.PausesExactlyWhenUnmarked | internal/controller/activity.go:782-887 | The clock pauses a Running workload if and only if nothing has marked it for idleAfter, when no restarted operator's first check since was in a would-be pause. |
| ActivityRuns.PauseMeansWatchedIdle | internal/controller/activity.go:335-351 | When it does, every event since idleAfter ago saw no activity, was no restarted operator's first check, and came within gapTolerance of the last evaluation unless in a would-be pause. |
| ActivityRuns.NoPauseSoonAfterActivity | internal/controller/activity.go:204-325 | Nor does the clock pause within idleAfter of any check that saw the CPU or queries active, under the same hypotheses. |
| ActivityRuns.EveryStretchIsEvaluated | internal/controller/activity.go:309-319 | So a gapTolerance of that time has in it a check that read every source, if and only if no check in a would-be pause hides a gap that covers it. |
| ActivityRuns.PausesExactlyWhenUnshown | internal/controller/activity.go:782-887 | In any run at all: it pauses if and only if nothing marks it, and no status read shows it, later than idleAfter ago, since the last restarted operator's first check in a would-be pause. |
| ActivityRuns.DryRunCountsAGap | internal/controller/activity.go:250-265 | Counterexample in a would-be pause, where a gap is not looked for: a dry-run workload pauses within idleAfter of a two-hour gap. |
| ActivityRuns.RestartForgetsActivity | internal/controller/activity.go:235-265 | Counterexample for such a check: activity seen in a would-be pause, whose status write is lost, is forgotten at a restart, and the clock pauses within idleAfter of it. |
| Shortfall.Gather | internal/capacity/shortfall.go:72-81 | Each pool has its spare, and the sum of what is paused in it. |
| Shortfall.Settle | internal/capacity/shortfall.go:83-96 | Each pool's shortfall is its paused beyond its spare; the unknown pool's is set against what all the others have left. |
| Shortfall.Share | internal/capacity/shortfall.go:98-111 | Each workload's share is the sum of its entries' parts. |
| Shortfall.Realise | internal/capacity/shortfall.go:59-111 | Samples and shares are those specified, whatever order maps are gone through in. |
| Placements.NonePlacesForLess | internal/capacity/shortfall.go:59-71 | No placement of the unpooled amount needs less than the shortfalls. |
| Placements.SomePlacesForThat | internal/capacity/shortfall.go:59-71 | Filling what pools have left needs exactly that. |
| Shortfall.ShortfallIsLeast | internal/capacity/shortfall.go:59-71 | A dimension's shortfalls are a lower bound on the capacity any placement adds. |
| Shortfall.ShortfallIsAttained | internal/capacity/shortfall.go:59-71 | And some placement adds exactly that, so they are the minimum. |
| Shortfall.SharesConserve | internal/capacity/shortfall.go:98-111 | Workloads' shares sum to the pools' shortfalls, the unknown pool's included. |
| Shortfall.PartsAreProportional | internal/capacity/shortfall.go:98-111 | What a pool is short of is shared in proportion to what is held in it. |
| Shortfall.ShareIsWithinHeld | internal/capacity/shortfall.go:98-111 | No share exceeds what the workload holds paused, and none is negative. |
| HeldPaused.FindHeld | internal/capacity/sampler.go:186-222 | The entries are every counted workload's split, which FoundByPool sums by pool, and each counted one has its pause's time. |
| HeldPaused.SplitSumsToTotal | internal/capacity/sampler.go:204-220 | A workload's split by pods sums to all it holds paused. |
| HeldPaused.FoundSumsToTotal | internal/capacity/sampler.go:186-222 | Among all workloads', what is found of one is its total, or nothing if it does not count. |
| HeldPaused.FoundByPool | internal/capacity/sampler.go:186-222 | What is found for a pool is the sum, over this install's paused workloads out of dry-run, of the total times the pool's part of all the pods recorded; for no known pool, of the totals of just those with none recorded. |
| HeldPaused.ShortfallKeepsPodsInTheirPools | internal/capacity/shortfall.go:59-71 | So the shortfalls are a lower bound on what any placement adds that keeps recorded pods in the pools they ran in. |
| HeldPaused.SomeKeepsThemForThat | internal/capacity/shortfall.go:59-71 | And some such placement adds exactly that. |
| HeldPaused.ShareIsWithinTotal | internal/capacity/shortfall.go:98-111 | So a workload's share of the shortfalls is at most its total paused. |
| SpareCapacity.FreeByNode | internal/capacity/sampler.go:234-257 | Each schedulable node's allocatable less what its unfinished pods request. |
| SpareCapacity.SpareByPool | internal/capacity/sampler.go:229-271 | A pool's spare is the sum over its schedulable nodes of what each has left, an overcommitted one counting as nothing. |
| SpareCapacity.SpareIsRoom | internal/capacity/sampler.go:229-271 | Of nodes of different names: a pool's spare is the sum over its schedulable nodes of what each can give beyond what its unfinished pods request. |
| SpareCapacity.CacheKeepsSpare | internal/capacity/cache.go:52-77 | Spare measured from trimmed pods is the spare of the pods themselves. |
| SpareCapacity.SpareIsNonNegative | internal/capacity/sampler.go:259-263 | No pool's spare is negative, however much pods request. |
| PodRequests.Requests | internal/capacity/cache.go:124-132 | Requests set for the pod as a whole stand in for its containers', overhead added all the same. |
| PodRequests.Compute | internal/capacity/cache.go:105-133 | The loops come to the requests specified. |
| PodRequests.RequestsArePeak | internal/capacity/cache.go:104-133 | In a dimension without a pod-level request: overhead plus the most that runs at any step of startup, reached at one. |
| PodRequests.RunningIs | internal/capacity/cache.go:104-133 | What runs at a step is its own requests, or in the end all containers', and those of every sidecar started before. |
| PodRequests.TrimKeepsRequests | internal/capacity/cache.go:52-77 | For whole thousandths of a core and bytes, a trimmed pod requests what the pod does. |
| Sampler.Sampler.Drain | internal/capacity/sampler.go:140-148 | Gives what is pending and leaves nothing; other workloads' stay. |
| Sampler.Sampler.ForgetSample | internal/capacity/sampler.go:175-181 | The next sample credits nothing. |
| Sampler.Sampler.DropGone | internal/capacity/sampler.go:322-330 | Exactly the workloads that are gone lose what is pending. |
| Sampler.Sampler.CreditShares | internal/capacity/sampler.go:312-346 | Each workload earns its share over the part of the last interval, at most five minutes, that it was paused for. |
| Sampler.CoversWhatItWasPausedFor | internal/capacity/sampler.go:332-346 | The time credited is exactly what of the last five minutes is since the last sample and since the pause began. |
| Sampler.Earned | internal/capacity/sampler.go:332-346 | There is a credit if and only if there was a sample before, that time is not empty, and the share is of something. |
| SamplerRuns.SampleKeepsInv | internal/capacity/sampler.go:332-346 | A credit covers time after the last credit and after the pause began. |
| SamplerRuns.CreditIsWithinPause | internal/capacity/sampler.go:312-346 | Over any run of samples of whatever workloads and spare there are, drained and pending hours of a pause are at most what it holds for the time credited, itself at most the time since it began; no instant is credited twice. |
| SamplerRuns.KeepingUpCreditsAll | internal/capacity/sampler.go:332-346 | Samples no further apart than the interval leave nothing between them uncredited, and credit exactly the share. |
| CostTotals.Counted | internal/cost/accumulator.go:71-80 | All of the time elapsed up to two hours, two hours of any more, and nothing if the clock has gone back. |
| CostTotals.RatesAre | internal/controller/cost.go:267-271 | What is requested is replicas times each one's cores and GiB, and storage the claims' GiB. |
| CostTotals.Cost.StartMonth | internal/controller/cost.go:100-121 | In another month the totals start again from its first instant. |
| CostTotals.Cost.AccruePaused | internal/controller/cost.go:123-134 | What the paused replicas requested is freed for the interval, and storage goes on. |
| CostTotals.Cost.AccrueAwake | internal/controller/cost.go:136-185 | Counted at what is read now, or was last read; not counted at all exactly when nothing ever was. |
| CostTotals.Cost.Accrue | internal/controller/cost.go:76-82 | The interval goes to paused hours or to awake ones, by phase, or is not counted and nothing changes. |
| CostTotals.Cost.DrainSavings | internal/controller/cost.go:213-225 | What the sampler credited joins the month's saved hours. |
| CostTotals.Cost.Settle | internal/controller/cost.go:56-98 | The totals after a settle are those specified, and unchanged but for a new month when it cannot count. |
| CostRuns.SettleKeepsTimed | internal/controller/cost.go:56-121 | A settle counts a stretch from the last one, within the month. |
| CostRuns.WriteKeepsTimed | internal/controller/cost.go:86 | A write rounds the last settle's time down to the second, and within its month. |
| CostRuns.CountsWhatIsRead | internal/controller/cost.go:76-185 | A settle counts a paused interval at what the workload was paused with, and an awake one at each thing read or, unread, as last read, even in a month before; it counts none only when nothing of its replicas ever was. |
| CostRuns.NewMonthCountsFromItsStart | internal/controller/cost.go:100-121 | The first settle in a later month counts from its first instant, and the month's totals are that interval's alone. |
| CostRuns.TotalsCountNothingTwice | internal/controller/cost.go:56-121 | Over any run, whatever the clock does, Tracked is the length of the month's stretches, at most how far they reach into it plus what they overlap; and they overlap if and only if some settle found the last, as kept, before where they ended. |
| CostRuns.OverlapsAreSlight | internal/controller/cost.go:56-121 | While the clock goes on, only a write can make them overlap, by less than a grain each; without one Tracked is at most the time since the month began. |
| CostRuns.WriteCountsASecondTwice | internal/controller/cost.go:86 | Counterexample: settled just short of a second, written, and settled on it, a month tracks nearly two seconds of its first. |
| CostRuns.HoursAreWhatWasRequested | internal/controller/cost.go:273-281 | Over any run, whatever the clock does, awake hours are what was requested over the time counted awake, paused ones what was freed over the time counted paused, and their sum what was requested over all of it, to half a billionth of an hour a stretch. |
| CostRuns.ClockGoingBackCountsTwice | internal/controller/cost.go:73-77 | Counterexample, a run of four settles whose clock goes back an hour: the hour is tracked twice, and the last settle reaches back into what was counted. |
| SavingsRuns.FoundIsWithin | internal/capacity/sampler.go:312-346 | Any share a sample finds of the pause is an hourly rate within what the pause frees. |
| Savings.DueAgainstPaused | api/v1alpha1/managedworkload_types.go:876-888 | Of any credits and stretches: what's due for credited time, less that which isn't counted as paused, is what's counted as paused, less that which isn't credited. |
| SavingsRuns.SavedIsWithinPaused | api/v1alpha1/managedworkload_types.go:882-888 | Over any run of a month's pauses, wakes, samples, settles, writes, lost writes and restarts: saved hours are within paused ones, to half a billionth a settle, if and only if what's due for credited time not counted as paused is at most what's counted for time not credited plus what shares fall short of all that's held; and how far they differ is just that. Neither time's hours are negative while samples are in order and no stretch reaches back. |
| SavingsRuns.StoppingPodsSaveMoreThanPaused | internal/lifecycle/pause.go:122-155 | Counterexample, a run of three settles and two samples: the four minutes that pods take to stop count as awake but are credited; a minute later, on waking, five minutes are saved against one paused. |
| SavingsRuns.NewMonthSavesMoreThanPaused | internal/controller/cost.go:100-121 | Counterexample, a run of two settles and two samples: five minutes credited before a month are drained as it begins, so that it saves more than it paused. |
| DryRunTotals.Workload.Track | internal/controller/dryrun.go:29-40 | Measuring starts as dry-run is entered, goes on in it, and is dropped as it is left. |
| DryRunTotals.Workload.BeginWouldBePause | internal/controller/dryrun.go:59-66 | One more pause, what it would free, and the workload Idle from now. |
| DryRunTotals.Workload.EndWouldBePauseAt | internal/controller/dryrun.go:111-131 | A measured pause is added from its start to its end, with what it freed; one not measured from its start is not. |
| DryRunTotals.Workload.Wake | internal/controller/dryrun.go:88-109 | The pause is added and the workload runs again. |
| DryRunTotals.BegunThenEnded | internal/controller/dryrun.go:61-131 | Begun and ended, a would-be pause is one more, slept from its beginning to its end, freeing what was noted as it began. |
| DryRunTotals.UnmeasuredAddsNothing | internal/controller/dryrun.go:113-119 | One that was under way before measuring began adds nothing. |
| DryRunRuns.EndKeepsSound | internal/controller/dryrun.go:111-131 | A finished pause follows the one before, but for what a write rounded down, and overlaps it if and only if it reached back. |
| DryRunRuns.PausesAreMeasuredOnce | internal/controller/dryrun.go:31-131 | Over any run, dry-run left and entered too: Pauses is the finished ones and the one under way; Slept is their length, at most the time since measuring began plus what they overlap, which is nothing if and only if none began, as kept, before the last had ended; freed hours are right to half a billionth a pause. |
| DryRunRuns.WriteMeasuresASecondTwice | internal/controller/dryrun.go:111-131 | Counterexample to Slept being at most now less Since: of two would-be pauses in a second, a write has the second begin with the first. |
| ScaledObjectFinder.Finder.Recall | internal/autoscaler/autoscaler.go:197-211 | What a call may use without asking; one that wants things as they are now, nothing. |
| ScaledObjectFinder.Finder.Learn | internal/autoscaler/autoscaler.go:213-231 | Remembers the list as of the call's own clock reading, drops old lists, and forgets all when KEDA is absent. |
| ScaledObjectFinder.RecallsWhatItLearned | internal/autoscaler/autoscaler.go:194-231 | What is learned is used: KEDA's absence for any namespace for ten minutes, ScaledObjects for their own for fifteen seconds, and no longer; learning of others loses neither. |
| ScaledObjectFinder.FinishKeepsInv | internal/autoscaler/autoscaler.go:213-231 | What a call learns is right as of an instant after it read the clock, whoever else has written meanwhile. |
| ScaledObjectFinder.RepliesAreTimely | internal/autoscaler/autoscaler.go:83-95 | However calls interleave, a reused list was true less than 15 seconds before the call, KEDA's absence less than 10 minutes, and FindNow's answer never before it. |

## Left out

Modelled weaker than the source promises, or under a hypothesis of its own:

- DoormanRuns.PortsStayExclusive: supposes that writes of a leader that stopped don't land later, and that a workload's reconciles are one at a time.
- DoormanRuns.GivesOnlyFreePorts: counts a noted drain as over a second early, since statuses round its end down.
- DoormanProtocol.ListKeepsInv: takes no workload's status to be listed twice by one load.
- DoormanRecords.SliceFor: a forwarded slice's annotation is the map itself, not its JSON.
- DoormanRecords.SliceHoldsRoutes: takes a Service's port names to differ, as Kubernetes requires.
- Ports.MergedInNamespace: of lists in which each workload is once, and each port is read for one holder; MergedClaims says what holds of any.
- PortAllocator.Allocator.Assign: is given what a load reads; the protocol interleaves other calls with the reading, as between Load's two locked sections.
- DependencyHolds.HoldsOf: finds dependents by going through the nodes, not through the index kept by what each depends on, and leaves the holders unsorted.
- DependencyHolds.SettlesUnlessStuck: with one acting claimant of each target, the owner, and no declared cycle, which HoldsOf reports.
- DependencyWaits.WaitForDependencies: the graph and the targets are as one read finds them.
- OptInDependencies.InheritedListMakesNoCycle: of one state of a namespace's annotations; reconciles that read different ones may write specs that together circle until they run again.
- ActivityRuns.PauseMeansWatchedIdle: excludes pauses the forecast brings forward and clocks going back; a rollout and a wake request are inputs of the check.
- CostRuns.TotalsCountNothingTwice: MonthOf is any function with the order and grain of months.
- SavingsRuns.SavedIsWithinPaused: takes the shares that samples find to be within what the pause holds, as FoundIsWithin proves of them; leaves out dropping what's pending for a workload that is gone.
- DryRunRuns.PausesAreMeasuredOnce: the clock doesn't go back.
- SamplerRuns.CreditIsWithinPause: follows one workload's pause; each sample's spare is none negative, as SpareIsNonNegative proves.
- PodRequests.TrimKeepsRequests: for requests in whole thousandths of a core and bytes, none negative.
- Sampler.Sampler.CreditShares: hours and resources are reals; floating-point rounding is not modelled, here or in the shortfalls.

Not modelled:

- The Kubernetes API beyond reads that return a snapshot and writes that land or fail: watches, caches, events, conditions.
- The upkeep of the dependency graph's indexes, its lock, and learning dependencies.
- allocateRoutes' choice of the ports a workload has already, which is any map here, and planning which Services to route.
- mayMissSlices: whether the cache shows all of a workload's slices; giving up ports may leave any.
- The forwarder's Deployment, pod addresses and GKE load balancers.
- The forecast: its veto and the pauses it brings forward are inputs.
- Depends-on aside, the settings read from annotations.
- What a replica requests being read again only hourly, list prices, dollar figures and projections.
- Reporting of gaps in watching, and the activity of a paused workload's queries.
- HPAs, and holding and releasing KEDA.
- Integer widths: ports, replicas, times and hours are unbounded.
