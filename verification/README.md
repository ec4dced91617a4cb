# flint-init: a verified model

flint-init is an init system and service supervisor. It reads one TOML definition per service, builds
a dependency graph, refuses to boot on a cycle, launches services as what they depend on becomes
ready, restarts or gives up on services that end, answers control commands, and at shutdown stops
services dependents first. A manifest caches parsed definitions between boots, a watcher keeps the
manifest fresh, and `flint-ctl get` installs services with what they need.

This project models that core in Dafny and proves what it promises.

| file | contents |
|---|---|
| `Services`, `Ordering`, `Dependency` | definitions; the sort order and its one result per set; chains, cycles, ranks |
| `Kahn`, `Graph`, `Layering`, `Build`, `Preflight` | `src/graph.rs` and `has_cycle` of `src/check.rs` |
| `Supervisor` | the loop of `src/executor.rs` as a state machine, one step per event |
| `SupervisorRules` | the next state after each event, told case by case in the fields alone |
| `SupervisorInvariant`, `SupervisorSteps` | the invariant of regular runs, and that every step keeps it |
| `SupervisorTheorems`, `SupervisorWork`, `SupervisorAnyRun`, `SupervisorRestart`, `SupervisorStart`, `SupervisorProgress`, `SupervisorEnvironment`, `SupervisorExample` | what runs guarantee, and what they do not |
| `Execution`, `Shutdown`, `Supervise` | the loop as the mutable object and the nested loops of the source, proved against the state machine |
| `Cache`, `CacheLoad`, `CacheHistory` | `src/cache.rs` and `src/bin/flint_watch.rs` |
| `Install` | the recursive installer of `src/bin/flint_ctl.rs` |

Hash maps and hash sets are visited in arbitrary order throughout, so a result that is one fixed
sequence is so whatever the order.

## Runs

The environment chooses the events: readiness signals, which pid a spawn returns or that it fails,
how children end, which commands arrive, when the shutdown flag is set. `PossibleRun` says only that
a new child has a pid no tracked child has and that only tracked children are reaped. A *regular* run
(`RegularRun`) starts from a successful build, and in it

- every spawn that is needed succeeds, and `waitpid` never answers ECHILD;
- readiness signals name services launched before, which is what deleting stale readiness files is for;
- a command spawns nothing on its own: Start is refused, and Restart and Reload either change nothing
  or target a service with a tracked child.

`CommandKeepsIff`, `FailedCommandKeepsIff` and `SignalKeepsIff` show how exact this is with respect to
the invariant. With respect to the exit tests of the loop, `ExitTestsAgreeIff` says exactly which
commands make them disagree, and `RevivalLeavesChild` follows such a run to its end: once an ended
service has been spawned again by hand, the loop never exits at the total without a child left.
`StartLeavesChildBehind` is the smallest such run.

`RunLoop` and `Boot` record the events that happened, and promise a clean end or an orderly stop if
those events made a regular run. When they did is part of the contract: if spawns succeed and no child
vanishes, exactly when commands and signals were regular as they were handled; so always for a script
without commands and signals. If in addition the children come to an end, however they end, the loop
exits by itself, cleanly, within MAX_RESTARTS + 1 passes per service and one more.

## Where code and documentation differ

- `README.md:67` and `README.md:101-103` of the repository say that a service needing a permanently
  failed service is marked Failed. The code does this only if the failed service never reported ready,
  and then also for a nonzero exit or a kill without any restart policy. `FailurePropagation` states
  the exact rule; `ReportedFailureDoesNotPropagate` is a run that departs from the documented one. (It
  is regular and ends cleanly, so it also shows that the hypotheses of the theorems can be met.)
- `GraphError::UnknownDep` is declared and never produced: unknown dependencies are ignored.
- `build` also fails on a repeated service name, and then reports a cycle among no services exactly if
  there is no cycle (`ReportsNothingIff`, `RepeatedNameReportsNothing`).
- The directory scan and the watcher disagree on exactly one name, `.toml`: the watcher stores an entry
  for such a file and the next load drops it (`WatchedNotScannedIff`, `WatchedThenLoaded`,
  `DotTomlComesAndGoes`).
- `load_services_from_dir` validates definitions and the cached load used at boot does not, so the
  latter accepts what the former refuses exactly when some definition does not validate
  (`CachedAgainstValidating`).
- A Pending service started by hand is launched again when its turn comes, and then has two children
  (`StartedPendingRunsTwice`, `StartedAndLaunched`); `TwoChildrenIff` says exactly which events do this.
- A second Restart or Reload of a service before its child ends takes the place of the first: the
  restart happens, and whoever asked first is never answered (`AnsweredIff`).
- A file rewritten within the second of its last load keeps its old definition in the cache
  (`StaleWithinASecond`).

## Model

| member | source | states |
|---|---|---|
| `Kahn.OwedStep` | src/graph.rs:98-109 | finishing a service lowers what each other service is owed by exactly the number of its occurrences in the finished one's reverse adjacency list, for lists with repeated names, self-loops and unknown dependencies |
| `Kahn.DrainingDecrements` | src/graph.rs:101-107 | the unguarded subtraction never underflows on any input, and a service is queued at most once |
| `Kahn.DrainedDegrees` | src/graph.rs:111-117 | once the queue is empty, the services with a positive degree are exactly those whose dependencies lead to a cycle |
| `Kahn.DrainedCount` | src/graph.rs:111-111 | as many services were visited as there are definitions exactly when names are distinct and dependencies acyclic |
| `Build.EdgeLists` | src/graph.rs:36-74 | reverse adjacency lists in definition order and in-degrees of the known `after`/`needs` relation, whatever the list |
| `Kahn.KnownDepsIff` | src/graph.rs:54-71 | an edge is drawn exactly for a name listed under `after` or `needs` that is a service |
| `Build.Drain` | src/graph.rs:89-118 | the visited count and remaining degrees decide buildability and tell which services reach a cycle |
| `Build.BuildableIff` | src/graph.rs:89-118 | the two conditions for building hold exactly when names are pairwise distinct and can be numbered so that whatever a service lists under `after` or `needs` and is known comes before it |
| `Build.Build` | src/graph.rs:28-121 | succeeds exactly then; the graph has an edge for each known name a definition lists and no other, once each, counts them in the degrees, and lists dependents by `needs` alone apart; otherwise the names reported are exactly the services reaching a cycle |
| `Preflight.HasCycle` | src/check.rs:122-169 | true exactly when names repeat or cannot be numbered along `after` and `needs`, that is, when the build fails |
| `Preflight.ReleaseGuarded` | src/check.rs:153-166 | the guarded decrement computes exactly what the unguarded one does on integers: the guard never suppresses a subtraction |
| `Build.Release` | src/graph.rs:100-108 | the unguarded decrement loop, with natural numbers, computes what it would on integers: no degree goes below zero |
| `Build.ReportsNothingIff` | src/graph.rs:111-117 | a failed build reports no service exactly when a name is repeated and there is no cycle |
| `Build.RepeatedNameReportsNothing` | src/graph.rs:111-117 | two copies of a definition without dependencies are such an input |
| `Preflight.PreflightAgreesWithBuild` | src/check.rs:122-169 | preflight reports a cycle exactly when the build fails, on every list of definitions |
| `Ordering.LexLeIff` | src/graph.rs:131-131 | the order of sorting is the dictionary order: a beginning first, else by the first character that differs |
| `Graph.ServiceGraph.InitiallyReady` | src/graph.rs:124-133 | the services at degree zero, once each, in ascending dictionary order |
| `Graph.ServiceGraph.MarkReady` | src/graph.rs:136-151 | takes one from each positive degree of a service that lists the name and returns those taken from one to zero, once each, in ascending dictionary order, for any name |
| `Graph.ServiceGraph.DependentsByNeed` | src/graph.rs:157-159 | lists, once each, exactly the services with the name under `needs` |
| `Build.MarkAllCounts` | src/graph.rs:136-151 | after marking any distinct services, every degree is the number of known dependencies not yet marked |
| `Build.MarkAllUnlocks` | src/graph.rs:136-151 | a mark returns a service exactly when it marks the last unmarked dependency of that service |
| `Build.UnlockedOnce` | src/graph.rs:136-151 | no service is returned by two marks |
| `Graph.CountDependents` | src/graph.rs:167-179 | the number of running direct dependents of each running service |
| `Graph.DropLeaf` | src/graph.rs:200-212 | taking one leaf away keeps those numbers exact for the rest |
| `Graph.ServiceGraph.ShutdownOrder` | src/graph.rs:164-217 | the result is one fixed function of the relation and the running set, for any set of names, and each batch is in ascending dictionary order |
| `Layering.LeavesExist` | src/graph.rs:192-198 | in an acyclic graph some running service has no running dependent, so the fallback is never taken |
| `Layering.StopsEachOnce` | src/graph.rs:164-217 | every running name is emitted exactly once and nothing else is |
| `Layering.DependentsStopFirst` | src/graph.rs:161-217 | a running service precedes the running services it directly depends on |
| `Layering.BatchIsLongestChain` | src/graph.rs:181-216 | a service is emitted in batch k exactly when the longest chain of running services, each depending on the one before, has k steps from it |
| `Build.ReverseStopOrderStarts` | src/graph.rs:136-217 | marking all services in the reverse of the stopping order meets each one at degree zero before its own turn |
| `SupervisorRules.InitRule` | src/executor.rs:179-212 | the loop starts with every service pending in both maps, those at degree zero queued in dictionary order, and everything else empty |
| `SupervisorRules.SignalRule` | src/executor.rs:407-422 | a first signal makes the service Ready in both maps, keeps its pid and releases its dependents; any other changes nothing |
| `SupervisorRules.LaunchRule` | src/executor.rs:424-452 | the last of the queue is given up as Failed if blocked, dropped without a definition, ends the run if it cannot be spawned, and else is Running under its pid in all maps |
| `SupervisorRules.RequestedRule` | src/executor.rs:485-503 | a child that ends with a restart pending is replaced and the reply released, or the service is Failed if that cannot be done |
| `SupervisorRules.ReapRule` | src/executor.rs:504-597 | without a request the whole next state: respawned if the policy is `always`, or `on-failure` after a signal or nonzero code, fewer than five automatic restarts were made and no shutdown is under way; else ended for good, counted, blocking those that need it if it failed unreported, and releasing its dependents unless reported |
| `SupervisorRules.RespawnedIff` | src/executor.rs:504-597 | it is Running under the new pid exactly in those cases; otherwise Failed if another attempt was due but five were made, else Exited with -1 after a signal, else Exited with its code |
| `SupervisorRules.VanishRule` | src/executor.rs:603-607 | ECHILD untracks the child and counts it |
| `SupervisorRules.StartRule` | src/executor.rs:287-308 | Start spawns a known service that is neither Running nor Ready, and otherwise changes nothing |
| `SupervisorRules.RestartRule` | src/executor.rs:309-337 | Restart is filed for a service that is Running or Ready, spawns any other known one, and otherwise changes nothing |
| `SupervisorRules.ReloadRule` | src/executor.rs:338-402 | a changed definition is taken up in any case; then a restart is filed if a child is tracked, else one is spawned and shown Running; any other re-read changes nothing |
| `SupervisorRules.TagRule` | src/executor.rs:117-146 | the word each state is shown by |
| `SupervisorSteps.FinalVerdict` | src/executor.rs:517-527 | the final state is Exited with code 0 exactly when the end is no failure: not killed, code 0, and not `always` with the restarts used up |
| `SupervisorSteps.StepKeeps` | src/executor.rs:284-611 | every event of a regular run keeps the invariant tying degrees, queue, tracked children, blocked set, counters, status and log together |
| `SupervisorSteps.RunKeeps` | src/executor.rs:179-612 | so every state of every regular run satisfies it |
| `SupervisorSteps.CommandKeepsIff` | src/executor.rs:284-405 | a command whose spawn would succeed keeps the invariant, which has every child accounted for by a launch, exactly when it is refused, changes nothing or targets a tracked child |
| `SupervisorStart.ExitTestsAgreeIff` | src/executor.rs:454-460 | with the queue drained, after a command whose spawn succeeds the two exit tests agree exactly when the command is a regular one or some service is not counted yet; otherwise the loop exits with a child tracked |
| `SupervisorStart.RevivalLeavesChild` | src/executor.rs:287-337 | after a command that spawns a child by hand for an ended or skipped service, through any regular run, whenever the queue is drained and the count at the total some child is tracked, and the count passes the total by one at most |
| `SupervisorStart.TwoChildrenIff` | src/executor.rs:284-611 | in any state an event gives a service a second tracked child exactly if it has one and the event launches it from the queue, or starts or restarts it by hand while it is not shown as up |
| `SupervisorStart.StartedPendingRunsTwice` | src/executor.rs:295-305 | a Pending service started by hand has two children once launched from the queue, whatever happens in between, unless it is blocked or the first child was reaped |
| `SupervisorStart.StartedAndLaunched` | src/executor.rs:295-305 | such a run, for any service that runs alone |
| `SupervisorSteps.FailedCommandKeepsIff` | src/executor.rs:284-405 | a command whose spawn would fail keeps the invariant unless it is a Reload finding a new definition for an unknown service |
| `SupervisorSteps.SignalKeepsIff` | src/executor.rs:407-422 | a readiness signal keeps the invariant exactly when its service was launched |
| `SupervisorTheorems.NoStall` | src/executor.rs:424-460 | with the launch queue drained, no child is tracked exactly when every service is counted, and the count never passes the total |
| `SupervisorTheorems.CleanEnd` | src/executor.rs:454-460 | at a clean end every service is Exited or Failed in both maps without a pid; Exited with code 0 exactly when it ended well, Failed when never launched |
| `SupervisorProgress.Progresses` | src/executor.rs:424-611 | every launch and every reap of a regular run, however the child ends, lowers one lexicographic measure: attempts left, restarts asked for, services with unmarked dependencies, queue |
| `SupervisorProgress.AdvancesBounded` | src/executor.rs:424-611 | a regular run has at most MAX_RESTARTS + 2 launches and reaps per service, plus one per Restart or Reload command |
| `SupervisorProgress.CleanEndReachable` | src/executor.rs:424-611 | every regular run of a booted graph has a regular continuation, by launches and reaps alone, to a state with every service counted, the queue empty and no child |
| `SupervisorEnvironment.RegularIffBoth` | src/executor.rs:284-611 | a run is regular exactly when its commands and signals are regular as handled, and no needed spawn fails and no child vanishes |
| `SupervisorTheorems.FailurePropagation` | src/executor.rs:426-596 | at a clean end the services never launched are exactly those reaching, by one `needs` edge or more, a launched service that did not end with code 0 and never reported ready |
| `SupervisorWork.StartOrderSafety` | src/executor.rs:424-452 | each launch is the first of its service; by then every known dependency was reported ready, ended or was skipped, and every known hard dependency was reported ready or ended well |
| `SupervisorWork.StatusView` | src/executor.rs:117-146 | the shared map covers the services, shows the tag of each state, and shows a pid exactly when it is the one tracked child of the service |
| `SupervisorWork.StatusOf` | src/ctl_server.rs:116-129 | the pid a Stop request signals is the tracked child of the service, and there is one whenever a child is tracked |
| `SupervisorWork.BoundedWork` | src/executor.rs:505-597 | a regular run reaps at most (MAX_RESTARTS + 1) children per service, plus one per Restart or Reload command |
| `SupervisorAnyRun.EveryRun` | src/executor.rs:284-611 | in every run, with any commands and failures: replies are held for exactly the pending restarts, automatic restarts of a service never exceed MAX_RESTARTS, and every tracked child has a definition, so the lookups at a respawn never fail |
| `SupervisorAnyRun.ManualRestartKeepsBoot` | src/executor.rs:309-402 | Restart, Reload and the respawn they lead to change neither degrees, reported, blocked, restart counts, queue, completed nor the history that decides the boot |
| `SupervisorRestart.RunWaits` | src/executor.rs:309-402 | while the old child lives, through any regular run, the restart asked for stays pending, the child tracked, the definition that of the last reload which changed it and the reply that of the last request |
| `SupervisorRestart.RestartIsHonoured` | src/executor.rs:485-503 | after any such run, however the child ends and whatever the policy and count, the service runs under the new pid from that definition, nobody waits any more, and the respawn leaves the boot where it was |
| `SupervisorRestart.AnsweredIff` | src/executor.rs:492-494 | the reply sent when the child ends is that of the last request, so a request is answered exactly when no later one for the same service came in before |
| `SupervisorRestart.NoReplyHeld` | src/executor.rs:454-460 | at a clean end no restart is pending and no reply is held |
| `SupervisorAnyRun.StartLeavesChildBehind` | src/executor.rs:287-308 | a Start of an ended service leaves the exit test true with a child still tracked |
| `SupervisorExample.ReportedFailureDoesNotPropagate` | README.md:67-67 | a regular run, cleanly ended, in which a service ends well although its hard dependency failed for good |
| `Execution.Executor.constructor` | src/executor.rs:179-212 | the loop is entered in the initial state of the state machine |
| `Execution.Executor.HandleReady` | src/executor.rs:407-422 | a readiness signal takes the object exactly to the next state of the state machine |
| `Execution.Executor.LaunchOne` | src/executor.rs:424-452 | so does one pass of the launch loop: skipped and its dependents blocked, launched, or a failed spawn; the event is a regular one unless the run is aborted |
| `Execution.Executor.HandleReaped` | src/executor.rs:481-600 | so does the end of a child: manual respawn first, then automatic respawn, else the final state, blocking and release; the event is a regular one unless a needed spawn failed |
| `Execution.Executor.EndService` | src/executor.rs:517-538 | the end of a service blocks its hard dependents only if it failed unreported and releases its dependents only if nothing did before |
| `Execution.Executor.HandleVanished` | src/executor.rs:603-607 | so does ECHILD |
| `Execution.Executor.HandleStart` | src/executor.rs:287-308 | so does a Start command, refused or not |
| `Execution.Executor.HandleRestart` | src/executor.rs:309-337 | so does a Restart command |
| `Execution.Executor.HandleReload` | src/executor.rs:338-402 | so does a Reload command, for every outcome of re-reading the file |
| `Execution.Executor.DrainCommands` | src/executor.rs:284-405 | every waiting command is handled, in order, and nothing else happens |
| `Execution.Executor.DrainReady` | src/executor.rs:407-422 | every waiting signal is handled, in order, and nothing else happens |
| `Execution.LaunchProgresses` | src/executor.rs:425-452 | each pass of the launch loop lowers the pair (services at positive degree, queue length), so skipping cannot go on for ever |
| `Execution.Executor.LaunchAll` | src/executor.rs:424-452 | launching ends, with the queue empty or a spawn failed |
| `Execution.Executor.Poll` | src/executor.rs:476-611 | exactly one event for each child polled that is over or gone, whatever the polling order; every tracked child is polled unless waitpid failed for one polled or the last event is a failed respawn |
| `Shutdown.StopInOrder` | src/executor.rs:221-261 | with one child per service the ordered pass signals exactly in the stopping order and leaves none, and each signal follows the end of the waits for all tracked direct dependents; in any case one child at a time: signalled, killed if it outlives the grace period, waited for, and only then the next |
| `Shutdown.Stragglers` | src/executor.rs:263-280 | all children left are treated, once each and one at a time |
| `Shutdown.StopAll` | src/executor.rs:216-281 | whatever is tracked, every child is signalled, killed exactly if it outlives the grace period and waited for, in this order, once, before the next is signalled; with one child per service there are no stragglers, and the services are signalled in the stopping order, each after the waits for its tracked direct dependents |
| `Supervise.OnePass` | src/executor.rs:284-611 | a pass handles all commands, then all signals, then launches until the queue is empty; it ends the loop only if an exit test then holds, a spawn failed or waitpid failed for a tracked child; otherwise it has handled the late signal and polled every tracked child |
| `Supervise.RunLoop` | src/executor.rs:214-612 | the loop is a sequence of such passes, each starting where the one before ended, until the flag, an exit test, an error or the end of the script; if spawns succeed and no child vanishes, its events make a regular run exactly when commands and signals were regular as handled; after a regular run an exit is a clean end and a shutdown an orderly stop; every tracked child is treated once at shutdown |
| `Supervise.LoopEnds` | src/executor.rs:214-612 | with no command, signal or shutdown, spawns that succeed and children that end, however they end, the loop leaves by an exit test within (MAX_RESTARTS + 1) * services + 1 passes |
| `Supervise.Boot` | src/executor.rs:169-623 | from any list of definitions: refused exactly when not buildable, else the loop is run on the graph of those definitions with the promises of `RunLoop`, down to the treatment of every child at shutdown; left alone, with spawns that succeed and children that end, it finishes with a clean end |
| `Cache.Scan` | src/cache.rs:46-62 | every file whose name is a non-empty stem and `.toml`, once, in arbitrary order, and no other |
| `Cache.SecsIff` | src/cache.rs:77-77 | a time is cached as the whole second it falls in, and fails before the epoch |
| `Cache.ReadsIff` | src/cache.rs:38-43 | a stored manifest is used exactly if it decodes and has version 1 |
| `Cache.RetainSplits` | src/cache.rs:97-97 | entries are kept or dropped one by one, in their order |
| `Cache.UpsertAt` | src/cache.rs:114-123 | the first entry of a name is replaced where it stands; without one the new entry comes last |
| `Cache.BuildManifest` | src/cache.rs:74-82 | a manifest from scratch is an update of an empty one |
| `Cache.LoadFinds` | src/cache.rs:88-130 | after a load the manifest names each current file once and no other, with the old entry if its second matches and a fresh parse if not |
| `Cache.LoadIsCurrentIff` | src/cache.rs:88-137 | if names are unique and all files parse, the definitions loaded are those of the current files, once each, exactly when no entry matches its file's second with another definition |
| `Cache.LoadAgain` | src/cache.rs:88-137 | loading again from what a load stored, in any scan order, gives the same entries |
| `Cache.CachedEqualsFresh` | src/cache.rs:88-137 | with nothing stale, a cached load and an uncached one give the same definitions up to order |
| `CacheLoad.LoadServicesCached` | src/cache.rs:88-137 | of the files that are a non-empty stem and `.toml`: fails exactly when a file that must be dated or parsed cannot be, leaving the manifest alone; otherwise returns the definitions stored, and writes exactly when there was no readable manifest or the entries differ |
| `CacheLoad.LoadTwice` | src/cache.rs:88-137 | a second load on an unchanged directory returns the same sequence without writing |
| `CacheLoad.LoadServicesFromDir` | src/service.rs:92-108 | succeeds exactly when every file that is a non-empty stem and `.toml` parses and validates, with the definitions in scan order |
| `CacheLoad.CachedAgainstValidating` | src/service.rs:92-108 | with unique names, files that parse and nothing stale, the cached load succeeds, the uncached one does exactly when every definition validates, and then both give the same definitions up to order |
| `CacheLoad.LoadBothWays` | src/cache.rs:88-137 | the same of the two methods on one directory |
| `CacheLoad.HandleWatchEvent` | src/bin/flint_watch.rs:39-80 | a `.toml` event rewrites the manifest once with the update for that file; other names change nothing |
| `CacheLoad.WatchFinds` | src/bin/flint_watch.rs:52-78 | the update removes a deleted file, records a readable one as it is now, keeps the entry of an unreadable one, and leaves every other lookup alone |
| `CacheLoad.EndsWithIff` | src/bin/flint_watch.rs:43-45 | the watcher handles exactly the names that are a stem, perhaps empty, and `.toml` |
| `CacheLoad.WatchedNotScannedIff` | src/bin/flint_watch.rs:43-45 | the watcher handles a name the scan ignores exactly when it is `.toml` |
| `CacheLoad.WatchedThenLoaded` | src/cache.rs:95-100 | an entry the watcher records is dropped by the next load exactly when its file is named `.toml` |
| `CacheHistory.DotTomlComesAndGoes` | src/bin/flint_watch.rs:43-80 | a history in which this happens |
| `CacheHistory.HistoryKeeps` | src/bin/flint_watch.rs:34-81 | over any sequence of edits, removals, watcher events and loads, file names stay unique and every entry records a version its file has had at that second |
| `CacheHistory.HistoryLoadsCurrent` | src/cache.rs:88-137 | so after any history without two contents of a file in one second, a cached load agrees with a fresh parse up to order |
| `CacheHistory.StaleWithinASecond` | src/cache.rs:110-112 | with two contents in one second it does not, for any two that parse differently |
| `Install.MissingMembers` | src/catalog.rs:121-129 | the missing dependencies are exactly the names needed and not on disk |
| `Install.NotOnSplits` | src/catalog.rs:124-127 | each entry of `needs` is kept or left out on its own, in order, repetitions included |
| `Install.CallDecreases` | src/bin/flint_ctl.rs:178-180 | each recursive call lowers the pair (catalog names not on disk, whether the target is on disk), also for cyclic and self needs |
| `Install.Installer.FetchAndInstall` | src/bin/flint_ctl.rs:149-188 | terminates; files are only added or replaced by what was fetched; whatever is answered, each missing need is offered in order by a question of its own, on disk afterwards if accepted, and if declined nothing changes and it is warned about; on success the warnings added are exactly the offers declined, nested calls included; so every service written has each hard dependency on disk or a warning; with all prompts declined it goes through exactly when the target is on disk or can be fetched and parsed, writes at most the one file, and warns of exactly the missing needs |
| `Install.Installer.Get` | src/bin/flint_ctl.rs:149-188 | on success the warnings are exactly the offers declined; with every prompt answered yes there is no warning, a set closed under `needs` stays closed, and the process goes through exactly when some set of fetchable services containing the target supplies all that is needed |

## Left out

- Fork, exec, credentials, argument splitting and the out-of-memory score: spawning is a fresh pid or a failure.
- Wall-clock time: deadlines, sleeps and the grace periods; which children outlive theirs is a parameter, and every wait ends.
- `src/ready.rs`: readiness signals come from the environment; deletion of stale readiness files is the hypothesis that signals name launched services.
- `src/pid1.rs` and `src/fstab.rs`: mounts, unmounts and reboot.
- `src/ctl_server.rs` and `src/ctl_proto.rs`: sockets, JSON, peer credentials; only the pid read by Stop is modelled.
- Replies to commands: only which restart requests hold a reply; texts and delivery are not modelled, nor are the signals that Restart and Reload send.
- Comparison of raw texts on Reload: whether the file is unreadable, unchanged, malformed or changed is chosen by the environment.
- The ready marker written after a clean end.
- `ServiceDef::validate`: an arbitrary predicate.
- TOML and bincode encodings: an arbitrary parser, and a manifest that is absent, undecodable or read back as written; replacing it is atomic.
- Edits racing with a load or a watcher update, lossy file names, and I/O errors other than an unreadable or undated file.
- The watcher's inotify set-up and its exit when the directory is removed.
- Network, distribution detection, scaffolding and configuration, as in `src/catalog.rs`, `src/scaffold.rs` and `src/config.rs`: fetching is a finite map.
- The text of a failed build: the reported names are a duplicate-free sequence in arbitrary order, not joined.
- Supervise.RunLoop: is driven by a finite script of passes, since what happens in each pass is the environment's choice; termination of the supervised services is not modelled.
- Shutdown.StopAll: works on a value and returns what the ordered pass leaves of `pid_to_name` instead of updating the field, which nothing reads afterwards.
