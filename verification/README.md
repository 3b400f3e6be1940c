# A verified model of docker-zero

docker-zero is a deterministic Docker Engine that lives in memory: containers
follow a scripted lifecycle, networks hand out loopback addresses, Redis
containers replicate to one another, and small parsers read what clients and
cookbooks send. This project models that core in Dafny 4.11 and proves what it
keeps over every run, every interleaving and every input.

`dafny verify dfyconfig.toml` checks everything.

## How it is built

Each stateful part has two halves. The *value* half (`Lifecycle`, `Topology`,
`Replication`, `Shutdown`) says what one operation, taken under the lock the
program takes, makes of the state, and the `…Runs` modules prove what holds in
every run of such steps. The *object* half (`Containers.Container`,
`Engines.Engine`, `RedisEngines.RedisEngine`, `Listeners.ContainerRuntime`,
`RespReaders.Reader`) has the program's own fields and loops, and each method's
postcondition equates its new state with the value step.

- **Lifecycle** (`StatePatch`, `Lifecycle`, `LifecycleRuns`, `WaitRuns`,
  `ProcessRuns`, `LifecycleEffects`, `Container`): the container state machine,
  its transition table, the restart budget, exit notification, and the process
  numbers shared by all containers.
- **Topology** (`Addresses`, `Topology`, `TopologyRuns`, `Dns`, `Naming`,
  `TopologyEffects`, `DnsEffects`, `Engine`, `RemovalRaces`): subnet and host
  allocation, plan-then-commit reconfiguration, the two container indexes,
  network-scoped name resolution, and removals whose two lock regions other
  operations come between.
- **Redis and runtimes** (`Replication`, `ReplicationRuns`, `ReplicationEffects`,
  `Resolvers`, `WriteRaces`, `RedisEngine`, `Listeners`, `Shutdown`,
  `ShutdownEffects`, `Closings`): replica agreement with key-value maps as heap objects and names resolved on the
  engine's own networks, propagations that overtake one another, the listener
  transaction, and shutdown as interleaved lock regions.
- **Texts** (`Text`, `JsonTokens`, `JsonPointers`, `JsonDocuments`, `Resp`,
  `RespCommands`, `InlineCommands`, `RespReplies`, `ReplyRuns`, `ReplyEffects`,
  `RespReader`, `ImageMatch`, `ImageEffects`): RESP2 commands and replies, JSON
  string tokens and pointers, the location table over document text, image
  references.

The `…Effects` modules say what each operation does, in plain fields and in the
history of the run, without the predicates and functions the step is written
with.

Conventions. A string is a sequence of bytes, one `char` each. Wherever the
program iterates over a map, the model chooses an element arbitrarily, so every
theorem holds for every iteration order. Identifiers derived from SHA-256 are
parameters required to be fresh. An object method that can panic in the program
has the panic as a precondition, and `LifecycleRuns.LifecycleInvariant` shows
that no run reaches it. Event names, statuses, health values and restart
policies are datatypes with one constructor for every other text.

## What turned out false, and its exact extent

- Replication is one hop. A write keeps every running replica equal to its
  master exactly when it changes nothing or no replica of the written master has
  a running replica of its own (`WriteAgreementExact`); `ChainLosesAgreement`
  gives the failing clusters.
- A master's write and its propagation are separate lock regions, so
  propagations of two connections can reach a replica in the other order. The
  replica agrees exactly when, key by key, the last delivered mutation leaves
  what the last write left (`RaceExact`); `RaceLosesAgreement` gives the run.
- A write made between a refresh's copy of the master's map and its link reaches
  the replica neither way (`RefreshLosesWrite`). The refreshed replica agrees
  exactly when the writes since the copy leave every key as copied, so always
  when there were none (`RefreshRaceExact`).
- A replica's INFO and ROLE carry the master's host. With a host in the last 50
  bytes before 16 MiB, REPLICAOF is accepted and the INFO after it is no frame
  (`LongHostBreaksInfo`). In every run a reply to a recognised command is one
  frame exactly when the host fits (`RepliesAreFrames`).
- Connecting or reconfiguring a container that was removed since its lookup
  leaves an endpoint nobody owns, exactly when the operation is not refused and
  attaches something (`StaleConnectExact`, `StaleConfigureExact`).
- A removal that races with a start leaves a runtime active after all runtimes
  were closed (`RemovalLeaks`). A call of closeRuntimes leaves active exactly
  what was active when it entered and unmapped when it listed the runtimes, so
  nothing is left exactly when everything active was still mapped
  (`ClosingIsTotalExactly`). Only a start that finishes after the removal's own
  stop began can bring this about (`UnmapsOnlyRestarted`).
- A removal's delete erases another container's name when that name was freed
  and taken again since the lookup (`RemovalErasesName`). The engine stays sound
  exactly when the name is then the container's own or free (`RemovalExact`).
- An inline command comes back as its words exactly when its line begins with
  neither a star, which opens an array, nor a byte outside ASCII: the reader puts
  the first byte back as a code point, so such a byte becomes two, or white space
  (`InlineExact`). A line that is a newline alone is read together with the next
  one (`LoneNewline`).
- The backward scan for a string token needs an even number of backslashes
  before the opening quote, and with that alone it is exact
  (`BackwardScanExact`); before a key of a document the number is always zero
  (`ScanFindsQuotes`).
- The reply to an unknown command echoes the name, and is one RESP frame exactly
  when the name has neither newline nor NUL (`UnknownReplyExact`).
- A patch into `paused` can give a paused container without a process number
  (`PausedPatchBreaksPid`); among patches with a known status it is the only one
  that can (`PausedPatchExact`), and the cookbook validator excludes it.
- The bridge is stored under the key `bridge` although its ID is a hash, so a
  lookup by that ID never finds it (`BridgeReferences`); lookups are therefore
  stated over map keys.

## Model

| member | source | states |
|---|---|---|
| `LifecycleRuns.StepKeepsFlags` | state.go:366-397 | No operation, whatever the scenario table and patch, lets Running, Paused, Restarting or Dead drift from the status |
| `LifecycleRuns.StepKeepsSound` | state.go:333-564 | With an accepted scenario every operation succeeds and keeps: flags follow status, Pid is nonzero exactly in running and paused, RestartCount is nonnegative, at most five health entries |
| `LifecycleRuns.LifecycleInvariant` | state.go:395-397 | After every run of accepted operations the invariant holds and the next operation cannot reach the invalid-status panic |
| `LifecycleRuns.AcceptedIffFlagsKept` | cookbook_state_validation.go:62-108 | A patch with legal values passes the validator if and only if canonicalisation overrides no flag it sets, in any state it may meet |
| `LifecycleRuns.PausedPatchBreaksPid` | state.go:405-423 | A rejected patch and a sound state that would separate Pid from status |
| `LifecycleRuns.PausedPatchExact` | cookbook_state_validation.go:117-118 | For every patch with a known status: process number and status stay together in every sound state if and only if the patch does not name paused |
| `LifecycleRuns.StepBudget` | state.go:293-298 | How one operation moves the restart counter and the manual-stop mark; an automatic edge needs the policy's permission |
| `LifecycleRuns.RestartBudget` | state.go:575-587 | In every run the restart counter is the number of automatic edges since the last explicit start, is bounded by a positive MaximumRetryCount under on-failure, and is zero under no |
| `LifecycleRuns.AutomaticEdgeCause` | state.go:575-587 | Every automatic restart happens to an exited, once started, unremoved container nobody stopped by hand, under a policy that allows it |
| `LifecycleRuns.ManualStopHolds` | state.go:497-521 | No automatic restart between a manual stop or kill and the next explicit start or restart |
| `LifecycleRuns.CountersCountEvents` | state.go:266-270 | Each event counter is the number of such events in the history; docker.observe also counts inspects and lists |
| `LifecycleRuns.RowFiresAtMostOnce` | state.go:273-286 | In a whole run a once-transition and a transition with a positive Count fire at most once |
| `LifecycleEffects.MarksAreHistory` | state.go:445-564 | In every run the removed and manual-stop marks, the start count and the restart counter are what the history says |
| `LifecycleEffects.PolicyIsHistory` | state.go:575-587 | The restart policy allows a restart if and only if the history does: exited, started once, there, not stopped by hand, and always, unless-stopped, or on-failure with a nonzero code and retries left |
| `LifecycleEffects.PolicyDecides` | state.go:273-298 | A row that would restart the container and is stopped by nothing else fires if and only if the policy allows it |
| `LifecycleEffects.EventFires` | state.go:261-315 | After every history an event fires exactly the first row whose event, count, status, health, once mark and policy are met, all read off the history, and leaves its patch; without such a row the container stays as it is |
| `LifecycleEffects.StartEffect` | state.go:445-495 | A first start takes the initial state, with defaults; a later one restores status and health, clears exit code and error and keeps the restart count |
| `LifecycleEffects.StopRestartEffect` | state.go:497-564 | The status, exit code, error, health and restart count that a stop, a restart and a failed bind leave |
| `LifecycleEffects.PatchEffect` | state.go:333-365 | Each field comes from the patch if it names it and is kept otherwise |
| `LifecycleEffects.PauseEffect` | state.go:523-551 | Pausing and unpausing move between running and paused and change nothing else |
| `LifecycleEffects.KillEffect` | state.go:511-521 | A kill leaves exit code 137 in exactly a running, live, unremoved container |
| `LifecycleEffects.PidLasts` | state.go:406-423 | The process number lasts as long as the process, whatever the operation |
| `LifecycleEffects.HealthIsHistory` | state.go:424-442 | In every run the log is the last five health changes and the streak counts the unhealthy ones since the last healthy one |
| `LifecycleEffects.AcceptedExactly` | cookbook_state_validation.go:32-131 | A patch is accepted if and only if its values are legal and canonicalisation overrides no flag it sets |
| `Lifecycle.FirstEligible` | state.go:273-298 | The least eligible row, or none when no row is eligible |
| `WaitRuns.StepKeepsWaits` | container_wait.go:21-63 | Registered waiters have empty channels, and a removed container has none registered, after every step |
| `WaitRuns.SendNeverBlocks` | container_wait.go:48-56 | In every reachable state each send under the lock finds its capacity-1 channel empty, even if no reader ever drains one |
| `WaitRuns.WaitDelivery` | container_wait.go:21-63 | Over every interleaving a waiter holds exactly the exit code and error of the first later entry that answers it, and nothing otherwise; it stays registered exactly while unanswered and uncancelled |
| `LifecycleEffects.WaiterHears` | container_wait.go:21-63 | Over every interleaving: a waiter answered on the spot holds the exit code and error of that moment, any other those of the first later end of a running process or removal it awaits, and otherwise nothing |
| `WaitRuns.AnswersAreCauses` | container_wait.go:48-56 | A removed waiter hears only removal; a next-exit waiter only an exit edge or removal |
| `ProcessRuns.WorldStepKeepsSound` | state.go:406-423 | One step of any container keeps numbers distinct and below the shared counter |
| `ProcessRuns.ProcessNumbersDistinct` | state.go:14-14 | In every run over any number of containers nothing panics and no two processes share a number |
| `Containers.Container.NotifyWaiters` | container_wait.go:48-56 | The send-and-delete loop answers exactly the due waiters and leaves the others registered |
| `Containers.Container.SubscribeWait` | container_wait.go:21-38 | Refines the subscribe step: answered at once or registered |
| `Containers.Container.CancelWait` | container_wait.go:33-37 | Refines the cancel step: the waiter is forgotten, its channel is not |
| `Containers.Container.MarkAsRemoved` | container_wait.go:58-63 | Refines the removal step and leaves no waiter registered |
| `Containers.Container.RecomputeFlags` | state.go:366-397 | The status switch makes the four flags the function of the status |
| `Containers.Container.LogHealth` | state.go:424-442 | The streak and the last five entries after a health change |
| `Containers.Container.SettlePid` | state.go:406-423 | The process number after a status change, and whether the shared counter was drawn from |
| `Containers.Container.ApplyPatchLocked` | state.go:333-443 | The in-place patch, notification, process number and health log add up to the patch step |
| `Containers.Container.DoStart` | state.go:445-495 | Refines the start step and keeps the invariant |
| `Containers.Container.DoStop` | state.go:497-507 | Refines the stop step and draws no process number |
| `Containers.Container.DoKill` | state.go:511-521 | Refines the kill step; reports success exactly for a running, live, unremoved container |
| `Containers.Container.DoPause` | state.go:523-536 | Refines the pause step; succeeds exactly in running and paused and keeps the process |
| `Containers.Container.DoUnpause` | state.go:538-551 | Refines the unpause step; succeeds exactly in paused and keeps the process |
| `Containers.Container.DoRestart` | state.go:553-564 | Refines the restart step and draws no process number |
| `Containers.Container.DoApplyPatch` | state.go:325-331 | An accepted response patch keeps the invariant |
| `Containers.Container.CountEvent` | state.go:266-270 | The event's own counter and the shared observation counter |
| `Containers.Container.FindTransition` | state.go:273-298 | The scan with its continues finds the least eligible row |
| `Containers.Container.DoAdvance` | state.go:261-315 | The loop with its break refines the advance step: count, row fired, new state and counter draw |
| `Addresses.AddrTextInjective` | engine_resources.go:40-41 | Different subnet and host numbers give different address texts |
| `Addresses.LeastFree` | engine_network.go:134-172 | The first free number of an interval, or none when every one is taken |
| `Addresses.FullExactly` | engine_network.go:134-172 | Pigeonhole: a search over injectively held numbers fails exactly when as many are held as exist |
| `TopologyRuns.HostAllocationComplete` | engine_network.go:134-172 | The least host no other endpoint holds is chosen; failure means exactly 253 other endpoints |
| `TopologyRuns.SubnetAllocationComplete` | engine_resources.go:25-39 | The least free index is chosen; creation fails for lack of space exactly when 220 user networks exist |
| `TopologyRuns.ReleasedHostReusable` | engine_network.go:134-172 | After a detach a newcomer is offered the released host or a lower one |
| `TopologyRuns.BridgeReferences` | engine_resources.go:55-64 | A reference meets the bridge exactly when it is a prefix of its name, so never by its hashed ID |
| `TopologyRuns.PlanIsSound` | engine_network.go:134-183 | Attaching at the planned slot keeps hosts distinct, in 2..254 and below NextHost |
| `TopologyRuns.CommitEffect` | engine_network.go:109-132 | After detaching and committing, a network is the old one without the container, plus its planned slot if planned, even when two references name it |
| `TopologyRuns.ReconfigurationFails` | engine_network.go:16-132 | A failed reconfiguration changes nothing and fails for exactly two reasons: an unresolved reference, or a resolved network full without this container |
| `TopologyRuns.ReconfigurationSucceeds` | engine_network.go:16-132 | A successful one attaches to exactly the resolved networks, at the old address where there was one; the primary address is one of them; host and none attach nothing |
| `Naming.ReconfigurationMode` | engine_network.go:119-130 | A successful reconfiguration records the given mode, or for a default mode the least name among the attached networks |
| `Naming.WantedExact` | engine_network.go:20-44 | The references asked for: every aliased one with its aliases, the mode unless default, the bridge when there is nothing else |
| `Naming.UniqueStringsExact` | engine_network.go:192-209 | Aliases come out sorted, trimmed and without repetition in any case, and none is lost or made up |
| `Naming.UniqueList` | engine_network.go:192-209 | The one-pass loop with its set of folded spellings computes that list |
| `TopologyRuns.CreateNetworkSound` | engine_resources.go:11-53 | Creating a network keeps distinct names and indexes and everything else |
| `TopologyRuns.RemoveNetworkSound` | engine_resources.go:79-108 | Removing a network keeps the invariant; the bridge and networks with endpoints stay |
| `TopologyRuns.CreateContainerSound` | engine_core.go:124-136 | Creation keeps names and containers inverse to each other |
| `TopologyRuns.RemoveContainerSound` | engine_core.go:234-241 | Removal leaves no endpoint and no name behind |
| `TopologyRuns.ConnectSound` | engine_network.go:343-382 | Connecting keeps the invariant, with the primary address among the container's own |
| `TopologyRuns.DisconnectSound` | engine_network.go:384-410 | Disconnecting keeps the invariant; the primary address is absent only without endpoints |
| `TopologyRuns.StepKeepsSound` | engine_network.go:16-410 | Every legal operation keeps the topology invariant |
| `TopologyEffects.CreateNetworkEffect` | engine_resources.go:11-53 | A created network has the name, no endpoint and an index of its own; refused exactly for an empty or used name or 220 user networks; nothing else changes |
| `TopologyEffects.RemoveNetworkEffect` | engine_resources.go:79-108 | Removing takes exactly a user network without endpoints away and frees its index; any other removal is refused and changes nothing |
| `TopologyEffects.DisconnectEffect` | engine_network.go:384-410 | Afterwards the container has no endpoint on the network, its primary address is right, and nothing else has changed |
| `TopologyEffects.DisconnectReleases` | engine_network.go:384-410 | The next newcomer connected after a disconnect gets the released host or a lower one |
| `TopologyEffects.ConnectEffect` | engine_network.go:343-382 | Exactly one endpoint is added, at the least free host, with exactly the sorted aliases, name and service; refused exactly when attached already or at 253 endpoints |
| `TopologyEffects.CreateContainerEffect` | engine_core.go:124-136 | A created container stands alone under its name, attached to nothing; refused exactly when the name is taken |
| `TopologyEffects.RemoveContainerEffect` | engine_core.go:225-241 | A removed container has no entry, name or endpoint left and nobody else loses one; refused exactly while running and not forced |
| `TopologyEffects.ConfigureGives` | engine_network.go:16-132 | Each endpoint of a successful reconfiguration carries the aliases asked for under a reference to its network, the name and the service |
| `TopologyEffects.IsolationEffect` | engine_network.go:24-34 | Exactly the modes host and none leave the container without endpoint and primary address; nobody else's endpoints change in any mode |
| `TopologyEffects.NetworkReferences` | engine_resources.go:55-64 | A network answers to its key, its name and every prefix of its key, and to nothing else |
| `TopologyEffects.ReferenceForms` | engine_core.go:165-188 | A container reference may carry a leading slash |
| `TopologyEffects.AddressPieces` | engine_resources.go:40-41 | An address text splits at its dots into the four numbers of its subnet and host |
| `TopologyRuns.AddressSafety` | engine_network.go:310-321 | In every run no two endpoints of the engine share an address, not even as text, with all allocation invariants |
| `Dns.ResolutionUnique` | engine_network.go:278-287 | A query has one answer list: map order cannot show |
| `Dns.RecordsDistinct` | engine_network.go:262-277 | Different endpoints give different records, so none is listed twice or lost |
| `Dns.LookupUnique` | engine_core.go:165-188 | A container reference has one verdict: name, exact ID, unique prefix, ambiguous or missing |
| `DnsEffects.ReplyExact` | engine_network.go:254-308 | A reply holds a record if and only if an endpoint on a network the requester has joined has that name, ID, short ID, service or alias, in any case |
| `DnsEffects.PrefixFinds` | engine_core.go:165-188 | A proper ID prefix that is nobody's name finds the container if and only if no other ID begins with it, and is ambiguous otherwise |
| `DnsEffects.NothingFound` | engine_core.go:165-188 | A reference that is no name and begins no ID finds nothing |
| `DnsEffects.QueryForms` | engine_network.go:254-261 | Case and one trailing dot make no difference to a query |
| `DnsEffects.ConnectedIsAnswered` | engine_network.go:254-382 | After a connect everyone on the network gets the new address for the name, the service and each alias given |
| `DnsEffects.ConfiguredIsAnswered` | engine_network.go:16-308 | After a reconfiguration everyone on an attached network gets its address for the name, the service and the aliases asked for |
| `Engines.Engine.constructor` | engine_core.go:63-92 | A new engine has the bridge alone and satisfies the invariant |
| `Engines.Engine.FindNetwork` | engine_resources.go:55-64 | Some network hit by key, name or key prefix, or proof that none is |
| `Engines.Engine.CreateNetwork` | engine_resources.go:11-53 | The in-place loops refine the create step |
| `Engines.Engine.RemoveNetwork` | engine_resources.go:79-108 | Refines the remove step for the network the reference hits |
| `Engines.Engine.CreateContainer` | engine_core.go:124-136 | Refines the create step on both indexes |
| `Engines.Engine.FindContainer` | engine_core.go:165-188 | The search loop returns the one verdict |
| `Engines.Engine.RemoveContainer` | engine_core.go:225-241 | Undisturbed, it refines the remove step on exactly the container found: refused while the container runs unless forced, and then no endpoint, index or name is left |
| `Engines.Engine.DeleteContainer` | engine_core.go:234-241 | The delete region alone, on whatever state it meets |
| `Engines.Engine.SetRunning` | state.go:595-599 | A lifecycle step changes nothing in the engine but whether the container answers that it runs |
| `RemovalRaces.DeleteExact` | engine_core.go:234-241 | In any sound state the delete region keeps the engine sound if and only if the name is the container's own or free |
| `RemovalRaces.RemovalExact` | engine_core.go:225-241 | For every run between lookup and delete, the removal leaves a sound engine if and only if the name is not another container's by then |
| `RemovalRaces.UnremovedIsOurs` | engine_core.go:225-241 | If the container is still there at the delete, the condition holds, whatever else ran |
| `RemovalRaces.RemovalErasesName` | engine_core.go:225-241 | A second removal and a creation under the same name in between: the new container loses its name |
| `RemovalRaces.StaleConfigureExact` | engine_network.go:16-132 | Reconfiguring a container removed since its lookup keeps the engine sound if and only if it is refused or isolates |
| `RemovalRaces.StaleConnectExact` | engine_network.go:343-382 | Connecting a removed container keeps the engine sound if and only if it is refused, which means 253 endpoints |
| `Engines.Engine.PlanHost` | engine_network.go:134-172 | The search loop computes the planned slot |
| `Engines.Engine.ConfigureNetworks` | engine_network.go:16-132 | The plan loop and the commit loop refine the all-or-nothing step |
| `Engines.Engine.CommitAll` | engine_network.go:109-132 | Detach everywhere, then attach every plan |
| `Engines.Engine.ConnectNetwork` | engine_network.go:343-382 | Refines the connect step |
| `Engines.Engine.DisconnectNetwork` | engine_network.go:384-410 | Refines the disconnect step |
| `Engines.Engine.ResolveDns` | engine_network.go:254-308 | Exactly the matching endpoints on joined networks, each once, sorted; nothing for an empty name |
| `Engines.Engine.FindContainerByEndpointIP` | engine_network.go:310-321 | The owner of the address, who is live and the only one there can be |
| `Replication.FirstRedis` | redis_replication.go:204-211 | The first Redis container of the list other than the requester, or none exactly when there is no such container |
| `ReplicationRuns.PropagationMatches` | redis_replication.go:329-351 | The propagated form of a write brings an equal map to the master's new contents, increments included |
| `ReplicationRuns.WrittenContents` | redis_replication.go:305-327 | After a write each container's map comes from the master's new map, from propagation, or is untouched |
| `ReplicationRuns.WriteAgreementExact` | redis_replication.go:305-327 | In any topology a write keeps agreement if and only if it changes nothing or no replica has a running replica of its own |
| `ReplicationRuns.ChainLosesAgreement` | redis_replication.go:305-308 | A replica of a replica misses any SET on the top master |
| `ReplicationRuns.RefreshRepairs` | redis_replication.go:176-235 | When followed hosts mean pure masters, a refresh makes the refreshed container agree, whatever it held, with a map of its own |
| `ReplicationRuns.RefreshAllKeepsSound` | redis_replication.go:267-282 | Refreshing dependents in any order keeps agreement |
| `ReplicationRuns.RefreshSettles` | redis_replication.go:191-233 | In any topology a refresh links its container to the running master its host leads to, down if there is none, and unsettles no other link |
| `ReplicationRuns.StartSettles` | service_runtime.go:420-423 | After a start has refreshed containers in any order, every refreshed link is settled |
| `ReplicationRuns.RuntimeStoppedKeepsSound` | redis_replication.go:284-303 | After a stop nobody follows the stopped container with its link up |
| `ReplicationRuns.StepKeepsSound` | service_runtime.go:402-444 | Every operation keeps agreement and separate maps when the hosts that replicas follow mean pure masters; other names and addresses are free |
| `ReplicationRuns.ReplicaAgreement` | redis_replication.go:165-235 | In every run of a star topology each running replica with its link up has its master's contents, and no two containers share a map object |
| `ReplicationEffects.NoOneEffect` | redis_replication.go:107-109 | REPLICAOF NO ONE leaves a master with its link up, no host, port or master and its own map; nobody and no map else changes |
| `ReplicationEffects.PromotedAcceptsWrites` | redis_replication.go:159-164 | After it SET is answered OK and the value is in the container's map |
| `ReplicationEffects.PromotedIsUntouched` | redis_replication.go:305-327 | After it no write on another container changes the promoted one's map |
| `ReplicationEffects.UnlinkedIsUntouched` | redis_replication.go:305-327 | A write reaches no container that is not linked to the one written |
| `ReplicationEffects.ReplicaOfEffect` | redis_replication.go:165-235 | REPLICAOF leaves a replica of that host and port whose link is up to the running container the host leads to, by address or first Redis name, and down if none; nobody else changes |
| `ReplicationEffects.RefreshEffect` | redis_replication.go:176-235 | A refresh directs a container to its command line's target, sets its link right, and leaves every other container and every older map as it was |
| `ReplicationEffects.RefreshCopies` | redis_replication.go:214-233 | A linked replica gets a new map with its master's contents; otherwise no map is made or changed |
| `ReplicationEffects.StartEffect` | service_runtime.go:402-425 | A start with its refreshes, in any order, leaves every refreshed link right |
| `ReplicationEffects.ReconnectEffect` | service_runtime.go:402-444 | A reconnect leaves every refreshed link right again |
| `ReplicationEffects.StopEffect` | redis_replication.go:284-303 | Stopping a mapped Redis runtime takes down exactly its followers' links |
| `ReplicationEffects.ExitEffect` | service_runtime.go:446-462 | An exit and a failed start take the running mark away and change nothing else of replication |
| `ReplicationEffects.CreateEffect` | engine_core.go:104-144 | A new container is a stopped master with an empty map of its own; the others keep theirs |
| `ReplicationEffects.RemoveEffect` | engine_core.go:225-241 | A removal takes exactly the container away, after its stop |
| `ReplicationEffects.ReplicaWritesNothing` | redis_replication.go:10-15 | A write command to a replica changes nothing anywhere |
| `Resolvers.StarOfNetworks` | redis_replication.go:200-212 | With the engine's whole resolver, names and addresses alike, the star hypothesis is a condition on networks and followed hosts alone |
| `Resolvers.NetworkedAgreement` | redis_replication.go:165-235 | Replica agreement in every run whose names and addresses are resolved on the engine's own networks, which may change between steps |
| `Resolvers.NamedMasterLinks` | redis_replication.go:200-233 | Starting a replica whose host names one running Redis container on a shared network attaches it to that container |
| `Resolvers.PairStarts` | redis_replication.go:176-235 | A master and a replica on the bridge, with addresses of their own, meet every hypothesis under any IDs and names, and the replica's start attaches it |
| `WriteRaces.AppliedLast` | redis_replication.go:329-351 | After a list of propagated mutations each key holds what the last one touching it left |
| `WriteRaces.RaceExact` | redis_replication.go:30-37 | Over every interleaving of writes, propagations, refreshes and lost links the replica equals its master if and only if, for each key, the last mutation it has seen leaves what the last write left |
| `WriteRaces.RaceLosesAgreement` | redis_replication.go:30-37 | Two SETs of one key whose propagations are swapped leave the older value on the replica for good |
| `WriteRaces.CutStopsDelivery` | redis_replication.go:284-327 | A propagation reaches the replica while its link is up and never once its master is marked down |
| `WriteRaces.RefreshRaceExact` | redis_replication.go:214-233 | After a link the replica equals its master if and only if the writes made since the refresh copied leave every key as copied; with none it always does |
| `WriteRaces.RefreshLosesWrite` | redis_replication.go:214-233 | A SET made and propagated between copy and link is missing from the linked replica with nothing left to deliver |
| `RedisEngines.RedisEngine.FindMaster` | redis_replication.go:200-212 | The search over resolved names finds the first Redis candidate |
| `RedisEngines.RedisEngine.RefreshReplication` | redis_replication.go:176-235 | Refines the refresh step with a fresh copy of the master's map |
| `RedisEngines.RedisEngine.RefreshDependents` | redis_replication.go:267-282 | Refreshes every other Redis container, in the order met |
| `RedisEngines.RedisEngine.MarkMasterDown` | redis_replication.go:284-303 | Exactly the followers' links go down |
| `RedisEngines.RedisEngine.ReplicateMutation` | redis_replication.go:305-327 | Exactly the running linked replicas of a Redis master apply the write |
| `RedisEngines.RedisEngine.HandleWrite` | redis_replication.go:10-37 | A replica refuses SET, DEL and INCR; a master's write keeps agreement |
| `RedisEngines.RedisEngine.StartRuntime` | service_runtime.go:417-424 | Refines the runtime start: own refresh, then everyone else's |
| `RedisEngines.RedisEngine.StopRuntime` | service_runtime.go:427-444 | Refines the runtime stop |
| `Listeners.Host.Listen` | service_runtime.go:69-69 | The oracle: refuses an occupied address, honours a fixed port, returns a nonzero one, and may refuse anything |
| `Listeners.ContainerRuntime.UpdateAssignedPort` | state.go:217-226 | One binding's port changes; an index out of range changes nothing |
| `Listeners.ContainerRuntime.ResetEphemeralPorts` | state.go:228-239 | Every ephemeral port is forgotten and fixed ports stay |
| `Listeners.ContainerRuntime.ListenSpecs` | service_runtime.go:357-388 | The endpoint addresses in order unless off, then every tcp binding once, sorted by key and in binding order, and nothing else |
| `Listeners.SeenGrows` | service_runtime.go:55-67 | The table of addresses met detects exactly the fixed addresses with two owners |
| `Listeners.ContainerRuntime.OpenAll` | service_runtime.go:54-97 | Either all is undone, because of a clash or a refusal, or there was no clash, every listed binding has a port and exactly the new listeners were added |
| `Listeners.ContainerRuntime.Start` | service_runtime.go:42-121 | A failed start leaves no listener open, the runtime inactive and bindings as requested, and has one of three causes; a successful one excludes them and gives every tcp binding a nonzero port, the requested one where fixed and the held one where it held one, with a listener at it on the host meant |
| `Listeners.ContainerRuntime.Stop` | service_runtime.go:145-183 | Gives back exactly the runtime's own listeners |
| `Listeners.ContainerRuntime.Cycle` | service_runtime.go:42-183 | A start and the stop after it leave the host as it was |
| `Listeners.ContainerRuntime.Reopen` | service_runtime.go:42-183 | A start after a stop is on the ports of the first start, with a listener at each, or fails |
| `Listeners.StandingServes` | service_runtime.go:357-400 | Every tcp binding has a listener at its port on the loopback address, where none or every address was named, else on the host named; so has every endpoint that must; and no listener is without reason |
| `Listeners.StandingGrows` | service_runtime.go:74-107 | Opening one more listener leaves every earlier one serving |
| `Shutdown.GateKept` | service_runtime.go:402-482 | Many readers or one writer, matching where the threads are; nobody is inside a start once closing is set |
| `Shutdown.LocksKept` | service_runtime.go:42-183 | A lifecycle lock has one holder and a starting runtime is inactive |
| `Shutdown.RunSound` | service_runtime.go:145-482 | The gate, lock, closing and connection invariants hold in every interleaving |
| `Shutdown.NoActivation` | service_runtime.go:402-425 | No step after the closing mark activates a runtime |
| `Shutdown.ClosingIsFinal` | service_runtime.go:464-482 | From the moment closing is set the mark stays and no runtime becomes active |
| `Shutdown.ClosedMeansInactive` | service_runtime.go:464-482 | After closeRuntimes has returned every mapped runtime is inactive, for good |
| `Closings.ClosingLeavesExactly` | service_runtime.go:464-482 | Over every interleaving a call leaves a runtime active if and only if it was active at the call's entry and unmapped when the call listed the runtimes |
| `Closings.ClosingIsTotalExactly` | service_runtime.go:464-482 | Nothing at all is active after a call if and only if every runtime active at its entry was still mapped at its listing |
| `Closings.UnmapsOnlyRestarted` | engine_core.go:233-237 | Over every interleaving a removal unmaps an active runtime only if a start finished after the removal's own stop had begun |
| `Closings.RemovalLeaks` | engine_core.go:233-237 | The run in which a removal stops nothing, the container is started, the removal unmaps it, and the closer leaves it active |
| `Shutdown.NoConnectionEscapes` | service_runtime.go:145-208 | A connection of a stopped runtime is closed; one offered to an inactive runtime is refused and closed; no registered one is lost |
| `Shutdown.SnapshotIsComplete` | service_runtime.go:149-163 | The snapshot a stop closes is every unfinished connection of the runtime it deactivates |
| `ShutdownEffects.NeverStuck` | service_runtime.go:42-482 | Over every interleaving a thread inside a start, stop or close can go on, or waits for a lock whose holder can |
| `ShutdownEffects.StepsRunOut` | service_runtime.go:42-482 | Every step inside an operation leaves its thread fewer steps to go |
| `ShutdownEffects.RegisterEffect` | service_runtime.go:191-201 | An active runtime takes a connection in; any other closes it and keeps nothing of it |
| `ShutdownEffects.FinishConnectionEffect` | service_runtime.go:203-208 | A connection that ends leaves its runtime and is closed |
| `ShutdownEffects.LookupStartEffect` | service_runtime.go:409-415 | A start finds the container's runtime or gives it a new inactive one |
| `ShutdownEffects.LockEffect` | service_runtime.go:42-51 | A lifecycle lock is taken exactly when nobody holds it; a start leaves an active runtime alone |
| `ShutdownEffects.FinishStartEffect` | service_runtime.go:113-121 | A runtime is active after a start exactly when it succeeded |
| `ShutdownEffects.StopEffect` | service_runtime.go:145-170 | A stop deactivates the runtime and closes exactly the connections it had then |
| `ShutdownEffects.CloserWaits` | service_runtime.go:464-467 | The closer gets in exactly when no thread is inside a start, a stop or a close |
| `ShutdownEffects.CloserEffect` | service_runtime.go:464-474 | Once in it keeps every start and stop out and has exactly the mapped runtimes to stop |
| `JsonTokens.JsonStringTokenStart` | diagnostic.go:261-282 | The index loops compute the last quote with an even run of backslashes before it |
| `JsonTokens.QuotesInsideAreEscaped` | diagnostic.go:269-280 | Inside a well-formed literal (section 7 of RFC 8259) every quote has an odd run of backslashes before it |
| `JsonTokens.BackwardScanExact` | diagnostic.go:261-282 | For any buffer, literal and trailing whitespace, the scan returns the opening quote if and only if an even run of backslashes precedes it |
| `JsonPointers.EscapeIsCharwise` | diagnostic.go:351-354 | The two replacement passes escape character by character |
| `JsonPointers.EscapeWritten` | diagnostic.go:351-354 | A tilde becomes ~0, a slash ~1, and nothing else changes, wherever they stand (sections 3 and 4 of RFC 6901) |
| `JsonPointers.UnescapeInverts` | cookbook_load.go:128-136 | Unescaping inverts escaping for every string |
| `JsonPointers.LastSegmentRoundTrip` | cookbook_load.go:128-136 | The last segment of any path extended with an escaped key decodes to that key |
| `JsonPointers.PointerInjective` | diagnostic.go:217-230 | Different segment lists have different pointers |
| `JsonPointers.ScanRecords` | diagnostic.go:217-243 | Scanning a value adds exactly its own nodes and keeps every older entry elsewhere |
| `JsonPointers.RefusedExactly` | diagnostic.go:218-228 | A document is refused if and only if some object in it repeats a key |
| `JsonPointers.LocationsExact` | diagnostic.go:170-192 | The table of an accepted tree has one entry, with the node's offset, for every node and no other |
| `JsonDocuments.ScanValue` | diagnostic.go:194-255 | The recursive pass over the decoder's tokens, finding each key by the backward scan, fills the table and rejects repeated keys |
| `JsonDocuments.ScanFindsQuotes` | diagnostic.go:216-216 | Wherever a well-written document stands, the backward scan from each key's end finds that key's opening quote |
| `JsonDocuments.KeysAreLocated` | diagnostic.go:167-192 | Over the text of every well-written document without repeated keys, the table holds under each key's pointer the index where its own literal opens |
| `Resp.PrintedIsAccepted` | cookbook_responses.go:69-137 | Every frame tree within the bounds prints to bytes the parser accepts and consumes exactly |
| `Resp.AcceptedIsPrinted` | cookbook_responses.go:69-137 | Whatever the parser accepts is a printed frame within the bounds |
| `Resp.ParserExact` | cookbook_responses.go:69-137 | The parser accepts, leaving a rest, if and only if the text is a well-formed frame followed by that rest |
| `Resp.ReplyExact` | cookbook_responses.go:47-67 | A cookbook reply is valid if and only if it is one or more well-formed frames and nothing else |
| `RespReaders.Reader.ReadRespLine` | cookbook_responses.go:139-148 | Up to the newline, which a carriage return must precede |
| `RespReaders.Reader.ParseFrame` | cookbook_responses.go:69-137 | The cursor-advancing parser computes the frame parser and terminates by remaining input |
| `RespReaders.ValidateReply` | cookbook_responses.go:47-67 | The frame loop decides exactly the valid replies |
| `RespReaders.Reader.ReadRequest` | service_redis.go:284-331 | The cursor-advancing reader computes the command reader, inline and array forms |
| `RespReaders.Reader.ReadArguments` | service_redis.go:302-329 | The argument loop reads that many bulk strings in order |
| `RespCommands.CommandRoundTrip` | service_redis.go:284-335 | Up to 1024 binary-safe arguments of up to 16 MiB come back, and nothing after them is touched |
| `RespCommands.SessionRoundTrip` | service_redis.go:284-335 | A pipelined session comes back command by command, in order, leaving what follows |
| `InlineCommands.InlineExact` | service_redis.go:289-295 | A line, ended by a newline with or without a carriage return, comes back as exactly its words, leaving what follows, whatever the blanks before, between and after them, if and only if it begins with neither a star nor a byte outside ASCII |
| `InlineCommands.BlankLine` | service_redis.go:289-295 | A line of blanks is an empty command |
| `InlineCommands.LoneNewline` | service_redis.go:284-295 | A newline in first place is blank space before the next line, not a line of its own |
| `InlineCommands.ArrayExact` | service_redis.go:297-331 | An array command is read as these arguments, leaving this rest, if and only if it is written as them: at most 1024, each of at most 16 MiB, with terminators in place |
| `RespReplies.InfoExact` | redis_replication.go:353-383 | The INFO text fits the bulk bound if and only if the server is a master or its host leaves room for the rest of the text |
| `RespReplies.ReplyIsOneFrame` | redis_replication.go:10-134 | The reply to a recognised bounded command is exactly one frame the validator itself would accept, if and only if it is not a replica's INFO or ROLE with too long a host |
| `ReplyRuns.RunBounds` | redis_replication.go:10-134 | In every run, in any topology, stored values stay within 16 MiB and ports within 65535 |
| `ReplyRuns.RepliesAreFrames` | redis_replication.go:10-134 | In every run, in any topology, every reply to a recognised bounded command is one frame if and only if the host fits |
| `ReplyRuns.LongHostAccepted` | redis_replication.go:105-121 | REPLICAOF with a host of up to 16 MiB is a bounded command and is answered OK |
| `ReplyRuns.LongHostBreaksInfo` | redis_replication.go:87-88 | After it, with any host in the last 50 bytes, INFO is no accepted frame |
| `RespReplies.WritesAreAcknowledged` | redis_replication.go:10-86 | A master writes exactly for SET, DEL and INCR, and exactly when it does not answer a fault |
| `RespReplies.SetIsRead` | redis_replication.go:30-52 | SET answers OK; a later GET command answers the value set, and for any other key what it answered before |
| `RespReplies.DelIsRead` | redis_replication.go:53-65 | DEL answers the number of keys the store lost, repeats counted once; a later GET command answers nil for exactly the named keys |
| `RespReplies.IncrIsRead` | redis_replication.go:75-86 | INCR answers the number a later GET command answers |
| `ReplyEffects.IncrCounts` | redis_replication.go:75-86 | INCR counts up from any number written in decimal, wraps at 64 bits, and takes one out of range for the nearest bound |
| `ReplyEffects.IncrStarts` | redis_replication.go:79-81 | From no key, or a text that is no number, INCR answers one |
| `ReplyEffects.ExistsIsRead` | redis_replication.go:65-74 | EXISTS answers how many of its keys, repeats counted, a GET answers with a value |
| `ReplyEffects.EchoAnswers` | redis_replication.go:18-29 | PING and ECHO answer what they are given, in any spelling of their names |
| `ReplyEffects.FixedAnswers` | redis_replication.go:122-134 | The commands accepted without effect and those that list nothing |
| `ReplyEffects.FaultsExactly` | redis_replication.go:10-134 | A recognised command is answered a fault if and only if it writes to a replica, has a wrong number of arguments, or names a bad port |
| `ReplyEffects.ClientAnswers` | redis_replication.go:124-129 | CLIENT GETNAME answers nil, any other CLIENT is accepted without effect |
| `ReplyEffects.ValueIsReadBack` | service_redis.go:333-335 | A value answered is read back whatever bytes it holds |
| `ReplyEffects.BytesWritten` | redis_replication.go:10-134 | The bytes of every kind of reply |
| `ReplyEffects.RoleBytes` | redis_replication.go:89-104 | The bytes of ROLE's two replies |
| `ReplyEffects.ReplicaOfAnswered` | redis_replication.go:105-121 | REPLICAOF is answered OK if and only if it redirects or promotes; otherwise it is refused and nothing changes |
| `ReplyEffects.RoleTells` | redis_replication.go:89-104 | ROLE tells the role, and of a replica its host, its port and connected exactly when the link is up |
| `ReplyEffects.InfoOfReplica` | redis_replication.go:353-366 | A client that looks up fields in a replica's INFO finds its role, host and port, and up exactly when the link is, for every host without a newline |
| `ReplyEffects.InfoOfMaster` | redis_replication.go:367-383 | In a master's INFO it finds the number of Redis containers linked to it |
| `ReplyEffects.InfoTells` | redis_replication.go:353-383 | In either it finds the seed and the health |
| `RespReplies.UnknownReplyExact` | redis_replication.go:135-137 | The reply to an unknown command is one frame if and only if the name has neither newline nor NUL |
| `ImageMatch.SplitIsCanonical` | image_match.go:49-69 | Splitting repository plus qualifier of any split gives the same pair back, for every string |
| `ImageMatch.SplitWritten` | image_match.go:49-57 | Repository, tag and digest are told apart at the places they were joined |
| `ImageMatch.CanonicalStands` | image_match.go:58-68 | A canonical repository is its own canonical form and may stand wherever the original stood |
| `ImageMatch.HubRepositoriesAgree` | image_match.go:58-68 | An official image has one canonical repository under every Docker Hub host spelling, with or without library |
| `ImageMatch.ScoreOf` | image_match.go:17-34 | The loop over names finds 2 for an explicit match, else 1 for a bare one, else 0 |
| `ImageMatch.CookbookFor` | image_match.go:10-47 | The cookbook returned is the unique one of greatest positive score; a tie is ambiguous, no positive score unmatched |
| `ImageEffects.ChosenMeans` | image_match.go:10-47 | The cookbook chosen is the only one with a name for the image's repository and tag, latest where none is written, or, where no cookbook has one, the only one with a bare name for the repository |
| `ImageEffects.OtherwiseMeans` | image_match.go:35-46 | Ambiguous exactly when two cookbooks have such a name; unmatched exactly when none has either kind |
| `ImageEffects.ExactWritten` | image_match.go:17-34 | As written: a name with tag or digest is for the image with the same ones, one that says latest also for the image with none, one without for all |
| `ImageEffects.LatestIsExact` | image_match.go:27-33 | An untagged official image is named exactly by its latest tag under each Docker Hub host |
| `ImageEffects.NoHostMeansHub` | image_match.go:58-68 | A repository whose first component is no host belongs to Docker Hub, under library when it has one component |
| `ImageEffects.HostIsKept` | image_match.go:58-68 | A registry host is kept as written, but for the three of Docker Hub, which are one |
| `ImageMatch.ChoiceUnique` | image_match.go:35-46 | The scores have one verdict |
| `ImageMatch.SwapKeepsChoice` | image_match.go:15-46 | Visiting two cookbooks in the other order chooses the same cookbook |

## Left out

- Clock values, log lines, the ledger, labels, volumes, MAC addresses, endpoint IDs and JSON documents: recorded beside the modelled state, never read by it.
- HTTP routing and handlers: they only sequence the engine operations modelled here. Lifecycle edges made by `advance` in handlers that do not sync the runtime afterwards (logs, top, stop) are taken, in replication, to be followed by such a sync.
- SHA-256 identifiers: parameters that are fresh where the program generates them.
- Sockets, goroutines, deadlines and the WaitGroup: the listen oracle and the lock-region steps stand for them; that a stop returns rests on fair scheduling, beyond `NeverStuck` and `StepsRunOut`.
- Unicode: strings are bytes, and trimming, case folding and word splitting are those of ASCII.
- Integer width: RestartCount, StartCount, counters and process numbers are unbounded; the 64-bit increment of Redis values is modelled with its wrap-around.
- Waiter channels: a waiter is named by a number instead of a pointer, and its channel is never drained, the worst case for the sender.
- Network objects: a network is a value in the engine's map, replaced on change, so aliasing of one network object is not represented.
- Engine operations are single steps, except in waiting, shutdown, removal, write propagation and refresh; the address write after connect releases the lock is taken together with it.
- Engines.Engine.RemoveContainer: is the removal that nothing comes between; `RemovalRaces` says what else may happen, and whether a container runs is a mark that lifecycle steps set.
- Name validation, cookbook and seed selection before createContainer takes the lock: checks on the arguments alone.
- ReplicationRuns.ReplicaAgreement: stated for star topologies, where every host a replica follows means masters nobody made a replica and a followed master is not redirected; `WriteAgreementExact` says what chaining costs. Writes and propagations are one step there; `WriteRaces` takes them apart.
- Shutdown.ClosedMeansInactive: speaks of mapped runtimes; `ClosingLeavesExactly` says which others are left.
- Resolvers.EngineView: a record's container is looked up by its name as recorded, since validated names are unchanged by the lookup's trimming.
- The --replicaof argument: a container's `target` is given; finding it on the command line is one forward scan.
- Non-ASCII first bytes: the two that become white space as code points, 0x85 and 0xA0, are modelled as such; white space written as several bytes later in a line is not.
- The encoding/json decoder: it hands over keys, their ends and the tree; how it reads scalars, decodes escapes in keys and reports array positions is its own.
- The nginx handler, scripted responses, API versions, label filters and the older RedisMock listener: short or repeated logic.
