# Warden Linux backend: a verified model

The backend creates Linux containers and gives each a uid, a /30 network and host ports
from pools. It fetches docker layers for their file systems, tracks the processes running
in them through link processes that can be detached and restored, saves and restores
snapshots, and starts programs inside through `wsh` and the `wshd` daemon. The vendored
protocol buffer codec carries the API messages.

One module a component:

- `LayerFetch`, `FetchOutcomes`: the layer fetcher, as a state machine over any number of
  `Fetch` calls, and how each call ends by the answers it got.
- `Processes`, `ProcessExits`: linking, detaching and the process table, as a state machine
  over goroutines, and what `Wait` gives.
- `Subnets`, `Pools`: address arithmetic, carving a CIDR, and the three pool objects.
- `Ownership`: who holds which uid, network and port over whole runs, on values.
- `Moves`: what each operation takes and gives back.
- `PortRuns`, `Addresses`, `Restart`: ports from start-up on and refused snapshots, host and
  container addresses, and restarting the daemon.
- `Containers`: a container's recorded state, snapshot and replay.
- `Backend`: the container pool and backend objects, proved to take the steps of `Ownership`.
- `Messages`, `Exec`: the way of a command line from process spec to `execvpe`.
- `PidTable`: the daemon's table from child pid to status descriptor.
- `ContainerIds`: the id counter.
- `Varints`, `Wire`, `Buffers`: varints, field skipping, and the in-place encoder.

Objects that the source updates in place are classes. Each method is tied to a function on
values, and the theorems about whole runs are proved of those functions. Code that runs
concurrently is a state machine whose steps are its atomic sections. Answers of the registry,
scripts, cgroup files, `waitpid`, `dup` and the clock are inputs of the steps, so every
failure is covered.

Where a desired property does not hold of the code, the model keeps the code and states the
exact condition:

- A snapshot refused in the port loop frees all ports it lists, also those of a running
  container (`RestoreKeepsPortsIff`, `EveryRefusalRollsBack`, `RefusedSnapshotSharesPort`).
- It also puts its own addresses into the pool, since networks are found by their range
  alone; later containers get them (`EveryRefusalRollsBack`, `AddressesGenuineIff`,
  `RefusedSnapshotSharesAddresses`).
- Snapshots with disjoint ports can still clash, when the replay of one takes a port from
  the pool that a later one lists (`PortsNeverShared`, `ReplayTakesListedPort`).
- A create that fails for its root file system or its files, or does not start, keeps its
  uid and network out of the pools (`FailedCreateGivesBackIff`).
- Giving out a process id that an older linker has still to unregister can drop the new
  process from the table (`IdIsSafeIffFree`).
- The process counter wraps after the largest uint32 (`CounterAboveIff`).
- A snapshot does not carry back CPU, disk and bandwidth limits (`SnapshotRoundTrip`).
- A path that starts with a dash is read as an option (`PipelineIsExact`).
- Fetch guarantees exactly the layers of the history it was given, so an empty history
  counts as fetched (`GuaranteedIff`, `EmptyHistorySucceeds`).
- The network pool cannot be made from an IPv6 CIDR (`V6PoolEndsIff`).
- Skipping a group does not compare the tag of the end key with that of the start key; the
  grammar in `Wire` says so.
- The comment beside `Unlink` names only an exited link for a missing token; the second of
  two `Unlink` calls ends there too, and the model follows the code.

## Model

| member | source | states |
|---|---|---|
| LayerFetch.DockerRepositoryFetcher.constructor | linux_backend/container_pool/repository_fetcher/repository_fetcher.go:42-50 | a new fetcher has no layer in flight and no channel |
| LayerFetch.DockerRepositoryFetcher.Fetching | linux_backend/container_pool/repository_fetcher/repository_fetcher.go:139-152 | the first caller for a layer takes it with a new channel; any other gets the channel to wait on and changes nothing |
| LayerFetch.DockerRepositoryFetcher.DoneFetching | linux_backend/container_pool/repository_fetcher/repository_fetcher.go:154-159 | closes the layer's channel and drops its entry, or panics and changes nothing if it is missing or closed |
| LayerFetch.StepKeepsInv | linux_backend/container_pool/repository_fetcher/repository_fetcher.go:52-159 | the lock invariant survives every step of every goroutine |
| LayerFetch.RunKeepsInv | linux_backend/container_pool/repository_fetcher/repository_fetcher.go:52-159 | so it holds in every reachable state, for any number of calls, failures and retries |
| LayerFetch.LockIsSafe | linux_backend/container_pool/repository_fetcher/repository_fetcher.go:99-159 | in every reachable state: no panic, one holder per layer, an entry for exactly the held layers, each channel closed at most once and by its maker, and as soon as the layer is let go |
| LayerFetch.SomeoneCanStep | linux_backend/container_pool/repository_fetcher/repository_fetcher.go:83-152 | a call that has not returned can step, or waits for a layer whose holder can: no wakeup is lost |
| LayerFetch.HolderEvent | linux_backend/container_pool/repository_fetcher/repository_fetcher.go:108-136 | a holder always has an enabled next step |
| LayerFetch.QuiescentMeansReturned | linux_backend/container_pool/repository_fetcher/repository_fetcher.go:52-159 | no deadlock: a reachable state in which nothing can step has only returned calls |
| LayerFetch.StepMakesProgress | linux_backend/container_pool/repository_fetcher/repository_fetcher.go:52-159 | every step lowers (endpoints left, layers left, steps left) lexicographically |
| LayerFetch.EveryRunEnds | linux_backend/container_pool/repository_fetcher/repository_fetcher.go:52-159 | without new calls no schedule is infinite, fair or not |
| LayerFetch.RegisterKeepsGraphInv | linux_backend/container_pool/repository_fetcher/repository_fetcher.go:129-132 | a successful registration adds a layer that was absent, and disturbs no other call |
| LayerFetch.MatchedStepKeepsGraphInv | linux_backend/container_pool/repository_fetcher/repository_fetcher.go:83-137 | every step with matching image ids, whatever the histories, keeps the layers walked over in the graph and the registrations distinct |
| LayerFetch.MatchedRunKeepsGraphInv | linux_backend/container_pool/repository_fetcher/repository_fetcher.go:83-137 | so does every run |
| LayerFetch.RegisteredOnce | linux_backend/container_pool/repository_fetcher/repository_fetcher.go:99-137 | over every run with matching image ids and arbitrary histories, no layer is registered twice or over an old one, and none disappears |
| LayerFetch.GuaranteedIff | linux_backend/container_pool/repository_fetcher/repository_fetcher.go:83-97 | a layer is in the graph at the end of every walk over history h, in all runs, if and only if h lists it |
| LayerFetch.ChainGuaranteedIff | linux_backend/container_pool/repository_fetcher/repository_fetcher.go:83-97 | the chain of an image is guaranteed if and only if the history lists all of it |
| LayerFetch.WalkAddsNothing | linux_backend/container_pool/repository_fetcher/repository_fetcher.go:83-108 | for every history, a run that walks it from exactly its layers and leaves the graph as it was |
| LayerFetch.HonestStepKeepsChainInv | linux_backend/container_pool/repository_fetcher/repository_fetcher.go:52-137 | with true histories every step keeps the graph ancestor-closed |
| LayerFetch.HonestRunKeepsChainInv | linux_backend/container_pool/repository_fetcher/repository_fetcher.go:52-137 | and every run does |
| LayerFetch.GraphIsComplete | linux_backend/container_pool/repository_fetcher/repository_fetcher.go:52-137 | over every run with true histories the graph stays ancestor-closed, and an image returned by Fetch has its whole chain in the graph |
| LayerFetch.EmptyHistorySucceeds | linux_backend/container_pool/repository_fetcher/repository_fetcher.go:83-97 | the plainest failure: on an empty history Fetch succeeds with nothing in the graph |
| FetchOutcomes.FetchEndsAsAnswered | linux_backend/container_pool/repository_fetcher/repository_fetcher.go:52-137 | over every interleaving a call that returned, begun for img over n endpoints, asked at most n, returned an error if and only if each of the n answered it with one (failed history, image json, layer or registration), and img if and only if some endpoint's answers to it all succeeded |
| FetchOutcomes.FetchDownloads | linux_backend/container_pool/repository_fetcher/repository_fetcher.go:83-137 | with matching ids, every layer of the history a successful call was served with is in the graph, which gained nothing but layers of answered histories |
| FetchOutcomes.ErrorFreeFetch | linux_backend/container_pool/repository_fetcher/repository_fetcher.go:72-137 | a fetch that meets no error, once nothing is left to do, has returned its image and left the graph with exactly every layer of its history added |
| Processes.ProcessTracker.constructor | linux_backend/process_tracker/process_tracker.go:42-52 | ids start at 1 |
| Processes.ProcessTracker.Register | linux_backend/process_tracker/process_tracker.go:54-66 | a run takes the next id; the counter is a uint32 |
| Processes.ProcessTracker.Restore | linux_backend/process_tracker/process_tracker.go:101-113 | a restored id is entered and the counter is moved past it |
| Processes.ProcessTracker.Unregister | linux_backend/process_tracker/process_tracker.go:157-162 | removes whatever the id names at that time |
| Processes.StepKeepsLinkInv | linux_backend/process_tracker/process.go:183-314 | the token, mutex and channel invariant survives every step of linkers, unlinkers and waiters |
| Processes.RunKeepsLinkInv | linux_backend/process_tracker/process.go:183-314 | so it holds in every reachable state |
| Processes.LinkProtocolIsSafe | linux_backend/process_tracker/process.go:79-314 | in every interleaving: the linked channel is closed at most once, at most one interrupt is sent and by one Unlink, an interrupted process is never completed, and all Waits that return agree |
| ProcessExits.WaitGivesTheEnd | linux_backend/process_tracker/process.go:79-89 | over every run at most one event ends a link of a process (the exit that came with the token, or status -1 and the error of a link that did not start), and every Wait that returned gave just that |
| ProcessExits.ExitCanBeWaitedFor | linux_backend/process_tracker/process.go:217-314 | for every exit a run in which Wait gives it, of a process that was run and of one that was only restored |
| ProcessExits.StartErrorCanBeWaitedFor | linux_backend/process_tracker/process.go:217-270 | and for every error of starting the link |
| Processes.StepKeepsTableInv | linux_backend/process_tracker/process_tracker.go:54-162 | the table invariant survives every step, if ids are given out only when free |
| Processes.RunKeepsTableInv | linux_backend/process_tracker/process_tracker.go:54-162 | so it holds after every such run |
| Processes.DetachedStaysListed | linux_backend/process_tracker/process_tracker.go:101-162 | if ids are given out only when free, a process leaves the table only after its linker completed it, so a detached one stays listed under its id |
| Processes.CounterAboveIff | linux_backend/process_tracker/process_tracker.go:54-113 | after any run the counter is above every id ever registered if and only if the largest uint32 was never one |
| Processes.FreshIdsLoseNone | linux_backend/process_tracker/process_tracker.go:54-162 | if restored ids are free and the largest uint32 is never reached, new ids are fresh by themselves, no unfinished process is lost and the counter stays above |
| Processes.NewIdsLoseNone | linux_backend/process_tracker/process_tracker.go:54-162 | in particular if every restored id was never used before |
| Processes.IdIsSafeIffFree | linux_backend/process_tracker/process_tracker.go:54-162 | after any run that gave out only free ids: giving an id to a new or restored process can lose no unfinished process, in any continuation that gives out only free ids, if and only if the id is free: neither listed nor still to be unregistered |
| Processes.UnfreeLoses | linux_backend/process_tracker/process_tracker.go:141-162 | for every id that is not free, the largest included, a continuation that loses a process |
| Subnets.Inc | linux_backend/network_pool/network_pool.go:135-142 | the carry loop gives the incremented address |
| Subnets.IncAddsOne | linux_backend/network_pool/network_pool.go:135-142 | incrementing adds one modulo the size of the address space, for any number of bytes |
| Subnets.NextAddress | linux_backend/network/network.go:73-86 | the next address of an IPv4 address is the next number, and leaves IPv4 only after the last |
| Subnets.NextSubnet | linux_backend/network_pool/network_pool.go:119-133 | the network four addresses on, or a step out of IPv4 after the last |
| Subnets.NewPool | linux_backend/network_pool/network_pool.go:41-60 | the loop ends for every IPv4 CIDR, also at the top of the address space, with exactly the blocks specified |
| Subnets.PoolPartitionsCidr | linux_backend/network_pool/network_pool.go:41-60 | for a prefix p of at most 30: 2^(30-p) networks, and an address is in the CIDR if and only if it is in one of them, and then in exactly one |
| Subnets.BlockNumbers | linux_backend/network/network.go:15-21 | block k starts 4k above the CIDR; host and container take its second and third address |
| Subnets.PoolAddressesDistinct | linux_backend/network/network.go:15-21 | no two host, container or network addresses of the pool coincide |
| Subnets.PoolInsideCidr | linux_backend/network_pool/network_pool.go:100-109 | every pooled network passes the containment test of Release |
| Subnets.BlocksAreNew | linux_backend/network_pool/network_pool.go:49-51 | every pooled network has the addresses made for its range |
| Subnets.V6StandsStill | linux_backend/network_pool/network_pool.go:119-133 | on an IPv6 address the subnet after any number of rounds is the first one |
| Subnets.V6PoolEndsIff | linux_backend/network_pool/network_pool.go:41-60 | so on an IPv6 CIDR the loop ends if and only if its first subnet is outside, and then makes no network |
| Pools.NumberRange | linux_backend/uid_pool/unix_uid_pool.go:31-38 | the constructor loop, with the uint32 wrap of its bound |
| Pools.UidPool.constructor | linux_backend/uid_pool/unix_uid_pool.go:31-46 | all uids of the range are free |
| Pools.UidPool.Acquire | linux_backend/uid_pool/unix_uid_pool.go:52-65 | hands out the head, or reports exhaustion |
| Pools.UidPool.Remove | linux_backend/uid_pool/unix_uid_pool.go:67-89 | takes out the first occurrence, or reports the uid taken and changes nothing |
| Pools.UidPool.Release | linux_backend/uid_pool/unix_uid_pool.go:91-100 | appends a uid of the range, ignores any other |
| Pools.PortPool.constructor | linux_backend/port_pool/port_pool.go:30-43 | all ports of the range are free |
| Pools.PortPool.Acquire | linux_backend/port_pool/port_pool.go:45-58 | hands out the head, or reports exhaustion |
| Pools.PortPool.Remove | linux_backend/port_pool/port_pool.go:60-82 | takes out the first occurrence, or reports the port taken and changes nothing |
| Pools.PortPool.Release | linux_backend/port_pool/port_pool.go:84-99 | appends a port of the range that is not free already, ignores any other |
| Pools.NetworkPool.constructor | linux_backend/network_pool/network_pool.go:41-60 | all blocks of the CIDR are free |
| Pools.NetworkPool.Acquire | linux_backend/network_pool/network_pool.go:62-74 | hands out the head, or reports exhaustion |
| Pools.NetworkPool.Remove | linux_backend/network_pool/network_pool.go:76-98 | takes out the first network with the same range, whatever its addresses, and keeps the others in order, or reports it taken and changes nothing |
| Pools.NetworkPool.Release | linux_backend/network_pool/network_pool.go:100-109 | appends the given network, with its addresses, if its range is inside the CIDR, ignores any other |
| Ownership.CreateKeeps | linux_backend/container_pool/container_pool.go:157-244 | a create, wherever it fails, keeps uids, networks and ports partitioned into free, held and lost |
| Ownership.FailedCreateGivesBackIff | linux_backend/container_pool/container_pool.go:157-244 | a create without a container leaves uids and networks as they were if and only if a pool was empty or the creation script failed |
| Ownership.DestroyKeeps | linux_backend/container_pool/container_pool.go:318-337 | a destroy keeps all three partitioned |
| Moves.CreateGives | linux_backend/container_pool/container_pool.go:157-244 | a successful create takes one uid and one network off the free lists and gives them to the handle; nothing else changes but that a container already there is lost |
| Moves.DestroyGivesBack | linux_backend/container_pool/container_pool.go:318-337 | a successful destroy removes the handle and no other container, and the free lists are the old ones and the container's uid, network and ports, with nothing lost; a failing one changes nothing |
| Moves.RestoreGives | linux_backend/container_pool/container_pool.go:246-316 | an accepted and replayed snapshot goes to its handle with its own uid, network and ports and those the replay took, and the free lists are the old ones without these |
| Moves.NetInGives | linux_backend/linux_container.go:623-645 | a mapping of host port 0 gives the container one free port; any other changes no holding |
| Moves.MaxContainersReached | linux_backend/container_pool/container_pool.go:94-101 | MaxContainers is tight: that many creates from start-up all succeed |
| Ownership.RestoreKeeps | linux_backend/container_pool/container_pool.go:246-316 | a restore of any snapshot, accepted or refused, keeps uids and networks partitioned |
| Ownership.NetInKeepsPorts | linux_backend/linux_container.go:623-668 | a port mapping, also one whose script fails, keeps the ports partitioned |
| Ownership.RunKeeps | linux_backend/linux_backend.go:128-165 | every sequence of backend operations keeps uids and networks partitioned |
| Ownership.ResourcesConserved | linux_backend/container_pool/container_pool.go:94-101 | after any run from start-up: free + live + lost equals the initial pool for uids and for networks, no two live containers share a uid or a range, and MaxContainers bounds the live ones |
| Addresses.RestoreKeepsGenuineIff | linux_backend/container_pool/container_pool.go:258-316 | a restore keeps all free and live networks with the addresses made for their ranges if and only if it does not bring others into the pool or to a live container |
| Addresses.AddressesGenuineIff | linux_backend/network_pool/network_pool.go:62-109 | so over every run, at every step, if and only if no restore does |
| Addresses.AddressesNeverShared | linux_backend/network/network.go:15-21 | over every such run no two live containers share a host or container address |
| Addresses.RefusedSnapshotSharesAddresses | linux_backend/container_pool/container_pool.go:271-283 | after a refused snapshot with the addresses of another range, two created containers share their addresses |
| Ownership.AcceptedRestoreKeepsPorts | linux_backend/container_pool/container_pool.go:271-316 | an accepted snapshot keeps the ports partitioned |
| Ownership.RestoreKeepsPortsIff | linux_backend/container_pool/container_pool.go:258-283 | a restore keeps the ports partitioned if and only if the snapshot is refused before the port loop or lists no in-range port in use |
| PortRuns.RunKeepsFreePorts | linux_backend/port_pool/port_pool.go:45-99 | after any run the free ports are distinct and in range, shared ports or not |
| PortRuns.RefusalRollsBack | linux_backend/container_pool/container_pool.go:258-283 | a refused snapshot leaves uids and ranges with the same elements; the networks with their addresses too if and only if it was refused before the port loop or carries the pooled network; and the ports if and only if it was refused before the port loop or lists no in-range port in use |
| PortRuns.EveryRefusalRollsBack | linux_backend/container_pool/container_pool.go:258-283 | that holds after every run from start-up |
| PortRuns.StartUpPortsIff | linux_backend/linux_backend.go:254-265 | over restores of snapshots with disjoint port lists, ports stay partitioned at every step if and only if no snapshot that reaches the port loop lists a port an earlier replay took |
| PortRuns.NamedMappingsNeverClash | linux_backend/linux_container.go:267-272 | snapshots whose recorded mappings name their host ports meet that condition |
| PortRuns.ServingKeepsPorts | linux_backend/linux_backend.go:128-165 | requests after start-up keep the ports partitioned at every step |
| PortRuns.PortsNeverShared | linux_backend/port_pool/port_pool.go:45-99 | over start-up restores followed by any requests, a pooled port is free, with exactly one container, or lost, at every step, if and only if no snapshot clashes with an earlier replay |
| PortRuns.RefusedSnapshotFreesHeldPort | linux_backend/container_pool/container_pool.go:271-283 | every held port a refused snapshot lists is put on the free list |
| PortRuns.RefusedSnapshotSharesPort | linux_backend/container_pool/container_pool.go:271-283 | from any state without containers and with two uids, two networks and a port free: a run that leaves a port both free and with a live container |
| PortRuns.ReplayTakesListedPort | linux_backend/linux_container.go:623-645 | a start-up with disjoint port lists that shares a port, because a replay takes what the next snapshot lists |
| Containers.LinuxContainer.constructor | linux_backend/linux_container.go:99-135 | a new container is born with no events, limits, mappings or processes |
| Containers.LinuxContainer.NetIn | linux_backend/linux_container.go:623-668 | succeeds if and only if the script does and a host port was named or is free; answers and records that host port and the named container port, or the host port if 0; a port taken is recorded also if the script fails |
| Containers.LinuxContainer.NetOut | linux_backend/linux_container.go:670-715 | succeeds if and only if the script does and the rule is not empty, and then records just it |
| Containers.LinuxContainer.LimitMemory | linux_backend/linux_container.go:508-538 | succeeds if and only if the notifier runs or starts and the cgroup writes succeed, and only then records the limit |
| Containers.LinuxContainer.Prepare | linux_backend/linux_container.go:239-265 | state, events, memory limit and processes of the snapshot, up to the set-up command |
| Containers.LinuxContainer.ReplayNetIns | linux_backend/linux_container.go:267-272 | replays the mappings in order and stops at the first failure |
| Containers.LinuxContainer.ReplayNetOuts | linux_backend/linux_container.go:274-279 | replays the rules in order and stops at the first failure |
| Containers.LinuxContainer.Restore | linux_backend/linux_container.go:239-282 | the whole replay, with the ports it takes from the pool and its error returns |
| Containers.RestoreSucceedsIff | linux_backend/linux_container.go:239-282 | a restore succeeds if and only if every command does, no rule is empty and the pool has a port for every mapping that asks for one |
| Containers.ReplayInsStops | linux_backend/linux_container.go:267-272 | the replay of mappings stops at its first failing command, with those before it recorded |
| Containers.ReplayOutsStops | linux_backend/linux_container.go:274-279 | the replay of rules stops at its first failing command, with exactly those before it recorded |
| Containers.LinuxContainer.TakeSnapshot | linux_backend/linux_container.go:175-237 | the snapshot holds every recorded part and each tracked process once |
| Containers.RestoreTookPorts | linux_backend/linux_container.go:267-272 | a restore, also a failing one, takes a prefix of the free ports and records exactly those |
| Containers.ReachableIsReplayable | linux_backend/linux_container.go:623-715 | in every reachable container all recorded mappings name their ports and all rules would be accepted again |
| Containers.RestoreRebuilds | linux_backend/linux_container.go:239-282 | replaying a snapshot with succeeding commands gives the container back, except CPU, disk and bandwidth limits, without touching the pool |
| Containers.SnapshotRoundTrip | linux_backend/linux_container.go:175-282 | for every reachable container snapshot, restore, snapshot is the identity up to process order and those limits, and on the limits if and only if none of the three was set |
| Restart.SnapshotReplays | linux_backend/linux_container.go:239-282 | replaying the snapshot of a reachable container with succeeding commands takes no port and succeeds |
| Restart.RestartRestoresAll | linux_backend/linux_backend.go:209-265 | after any run with its ports in order, restoring the snapshots of all live containers in any order into full pools brings back the same containers with the same uids, networks and ports, and loses nothing |
| Backend.LinuxContainerPool.constructor | linux_backend/container_pool/container_pool.go:56-92 | the pools start full |
| Backend.LinuxContainerPool.MaxContainers | linux_backend/container_pool/container_pool.go:94-101 | the smaller of the two initial pool sizes |
| Backend.LinuxContainerPool.Create | linux_backend/container_pool/container_pool.go:157-244 | the ledger's create on the pool objects; a container is returned if and only if all succeeds, with the id, the requested handle or else the id, and the first uid and network |
| Backend.LinuxContainerPool.RemoveAll | linux_backend/container_pool/container_pool.go:271-275 | takes the ports one by one up to the first that is not free |
| Backend.LinuxContainerPool.ReleaseAll | linux_backend/container_pool/container_pool.go:277-279 | releases every listed port |
| Backend.LinuxContainerPool.Claim | linux_backend/container_pool/container_pool.go:258-283 | takes uid, network and ports with the roll-back of each error return |
| Backend.LinuxContainerPool.Build | linux_backend/container_pool/container_pool.go:285-315 | builds the container and replays the snapshot; a failing replay keeps what was claimed out of the pools |
| Backend.LinuxContainerPool.Restore | linux_backend/container_pool/container_pool.go:246-316 | claim then build, as the ledger's restore |
| Backend.LinuxContainerPool.Destroy | linux_backend/container_pool/container_pool.go:324-336 | appends uid and network to their pools and adds every in-range port of the container |
| Backend.LinuxBackend.constructor | linux_backend/linux_backend.go:64-73 | no containers at first |
| Backend.LinuxBackend.Create | linux_backend/linux_backend.go:128-144 | the ledger's create; the container is active and entered under its handle if and only if it was created and started, else the table is unchanged |
| Backend.LinuxBackend.Destroy | linux_backend/linux_backend.go:146-165 | deletes just the handle and gives uid, network and ports back to the pools; an unknown handle or a failing script changes nothing |
| Backend.LinuxBackend.Restore | linux_backend/linux_backend.go:254-265 | the ledger's restore; enters the container under its handle if and only if the snapshot is accepted and its replay succeeds |
| Backend.LinuxBackend.NetIn | linux_backend/linux_container.go:623-668 | the ledger's mapping; the answer is what the container recorded, and no other container changes |
| Messages.MsgArray.Import | linux_backend/src/wsh/msg.c:14-34 | succeeds if and only if the strings and their terminators fit, and then the buffer holds them packed and zero-padded |
| Messages.MsgArray.Export | linux_backend/src/wsh/msg.c:36-54 | returns the strings the buffer unpacks to, reading only inside it |
| Messages.UnpackPacked | linux_backend/src/wsh/msg.c:36-54 | unpacking inverts packing for NUL-free strings, at any offset |
| Messages.ArrayRoundTrip | linux_backend/src/wsh/msg.c:14-54 | what was imported is exported, in order, empty strings included |
| Exec.BuildArgv | linux_backend/linux_container.go:586-608 | the flags in the order the container builds them, with user root if privileged and vcap otherwise |
| Exec.GetRshOptions | linux_backend/src/wsh/wsh.c:95-125 | the rsh compatibility options |
| Exec.GetOpt | linux_backend/src/wsh/wsh.c:65-144 | the option loop computes the parse, rejected and aborted cases included |
| Exec.RshLogin | linux_backend/src/wsh/wsh.c:95-125 | rsh mode takes the user of -l and the command after the host |
| Exec.RshTimeout | linux_backend/src/wsh/wsh.c:95-125 | rsh mode drops -t and its value |
| Exec.RshIgnores | linux_backend/src/wsh/wsh.c:95-125 | rsh mode drops -4, -6, -d and -n |
| Exec.Refused | linux_backend/src/wsh/wsh.c:74-144 | help, unknown options, options without their value and rsh mode without a host are turned away |
| Exec.EnvAdd | linux_backend/src/wsh/wshd.c:207-234 | the environment array grows by one entry and stays null-terminated |
| Exec.SetupEnvironment | linux_backend/src/wsh/wshd.c:236-256 | the received environment followed by HOME, USER and PATH with their values, or NULL if the home directory cannot be entered |
| Exec.EnvFlagsParse | linux_backend/src/wsh/wsh.c:89-94 | environment flags are parsed back in order, whatever the strings look like |
| Exec.FlagsParse | linux_backend/src/wsh/wsh.c:65-144 | all flags the container builds are parsed as meant, up to the path |
| Exec.ReceivedIsSent | linux_backend/src/wsh/wshd.c:310-343 | a vector of NUL-free strings that fits arrives unchanged |
| Exec.PipelineIsExact | linux_backend/linux_container.go:586-616 | flags, parse, pack, unpack and environment together run Path followed by Args, with Env followed by HOME, USER and PATH, as root if privileged and vcap otherwise, if and only if no string holds a NUL, Path does not look like an option, everything fits its buffer and the child can be set up |
| Exec.NoCommandRunsShell | linux_backend/src/wsh/wshd.c:266-317 | a request without a command runs the user's shell or /bin/sh, and one without a user runs as root |
| PidTable.Wshd.Add | linux_backend/src/wsh/wshd.c:159-175 | appends the entry |
| PidTable.Wshd.Remove | linux_backend/src/wsh/wshd.c:177-205 | removes the first entry of the pid in place, keeping the order, or returns -1 and changes nothing |
| PidTable.Wshd.HandleSigchld | linux_backend/src/wsh/wshd.c:514-548 | reaps in order; a tracked child's descriptor gets the status if it exited, and is closed |
| PidTable.ReapRefines | linux_backend/src/wsh/wshd.c:514-548 | the array does what a finite map does, report for report |
| PidTable.ReapKeepsRest | linux_backend/src/wsh/wshd.c:177-205 | what is left is the entries of the other pids in their order |
| PidTable.RunConserves | linux_backend/src/wsh/wshd.c:159-205 | every forked pair is in the table or reported, with multiplicity |
| PidTable.RunRefines | linux_backend/src/wsh/wshd.c:159-205 | every run of forks and reaps refines the map |
| PidTable.StatusGoesToItsOwner | linux_backend/src/wsh/wshd.c:514-548 | over every run a descriptor is closed once for each fork it was made for whose child left the table, each write comes just before its close, and a code is written to a descriptor if and only if the first reap of a child after its fork with it gave that code |
| ContainerIds.MakeId | linux_backend/container_pool/container_pool.go:363-377 | the shift-and-mask loop gives the base-32 expansion |
| ContainerIds.DecodeEncode | linux_backend/container_pool/container_pool.go:363-377 | decoding n digits gives the counter modulo 32^n |
| ContainerIds.IdsRepeatIff | linux_backend/container_pool/container_pool.go:363-377 | an id decodes to the counter modulo 2^55, and two ids k steps apart are equal if and only if 2^55 divides k, also across the int64 wrap |
| Varints.SizeVarint | Godeps/_workspace/src/code.google.com/p/goprotobuf/proto/encode.go:108-117 | counts exactly the bytes of the encoding |
| Varints.ReadVarintIff | Godeps/_workspace/src/code.google.com/p/goprotobuf/proto/decode.go:81-104 | decoding succeeds and consumes n bytes if and only if the first n bytes are a varint of at most ten bytes |
| Varints.ReadVarintFails | Godeps/_workspace/src/code.google.com/p/goprotobuf/proto/decode.go:81-104 | exactly when decoding runs out of bytes or overflows, with the index left alone |
| Varints.VarintRoundTrip | Godeps/_workspace/src/code.google.com/p/goprotobuf/proto/decode.go:81-104 | decoding inverts encoding for every uint64, whatever follows |
| Buffers.Buffer.Append | Godeps/_workspace/src/code.google.com/p/goprotobuf/proto/encode.go:99-106 | append in place while capacity lasts, else into a new array; the bytes behind the end survive only in the first case |
| Buffers.Buffer.EncodeVarint | Godeps/_workspace/src/code.google.com/p/goprotobuf/proto/encode.go:99-106 | appends the varint, without reallocating if it fits |
| Buffers.Buffer.MoveRight | Godeps/_workspace/src/code.google.com/p/goprotobuf/proto/encode.go:943-946 | the overlapping move to the right keeps prefix and message |
| Buffers.Buffer.MoveLeft | Godeps/_workspace/src/code.google.com/p/goprotobuf/proto/encode.go:947-951 | the overlapping move to the left keeps prefix and message |
| Buffers.Buffer.WriteLength | Godeps/_workspace/src/code.google.com/p/goprotobuf/proto/encode.go:953-955 | writing the length reallocates nothing, so the message is found again behind it |
| Buffers.Buffer.PatchLength | Godeps/_workspace/src/code.google.com/p/goprotobuf/proto/encode.go:940-955 | leaves prefix, varint of the length and message, for every message length |
| Buffers.Buffer.EncLenStruct | Godeps/_workspace/src/code.google.com/p/goprotobuf/proto/encode.go:932-957 | reserve, encode, move and patch equal the plain length-prefixed encoding, for messages nested to any depth |
| Buffers.Buffer.EncStruct | Godeps/_workspace/src/code.google.com/p/goprotobuf/proto/encode.go:880-910 | fields in order; the first unset required field is reported with its path, any other error stops |
| Buffers.Buffer.EncStructMessage | Godeps/_workspace/src/code.google.com/p/goprotobuf/proto/encode.go:431-432 | key, length and bytes of an embedded message |
| Buffers.Buffer.EncPart | Godeps/_workspace/src/code.google.com/p/goprotobuf/proto/encode.go:412-433 | one field, also a nil one and one that marshals itself, whose unset fields are not reported |
| Buffers.Buffer.EncodeRawBytes | Godeps/_workspace/src/code.google.com/p/goprotobuf/proto/encode.go:182-186 | length and bytes |
| Buffers.Buffer.EncodeFixed32 | Godeps/_workspace/src/code.google.com/p/goprotobuf/proto/encode.go:143-150 | four bytes, lowest first |
| Buffers.Buffer.EncodeFixed64 | Godeps/_workspace/src/code.google.com/p/goprotobuf/proto/encode.go:122-133 | eight bytes, lowest first |
| Buffers.NestedReadsBack | Godeps/_workspace/src/code.google.com/p/goprotobuf/proto/decode.go:178-204 | what is written for an embedded message is read back as its key and exactly its bytes, and skipped as one field |
| Buffers.OwnReadsBack | Godeps/_workspace/src/code.google.com/p/goprotobuf/proto/encode.go:420-429 | so is what is written for a message that marshals itself |
| Buffers.MissingIsNamed | Godeps/_workspace/src/code.google.com/p/goprotobuf/proto/encode.go:880-910 | the first unset required field is named, one inside an embedded message by its path; fields not set leave no bytes |
| Buffers.FailureBreaks | Godeps/_workspace/src/code.google.com/p/goprotobuf/proto/encode.go:887-899 | a failing field, at any place, and a message that refuses to marshal itself break the encoding |
| Buffers.Buffer.DecodeVarint | Godeps/_workspace/src/code.google.com/p/goprotobuf/proto/decode.go:81-104 | the shift loop reads the varint, truncates the tenth byte to 64 bits, and leaves the index on every error |
| Buffers.Buffer.DecodeFixed32 | Godeps/_workspace/src/code.google.com/p/goprotobuf/proto/decode.go:132-146 | the little-endian number, or the index left alone |
| Buffers.Buffer.DecodeFixed64 | Godeps/_workspace/src/code.google.com/p/goprotobuf/proto/decode.go:109-127 | the little-endian number, or the index left alone |
| Buffers.Buffer.DecodeRawBytes | Godeps/_workspace/src/code.google.com/p/goprotobuf/proto/decode.go:178-204 | returns the counted bytes, refusing negative and overrunning counts |
| Buffers.Buffer.SkipField | Godeps/_workspace/src/code.google.com/p/goprotobuf/proto/decode.go:246-280 | ends on every byte string with the index in bounds, at the place the grammar says, on errors too |
| Buffers.Buffer.SkipItems | Godeps/_workspace/src/code.google.com/p/goprotobuf/proto/decode.go:260-275 | the group loop |
| Buffers.Buffer.SkipAndSave | Godeps/_workspace/src/code.google.com/p/goprotobuf/proto/decode.go:219-243 | appends the canonical key and exactly the skipped bytes, and restores the buffer |
| Wire.RawBytesRoundTrip | Godeps/_workspace/src/code.google.com/p/goprotobuf/proto/encode.go:182-186 | reading counted bytes inverts writing them |
| Wire.RawBytesFails | Godeps/_workspace/src/code.google.com/p/goprotobuf/proto/decode.go:178-192 | which counts are refused, and how |
| Wire.FixedRoundTrip | Godeps/_workspace/src/code.google.com/p/goprotobuf/proto/decode.go:109-146 | reading a fixed-width number inverts writing it |
| Wire.SkipTakesField | Godeps/_workspace/src/code.google.com/p/goprotobuf/proto/decode.go:246-280 | skip consumes exactly one field, with groups nested to any depth |
| Wire.SkipFindsField | Godeps/_workspace/src/code.google.com/p/goprotobuf/proto/decode.go:246-280 | conversely, what skip consumes is one field of that wire type |
| Wire.SkipIff | Godeps/_workspace/src/code.google.com/p/goprotobuf/proto/decode.go:246-280 | skip gets past n bytes if and only if they are one field of that wire type |
| Wire.SkipRefuses | Godeps/_workspace/src/code.google.com/p/goprotobuf/proto/decode.go:276-278 | which wire types are refused |
| Wire.SavedFieldReadsBack | Godeps/_workspace/src/code.google.com/p/goprotobuf/proto/decode.go:219-243 | a saved field reads back under the same key and is skipped whole again |

## Left out

- Shell scripts, the docker registry and graph drivers, the file system, cgroup files and quota and traffic tools: steps that succeed or fail.
- JSON, gob and flag quoting in the shell: their contents are taken as values.
- Text forms of addresses and CIDRs: the model starts from parsed addresses in 16-byte form.
- Concurrent operations of the backend on one handle: each backend operation is one step.
- Liveness of Wait, Unlink and UnlinkAll: only safety is proved of them; for layer fetching both are.
- Layers removed from the graph while it is in use: registration only adds.
- The retry of a whole Fetch by its caller: it is a new call.
- Containers.SnapshotRoundTrip: asks for succeeding commands, no out-of-memory event during the replay, and no restored process that exits before the second snapshot, since its linker starts at once; Containers.RestoreTookPorts covers failing replays.
- Restart.RestartRestoresAll: asks for succeeding commands, as above.
- Subnets.NewPool: IPv4 CIDRs only; on IPv6 the loop of the source makes nothing or does not end, by Subnets.V6PoolEndsIff.
- Pools.NetworkPool.constructor: IPv4 CIDRs only, for the same reason.
- Buffers.Buffer.Append: slice lengths are unbounded integers; Go cannot allocate past 2^63.
- Resource limits, ttys, exit status pumping, sockets, namespaces, shared memory and the out-of-memory watcher process.
- C strings are sequences of characters; one character stands for one byte.
- Statistics parsers, bandwidth units, streaming in and out, property filters, the API server and the generated message code: long but shallow.
- The rest of the codec: reflection, extensions, text format, zigzag numbers.
