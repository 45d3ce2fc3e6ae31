# A verified model of the bctor supervisor

bctor is a small container runtime: a supervisor forks an *init* per container, init forks the
*workload*, and containers are grouped in *pods* that share namespaces, a network and a set of
port forwards.  This project models its protocols and bookkeeping in Dafny and proves what every
run keeps.  `dafny verify dfyconfig.toml` verifies it.

| file | what it models |
|---|---|
| `Handshake`, `HandshakeProofs` | supervisor, init and workload during a start: three program counters, six channels, arbitrary spec and interleaving |
| `Namespaces`, `FdPassing` | the namespace decisions, the unshare mask, and the descriptor-passing messages |
| `Handles` | the table of shared namespace handles, its reference counts, and their whole histories |
| `Reaper` | the supervisor's shared state as a class: exit handling and one kill attempt |
| `PodDrain` | a pod whose workloads are dead, left to the reaper |
| `Lifecycle`, `StartCall` | runs of any number of interleaved start calls, exits and kills; the start functions themselves |
| `RunFacts` | what holds at the end of a run, told from its steps alone: handles, their counts, the objects in the map |
| `BatchPipes` | the KeepAlive pipes that start functions free themselves, over the same runs |
| `Addresses`, `AddressLeak` | who holds each address of the pool, over disciplined runs |
| `DrainedRuns` | the two joined: a pod that came about in a run, left to the reaper |
| `Scripts` | one start call's moves as a script, for runs that show something can happen |
| `IpAllocator`, `ContainerId` | the address pool; container IDs, pod letters, joiner names |
| `Seccomp` | the filter macros as a compiler, classic BPF as an interpreter |
| `GoText`, `LogCapture`, `LineEditor` | Go's `Split` and trims; the log splitter; the supervisor's line editor |
| `Capabilities` | differences of five 64-bit masks; two 32-bit words standing for one set |

Containers of the map are values that carry the identity of their Go object (`Object`: start call
and stage), so re-inserting an object and writing through a second reference to it are modelled.
The order of a Go map iteration is arbitrary everywhere.  Each lock-held region is one step.
Answers of the kernel (a PID, a failed fork, an interface that could not be set up) are inputs.

## Results that differ from the documentation, or need a condition

- **Handshake.** A start can block exactly when it shares something and one of these fails: every
  shared handle is registered, the list has at most 16 entries, and a wanted user namespace is
  among the shared ones.  The source comments say "up to 8 FDs" (`lib/fds_setup.go:187`), but
  `CmsgSpace(8*8)` holds 16 descriptors of four bytes; the model follows the code.  A list of 17
  to 253 entries is sent, truncated, and panics the receiver.
- **Pod drain.** A pod with dead workloads drains if and only if no creator waits alone in it with
  its KeepAlive pipe not yet freed, or that creator is killed.  Init collects its own workload, so the
  supervisor never sees that exit; the releases left are another member's exit and a kill, and
  `DrainsIff` covers runs with any number of kills.  A batch creator between its free and its mark
  has already let its init go, and does not count as waiting.  Only the pod's own members need be
  fully started and have their inits' exits tracked: the rest of the map may hold placeholders and
  half-started containers, and exits may be lost or belong to processes the map does not hold.
  `RunPodDrains` gives the same after any disciplined run, with nothing assumed but what the kernel
  says of the processes: PIDs apart, and no workload's exit reported.
- **KeepAlive.** The pipe of an interactive creator and of a joiner is freed at most once over every
  run.  A batch creator frees its own outside the lock and marks it afterwards, and there the bound
  is two (`PipeFreesBounded`).  It is reached if and only if an exit or a kill releases the pipe
  between the free and the mark (`FreedTwiceIff`).  `BatchPipeFreedTwice` is a run where it is
  reached and only init processes are reaped: a batch joiner asked for by an earlier pod of the same
  letter starts late, and its exit leaves the new creator alone in its pod.
- **Addresses.** When no pod letter is free, `d_new` and `d_run` drop the error and start a creator
  named `bctor-1`, which belongs to no pod, so its address never returns to the pool.  The exact
  statement is an if-and-only-if over the steps of a run (`ConservedIffLeakFree`); with a free
  letter for every new pod the addresses are always conserved, and `LettersMatter` shows the
  hypothesis is needed.  A disciplined run is one where commands come one at a time and no exit is
  handled while a command that starts a creator is in progress; joiners may still be starting when
  exits, their own included, are handled.
- **Line editor.** What follows an Enter in one chunk is dropped (`sup/multiplexer.go:165-171`).
  After every chunk the session is the one of the unbroken stream if and only if each dropped rest
  is idle, that is would have dispatched nothing and left nothing typed (`DropMattersIff`, `ChunkingMattersIff`).
  The line feed of a CR LF pair is idle; a second command in the same read is not.

## Model

| member | source | states |
|---|---|---|
| HandshakeProofs.EveryRunIsOrdered | lib/namespaces.go:32-86 | in every interleaving and for every spec: ID maps are written after init entered its user namespace; the rest is unshared after the maps; the shared user namespace is joined before any other; a net root's workload execs after the network step; the network step and the running mark come after the supervisor took init's report of created namespaces, whenever any is wanted or shared; a container is running after its PID arrived; nothing happens twice |
| HandshakeProofs.CreatedReportTaken | sup/supervisor.go:106-131 | in any interleaving, from the network step on a supervisor whose container wants or shares a namespace has taken init's report of the created ones, and init is past sending it |
| HandshakeProofs.RunKeepsInv | sup/supervisor.go:54-91 | every state of every run has the channel contents its program counters call for, and a log that says exactly what has happened |
| HandshakeProofs.DeadlockFreeIffCompatible | sup/supervisor.go:55-80 | no reachable state is stuck short of the end if and only if the spec shares nothing, or has all its handles, at most 16 shares and no user namespace to create |
| HandshakeProofs.IncompatibleAlwaysBlocks | lib/namespaces.go:27-48 | a start outside that condition never gets as far as forking the workload, in any interleaving |
| HandshakeProofs.RunsAreBounded | lib/workload.go:149-187 | no run of the handshake has more than 114 steps |
| HandshakeProofs.NamespacePartition | lib/namespaces.go:27-86 | once the workload is forked, init has joined exactly the shared types and created exactly the wanted ones it did not join, and reports those |
| HandshakeProofs.OrchestratorSpecsCompatible | sup/orchestrator.go:73-119 | a creator's spec never blocks; a joiner's never blocks if and only if its root's user, network and mount handles are registered |
| HandshakeProofs.JoinersOfCreatorCompatible | sup/orchestrator.go:102-128 | after a creator's created namespaces are registered, its joiners cannot block |
| Handshake.DecisionsAgree | sup/supervisor.go:164-171 | the supervisor's test and init's test for a new user namespace agree once the shares arrived |
| Handshake.ShareMessageDecodes | lib/fds_setup.go:141-209 | the share message is accepted if and only if it has at most 16 entries, and then yields the share types |
| Namespaces.UnshareCreatesTheRest | lib/namespaces.go:69-86 | the OR-ed mask decodes to exactly the wanted types less the user namespace and the joined ones, and is zero exactly when there are none |
| Namespaces.UnshareMaskBits | lib/namespaces.go:69-138 | in the kernel's numbers, each CLONE_NEW* bit of the mask is set if and only if that namespace is asked for and was not joined, and no other bit is |
| Namespaces.CreatesAnyIff | sup/supervisor.go:173-176 | the supervisor's test for created namespaces is true exactly when at least one is asked for |
| Namespaces.OrchestratorRequests | sup/orchestrator.go:73-119 | a creator enters a user namespace of its own and unshares network, mount and PID; a joiner, with its three shares joined, creates and reports nothing |
| Namespaces.FlagsDistinct | lib/namespaces.go:118-138 | every clone flag is a bit of its own |
| Namespaces.BuildUnshareFlags | lib/namespaces.go:69-78 | the flag loop computes that mask |
| Namespaces.CollectCreatedNamespaceFDs | lib/fds_setup.go:11-38 | reports exactly the wanted, not joined types whose path opened, each with its descriptor |
| FdPassing.SendCreatedNamespaceFDs | lib/fds_setup.go:41-63 | header and descriptors list the map in one common order, whatever the iteration order |
| FdPassing.RecvCreatedNamespaceFDs | lib/fds_setup.go:66-115 | the receive with each of its error returns |
| FdPassing.CreatedAcceptedIff | lib/fds_setup.go:74-106 | a message is accepted if and only if its header counts nothing, or counts exactly the descriptors received |
| FdPassing.CreatedErrors | lib/fds_setup.go:70-106 | each rejection has its own error: end of file, no descriptors, or a count that does not match |
| FdPassing.CreatedRoundTrip | lib/fds_setup.go:41-115 | receive after send gives the same namespaces, each naming the same file under the kernel's new numbers |
| FdPassing.RecvNamespaceFDs | lib/fds_setup.go:183-209 | the joiner's receive, where a mismatch is a panic |
| FdPassing.SharesAcceptedIff | lib/fds_setup.go:183-209 | a share message is accepted if and only if its header counts the descriptors received, at least one and at most 31 |
| FdPassing.SharesRoundTrip | lib/fds_setup.go:141-209 | a share list arrives as its last-wins map with every entry naming the file sent, if and only if it has at most 16 entries |
| Handles.HandleRegistry.RegisterNamespaceHandles | lib/fds_setup.go:212-230 | registration overwrites handles of the same type with count one and keeps the others |
| Handles.RegisterSets | lib/fds_setup.go:212-230 | afterwards the owner holds each reported type on the reported descriptor with count one, its other types as before, and other owners are untouched |
| Handles.HandleRegistry.SendNamespaceFDs | lib/fds_setup.go:141-180 | counts every handle visited up to the first missing type, and sends a message exactly when none is missing |
| Handles.HandleRegistry.ReleaseOwned | sup/clean.go:68-78 | removes all of a container's handles and closes those whose count drops to zero |
| Handles.RefsCountVisits | lib/fds_setup.go:152-175 | after any history, a held handle's count is one plus the visits by share loops since it was registered |
| Handles.ReaperClosesUnvisited | sup/clean.go:68-78 | the reaper closes a handle if and only if it is held and was never visited |
| Handles.ClosedAtMostOnce | sup/clean.go:68-78 | two closes of the same owner and type belong to different registrations |
| Lifecycle.RunRefsCountVisits | sup/supervisor.go:71-115 | the same count, for the table of any run of start calls, exits and kills |
| RunFacts.TrueIffSince | sup/supervisor.go:85-155 | at the end of any run a handle is held on a descriptor if and only if some start call registered it there and its owner neither registered another nor was reaped since; likewise for the object the map shows under an ID |
| RunFacts.ObjectSays | sup/supervisor.go:85-155 | after any run, an object in the map carries the spec, PIDs, address and pipes its start call had at that stage |
| RunFacts.StepCounts | lib/fds_setup.go:141-180 | a step changes a held handle's count only by registering it anew or by the visits of one share loop |
| RunFacts.JoinerVisits | lib/fds_setup.go:141-180 | a joiner's start call visits each of its root's three shared handles exactly once |
| RunFacts.JoinersOfRunCompatible | sup/orchestrator.go:102-128 | in any run, once a creator's start call registered a full report and until that creator is reaped, no start of its joiners can block |
| Reaper.Supervisor.constructor | sup/orchestrator.go:26-69 | an empty supervisor with a fresh pool |
| Reaper.Supervisor.FindContainerByPID | sup/helpers.go:16-23 | finds some container with the PID, in any map order, or none if there is none |
| Reaper.Supervisor.IsPodEmpty | sup/clean.go:104-111 | true if and only if no accepted ID in the map is in the pod |
| Reaper.Supervisor.ReleaseLastNetRootKeepAlive | sup/clean.go:113-132 | frees the pipe of a net root that is the only member left, and nothing else |
| Reaper.Supervisor.ReapContainer | sup/clean.go:59-97 | the new state after an init's exit: handles, map, pipe, parked address, forwards and pool |
| Reaper.Supervisor.OnChildExit | sup/clean.go:40-100 | the state after one exit is the one of some container the scan can find |
| Reaper.Supervisor.PodWouldBeEmptyAfterRemoving | sup/commands.go:671-680 | true if and only if no other member of the pod is in the map |
| Reaper.Supervisor.KillOnce | sup/commands.go:682-715 | one locked attempt: its outcome, and that only a net root alone in its pod loses its pipe |
| Reaper.ExitPipes | sup/clean.go:49-56 | an exit frees a pipe once, on its own workload's exit or when its container is left alone |
| Reaper.ExitForwards | sup/clean.go:83-96 | over any handled exit, a pod's forwards all go if its last member does, and stay as they were otherwise |
| Reaper.WorkloadExit | sup/clean.go:49-56 | the exit of a workload that is not also an init frees a net root's open pipe and changes nothing else |
| Reaper.InitExit | sup/clean.go:59-81 | the exit of an init takes its container and all its handles away, and no others |
| Reaper.StrangerExit | sup/clean.go:42-46 | the exit of an unknown process changes nothing |
| PodDrain.DrainsIff | sup/clean.go:59-132 | for every run with any number of kills that leaves the pod no step of its own: the pod is empty, its forwards removed and nothing parked, if and only if no creator waited alone in it or that creator was killed |
| PodDrain.DrainsIffNotAlone | sup/clean.go:59-132 | without kills, all maximal runs drain the pod if and only if no creator waits alone in it |
| PodDrain.PodDrains | sup/clean.go:63-93 | and then the address the pod held, in the map or parked, is back in the pool |
| PodDrain.ForwardsUntilEmpty | sup/clean.go:83-96 | throughout a draining, a pod's forwards are those of its start as long as any member is left |
| PodDrain.KillReleasesLone | sup/commands.go:693-704 | a kill of the creator that waits alone lets it go |
| DrainedRuns.RunPodDrains | sup/clean.go:40-100 | after any disciplined run with distinct PIDs, a pod of dead workloads left to the reaper and to kills ends drained, with every address it held back in the pool, if and only if no creator waited alone in it or that creator was killed |
| DrainedRuns.RunIdentified | sup/supervisor.go:85-91 | after any run, whatever the timing, each container is stored under its spec's ID and has pipes of its own |
| DrainedRuns.DrainExtends | sup/clean.go:40-100 | a draining is the end of a longer run in which no start call moves |
| DrainedRuns.DrainConserves | lib/ntw/network_cleanup.go:11-34 | and with a letter for every pod and no command in progress, the addresses are still conserved at its end |
| PodDrain.RunsAreBounded | sup/clean.go:24-101 | the steps of a run, kills aside, are at most an explicit measure of its first state |
| PodDrain.DrainStep | sup/clean.go:80-97 | every step keeps it so that an unreleased creator has company and an empty pod is cleared |
| Lifecycle.ParkedOnlyWithMembers | sup/clean.go:63-93 | after any run, with no assumption on timing, a pod with a parked address still has a member in the map |
| Lifecycle.ForwardsGoWithLast | sup/clean.go:83-96 | every step of a run, of whatever kind, removes a pod's forwards exactly when it takes the pod's last member, and changes them in no other way |
| Lifecycle.CreatorPipeFreedAtMostOnce | sup/orchestrator.go:71-100 | after any run, an interactive creator's pipe has been freed at most once and is closed exactly then |
| Lifecycle.PipeReleases | sup/clean.go:49-56 | in any run, exits and kills change a pipe only if it is a creator's, and then on its own workload's exit or when it is alone in its pod; so never a joiner's |
| BatchPipes.PipeFreesBounded | sup/orchestrator.go:145-147 | after any run a batch creator's pipe has been freed at most twice and any other at most once; an open pipe has been freed exactly while its start function is between the free and the mark |
| BatchPipes.FreedTwiceIff | sup/orchestrator.go:265-266 | a pipe has been freed twice if and only if the guards of a handled exit or of a kill released it between its start function's free and its mark |
| BatchPipes.ReleasesIff | sup/commands.go:693-704 | an exit or a kill frees a pipe, once, exactly when the guards of the reaper or of the kill path hold for it |
| BatchPipes.BatchPipeFreedTwice | sup/orchestrator.go:239-269 | a run in which a batch creator's pipe is freed twice, and all exits handled are those of init processes |
| Lifecycle.StepAllStored | sup/supervisor.go:85-91 | every step keeps every object in the map under the ID of the start call that made it, with that call's PIDs, address and pipes |
| Lifecycle.ExitIsExitStep | sup/clean.go:40-46 | the exit step of runs is the exit of the reaper's contract |
| StartCall.StartContainer | sup/supervisor.go:32-94 | an uninterrupted call reaches the state of its moves; on success the map holds one new entry, the running container with its spec and PIDs, and every reported descriptor is in the handle table with count one; if the fork or the ID maps fail nothing is stored |
| StartCall.FinalizeContainer | sup/supervisor.go:96-162 | likewise from the workload's PID on: the handle table holds the report, the map the running container, and it has an address exactly when it is a net root with a reported network namespace and the set-up succeeded |
| StartCall.StartCreator | sup/orchestrator.go:71-100 | likewise with the pipes attached: the map shows the returned object, with its spec, workload and pipes |
| StartCall.NewPod | sup/commands.go:281-293 | likewise with the object put in the map once more |
| StartCall.StartCreatorBatch | sup/orchestrator.go:239-269 | likewise, and the batch creator's own pipe has one more free and is closed, no other pipe touched |
| StartCall.RunNewPod | sup/commands.go:167-177 | likewise with the object put in the map once more |
| StartCall.StartJoiner | sup/orchestrator.go:102-148 | likewise for the joiner's own pipe, and the map shows the joiner with its workload and pipes |
| StartCall.RequestJoiner | sup/commands.go:309-328 | a joiner is asked for exactly when the pod's root is in the map, under the pod's next name, where a placeholder without spec or PIDs holds its place |
| StartCall.ConfigureNetwork | sup/supervisor.go:119-131 | a net root with a reported network namespace gets the allocator's next address if the set-up succeeds; any other start gets none and uses none |
| IpAllocator.NetworkConfig | lib/ntw/network.go:304-343 | a failed set-up leaves the used set as it was; a successful one adds one address that was free |
| IpAllocator.IPAllocator.Allocate | lib/ntw/network.go:116-133 | the next free address from Next on |
| IpAllocator.IPAllocator.Release | lib/ntw/network_cleanup.go:27-34 | removes the address from the used set |
| IpAllocator.AllocatorHistory | lib/ntw/network.go:102-133 | for any interleaving of calls, the k-th address granted is the base with 9+k as its last octet, none is granted twice, and a call fails exactly after 244 grants |
| IpAllocator.NeverSkips | lib/ntw/network.go:126-129 | the used test never rejects the next address |
| Addresses.AddressesConserved | lib/ntw/network.go:304-342 | after any disciplined run with a free letter for every new pod, the used set is the disjoint union of the addresses held by creators being finalised, by containers in the map and for parked pods |
| Addresses.ConservedIffLeakFree | sup/clean.go:63-93 | any disciplined run conserves the addresses in all its states if and only if no step stores over an address or reaps one outside every pod |
| Addresses.StepConserves | sup/supervisor.go:119-155 | the same for one step |
| Addresses.StepOrderly | sup/commands.go:276-331 | disciplined steps keep: one creator in progress, its entry its own, creators told apart by pod, no address both in the map and parked |
| AddressLeak.LettersMatter | sup/commands.go:283-290 | a disciplined run with 27 creators after which an address is in use and nobody holds it |
| ContainerId.SplitContainerID | sup/commands.go:645-669 | the parse, with empty strings when it fails |
| ContainerId.SplitIff | sup/commands.go:645-669 | an ID splits into two parts if and only if it is the prefix, a lowercase pod and a decimal index, in that order |
| ContainerId.LetterIsPod | sup/orchestrator.go:157-161 | on accepted IDs the digit-stripping parse gives the pod |
| ContainerId.MembershipTestsAgree | sup/orchestrator.go:181-185 | on single-letter pods the Contains and HasPrefix tests mean membership |
| ContainerId.GetNextPodLetter | sup/orchestrator.go:150-174 | the least unused letter; an error exactly when all 26 are used; a panic exactly when a spec is missing |
| ContainerId.NextLetterIsLeastEmpty | sup/orchestrator.go:150-174 | with every spec present and naming a container of a pod or `bctor-1`, that is the least letter whose pod has no member, and an error exactly when all 26 have one |
| ContainerId.LettersInOrder | sup/orchestrator.go:166-171 | the candidates are exactly the 26 lowercase letters, in order |
| ContainerId.GetNextContainerIndex | sup/orchestrator.go:176-188 | one more than the number of IDs that contain the letter after a dash |
| ContainerId.IndexContinues | sup/orchestrator.go:176-188 | while a pod is numbered 1 to n without a gap, the next index is n+1 and its name is new |
| ContainerId.DecimalValue | sup/commands.go:320-321 | an index is written in decimal, without a leading zero, and reads back as itself |
| ContainerId.JoinerName | sup/commands.go:320-321 | a joiner is named into its root's pod and never gets index 1 |
| Seccomp.ExpandCorrect | lib/seccomp/filter.c:9-153 | for every allowlist, architecture and call number, the expanded program allows exactly the listed calls on x86_64 and kills the process otherwise |
| Seccomp.RulesDecide | lib/seccomp/rules.h:7-12 | from the j-th rule on, the program decides membership in the rest of the list |
| Seccomp.ExpandWellFormed | lib/seccomp/rules.h:7-12 | every expansion has only jumps inside the program, ends in a return and has 2n+5 instructions |
| Seccomp.ExpandLoadsIff | lib/seccomp/rules.h:7-12 | an expansion is within the kernel's limit of 4096 instructions if and only if its list has at most 2045 entries |
| Seccomp.WellFormedReturns | lib/seccomp/filter.c:9-13 | such a program returns, from any instruction and accumulator |
| Seccomp.ProfileLengths | lib/seccomp/filter.c:156-158 | the three exported lengths are 13, 63 and 135, and all three programs load |
| Seccomp.ShippedFilters | lib/seccomp/filter.c:17-153 | by system call number on x86_64, the three filters allow exactly the calls their sections list |
| Seccomp.HelloFilter | lib/seccomp/filter.c:17-24 | the hello program returns the allow action for calls 1, 15, 60 and 231 on x86_64, and the kill action for everything else |
| LogCapture.CaptureLogs | lib/logger.go:151-208 | for every way of cutting a stream into reads, what is sent is a function of the whole stream |
| LogCapture.MarkersBracket | lib/logger.go:167-207 | a batch sends one header first and one footer last, around plain lines |
| LogCapture.LinesJoinBack | lib/logger.go:177-203 | the pieces are the only newline-free ones that join back to the stream, and only the last may be withheld |
| LogCapture.SentLines | lib/logger.go:177-203 | between the markers, every sent line is its piece of the stream less a run of carriage returns, ends in none, and contains no line feed; the last piece is withheld exactly when it is only white space |
| GoText.TrimCRLeaves | lib/logger.go:181 | the right trim leaves a prefix that does not end in a carriage return, and cuts off nothing else |
| GoText.BlankIff | lib/logger.go:197 | a piece trims to nothing exactly when it is a run of encoded Unicode white space |
| LogCapture.ReadMore | lib/logger.go:176-190 | one more read sends the complete lines of the carried piece and the new bytes |
| LineEditor.Multiplexer.HandleSupervisorInput | sup/multiplexer.go:147-183 | any chunk extends the session by the bytes up to its first Enter |
| LineEditor.KeysAreSegments | sup/multiplexer.go:147-182 | the dispatched lines are the trimmed, non-blank segments after each backspace cancelled the nearest earlier character |
| LineEditor.ControlBytes | sup/multiplexer.go:148-181 | which bytes end a line, erase, are ignored or are typed, by number; Enter dispatches unless what was typed is white space |
| GoText.TrimSpaceLeaves | sup/multiplexer.go:153 | the trim of a dispatched line cuts white space off both ends and leaves none at either |
| LineEditor.KeptWhole | sup/multiplexer.go:165-171 | a chunk is read whole exactly when no Enter stands before its last byte |
| LineEditor.DropMattersIff | sup/multiplexer.go:147-183 | after any bytes, dropping the rest of a chunk changes the session if and only if that rest would have dispatched a line or left something typed |
| LineEditor.ChunkingMattersIff | sup/multiplexer.go:147-183 | the session agrees with that of the unbroken stream after every chunk if and only if every dropped rest is idle |
| LineEditor.LineEndPairIsIdle | sup/multiplexer.go:152-171 | the line feed of a line that ends in CR LF is dropped, and not missed |
| LineEditor.ChunkingIndependent | sup/multiplexer.go:147-182 | when Enter only ends chunks, nothing is dropped and the lines are those of the whole stream |
| LineEditor.PastedCommandIsLost | sup/multiplexer.go:165-171 | two commands in one read: the second is lost |
| Capabilities.DiffCaps | lib/caps.go:146-190 | the entries are exactly the changed bits with their values before and after, sorted by set and bit |
| Capabilities.SortedUnique | lib/caps.go:164-187 | no two entries are about the same bit of the same set |
| Capabilities.DiffIsPatch | lib/caps.go:146-190 | applying the entries to the state before gives the state after, in all five masks |
| Capabilities.LogCapDelta | lib/caps.go:227-238 | the two groupings, per set and in order |
| Capabilities.DeltaPartitions | lib/caps.go:227-238 | raised and dropped partition the entries: nothing lost, nothing repeated |
| Capabilities.CapWords.Add | lib/caps.go:393-415 | adds one capability to the named set and leaves the other two alone |
| Capabilities.CapWords.DropCapability | lib/caps.go:248-280 | removes it from the bounding, effective and permitted sets, or changes nothing when the kernel refuses the first |
| Capabilities.CapWords.SetCapabilities | lib/caps.go:333-366 | effective and permitted become exactly the members of the list, inheritable stays as it was |
| Capabilities.CapWords.ApplyAll | lib/caps.go:248-415 | after any sequence of operations the words stand for the sets the operations mean, and the bounding set has lost exactly what was dropped |
| Capabilities.LastOperationDecides | lib/caps.go:248-415 | after any sequence of operations, a capability is in a set if and only if the last operation about it there put it there, or none was about it and it was there before |
| Capabilities.BoundedWithout | lib/caps.go:248-256 | the bounding set has lost exactly the capabilities whose drop the kernel allowed |
| Capabilities.CapsFromMask | lib/caps.go:194-202 | the members of the mask, ascending |
| Capabilities.AscendingUnique | lib/caps.go:194-202 | there is only one such list |
| Capabilities.ExpandCaps | lib/caps.go:562-570 | for each capability of its range, whether it is in the mask |

## Left out

- Real system calls, mounts, cgroups, `/proc`, netlink and iptables: they succeed in the handshake, and elsewhere their outcome is an input.
- Messages that never arrive because init died: the handshake model has no crashes of its own but the receiver's panic.
- The veth interface of a network resource: only its address is kept.  Its deletion is not modelled.
- The `State` field of a container, which nothing reads, and `Namespaces`, which is not used after it is built.
- The retries and rounds of `killOneWithRetry` and `d_kill`: one locked attempt is modelled, and runs may hold any number of them.
- `d_exit`, which ends the process, and `EventSignal`, which changes no state.
- `execOne`, attach, PTY piping, prompts, boxes and colours.
- TCP forwarding: the table of forwards only has "remove pod".
- `lib/seccomp/install.c` and `lib/seccomp.go`: the foreign-call wrappers around the filters.
- Freshness of container indices, and the return of references when joiners exit: the code has neither.
- PodDrain.DrainsIff: speaks of states in which start calls stand still; a released creator may still get joiners, which Lifecycle allows but for which draining is not claimed.
- StartCall.RequestJoiner: is one round of the loop over the typed count; the rounds are steps of a run.
- StartCall.StartContainer: is a call without interference; runs with interference are those of Lifecycle, where the same moves interleave, and where objects in the map are values with an identity.
- Capabilities.CapWords.ApplyAll: capget and capset succeed; words are sequences of bits rather than machine integers; shifts by a capability number are positions in them.
- Addresses.AddressesConserved: takes a typed command's check of the root and the naming of the joiner as one step, as a disciplined run has no exit between them.
