# Verified model of agentbox

Agentbox runs coding agents in Podman containers, one workspace (git root) at a time. This project
models the parts of it whose correctness depends on more than one function: protocols between
processes, ordered effects with an interrupt flag, discovery through labels, and encodings.

Everything verifies with `dafny verify dfyconfig.toml`. SHA-256, the clock, Podman, git, the file
system and the answers of other processes are parameters or arbitrary replies, so each theorem holds
for all of them.

| file | what it models |
|---|---|
| `LockProtocol.dfy`, `LockFiles.dfy` | workspace lock files shared by any number of processes: open, flock, re-check, probe, unlink |
| `TokenLifecycle.dfy` | containers and Codex attach tokens over runs of start, run, stop and restart, and what connect relies on |
| `CommandTraces.dfy`, `Commands.dfy` | the same commands effect by effect, with a SIGINT between any two effects and every look at the interrupt flag recorded; each is a run of `TokenLifecycle` |
| `HttpHeaders.dfy`, `HttpProbe.dfy` | the bounded reader of a health probe's HTTP response |
| `Runtimes.dfy`, `Sessions.dfy`, `LaunchSpec.dfy` | labels, endpoint, status, connect; and the labels and mounts that a launch writes |
| `Discovery.dfy` | the scan with its hash prefilter, classification, duplicate marking |
| `CleanPlan.dfy` | the usage index, the plan of `clean` and its application |
| `ImageContext.dfy` | the hashed image context and image references |
| `ImageRecord.dfy`, `ImageProtocol.dfy`, `ImageCommands.dfy` | the record of the version installed in an image: plan, interleaving of commands, and the commands under any schedule of others |
| `ContainerNames.dfy`, `PathNorm.dfy`, `NoProxy.dfy` | names of resources, lexical paths, the `NO_PROXY` list |
| `Readiness.dfy` | the deadline loop that waits for a server |
| `Wrappers.dfy`, `Text.dfy`, `Paths.dfy` | options and results, string operations of the standard library, path components |

Methods follow the loops and effects of the code and are proved against functions or against the trace of
their effects; the theorems are lemmas about those. What a function decides is also said without it, on the
text, the labels or the fields that it looks at, mostly as an if-and-only-if.

## What turned out to need a condition

- `remove_cleanup_lock_file` does not re-check the inode after locking. Two overlapping removals of
  one path can leave two guards for one digest (`LockProtocol.OverlappingRemovalsBreakSafety`). A step
  breaks a guard if and only if it is an unlink by a removal that locked another inode
  (`LockProtocol.GuardsBreakOnlyByStaleUnlink`), and a run is safe if and only if it has no such step
  (`LockProtocol.GuardsResolveIffNoStaleUnlink`).
- `TokenLifecycle` and `Commands` let one command at a time hold the lock of a root. That is the exclusive
  guard of `LockProtocol.LockSafety`, so token agreement rests on removals of a lock file not overlapping, too.
- `restart` stores the new token before the old container is stopped. If it ends in between, the
  running server no longer accepts the stored token (`TokenLifecycle.FailedRestartStrandsToken`); the
  exact condition is `TokenLifecycle.TokenAgreesIffNotStale`.
- A transient container that came up is stopped exactly once if and only if podman reported its start or
  the look at the flag right after found an interrupt (`CommandTraces.TransientCleansUpExactlyOnce`). When
  podman reports a failure all the same and no interrupt is pending, `run` fails and leaves the container
  (`CommandTraces.UnreportedStartIsLeftBehind`, `Commands.LeaveContainerBehind`). The documentation is
  silent here: `docs/spec/command-run.md:29` lists the end of the client, a client that does not start
  and an interrupt after the start, and `docs/spec/command-run.md:52` a failing readiness.
- Lexical normalisation collapses `../..` to `.`. For relative paths the result denotes the same node
  exactly when the path never climbs two steps above its start (`PathNorm.RelativeDenotesSameNodeIff`).
- The record of a runtime image can lie if the write after a build is lost
  (`ImageProtocol.UnrecordedBuildMisleads`), and also if it is not: updates take no lock, builds on demand
  hold the lock of their own root only, and commands overlap (`ImageProtocol.OverlappingBuildsMislead`,
  `ImageProtocol.OverlappingRefreshMisleads`). `ImageProtocol.StepBreaksIff` says exactly which step makes it
  lie, `ImageProtocol.RecordAgreesIffNotStale` exactly when it does after a run.
- The empty root is the only one whose container name `clean` would not recognise
  (`ContainerNames.NamePassesFilterIff`).
- A NUL in a path would make two different image contexts feed the same bytes to the hasher
  (`ImageContext.NulInPathCollides`); the embedded paths have none.

## Model

| member | source | states |
|---|---|---|
| `LockProtocol.ConsistentRun` | src/lock.rs:38-48 | in every interleaving the lock table holds exactly the processes that own a flock, an inode is linked at one path, and an open descriptor pins its inode |
| `LockProtocol.SafeStep` | src/lock.rs:113-136 | one step of any process keeps every guard and every removal under way on the file its path names, if no two removals of that path overlap |
| `LockProtocol.LockSafety` | src/lock.rs:38-48 | over every run without overlapping removals of one path: at most one guard per digest, and its path keeps resolving to the guarded inode |
| `LockProtocol.RemovalUnlinksItsOwnFile` | src/lock.rs:127-135 | in such a run a removal unlinks the very inode it has locked |
| `LockProtocol.GuardsBreakOnlyByStaleUnlink` | src/lock.rs:113-136 | a step takes a path away from its guard if and only if it is an unlink by a removal holding another inode |
| `LockProtocol.GuardsResolveIffNoStaleUnlink` | src/lock.rs:113-136 | over every run: all guards keep their path at every point exactly if no step is such an unlink, and then guards are exclusive |
| `LockProtocol.OverlappingRemovalsBreakSafety` | src/lock.rs:113-136 | a concrete run of two overlapping removals that ends with two guards for one digest |
| `LockProtocol.GuardIsReleased` | src/lock.rs:38-48 | an undisturbed guard is granted on a file that its path still names, keeps everybody else from locking it, and its release restores the state |
| `LockProtocol.RemovalsBesideGuardAreSafe` | src/lock.rs:113-136 | a concrete run that meets the condition: two removals of different files under way at once beside a guard |
| `LockProtocol.ProbeLeavesNoTrace` | src/lock.rs:152-166 | an undisturbed probe holds the lock if it is free, and leaves paths, locks and processes as they were |
| `LockProtocol.RemovalRemovesOnlyThePath` | src/lock.rs:113-136 | an undisturbed removal removes the path of an unlocked file and nothing else |
| `LockProtocol.DeadHandleNeverGuards` | src/lock.rs:264-275 | a handle whose file is gone from its path stays so under all later steps, because its inode cannot be reused while open |
| `LockProtocol.FailedGuardIsFinal` | src/lock.rs:38-48 | after one failed path check no later `guard` of the same handle can succeed |
| `LockFiles.LockDirectory.LockDigest` | src/lock.rs:138-146 | opens the existing lock file or creates it, and changes no lock and no other process |
| `LockFiles.LockDirectory.Guard` | src/lock.rs:38-48 | under any schedule of other processes: exactly its own steps with the possible ones of the schedule in between; granted only with the lock held and the path still naming the inode, otherwise the handle is dead, unreadable or still waiting |
| `LockFiles.LockDirectory.CleanupLockFileStatus` | src/lock.rs:152-166 | under any schedule of other processes: exactly its own steps and those of others; missing, available or locked as the lock table says when it tries, and no trace of the probe afterwards |
| `LockFiles.LockDirectory.RemoveCleanupLockFile` | src/lock.rs:113-136 | exactly its own steps and those of others: locked if the opened file is when it tries, else removed or missing as the path is when it unlinks; exact new state when undisturbed; guards stay safe if removals never overlapped |
| `TokenLifecycle.OrderedRun` | src/commands/container_launch/mod.rs:47-102 | in every interleaved run a root has at most one container, and what a command has checked under the root lock (no container exists, its token is the stored one) still holds at its next step |
| `TokenLifecycle.TokenAgreement` | src/commands/codex_attach_auth.rs:74-78 | if no restart of the root ends between minting its token and verifying the old container gone, every managed Codex container of the root carries the hash of the stored token |
| `TokenLifecycle.ConnectIsLetIn` | src/commands/connect.rs:59-79 | under the root lock, and with no restart dead in its window, the token that `connect` loads is the one the server was started with |
| `TokenLifecycle.TokenAgreesIffNotStale` | src/commands/restart.rs:119-129 | exact condition: the stored token fits the running server if and only if no restart has minted one since that server was launched |
| `TokenLifecycle.FailedRestartStrandsToken` | src/commands/restart.rs:119-129 | a concrete run in which a failed restart leaves the server with the old hash |
| `TokenLifecycle.RestartHandsOver` | src/commands/restart.rs:119-151 | a concrete run that meets both conditions: a whole restart, after which the server has the hash of the new, stored token |
| `Commands.Host.StopAndVerify` | src/commands/container_cleanup.rs:39-54 | stops, then asks whether the container exists: the container goes exactly if the stop had its effect, and is reported removed, present or unknown exactly as the second answer says |
| `Commands.InterruptedRunCleanup.Run` | src/commands/start/interrupt.rs:55-84 | stop and verify, then remove the cache volume only if it is new and the container is gone; every effect is the answer to its question, and the failures are those of `CommandTraces.CleanupIssues` |
| `CommandTraces.IssuesIff` | src/commands/start/interrupt.rs:55-84 | each of the five things that can go wrong is reported exactly if it did, and nothing is reported exactly if all of it worked |
| `Commands.Host.CheckInterrupted` | src/commands/transient_run.rs:85-100 | the recorded look at the flag is set exactly if a signal had arrived; then the cleanup of the command and an error follow, otherwise nothing does |
| `Commands.Host.AwaitReadiness` | src/commands/detached_server.rs:129-146 | the outcome is ready exactly if the wait answers so, interrupted exactly if the server is still pending and a signal has arrived, failed otherwise; it succeeds exactly if the server gets ready and no signal has arrived by the look after it |
| `Commands.Host.LaunchDetachedServer` | src/commands/detached_server.rs:100-152 | the effects are those of `LaunchTrace`, each the answer to its own question; success if and only if the handler is installed, the name is free, podman works, the server gets ready and no signal arrives from the handler to the last look; a container that came up and was not stopped is the one that was prepared, and the token agrees |
| `Commands.Host.LaunchSucceedsIff` | src/commands/detached_server.rs:100-152 | a trace whose effects answer their questions ends well exactly if the replies and the signals say `LaunchWorks` |
| `CommandTraces.SeenInterruptCleansUp` | src/commands/detached_server.rs:115-146 | an interrupt that a launch sees ends it with an error, and the cleanup of the command is all that follows |
| `CommandTraces.LaunchStopsIff` | src/commands/detached_server.rs:115-146 | a launch stops its container exactly if it sees an interrupt, or if a transient server does not get ready; a restart never does |
| `CommandTraces.LaunchSucceeds` | src/commands/detached_server.rs:100-152 | success is exactly: podman started the container, both looks found no interrupt, the server got ready |
| `Commands.Host.ExecuteTransientRun` | src/commands/transient_run.rs:51-136 | the exact effects, each the answer to its question, and the result; success if and only if the launch works, the client exits with zero, the stop has its effect and the container is seen to be gone |
| `CommandTraces.TransientCleansUpExactlyOnce` | src/commands/transient_run.rs:102-136 | a container that came up is stopped and verified exactly once, last, if and only if podman reported the start or the look after it saw an interrupt, and never otherwise; the run succeeds if and only if client, server and cleanup did and no interrupt was seen; exit codes are passed on |
| `CommandTraces.UnreportedStartIsLeftBehind` | src/commands/transient_run.rs:163-169 | the effects that leave a container behind: podman fails although the container came up, and no interrupt is pending |
| `Commands.LeaveContainerBehind` | src/commands/run.rs:43-76 | an execution of `run` with just these effects, after which the container still exists |
| `Commands.Host.MintToken` | src/commands/container_launch/mod.rs:71-86 | a token is stored for managed Codex servers only, no container changes, and success leads to a prepared launch |
| `Commands.Host.PrepareLaunch` | src/commands/container_launch/mod.rs:47-102 | refused without any effect when a container of the root exists; otherwise at most a token is written; it succeeds exactly if every check does |
| `Commands.Host.RunCommand` | src/commands/run.rs:43-76 | `run` under the root lock: exactly the trace of a transient run, no token stored; it succeeds if and only if no container of the root exists, every check works and so does the transient run |
| `Commands.Host.StartCommand` | src/commands/start.rs:57-104 | `start`: exactly `StartTrace`; it succeeds if and only if no container of the root exists, every check and the look for the volume work, the launch works and so does the client if there is one; then a managed container of the runtime serves with the stored token; volumes that existed stay; the token agrees whenever no container existed before |
| `CommandTraces.StartCleansUpIffInterrupted` | src/commands/start/interrupt.rs:30-84 | `start` stops its container exactly if it saw an interrupt; it then fails, and what follows is the cleanup that spares a volume that was there before |
| `CommandTraces.StartIsSafe` | src/commands/start/interrupt.rs:55-84 | a cache volume is removed only as the last effect, after the container was verified gone, and only if it was seen to be absent before |
| `Commands.Host.StopExistingSession` | src/commands/restart.rs:196-212 | succeeds if and only if the old container is reported absent, which the replies decide |
| `Commands.Host.PrepareRestart` | src/commands/restart.rs:104-129 | checks and token of the replacement leave all containers unchanged |
| `Commands.Host.RestartCommand` | src/commands/restart.rs:91-151 | exactly `RestartTrace`; it succeeds if and only if the session is found, every check works, the stop has its effect and is verified, and the launch of the replacement works; then a replacement of the old runtime serves with the stored token; once a replacement was tried the token agrees; a failure before the stop leaves the containers unchanged |
| `CommandTraces.RestartIsOrdered` | src/commands/restart.rs:129-148 | a replacement is launched only right after the old container was stopped and reported absent; an interrupt seen after the stop makes the restart fail |
| `Commands.Host.CleanupManagedContainer` | src/commands/container_cleanup.rs:155-165 | `stop`: the token is removed only once the container is verified gone, and only for Codex |
| `HttpHeaders.ParseHttpResponseHeaders` | src/runtime/http_probe/response.rs:145-180 | the header loop computes status and length as the reference definition does, which `ParsedHeadersIff` characterises on the text |
| `HttpHeaders.LastLengthIsLast` | src/runtime/http_probe/response.rs:159-177 | the length that counts is that of the last Content-Length line |
| `HttpHeaders.StatusCodeIff` | src/runtime/http_probe/response.rs:149-158 | a status line has this code exactly if it is white space, a word that starts with `HTTP/1.`, white space, a number of sixteen bits with this value, and then white space or nothing |
| `HttpHeaders.LineFieldIff` | src/runtime/http_probe/response.rs:161-173 | a line declares this length exactly if it is `Content-Length` in any letter case, a colon and a number that fits with white space around it; it is passed over exactly if no such name stands before its first colon |
| `HttpHeaders.SplitJoinLines` | src/runtime/http_probe/response.rs:146-148 | splitting lines that were joined with CR LF gives them back |
| `HttpHeaders.ParsedHeadersIff` | src/runtime/http_probe/response.rs:145-180 | on the text alone: a block parses to a code and a length if and only if it decodes to lines with such a status line first, every Content-Length line after it well formed and the last of them with this length; everything else is an invalid response |
| `HttpHeaders.OrdinaryHeadersParse` | src/runtime/http_probe/response.rs:145-180 | the usual block `HTTP/1.v code reason`, `Content-Length: n` parses to this code and this length, for every version, reason and letter case |
| `HttpProbe.HttpResponseReader.ReadHeaders` | src/runtime/http_probe/response.rs:52-65 | reads until the first empty line and never past 64 KiB; the result of the whole read is unchanged by it |
| `HttpProbe.HttpResponseReader.ReadDeclaredBody` | src/runtime/http_probe/response.rs:67-90 | ends with exactly the declared number of body bytes, or with the error of the reference definition |
| `HttpProbe.HttpResponseReader.ReadUndeclaredBody` | src/runtime/http_probe/response.rs:92-99 | reads to the end of the stream or to a timeout |
| `HttpProbe.HttpResponseReader.Read` | src/runtime/http_probe/response.rs:36-50 | terminates on every stream, even an endless one, after at most 65537 calls, with at most 64 KiB buffered, and returns the outcome of replaying the stream |
| `HttpProbe.BodyStartIsFirstEmptyLine` | src/runtime/http_probe/response.rs:138-143 | the body starts right after the first CR LF CR LF, and only there |
| `HttpProbe.DecisionIsStable` | src/runtime/http_probe/response.rs:52-90 | a result that a prefix fixes is not changed by later bytes |
| `HttpProbe.ReadIsVerdictOfBytes` | src/runtime/http_probe/response.rs:36-129 | for at most 64 KiB the result is a function of the bytes and of the event that ends them |
| `HttpProbe.ChunkingIsIrrelevant` | src/runtime/http_probe/response.rs:101-129 | two ways of cutting the same bytes into chunks give the same result |
| `HttpProbe.ChunkingsAgreeUnlessTooLarge` | src/runtime/http_probe/response.rs:101-129 | for longer or endless responses two chunkings agree unless one gives up on the size |
| `HttpProbe.GivesUpIff` | src/runtime/http_probe/response.rs:73-78 | the reader gives up on the size exactly if, still undecided, it has read the declaration of too long a body or its next call passes 64 KiB |
| `HttpProbe.DeclaredLengthIsExact` | src/runtime/http_probe/response.rs:67-90 | a response with a declared length has exactly that many body bytes, taken after the first empty line |
| `HttpProbe.ResponseIsRead` | src/runtime/http_probe/response.rs:36-99 | from bytes to response, however they are cut: with a header block before the first empty line the result is its code and the declared bytes or all that follows, too large, incomplete or failed exactly as the sizes and the last event say |
| `HttpProbe.NoEmptyLineIsNoHeaders` | src/runtime/http_probe/response.rs:52-65 | without an empty line the headers are unavailable, or the read has failed |
| `HttpProbe.OtherHeadersAreInvalid` | src/runtime/http_probe/response.rs:145-180 | if what comes before the first empty line is no header block, the response is invalid |
| `Runtimes.ParseRuntime` | src/session/record.rs:189-191 | a name parses to a runtime exactly if it is that runtime's name |
| `Sessions.FirstPublishedIsFirst` | src/podman/model/network.rs:46-54 | the binding that counts is the first with a host port |
| `Sessions.PublishedEndpointIff` | src/podman/model/network.rs:46-71 | an endpoint is published exactly if the first binding with a host port holds its port as a 16-bit number and has its address, the loopback address standing for a missing or blank one |
| `Sessions.RunningIff` | src/session/status.rs:70-102 | a session is Running exactly if every label is sound, the port is published, the cache volume is mounted, the container runs and its root is not orphaned |
| `Sessions.StatusIsFirstFailure` | src/session/status.rs:70-102 | the status of every container is that of the first check that fails, of labels, endpoint labels, published port, cache mount and container; orphaned exactly if all pass and the root is gone |
| `Sessions.KindFromLabelsIff` | src/metadata/mod.rs:70-84 | managed exactly with the managed marker, transient exactly with only the transient marker, and otherwise not of agentbox |
| `Sessions.RunningIsConnectable` | src/session/connectable.rs:40-56 | a record built as Running is accepted with its own endpoint and labels; only managed ones are offered |
| `Sessions.ConnectIff` | src/session/connectable.rs:40-105 | `connect` accepts a session with this runtime, endpoint and directory exactly if it is Running and its labels and endpoint are just these |
| `Sessions.ConnectErrors` | src/session/connectable.rs:57-105 | each other status has its own error, and a running session that lacks something is told the first thing that is missing |
| `LaunchSpec.LaunchedLabelsAreSound` | src/session/labels/identity.rs:34-115 | the labels of a managed or transient launch pass every check that discovery makes |
| `LaunchSpec.LaunchRoundTrip` | src/runtime/spec.rs:395-458 | for both modes, both runtimes and every resolved workspace: once running with a parseable port and a live root, the container is Running, gives back root, hash, runtime and launch directory, and `connect` accepts it |
| `LaunchSpec.ServerArgsReadBack` | src/metadata/session.rs:50-65 | the server arguments of a managed session read back as given, and no other container carries any |
| `Paths.IsOrDescendantIff` | src/paths.rs:28-30 | for canonical paths containment is equality, the root above, or the root followed by a separator: a sibling whose name begins alike is not inside |
| `LaunchSpec.WorkspaceIsMountedInPlace` | src/runtime/spec.rs:441-458 | the workspace is mounted writable under its own path and its cache volume at the home directory, and no other mount is lost |
| `LaunchSpec.PublishedEntry` | src/runtime/spec.rs:362-364 | a server publishes exactly one port, that of its runtime, on the loopback address; a foreground container none |
| `LaunchSpec.LaunchedEndpoint` | src/runtime/spec.rs:413-428 | with Podman publishing as asked, the endpoint read back is the scheme of the runtime at the loopback address and the port that Podman chose |
| `Discovery.MarkDuplicateSessions` | src/session/discovery/scope.rs:157-185 | the two counting passes mark as the reference definition does |
| `Discovery.MarkingIsExact` | src/session/discovery/scope.rs:157-185 | order and length stay, failed records are untouched, and a record is Duplicate exactly if it was or another live record has its root |
| `Discovery.SharedRootIsNotConnectable` | src/session/discovery/scope.rs:157-185 | of several live sessions of one root `connect` accepts none after marking, and any other session is accepted or refused as before |
| `Discovery.MarkingIsIdempotent` | src/session/discovery/scope.rs:170-182 | marking twice is marking once |
| `Discovery.MarkingCommutesWithPermutation` | src/session/discovery/scope.rs:157-185 | marking commutes with every reordering |
| `Discovery.SessionCollector.Collect` | src/session/discovery/scope.rs:120-129 | keeps the collected sessions and the colliding roots equal to those of all records so far |
| `Discovery.SessionCollector.Finish` | src/session/discovery/scope.rs:131-142 | an error exactly if some root collides, else the marked sessions |
| `Discovery.Discover` | src/session/discovery/mod.rs:91-114 | the loop gives the reference result, and the first failing inspection ends it |
| `Discovery.LiveHashIsOfRoot` | src/session/labels/identity.rs:34-66 | a record that has not failed carries the hash of its own root |
| `Discovery.ScopedDiscoveryAgrees` | src/session/discovery/scope.rs:64-84 | when the unscoped query succeeds, the one for a root succeeds exactly if no container carries its hash under another root, and both give the same live sessions of the root with the same Duplicate marks |
| `Discovery.ScopedDiscoveryIsFilter` | src/session/discovery/scope.rs:64-84 | the result of the query for a root is an exact filter of the unscoped result, failed records and marks included |
| `Discovery.LaunchedContainerIsFound` | src/commands/container_launch/existing_resources.rs:15-46 | every launched server that is listed is found by the query of its root that precedes a launch, whatever its status |
| `Discovery.DiscoveredIff` | src/session/discovery/mod.rs:91-114 | what a query finds, on raw labels: exactly the managed containers, and the transient ones if asked for, whose listing and inspection are in scope; a managed query never gives a transient run |
| `Discovery.DiscoverySucceedsIff` | src/session/discovery/mod.rs:91-114 | a query succeeds exactly if every container that it asks for can be inspected and none of another root carries the hash of its root |
| `Discovery.ScanFailsIff` | src/session/discovery/mod.rs:91-114 | and otherwise the scan ends with the first container that cannot be inspected |
| `CleanPlan.FirstUser` | src/commands/clean/usage.rs:15-48 | the first container that uses a resource, or the fact that none does |
| `CleanPlan.UsageFromContainers` | src/commands/clean/usage.rs:15-48 | the index built by the nested loops answers every resource as a first-match scan over images and mounts does, a mount counting by its name or, without one, by its source |
| `CleanPlan.MatchingReferenceIsDefaultImage` | src/commands/clean/inventory.rs:81-99 | the filter on references lets through exactly the default image of the labelled runtime and context hash |
| `CleanPlan.LabeledCandidatesIff` | src/commands/clean/inventory.rs:73-99 | the images that may be cleaned at all are exactly the references in the listing of images labelled as the default image of just that name |
| `CleanPlan.Plan.AddDefaultRuntimeImages` | src/commands/clean/plan.rs:99-139 | one verdict for each distinct image, at its first occurrence |
| `CleanPlan.Plan.AddCacheVolumes` | src/commands/clean/plan.rs:141-160 | one verdict for each volume whose name agentbox gives |
| `CleanPlan.Plan.AddLockFiles` | src/commands/clean/plan.rs:162-179 | available lock files are candidates, locked ones are skipped |
| `CleanPlan.PlanFromInventory` | src/commands/clean/plan.rs:23-45 | candidates and skipped resources are the verdicts on the inventory in scope, in order |
| `CleanPlan.PlanIsPartition` | src/commands/clean/plan.rs:23-45 | each distinct image in scope is listed once, each volume and lock file as often as it was found, in exactly one of the two lists |
| `CleanPlan.CandidatesIff` | src/commands/clean/plan.rs:23-202 | if and only if, on the fields of the inventory: a listed image that no container runs and that is not the current default of any runtime, a recognised volume that no mount names (or, without a name, has as its source), an unlocked lock file |
| `CleanPlan.SkippedIff` | src/commands/clean/plan.rs:113-179 | and what is skipped is exactly the rest, each for its reason: the first container that uses it, being the current default image, or a held lock |
| `CleanPlan.LaunchedVolumeIsCleanable` | src/runtime/spec.rs:441-458 | every launched cache volume passes the name filter of `clean` |
| `CleanPlan.ApplyCleanPlan` | src/commands/clean/apply.rs:16-43 | every candidate is tried once in order, failures do not stop the rest and are all reported; it succeeds exactly if every attempt works |
| `CleanPlan.FailedAttemptsIff` | src/commands/clean/apply.rs:16-43 | a resource is reported as failed exactly if an attempt to remove it did not work |
| `ImageProtocol.RecordAgreesIffNotStale` | src/commands/runtime/image_lifecycle.rs:191-202 | over every interleaving of updates, builds on demand, cleanings and outside deletions, with failures and deaths anywhere: the record tells the version in its image if and only if it is not stale, which a history of builds and writes decides |
| `ImageProtocol.StepBreaksIff` | src/commands/runtime/image_lifecycle.rs:191-202 | a step breaks the agreement exactly if it builds the recorded image with another version, or if a write lands although another command has built the image with another version since this one's build or read |
| `ImageProtocol.OrderlyRunAgrees` | src/commands/runtime/image_lifecycle.rs:79-166 | if each successful build is followed by its write and no two commands on the runtime overlap between build or read and write, the record agrees whenever no build waits for its write |
| `ImageProtocol.RefreshKeepsBuild` | src/commands/runtime/image_state.rs:48-56 | in such a run a refresh changes no image, and neither image, context hash, version nor build time of the record |
| `ImageProtocol.OverlappingBuildsMislead` | src/commands/runtime/image_lifecycle.rs:191-202 | two overlapping builds, each followed by its own successful write, after which a launch is told a version that the image does not have |
| `ImageProtocol.OverlappingRefreshMisleads` | src/commands/runtime/image_lifecycle.rs:99-109 | a refresh that writes back a record over that of a build in between |
| `ImageProtocol.UnrecordedBuildMisleads` | src/commands/runtime/image_lifecycle.rs:191-202 | one build whose write is lost |
| `ImageProtocol.OneAfterTheOther` | src/commands/runtime/image_lifecycle.rs:79-166 | a concrete run that is orderly: a build on demand, an update that refreshes its record, and a deletion from outside |
| `ImageCommands.RuntimeImageEnvironment.UpdateDefaultRuntimeImage` | src/commands/runtime/image_lifecycle.rs:79-121 | under any schedule of other commands a successful update leaves a record of this image and version, true exactly if not stale; when everything works it fails only if the record was corrupt; undisturbed it does what `ImageRecord.UpdateExactly` says; its run is exactly its own steps with the possible ones of the schedule in between |
| `ImageCommands.RuntimeImageEnvironment.EnsureDefaultRuntimeImage` | src/commands/runtime/image_lifecycle.rs:123-166 | under any schedule: an image that is missing is built, and it succeeds exactly if version, build, clock and write work; one that is there is used, and it fails only if its record cannot be read; the version it hands on is that of the record of this image, true exactly if not stale; undisturbed it does what `ImageRecord.EnsureExactly` says; its run is exactly its own steps with the possible ones of the schedule in between |
| `ImageCommands.RuntimeImageEnvironment.RemoveDefaultRuntimeImage` | src/commands/clean/apply.rs:53-62 | under any schedule a successful cleaning leaves no record that names the image, and when everything works it fails only if the record was corrupt; undisturbed it does what `ImageRecord.CleanExactly` says; its run is exactly its own steps with the possible ones of the schedule in between |
| `ImageRecord.UpdateReportsTheImage` | src/commands/runtime/image_lifecycle.rs:95-120 | the version that a successful update reports is in the image and in the record; an image reported as current was not touched |
| `ImageRecord.EnsureReportsTheImage` | src/commands/runtime/image_lifecycle.rs:123-166 | the version that a launch is told is the one in its image |
| `ImageRecord.UpdateExactly` | src/commands/runtime/image_lifecycle.rs:79-121 | an undisturbed update succeeds exactly if version, record and clock can be read, the write lands and the image is current or its build works; it is reported as up to date exactly if image and record are current; what it leaves of images and both records, in every case |
| `ImageRecord.EnsureExactly` | src/commands/runtime/image_lifecycle.rs:123-166 | an undisturbed build on demand: exact success, the version that is handed on, and what it leaves, for an image that is there and for one that is missing |
| `ImageRecord.CleanExactly` | src/commands/clean/apply.rs:53-62 | a cleaning removes the image, and the record exactly if it names that image; exact success |
| `ImageRecord.UpdateIsSeenLater` | src/commands/runtime/image_lifecycle.rs:79-166 | after an update a launch is told its version and builds nothing, a second update finds the image current, and a cleaning takes the record along |
| `ImageContext.ImageContextHash` | src/runtime/default_image.rs:144-157 | the loop feeds the hasher exactly the framed files, and the hash has the form of a tag |
| `ImageContext.HexLowerAt` | src/digest.rs:21-31 | two hex digits for each byte, the high one first, so that a digest can be read back |
| `ImageContext.ContextHashIff` | src/runtime/default_image.rs:115-117 | a context hash is sixteen hex digits of either case |
| `ImageContext.PreimageRoundTrip` | src/runtime/default_image.rs:144-157 | the hashed bytes decode to the files they were made of, if no path contains NUL |
| `ImageContext.PreimageIsInjective` | src/runtime/default_image.rs:144-157 | different file lists never feed the same bytes |
| `ImageContext.NulInPathCollides` | src/runtime/default_image.rs:144-157 | with a NUL in a path one file can pass for two |
| `ImageContext.ReferencesAreDisjoint` | src/runtime/default_image.rs:93-101 | no image reference belongs to two runtimes |
| `ImageContext.DefaultImageParts` | src/runtime/default_image.rs:93-101 | a reference splits into the repository of its runtime and a tag that gives the hash back |
| `PathNorm.NormalizePath` | src/preflight/path.rs:74-95 | the push and pop loop computes the normal form |
| `PathNorm.AbsoluteHasNoDots` | src/preflight/path.rs:74-95 | a normalised absolute path has neither `.` nor `..` among its components |
| `PathNorm.NormalizingIsIdempotent` | src/preflight/path.rs:74-95 | normalising twice is normalising once, on the text of every path, absolute or relative |
| `PathNorm.NormalizedPathDenotesSameNode` | src/preflight/path.rs:27-29 | in every tree without symbolic links whose root is its own parent, a normalised absolute path leads to the same node |
| `PathNorm.RelativeDenotesSameNode` | src/preflight/path.rs:82-86 | so does a relative path that never climbs two steps above its start |
| `PathNorm.RelativeDenotesSameNodeIff` | src/preflight/path.rs:82-86 | and only such a relative path |
| `PathNorm.TwoStepsUpCollapse` | src/preflight/path.rs:82-92 | `../..` becomes `.` |
| `PathNorm.ComponentsResolve` | src/preflight/path.rs:74-95 | walking the components of a path is resolving its text part by part, in every tree |
| `PathNorm.NormalizedResolvesAlike` | src/preflight/path.rs:74-95 | on text alone: the normalised text resolves to the same node, for absolute paths and for relative ones that never climb two steps above their start |
| `PathNorm.ExpansionDenotesSameNode` | src/preflight/path.rs:46-55 | if a link and its target lead to the same node, so do the path through the link and the expanded path, in every tree |
| `ContainerNames.EscapeRoot` | src/workspace.rs:117-125 | one allowed ASCII character for each character; allowed ones are kept, a slash becomes an underscore |
| `ContainerNames.AsciiBytesAreChars` | src/workspace.rs:85-98 | every byte offset of the escaped root is a character boundary, so the slice cannot panic |
| `ContainerNames.NameFits` | src/workspace.rs:85-98 | a name has at most 63 bytes, all ASCII |
| `ContainerNames.HashIsRecovered` | src/workspace.rs:100-108 | the split at the last dash gives the hash back |
| `ContainerNames.NamesAreEqualIff` | src/workspace.rs:85-98 | names are equal exactly if hash and readable tail are, so different hashes give different names |
| `ContainerNames.NamePassesFilterIff` | src/workspace.rs:100-108 | the filter of `clean` accepts exactly the names of non-empty roots |
| `ContainerNames.WorkspaceResourceNameIff` | src/workspace.rs:100-108 | the filter accepts exactly `agentbox-`, something, a dash and twelve hex digits |
| `ContainerNames.NameCharIff` | src/workspace.rs:117-125 | escaping keeps ASCII letters, digits, dots, underscores and dashes, and nothing else |
| `NoProxy.MergeLoopbackNoProxy` | src/commands/runtime_command.rs:198-224 | the loops give the reference list for a loopback host and nothing for any other |
| `NoProxy.MergedSplitsBack` | src/commands/runtime_command.rs:198-224 | splitting the merged value gives all entries without repetitions, at their first occurrences in order, with every loopback name |
| `NoProxy.PaddedEntriesAreRead` | src/commands/runtime_command.rs:198-224 | every entry of a list is read in order, whatever white space stands around it, and nothing else; by `NoProxy.EveryValueIsPadded` this covers every value |
| `NoProxy.EveryValueIsPadded` | src/commands/runtime_command.rs:198-224 | every value is a list of padded entries and blanks |
| `NoProxy.MergingIsIdempotent` | src/commands/runtime_command.rs:198-239 | merging the result again, from either variable or from both, changes nothing |
| `Readiness.Host.WaitForServer` | src/commands/server_readiness/waiter.rs:54-103 | terminates after at most timeout/poll inspections, rounded up (450 with the constants of the program); ready exactly at a container that was inspected as running, with this endpoint, and answered the probe; everything before was pending and not interrupted |
| `Readiness.ReadySessionIsEndpointOfRecord` | src/session/endpoint.rs:40-48 | the endpoint of a ready managed session is the one its session record will have |
| `Readiness.DecisiveInspection` | src/commands/server_readiness/endpoint.rs:31-78 | one inspection ends the wait exactly if the container has stopped or its endpoint is healthy |
| `Readiness.DerivedEndpointIff` | src/commands/server_readiness/endpoint.rs:52-98 | a transient run is asked for the port of its own runtime, a managed session for that of the runtime its labels name, and it has none if they do not fit |
| `Readiness.LaunchedEndpointIsDerived` | src/commands/server_readiness/endpoint.rs:52-98 | a launched server is found at the same loopback endpoint either way |

## Left out

- Podman, git, npm, ssh and nix as programs: each call is an arbitrary reply.
- How Podman publishes `ip::port`: taken as one binding of that address to one free port (`LaunchSpec.PortsArePublished`).
- SHA-256 and randomness: parameters. Two things assume freedom from collisions: lock and token files, which the program names by the digest of a root, are kept per root in `LockProtocol` and `TokenLifecycle`; and `TokenLifecycle.TokenAgreesIffNotStale` takes a new token not to have the hash that an existing container was started with. Short hashes in names and labels may collide.
- JSON, TOML, command-line parsing, completion, tables, progress, prompts and the wording of messages: error kinds and exit codes only.
- UTF-8 decoding of a probe response, parsing of IP addresses, CPU limits and time formats: library code, taken as parameters.
- Directory enumeration and sorting in `cleanup_lock_files`, and I/O errors of the lock directory other than a missing file and unreadable metadata.
- The lock branch for systems other than Unix, which only checks that the path exists.
- Resolution of targets for health, restart and stop, and `stop` of several targets: one selected session is the input.
- Reading and resolving real symbolic links, and `access(2)` and socket probes of the preflight.
- Foreground containers of `exec` beyond the fact that they carry no labels.
- Containers whose labels or names someone forged: in `TokenLifecycle` only agentbox creates containers.
- A `podman run` that outlives its killed agentbox: in `TokenLifecycle` and `Commands` a container comes up while its command still holds the root lock, or not at all.
- Bytes of two overlapping writes of one state file: a write leaves the new file, the old one or a corrupt one.
- Interleaving of other roots inside one command of `Commands`: arbitrary interleaving is in `TokenLifecycle`.
- Spelling of git roots: canonical, so that equality of paths is equality of text.
- Names of labels: an enumeration in place of their text. The text of resource-limit and image-version labels that a launch adds is arbitrary.
- Order and repetition of the roots in an identity collision error: a set.
- Buffers as text: `NormalizePath` keeps its path as a list of components and renders it at the end.
- The in-place vectors of records and of list entries are sequences that the loops reassign.
- Log lines of a failing container, Wayland and SSH passthrough, resource limits: no effect on the properties above.
