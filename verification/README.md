# Nucleus, modelled and verified

Nucleus is a Linux container runtime.  This project models the parts of it whose
correctness is not visible in any single function (protocols between processes,
traversals that must agree, encodings that must be unambiguous) over an abstract
kernel and file system, and proves what they promise.  `dafny verify dfyconfig.toml`
checks all of it.

| file | what it models |
|---|---|
| `Common.dfy`, `Runs.dfy`, `Lexicographic.dfy` | shared types; runs of a transition relation; dictionary order |
| `Handshake.dfy` | the create/start handshake between parent, child, PID 1 and workload: safety |
| `HandshakeProgress.dfy` | the same protocol: no deadlock, and termination |
| `HandshakeSuccess.dfy` | the same protocol when every call succeeds |
| `HandshakeKills.dfy` | the same protocol when its processes are killed from outside |
| `FileTree.dfy` | directory trees, and a volume changed in place by system calls that may fail |
| `Workspace.dfy` | mirroring a staged workspace onto the host and back |
| `ContextCopy.dfy`, `PathText.dfy` | copying a context directory, and attesting the copy |
| `CheckpointStream.dfy`, `NameOrder.dfy` | the byte stream of a checkpoint directory |
| `CheckpointHmac.dfy`, `Hashing.dfy` | the authentication code over that stream |
| `AuditClock.dfy` | epoch seconds to a printed Gregorian timestamp |
| `StateStore.dfy` | the container state directory, crashes, listing and reference resolution |
| `PidIdentity.dfy` | telling a container's process from a later holder of its PID |
| `Capabilities.dfy` | narrowing a process to the gVisor handoff capabilities |
| `SignalForwarding.dfy` | the shutdown of the signal-forwarding thread |
| `ExitStatus.dfy` | how the workload's exit status reaches the caller |
| `IdMapping.dfy` | user-namespace id ranges: the check and the lookup |
| `Hardening.dfy` | what a native run has been through when it reaches exec |

## How the model is built

*Files.*  A tree maps every path below a fixed root to an entry; a `Volume` holds one
and is updated in place.  A volume may be `reliable`, and then every sound call
succeeds; otherwise any call may fail.  So each traversal has two results: what a
success means on any volume, and exactly when it succeeds on a reliable one.

*Hashes.*  SHA-256 is an arbitrary function.  A 32-byte hash cannot be injective, so
where injectivity would be needed the theorems say "equal, or here are two colliding
messages".

*Processes.*  Each system call of the handshake is one step; which calls fail and how
the processes interleave is up to the environment.  Pipes are counted messages with an
explicit set of open ends per process, so that end of file, a broken pipe and blocking
follow from who still holds what, including the ends a forked process inherits.

## Findings

Where a property turned out not to hold of the code in full, the code was kept and the
exact condition proved.

* `Workspace.MirrorIsExact`: a sync-out skips staged special files, so it mirrors the
  stage exactly if and only if each of those is already in place at the destination, of
  the same kind and mode.  `Workspace.MissingSpecialIsNotMirrored` and
  `Workspace.OtherSpecialIsNotMirrored` are two stages it does not mirror.
* `Workspace.UnreliableMirrorIsExact`: any failure to stat a staged entry counts as its
  absence, so on a stage whose calls may fail the cleanup can remove too much.  The copy
  restores it (`Workspace.PlainStageIsMirrored`), except special files: every success
  mirrors such a stage if and only if no special file is staged.
  `Workspace.UnseenSpecialIsLost` is one that was in place and is gone.
* `ContextCopy.ImportAttestsAlike`: a completed copy attests like its source if and only
  if the destination held no shown file of its own that the source lacks;
  `ContextCopy.LeftoverSplitsThem` is a destination with one.
* `AuditClock.OrderIsFaithful`: the printed order of timestamps is their order in time
  up to a moment if and only if that moment's year is at most 9999;
  `AuditClock.OrderBreaksAt10000` is the first pair out of order.
* `HandshakeKills.KilledRunComesToRest`: if the child is killed from outside after it
  forked PID 1 and before it reported PID 1's number, the parent waits for a report that
  PID 1's inherited pipe end keeps open, and PID 1 waits for the parent.  A run with any
  kills in it, of child, PID 1 and workload, comes to rest if and only if none fell on
  that moment, or PID 1 was killed after it; `HandshakeKills.UnannouncedIsReachable` is a
  run to that moment.
* `ExitStatus.ExitStatusSurvives`: a real-time signal has no name in the signal type the
  wait loops match on, so its report arrives as an error.  Whether it ended the workload
  (`ExitStatus.RealTimeSignalIsAnError`) or an orphan that PID 1 reaps
  (`ExitStatus.OrphanEndsTheRun`), the status becomes 1, or an error at the outer wait.
* `IdMapping.AcceptedIsMapped`: the check adds with saturation and the lookup adds with
  an overflow error, so an id can be accepted and then have no host id
  (`IdMapping.OverflowSplitsThem`); the lemma says exactly when.
* `PidIdentity.PanicsExactly`: the parser panics exactly when the last `)` of the text
  ends it or stands before a character beyond ASCII, as in
  `PidIdentity.TruncatedLinePanics`.  Lines as the kernel prints them never make it panic
  (`PidIdentity.KernelLineNeverPanics`).

## Model

| member | source | states |
|---|---|---|
| `Handshake.ParentAnswersKeepsSafe` | src/container/runtime.rs:869-900 | waiting for the mapping request, writing the maps and acknowledging keep the safety invariant |
| `Handshake.ParentMeetsKeepsSafe` | src/container/runtime.rs:902-903 | taking the reported PID keeps it: the target is the process the configuration picks |
| `Handshake.ParentRecordsKeepsSafe` | src/container/runtime.rs:905-977 | console hand-over, state file, PID file and cgroup attachment keep it, none of them left out |
| `Handshake.ParentConnectsKeepsSafe` | src/container/runtime.rs:979-1021 | starting the deny logger and setting the bridge up keep it; a failure passes only outside strict modes |
| `Handshake.ParentGuardsKeepsSafe` | src/container/runtime.rs:994-1011 | egress rules and the broker probe keep it; an egress failure passes only outside strict modes |
| `Handshake.ParentReleasesKeepsSafe` | src/container/runtime.rs:1023-1046 | the release byte keeps it and is the last step that can fail |
| `Handshake.ParentFailsKeepsSafe` | src/container/runtime.rs:1049-1055 | killing the target and the child, reaping and closing keep it |
| `Handshake.ChildBeginsKeepsSafe` | src/container/runtime.rs:1057-1096 | dropping unused ends and unsharing namespaces keep it |
| `Handshake.ChildMapsKeepsSafe` | src/container/runtime.rs:1190-1212 | requesting maps, waiting for the acknowledgement and becoming root keep it |
| `Handshake.ChildReportsKeepsSafe` | src/container/runtime.rs:1163-1224 | forking PID 1 and reporting the target keep it, for gVisor, with and without a PID namespace |
| `Handshake.ChildRunsKeepsSafe` | src/container/runtime.rs:1175-1247 | a child that is itself the target passes release, its own setup, the FIFO of a deferred native start only, and exec without breaking it |
| `Handshake.InitPreparesKeepsSafe` | src/container/runtime.rs:1225-1234 | PID 1's wait for the release byte, its own setup and its wait at the FIFO of a deferred start only keep it |
| `Handshake.InitRunsKeepsSafe` | src/container/runtime.rs:1803-1813 | PID 1's exec, or its fork of a supervised workload into its own cgroup, keeps it |
| `Handshake.RunIsSafe` | src/container/runtime.rs:845-1096 | the safety invariant holds in every state of every interleaving |
| `Handshake.ExecOnlyAfterSetup` | src/container/runtime.rs:845-1096 | in every interleaving the workload or runsc is exec'd at most once, by the process the configuration picks, and before that the id maps are written, the state and PID file are saved, the exec'ing process is in the cgroup, bridge, broker and egress are done or (outside strict modes) tolerated, the process has entered its namespaces and finished its own setup, and a deferred native start has a FIFO reader |
| `Handshake.FailureRunsNothing` | src/container/runtime.rs:868-1055 | if the parent's setup returns an error at any point of a run, nothing is exec'd at any point of that run |
| `Handshake.ReleaseIsLast` | src/container/runtime.rs:1023-1046 | once the release byte is sent, the parent's setup returns no error, at any point of the run |
| `Handshake.FailedCallEnds` | src/container/runtime.rs:984-1021 | a call that fails ends its process, and fails the parent unless it was bridge or egress setup outside strict modes |
| `Handshake.RequestsMatch` | src/container/runtime.rs:226-234 | for every configuration the child requests id maps exactly when the parent waits for a request, and which configurations these are |
| `HandshakeProgress.RunIsLive` | src/container/runtime.rs:845-1096 | who holds which pipe end and which messages are under way, in every state of every interleaving |
| `HandshakeProgress.ParentIsNotStuck` | src/container/runtime.rs:868-1055 | a parent that has not returned can step, or waits for a child that can |
| `HandshakeProgress.ChildIsNotStuck` | src/container/runtime.rs:1163-1247 | once the parent has returned, a waiting child sees data or end of file |
| `HandshakeProgress.InitIsNotStuck` | src/container/runtime.rs:1225-1234 | once the parent has returned, a waiting PID 1 sees data or end of file |
| `HandshakeProgress.NoDeadlock` | src/container/runtime.rs:1909-1986 | every state that satisfies the invariant is at rest or has an enabled step that needs no outside help |
| `HandshakeProgress.StepsRunOut` | src/container/runtime.rs:845-1096 | every step of every process decreases a measure |
| `HandshakeProgress.RunsAreBounded` | src/container/runtime.rs:845-1096 | after any number of steps, that many and what is left stay within the bound at the start |
| `HandshakeProgress.CreateComesToRest` | src/container/runtime.rs:845-1096 | no run has more than 45 states, and one that is not at rest can go on |
| `HandshakeProgress.FailureLeavesNothing` | src/container/runtime.rs:1049-1055 | at rest after a failed setup, child and PID 1 are gone and nothing was exec'd: survivors saw end of file |
| `HandshakeProgress.SuccessIsDelivered` | src/container/runtime.rs:1023-1046 | at rest after a successful setup, with a FIFO reader if the start is native and deferred, the workload or runsc has been exec'd or its process has ended |
| `HandshakeProgress.StartIsAwaited` | src/container/runtime.rs:1770-1783 | what has not exec'd or ended then waits at the FIFO, of a deferred native start only, for a reader |
| `HandshakeProgress.FailureKillsTarget` | src/container/runtime.rs:1049-1055 | a failed setup has killed the process that was reported to it |
| `HandshakeSuccess.GoodRunIsGood` | src/container/runtime.rs:845-1096 | as long as every call succeeds no process ends and the parent does not fail, in any interleaving |
| `HandshakeSuccess.GoodRunExecs` | src/container/runtime.rs:845-1096 | once no process of such a run can go on, and the FIFO is read if it is waited on, the container is created and the right process has exec'd |
| `HandshakeSuccess.ExecIsReachable` | src/container/runtime.rs:845-1096 | every configuration has such a run |
| `HandshakeKills.ExecOnlyAfterSetupDespiteKills` | src/container/runtime.rs:845-1096 | with any number of outside kills of child, PID 1 and workload, at any moments, exec still happens at most once and only after everything it needs |
| `HandshakeKills.FailureRunsNothingDespiteKills` | src/container/runtime.rs:868-1055 | nor does a failed setup ever exec anything |
| `HandshakeKills.KillOrphans` | src/container/runtime.rs:1216-1234 | killing the child leaves parent and PID 1 waiting for each other exactly when PID 1 is born and not yet reported; killing PID 1 ends that wait |
| `HandshakeKills.OrphanedStays` | src/container/runtime.rs:1216-1234 | no step of any process leads out of that wait |
| `HandshakeKills.KilledRunKeepsCore` | src/container/runtime.rs:845-1096 | all that the processes know of pipe ends and messages survives any kills |
| `HandshakeKills.LiveOrOrphaned` | src/container/runtime.rs:1216-1234 | that wait is the only way in which kills can break the progress invariant |
| `HandshakeKills.OrphanedExactly` | src/container/runtime.rs:1216-1234 | at any point of a run the two wait for each other if and only if such a kill happened and PID 1 was not killed since |
| `HandshakeKills.OrphanedIsStuck` | src/container/runtime.rs:1909-1933 | it is not rest, and after at most one step of the parent no process can go on |
| `HandshakeKills.KilledRunIsBounded` | src/container/runtime.rs:845-1096 | however often processes are killed, they take at most 44 steps |
| `HandshakeKills.KilledRunComesToRest` | src/container/runtime.rs:1216-1234 | once no process can go on, a run with any kills in it is at rest if and only if no kill of the child fell on an unreported PID 1 that was not killed after it |
| `HandshakeKills.UnannouncedIsReachable` | src/container/runtime.rs:1216-1224 | every native configuration with a PID namespace has a run to that moment, id maps exchanged or not |
| `Capabilities.Task.Capset` | src/container/runtime.rs:2056-2067 | the capset rules the sequence relies on: when a call is permitted and what it leaves; consistency is kept, Permitted never grows and Bounding stays |
| `Capabilities.HandoffNumbers` | src/container/runtime.rs:2006-2022 | which capabilities the handoff set holds |
| `Capabilities.Task.DropBoundingExtras` | src/container/runtime.rs:2068-2074 | with CAP_SETPCAP effective the loop removes exactly the extras from Bounding, and no intermediate state is inconsistent |
| `Capabilities.Task.DropPermittedExtras` | src/container/runtime.rs:2075-2081 | the loop removes exactly the extras from Permitted, because Effective was lowered first |
| `Capabilities.Task.SetAmbient` | src/container/runtime.rs:2082-2087 | every raise is permitted when the set lies in Permitted and Inheritable, and the result is that set |
| `Capabilities.Task.RestoreHandoff` | src/container/runtime.rs:2024-2095 | succeeds exactly when the handoff set lies in Permitted and in Inheritable union Bounding; then Permitted, Effective, Inheritable and Ambient equal it and Bounding is cut to it; every state on the way is consistent and none regains anything |
| `SignalForwarding.StepKeepsControl` | src/container/runtime.rs:1841-1858 | stop order, origin of the signal in hand and count of late signals are kept by every step |
| `SignalForwarding.StepKeepsAccount` | src/container/runtime.rs:1841-1858 | every signal sent from outside stays accounted for: pending, in hand, passed on, merged or dropped |
| `SignalForwarding.ForwardingIsFaithful` | src/container/exec.rs:276-289 | in every interleaving the stopper's wake-up is never passed on, at most one signal is after the flag is stored, and none is lost or invented |
| `SignalForwarding.PendingIsPassedOn` | src/container/runtime.rs:1847-1856 | a pending signal is taken, checked and passed on to the child while the flag is not set |
| `SignalForwarding.WaitingMeansPassedOn` | src/container/exec.rs:278-289 | once the thread waits with nothing pending, each signal sent has been passed on, apart from those merged with one of the same number |
| `SignalForwarding.OneIsNotMerged` | src/container/runtime.rs:1847-1856 | not all signals of one number merge |
| `SignalForwarding.MergingMeans` | src/container/runtime.rs:1847-1856 | a signal merges only with one of its number that is already pending, and what is passed on after the flag is set counts as late |
| `SignalForwarding.SilentAfterStop` | src/container/runtime.rs:2446-2458 | once stop() has returned nothing is passed on, whatever arrives |
| `SignalForwarding.StopTerminates` | src/container/runtime.rs:2446-2458 | from the store of the flag on, thread and stopper take at most five steps, however many signals arrive |
| `SignalForwarding.StopIsNeverStuck` | src/container/signals.rs:6-19 | until stop() returns, the thread or the stopper can take a step without any outside signal |
| `ExitStatus.ReapUntilWorkloadEnds` | src/container/exec.rs:293-325 | the reaper's loop yields the first deciding event, orphans and interruptions passed over |
| `ExitStatus.WaitForPidNamespaceChild` | src/container/runtime.rs:2147-2157 | the namespace parent's loop yields the first deciding event |
| `ExitStatus.WaitForChild` | src/container/runtime.rs:1883-1907 | the outer loop yields the first deciding event, an error included |
| `ExitStatus.ReaperRelays` | src/container/exec.rs:293-325 | whatever orphans end before it, PID 1 ends with the workload's code or 128 plus its signal, unless a real-time signal ended one of them |
| `ExitStatus.NamespaceRelays` | src/container/runtime.rs:2147-2157 | the namespace parent passes the same status on |
| `ExitStatus.OuterRelays` | src/container/runtime.rs:1883-1907 | the outer wait returns the same status |
| `ExitStatus.ErrorsDecide` | src/container/exec.rs:313-322 | the first error of a wait decides: 1 below, an error at the outer wait; without one the wait goes on |
| `ExitStatus.ExitStatusSurvives` | src/container/runtime.rs:2301-2310 | through all layers and for any schedule the result is the workload's code or 128 plus its signal, if and only if no real-time signal was involved (or the code is 1) |
| `ExitStatus.RealTimeSignalIsAnError` | src/container/runtime.rs:1896-1901 | a workload ended by signal 34 makes the outer wait an error |
| `ExitStatus.OrphanEndsTheRun` | src/container/exec.rs:319-322 | an orphan ended by signal 34 makes PID 1 end with 1 before a workload that ends with 0 |
| `ExitStatus.FinishRun` | src/container/runtime.rs:2301-2352 | a failed workspace sync replaces a good result and no other |
| `ExitStatus.RunResult` | src/container/runtime.rs:2301-2354 | so the caller gets that status, or the sync error |
| `IdMapping.LookUp` | src/container/runtime.rs:531-563 | the loop is decided by the first range that overflows or covers the id |
| `IdMapping.OutcomeMeans` | src/container/runtime.rs:531-563 | which of the four outcomes that range decides, and which host id |
| `IdMapping.AcceptedIsMapped` | src/container/runtime.rs:531-563 | an accepted id has a host id exactly when no range up to the first that reaches it overflows and the host id fits |
| `IdMapping.MappedIsAccepted` | src/container/config.rs:1605-1627 | whatever the lookup maps, the check accepts |
| `IdMapping.AcceptsMeans` | src/container/config.rs:1605-1627 | the check accepts an id below the end of a range that starts at or below it, and never the last id |
| `IdMapping.CheckAgreesWithLookup` | src/container/config.rs:1605-1627 | without overflow the check accepts an id if and only if the lookup maps it |
| `IdMapping.OverflowSplitsThem` | src/container/config.rs:1605-1627 | a range that overflows and an id that is accepted but not mapped |
| `IdMapping.OrderDoesNotMatter` | src/container/runtime.rs:531-563 | with disjoint container ranges every permutation of the list gives the same result |
| `IdMapping.LookupIsInjective` | src/container/runtime.rs:531-563 | with disjoint host ranges no two ids share a host id |
| `Workspace.RemoveExisting` | src/filesystem/workspace.rs:166-188 | removes an entry with all below it, and nothing else |
| `Workspace.CopyEntry` | src/filesystem/workspace.rs:190-268 | carries the copy out at and below one entry, whatever kind was there before, and touches nothing else; succeeds exactly within the depth bound |
| `Workspace.CopyDir` | src/filesystem/workspace.rs:191-222 | the same for a directory, its mode set after its contents |
| `Workspace.CopyChildren` | src/filesystem/workspace.rs:123-164 | the same for all children of a directory, in any listing order |
| `Workspace.RemoveStaleEntry` | src/filesystem/workspace.rs:285-320 | removes an entry missing from the stage, or one whose staged counterpart cannot be statted; recurses where both sides are directories; keeps the rest |
| `Workspace.RemoveStale` | src/filesystem/workspace.rs:270-323 | removes exactly what is missing from staged directories, and on a stage whose calls may fail possibly more, never less |
| `Workspace.CleanThenCopy` | src/filesystem/workspace.rs:110-121 | the two passes compose: what each leaves, at every path, gives the mirror; what the cleanup removed too much is lost only where a special file is staged |
| `Workspace.MirrorIsExact` | src/filesystem/workspace.rs:110-121 | over a stage whose calls work, the destination equals the stage if and only if every staged special file is already in place, of the same kind and mode |
| `Workspace.PlainStageIsMirrored` | src/filesystem/workspace.rs:110-121 | without special files the mirror is exact even if staged entries could not be statted during the cleanup |
| `Workspace.UnreliableMirrorIsExact` | src/filesystem/workspace.rs:295-299 | over a stage whose calls may fail, every success mirrors it if and only if no special file is staged |
| `Workspace.UnseenSpecialIsLost` | src/filesystem/workspace.rs:295-299 | a special file in place at the destination is removed when its staged counterpart cannot be statted, and not restored |
| `Workspace.MissingSpecialIsNotMirrored` | src/filesystem/workspace.rs:263-265 | a staged special file that the destination lacks is left out |
| `Workspace.OtherSpecialIsNotMirrored` | src/filesystem/workspace.rs:263-265 | one of another kind at the destination stays |
| `Workspace.SyncOut` | src/filesystem/workspace.rs:110-121 | on any volumes a success leaves the destination equal to a stage without special files, whatever kind conflicts there were; on reliable ones it succeeds exactly when no staged directory is nested deeper than 256 |
| `Workspace.CopyIn` | src/filesystem/workspace.rs:98-108 | into an empty stage it yields the host tree without its special files |
| `Workspace.CopyIntoEmpty` | src/filesystem/workspace.rs:190-268 | a copy into an empty tree is the source without its special files |
| `Workspace.RoundTrip` | src/filesystem/workspace.rs:98-121 | copy-in and sync-out turn the host tree into itself minus its special files, and succeed exactly within the depth bound |
| `Workspace.RoundTripTwice` | src/filesystem/workspace.rs:98-121 | a second cycle changes nothing more |
| `ContextCopy.FilteredEntries` | src/filesystem/context.rs:84-124 | lists exactly the entries that are not withheld, each once, and refuses beyond the depth bound |
| `ContextCopy.CopyRecursive` | src/filesystem/context.rs:127-153 | copies exactly the shown files and directories below a path over whatever the destination holds, and nothing else changes; succeeds exactly when nothing clashes and nothing is too deep |
| `ContextCopy.CopyListed` | src/filesystem/context.rs:128-150 | the loop over the listed entries copies exactly those, in any listing order |
| `ContextCopy.CopyOne` | src/filesystem/context.rs:129-149 | one entry: a directory is kept or made and recursed into, a file is written over a file, a kind clash fails, links and special files of the source are skipped |
| `ContextCopy.Populate` | src/filesystem/context.rs:23-47 | a success leaves the shown part of the source over what the destination held before; on reliable volumes a failure means a clash, excess depth or no source directory; new directories have the mode the umask leaves; writes diverted by a link or device are outside the claim |
| `ContextCopy.ImportMeans` | src/filesystem/context.rs:127-153 | path by path: shown files as they are, shown directories kept or made, all else untouched |
| `ContextCopy.FitsOrDiverts` | src/filesystem/context.rs:131-149 | which entries can be put over which, and which writes leave the destination |
| `ContextCopy.ValidateRecursive` | src/filesystem/context.rs:155-175 | passes exactly the trees whose shown entries are all regular files or directories within reach |
| `ContextCopy.PreflightLosesNothing` | src/filesystem/context.rs:155-175 | a tree that passes fits into an empty destination, and the copy loses no shown entry |
| `ContextCopy.ScanDir` | src/filesystem/attestation.rs:192-223 | adds to the manifest exactly the shown regular files below a directory, with their digests |
| `ContextCopy.ScanEntry` | src/filesystem/attestation.rs:235-253 | the same for one entry |
| `ContextCopy.SnapshotContextDir` | src/filesystem/attestation.rs:23-27 | the result is the manifest of the tree, and it exists exactly when all listed paths are UTF-8 |
| `ContextCopy.CompareManifests` | src/filesystem/attestation.rs:135-181 | equal if and only if nothing is reported, and each reported path is under the right heading |
| `ContextCopy.VerifyContextManifest` | src/filesystem/attestation.rs:34-37 | passes exactly when the destination's manifest is the expected one |
| `ContextCopy.ImportAttestsAlike` | src/filesystem/attestation.rs:135-253 | for every source tree the copy and the source have the same manifest if and only if the destination held no other shown file |
| `ContextCopy.LeftoverSplitsThem` | src/filesystem/context.rs:127-153 | a file that was at the destination before makes the manifests differ |
| `ContextCopy.EmptyFits` | src/filesystem/context.rs:127-153 | into an empty destination a copy fits whenever no shown directory is nested deeper than 128, and nothing else is there |
| `ContextCopy.EqualManifestsMeanEqualFiles` | src/filesystem/attestation.rs:135-253 | equal manifests mean the same shown files with the same contents, or a hash collision |
| `ContextCopy.ImportContext` | src/filesystem/attestation.rs:23-37 | snapshot, copy and verification together: on reliable volumes they pass without a diverted write exactly when the names are UTF-8, everything fits and nothing else was there; a run that meets a link or device at the destination is outside the claim |
| `Hashing.Hasher.UpdateFromFile` | src/filesystem/attestation.rs:326-344 | reading through a fixed buffer hashes exactly the file |
| `CheckpointStream.Le64Injective` | src/checkpoint/criu.rs:695-695 | the eight-byte length field determines the length |
| `CheckpointStream.RecordReadsBack` | src/checkpoint/criu.rs:686-718 | one record can be read back, whatever follows it |
| `CheckpointStream.EncodeReadsBack` | src/checkpoint/criu.rs:637-728 | two lists of records with the same bytes are the same list |
| `CheckpointStream.WalkCovers` | src/checkpoint/criu.rs:637-728 | the traversal visits every path below a directory, and no other |
| `CheckpointStream.WalkIsInOrder` | src/checkpoint/criu.rs:653-690 | a directory comes before what it holds, and of two siblings the one with the smaller name first, with all below it |
| `NameOrder.PrecedesMeans` | src/checkpoint/criu.rs:653-653 | smaller means byte by byte, as unsigned numbers, a name before its continuations |
| `CheckpointStream.StripMeans` | src/checkpoint/criu.rs:662-664 | only the root entry named `checkpoint.hmac` is left out |
| `CheckpointStream.LeBytesMean` | src/checkpoint/criu.rs:695-695 | the length field is little-endian |
| `CheckpointStream.ExampleStream` | src/checkpoint/criu.rs:686-718 | the bytes of a small directory, written out |
| `CheckpointStream.StreamIsUnambiguous` | src/checkpoint/criu.rs:637-728 | two directories have the same stream if and only if they hold the same directories and files with the same contents, the root entry `checkpoint.hmac` apart |
| `CheckpointStream.UpdateDir` | src/checkpoint/criu.rs:637-728 | the recursive hasher loop absorbs exactly the stream, and fails exactly on links, special files and names that are not UTF-8 |
| `CheckpointStream.UpdateEntry` | src/checkpoint/criu.rs:666-724 | one entry absorbs its record and, for a directory, everything below it |
| `CheckpointStream.UpdateFile` | src/checkpoint/criu.rs:691-718 | a file absorbs its header, its length and its content, read in chunks |
| `CheckpointHmac.FillKeyBlock` | src/checkpoint/criu.rs:609-615 | the key block of section 2 of RFC 2104, for every key length |
| `CheckpointHmac.Mask` | src/checkpoint/criu.rs:617-624 | the xor loop yields the padded key |
| `CheckpointHmac.ComputeHmac` | src/checkpoint/criu.rs:608-635 | the chunked computation is HMAC, per section 2 of RFC 2104, of the directory's stream, in hexadecimal |
| `CheckpointHmac.HmacIsRfc2104` | src/checkpoint/criu.rs:608-635 | key padding and hashing, inner pad 0x36, outer pad 0x5C and the two hashes as section 2 of RFC 2104 has them |
| `CheckpointHmac.XorMeans` | src/checkpoint/criu.rs:619-624 | the pads are xor'ed bit by bit |
| `CheckpointHmac.HexMeans` | src/checkpoint/criu.rs:634-634 | two lower-case digits a byte, the high one first |
| `CheckpointHmac.HmacSeparates` | src/checkpoint/criu.rs:608-635 | equal codes under one key mean equal texts, or a collision on messages named in the lemma |
| `CheckpointHmac.WriteHmac` | src/checkpoint/criu.rs:328-385 | leaves the directory with its code in place and no temporary file; succeeds exactly when the directory can be sealed |
| `CheckpointHmac.SealedFile` | src/checkpoint/criu.rs:351-383 | the code is in `checkpoint.hmac` with mode 0600, and no temporary file is left |
| `CheckpointHmac.VerifyHmac` | src/checkpoint/criu.rs:387-423 | passes exactly when the stored text, white space around it trimmed, is the code of the directory around it |
| `CheckpointHmac.NoBreakSpaceIsTrimmed` | src/checkpoint/criu.rs:395-403 | white space beyond ASCII around the stored code is trimmed as well |
| `CheckpointHmac.WhiteUnitMeans` | src/checkpoint/criu.rs:395-403 | a character counts as white space exactly if its code point does |
| `Common.WhiteSpaceTable` | src/checkpoint/criu.rs:395-403 | the 25 code points that count as white space |
| `CheckpointHmac.SealedVerifies` | src/checkpoint/criu.rs:328-423 | what was sealed verifies, whatever stale files were around |
| `CheckpointHmac.WriteThenVerify` | src/checkpoint/criu.rs:328-423 | on a reliable volume writing and then verifying succeeds, over an old code or a stale temporary file |
| `CheckpointHmac.TamperingIsDetected` | src/checkpoint/criu.rs:387-423 | a directory that passes with another one's code, white space around it or not, holds the same files, or the hash collides |
| `AuditClock.YearOfEraIs` | src/audit.rs:111-111 | the closed year formula gives the year whose days include the day |
| `AuditClock.CivilAdvances` | src/audit.rs:108-117 | for every day count, before and after the epoch, the formula moves on as the calendar does |
| `AuditClock.CivilIsValid` | src/audit.rs:108-117 | it always yields a valid Gregorian date |
| `AuditClock.CivilIsStep` | src/audit.rs:108-117 | it equals stepping a leap-year calendar that many days from 1970-01-01 |
| `AuditClock.LaterDayLaterDate` | src/audit.rs:108-117 | it is strictly monotone |
| `AuditClock.TimestampOrder` | src/audit.rs:94-122 | up to the year 9999 the string order of timestamps is their order in time (section 5.1 of RFC 3339) |
| `AuditClock.StampMeans` | src/audit.rs:96-117 | a stamp is the moment: a date stepped from the epoch, and the time left of the day |
| `AuditClock.TextReadsBack` | src/audit.rs:119-122 | year, month and day stand in the text where section 5.6 of RFC 3339 puts them |
| `AuditClock.ClockReadsBack` | src/audit.rs:119-122 | so do hour, minute, second and millisecond |
| `AuditClock.FourDigitsUntil` | src/audit.rs:119-122 | the exact millisecond at which the year takes a fifth digit |
| `AuditClock.OrderBreaksAt10000` | src/audit.rs:119-122 | two neighbouring timestamps that are out of order |
| `AuditClock.OrderIsFaithful` | src/audit.rs:94-122 | string order is time order up to a moment if and only if its year is at most 9999 |
| `StateStore.PathsNeverCollide` | src/container/state.rs:533-550 | state, temporary, FIFO and overlay paths of valid ids are equal only for the same kind and id |
| `StateStore.PathExamples` | src/container/state.rs:513-550 | the names and the alphabet of ids, written out |
| `StateStore.Store.SaveState` | src/container/state.rs:593-633 | truncate, write, sync and rename, cut off anywhere, change the files as the specification says |
| `StateStore.Store.DeleteState` | src/container/state.rs:667-687 | deletion, idempotent or cut off, likewise |
| `StateStore.Store.LoadState` | src/container/state.rs:652-664 | yields what is visible for the id |
| `StateStore.Store.ListStates` | src/container/state.rs:690-725 | whatever order the directory comes in, each visible state is listed exactly once, and files that do not parse are passed over |
| `StateStore.AlwaysSound` | src/container/state.rs:593-687 | after any sequence of operations, each cut off anywhere, every state file is the complete state of the id in its name |
| `StateStore.OldOrNew` | src/container/state.rs:593-687 | an operation takes effect in full or not at all, and only on its own id |
| `StateStore.SaveIsTidy` | src/container/state.rs:593-633 | a finished save leaves its state, no temporary file, and all else as it was |
| `StateStore.StoppedSaveIsHarmless` | src/container/state.rs:593-633 | one that stops early changes nothing but its temporary file |
| `StateStore.VisibleIsReplayed` | src/container/state.rs:593-687 | after any history an id shows the effect of the operations that finished, and no trace of those cut off |
| `StateStore.ResolutionIsMeaning` | src/container/state.rs:553-590 | exact id, then unique name, then unique prefix of the id, ambiguity and absence included, as a property of the fields of the set of states |
| `StateStore.MeaningIsUnique` | src/container/state.rs:553-590 | a reference has at most one meaning in a set of states |
| `StateStore.ResolutionIgnoresOrder` | src/container/state.rs:553-590 | two listings of the same files resolve every reference alike |
| `PidIdentity.ParserFindsField22` | src/container/state.rs:218-229 | whatever spaces and parentheses the command name holds, the parser returns field 22 |
| `PidIdentity.ParsesAfterName` | src/container/state.rs:218-229 | on every other text it reads the fields after the last `)` and one more character |
| `PidIdentity.PanicsExactly` | src/container/state.rs:218-229 | the parser panics exactly when the last `)` ends the text or stands before a character beyond ASCII |
| `PidIdentity.NoParenthesisNoPanic` | src/container/state.rs:220-220 | a text without `)` yields no start time and no panic |
| `PidIdentity.TruncatedLinePanics` | src/container/state.rs:224-224 | a line cut off after the command name makes it panic |
| `PidIdentity.KernelLineNeverPanics` | src/container/state.rs:218-229 | no line of the kernel's form does, whatever the command name and the fields hold |
| `PidIdentity.ParseDecimal` | src/container/state.rs:224-228 | every 64-bit number printed in decimal reads back |
| `PidIdentity.ParseExactly` | src/container/state.rs:227-228 | a number is read exactly from digits, after at most one plus sign, whose value fits 64 bits |
| `PidIdentity.SplitSpaced` | src/container/state.rs:224-228 | splitting at white space recovers the fields of a line |
| `PidIdentity.ReadStartTicks` | src/container/state.rs:202-215 | the first of five readings that parses, or 0 |
| `PidIdentity.FirstTicksMeans` | src/container/state.rs:202-215 | the first reading that parses decides, whatever was missing before it |
| `PidIdentity.IsRunningMeansSameProcess` | src/container/state.rs:235-253 | over any history in which holders of a PID have distinct nonzero start times, a start time recorded from the first reading that succeeds makes a readable PID count as running exactly if it is still the recorded process, and is never a panic |
| `PidIdentity.UnrecordedIsNotRunning` | src/container/state.rs:202-253 | a start time that could not be recorded never counts as running |
| `Hardening.SetupAndExec` | src/container/runtime.rs:1291-1765 | exactly which answers of the kernel let a native child reach exec, and which layers and security state they give: every layer that works is in force, opt-in or not; no state transition is ever refused |
| `Hardening.AdmissionKeepsSafeguards` | src/container/config.rs:1420-1516 | validation and guards leave no strict configuration with a loophole, and change only the runtime |
| `Hardening.AdmittedExactly` | src/container/config.rs:1420-1590 | every reason for which validation and guards refuse a configuration, and no other |
| `Hardening.AdmissionChanges` | src/container/guards.rs:25-82 | the runtime of an untrusted workload is all that admission changes |
| `Hardening.HardenedMeans` | src/container/runtime.rs:1741-1765 | without the degraded opt-in both filters are in force, in order after the capability drop |
| `Hardening.RunNative` | src/container/guards.rs:11-23 | every native run that reaches exec in strict-agent or production mode has pivoted its root, dropped capabilities before seccomp, applied seccomp before Landlock, and is locked; in agent mode without the degraded opt-in both filters are applied |

## Left out

- Handshake.ExecOnlyAfterSetup: the console hand-over and the seccomp trace reader are one fallible step, and so is everything between release and FIFO; `Hardening` looks into the latter.
- Handshake.ParentFailsKeepsSafe: kill(2) reaches the process meant; a PID reused between the target's death and the kill is not modelled.
- Handshake.InitRunsKeepsSafe: the supervised workload's own copies of the pipe ends between fork and exec are not modelled; all messages have been read by then.
- HandshakeProgress.NoDeadlock: kills from outside are in `HandshakeKills`, where child, PID 1 and workload can be killed, but not the parent; a message is one unit, so interrupted calls, short reads and writes and errors other than a closed pipe do not occur; a start() that waits on a FIFO whose writer died is outside the create phase.
- Capabilities.Task.RestoreHandoff: securebits that forbid raising ambient capabilities, and failures to read the current sets.
- SignalForwarding.StopTerminates: says that no step is missing and few are left, which gives termination under a fair scheduler; a second stop() by the guard's destructor finds nothing to do.
- ExitStatus.ExitStatusSurvives: a gVisor run counts as one without a PID namespace; the kill of a child that could not be waited for is not modelled.
- ContextCopy.Populate: a write that meets a link or a device at the destination goes elsewhere (outcome `Diverted`), and nothing is promised of the destination then.
- ContextCopy.ImportContext: the same; in particular a source directory without shown files over a destination link to a directory passes in the program and is `Diverted` here.
- ContextCopy.SnapshotContextDir: manifests are keyed by path components, which the joined text determines for valid names.
- CheckpointHmac.WriteHmac: the key is a parameter; loading or creating it, with its ownership and permission checks, is not modelled.
- Workspace.SyncOut: whether the policy allows the host path, and whether the staging directory is one, are parameters; changes made by others during a traversal are not modelled.
- StateStore.Store.SaveState: one writer at a time; symbolic links in the state directory and the order in which a file system makes renames durable are not modelled.
- Hardening.SetupAndExec: groups of mount calls, hooks, policy files and resource limits are one answer of the kernel each.
- The rootfs attestation and its Nix store rules: a second instance of the scan, with one more check per link.
- The name patterns that are withheld from a context copy: a fixed predicate, a parameter here.
- Checkpoint and restore around CRIU, network and egress setup, seccomp programs, Landlock rules, cgroups, the topology reconciler and the OCI configuration: device and kernel plumbing, or separate components.
- Command redaction in the audit log, command-line parsing, telemetry, health probes, GPU discovery: string rules and wiring without a deep invariant.
