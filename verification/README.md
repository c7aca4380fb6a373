# Verified model of pathshim

pathshim runs a command under a seccomp user-notification supervisor that rewrites guest
paths to host paths, without a mount. This project models its logic in Dafny and proves what
that logic guarantees over every input, every sequence of notifications and every
interleaving of the startup protocol. Nothing in it executes pathshim.

Check it with `dafny verify dfyconfig.toml`.

## How it is laid out

| file | what it models |
|---|---|
| `Paths.dfy` | pathnames as bytes, components, the two normalising loops, their laws, and how far a pathname climbs |
| `Bind.dfy` | opening a bind view, its stable sort, the forward and the reverse lookup, both round trips |
| `HostView.dfy` | a host tree of directories, files and links, one host call through a view, and the guest's own tree it must look like |
| `TreeMoves.dfy` | when a rename moves the guest's whole subtree, as a condition on the list of binds |
| `Getdents.dfy` | the packed directory records, the greedy page fill, the cursor, and a decoder |
| `Remote.dfy` | chunked pathname reads, the bounded in-place rewrite, the executable alias |
| `Dispatch.dfy` | every handler: as a function from state to state and effects, and as a class that does it in place |
| `Supervision.dfy` | whole runs: the state invariant, replies, no fall-through |
| `HostChanges.dfy` | what a notification changes on the host, through the supervisor or, once continued, through the kernel |
| `Visibility.dfy` | which changes of the host a guest sees through its binds |
| `Bases.dfy` | what a relative pathname starts from: procfs links, recorded descriptors, threads of one group |
| `GuestCwd.dfy` | the guest cwd over whole runs, what descendants inherit, and what the kernel makes of a continued pathname |
| `Refinement.dfy` | a host tree threaded through whole runs, against the guest's own tree, and what such runs need |
| `Deeds.dfy` | each mutating call from the notification to the tree, said node by node: when it succeeds and what it leaves |
| `EndToEnd.dfy` | from a notification to the guest's own tree, from `open` to the decoded listing, and what a refused exec leaves behind |
| `Startup.dfy` | parent, child and supervisor thread as interleaved steps, any of which may fail |
| `Commitment.dfy` | what must have gone right before the command is handed to the child, read off the steps of a run |
| `Signals.dfy` | replacing and restoring signal dispositions |
| `Filter.dfy` | the BPF program, an interpreter for it, and the routing of delivered calls |
| `Cli.dfy` | the argument grammar |
| `Counterexamples.dfy` | a failing input for every promise the code does not keep for all inputs |
| `Wrappers.dfy` | optional values, results, Linux error numbers |

A guest or host path is the list of names below `/`. What the environment answers (procfs,
the host file system, the tracee's memory, the kernel) is a parameter of each step, so every
theorem holds for every answer. A method that follows a loop or a handler of the source is
proved equal to a function, and the lemmas are about that function. The functions of
`Dispatch.dfy` list what a handler does as a sequence of effects, so that "exactly one reply"
and "no host call elsewhere" can be stated.

## What turned out false, and exactly when

Each line names the exact condition and, in `Counterexamples.dfy` or beside it, an input that fails.

* Guest to host to guest is the identity on all projected paths exactly when sources are
  distinct and every nested source is hidden by a nested destination
  (`Bind.GuestRoundTripExactly`, `SharedSourceLosesGuestPath`). The other direction has its own
  condition (`Bind.HostRoundTripExactly`, `NestedDestinationHidesHostPath`).
* `rmdir`, and a rename of a directory onto a directory, differ from the guest's own tree
  exactly when the host directory is empty and only binds keep it occupied
  (`HostView.RmdirAgreesExactly`, `RmdirRemovesOccupiedDirectory`; `HostView.RenameAgreesExactly`,
  `RenameReplacesOccupiedDirectory`).
* A rename moves the guest's whole subtree, on every host tree, exactly when each destination
  strictly below one end resolves like the same place below the other, and no bind leads into a
  host end from outside the guest ends (`TreeMoves.RenameMovesTreeExactly`, `RenameLeavesBindBehind`;
  with a single bind it always does, `TreeMoves.OneBindAlwaysMoves`).
* A directory reads as the guest's own exactly when every bind directly below has a host entry
  (`HostView.ListingAgreesExactly`, `ListingMissesBind`).
* A `getdents64` whose write into the tracee fails has already moved the cursor. What the reader
  received is the encoding of what the cursor passed exactly when no write that carried records
  failed (`Getdents.ConservationExactly`, `Getdents.FailedWriteLosesEntries`).
* The recorded cwd names the directory the process is in, except exactly after one of five events:
  anyone renames, replaces or removes that directory or one above it
  (`RenamedDirectoryLeavesEntry`); the kernel refuses a `chdir` that was recorded before it answered
  (`RefusedChdirLeavesWrongEntry`); it is left a relative `chdir` that climbs to where its own cwd and
  the recorded one differ, as an emulated `chdir` never moved the kernel's
  (`ContinuedChdirLandsElsewhere`); it performs an `fchdir` elsewhere on an untracked descriptor
  (`UntrackedFchdirLeavesStaleEntry`); or another thread group that shares the cwd enters another
  directory (`SharedCwdIsDragged`). `GuestCwd.CwdTrackedExactly` says so for one event of any group,
  `GuestCwd.CwdRightExactly` for whole runs.
* A path outside every bind keeps its normal meaning, as the source's README promises, exactly
  when its pathname is absolute or the kernel's directory and the supervisor's base agree above
  the levels it climbs (`GuestCwd.ContinuedMeansResolved`, `ContinuedOpenReachesElsewhere`,
  `ContinuedOpenatReachesElsewhere`).
* A descriptor that is not recorded, or the cwd of a process without a recorded one, is known by the
  guest path of its procfs link. A pathname that goes on from there, without climbing out of the
  source, is resolved back to the same pathname on the host exactly when the bind that serves it
  hangs below the link's own bind alike at both ends (`Bases.ResolvesBackExactly`); a view that
  round-trips on the host is not enough (`LinkedOpenReachesBind`), binds that nest alike are
  (`Bases.ResolvesBackAlike`).
* A forked process keeps the cwd of its fork exactly while nobody it inherits from records another
  (`GuestCwd.InheritedCwdExactly`, `ParentChdirMovesChild`).
* A call the kernel is left to make goes to a path outside every bind, but that path may lie below
  a source. The guest sees no such change on its projected paths, on any tree, exactly when each
  source at or above the path is hidden there by a nested bind, and none lies below an end that is
  renamed (`Visibility.InvisibleExactly`, `ContinuedMkdirIsSeen`).
* Every fit run shows the guest its own tree exactly when the view round-trips
  (`Refinement.RunsRefineExactly`); in such a run every reply is that of the guest's own tree exactly
  when each file that was opened reached the tracee (`Refinement.RunRefinesGuest`,
  `Refinement.CreatingOpenExactly`, `CreateWithoutDescriptor`).
* The reverse lookup does not depend on the order of the bind arguments exactly when each source
  that is bound more than once has a single shallowest destination (`Bind.ReverseIndependentExactly`,
  `LastArgumentNamesSource`).
* A refused exec of a projected program leaves the tracee as it was exactly when it was refused
  before the program was handed over; otherwise the descriptor stays, and part of the alias may
  (`EndToEnd.RefusedExecExactly`, `Remote.RefusedRewriteExactly`, `ShortExecLeavesDescriptor`).

`docs/kernel.md` says that projections are arranged by destination length; the code counts
components, and the model follows the code. For the destinations above one path the two
orders agree.

## Model

The last rows are helpers that read one branch of a handler back; the results above them use
or summarise them.

| member | source | states |
|---|---|---|
| Bind.GuestRoundTripExactly | src/bind.rs:214-256 | guest to host to guest is the identity on all projected paths if and only if sources are distinct and nested ones are hidden by nested destinations |
| Bind.HostRoundTripExactly | src/bind.rs:214-256 | host to guest to host is the identity under all sources if and only if nested destinations come with nested sources |
| Bind.NestAlikeRoundTrips | src/bind.rs:214-256 | binds whose destinations and sources nest alike round-trip in both directions |
| Bind.OrderIndependence | src/bind.rs:115-126 | permuting the bind arguments changes neither acceptance nor resolution nor which paths share a projection |
| Bind.ReverseIndependentExactly | src/bind.rs:214-228 | the reverse lookup is the same for every order of the bind arguments if and only if each source that is bound more than once has a single shallowest destination |
| Bind.ReopenIsIdentity | src/bind.rs:85-95 | reopening an opened view is accepted and reproduces the identical list, given idempotent canonicalisation |
| Bind.Open | src/bind.rs:38-83 | succeeds exactly for admissible binds with distinct destinations, with the stably sorted list; otherwise reports the first objection in argument order |
| Bind.SortIsStable | src/bind.rs:79-81 | the list is in descending depth, a permutation of the arguments, and keeps argument order within a depth |
| Bind.OpenedIsValid | src/bind.rs:38-83 | an opened view is sorted, distinct, unreserved and normalised, and holds exactly the given projections |
| Bind.RefusedExactly | src/bind.rs:42-75 | a bind is refused with the first reason that holds of its own words: no leading slash, the root, below `dev`, `proc` or `sys`, an earlier bind of the same normalised destination, its source |
| Bind.ReservedExactly | src/bind.rs:287-291 | reserved are exactly the paths whose first name is `dev`, `proc` or `sys` |
| Bind.FirstMatchIsLongest | src/bind.rs:238-246 | the first match is the unique bind with the longest destination above the path; a reserved path has none |
| Bind.ReverseLookup | src/bind.rs:214-228 | the loop finds the last projection of greatest source depth above the host path, and leaves other paths alone |
| Bind.GuestRoundTripAt | src/bind.rs:214-236 | at one path the round trip is the identity exactly when the reverse map picks the projection the forward map picked |
| Bind.HostRoundTripAt | src/bind.rs:214-236 | at one host path under a source the round trip is the identity exactly when both lookups pick the same projection |
| Bind.IndexIsLongest | src/bind.rs:238-246 | every other destination above the path is strictly shorter than the selected one |
| Refinement.RunRefinesGuest | src/linux/mod.rs:324-364 | over any run of a view that round-trips, with the host tree changed by the supervisor's calls and by the continued calls of the kernel, these out of sight: on all projected paths the host tree seen through the view is the guest's own tree after its own mkdir, unlink, rmdir, symlink, truncate, creating open and rename calls; and each reply is the one that tree gives, if and only if every file these calls opened reached the tracee |
| Refinement.RunsRefineExactly | src/linux/mod.rs:324-364 | every such run from what the view shows of a tree ends with what it shows of the tree then, if and only if the view round-trips |
| Visibility.InvisibleExactly | src/linux/dispatch.rs:300-303 | a change of the host is invisible on all projected paths of every tree if and only if it changes no tree, or each source at or above its ends is hidden there by a nested destination and none lies below a renamed end |
| Refinement.CallSimulates | src/bind.rs:160-192 | one such call on the host tree and on the guest's own tree fail alike or leave trees that agree on every projected path |
| Refinement.OthersChangeByKernel | src/linux/dispatch.rs:20-75 | every other notification changes nothing itself: the host changes only by the call the kernel makes once it is continued, at the path the kernel resolves from its own directory |
| Refinement.CreatingOpenExactly | src/linux/dispatch.rs:121-136 | a creating open agrees with the guest's own tree in its reply and in what it leaves if and only if it was not made on the host and then lost on its way to the tracee |
| Deeds.UnlinkDoes | src/bind.rs:168-175 | an unlink, forwarded or continued, succeeds exactly when below directories something is there that is no directory, and that alone is gone afterwards |
| Deeds.RmdirDoes | src/bind.rs:168-175 | rmdir, or unlinkat with AT_REMOVEDIR, succeeds exactly on an empty directory other than the root, and that alone is gone afterwards |
| Deeds.MkdirDoes | src/bind.rs:160-166 | mkdir succeeds exactly when below directories nothing is there, and leaves a directory |
| Deeds.SymlinkDoes | src/linux/dispatch.rs:434-456 | symlink succeeds exactly when the target is not empty and below directories nothing is there, and leaves a link that holds the target the tracee passed |
| Deeds.TruncateDoes | src/linux/dispatch.rs:566-584 | truncate succeeds exactly for a length that is not negative on a file, and leaves its own bytes up to that length and then zeros |
| Deeds.CreateDoes | src/linux/dispatch.rs:77-136 | a creating open succeeds exactly when below directories nothing is there, or, unless it must create, a file; it leaves an empty file where nothing was and changes nothing else |
| Deeds.RenameDoes | src/bind.rs:177-192 | a forwarded rename succeeds exactly when both ends are below directories, the first is there, neither is above the other and the second may be replaced; then the subtree is at the second end alone, and the reply says which |
| Deeds.ContinuedRenameDoes | src/linux/dispatch.rs:368-372 | the same for a continued rename between the paths the kernel resolves |
| Deeds.UnlinkInView | src/linux/dispatch.rs:309-333 | strictly below a destination a guest's unlink is answered 0 exactly when its own tree has something there that is no directory, and in its view that alone is gone |
| Deeds.RmdirInView | src/linux/dispatch.rs:309-333 | likewise rmdir exactly on a directory that is empty for the guest, when no bind hangs directly below it |
| Deeds.MkdirInView | src/linux/dispatch.rs:281-307 | likewise mkdir exactly where the guest sees nothing |
| Deeds.SymlinkInView | src/linux/dispatch.rs:434-456 | likewise symlink, which leaves the target the tracee passed |
| Deeds.TruncateInView | src/linux/dispatch.rs:566-584 | likewise truncate exactly on what the guest sees as a file, which it cuts or pads |
| Deeds.CreateInView | src/linux/dispatch.rs:77-136 | likewise a creating open, answered with the injected descriptor, or the errno of the host or of the injection |
| HostView.MutationRefines | src/bind.rs:160-175 | strictly below a destination mkdir, unlink, rmdir, symlink, truncate and open-create return the guest tree's own result and change exactly the guest paths that resolve to that host path |
| TreeMoves.RenameMovesTreeExactly | src/bind.rs:177-192 | on every host tree a successful rename shows the guest, on all projected paths, its own tree with the subtree moved, if and only if each destination strictly below one end resolves like the same place below the other and no bind leads into either host end from outside the guest ends |
| TreeMoves.OneBindAlwaysMoves | src/bind.rs:177-192 | with a single bind every successful rename moves the guest's tree |
| HostView.RmdirAgreesExactly | src/bind.rs:168-175 | rmdir succeeds as on the guest's tree except exactly when only binds keep the directory occupied |
| HostView.RenameAgreesExactly | src/bind.rs:177-192 | a rename succeeds as on the guest's tree except exactly onto a directory that only binds keep occupied |
| HostView.ListingAgreesExactly | src/bind.rs:198-212 | the entries of the host directory are those of the guest's own if and only if every destination directly below has a host entry too |
| HostView.RenameMovesSubtree | src/bind.rs:177-192 | after a successful rename every suffix that stays in the projection at both ends is at the new place and gone from the old |
| HostView.RenameFrame | src/bind.rs:177-192 | a successful rename changes no guest path that resolves outside the two host subtrees |
| HostView.RenameAnswersAsGuest | src/bind.rs:177-192 | a rename returns the error the guest's own tree gives, when no bind hangs directly below the target |
| TreeMoves.UnnestedEndsCorrespond | src/bind.rs:230-246 | ends with no destination strictly below them resolve alike below |
| HostView.MutationTouchesOnly | src/bind.rs:230-236 | in its projection, and among all projected paths of a view that round-trips, only the path itself resolves to the touched host path |
| HostView.GuestWalkWhole | src/bind.rs:249-256 | entering the directories from the destination meets the same errors as entering them on the host from `/` |
| HostView.EmptinessAgrees | src/bind.rs:198-212 | the guest sees a directory empty exactly when the host one is empty and no destination hangs directly below |
| HostView.BoundTree.Mutate | src/bind.rs:160-175 | in place: strictly below a mounted destination a call returns the error of the guest's own tree and afterwards the guest sees what that tree would show; no other host path changes, and none when it fails |
| HostView.BoundTree.Rename | src/bind.rs:177-192 | in place: EXDEV and no change unless both ends are in one projection; inside it returns the error of the guest's own tree and moves, in the guest's view, every suffix that stays in the projection at both ends |
| EndToEnd.ListingIsGuestDirectory | src/linux/dispatch.rs:138-154 | with the listing the host tree gives, the names such a reader decodes are those of the guest's own directory if and only if every destination directly below it is a host entry |
| EndToEnd.ListingArrives | src/linux/dispatch.rs:138-154 | opening a projected directory, with or without O_DIRECTORY, and reading on, whatever other descriptors do in between: a reader that takes of each answer only as many bytes as the reply says and stops at zero decodes exactly the listing taken at the open, and with one more read has stopped |
| EndToEnd.ReadIsAnswered | src/linux/dispatch.rs:484-490 | a read of a live directory is answered EINVAL, without moving, exactly when the next record does not fit; otherwise with the errno of a failed write, or with the number of bytes written, which is zero exactly at the end |
| EndToEnd.ReadsAreASession | src/linux/dispatch.rs:458-491 | between arbitrary other notifications the reads of one descriptor are one reading session |
| EndToEnd.MutationAnsweredAsGuest | src/linux/dispatch.rs:281-333 | a guest mkdir, unlink, rmdir, symlink, truncate or creating open is one host call; its reply tells what the call on the guest's own tree returns, if and only if a file it opened reached the tracee |
| EndToEnd.RenameAnsweredAsGuest | src/linux/dispatch.rs:335-381 | a guest rename within a projection is one host rename whose reply is that of the guest's own tree |
| EndToEnd.RefusedExecExactly | src/linux/execute.rs:48-69 | a refused exec of a projected program leaves the tracee's memory and descriptors as they were if and only if it was refused before the program was handed over; its memory alone also when the alias is too long or what was written of it was there already |
| EndToEnd.ContinuedExecNamesProgram | src/linux/execute.rs:48-69 | when a projected exec is continued, its pathname in the tracee's memory reads as the alias of a descriptor that was not open before and is now, and no byte outside the old string and its NUL has changed |
| Getdents.ConservationExactly | src/linux/dispatch.rs:470-490 | over any calls with any capacities the bytes received encode exactly the entries the cursor passed, if and only if no write that carried records failed |
| Getdents.SessionDecodes | src/linux/dispatch.rs:458-491 | without such a failure the concatenated pages decode to those entries across page boundaries |
| Getdents.ReaderFinishes | src/linux/dispatch.rs:474-490 | with 280-byte buffers and one call per remaining entry a reader has everything |
| Getdents.PageProgress | src/linux/dispatch.rs:474-490 | empty exactly at the end, EINVAL exactly when the next record does not fit and then without moving; otherwise the longest run that fits, and always progress with 280 bytes |
| Getdents.DecodePage | src/linux/dispatch.rs:474-483 | a decoder stepping by the stored lengths recovers inode, type, name and offset of each entry once, in order, offsets counting up by one |
| Getdents.PageAligned | src/linux/dispatch.rs:705-710 | every page is a multiple of eight bytes |
| Getdents.RecordFields | src/linux/dispatch.rs:705-718 | from a record followed by anything the stored fields read back as given |
| Getdents.FillPage | src/linux/dispatch.rs:474-483 | the loop emits the records from the cursor on, packed, stops where the greedy fill stops, and stays within capacity |
| Getdents.DirentRecord | src/linux/dispatch.rs:705-718 | the bytes written into the buffer are the packed record: inode, offset, length, type, name, NUL, padding to eight |
| Getdents.FailedWriteLosesEntries | src/linux/dispatch.rs:475-490 | one failed write makes a one-entry directory read as empty |
| Startup.AtMostOneStart | src/linux/mod.rs:76-206 | the command is given to exec at most once: by the child only after hand-over, supervisor, forwarding, a zero probe and the second go byte; by the parent only when the child never exec'd and was never forked or is dead and reaped |
| Startup.StartedCommand | src/main.rs:157-192 | carried through configuring, fork, exec and rebuilding in every interleaving, the one command that reaches exec is the named one: from the child in the guest cwd with its PWD, or from the parent exactly as the caller gave it |
| Startup.EveryRunEnds | src/linux/mod.rs:76-206 | under every scheduling and every failure the protocol ends: no run has more than 50 steps besides the running command's own calls, and a run that cannot go on has ended |
| Startup.NoFallbackAfterCommit | src/main.rs:162-174 | nothing that happens after the second go byte leads to passthrough |
| Startup.NoUnservedBlock | src/linux/mod.rs:109-156 | whenever the child waits on an intercepted call the supervisor can answer it, or nobody holds the listener and the kernel fails it |
| Startup.NeverStuck | src/linux/mod.rs:528-561 | no interleaving deadlocks: until the parent has finished some step is possible that is neither a fault nor a timeout |
| Startup.StepDescends | src/linux/mod.rs:76-206 | every step but the running command's own brings the protocol nearer to its end |
| Startup.StepKeepsInv | src/linux/mod.rs:76-206 | every step of parent, child, supervisor thread and kernel, failing or not, keeps the protocol invariant |
| Startup.ReachableInv | src/linux/mod.rs:76-206 | the invariant holds after every interleaving |
| Startup.MappedRunOccurs | src/linux/mod.rs:201-205 | a run in which the child executes the command and the parent returns its status is reachable |
| Startup.FallbackOccurs | src/linux/mod.rs:166-176 | a run that ends in passthrough after the child was killed and reaped is reachable |
| Commitment.CommitMeansProbed | src/linux/mod.rs:283-302 | over every run, said of its steps: a zero probe report, a second go byte or a child that reached exec implies that both calls of the probe were answered with success |
| Commitment.FailedProbeNeverCommits | src/linux/mod.rs:162-176 | after any failing answer to a call of the probe there is no zero report, no second go byte and no exec in the child, and a run that ends does so in passthrough or with the parent killed |
| Commitment.NoCommitAfterMishap | src/linux/mod.rs:76-199 | the same after any failure, timeout or death of parent or child before the commitment, at whatever step |
| Commitment.NothingLeftRunning | src/linux/mod.rs:201-220 | however an attempt ends signals are no longer forwarded, and unless waiting for the command failed the supervisor thread was never started or has stopped |
| Commitment.FailedProbeFallsBack | src/linux/mod.rs:162-176 | a run in which the second call of the probe fails ends in passthrough with the child reaped and the command given to exec once, as the caller named it |
| Commitment.RefusedFilterFallsBack | src/linux/mod.rs:137-142 | a run in which the filter cannot be installed ends in passthrough with the child, which said so, reaped and never killed |
| Startup.ChooseGuestCwd | src/main.rs:64-79 | the guest cwd is the normalised request, exactly when it is a directory or was missing, projected and created; otherwise the root |
| GuestCwd.CwdRightExactly | src/linux/dispatch.rs:493-549 | over a whole run of notifications from any groups, the entry of a thread group names its directory at every point if and only if no event goes wrong for it; renames move both the directory and the kernel's own cwd along |
| GuestCwd.CwdTrackedExactly | src/linux/dispatch.rs:493-549 | from an entry that names, through the view, the host directory its group is in, the entry still does after a notification of any group if and only if that did not rename, replace or remove the directory, did not drag a shared cwd elsewhere, and was not, from the group itself, a recorded request the kernel refused, a continued relative chdir that climbs to where the kernel's cwd and the entry differ, or an untracked fchdir elsewhere |
| GuestCwd.DirectoryIsThere | src/bind.rs:177-192 | where a change of the host leaves the directory of a process, the changed tree has a directory |
| GuestCwd.EntryIsHistory | src/linux/dispatch.rs:493-549 | over any run the recorded cwd is the lexical fold of the group's own requests that were not answered with an error |
| GuestCwd.InheritedCwdExactly | src/linux/remote.rs:139-152 | a process keeps the cwd it had, that of its fork say, throughout a run if and only if nobody it inherits from, with no nearer entry between, records another path |
| GuestCwd.ContinuedMeansResolved | src/linux/dispatch.rs:109-111 | a continued call reaches the file the view resolves its pathname to if and only if the pathname is absolute or the kernel's directory and the supervisor's base agree above the levels it climbs |
| GuestCwd.ContinuedRenameMeansResolved | src/linux/dispatch.rs:368-372 | the same for both ends of a continued rename, each from its own directory |
| GuestCwd.NearestAncestor | src/linux/remote.rs:139-152 | the cwd is the entry of the nearest ancestor among the thread groups consulted, and none when none has one |
| GuestCwd.NearerEntryShields | src/linux/remote.rs:139-152 | nothing a farther process does changes the cwd of a process with a nearer entry |
| GuestCwd.CwdsAfter | src/linux/dispatch.rs:518-539 | a notification records exactly the path it resolved, when that is unprojected or a directory, for its own thread group and no other |
| GuestCwd.CwdFrame | src/linux/dispatch.rs:518-539 | a notification changes no cwd entry but that of the caller's thread group |
| GuestCwd.CwdReportsAgree | src/linux/dispatch.rs:404-414 | getcwd and the own `/proc` link report the same bytes, which normalise back to the recorded cwd |
| Bases.LinkIsBase | src/linux/remote.rs:106-118 | for a descriptor that is not recorded, and a process without a recorded cwd, a relative pathname continues the destination of the bind whose source is the deepest above the link (the last of equals) and the rest of the link, or the link itself below no source; a cwd that cannot be read is the root |
| Bases.RecordedIsBase | src/linux/remote.rs:108-136 | for a recorded descriptor the recorded guest path is continued exactly while its link is the resolved directory, in its canonical form if it has one; otherwise what the link names |
| Bases.ResolvesBackExactly | src/linux/remote.rs:111-118 | from such a link below a source a pathname that does not climb out of it resolves back to the same host pathname if and only if the bind that serves it hangs below the picked one alike at both ends |
| Bases.ResolvesBackAlike | src/bind.rs:214-236 | with binds that nest alike it always does |
| Bases.LinkResolvesBack | src/bind.rs:214-236 | the directory itself resolves back to its link in every view that round-trips on the host |
| Bases.ThreadsShareCwd | src/linux/remote.rs:139-156 | threads of one group have one cwd, recorded under the group; a process without a readable status is its own group |
| Bases.ThreadsMoveTogether | src/linux/dispatch.rs:531-539 | what one thread records is at once the cwd of all threads of its group |
| Supervision.Supervise | src/linux/mod.rs:324-364 | the loop's final state and its whole log are those of the run of its notifications |
| Supervision.RunKeepsInvariant | src/linux/mod.rs:324-364 | after any prefix of any run the invariant holds |
| Supervision.RunNeverPanics | src/linux/dispatch.rs:272 | at no point of any run does an unwrap or expect of a handler fail |
| Supervision.OneReplyPerNotification | src/linux/mod.rs:324-364 | over a whole run there are exactly as many replies as notifications |
| Supervision.ProjectedNeverFallsThrough | src/linux/dispatch.rs:105-119 | for a projected path the kernel never continues with the guest pathname, except chdir where guest and host path coincide; exec continues only after the rewrite; every host call is at the resolved path |
| Supervision.StepKeepsInvariant | src/linux/dispatch.rs:144-154 | every notification keeps recorded paths normalised, directories projected and cursors in range, and never panics |
| Supervision.ExactlyOneReply | src/linux/dispatch.rs:734-776 | every notification is answered exactly once, and the reply is the last thing done |
| Supervision.RewrittenExecSettles | src/linux/execute.rs:35-37 | the rewritten pathname, handled again, continues at once |
| Filter.NotifiedExactlyWhenRouted | src/linux/seccomp.rs:120-159 | for any table of numbers, absent ones included, a call is notified exactly when a named handler takes it |
| Filter.FilterIsExact | src/linux/seccomp.rs:60-68 | interpreting the program terminates within it and notifies exactly the listed numbers |
| Filter.RouteReachesHandler | src/linux/dispatch.rs:20-75 | a call that shares its number with no other reaches the handler meant for it |
| Filter.BuildFilter | src/linux/seccomp.rs:60-68 | the pushing loop builds one load, a compare and return per number, and a final allow |
| Remote.ReadPath | src/linux/remote.rs:12-27 | for every pattern of short reads success is exactly the bytes before the first NUL, and an error is EFAULT at address zero, that of a read the loop made before any NUL, or ENAMETOOLONG when 4096 bytes hold none; in readable memory a terminated pathname is always read and an unterminated one is always ENAMETOOLONG |
| Remote.RewriteReadsBack | src/linux/remote.rs:56-89 | a rewrite that succeeds by either route, even after a short first write, reads back as exactly the replacement; nothing outside the old string and its NUL changes; an over-long one changes nothing |
| Remote.RewriteSucceedsExactly | src/linux/remote.rs:56-89 | a rewrite succeeds exactly when the replacement fits and one route moved all of it; otherwise ENAMETOOLONG, or the errno of the second route, EIO where that was short |
| Remote.RefusedRewriteExactly | src/linux/remote.rs:56-89 | a refused rewrite leaves the memory as it was if and only if the replacement was over-long or what the longer of its writes moved was there already |
| Remote.RewritePath | src/linux/remote.rs:56-89 | memory and result for every outcome of the two write routes |
| Remote.WriteMemory | src/linux/remote.rs:34-54 | memory afterwards is the part that was written over the old memory, and anything short is an error |
| Remote.FindNul | src/linux/remote.rs:20 | finds the first NUL, or proves there is none |
| Remote.StringFacts | src/linux/remote.rs:12-27 | the simple string is NUL-free, below the limit, terminated and equal to memory; there is none exactly when no NUL is in reach |
| Remote.OwnProcCwdExactly | src/linux/remote.rs:158-173 | the recognised links are exactly self, thread-self and the canonical decimal names of the process and its thread group |
| Remote.AliasIsReserved | src/linux/execute.rs:83-85 | the alias is absolute and NUL-free, normalises below `/dev`, and no view projects it |
| Cli.RunRoundTrip | src/cli.rs:53-143 | any options in any spelling, then `--`, then any words parse to exactly the options' meaning with the words verbatim |
| Cli.RunWithoutSeparator | src/cli.rs:125-128 | after any options a command that does not begin with a dash parses to the same configuration with and without `--`, all its words verbatim |
| Cli.ParseExactly | src/cli.rs:64-143 | the whole grammar of a run: words parse to a result if and only if they are options in some spelling, followed by a command, `--`, help, version, an unknown option, or an option without its value or with a bad one, which give that result |
| Cli.ProbeExactly | src/cli.rs:145-175 | likewise the whole grammar of `probe` |
| Cli.EarlyEnds | src/cli.rs:78-123 | help, version and an unknown option after any options, whatever follows |
| Cli.BadBindExactly | src/cli.rs:177-199 | a value is refused as a bind for exactly the reason its own characters give |
| Cli.AcceptedRunReparses | src/cli.rs:64-143 | whatever words a configuration came from, spelling it out canonically parses back to it |
| Cli.ProbeRoundTrip | src/cli.rs:145-175 | any spelling of any binds parses back to them |
| Cli.ParseRun | src/cli.rs:64-143 | the parsing loop computes what the remaining words mean at every point; that meaning is `Cli.ParseExactly` |
| Cli.ParseProbe | src/cli.rs:145-175 | likewise for the probe grammar |
| Cli.SplitAtFirstColon | src/cli.rs:181 | a bind splits at its first colon |
| Signals.RestoreUndoesReplace | src/linux/mod.rs:226-257 | putting back what was remembered, last first, restores the original table for any list of signals, repeats included |
| Signals.SignalForwarding.Install | src/linux/mod.rs:227-247 | all dispositions replaced and remembered, or, when any position fails, the original table and no target |
| Signals.SignalForwarding.Drop | src/linux/mod.rs:250-256 | the target is cleared and what was remembered is put back |
| Signals.SignalForwarding.InstallAndDrop | src/linux/mod.rs:222-257 | a whole attempt leaves the table as it was and no target |
| Paths.JoinComposes | src/linux/remote.rs:118 | normalising a join continues the fold from the normalised base, or starts over for an absolute right side |
| Paths.LexicalFromBoth | src/linux/remote.rs:118 | a pathname names the same path from two directories if and only if it is absolute or they agree above the levels it climbs |
| Paths.PrintRoundTrip | src/bind.rs:259-277 | printing a normalised path gives an absolute pathname that normalises back to it |
| Paths.NormalisersAgree | src/linux/remote.rs:213-226 | on every Unix pathname the first loop succeeds with what the second computes |
| Paths.ParentCancels | src/bind.rs:264-267 | a name followed by `..` means nothing, wherever it stands in a pathname |
| Paths.DotMeansNothing | src/bind.rs:263 | `.` and a doubled slash mean nothing, wherever they stand |
| Paths.FoldIsNormal | src/bind.rs:259-277 | from any NUL-free pathname and any starting path no `.`, `..`, empty name, slash or NUL survives |
| Paths.NormalizeIdempotent | src/bind.rs:259-277 | normalising twice is normalising once |
| Paths.ParentOfRootIsRoot | src/bind.rs:264-266 | any number of `..` at the root stays at the root |
| Paths.NormalizeVirtual | src/bind.rs:259-277 | the push/pop loop over components is the fold, and fails exactly on a prefix component |
| Paths.NormalizeRemote | src/linux/remote.rs:213-226 | the supervisor's own loop is the same fold and skips prefixes |
| Dispatch.FindVirtualCwd | src/linux/remote.rs:139-152 | the loop over at most 16 thread groups finds the nearest recorded entry |
| Dispatch.Supervisor.Resolved | src/linux/remote.rs:91-119 | resolution in place: ENOENT for an empty pathname, then absolute, cwd, tracked directory or procfs link; what each base is stands in `Bases` |
| Dispatch.Supervisor.InjectProgram | src/linux/execute.rs:48-69 | open, inject, rewrite, continue, in that order, with the errno of the first failure |
| Dispatch.Supervisor.HandleExec | src/linux/execute.rs:11-70 | the exec handler's effects in order, for every branch |
| Dispatch.Supervisor.HandleOpen | src/linux/dispatch.rs:77-156 | the open handler's effects and the directory it records |
| Dispatch.Supervisor.HandleOnPath | src/linux/dispatch.rs:158-333 | the handlers of calls with one path, with each one's own error branches |
| Dispatch.Supervisor.HandleRename | src/linux/dispatch.rs:335-381 | the rename handler's effects |
| Dispatch.Supervisor.HandleReadlink | src/linux/dispatch.rs:383-432 | the readlink handler's effects, with the own cwd link answered from the recorded cwd |
| Dispatch.Supervisor.HandleListDirectory | src/linux/dispatch.rs:458-491 | one page in place: the cursor moves before the write, a stale descriptor is forgotten; its reply is `EndToEnd.ReadIsAnswered` |
| Dispatch.Supervisor.Enter | src/linux/dispatch.rs:518-549 | recording a cwd and continuing or answering zero |
| Dispatch.Supervisor.HandleChdir | src/linux/dispatch.rs:493-549 | chdir in place |
| Dispatch.Supervisor.HandleFchdir | src/linux/dispatch.rs:500-549 | fchdir in place: untracked descriptors go to the kernel, stale ones are forgotten |
| Dispatch.Supervisor.HandleGetcwd | src/linux/dispatch.rs:551-564 | getcwd's effects |
| Dispatch.Supervisor.Handle | src/linux/dispatch.rs:20-75 | each notification changes the state and emits effects as its handler's specification says |
| Counterexamples.SharedSourceLosesGuestPath | src/bind.rs:214-228 | one source bound at `/a` and `/b`: the guest path `/a` comes back as `/b` |
| Counterexamples.NestedDestinationHidesHostPath | src/bind.rs:230-246 | `/t` at `/a/b` inside `/s` at `/a`: the host path `/s/b` comes back as `/t` |
| Counterexamples.RmdirRemovesOccupiedDirectory | src/bind.rs:168-175 | the host removes a directory in which the guest still has a bind |
| Counterexamples.RenameReplacesOccupiedDirectory | src/bind.rs:177-192 | the host renames onto a directory in which the guest still has a bind |
| Counterexamples.RenameLeavesBindBehind | src/bind.rs:177-192 | after a rename the guest still sees the bind below the old name |
| Counterexamples.ListingMissesBind | src/bind.rs:198-212 | a directory lists as empty although a bind hangs below it |
| Counterexamples.RefusedChdirLeavesWrongEntry | src/linux/dispatch.rs:518-523 | a chdir the kernel refuses leaves a wrong entry |
| Counterexamples.ContinuedChdirLandsElsewhere | src/linux/dispatch.rs:518-523 | after an emulated chdir a continued `chdir("../x")` enters another directory than the one recorded |
| Counterexamples.UntrackedFchdirLeavesStaleEntry | src/linux/dispatch.rs:503-505 | an untracked fchdir, whose link cannot be read, moves the process and not its entry |
| Counterexamples.ParentChdirMovesChild | src/linux/remote.rs:139-152 | a later chdir of the parent changes the cwd of a forked child |
| Counterexamples.ContinuedOpenReachesElsewhere | src/linux/dispatch.rs:109-111 | from an emulated cwd `open("../x")` is meant for `/x` and reaches `/s/x` |
| Counterexamples.ContinuedOpenatReachesElsewhere | src/linux/dispatch.rs:109-111 | from a tracked descriptor `openat(fd, "../x")` is meant for `/x` and reaches `/s/x` |
| Counterexamples.LinkedOpenReachesBind | src/linux/remote.rs:114-118 | below an unrecorded descriptor of `/s` the name `b` is `/a/b`, which is bound to `/t`, although the view round-trips on the host |
| Counterexamples.CreateWithoutDescriptor | src/linux/dispatch.rs:121-136 | an exclusive creating open of `/w/x` is answered EMFILE when no descriptor is free, and `/w/x` is there afterwards |
| Counterexamples.RenamedDirectoryLeavesEntry | src/linux/dispatch.rs:368-372 | whoever renames `/x` to `/y`, the entry of a process in it still says `/x` |
| Counterexamples.SharedCwdIsDragged | src/linux/dispatch.rs:518-539 | a chdir of a group that shares the cwd moves the process and not its entry |
| Counterexamples.ContinuedMkdirIsSeen | src/linux/dispatch.rs:300-303 | the kernel makes `/s/t/x` and the guest sees `/w/x` appear |
| Counterexamples.ShortExecLeavesDescriptor | src/linux/execute.rs:48-69 | exec of `/w/x`, shorter than its alias, is refused with ENAMETOOLONG and descriptor 3 stays |
| Counterexamples.LastArgumentNamesSource | src/bind.rs:214-228 | of two equally deep binds of one source the one given last names it for the guest |
| Supervision.ProjectedCallIsForwarded | src/linux/dispatch.rs:244-333 | helper, one branch of the handlers read back: a projected call makes exactly one host call, at the resolved path, and answers what the host answered |
| Supervision.RenameIsRouted | src/linux/dispatch.rs:361-381 | helper, one branch of the handlers read back: a rename reaches the host exactly within one projection, the kernel exactly outside all, and EXDEV is the rest |
| Supervision.UnprojectedPassesThrough | src/linux/dispatch.rs:109-111 | helper, one branch of the handlers read back: outside every bind the only effect is to continue, and only a chdir changes the state |
| Supervision.ExecContinuesExactly | src/linux/execute.rs:38-69 | helper, one branch of the handlers read back: a projected exec is continued if and only if it follows links and opening, injecting and rewriting all succeeded, and is otherwise answered with the errno of the first that failed; with AT_SYMLINK_NOFOLLOW it is ENOTSUP before anything is done |
| Supervision.ReadlinkTruncates | src/linux/dispatch.rs:415-432 | helper, one branch of the handlers read back: a projected link reads as the longest prefix of the host link that fits, with its length |
| Supervision.EmptyPathname | src/linux/remote.rs:97-102 | helper, one branch of the handlers read back: an empty pathname is ENOENT and never the cwd, as section 4.13 of IEEE Std 1003.1-2017 (XBD) asks; only exec and an empty-path stat leave it to the kernel |
| Supervision.StaleIsForgotten | src/linux/dispatch.rs:463-469 | helper, one branch of the handlers read back: a descriptor that is not, or no longer, the opened directory goes to the kernel, and its record alone is dropped |
| Supervision.UnreadableIsReported | src/linux/dispatch.rs:720-728 | helper, one branch of the handlers read back: an argument that cannot be read is answered with the errno of reading it, in the order the arguments are read, and nothing is done |
| Supervision.RenameRefused | src/linux/dispatch.rs:357-367 | helper, one branch of the handlers read back: a flagged rename is ENOTSUP; an unreadable second end is its errno |
| Supervision.TimesUnreadable | src/linux/dispatch.rs:666-703 | helper, one branch of the handlers read back: unreadable times of a projected utimensat are their errno, without a host call |
| Supervision.EnteringFails | src/linux/dispatch.rs:524-530 | helper, one branch of the handlers read back: entering what is no directory, or cannot be looked at, fails and records nothing |
| Supervision.ReadlinkFails | src/linux/dispatch.rs:423-431 | helper, one branch of the handlers read back: a link that cannot be read, or an answer that cannot be written, is that errno |
| Supervision.PassedOn | src/linux/dispatch.rs:74 | helper, one branch of the handlers read back: an unhandled call, and getcwd or the own `/proc` link without a recorded cwd, are the kernel's |
| EndToEnd.OtherOpensRecordNothing | src/linux/dispatch.rs:138-154 | helper, one branch of the handlers read back: an open that is not of a projected directory with its listing and its descriptor records nothing |
| GuestCwd.FirstChdir | src/linux/dispatch.rs:537-548 | helper, one branch of the handlers read back: a successful chdir records the resolved path, and answers zero exactly where guest and host path differ |
| GuestCwd.GetcwdReports | src/linux/dispatch.rs:551-564 | helper, one branch of the handlers read back: ERANGE for a short buffer, the errno of a failed write, otherwise the printed cwd and its NUL |

## Left out

- Raw ioctl, socket, fork, poll, sigaction and procfs calls: their outcomes are parameters or steps, with failure allowed anywhere.
- Following symbolic links: a tree holds links, and calls make, move and remove them, but a call that would pass through one, or open or truncate one, answers ELOOP where the kernel follows it; `..` is lexical in the code.
- Hard links, extended attributes, permissions and timestamps of the host tree, and file contents written through descriptors.
- HostView.MutationRefines: stated strictly below a destination, because a call on the destination itself acts on the source directory and not on a mount point.
- HostView.RenameMovesSubtree: covers suffixes that stay in one projection at both ends; the whole tree is `TreeMoves.RenameMovesTreeExactly`.
- Refinement.RunRefinesGuest: for calls strictly below mounted destinations, with no bind below what is renamed, replaced or removed; nobody but the supervised processes writes to the host tree during the run.
- Deeds.RmdirInView: asks that no bind hangs directly below the directory; without that `HostView.RmdirAgreesExactly` says when host and guest differ.
- Commitment.FailedProbeFallsBack: the errno a failed probe reports is EIO here, where the code sends that of the failed call; the parent only compares it with zero.
- GuestCwd.InheritedCwdExactly: the parents are those procfs showed at the start; a process that is reparented inherits from its new ancestors.
- Supervision.ProjectedNeverFallsThrough: calls with one path; renames are `Supervision.RenameIsRouted`.
- Supervision.ProjectedCallIsForwarded: does not say what stat writes into the tracee, only that the write follows a successful host call.
- GuestCwd.CwdTrackedExactly: procfs is taken to tell the truth, so that a descriptor whose link is still that of its directory refers to it; which groups share a cwd (CLONE_FS) is an answer of the kernel.
- GuestCwd.CwdRightExactly: starts from a process that has a right entry, and `GuestCwd.FirstChdir` says how it gets one from the cwd it inherits; only notified calls move or remove a directory; a relative pathname the kernel is left in a removed directory starts from that directory's last name.
- Bind.ReopenIsIdentity: canonicalising a canonical source is taken to return it, as the file system is outside the model.
- Bind.Open: creating and canonicalising a source is one answer per bind; sources created before a later bind is refused stay behind and are not tracked.
- Remote.ReadPath: a read of a positive length moves at least one byte or fails, and addresses do not wrap at 64 bits.
- Startup.NoUnservedBlock: the child itself; its descendants, which share the filter, are not separate actors.
- Startup.AtMostOneStart: one `exec` of the standard library is one attempt; the candidates of its PATH search are not separate steps.
- Startup.NeverStuck: says that some step is possible; that every schedule ends is `Startup.EveryRunEnds`, which does not bound the running command's own calls.
- Waiting for a killed child is taken to return once it is dead: the code ignores errors of that wait. Failing to wait for the running command, and a reply the kernel rejects, which ends the supervisor thread, are failure steps of `Startup.dfy`.
- A signal that arrives between reaping the child and dropping the forwarding on the normal exit path.
- Decoding of registers beyond path, directory descriptor and the flags the handlers branch on; in particular the flags argument the code reads for `faccessat`.
- The remaining handlers after `handle_access` (truncate, chmod, chown, utimensat, statx) share `HandleOnPath`: modes, owners and times are not modelled.
- `lseek`, `dup` and `close` on tracked directories: not intercepted by the code; staleness is only the comparison with the procfs link.
- Records are little-endian, as on the supported targets, and paths are compared by components, so a trailing slash of a resolved destination is not represented.
- The HashMap entry of an open directory is a map value that is replaced, not an object that is mutated.
- The standard library's sort is modelled by a stable insertion function; only its result is used.
- Words that are not UTF-8, help and version text, diagnostics, and the exit status protocol.
- Pid reuse, and processes that race with the supervisor while it reads their memory.
