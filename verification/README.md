# Electrosphere, modelled in Dafny

Electrosphere runs the turns of agents in throwaway sandboxes and keeps their workspaces as chains of
content-addressed commits. This project models its core logic and proves properties of the model.
`dafny verify dfyconfig.toml` checks everything.

## What is modelled

* **The durable turn protocol** (`Storage`, `Protocol`, `ProtocolInvariant`, `TurnRuns`, `TurnFacts`, `TurnService`,
  `Repository`, `Recovery`, `GarbageCollection`, `RecoveryRuns`). The SQLite tables, the daemon's maps and its suspended calls
  form one state machine. A step is the code between two awaits, a transaction is one step, and a crash step drops everything but the tables. Commit identifiers are
  an inductive type, so digests are collision-free and a commit cannot be its own ancestor. The steps are also written as
  methods that update an object's maps, each proved to be its step and to keep the invariant, and they are composed into whole
  starts and finishes. One invariant is kept by every step; the theorems of `TurnRuns` follow for all runs. The loops of
  recovery leave exactly the tables that runs of the machine leave, and a collection is a run.
* **CFS-v1 snapshots** (`Bytes`, `CfsCodec`, `Cfs`, `CfsRoundTrip`, `CfsSafety`, `CfsLimits`, `GuestCfs`). The byte format, both exporters and the extractor
  over trees with inodes, hard links, symbolic links, permission bits and times. Export and extraction are loops proved
  against functions; about those functions the round trips are proved, when a tree can be archived, and what any archive
  at all can make of the staging directory.
* **The agent's text engines** (`Text`, `LineEdits`, `Encoding`, `Grep`, `GrepPaging`, `Listing`). Line edits by reverse splices, the two
  scanners, and the pages of searches and listings.
* **Framing and bounded output** (`Framing`, `Output`). Length-prefixed frames inside Docker's multiplexed stream under arbitrary
  fragmentation, and the two truncations of command output.
* **Archive and transfer code** (`Tar`, `Base64`, `ArtifactLines`, `Transfers`).

Where a property the code is meant to have does not hold for every input, the code is modelled as it is, the exact condition
is proved, and a lemma gives an input on which it fails:

| property | holds exactly when | input on which it fails |
|---|---|---|
| an exported workspace extracts | no link target climbs out of the root (`CfsRoundTrip.ExtractRebuilds`) | a link that climbs out and comes back by the root's name (`CfsLimits.ClimbingTargetExported`) |
| exporting again gives the same bytes | no sticky bit is set (`CfsRoundTrip.ReExport`) | a directory of mode 1755 (`CfsLimits.StickyBitLost`) |
| a collection deletes all it wants to | every pinned commit is kept (`GarbageCollection.RefusedIffPinned`) | the tables after one instant turn (`RecoveryRuns.RefusalIsReachable`) |
| following the cursor of a search gives every match | every page is a run of hits and only the end leaves one empty (`GrepPaging.FollowedIsAll`) | a match over the budget in front of a short one (`GrepPaging.LongMatchIsSkipped`) |
| following the cursor of an artifact gives every line | every line fits the budget alone (`ArtifactLines.FollowedIsAll`) | one long line (`ArtifactLines.LongLineNeverComes`) |
| shown and omitted bytes are the bytes produced | the stream or the limit has at most 1 MiB, or the limit is one byte more and exceeded (`Output.AccountedExactly`) | a limit of 2 MiB (`Output.TwoBytesLost`) |
| the restore sends the encoding of the archive | every slice but the last is a multiple of three bytes (`Base64.SlicesEncodeWhole`) | two reads of one byte (`Base64.ShortReads`) |
| a committed file is its accepted chunks | no refused chunk left bytes behind (`Transfers.CommitPublishesChunks`) | a chunk the disk took in part (`Transfers.TornChunkIsPublished`) |
| a failed write or edit leaves the file | the failure was not the sync after the rename (`Transfers.ErrorAfterRename`) | any such request |

The listing of a directory has the same form, `Listing.FollowedIsAll`, but with paths an operating system can give its condition
always holds (`Listing.OrdinaryPathsComplete`).

Inputs the model does not determine are parameters: the answers of backends and of the file system, clocks, fresh identifiers, the
sizes of partial writes and reads, the pattern as a predicate on a line, and the JSON size of a response.

## Model

| member | source | states |
|---|---|---|
| `ProtocolInvariant.StepKeepsInv` | src/domain/turn-service.ts:187-281 | every step of every interleaving, crash and recovery included, keeps the whole invariant of tables, tasks, leases, sessions and chains, and moves no ref but that of the workspace it publishes on |
| `ProtocolInvariant.KeepsInv` | src/domain/turn-service.ts:234-281 | a step that keeps its own turn in order and touches no other turn or runtime keeps the whole invariant |
| `ProtocolInvariant.CommitAlwaysAdmitted` | src/domain/sandbox-service.ts:168-177 | once the sessions are closed, the binding, state and ref checks at the head of the commit pass, and no operation row is in the way |
| `ProtocolInvariant.PublishSucceeds` | src/storage/repository.ts:263-306 | whenever a finish has its snapshot the publish transaction commits: neither a ref conflict nor a closed turn nor a foreign key stops it |
| `ProtocolInvariant.OneTurnPerWorkspace` | src/storage/schema.ts:24-30 | no other active turn works on the workspace of a turn that publishes: one active turn per thread, one thread per workspace |
| `ProtocolInvariant.CountsAdd` | src/domain/turn-service.ts:303-306 | one more lease keeps the count of its turn equal to the number of its live leases |
| `ProtocolInvariant.CountsRemove` | src/domain/turn-service.ts:311-320 | one lease less keeps the counts exact, and the last one removes the entry |
| `TurnRuns.RunKeepsInv` | src/domain/turn-service.ts:187-281 | the invariant holds after any run |
| `TurnRuns.ExpectedHeadIsHead` | src/domain/turn-service.ts:261-266 | in every reachable state an OPEN or FINISHING durable turn expects the head that its thread's main ref has |
| `TurnRuns.OneActivePerThread` | src/storage/schema.ts:105 | in every reachable state a thread has at most one turn that is neither FINISHED nor FAILED |
| `TurnRuns.RunningWhileSnapshotting` | src/storage/repository.ts:364-366 | in every reachable state of a daemon that is not down an operation is RUNNING exactly while the snapshot of its turn is taken; none is while it recovers or when it has just come up |
| `TurnRuns.CasNeverMisses` | src/storage/repository.ts:263-301 | in every reachable state the publish step advances the ref of the turn's own thread by exactly one commit on the current head, finishes the turn with it, and the stored commit and tree rows are those of their digests |
| `TurnRuns.SnapshotIsQuiet` | src/daemon/http.ts:225-242 | the handler of a tool call releases its lease only after the awaited call has returned, which is the guard of `Release`; so when the commit of a turn starts and while its snapshot is taken, no lease is held on the turn, no execution of its runtime is in flight and no session of it is active |
| `TurnRuns.LeaseAccounting` | src/domain/turn-service.ts:303-326 | in every reachable state `leaseCounts` has exactly the turns with live leases, each with their number, and a registered waiter implies a live lease |
| `TurnRuns.LastReleaseWakes` | src/domain/turn-service.ts:340-344 | no wakeup is lost: the release of the last lease lets the waiting finish go on, and only that release |
| `TurnRuns.StartIsRemembered` | src/domain/turn-service.ts:180-208 | a start on an idle thread writes a STARTING row of its mode and request, and after any further run the row still answers to both |
| `TurnRuns.RequestIsKept` | src/domain/turn-service.ts:201-208 | no run changes the mode or the request of a turn row |
| `TurnRuns.MainChain` | src/storage/repository.ts:263-301 | the main ref of a thread is its initial head followed by one commit per publication; the n-th is the result of a FINISHED durable turn of that same thread, which expected the commit before it |
| `TurnRuns.PublishedOnce` | src/storage/repository.ts:280-291 | no turn publishes twice, on its own chain or on another |
| `TurnRuns.FinishedExactlyWhenPublished` | src/storage/repository.ts:273-292 | at any point of any run, crashes included, a durable turn is FINISHED exactly when it is on the main chain of its own thread, and its result is a commit on its expected head that the thread's main ref leads to |
| `TurnRuns.PublishAppends` | src/storage/repository.ts:263-301 | the step that finishes a durable turn appends exactly its publication to the chain of its workspace |
| `TurnRuns.ChainsOnlyGrow` | src/domain/turn-service.ts:432-445 | over any run a chain is only extended: failed turns and everything else add nothing and take nothing away |
| `TurnRuns.TerminalTurnsNeverChange` | src/domain/turn-service.ts:372-389 | over any run FINISHED and FAILED rows never change and no turn row disappears |
| `TurnRuns.OtherThreadsStay` | src/domain/turn-service.ts:470-494 | no run without a publishing turn of a thread moves that thread's ref or workspace |
| `TurnRuns.HeadsDescend` | src/storage/repository.ts:273-278 | over any run a head only moves to descendants of itself |
| `TurnRuns.ForkPointIsShared` | src/domain/turn-service.ts:470-494 | an accepted fork starts the destination at a commit of the source's history, and after any run both heads descend from that fork point |
| `TurnRuns.RecoveryOutcome` | src/domain/recovery.ts:33-61 | when recovery is done, for any answers of the backends, every turn that was neither FINISHED nor FAILED is FAILED, every other turn, ref, commit and chain is as before, and every runtime is TERMINATED, FAILED or LOST |
| `RecoveryRuns.RecoverIsARun` | src/domain/recovery.ts:33-61 | whatever tables the loops of `recover` leave, some run of recovery steps that ends in RecoverDone leaves the same |
| `RecoveryRuns.RunIsRecover` | src/domain/recovery.ts:33-61 | the converse: recovery steps in any order end with tables that `recover` may leave |
| `RecoveryRuns.RestartIsARun` | src/domain/recovery.ts:33-61 | a restart from any crash, through the empty commit and `recover`, is a run of the daemon from Down to Up |
| `RecoveryRuns.RecoveryCanFinish` | src/domain/recovery.ts:42-60 | from every state a crash can leave recovery can be completed, even if the backends destroy nothing |
| `RecoveryRuns.CollectionIsARun` | src/domain/recovery.ts:63-115 | a collection, refused or not, is a run of the daemon that is shutting down: cleanup steps and one collection step |
| `RecoveryRuns.RefusalIsReachable` | src/storage/repository.ts:341-346 | a daemon that served one instant turn shuts down in a reachable state in which every collection is refused |
| `TurnServiceModel.TurnService.constructor` | src/domain/turn-service.ts:155-160 | a service starts with empty maps on tables in order, and the invariant holds of it |
| `TurnServiceModel.TurnService.Start` | src/domain/turn-service.ts:187-232 | an accepted start, exactly on an idle thread of an open service with a new turn id, stores its mode and request; a known turn with another request is an invalid argument, with the same one it is replayed when OPEN or FINISHED, its stored failure when FAILED, and busy otherwise; a refused start changes nothing |
| `TurnServiceModel.TurnService.EnsureThreadWorkspace` | src/domain/sandbox-service.ts:66-79 | the thread's workspace is found and nothing changes, or it is made on the empty commit with its ref and thread row |
| `TurnServiceModel.TurnService.Acquire` | src/domain/turn-service.ts:298-310 | a lease is given exactly on an OPEN turn of a service that is not closing, on the turn's runtime; a refusal changes nothing |
| `TurnServiceModel.TurnService.Release` | src/domain/turn-service.ts:311-326 | releasing takes exactly this lease away, the first time as the release step, the second time with no effect |
| `TurnServiceModel.TurnService.Finish` | src/domain/turn-service.ts:346-370 | an OPEN turn becomes FINISHING and waits exactly when it has leases; a FINISHED one is replayed, a FAILED one answers its failure, any other is busy, an unknown one is not open; these change nothing |
| `TurnServiceModel.TurnService.Fork` | src/domain/turn-service.ts:470-494 | accepted exactly for an idle source with a workspace, a new destination and a commit of the source's history, and then the destination starts at that commit; each refusal has its error, in order, and changes nothing |
| `TurnServiceModel.TurnService.PublishSnapshot` | src/domain/sandbox-service.ts:191-236 | the transaction commits: the thread's head becomes a commit of the snapshot on the old head, the turn is FINISHED with it and the thread is free |
| `TurnServiceModel.TurnService.AbandonSnapshot` | src/domain/sandbox-service.ts:224-236 | refs and turns stay, the operation has failed and the runtime is READY again |
| `TurnServiceModel.TurnService.CreateTurnRuntime` | src/domain/sandbox-service.ts:90-112 | the lookups never fail: a new PROVISIONING row is written, for a durable turn on the current head of its thread |
| `TurnServiceModel.TurnService.BackendCreated` | src/domain/sandbox-service.ts:113-128 | only the row of this runtime changes, and it is usable exactly when the backend created it |
| `TurnServiceModel.TurnService.SettleStart` | src/domain/turn-service.ts:248-280 | the turn can be leased, has a usable runtime and expects the current head of its thread; or it is FAILED and its thread is free |
| `TurnServiceModel.TurnService.StartCreated` | src/domain/turn-service.ts:234-281 | undisturbed, a start ends OPEN and leasable exactly when the backend created the runtime, else FAILED with the thread free; no ref moves |
| `TurnServiceModel.TurnService.StartTwice` | src/domain/turn-service.ts:169-200 | a client that starts a turn and repeats the call once it is OPEN gets the OPEN row of its own request |
| `TurnServiceModel.TurnService.Exec` | src/domain/session-manager.ts:135-159 | under a lease only a closing runtime refuses an execution, and the turn is OPEN or its finish still waits for leases |
| `TurnServiceModel.TurnService.ExecStarted` | src/domain/session-manager.ts:160-173 | a started execution is an active session of a RUNNING runtime, and every finish of that runtime's turn still waits for its leases |
| `TurnServiceModel.TurnService.SessionEnded` | src/domain/session-manager.ts:176-215 | a session that is found ended is inactive and its runtime READY |
| `TurnServiceModel.TurnService.Forget` | src/domain/session-manager.ts:33-55 | an expired or evicted session is forgotten, no other |
| `TurnServiceModel.TurnService.CloseInstance` | src/domain/session-manager.ts:237-240 | from here on executions are refused, none is in flight and no lease is held; the sessions to be killed are exactly the active ones |
| `TurnServiceModel.TurnService.CloseSession` | src/domain/session-manager.ts:241-256 | while no kill has failed, every active session of the runtime is still to be killed |
| `TurnServiceModel.TurnService.SessionsClosed` | src/domain/session-manager.ts:257-260 | the runtime is READY with a handle and has no active session, or a kill failed and nothing changed |
| `TurnServiceModel.TurnService.CommitTurnRuntime` | src/domain/sandbox-service.ts:159-177 | a durable turn always passes the checks and reaches COMMITTING on the current head of its thread; an instant one goes on to delete its runtime |
| `TurnServiceModel.TurnService.DeleteTurnRuntime` | src/domain/sandbox-service.ts:238-242 | only the runtime's row changes, and the runtime is not usable any more |
| `TurnServiceModel.TurnService.SettleFinish` | src/domain/turn-service.ts:372-467 | the turn is FINISHED exactly when it was published or its instant runtime was destroyed, else FAILED; its runtime is not active; the thread is free unless a later turn of it has started |
| `TurnServiceModel.TurnService.CloseSessions` | src/domain/session-manager.ts:237-260 | undisturbed, the loop ends in a closed runtime exactly when every active session can be killed, and no ref or turn changes |
| `TurnServiceModel.TurnService.CommitSnapshot` | src/domain/sandbox-service.ts:159-236 | undisturbed, a durable turn with a snapshot advances its thread's head by one commit; without one nothing moves |
| `TurnServiceModel.TurnService.FinishOpen` | src/domain/turn-service.ts:391-445 | undisturbed, a finish ends with the thread free: a durable turn is FINISHED and its thread's head advanced by its snapshot exactly when sessions were killed and the snapshot arrived; an instant one is FINISHED exactly when sessions were killed and the runtime destroyed |
| `TurnServiceModel.TurnService.Close` | src/domain/turn-service.ts:496-501 | the service is closing and nothing else has changed |
| `TurnServiceModel.TurnService.FailLeftTurn` | src/domain/turn-service.ts:519-535 | the turn is FAILED and its runtime, if it has one, TERMINATED or LOST |
| `TurnServiceModel.TurnService.FailLeftTurns` | src/domain/turn-service.ts:519-535 | once every start and finish has settled, the last loop fails exactly the turns that have not ended and touches no ref, commit or thread |
| `RepositoryModel.Repository.CommitBelongsToHistory` | src/storage/repository.ts:175-184 | the walk ends on any commit table, with missing rows and cycles, and finds the candidate exactly when it lies on the head's parent chain |
| `RepositoryModel.HistoryIsAncestry` | src/storage/repository.ts:175-184 | on rows that say what their digests say, that walk decides ancestry of commit identifiers |
| `RepositoryModel.CycleRepeats` | src/storage/repository.ts:177-181 | a chain that returns to a commit never leaves the commits passed since: why a visited set is enough |
| `RepositoryModel.WalkedAll` | src/storage/repository.ts:178-183 | a walk that stopped has passed the whole chain |
| `RepositoryModel.Repository.InsertRows` | src/storage/repository.ts:266-272 | both inserts do nothing on a stored row; a new commit needs a stored parent |
| `RepositoryModel.Repository.PublishTurnCommit` | src/storage/repository.ts:251-306 | the outcome says which condition failed: the parent row, the expected head, or the state and binding of the turn; with all met ref, turn, runtime, operation, commit and tree rows change together, otherwise none |
| `Recovery.RecoveryManager.CleanupFinishedTurnRuntimes` | src/domain/recovery.ts:15-31 | only runtimes of finished durable turns are touched, and become TERMINATED without handle or LOST |
| `Recovery.RecoveryManager.Recover` | src/domain/recovery.ts:33-61 | exactly the RUNNING operations are gone and the others as before; turns that have not ended are FAILED and the others as before; runtimes in use are LOST or TERMINATED; nothing else changes |
| `Recovery.RecoveryManager.FailInterruptedTurns` | src/domain/recovery.ts:54-60 | exactly the active turns become FAILED |
| `Recovery.RecoverAgain` | src/domain/recovery.ts:33-61 | a second recovery leaves every other table as it is and touches only runtimes of finished turns that still have a handle |
| `GarbageCollection.MarkReachable` | src/domain/recovery.ts:68-75 | the worklist ends on any commit table and marks exactly what the roots lead to |
| `GarbageCollection.DepthOf` | src/domain/recovery.ts:95-108 | on an acyclic table the cached depth is the length of the parent chain; the walk ends on any table |
| `GarbageCollection.SortByDepth` | src/domain/recovery.ts:111 | the order has every unreachable commit once, deepest first |
| `GarbageCollection.DescendingIsDeepestFirst` | src/domain/recovery.ts:94-111 | with the depths computed on an acyclic table, the sorted order is deepest first |
| `GarbageCollection.NoChildRemains` | src/domain/recovery.ts:110-115 | on an acyclic table, when a commit is deleted in this order no remaining row names it as parent |
| `GarbageCollection.RefusedIffPinned` | src/domain/recovery.ts:112-115 | the deletions all succeed exactly when no runtime or turn row names a commit that is not kept |
| `GarbageCollection.DeleteKeepsForeignKeys` | src/domain/recovery.ts:112-115 | a deletion that is not refused leaves every parent, head, base and expected head in place |
| `GarbageCollection.GarbageCollector.DeleteCommits` | src/domain/recovery.ts:112-115 | commits go in order up to the first that a foreign key protects, and no foreign key is left without its commit |
| `GarbageCollection.GarbageCollector.CollectTrees` | src/domain/recovery.ts:76-93 | exactly the tree rows of marked commits stay, and the files of the others go |
| `GarbageCollection.GarbageCollector.CollectCommits` | src/domain/recovery.ts:94-115 | marked commits stay; without a refusal only they stay |
| `GarbageCollection.GarbageCollector.Gc` | src/domain/recovery.ts:63-115 | on any commit table: every commit that a ref or a runtime in use leads to stays with its tree, without a refusal no other does, and foreign keys stay intact; on an acyclic table the run is refused exactly when a runtime or turn row names something else |
| `GarbageCollection.CanonicalRowsAcyclic` | src/storage/cfs.ts:300-302 | rows that say what their digests say cannot form a cycle |
| `GarbageCollection.CollectionKeepsHeads` | src/domain/recovery.ts:63-115 | a collection, refused or not, keeps every commit and tree of every main chain |
| `GarbageCollection.CollectionKeepsLive` | src/storage/repository.ts:341-346 | the commits kept are those that heads of refs and base commits of runtimes in use lead to |
| `GarbageCollection.CollectionIsCollect` | src/domain/recovery.ts:63-115 | the rows a collection leaves are those of the collection step of the turn protocol |
| `GarbageCollection.TerminatedRuntimePinsItsBase` | src/storage/repository.ts:341-346 | the tables after one finished instant turn: every collection tries to delete the empty commit and is refused |
| `Bytes.BigEndianReadsBack` | src/storage/cfs.ts:30-40 | a number that fits its field is read back from it |
| `Bytes.BigEndianWritesBack` | src/storage/cfs.ts:167-179 | every field is the encoding of the number read from it |
| `Bytes.FourBytes` | src/storage/cfs.ts:52-62 | four bytes are a number with the most significant first |
| `Bytes.BeforeMeans` | src/storage/cfs.ts:79 | the first bytes that differ decide, as unsigned numbers, and of a string and its beginning the shorter comes first |
| `Bytes.PrefixBefore` | src/storage/cfs.ts:79 | a proper prefix compares less: directories come before their contents |
| `Bytes.SortedUnique` | src/storage/cfs.ts:79 | a sorted list is determined by its elements |
| `Bytes.SortKeys` | src/storage/cfs.ts:68-80 | collected in any order, the paths come out once each and sorted |
| `CfsCodec.ArchiveRoundTrip` | src/storage/cfs.ts:52-62 | decoding an encoded entry list gives the list |
| `CfsCodec.EncodingInjective` | src/storage/cfs.ts:52-62 | different entry lists have different archives |
| `CfsCodec.DecodedTiles` | src/storage/cfs.ts:243-249 | on any bytes the parse loop ends; when it accepts, its entries tile the buffer after the magic |
| `CfsCodec.AcceptedExactlyEncodings` | src/storage/cfs.ts:165-184 | an archive is accepted exactly when it is the encoding of storable entries |
| `CfsCodec.EntryReadsBack` | src/storage/cfs.ts:165-184 | one entry is read back from wherever its encoding lies |
| `CfsCodec.EntryLayout` | src/storage/cfs.ts:52-62 | the bytes of an entry: length of the path, path, type, mode, time, length of the payload, payload, each at its place |
| `CfsCodec.PathMeans` | src/storage/cfs.ts:46-50 | a path is accepted exactly when it has no NUL and none of its parts is empty, '.' or '..' |
| `CfsCodec.SplitJoins` | src/storage/cfs.ts:46-50 | the parts of a path have no '/' and joined by '/' are the path |
| `CfsCodec.ReadEntryIsEncoding` | src/storage/cfs.ts:243-249 | what one round of the loop reads is the encoding of the entry it returns |
| `Cfs.RoundingAbsorbs` | src/storage/cfs.ts:105 | rounding to milliseconds is idempotent and absorbs any error under 500 microseconds |
| `Cfs.EscapesExactlyWhenClimbing` | src/storage/cfs.ts:264-265 | with a staging name the target does not mention, the extractor's check refuses a relative target exactly when it climbs above the root somewhere on its way |
| `Cfs.TableKnowsEarlier` | src/storage/cfs.ts:120-127 | the inode table names exactly the first path of an inode in archive order |
| `Cfs.NextEntry` | src/storage/cfs.ts:103-147 | the entry of a path is decided by the tree and the order of the paths alone, though it is made with the table |
| `Cfs.CollectEntries` | src/storage/cfs.ts:64-81 | every path once, in the order of Buffer.compare |
| `Cfs.ExportCfs` | src/storage/cfs.ts:83-157 | one pass with the inode table gives the canonical archive of the tree, or the first error; the size limit holds at every append; which trees succeed is `CfsSafety.ExportsExactly` |
| `Cfs.ExtractCfs` | src/storage/cfs.ts:233-293 | the extraction loop and the reverse pass over directory times compute the extraction function, whose results are safe by `CfsSafety.ExtractedIsSafe` |
| `CfsRoundTrip.ExportedEntries` | src/storage/cfs.ts:101-148 | a successful export is the encoding of one storable entry per path |
| `CfsRoundTrip.ExtractIsFold` | src/storage/cfs.ts:243-285 | extracting an encoded list is applying its entries in order |
| `CfsRoundTrip.ParentThere` | src/storage/cfs.ts:250-252 | when an entry is extracted its directory is there, no symbolic link is above it, and it is new |
| `CfsRoundTrip.FirstInOrder` | src/storage/cfs.ts:269-273 | a hard-link target is an earlier regular file of the archive |
| `CfsRoundTrip.ExtractRebuilds` | src/storage/cfs.ts:233-293 | an exported archive extracts exactly when no link target climbs above the root, and then the tree is rebuilt: names, types, contents, links, permissions below octal 1000, rounded times, sharing of files |
| `CfsRoundTrip.ReExport` | src/storage/cfs.ts:83-147 | exporting the extracted tree under any root succeeds, and gives the same bytes exactly when no entry has the sticky bit |
| `CfsSafety.ExportsExactly` | src/storage/cfs.ts:101-148 | a tree is archived exactly when every path has a plain mode, a time that fits, no special file, links that are relative and stay inside and files of at most 256 MiB, and the archive has at most 1 GiB |
| `CfsSafety.EntryExactly` | src/storage/cfs.ts:101-141 | a path gets its entry exactly then, with type, permission bits, rounded time and the contents, the target, or the first path of the same file |
| `CfsSafety.ExportedLinksAreRelative` | src/storage/cfs.ts:109-113 | no link of an archived tree is absolute |
| `CfsSafety.ExtractedIsSafe` | src/storage/cfs.ts:233-293 | whatever archive is extracted, no link of the tree is absolute or leads out of the staging directory, nothing lies below a link or a file, and under a fresh name no link climbs out on its way |
| `CfsSafety.BelowLinkRefused` | src/storage/cfs.ts:251 | an entry below a link is refused |
| `CfsSafety.AcceptedEntry` | src/storage/cfs.ts:245-288 | what an accepted entry satisfies: its type, a new path below no link, a hard link to an earlier regular file; and its type is remembered |
| `CfsSafety.RoundedNear` | src/storage/cfs.ts:105 | a rounded time is a whole millisecond at most half a millisecond away |
| `CfsLimits.ClimbingTargetExported` | src/storage/cfs.ts:110-113 | a workspace with one link that the exporter archives and no host extracts |
| `CfsLimits.StickyBitLost` | src/storage/cfs.ts:277-279 | a workspace with one directory of mode 1755 whose second export differs from the first |
| `GuestCfs.PlainIsInside` | agent/src/cfs.rs:152-158 | a link the agent accepts is accepted by the host under any root and never climbs |
| `GuestCfs.ExportWorkspaceFile` | agent/src/cfs.rs:130-215 | the agent writes the same bytes as the host, and fails where the host does and on a target with a `..` part; an archived link is relative and has no such part |
| `GuestCfs.GuestArchivesExtract` | agent/src/cfs.rs:130-215 | every archive of the agent extracts and rebuilds the tree |
| `Text.LinesAreAll` | agent/src/file_ops.rs:1016-1024 | the lines of a file, joined, are the file |
| `Text.LinesAreLines` | agent/src/file_ops.rs:1016-1024 | newlines end lines and every line but the last has one |
| `Text.CountLines` | agent/src/file_ops.rs:1118-1123 | the count from newlines is the number of lines |
| `LineEdits.FindStarts` | agent/src/file_ops.rs:1016-1024 | the offsets found are where the lines start |
| `LineEdits.SortEdits` | agent/src/file_ops.rs:1026 | a sorted permutation |
| `LineEdits.Validate` | agent/src/file_ops.rs:1027-1078 | accepted exactly when every edit is well-formed and no two touch a line, whatever the order supplied |
| `LineEdits.SpliceRewrites` | agent/src/file_ops.rs:1079-1111 | one splice at original offsets rewrites exactly the lines of its edit |
| `LineEdits.EndsAtLength` | agent/src/file_ops.rs:1081-1087 | only the last edit reaches the end of the file, so the live length is still the original one |
| `LineEdits.ApplySplices` | agent/src/file_ops.rs:1079-1111 | the reverse splices give the line-by-line rewrite |
| `LineEdits.EditBytes` | agent/src/file_ops.rs:1004-1123 | the outcome is a function of the set of edits: errors, the rewritten bytes, and the true line counts before and after |
| `LineEdits.EditedIsStitched` | agent/src/file_ops.rs:1080-1110 | edits in the order of the lines stitch the file together: what lies between them stays, ranges are replaced or left out, insertions stand in front of or behind their line |
| `LineEdits.OneEdit` | agent/src/file_ops.rs:1080-1110 | what a single edit of each kind makes of a file |
| `LineEdits.EditRefusals` | agent/src/file_ops.rs:1027-1078 | a call is an invalid argument exactly when an edit lacks a line or a field its kind needs, stands twice, or touches a line of another |
| `LineEdits.EditLimits` | agent/src/file_ops.rs:1004-1117 | 768 KiB of contents and 16 MiB of edited file are the limits |
| `Encoding.EditKeepsUtf8` | agent/src/file_ops.rs:1003-1110 | edits with valid UTF-8 contents of a valid UTF-8 text give valid UTF-8 |
| `Encoding.Utf8IsScalars` | agent/src/file_ops.rs:1002-1003 | bytes are valid UTF-8 exactly when they encode Unicode scalar values after RFC 3629 |
| `Grep.GrepAccumulator.constructor` | agent/src/file_ops.rs:1924-1933 | a fresh accumulator has had no call |
| `Grep.GrepAccumulator.Add` | agent/src/file_ops.rs:1935-1970 | the call is recorded, and the fields are what the calls so far make of an empty page |
| `Grep.ScanBuffer` | agent/src/file_ops.rs:1994-2059 | adds exactly the hits of the file in line order: path, offset, line number, text, context before and after |
| `Grep.ScanStream` | agent/src/file_ops.rs:2067-2136 | adds exactly the same hits, for every predicate and context size, with two queues instead of random access |
| `Grep.ReadySplit` | agent/src/file_ops.rs:2101-2107 | the matches popped are those whose last context line has been read |
| `Grep.Consider` | agent/src/file_ops.rs:2090-2131 | one line keeps the queue and the calls in step |
| `Grep.TrimMeans` | agent/src/file_ops.rs:1973-1979 | a line ending is a newline, a carriage return and a newline, or a carriage return at the end of the file |
| `GrepPaging.FileGrep` | agent/src/file_ops.rs:1370-1484 | a request is refused on its limits, or answered with the page that all hits in path and line order make; every match on it is a matching line of its file with its number, text and the context asked for, within the count limit and the response budget |
| `GrepPaging.SearchOrdered` | agent/src/file_ops.rs:1428 | hits come strictly ordered by path and offset, which is what the cursor compares |
| `GrepPaging.SearchIsRight` | agent/src/file_ops.rs:1433-1460 | the hits are matching lines with text and context before and behind them, and every matching line of every file is one |
| `GrepPaging.PageIsRun` | agent/src/file_ops.rs:1935-1970 | a page is the next run of hits, without a gap, exactly when the count limit ends the run or nothing behind the first hit over budget still fits |
| `GrepPaging.CountedPage` | agent/src/file_ops.rs:1946-1949 | when counts end the pages, each has the next `limit` hits and the cursor of the last |
| `GrepPaging.FollowedIsAll` | agent/src/file_ops.rs:1462-1484 | following the cursor always ends, and gives every match exactly once and in order exactly when each page it comes to is a run of hits and only the end of the hits leaves a page empty |
| `GrepPaging.FollowGrep` | agent/src/file_ops.rs:1370-1484 | on any workspace, a client that follows the cursor sees only right matches, and every matching line of every file, in path and line order, exactly under that condition; always when only the count limits the pages |
| `GrepPaging.CountedIsComplete` | agent/src/file_ops.rs:1946-1949 | when counts end the pages the condition holds |
| `GrepPaging.LongMatchIsSkipped` | agent/src/file_ops.rs:1950-1966 | two files, one match over the budget and a short one behind it: only the short one is ever delivered |
| `Listing.SortedFormUnique` | agent/src/file_ops.rs:1294-1304 | a listing has one sorted form in either order |
| `Listing.ListPage` | agent/src/file_ops.rs:1294-1367 | the page depends on the listing, not on the order the directory gives it: entries behind the cursor by the bytes of their paths or the latest first, the next cursor made of the last, and truncated exactly when an entry behind the cursor is missing |
| `Listing.TakePage` | agent/src/file_ops.rs:711-755 | the page is the longest prefix within the limit of which every part fits the budget |
| `Listing.FollowedIsAll` | agent/src/file_ops.rs:711-755 | following the cursor ends, and gives every entry exactly once and in order exactly when each fits the budget alone, for both sort orders |
| `Listing.OrdinaryPathsComplete` | agent/src/file_ops.rs:711-755 | with paths an operating system can give every entry fits, so following the cursor gives the whole listing |
| `Framing.Socket.Write` | src/backends/agent-transport.ts:10-12 | a write takes a prefix of what it is offered |
| `Framing.SocketFrameWriter.Write` | src/backends/agent-transport.ts:23-27 | what the socket got since it was attached is a prefix of the bytes due, the frame among them, and all of it unless a write fell short |
| `Framing.SocketFrameWriter.Flush` | src/backends/agent-transport.ts:39-50 | nothing is sent twice or left out across partial writes |
| `Framing.SocketFrameWriter.Drain` | src/backends/agent-transport.ts:29-31 | draining goes on where the last write stopped |
| `Framing.SocketFrameWriter.Attach` | src/backends/agent-transport.ts:19-21 | any socket can be attached at any time: what still waits is due on it, behind what it has carried before |
| `Framing.SocketFrameWriter.QueueFrame` | src/backends/agent-transport.ts:25 | a frame is queued behind the others |
| `Framing.SocketFrameWriter.Clear` | src/backends/agent-transport.ts:33-37 | clearing empties the queue and detaches the socket |
| `Framing.ParseAppend` | src/backends/agent-transport.ts:66-86 | bytes that come later change nothing of the frames already complete |
| `Framing.ParseTiles` | src/backends/agent-transport.ts:66-75 | frames and rest are the stream |
| `Framing.ParseMeans` | src/backends/agent-transport.ts:66-75 | a frame is a length of four bytes and that many bytes, at most 2 MiB |
| `Framing.ChunkingIrrelevant` | src/backends/agent-transport.ts:63-86 | however the inbound bytes are cut into chunks, the same requests get the same answers |
| `Framing.RunInOrder` | src/backends/agent-transport.ts:53-112 | over any run of chunks, requests, failures and closes the k-th answered request gets the k-th frame, and the others wait in order or are rejected |
| `Framing.EveryRequestSettles` | src/backends/agent-transport.ts:53-112 | over any run every request is settled at most once and the others wait; a channel that failed or was closed has settled all |
| `Framing.AgentFrameChannel.Push` | src/backends/agent-transport.ts:63-86 | the loop delivers complete frames to the oldest requests and closes the channel on a frame over 2 MiB or without a request |
| `Framing.AgentFrameChannel.Request` | src/backends/agent-transport.ts:88-98 | a request waits behind the others, or is rejected when the channel is closed or its frame cannot be written |
| `Framing.AgentFrameChannel.Fail` | src/backends/agent-transport.ts:100-104 | all waiting requests are rejected, once |
| `Framing.AgentFrameChannel.Close` | src/backends/agent-transport.ts:106-111 | all waiting requests are rejected, once |
| `Framing.DemuxIsStdout` | src/backends/docker.ts:134-144 | the demultiplexer passes on exactly the bytes of stdout, whatever of stderr lies between |
| `Framing.MultiplexingIrrelevant` | src/backends/docker.ts:134-144 | for any interleaving of streams and any chunks, the channel ends as if given the bytes of stdout in one piece |
| `Framing.DockerTransport.ConsumeDockerFrames` | src/backends/docker.ts:134-144 | the loop pushes the payloads of the complete stdout frames and keeps the rest |
| `Output.OutputBuffer.Append` | agent/src/main.rs:209-227 | however the stream is chunked, the buffer is the stream up to 1 MiB and otherwise its first and last 512 KiB; the total saturates |
| `Output.OutputBuffer.Snapshot` | agent/src/main.rs:229-235 | kept and omitted bytes are the bytes produced |
| `Output.ShapedAlike` | src/domain/session-manager.ts:79-90 | shaping what the agent kept equals shaping the stream, exactly under a condition on the two sizes |
| `Output.ShapeMeans` | src/domain/session-manager.ts:79-90 | long output is shown as its beginning and its end, each at most half the limit and without overlap, with the number of bytes left out |
| `Output.LimitMeans` | src/domain/session-manager.ts:80-81 | four bytes a token, at most the daemon's limit, at least 256 |
| `Output.AccountedExactly` | src/domain/session-manager.ts:79-90 | shown plus omitted bytes are the bytes produced, exactly under the same condition |
| `Output.TwoBytesLost` | src/domain/session-manager.ts:79-90 | with a limit of 2 MiB, two bytes of a stream just over 1 MiB are neither shown nor reported |
| `Output.Session.Response` | src/domain/session-manager.ts:92-122 | the reply shapes the command's stream: the part not shown yet while the agent keeps everything, the whole stream once it is cut, equal to shaping what was really produced exactly under the size condition; the cursor advances |
| `Output.DeltasTile` | src/domain/session-manager.ts:93-97 | successive polls tile the stream while nothing is cut; a poll of a longer stream gives its two ends again |
| `Output.DeltaAccounted` | src/domain/session-manager.ts:93-98 | every poll accounts for the bytes new in it, or for the whole stream once it is cut |
| `Base64.EncodeReadsBack` | src/backends/docker.ts:303 | a strict decoder of section 4 of RFC 4648 gives the bytes back |
| `Base64.SymbolMeans` | src/backends/docker.ts:303 | the alphabet is capital letters, small letters, digits, '+' and '/' |
| `Base64.GroupMeans` | src/backends/docker.ts:303 | the symbols of a group are the base-64 digits of its 24 bits, and a short last group is padded |
| `Base64.SlicesEncodeWhole` | src/backends/docker.ts:296-306 | slices encoded one by one are the encoding of the whole exactly when every slice but the last has a length divisible by three |
| `Base64.SendSlices` | src/backends/docker.ts:283-307 | what is sent is the encoding of the archive exactly when the slices are aligned; when reads fill the buffer they are, and the text is `ceil(n / 3) * 4` characters long |
| `Base64.ShortReads` | src/backends/docker.ts:296-306 | two reads of one byte each: the text sent is not the encoding of the two bytes |
| `Tar.OctalReadsBack` | src/storage/tar.ts:12-16 | an octal field reads back as its number |
| `Tar.TarHeader` | src/storage/tar.ts:23-46 | the block filled in place is the header: fields in order, checksum over the block with spaces in its place |
| `Tar.WriteField` | src/storage/tar.ts:18-21 | a value at its offset, the rest untouched |
| `Tar.HeaderReadsBack` | src/storage/tar.ts:23-46 | a reader after the ustar Interchange Format of IEEE Std 1003.1 recovers the fields and the checksum matches |
| `Tar.WholeBlocks` | src/storage/tar.ts:107-108 | entries are padded to blocks of 512 bytes |
| `Tar.TarReadsBack` | src/storage/tar.ts:69-111 | such a reader recovers every entry of the archive, which ends with two blocks of zeros |
| `Tar.HardLinkPointsBack` | src/storage/tar.ts:84-91 | in any archive an entry is a hard link exactly when an earlier path has its shared inode, and it names the first such path, which stands before it as a regular file with the contents; every entry has the name, mode, time and target found at its path |
| `Tar.Chunks` | src/storage/tar.ts:69-111 | the chunks joined are the archive of the sources, or the first error; every hard link in it points back to its first path |
| `ArtifactLines.FirstLine` | src/mcp/server.ts:357-363 | a complete line in front of a text is its first line |
| `ArtifactLines.StreamLines` | src/mcp/server.ts:329-378 | the page is that of the lines of the whole text, however the stream is cut into chunks |
| `ArtifactLines.PageIsRun` | src/mcp/server.ts:337-346 | a page is a run of selected lines and its cursor the number of the next one |
| `ArtifactLines.NumbersExactly` | src/mcp/server.ts:307-314 | the selected lines are those from the start of the page on that lie in a range, both ends included |
| `ArtifactLines.FollowedIsAll` | src/mcp/server.ts:337-346 | following the cursor gives every selected line exactly once exactly when each fits the budget alone |
| `ArtifactLines.LongLineNeverComes` | src/mcp/server.ts:337-346 | a file of one line over the budget: its pages are empty and their cursor is line 1 for ever |
| `ArtifactLines.LineNumbers` | src/mcp/server.ts:217-227 | for the lines of a page the loop ends and gives each its number in the file |
| `ArtifactLines.QueryMeans` | src/mcp/server.ts:322-336 | the cursor, the first range, the offset or line 1 is where a page starts, and 200 lines are its limit when neither ranges nor another limit are given |
| `ArtifactLines.ReadLines` | src/mcp/server.ts:322-378 | each returned line carries its true number; reversed ranges and ranges with offset or limit are refused |
| `Transfers.FileService.FileWriteBegin` | agent/src/file_ops.rs:816-870 | a transfer begins with an empty temporary file unless its id is known, eight are pending or the parent does not open |
| `Transfers.FileService.FileWriteChunk` | agent/src/file_ops.rs:872-908 | a chunk is appended and counted, or refused; one over the size limit ends the transfer; one the disk refuses leaves what it took in the temporary file, uncounted |
| `Transfers.FileService.FileWriteCommit` | agent/src/file_ops.rs:910-951 | the target becomes the temporary file, with mode 600, or stays when the rename fails; an error is also answered when the directory cannot be synced after the rename; the transfer is over |
| `Transfers.FileService.FileWriteAbort` | agent/src/file_ops.rs:953-972 | the transfer is over and no file changes |
| `Transfers.FileService.FileEdit` | agent/src/file_ops.rs:974-1190 | refused in this order: no file, no regular file, over 16 MiB, a content other than the expected digest names, no valid UTF-8, bad edits; what is published was made for the content the file had, under the same permission bits; a failing sync after the rename is an error |
| `Transfers.EditsFollow` | agent/src/file_ops.rs:974-1132 | an edit made for the digest that the last one answered gets past every check of the file: only its own edits decide |
| `Transfers.NoLostUpdate` | agent/src/file_ops.rs:1000-1002 | of two edits made for the same version the second is refused with the digest of what the first has published, and changes nothing |
| `Transfers.TransfersHoldTheirChunks` | agent/src/file_ops.rs:816-908 | over any interleaving at most eight transfers are pending, each counts exactly its accepted chunks within the size limit, and its temporary file holds exactly them unless a refused chunk left bytes in it |
| `Transfers.OnlyCommitChanges` | agent/src/file_ops.rs:816-972 | a file changes only at a commit or edit of it whose rename succeeds |
| `Transfers.ErrorAfterRename` | agent/src/file_ops.rs:927-951 | a request that replaces a file is answered with success exactly when the directory was synced too |
| `Transfers.UncommittedLeavesFile` | agent/src/file_ops.rs:816-972 | over a run without a commit or edit of a path its file stays what it was |
| `Transfers.CommitPublishesChunks` | agent/src/file_ops.rs:910-951 | at its commit the target holds the concatenation of the accepted chunks exactly when no refused chunk left bytes; size and digest are those of the chunks |
| `Transfers.TornChunkIsPublished` | agent/src/file_ops.rs:899-906 | three requests after which the published file has a byte more than size and digest say |
| `Transfers.ClientWrite` | src/backends/agent-files.ts:131-167 | the client loop replaces the target by the whole source or leaves every file as it was, and leaves no transfer; it succeeds exactly when every step can, and fails after the replacement exactly when only the sync of the directory failed |
| `Transfers.SendValue` | src/backends/agent-files.ts:146-155 | one value of the source is sent in chunks of at most 384 KiB, exactly when it fits the size limit and the disk |
| `Transfers.SendAll` | src/backends/agent-files.ts:143-157 | all values of the source are sent exactly when together they fit the size limit and the disk |

## Left out

* HTTP routing, authentication, request schemas, configuration, process control of Docker and Firecracker, vsock and mounts: no state
  of the kinds above.
* Validation of thread and turn identifiers, JSON payloads and error texts: a stored request is a number, errors are codes.
* Executions and session calls happen under a lease of their turn: the request handler that takes the lease is not part of this model,
  `ExecBegin` and `SessionSettle` take the lease it holds. Session capacity, expiry times and least-recently-used eviction are one
  step that forgets a session.
* `Session.serial` and timeouts of polls: a session call is one step.
* Failures of SQLite other than foreign keys, unique indexes and the conditions of updates.
* A start that fails before its runtime row exists writes a runtime id with no row; with foreign keys on that update fails and the turn
  stays STARTING until the next restart. The protocol models that (`StartAbort`), so it is not claimed that every start ends OPEN or FAILED.
* The file system below a call: permissions, `openat2`, parent directories a write creates, a disk that is full when an edit is staged. Names of temporary
  files are kept apart from workspace paths, so a request that names one as its target is not modelled.
* SHA-256 is collision-free: a tree digest is its bytes, a file digest its contents.
* `ingestCfs` beyond the extraction it runs, and the read loop of a file of known size in `exportCfs`.
* Modification times before 1970 in the agent's exporter and in archives; path bytes are not decoded, and paths have no backslash.
* UTF-8 checks of reads and searches, and decoding across chunks: texts are bytes that are valid already.
* Patterns that span lines, which only `scan_buffer` takes; compiling patterns, globs and ignore files. A pattern that fails while matching
  ends the call in the code and is not modelled.
* `file_read` of the agent under its byte budget; directory listings that change between two pages.
* The handshake before Docker's stream, and decoding a frame: an answered request stands for one settled with what its frame decodes to.
* Extraction replaces the destination only at the end; the staging tree is what the model computes.
- TurnServiceModel.TurnService.FinishOpen: describes a finish during whose waits no other call runs; what others may do in between is the subject of `TurnRuns`.
- TurnServiceModel.TurnService.Release: needs that no execution runs under the lease, which the request handler ensures by awaiting the call.
- Tar.Chunks: takes what the walk found, already sorted, because the walk is that of `Cfs.CollectEntries`; names have no NUL byte, as on any file system.
- ArtifactLines.LineNumbers: requires that there are at least as many selected numbers as lines, because the loop of the code does not end otherwise.
- Framing.SocketFrameWriter.Flush: an empty frame would stop the writer; frames have at least their length prefix.
