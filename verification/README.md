# fuse-promise, verified

A Dafny model of the daemon side of fuse-promise: the read-through cache, the promise tree and its
runtime, the FUSE namespace and directory paging, read planning, the interleaved FUSE reads, the
routing of provider reads, the materialize engine over a local file system, and the materialize
exchange with a client. `dafny verify dfyconfig.toml` checks the whole project.

Every struct that the source updates through `&mut self` is a class (`CachedChunk`, `CachedFile`,
`ReadCache`, `PromiseBuilder`, `Runtime`, `PendingReads`, and `Engine` for the local variables and
the disk of a materialize run); its methods are proved against functions on values. What several
threads do together is a state machine on those values, and its theorems are about every run.

| file | what it holds |
|---|---|
| `Base.dfy` | machine integers, options, status codes |
| `Cache.dfy` | cached ranges, chunks, files and the cache; histories of inserts; truth of cached bytes |
| `Paths.dfy` | relative paths, normalization, the key order of ordered maps, decimal counters |
| `Tree.dfy`, `Walk.dfy` | the builder, commit transport and replay; the subtree walk |
| `Runtime.dfy`, `Lifecycle.dfy`, `Chronicle.dfy` | the runtime object, its events, the invariant over all runs, and what a run says about its state |
| `Namespace.dfy`, `Paging.dfy` | lookup, listing, parent inodes; readdir in pages |
| `Planner.dfy` | read, coalesced and prefetch plans, request validation, reply slicing |
| `ReadRun.dfy`, `ReadSafety.dfy`, `ReadOutcomes.dfy` | FUSE reads interleaved with everything else, the read refinement, and why a read ends as it does |
| `Routing.dfy`, `RoutingSafety.dfy`, `RoutingHistory.dfy` | pending reads, routes and disconnects under every interleaving, and what each outcome says about the run |
| `Copy.dfy` | the copy loop of one file and the sources of its chunks |
| `Disk.dfy`, `Rollback.dfy` | a file system with permissions, cleanup, and why cleanup is exact |
| `MaterializeJob.dfy`, `Materialize.dfy` | progress, safety and placement of a run; the engine |
| `TargetPlan.dfy`, `MaterializeNode.dfy`, `Marks.dfy` | planning, a whole request, marking the nodes |
| `Dialogue.dfy` | progress frames, answers and the final frame |
| `Scenarios.dfy` | reachable runtimes in which expected properties fail |

## Main results

- **Cache.** Inserting refines overriding a partial map, the range list is canonical, and after any
  sequence of inserts, with any mix of chunk sizes, a reader sees exactly the latest write that
  reached its chunk (`CachedChunk.Insert`, `Canonical`, `FileHistory`).
- **Read refinement.** Over every interleaving of reads, prefetches, commits, disconnects, policy
  changes and materializations, a successful reply is a prefix of the true bytes, and all of them
  unless the provider answered short (`ReadRefinement`). A read ends within seven steps of its own,
  and every failure has its cause: nothing could serve it when it was planned, routing or the local
  copy failed, or the answer was short (`ReadEnds`, `FailureExplained`, `PlanFailsIff`).
- **Runtime.** Identities never change, a promise is available exactly while its provider is live,
  lookup and listing agree, paging is exact (`Liveness`, `NamespaceAgreement`, `PagingExact`). The
  run determines the state: which providers are live, which promises exist with which tree, and what
  a node is marked with (`LiveIffRegistered`, `PromiseIffCommitted`, `MarkIsLatest`).
- **Commit.** Serializing a builder in key order and replaying it never fails and rebuilds the same
  tree (`CommitRoundTrip`).
- **Requests.** Exactly when the exact, coalesced, prefetch and materialize requests are planned and
  accepted, for every chunk size, and so when read-through serves what the uncached runtime serves
  (`CoalescedRequestAccepted`, `PrefetchRequestAccepted`, `ReadThroughServes`).
- **Routing.** At most one answer per read, only from the connection that owns the provider; a
  finished disconnect has failed every read that was pending when it took the lock (`RoutingSafe`,
  `DisconnectFailsAll`). An answer is delivered exactly when its connection had registered the
  provider and it fits the request, and what a call returns is fixed by what happened to it
  (`AnswerDelivered`, `OutcomeTold`).
- **Materialize.** Success places the planned subtree exactly, under the asked name or its first free
  variant, with the declared kinds and modes; failure at any point, including
  cancellation at any report, rolls the disk back; without failures and obstacles it succeeds, under
  every policy; its marks are honest (`MaterializeRequest`, `Engine.Run`, `CleanupRollsBackIff`,
  `RequestMarksHonestly`).
- **Dialogue.** Lock-step, one answer per progress frame, one final frame, no deadlock, bounded
  length; the final frame tells the truth, and success never follows a cancellation (`DialogueSafe`,
  `DialogueEnds`, `FinalFrameIsTrue`, `NoSuccessAfterCancel`).

Some expected properties are false of the code. Each has a concrete case and the exact condition:

- A stored byte survives a change of chunk size only if its chunk key does not move, since changing
  the policy does not clear the cache (`ChunkSizeChangeLosesBytes`, `ChunkSizeChange`).
- Paging the mount root is exact only if promises committed between two calls sort after the last one
  delivered; `promise-10` sorts before `promise-2` (`TenthPromiseShiftsRoot`, `RootPagingExactIff`).
- Read-through does not serve every read that the uncached runtime serves: it refuses a read whose
  chunk would end beyond 64 bits (`CoalesceFailsAtTop`), and with chunks above 256 KiB, which the
  policy accepts, a read whose coalesced request is too long (`LargeChunkRefused`). `ReadThroughServes`
  has the exact condition.
- A planned request is refused if the declared provider node id holds a NUL, which the builder accepts
  (`NulNodeRefused`, `ExactRequestAccepted`).
- A pending read can be without a route: its provider is routed exactly while no disconnect has
  dropped the route (`PendingWithoutRoute`, `PendingRoutedIff`).
- Under Overwrite, cleanup can leave a new entry behind when a reused directory is declared with a mode
  that shuts its owner out (`ClosedDirectoryKeepsChild`, `ClosedDirectoryIsReal`,
  `LateFailureRollsBackIff`); under every policy, an entry whose identity cannot be read right after
  its creation stays (`Engine.Run`, `StrayStays`).

## Model

| member | source | states |
|---|---|---|
| `Cache.CachedChunk.Read` | crates/fuse-promise-runtime/src/lib.rs:353-366 | a nonempty range is returned, with exactly its bytes, if and only if every byte of it is stored |
| `Cache.CachedChunk.Insert` | crates/fuse-promise-runtime/src/lib.rs:368-413 | ranges stay sorted, nonempty and separated, and the stored partial map becomes the old one overridden by the new bytes; an overflowing range is ignored |
| `Cache.OneRangeHoldsAll` | crates/fuse-promise-runtime/src/lib.rs:354-366 | because touching ranges are merged, a fully stored interval lies inside a single range |
| `Cache.FinishInsert` | crates/fuse-promise-runtime/src/lib.rs:374-413 | retained ranges plus the merged one, sorted, are valid and hold the overridden map |
| `Cache.Canonical` | crates/fuse-promise-runtime/src/lib.rs:242-250 | two valid range lists with the same bytes are equal |
| `Cache.CachedFile.Read` | crates/fuse-promise-runtime/src/lib.rs:307-326 | a read across chunks succeeds exactly when every byte is present under its own chunk, and returns those bytes |
| `Cache.CachedFile.Insert` | crates/fuse-promise-runtime/src/lib.rs:328-351 | every byte is filed under its own chunk, except a byte at the largest offset; other chunks are untouched |
| `Cache.FileHistory` | crates/fuse-promise-runtime/src/lib.rs:307-351 | after any sequence of inserts, each with its own chunk size, a reader with chunk size c sees at each offset the latest write that filed it under the same chunk base |
| `Cache.ChunkSizeChange` | crates/fuse-promise-runtime/src/lib.rs:427-430 | with one chunk size a reader sees exactly the latest writes; after a change, only those whose chunk base stays the same |
| `Cache.ChunkSizeChangeLosesBytes` | crates/fuse-promise-runtime/src/lib.rs:644-651 | a byte stored with chunk size 8 that chunk size 4 does not find |
| `Cache.ReadCache.Clear` | crates/fuse-promise-runtime/src/lib.rs:269-271 | nothing is cached afterwards |
| `Cache.ReadCache.Read` | crates/fuse-promise-runtime/src/lib.rs:273-286 | the result is the hit determined by the stored partial map of that promise and path |
| `Cache.ReadCache.Insert` | crates/fuse-promise-runtime/src/lib.rs:288-304 | only the named file changes, by an insert at its chunks |
| `Cache.AnswerIsHit` | crates/fuse-promise-runtime/src/lib.rs:273-286 | an answer is exact if and only if it is the hit |
| `Cache.InsertKeepsTruth` | crates/fuse-promise-runtime/src/lib.rs:653-682 | recording true bytes keeps every cached byte true, for any mix of chunk sizes over time |
| `Cache.HitIsTrue` | crates/fuse-promise-runtime/src/lib.rs:273-286 | in a truthful cache a hit is exactly the content range that was asked for |
| `Paths.ChildSplits` | crates/fuse-promise-runtime/src/lib.rs:1219-1244 | parent and leaf of a joined child path are the two parts |
| `Paths.NormalizeRelativePath` | crates/fuse-promise-runtime/src/lib.rs:1187-1217 | the loop computes the normal form, or refuses NUL, absolute paths and `..` |
| `Paths.NormalizedIsNormal` | crates/fuse-promise-runtime/src/lib.rs:1187-1217 | an accepted path becomes good names joined by single slashes |
| `Paths.NormalizedFixpoint` | crates/fuse-promise-runtime/src/lib.rs:1187-1217 | a path is its own normal form if and only if it is good names joined by single slashes |
| `Paths.NormalizedExact` | crates/fuse-promise-runtime/src/lib.rs:1187-1217 | for every input: refused if and only if it holds a NUL, starts with a slash or has a `..` piece; otherwise its components are its pieces between slashes, in order, less the empty ones and `.` |
| `Paths.DecimalValue` | crates/fuse-promise-runtime/src/lib.rs:843-843 | the digits of a counter, read back, are its value |
| `Paths.PromiseNames` | crates/fuse-promise-runtime/src/lib.rs:843-843 | promise names never collide and are valid entry names |
| `Tree.PromiseBuilder.constructor` | crates/fuse-promise-runtime/src/lib.rs:478-504 | a new builder holds just the root directory |
| `Tree.PromiseBuilder.AddNode` | crates/fuse-promise-runtime/src/lib.rs:524-581 | the new builder state, or the refusal that leaves it unchanged |
| `Tree.AdmittedIff` | crates/fuse-promise-runtime/src/lib.rs:524-581 | a declaration is accepted if and only if it names a provider node, its attributes are sound, its path may be normalized, and its components name no node yet while all but the last name a directory; it is stored under those components |
| `Tree.AttachedValid` | crates/fuse-promise-runtime/src/lib.rs:558-579 | attaching a fresh node under a directory keeps the children index equal to the parent relation |
| `Tree.AddedValid` | crates/fuse-promise-runtime/src/lib.rs:524-581 | every accepted declaration keeps the builder invariant |
| `Tree.ReplayValid` | crates/fuse-promise-ipc/src/lib.rs:1377-1393 | whatever a client sends, a completed replay is a valid builder |
| `Tree.ReplayCommit` | crates/fuse-promise-ipc/src/lib.rs:1377-1393 | the handler's loop is the replay of the received nodes, with the first refusal |
| `Tree.CommitRoundTrip` | crates/fuse-promise-ipc/src/lib.rs:2573-2599 | listing a builder in key order and replaying it elsewhere never fails and rebuilds the same tree |
| `Tree.SameChildren` | crates/fuse-promise-runtime/src/lib.rs:583-591 | in valid trees the nodes determine the children index |
| `Walk.PreorderExact` | crates/fuse-promise-runtime/src/lib.rs:450-465 | the walk lists each node of the subtree once and nothing else |
| `Walk.PreorderParentsFirst` | crates/fuse-promise-runtime/src/lib.rs:450-465 | the walk starts at its root and lists parents before children |
| `Walk.CollectSubtreeNodes` | crates/fuse-promise-runtime/src/lib.rs:450-465 | the recursive collection appends exactly the pre-order of the subtree |
| `Walk.SubtreeNodes` | crates/fuse-promise-runtime/src/lib.rs:439-448 | on an existing path the walk succeeds and lists the subtree exactly once, parents first; otherwise the error |
| `Runtime.Runtime.constructor` | crates/fuse-promise-runtime/src/lib.rs:621-632 | the initial runtime |
| `Runtime.Runtime.SetCachePolicy` | crates/fuse-promise-runtime/src/lib.rs:644-651 | a zero chunk size is refused; switching caching off clears the cache and changing the chunk size does not |
| `Runtime.Runtime.RecordCachedRead` | crates/fuse-promise-runtime/src/lib.rs:653-682 | which answers are recorded, skipped or refused, and the resulting cache |
| `Runtime.Runtime.RegisterProvider` | crates/fuse-promise-runtime/src/lib.rs:800-811 | a new live provider with a fresh id |
| `Runtime.Runtime.UnregisterProvider` | crates/fuse-promise-runtime/src/lib.rs:813-826 | the provider is disconnected and exactly its promises are gone |
| `Runtime.Runtime.AssignRuntimeIds` | crates/fuse-promise-runtime/src/lib.rs:1074-1100 | nodes get consecutive ids and inodes in key order, or the exhaustion error |
| `Runtime.Runtime.CommitPromise` | crates/fuse-promise-runtime/src/lib.rs:838-850 | the committed promise, or the refusal when the provider is unknown or gone |
| `Runtime.Runtime.MarkNodeMaterialized` | crates/fuse-promise-runtime/src/lib.rs:1043-1060 | exactly the named node gets the path, or the error |
| `Lifecycle.NextKeeps` | crates/fuse-promise-runtime/src/lib.rs:800-850 | every event keeps the runtime invariant and only evolves the state |
| `Lifecycle.RunValid` | crates/fuse-promise-runtime/src/lib.rs:602-632 | in every reachable runtime the invariant holds: trees valid, ids and inodes distinct, no node has inode 1 |
| `Lifecycle.RunEvolves` | crates/fuse-promise-runtime/src/lib.rs:838-850 | identities and metadata of a committed promise never change, apart from materialized paths; gone is permanent |
| `Lifecycle.FreshPromiseName` | crates/fuse-promise-runtime/src/lib.rs:843-849 | the next promise name is unused |
| `Lifecycle.Liveness` | crates/fuse-promise-runtime/src/lib.rs:813-832 | in every run a promise is available if and only if its provider is live, and never again once it is gone |
| `Lifecycle.CommitDecidesLiveness` | crates/fuse-promise-ipc/src/lib.rs:1353-1407 | whatever happens between owner validation and commit, the promise exists and is available exactly when the provider is live at commit |
| `Chronicle.UnregisterEnds` | crates/fuse-promise-runtime/src/lib.rs:813-826 | unregistering a registered provider ends its liveness and makes exactly its available promises gone; everything else stays |
| `Chronicle.LiveIffRegistered` | crates/fuse-promise-runtime/src/lib.rs:800-832 | in every run a provider is live if and only if it was registered and not unregistered since |
| `Chronicle.PromiseIffCommitted` | crates/fuse-promise-runtime/src/lib.rs:838-850 | in every run a promise exists if and only if a commit with a live provider and free identifiers has given it its name |
| `Chronicle.PromiseIsCommittedTree` | crates/fuse-promise-runtime/src/lib.rs:838-850 | from its commit on, a promise holds the provider and the tree of the committed builder, apart from numbers and marks |
| `Chronicle.MarkIsLatest` | crates/fuse-promise-runtime/src/lib.rs:1043-1060 | in every run a node is marked with the target of the latest mark of its path since the commit, and unmarked if there was none |
| `Chronicle.OffMeansEmpty` | crates/fuse-promise-runtime/src/lib.rs:644-651 | in every run, while caching is off nothing is cached |
| `Namespace.LookupInodeExact` | crates/fuse-promise-runtime/src/lib.rs:856-872 | looking up an inode finds a node if and only if the node carries that inode |
| `Namespace.RootListing` | crates/fuse-promise-runtime/src/lib.rs:917-932 | the mount root lists every promise once, in key order |
| `Namespace.DirectoryListing` | crates/fuse-promise-runtime/src/lib.rs:933-954 | a directory lists exactly its children, in key order |
| `Namespace.NamespaceAgreement` | crates/fuse-promise-runtime/src/lib.rs:874-954 | lookup finds a name with an inode and kind if and only if the listing holds that very entry |
| `Namespace.FoundHasParent` | crates/fuse-promise-daemon/src/fuse_adapter.rs:462-480 | what was found in a directory has that directory as its parent inode |
| `Namespace.ListedOnce` | crates/fuse-promise-runtime/src/lib.rs:917-954 | no listing holds a name twice |
| `Paging.Readdir` | crates/fuse-promise-daemon/src/fuse_adapter.rs:106-133 | the reply loop delivers the page of the listing from the given offset, as far as the reply has room |
| `Paging.ListingStable` | crates/fuse-promise-daemon/src/fuse_adapter.rs:247-266 | the listing of a directory inside a promise never changes |
| `Paging.EntriesOnce` | crates/fuse-promise-daemon/src/fuse_adapter.rs:247-266 | with the dot entries added, no name appears twice |
| `Paging.DotInodes` | crates/fuse-promise-daemon/src/fuse_adapter.rs:247-266 | inside a promise `.` is the directory itself and `..` its parent, the mount root above a promise |
| `Paging.StablePaging` | crates/fuse-promise-daemon/src/fuse_adapter.rs:106-133 | over an unchanging listing, pages of any sizes deliver a growing prefix and then all of it |
| `Paging.PagingExact` | crates/fuse-promise-daemon/src/fuse_adapter.rs:106-133 | inside a promise this holds while the runtime changes between the calls |
| `Paging.PrefixKeptIff` | crates/fuse-promise-runtime/src/lib.rs:917-932 | new keys keep the first k in place if and only if they all sort after them |
| `Paging.RootPagingExactIff` | crates/fuse-promise-daemon/src/fuse_adapter.rs:106-133 | any number of calls on the mount root, with any page sizes and commits in between, deliver a prefix of the last listing if and only if every promise that appeared between two calls sorts after the last one delivered before |
| `Scenarios.TenthPromiseShiftsRoot` | crates/fuse-promise-runtime/src/lib.rs:843-849 | in a reachable runtime with nine promises, the tenth commit shifts a root listing that has passed the second |
| `Planner.ProviderPlanInside` | crates/fuse-promise-runtime/src/lib.rs:1003-1041 | an exact plan is nonempty and inside the file it names |
| `Planner.ReadSource` | crates/fuse-promise-runtime/src/lib.rs:956-1001 | the source of a nonempty range by cases: a marked file is read from its mark and a cached range from the cache, whether or not the provider lives; else the provider is asked for exactly that range if it lives, and else reported gone |
| `Planner.ReadNothing` | crates/fuse-promise-runtime/src/lib.rs:956-1001 | an empty range or one beyond the end is the end of the file, a directory is refused |
| `Planner.PrefetchPlannedIff` | crates/fuse-promise-runtime/src/lib.rs:684-744 | a prefetch is planned if and only if caching is on, something was read, the file goes on, is unmarked, its provider lives and the next range is not cached; it asks for exactly that range |
| `Planner.PrefetchPlanInside` | crates/fuse-promise-runtime/src/lib.rs:684-744 | a prefetch plan starts where the read ended, is nonempty and inside the file, and as long as a chunk or the rest of the file |
| `Planner.CoalescedInside` | crates/fuse-promise-runtime/src/lib.rs:746-798 | a coalesced plan is inside the file and contains the planned range at the response offset |
| `Planner.CoalesceOkIff` | crates/fuse-promise-runtime/src/lib.rs:764-797 | coalescing succeeds if and only if the containing chunk ends within 64 bits |
| `Scenarios.CoalesceFailsAtTop` | crates/fuse-promise-runtime/src/lib.rs:764-775 | a reachable runtime with a maximal file whose last bytes are served without the cache and refused through it |
| `Scenarios.LargeChunkRefused` | crates/fuse-promise-runtime/src/lib.rs:141-146 | a reachable runtime with 512 KiB chunks that plans a coalesced request too long for the encoder, where the uncached runtime serves the read |
| `Scenarios.FileAdmitted` | crates/fuse-promise-runtime/src/lib.rs:524-581 | the builder accepts every nonempty provider node id |
| `Scenarios.NulNodeRefused` | crates/fuse-promise-ipc/src/lib.rs:2866-2875 | a reachable runtime whose file has a NUL in its provider node id: its read is planned and its request refused |
| `Planner.ExactRequestAccepted` | crates/fuse-promise-ipc/src/lib.rs:2733-2751 | a request planned for at most 256 KiB is accepted if and only if its request id is nonzero and its provider node id holds no NUL |
| `Planner.CoalescedRequestAccepted` | crates/fuse-promise-ipc/src/lib.rs:2892-2904 | for every chunk size: the coalesced request is planned and accepted if and only if the request id is nonzero, the node id holds no NUL, the chunk ends within 64 bits, and the range reaches beyond the chunk or the file's part of it is at most 256 KiB |
| `Planner.SmallChunksCoalesce` | crates/fuse-promise-ipc/src/lib.rs:2892-2904 | with chunks of at most 256 KiB only the end of the chunk matters |
| `Planner.PrefetchRequestAccepted` | crates/fuse-promise-daemon/src/fuse_adapter.rs:331-372 | a prefetch is accepted if and only if the request id is nonzero, the node id holds no NUL and at most 256 KiB are asked for, which chunks of at most 256 KiB ensure |
| `Copy.ChunkRequestAccepted` | crates/fuse-promise-ipc/src/lib.rs:2280-2301 | a materialize chunk request is accepted if and only if the request id is nonzero and the node id holds no NUL |
| `Planner.RecordNeverRefused` | crates/fuse-promise-runtime/src/lib.rs:653-682 | whatever happened since planning, an answer within the requested length is never refused by the cache |
| `Planner.RecordedIsCached` | crates/fuse-promise-runtime/src/lib.rs:653-682 | after an answer is recorded with caching on, every range inside it hits, with the recorded bytes |
| `Planner.FullAnswerCovers` | crates/fuse-promise-daemon/src/fuse_adapter.rs:374-391 | a full answer always covers the reply slice |
| `Planner.ReplyIsTrue` | crates/fuse-promise-daemon/src/fuse_adapter.rs:374-391 | a reply cut from a true answer is true, and is the whole planned range if the answer was full |
| `Planner.ReplyExact` | crates/fuse-promise-daemon/src/fuse_adapter.rs:374-391 | the reply is the slice of the answer at the response offset, as far as the answer goes; it is refused if and only if that offset is not 0 and the answer does not cover the slice |
| `Planner.ReadThroughServes` | crates/fuse-promise-runtime/src/lib.rs:956-1001 | a read that the uncached runtime serves by an accepted request is served through the cache if and only if it hits or its range can be asked for through chunks; with chunks of at most 256 KiB, if and only if it hits or its chunk ends within 64 bits |
| `Planner.NoRequestAfterGone` | crates/fuse-promise-ipc/src/lib.rs:2253-2278 | once planning has failed because the provider is gone, no later plan asks the provider |
| `ReadSafety.StepKeeps` | crates/fuse-promise-daemon/src/fuse_adapter.rs:170-229 | every step of a read, and everything that may happen between steps, keeps caches, copies and calls true |
| `ReadSafety.WorldRunValid` | crates/fuse-promise-daemon/src/fuse_adapter.rs:268-372 | the same over every run |
| `ReadSafety.ReadRefinement` | crates/fuse-promise-daemon/src/fuse_adapter.rs:170-229 | in every interleaving a successful reply is a prefix of the expected bytes, all of them unless an answer was short; recording never fails a read |
| `ReadOutcomes.PlanFailsIff` | crates/fuse-promise-daemon/src/fuse_adapter.rs:170-229 | planning a read fails if and only if nothing with its inode has a source: a directory, or a file neither marked nor cached whose provider is gone or whose chunk ends beyond 64 bits |
| `ReadOutcomes.FailureExplained` | crates/fuse-promise-daemon/src/fuse_adapter.rs:170-372 | in every run a read fails only because nothing could serve it at the step that planned it, because routing failed, because reading the local copy failed, or because the answer was short |
| `ReadOutcomes.ReadEnds` | crates/fuse-promise-daemon/src/fuse_adapter.rs:170-372 | in every run a read takes at most seven steps of its own, and nothing that others do moves it |
| `ReadOutcomes.PrefetchFollowsIff` | crates/fuse-promise-daemon/src/fuse_adapter.rs:331-372 | after recording, a prefetch follows if and only if the answer was full and a prefetch is planned; otherwise the reply is cut |
| `Routing.PendingReads.Insert` | crates/fuse-promise-ipc/src/lib.rs:697-715 | the entry is put in place and a duplicate id is reported |
| `Routing.PendingReads.Remove` | crates/fuse-promise-ipc/src/lib.rs:878-882 | the entry, if any, is taken out |
| `Routing.PendingReads.TakeProvider` | crates/fuse-promise-ipc/src/lib.rs:853-876 | exactly the provider's entries are taken out, all of them |
| `RoutingSafety.AfterValid` | crates/fuse-promise-ipc/src/lib.rs:678-744 | each step of a read keeps the row of its id: at most one place holds the right to answer, or the answer |
| `RoutingSafety.StepKeeps` | crates/fuse-promise-ipc/src/lib.rs:678-882 | every step of every thread keeps the routing invariant |
| `RoutingSafety.RoutingSafe` | crates/fuse-promise-ipc/src/lib.rs:796-826 | in every run each id is pending at most once, gets at most one message and is not pending after its call returned; a waiting call can still be answered; a request goes to the connection that registered its provider, an answer matches its request and comes from that connection, and a read is lost only to a disconnect of its provider |
| `RoutingSafety.DisconnectFailsAll` | crates/fuse-promise-ipc/src/lib.rs:832-876 | in every run, a disconnect that took the pending lock and is finished has failed exactly every read of its provider that was pending at that moment, and its provider is neither live nor routed |
| `RoutingSafety.DisconnectDelivers` | crates/fuse-promise-ipc/src/lib.rs:832-876 | a finished disconnect has delivered the failure to every read it took, and its provider is neither live nor routed |
| `RoutingSafety.TakenStays` | crates/fuse-promise-ipc/src/lib.rs:853-876 | the reads a disconnect took never change afterwards |
| `RoutingSafety.PendingRoutedIff` | crates/fuse-promise-ipc/src/lib.rs:832-838 | a pending read's provider is routed if and only if no disconnect has dropped its route |
| `RoutingSafety.DroppedStays` | crates/fuse-promise-ipc/src/lib.rs:832-838 | a dropped route never comes back |
| `RoutingSafety.PendingWithoutRoute` | crates/fuse-promise-ipc/src/lib.rs:685-715 | a read that loses the race with a disconnect is pending without a route |
| `RoutingHistory.AnswersForIff` | crates/fuse-promise-ipc/src/lib.rs:1229-1283 | in every run a connection may answer for a provider if and only if it registered the provider's route and has not withdrawn the provider since |
| `RoutingHistory.RoutedIff` | crates/fuse-promise-ipc/src/lib.rs:750-765 | in every run a provider is routed to a connection if and only if that connection registered its route and no disconnect has dropped it since |
| `RoutingHistory.AnswerDelivered` | crates/fuse-promise-ipc/src/lib.rs:796-826 | in every run, once an answer given at some step is dealt with, the channel holds that answer if and only if its connection had registered the provider by that step and the answer fits the request, and a refusal otherwise; a caller that receives gets exactly this message |
| `RoutingHistory.OutcomeTold` | crates/fuse-promise-ipc/src/lib.rs:678-744 | in every run a call is rejected, unrouted, failed, timed out or answered if and only if its form was bad, its route was missing at its lookup, its write was lost, it expired, or it received |
| `RoutingHistory.LostWriteDisconnects` | crates/fuse-promise-ipc/src/lib.rs:724-728 | a call whose write was lost returns only when its provider is neither live nor routed |
| `Copy.CopyLength` | crates/fuse-promise-ipc/src/lib.rs:2044-2078 | a completed copy has exactly the declared size, for any pattern of short chunks |
| `Copy.CopyExact` | crates/fuse-promise-ipc/src/lib.rs:2044-2078 | a completed copy from true chunks is the content |
| `Copy.CopyCompletes` | crates/fuse-promise-ipc/src/lib.rs:2044-2078 | a copy whose every chunk comes and is not empty completes |
| `Copy.CopyFailure` | crates/fuse-promise-ipc/src/lib.rs:2044-2078 | a copy fails only with the failure of one of its chunks, or as an I/O error for an empty one |
| `Copy.ChunkIsTrue` | crates/fuse-promise-ipc/src/lib.rs:2245-2278 | a chunk is a piece of the content whichever source serves it, and the fallback never asks the provider |
| `Copy.ChunkSource` | crates/fuse-promise-ipc/src/lib.rs:2245-2278 | a chunk is a live provider's answer to exactly its range; without the provider it is the range of the content if the file is marked or the range cached, and otherwise the provider is reported gone |
| `Copy.FallbackIsTrue` | crates/fuse-promise-ipc/src/lib.rs:2262-2278 | cache and local copy serve exactly the asked range |
| `Copy.CopyAcrossSources` | crates/fuse-promise-ipc/src/lib.rs:2245-2318 | a copy whose chunks come from provider, cache and earlier copy in any mix is exact |
| `Disk.CleanupOnlyOwn` | crates/fuse-promise-ipc/src/lib.rs:1991-2027 | on any disk, cleanup removes and re-modes only inodes the run made, at the paths where it made them |
| `Rollback.RestoreOpens` | crates/fuse-promise-ipc/src/lib.rs:1991-1997 | the first cleanup loop, parents first, reaches every made directory and opens it to its owner |
| `Rollback.LastIsEmpty` | crates/fuse-promise-ipc/src/lib.rs:1998-2016 | a directory is empty when the second loop comes to it |
| `Rollback.RemoveExact` | crates/fuse-promise-ipc/src/lib.rs:1998-2016 | the second loop, children first, removes every new path and nothing else |
| `Rollback.CleanupExactIff` | crates/fuse-promise-ipc/src/lib.rs:1991-2027 | cleanup leaves the old set of paths if and only if no removal is refused and each new entry may still be removed from its old directory; then every old inode stands as it was |
| `MaterializeJob.CleanupRollsBackIff` | crates/fuse-promise-ipc/src/lib.rs:1991-2027 | from any point of a run, cleanup rolls back if and only if no removal is refused and each new entry may still be removed from its old directory, which holds whenever the declared modes stay open |
| `MaterializeJob.WithoutOverwriteStaysOpen` | crates/fuse-promise-ipc/src/lib.rs:1938-1971 | without Overwrite the declared modes always stay open |
| `MaterializeJob.LateFailureRollsBackIff` | crates/fuse-promise-ipc/src/lib.rs:1709-1745 | a failure after all metadata rolls back if and only if every new entry in an old directory stays editable under the declared modes of the reused directories above it |
| `MaterializeJob.StrayStays` | crates/fuse-promise-ipc/src/lib.rs:2191-2206 | an entry whose identity could not be read is not removed |
| `MaterializeJob.ClosedDirectoryKeepsChild` | crates/fuse-promise-ipc/src/lib.rs:1973-1989 | a declared mode of 0 on a reused directory keeps cleanup from removing what was made inside |
| `Scenarios.ClosedDirectoryIsReal` | crates/fuse-promise-ipc/src/lib.rs:1760-1808 | that job is the plan of a reachable promise on a disk where the directory exists |
| `MaterializeJob.FreeRootIsFavourable` | crates/fuse-promise-ipc/src/lib.rs:1760-1808 | a sound plan at a free root in an open directory has nothing in its way |
| `MaterializeJob.SafeReplace` | crates/fuse-promise-ipc/src/lib.rs:2220-2243 | renaming a complete temporary file over an old file leaves that file wholly new and no temporary behind |
| `Materialize.Engine.Cleanup` | crates/fuse-promise-ipc/src/lib.rs:1991-2027 | the two loops are the cleanup function |
| `Materialize.Engine.CreateDirectory` | crates/fuse-promise-ipc/src/lib.rs:1938-1971 | one new private directory or a reused one, recorded so that cleanup can undo it; otherwise nothing changed |
| `Materialize.Engine.CreateDirectories` | crates/fuse-promise-ipc/src/lib.rs:1645-1667 | after all directories each is there and recorded, nothing else changed, and every report was in bounds |
| `Materialize.Engine.OpenReplacement` | crates/fuse-promise-ipc/src/lib.rs:2155-2189 | a fresh temporary file beside the target within 16 attempts, or nothing changed; it is found if one of the names is free and no call fails |
| `Materialize.Engine.OpenTarget` | crates/fuse-promise-ipc/src/lib.rs:2103-2153 | a new file at the target, or a temporary one if it exists and may be overwritten |
| `Materialize.Engine.CopyInto` | crates/fuse-promise-ipc/src/lib.rs:2044-2078 | the loop ends, touches only the output file, and on success leaves the whole copy in it |
| `Materialize.Engine.Finalize` | crates/fuse-promise-ipc/src/lib.rs:2220-2243 | the complete file is at its target and nothing else changed, or nothing changed |
| `Materialize.Engine.WriteFile` | crates/fuse-promise-ipc/src/lib.rs:2029-2101 | the file is placed with content and mode, or what is left is handed to cleanup |
| `Materialize.Engine.WriteFiles` | crates/fuse-promise-ipc/src/lib.rs:1669-1707 | after all files each holds its whole copy, directories are in place and nothing else changed |
| `Materialize.Engine.ApplyMetadata` | crates/fuse-promise-ipc/src/lib.rs:1709-1728 | every planned directory is found again among the recorded ones with its identity and gets its mode; otherwise a call failed and the run can still be undone |
| `Materialize.Engine.Attempt` | crates/fuse-promise-ipc/src/lib.rs:1629-1745 | all phases: everything placed, or a state from which cleanup works |
| `Materialize.Engine.Run` | crates/fuse-promise-ipc/src/lib.rs:1629-1758 | success places every entry and nothing else and meets every total; failure anywhere rolls back if the declared modes stay open, after all metadata if and only if they do, and never when a made entry was lost track of; every report is in bounds, balanced and monotone; under every policy the run succeeds when no call or report fails and nothing on the disk is in the way |
| `TargetPlan.SuffixGrows` | crates/fuse-promise-ipc/src/lib.rs:1836-1851 | below the source every suffix exists and grows by one name from parent to child |
| `TargetPlan.TargetsDiffer` | crates/fuse-promise-ipc/src/lib.rs:1784-1801 | different nodes have different targets |
| `TargetPlan.PlanEntries` | crates/fuse-promise-ipc/src/lib.rs:1784-1801 | the entries in walk order; fails if and only if some node is not below the source |
| `TargetPlan.PlanIsSound` | crates/fuse-promise-ipc/src/lib.rs:1760-1808 | targets are distinct, the root comes first, and each entry lies in the target of an earlier directory entry |
| `TargetPlan.CandidatesDiffer` | crates/fuse-promise-ipc/src/lib.rs:1892-1905 | the rename candidates are all different |
| `TargetPlan.NumberedName` | crates/fuse-promise-ipc/src/lib.rs:1892-1905 | a taken file name is numbered before its extension, a directory name at its end |
| `TargetPlan.NumberedPlainName` | crates/fuse-promise-ipc/src/lib.rs:1892-1905 | a name without extension is numbered at its end |
| `TargetPlan.UniqueTarget` | crates/fuse-promise-ipc/src/lib.rs:1870-1890 | the first free candidate; refused only when all 1024 are taken or one cannot be examined after all before it are taken |
| `TargetPlan.Preflight` | crates/fuse-promise-ipc/src/lib.rs:1853-1868 | passes if and only if every target can be examined and none is in the way; otherwise reports one that is |
| `TargetPlan.PreflightIffRootFree` | crates/fuse-promise-ipc/src/lib.rs:1853-1924 | without Overwrite it passes if and only if the root target is free and every target can be examined |
| `TargetPlan.MarkCannotFail` | crates/fuse-promise-ipc/src/lib.rs:1730-1745 | marking a planned node succeeds whatever happened to the runtime since |
| `MaterializeNode.RootTarget` | crates/fuse-promise-ipc/src/lib.rs:1810-1821 | the plain target, or under Rename the first candidate that is not taken, or why there is none |
| `MaterializeNode.PlanMaterialize` | crates/fuse-promise-ipc/src/lib.rs:1760-1808 | a sound plan of the exact subtree with nothing in the way, at the last requested component, or the promise name, in the directory, under Rename at its first free candidate; a plannable request is refused exactly when a target cannot be examined or is in the way, under Overwrite when a symlink or the other kind is there, under Rename for lack of a name |
| `MaterializeNode.MaterializeRequest` | crates/fuse-promise-ipc/src/lib.rs:1629-1758 | a request places its whole subtree under the requested name, or its first free candidate, or rolls the disk back, with the same exact condition on declared modes; a planned request fails only if a call, a report or a chunk fails or the disk is in its way |
| `MaterializeNode.PlacedIsExact` | crates/fuse-promise-ipc/src/lib.rs:2029-2101 | after success a file with true chunks holds exactly its promised content |
| `MaterializeNode.PlacedAsDeclared` | crates/fuse-promise-ipc/src/lib.rs:1784-1801 | after success every node of the subtree is at its place below the root target, of its kind and with its declared mode |
| `Marks.PlanIsMarkable` | crates/fuse-promise-ipc/src/lib.rs:1730-1745 | every entry of a plan can be marked in every later runtime |
| `Marks.MarkAll` | crates/fuse-promise-ipc/src/lib.rs:1730-1745 | no mark fails; exactly the planned nodes are marked |
| `Marks.MarkedWithTarget` | crates/fuse-promise-ipc/src/lib.rs:1735-1739 | each planned node is marked with its own target |
| `Marks.RenderedSplits` | crates/fuse-promise-ipc/src/lib.rs:1735-1739 | a rendered path is absolute and splits into the components of the path |
| `Marks.RenderedInjective` | crates/fuse-promise-ipc/src/lib.rs:1735-1739 | plain paths are rendered to different strings |
| `Marks.RequestMarksHonestly` | crates/fuse-promise-ipc/src/lib.rs:1730-1745 | after a successful request on true chunks every mark is one that the read refinement allows: the marked file holds its content |
| `Marks.RequestStaysPlain` | crates/fuse-promise-ipc/src/lib.rs:1784-1801 | the disk after a request keeps plain paths, so that its files can be read by their rendered paths |
| `Dialogue.StepKeepsProper` | crates/fuse-promise-ipc/src/lib.rs:1421-1444 | every move keeps the parties in lock-step and never brings a control frame to the outer loop |
| `Dialogue.NeverStuck` | crates/fuse-promise-ipc/src/lib.rs:1000-1030 | someone can move if and only if the exchange is not over |
| `Dialogue.DialogueSafe` | crates/fuse-promise-ipc/src/lib.rs:1315-1321 | in every exchange each progress frame is answered once, at most one final frame is sent, and exactly one when nobody can move |
| `Dialogue.DialogueEnds` | crates/fuse-promise-ipc/src/lib.rs:1421-1444 | an exchange with n reports ends within a bound linear in n |
| `Dialogue.FinalFrameIsTrue` | crates/fuse-promise-ipc/src/lib.rs:1421-1444 | the final frame that a client takes says Materialized if and only if the daemon succeeded in the run, and Failure if and only if it failed |
| `Dialogue.NoSuccessAfterCancel` | crates/fuse-promise-ipc/src/lib.rs:1426-1434 | once the daemon has taken a cancellation or found the client gone, the run never succeeds |
| `Dialogue.SuccessReportsAll` | crates/fuse-promise-ipc/src/lib.rs:1426-1436 | success comes only after every report has been made and answered |

## Assumptions

- Integers are unbounded unless a bound is written; offsets and sizes are 64 bits, lengths 32 bits.
  Provider, promise and request counters do not wrap. Progress counters never exceed their totals,
  so they fit in 64 bits whenever the totals do.
- `PromiseState::Materialized` is declared, as in the source, but no event assigns it.
- A read source never returns more bytes than asked for (`Copy.Bounded`), which response validation,
  the cache and the local read all guarantee.
- Any call of the materialize engine may fail, but no other process changes the targets during a
  run. `Disk.CleanupOnlyOwn` needs no such assumption. Removals that the file system refuses during
  cleanup are the parameter `stuck`.
- Permissions are those of an owner who is not privileged; the process mask leaves the owner's bits.
- Marks are the last phase of a run: `Engine.Attempt` lets that phase fail, `Marks.MarkAll` shows
  that with a healthy lock it does not.

## Left out

- The C library, its callbacks and handles, and the command line tool.
- Sockets, peer credentials, owner tokens, framing and the binary codec.
- The tables that turn status codes into error numbers, times to live, time stamps and file attributes.
- Poisoned locks; a lock is a step of a state machine here.
- Resolving a mount path into a promise id and components; `PlanMaterialize` starts from the components.
- Mount readiness and the daemon's start and shutdown.
- `Routing.Step`: a disconnect may begin at any time for a provider that has a route owner, which
  covers connection close, unregistering and failed writes without modelling each.
- `Dialogue.Step`: frames are delivered in order and whole; a client that sends other frames is not modelled.
- `MaterializeJob.Favourable`: for a replaced file it asks for a free temporary name among any 16 consecutive counter values,
  because the counter is shared by the whole process.
- Materializing the same target from two requests at once.
