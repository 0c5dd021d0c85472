# Verified model of the AlphaDB core

The database is built from a storage stack, a Raft consensus server, a lock manager, a B+ tree index and
a small network layer. This project models the parts of each that carry its correctness, in Dafny 4.11,
and proves what they promise. `dafny verify dfyconfig.toml` checks everything.

State that the source updates in place is a class here, and each of its methods is proved equal to a
function on values. The theorems are about those functions: over every input, every reachable state or
every run.

**Storage** (`Pool`, `PoolRuns`, `PoolTheorems`, `PoolOutcomes`, `HashTable`, `BufferManager`, `Links`, `FileHandle`,
`FileRuns`, `FileContents`, `FileTheorems`, `FileObject`, `IoManager`). A write-back page cache with pins, eviction in order of last use
and a chained hash index; on top of it a page allocator whose free list runs through the headers of the
very pages it caches. The cache is compared with a plain unbounded page store, the chains with a map, and
the free list with the set of pages not in use; and whole runs over many files, closed and opened again,
with what the plain store holds for each.

**Raft** (`RaftHandlers`, `RaftProtocol`, `RaftElection`, `RaftLog`, `RaftAcks`, `RaftSafety`,
`RaftVoteCount`, `RaftMatchCount`, `RaftKeptTerm`, `RaftOutcomes`, `RaftProgress`, `RaftStuck`, `RaftServer`). Any number of servers, stepping in any order over a growing set of
messages, so that loss, delay, duplication and reordering are all included. The theorems are those of
sections 5.2, 5.3 and 5.4 of Ongaro and Ousterhout, "In Search of an Understandable Consensus Algorithm",
up to state machine safety, and beside them that a cluster can always go on to commit. How votes are
counted, how votes are tested, how matches are counted and whether a newer term is adopted are parameters,
so that the code's ways and the intended ones run in the same protocol.

**Locks** (`LockEntry`, `LockManager`). The queue of one item under all interleavings of push, evaluate,
sleep, wake, unlock and notify; then many items and the table that creates and drops their entries.

**Index lookup** (`BPlusTree`). Routing by separators and binary search, against a scan of all leaves.

**Network** (`Timers`, `TimerRuns`, `TimerCalls`, `DispatcherObject`, `Varint`, `RingBuffer`). The timer queue
over all runs, from the call that sets a timer to the callback that runs; the variable-length integers; and
the circular buffer against a bounded queue that drops its oldest byte.

## Where the code and its intent part

The model follows the intent at these places. Where a lemma is named it says exactly when the code as
written does what it should.

- `io/buffer_manager.cc:232-247` flushes slots by descriptor alone; a freed slot keeps its descriptor and
  is freed again. The model flushes slots in use. `Pool.CodedFlushValidIff`.
- `io/buffer_manager.cc:152` writes a forced page to the page number asked for; for all pages that is -1,
  the file header. `PoolTheorems.CodedForceRightIff`.
- `io/buffer_manager.cc:262-267` leaves a broken slot behind when a read comes short. The model keeps
  this; `Pool.GetValid` says it is the only way `get_page` breaks the structure, and
  `FileTheorems.NeverShort` that no operation of any run gets there.
- `consensus/raft/raft_server.cc:198` with `:66-72` and `:150-159`: the vote counter starts at the
  candidate's own vote, is compared with half of the cluster, and counts a repeated reply twice. Both
  this rule and a count of distinct voters are modelled. `RaftVoteCount.CodedCounterSafeIff`.
- `consensus/raft/raft_server.cc:193-199` steps down for a granted vote of a newer term and then counts it. The
  model keeps this; no run brings such a vote, `RaftOutcomes.VotesAreNotNewer`.
- `consensus/raft/raft_server.cc:320` does not become a candidate at a timeout, which `:314-316` asks for.
  The model does.
- `consensus/raft/raft_server.cc:175` compares where it should assign, so a granted reply carries no set
  term. The model assigns.
- `consensus/raft/raft_server.cc:230-277` does not adopt a newer term. Both this and adopting it are
  modelled. `RaftKeptTerm.KeptTermSafeIff`.
- `consensus/raft/raft_server.cc:242` and `:262` read one past the log, and `:269` uses a log index as an
  offset into the message. The model tests the bounds and appends what is missing as the comments there say. Index 0 holds a sentinel
  entry (`consensus/raft/raft_server.h:43`). On success `:254-277` leaves the reply unset; in the model it
  says so and names the index it acknowledges.
- `consensus/raft/raft_server.cc:288-303` adds one to the match index for each success, counts replies of
  older terms, and counts and commits even after a newer term made it step down. Both this and recording
  the acknowledged index of replies of the leader's own term are modelled. `RaftMatchCount.CodedMatchSafeIff`.
- `consensus/raft/raft_server.cc:113-116`, `:293` and `:299`: the next index starts one beyond the log.
  The protocol lets a leader send from any index inside its log, so every choice of next index is covered;
  `RaftServer` keeps the next indices as coded.
- `consensus/raft/raft_server.cc:174` grants a vote only to a candidate with the very same last entry,
  where the Raft paper asks for one at least as up to date. Both tests are modelled. The safety theorems hold
  for both; that the cluster can always go on holds for the second only, `RaftStuck.GoesOnIff`.
- `transaction/lock_manager.cc:53-56` does not record the shared mode that `:91-92` relies on.
  `LockEntry.CodedUnlockGivesBackIff`, `LockEntry.CodedSharedBlocks`.
- `transaction/lock_manager.cc:102-103` drops an entry without its mutex, while a call of `lock` may be
  about to queue on it and other calls of `unlock` may not have left it. `LockManager.DropUnsafeIff`,
  `LockManager.DropTouchedIff`; `LockManager.GuardedRuns` for a drop that waits for them.
- `transaction/lock_table.h:75` leaves mode and count of a new entry unset. The model starts idle.
- `index/b+tree/b_plus_tree.cc:257-271` descends once for each level, the leaves included.
  `BPlusTree.DescentStaysIff`. `index/b+tree/index_format.cc:119` compares the key array where it means
  the key. `index/b+tree/index_format.cc:13-24` also looks at the dummy key, `BPlusTree.CodedSearchAgreesIff`.
- `network/dispatcher.cc:129-149`: cancelling a repeating timer while its firing is with the thread pool
  leaves the pool a dangling pointer, `TimerRuns.CancelSafeIff`; and it is reached only if its first deadline
  was positive, `TimerRuns.CancelReachesIff`.
- `network/dispatcher.cc:172`: a timer set for exactly now with a sequence number of 2^30 or more is not
  handed over, `Timers.HandsOverDueIff`.
- `network/buffer.cc:51-60`, `:75-84` and `:86-93`: block operations do not wrap and do not maintain the
  full flag, `RingBuffer.PutBlockMatchesIff` and `RingBuffer.GetBlockMatchesIff`; `unget` computes on
  unsigned words and then takes a remainder, so that at position zero it is wrong for every capacity that
  does not divide 2^64, the default 65535 among them, `RingBuffer.UngetUndoesIff`.

## Model

| member | source | states |
|---|---|---|
| `Pool.GetValid` | io/buffer_manager.cc:257-282 | get_page keeps the pool's structure (lists partition the slots without repetition, index and used slots correspond) exactly when it does not end in a short read |
| `Pool.AllocateValid` | io/buffer_manager.cc:284-300 | allocate_page keeps the structure |
| `Pool.UnpinValid` | io/buffer_manager.cc:302-320 | unpin_page keeps the structure |
| `Pool.MarkDirtyValid` | io/buffer_manager.cc:208-222 | mark_dirty keeps the structure |
| `Pool.FlushValid` | io/buffer_manager.cc:224-255 | flushing slots in use keeps the structure, from any slot on |
| `Pool.ForceValid` | io/buffer_manager.cc:143-160 | forcing pages keeps the structure |
| `Pool.GrabValid` | io/buffer_manager.cc:75-111 | a slot is found unless none is free and all used slots are pinned; a free slot is preferred, an evicted one was unpinned; all but the taken slot stay in order |
| `Pool.CodedFlushValidIff` | io/buffer_manager.cc:232-247 | as coded, a flush of any valid pool keeps the structure exactly when no free slot that still carries the descriptor comes before the file's first pinned slot |
| `PoolRuns.EvictionInvisibleIff` | io/buffer_manager.cc:84-107 | eviction changes no page's visible contents exactly when the victim is dirty or on disk as it is |
| `PoolRuns.StepCoherent` | io/buffer_manager.cc:75-300 | every operation of a client that marks what it changed before the last unpin keeps cache and plain store equal |
| `PoolTheorems.CacheShowsStore` | io/buffer_manager.cc:75-300 | in every such run the cache shows for each page what an unbounded store holds |
| `PoolTheorems.GetReadsStore` | io/buffer_manager.cc:257-282 | after every run get_page of an existing page hands out the store's contents, pinned, and fails only when all slots are pinned or a sole pin was asked of a pinned page |
| `PoolTheorems.VictimIsLeastRecent` | io/buffer_manager.cc:84-107 | after every run the victim is the least recently touched of the unpinned pages, and there is none exactly when all are pinned |
| `PoolTheorems.StepRecent` | io/buffer_manager.cc:118-141 | every operation keeps the used list in order of last touch |
| `PoolTheorems.StepKeepsPinned` | io/buffer_manager.cc:75-320 | nothing but its own last unpin moves a pinned page, and only a write to it changes it |
| `PoolTheorems.PinnedPageStays` | io/buffer_manager.cc:257-320 | along a run a pinned page keeps its slot until its last unpin |
| `PoolTheorems.FlushLeavesFileOnDisk` | io/buffer_manager.cc:224-255 | flush succeeds exactly when no page of the file is pinned; the disk alone then equals the store for that file and none of its pages is cached |
| `PoolTheorems.CodedForceRightIff` | io/buffer_manager.cc:143-160 | as coded, forcing does what it should exactly when one page is named or none is dirty |
| `PoolTheorems.CodedFlushReached` | io/buffer_manager.cc:224-255 | a page got, unpinned and flushed leaves the state in which the coded flush breaks the structure |
| `PoolOutcomes.ForceIs` | io/buffer_manager.cc:143-160 | each cached page asked for, or every one of the file, becomes clean and, if it was dirty, is on disk in its own place with its contents; nothing else changes |
| `PoolOutcomes.ForceLeavesOnDisk` | io/buffer_manager.cc:143-160 | after every run the disk then has what the plain store has for every page asked for that has no change still to be marked |
| `PoolOutcomes.FlushIs` | io/buffer_manager.cc:224-255 | exactly the pages of the file in slots before its first pinned one leave the cache, those that were dirty to disk; it succeeds exactly when none is pinned; every other page stays as it was |
| `PoolOutcomes.FlushFrees` | io/buffer_manager.cc:113-116 | the slots freed come to the front of the free list, the last one first |
| `PoolOutcomes.GetIs` | io/buffer_manager.cc:257-282 | the one cause of each outcome; the page gains one pin or comes from disk; at most one other page changes, unpinned and written out, and only if no slot is free |
| `PoolOutcomes.AllocateIs` | io/buffer_manager.cc:284-300 | the one cause of each outcome; the page is cached clean with one pin; room is made in the same way |
| `PoolOutcomes.UnpinIs` | io/buffer_manager.cc:302-320 | the one cause of each outcome; the page loses one pin and nothing else changes |
| `PoolOutcomes.DirtyIs` | io/buffer_manager.cc:208-222 | a cached page becomes dirty and nothing else changes; refused exactly if it is not cached |
| `HashTable.Bucket.Locate` | io/hash_table.cc:42-57 | walking the chain finds the entry exactly when the chain's map has the key |
| `HashTable.Bucket.PushFront` | io/hash_table.cc:67-77 | a new head keeps the chain acyclic and back-linked, and adds one pair to its map |
| `HashTable.Bucket.Unlink` | io/hash_table.cc:102-121 | the three cases of removal keep the chain, back links behind the head, and take one key from its map |
| `HashTable.Table.Find` | io/hash_table.cc:37-57 | lookup in the plain map, -1 if absent |
| `HashTable.Table.Insert` | io/hash_table.cc:59-79 | insert-if-absent on the plain map; every page in its bucket |
| `HashTable.Table.Remove` | io/hash_table.cc:81-122 | removal from the plain map |
| `HashTable.ChainMapWithout` | io/hash_table.cc:102-121 | the map of a chain without one entry is the map without its key |
| `BufferManager.Manager.constructor` | io/buffer_manager.cc:51-64 | all slots free in order, nothing cached |
| `BufferManager.Manager.InsertUsed` | io/buffer_manager.cc:118-122 | the slot goes to the front and the map locates it |
| `BufferManager.Manager.RemoveUsed` | io/buffer_manager.cc:124-141 | the slot leaves the list by its stored position |
| `BufferManager.RemoveLocated` | io/buffer_manager.cc:124-132 | erasing the node stored for a slot removes that slot and no other, and the map still locates every used slot |
| `BufferManager.InsertLocated` | io/buffer_manager.cc:118-122 | a new front node keeps every used slot located |
| `BufferManager.Manager.FindVictim` | io/buffer_manager.cc:85-95 | the backward walk finds the last unpinned slot of the used list |
| `BufferManager.Manager.InternalAlloc` | io/buffer_manager.cc:75-111 | the slot and the whole new state, or nothing changed |
| `BufferManager.Manager.Get` | io/buffer_manager.cc:257-282 | outcome and whole new state, errors included |
| `BufferManager.Manager.Allocate` | io/buffer_manager.cc:284-300 | outcome and whole new state |
| `BufferManager.Manager.Unpin` | io/buffer_manager.cc:302-320 | outcome and whole new state |
| `BufferManager.Manager.Dirty` | io/buffer_manager.cc:208-222 | outcome and whole new state |
| `BufferManager.Manager.Flush` | io/buffer_manager.cc:224-255 | the loop writes back and frees the file's slots up to the first pinned one |
| `BufferManager.Manager.Force` | io/buffer_manager.cc:143-160 | the loop writes back the chosen dirty pages and leaves them cached |
| `Links.GetLinks` | io/buffer_manager.cc:257-282 | getting a readable page changes no page's link and no other pin; it fails only for want of an evictable slot or a refused second pin, and then changes nothing |
| `Links.FlushLinks` | io/buffer_manager.cc:224-255 | a flush, complete or not, changes no page's link |
| `FileHandle.AllocateOk` | io/file_handle.cc:31-63 | allocation never hands out a live page; the page is clear, in use, pinned once and no longer free; it fails exactly when every slot is pinned and the page to reuse is not cached, and then nothing changed |
| `FileHandle.AllocateFromList` | io/file_handle.cc:41-45 | with free pages, the head of the list is taken, in the slot that the index has for it, and the rest remains the list |
| `FileHandle.AllocateAtEnd` | io/file_handle.cc:46-50 | with none, the file grows by one page |
| `FileHandle.DisposeOk` | io/file_handle.cc:65-90 | disposal puts a live page at the head of the free list; a second disposal changes no link, pin or header; it succeeds exactly for a page in use that nobody has pinned and that is cached or can be, and each refusal has its one cause |
| `FileHandle.GetThisOk` | io/file_handle.cc:92-115 | a page in use is handed out pinned; a free one is refused and leaves no pin |
| `FileHandle.NextFromOk` | io/file_handle.cc:196-222 | the search finds the first page from there on that can be had, which is the first in use, or with every slot pinned the first in use that is cached; or the end; skipped pages keep their pins |
| `FileHandle.PrevFromOk` | io/file_handle.cc:224-250 | likewise downwards |
| `FileHandle.AccessRefused` | io/file_handle.cc:92-250 | access to a closed file or to a page that is not there is refused and changes nothing |
| `FileRuns.ScanUpVisitsUsed` | io/file_handle.cc:196-255 | with an evictable slot, first/next visits exactly the pages in use, once each, ascending, and leaves links and pins as they were |
| `FileRuns.ScanDownVisitsUsed` | io/file_handle.cc:224-260 | last/prev visits them descending |
| `FileRuns.ActOk` | io/file_handle.cc:31-260 | every operation, the scans included, keeps its own file's free list, leaves the links and pins of all other files, never reads short, and changes the header only with the changed flag |
| `FileRuns.LiveAndFree` | io/file_handle.cc:31-90 | pages in use and free pages add up to the page count |
| `FileRuns.PeakKept` | io/file_handle.cc:41-50 | the page count grows exactly to the number of pages then in use, if at all |
| `FileContents.DisposeShows` | io/file_handle.cc:65-90 | disposal changes the contents of no page but the link of the one disposed of, as cache operations that mark what they write |
| `FileContents.AllocateShows` | io/file_handle.cc:31-63 | allocation clears one page and changes the contents of no other |
| `FileContents.ActShows` | io/file_handle.cc:31-260 | every operation on an open file, whatever its outcome, keeps all pages showing what a plain store holds, if the client marks what it wrote before the last unpin |
| `FileContents.ClientOutcomes` | io/file_handle.cc:147-189 | a page is unpinned or written exactly if it is pinned, and marked exactly if it is cached |
| `FileTheorems.StepFilesOk` | io/io_manager.cc:19-88 | every operation on any of many files, create, open and close included, keeps every free list, every header safe in memory or on disk, and the cache equal to the plain store |
| `FileTheorems.RunContinues` | io/file_handle.cc:31-260 | no run gets stuck: every allowed operation continues it |
| `FileTheorems.RunKeepsFreeLists` | io/file_handle.cc:31-90 | in every run the free list of each file, open or closed, is acyclic, in range and exactly the pages not in use, every page is readable, and the page count is the largest number of pages ever in use at once |
| `FileTheorems.PagesShowStore` | io/file_handle.cc:31-260 | in every run each page shows what a plain store holds that knows nothing of slots, eviction or disk |
| `FileTheorems.NeverShort` | io/buffer_manager.cc:162-179 | in no run does an operation end in a short read |
| `FileTheorems.CreatedOpens` | io/io_manager.cc:19-73 | after every run a file is made exactly if there is none; it can then be opened, empty, and nothing else has changed |
| `FileTheorems.ForceLeavesStore` | io/file_handle.cc:158-178 | after every run forcing leaves the header on disk and each page asked for as the plain store has it, unless a change is still to be marked |
| `FileTheorems.CloseLeavesStore` | io/io_manager.cc:75-88 | after every run closing succeeds exactly when no page of the file is pinned, and then header and disk equal what the plain store has for the file and nothing of it is cached |
| `FileTheorems.ReopenGivesBack` | io/io_manager.cc:54-88 | whatever is done to other files in between, opening a closed file again gives back its header, its free list and the contents of every page |
| `FileTheorems.NewFileOk` | io/io_manager.cc:19-52 | a file just made is in order, with no page and an empty free list |
| `FileTheorems.CloseThenOpen` | io/io_manager.cc:54-88 | one close, whatever else is cached, leaves the file ready to be opened with the header and free list it had |
| `IoManager.Io.Create` | io/io_manager.cc:19-52 | an empty header, refused if the file exists; the new file can be opened |
| `IoManager.Io.Open` | io/io_manager.cc:54-73 | the handle holds the saved header, and the file is in order if create or close left it so |
| `IoManager.Io.Close` | io/io_manager.cc:75-88 | saved header, flushed cache and closed handle, exactly when no page is pinned; the file can be opened again with the header and free list it had |
| `IoManager.Io.FlushPages` | io/file_handle.cc:117-145 | the header, if it changed, then the pages up to the first pinned one |
| `FileObject.File.AllocatePage` | io/file_handle.cc:31-63 | outcome and whole new state, and the free list shortened by its head |
| `FileObject.File.DisposePage` | io/file_handle.cc:65-90 | outcome and whole new state, and the free list with the page in front |
| `FileObject.File.GetThisPage` | io/file_handle.cc:92-115 | outcome and whole new state; the file stays in order |
| `FileObject.File.GetNextPage` | io/file_handle.cc:196-222 | the loop's outcome and new state; the file stays in order |
| `FileObject.File.GetPrevPage` | io/file_handle.cc:224-250 | the loop's outcome and new state; the file stays in order |
| `RaftHandlers.Known` | consensus/raft/raft_server.cc:254-266 | the first new entry that is missing or conflicts |
| `RaftHandlers.CommitFrom` | consensus/raft/raft_server.cc:323-341 | the largest index of the current term that enough peers match, or the old commit index |
| `RaftProtocol.QuorumsMeet` | consensus/raft/raft_server.cc:66-72 | any two strict majorities share a server |
| `RaftElection.WinFacts` | consensus/raft/raft_server.cc:186-200 | a winner has a strict majority of distinct voters of its own term, which nobody has won before |
| `RaftElection.VotesKept` | consensus/raft/raft_server.cc:81-200 | every step keeps one vote per server and term, and what was promised with each |
| `RaftElection.ElectionSafety` | consensus/raft/raft_server.cc:81-200 | at most one server leads any term of a run, at whatever moments |
| `RaftVoteCount.OneReplyElects` | consensus/raft/raft_server.cc:197-199 | by repeating one voter's reply the coded counter reaches its threshold |
| `RaftVoteCount.TwoLeaders` | consensus/raft/raft_server.cc:186-200 | with four or more servers the coded counter elects two leaders of one term |
| `RaftVoteCount.CodedCounterSafeIff` | consensus/raft/raft_server.cc:186-200 | the coded counter is safe over all runs exactly for clusters of at most three servers, however matches are counted and votes tested |
| `RaftLog.MergeWithLeader` | consensus/raft/raft_server.cc:240-271 | after the previous-entry check, either the log already agreed on everything sent and stays, or it becomes the leader's log up to the last entry sent |
| `RaftLog.SameTermSamePrefix` | consensus/raft/raft_server.cc:48-64 | entries of one term at one index come from one leader's log and so have equal prefixes |
| `RaftLog.LogsKept` | consensus/raft/raft_server.cc:48-277 | every step keeps every log made of prefixes of leaders' logs |
| `RaftSafety.LogMatching` | consensus/raft/raft_server.cc:202-277 | same index and term in any two logs of a run, at any two moments: identical up to there; newer terms adopted, or at most two servers |
| `RaftAcks.AcksKept` | consensus/raft/raft_server.cc:162-304 | every step keeps acknowledged entries in the acknowledger's log, unless overruled by a later leader, and, where the acknowledged term put them itself, in the logs of the candidates it votes for |
| `RaftAcks.BetterLogHolds` | consensus/raft/raft_server.cc:173-180 | a log at least as up to date as a voter's, in the sense of section 5.4.1 of the Raft paper, holds what the voter acknowledged or a later leader overruled it |
| `RaftSafety.LeaderCompleteness` | consensus/raft/raft_server.cc:162-200 | what is chosen in a term is in the log of every later leader, for the vote test as coded and for that of the Raft paper |
| `RaftSafety.CommitQuorum` | consensus/raft/raft_server.cc:66-72 | for every cluster size the peers counted and the leader form a strict majority, so every election has a voter among them |
| `RaftSafety.LeadersHoldCommitted` | consensus/raft/raft_server.cc:273-341 | what a server has committed is in the log of every later leader of its term or a newer one |
| `RaftSafety.StateMachineSafety` | consensus/raft/raft_server.cc:273-341 | two servers never commit different entries at one index |
| `RaftMatchCount.LeadsAndCommits` | consensus/raft/raft_server.cc:279-304 | as coded, a leader whose heartbeats were answered commits a command that no other server has |
| `RaftMatchCount.CommitsDiverge` | consensus/raft/raft_server.cc:279-341 | as coded, every cluster of three or more has a run in which two servers commit different entries at one index |
| `RaftMatchCount.CodedMatchSafeIff` | consensus/raft/raft_server.cc:279-341 | the coded match counter keeps all committed entries in agreement over all runs exactly for clusters of at most two servers |
| `RaftKeptTerm.LogsDiverge` | consensus/raft/raft_server.cc:230-277 | as coded, every cluster of three or more has a run in which a leader is overwritten by a newer one, goes on leading, and puts two different entries at one index of one term |
| `RaftKeptTerm.KeptTermSafeIff` | consensus/raft/raft_server.cc:230-277 | not adopting a newer term keeps logs matching over all runs exactly for clusters of at most two servers, whatever the other parameters |
| `RaftOutcomes.VoteGrantedIff` | consensus/raft/raft_server.cc:162-184 | a vote is granted exactly when the term is not stale, the vote of that term is not given to another, and the log is good enough; the same candidate is answered again |
| `RaftOutcomes.TakesOfficeIff` | consensus/raft/raft_server.cc:186-200 | a candidate takes office exactly when a granted vote gives it enough, for either way of counting |
| `RaftOutcomes.VotesAreNotNewer` | consensus/raft/raft_server.cc:193-199 | in no run is a candidate granted a vote of a term later than its own |
| `RaftOutcomes.AppendIs` | consensus/raft/raft_server.cc:230-277 | entries are accepted exactly when the term is not stale and the entry before them is there; what the log then holds; and the commit index moves to the leader's or the end of the log, if that is further |
| `RaftOutcomes.AppendBringsCommit` | consensus/raft/raft_server.cc:273-276 | in every run an accepted append brings the commit index to the larger of the follower's and the leader's, with the leader's entries up to there |
| `RaftOutcomes.LeaderCommitsLargest` | consensus/raft/raft_server.cc:279-341 | a leader commits the largest index of its own term that half of the cluster beside itself has acknowledged, and otherwise nothing more |
| `RaftOutcomes.CommittedForGood` | consensus/raft/raft_server.cc:230-341 | in every run a server's commit index never goes down and the entries up to it never change |
| `RaftProgress.CatchesUpIff` | consensus/raft/raft_server.cc:202-277 | after every run a leader that sends from any index brings another server to its whole log and commit index exactly when that server is in no later term and has the entry before |
| `RaftProgress.Elect` | consensus/raft/raft_server.cc:81-200 | from the end of every run some server comes to lead in a term that is nobody's past |
| `RaftProgress.Progress` | consensus/raft/raft_server.cc:48-341 | from the end of every run further steps commit any given command at every server, at an index nobody had committed |
| `RaftStuck.StuckForever` | consensus/raft/raft_server.cc:162-184 | with the coded vote test, once no last entry is shared by a majority and nobody leads, no log and no commit index ever changes again |
| `RaftStuck.CodedTestSticks` | consensus/raft/raft_server.cc:162-184 | every cluster of two or more has a run of the coded vote test that ends so |
| `RaftStuck.GoesOnIff` | consensus/raft/raft_server.cc:162-184 | progress is possible from the end of every run exactly when votes go to logs at least as up to date and there are at least two servers |
| `RaftServer.Node.ConvertToFollower` | consensus/raft/raft_server.cc:83-96 | whole new state |
| `RaftServer.Node.ConvertToCandidate` | consensus/raft/raft_server.cc:97-107 | whole new state |
| `RaftServer.Node.ConvertToLeader` | consensus/raft/raft_server.cc:108-124 | whole new state; the loops set every next index and clear every match index |
| `RaftServer.Node.RequestVote` | consensus/raft/raft_server.cc:162-184 | reply and whole new state |
| `RaftServer.Node.ReceiveVoteReply` | consensus/raft/raft_server.cc:186-200 | whole new state, for either way of counting |
| `RaftServer.Node.ReplicateCommand` | consensus/raft/raft_server.cc:48-64 | a leader appends the command with its term and place, another refuses |
| `RaftServer.Node.SendAppendEntries` | consensus/raft/raft_server.cc:213-222 | the message carries everything from the peer's next index and the entry before it; none when that index is outside the log, as right after taking office |
| `RaftServer.Node.AppendEntries` | consensus/raft/raft_server.cc:230-277 | reply and whole new state; exactly when it is a success, and the commit index after it |
| `RaftServer.Node.MergeEntries` | consensus/raft/raft_server.cc:254-271 | the loops cut at the first conflict and append the rest |
| `RaftServer.Node.UpdateCommitIndex` | consensus/raft/raft_server.cc:323-341 | never lowers the index; the largest current-term index that enough peers match |
| `RaftServer.Node.ReceiveAppendReply` | consensus/raft/raft_server.cc:279-304 | whole new state for either way of counting, next indices and whether to send again included |
| `LockEntry.StepSafe` | transaction/lock_manager.cc:26-104 | every step, waking for no reason included, keeps granted requests a prefix, all shared or one exclusive, counted, with no lost wakeup |
| `LockEntry.LockSafety` | transaction/lock_manager.cc:26-104 | the same over all interleavings from an idle entry |
| `LockEntry.UnlockRemoves` | transaction/lock_manager.cc:91-91 | the record an unlock removes is the holder's own and no other |
| `LockEntry.BoundedWaiting` | transaction/lock_manager.cc:33-73 | a waiting request moves up one place for each unlock and no other step; after as many unlocks as were ahead it can be granted, and is awake or about to be woken |
| `LockEntry.EvaluateIff` | transaction/lock_manager.cc:33-73 | a request looked at holds its lock exactly when it is first, or it is shared and all before it are shared and granted; what else changes, and who sleeps or wakes |
| `LockEntry.PushIs` | transaction/lock_manager.cc:29-32 | a new request is last, waiting, with the mode asked for |
| `LockEntry.UnlockIs` | transaction/lock_manager.cc:85-100 | the holder's record leaves the queue; sleepers are notified exactly when nobody else holds |
| `LockEntry.ReadersShare` | transaction/lock_manager.cc:46-57 | for every n a run reaches n shared holders at once |
| `LockEntry.RequestCanBeGranted` | transaction/lock_manager.cc:26-104 | from every state the calls already there can bring each queued request to its lock in its mode |
| `LockEntry.CodedUnlockGivesBackIff` | transaction/lock_manager.cc:46-57 | as coded, in every run, unlock gives a lock back exactly when it is exclusive |
| `LockEntry.SharedHolderReached` | transaction/lock_manager.cc:46-57 | a run of the code in which a shared lock is held |
| `LockEntry.CodedSharedBlocks` | transaction/lock_manager.cc:46-57 | as coded, once a shared request is granted it stays so, and no exclusive request on the item is granted in any later state of any run |
| `LockManager.EntryObject.PushRequest` | transaction/lock_manager.cc:29-32 | the request goes to the end |
| `LockManager.EntryObject.TryGrant` | transaction/lock_manager.cc:33-73 | the predicate's loop grants exactly an exclusive request at the head or a shared one behind granted shared ones, else sleeps; whole new state |
| `LockManager.EntryObject.Release` | transaction/lock_manager.cc:85-97 | whole new state and whether to notify |
| `LockManager.EntryObject.NotifyAll` | transaction/lock_manager.cc:99-100 | wakes every sleeper |
| `LockManager.MoveOk` | transaction/lock_manager.cc:26-104 | if only entries nobody has to do with are dropped, every entry with a request, queued or on its way, stays the table's entry for its item |
| `LockManager.MoveExact` | transaction/lock_manager.cc:85-104 | with the guard, an entry is in the table exactly as long as somebody has to do with it |
| `LockManager.GuardedRuns` | transaction/lock_manager.cc:26-104 | with the guard, over all interleavings, no two conflicting locks are held on an item, no step touches an entry that was dropped, and none is kept for nothing |
| `LockManager.LockCanBeHad` | transaction/lock_manager.cc:26-104 | with the guard, after every run, a transaction that asks for an item can come to hold it in the mode it asks for |
| `LockManager.DropUnsafeIff` | transaction/lock_manager.cc:99-103 | from every state so reached, dropping an entry as coded can lead to two conflicting locks exactly when a call of lock is on its way to it |
| `LockManager.DropTouchedIff` | transaction/lock_manager.cc:99-103 | and some later step touches the deleted entry exactly when a call of lock is on its way to it or another unlock has not left it |
| `LockManager.CodedDropUnsafe` | transaction/lock_manager.cc:85-104 | a run of the code in which the unlock of a real holder drops the entry under an arriving request and two transactions come to hold the item exclusively |
| `BPlusTree.FindInInternal` | index/b+tree/index_format.cc:112-131 | the child between whose separators the key lies |
| `BPlusTree.RouteIs` | index/b+tree/index_format.cc:98-110 | that child is the only one |
| `BPlusTree.FindInLeaf` | index/b+tree/index_format.cc:134-164 | the key's position among the real keys, -1 exactly if absent |
| `BPlusTree.Search` | index/b+tree/index_format.cc:13-24 | the first match among all keys, the dummy included |
| `BPlusTree.RoutedScan` | index/b+tree/index_format.cc:98-131 | scanning an inner node's leaves is scanning the routed child's |
| `BPlusTree.FindLeafNode` | index/b+tree/b_plus_tree.cc:245-272 | the leaf reached answers for the whole tree |
| `BPlusTree.Find` | index/b+tree/b_plus_tree.cc:24-33 | for every well-formed tree of any height, the rid a scan of all leaves finds, null exactly if no leaf has the key |
| `BPlusTree.NullMeansAbsent` | index/b+tree/b_plus_tree.cc:29-32 | a scan gives the null rid exactly when no leaf has the key |
| `BPlusTree.DescentStaysIff` | index/b+tree/b_plus_tree.cc:254-271 | a descent stays in the tree exactly when it makes fewer steps than the tree is high |
| `BPlusTree.CodedSearchAgreesIff` | index/b+tree/index_format.cc:13-24 | the linear search agrees with the leaf's entries exactly when the key is not the dummy's, or is a real key too, or the dummy points nowhere |
| `Timers.HandleTimeoutIs` | network/dispatcher.cc:166-178 | the drain hands over a front of the queue, in order, and leaves the rest |
| `Timers.HandsOverDueIff` | network/dispatcher.cc:166-178 | that front is exactly what is due by now exactly when no timer set for now has a sequence number of 2^30 or more |
| `TimerRuns.StepKeeps` | network/dispatcher.cc:98-178 | every call keeps ids unique, the queue ordered, and each repeating timer pending once or in the pool once |
| `TimerRuns.OneFiringOutstanding` | network/dispatcher.cc:98-127 | in every run a live repeating timer has exactly one firing pending or in flight, a cancelled one none |
| `TimerRuns.FiringsAreRegular` | network/dispatcher.cc:98-105 | in every run the k-th firing handed over is keyed to start + k * interval |
| `TimerRuns.NothingDangles` | network/dispatcher.cc:98-149 | in every run that cancels only when quiet, the pool never runs a timer that is gone |
| `TimerRuns.CancelSafeIff` | network/dispatcher.cc:129-140 | after a cancel something in the pool would run on a timer that is gone exactly when one was in flight |
| `TimerRuns.InFlightReached` | network/dispatcher.cc:107-178 | a repeating timer that was set and fell due is in flight |
| `TimerRuns.CancelReachesIff` | network/dispatcher.cc:107-149 | cancel reaches a repeating timer exactly when its id's time is negative; otherwise it changes nothing |
| `TimerRuns.GoneForGood` | network/dispatcher.cc:98-178 | a timer handed over or cancelled is never handed over again; a cancelled repeating timer never fires |
| `TimerCalls.SetsTimer` | network/dispatcher.cc:107-127 | a call of run_at returns a fresh id, and all that is held under it is of that call |
| `TimerCalls.CallbacksAreTheirs` | network/dispatcher.cc:98-127 | in every run every callback the pool runs for an id is the one given to the call that returned it, at the time or times asked for |
| `TimerCalls.NothingIsLost` | network/dispatcher.cc:98-178 | in every run a timer stays in the queue until it is handed over or its id is cancelled |
| `TimerCalls.FiresWhenDue` | network/dispatcher.cc:107-178 | in every run a timeout past its time hands over a timer that was set and not cancelled |
| `TimerCalls.CancelFindsIff` | network/dispatcher.cc:129-149 | a cancel finds its timer exactly when it is in the queue, a repeating one only by a negative time, and takes out that one and nothing else |
| `DispatcherObject.Dispatcher.SetTimer` | network/dispatcher.cc:107-127 | id and whole new state, nothing set once stopped; the invariant is kept |
| `DispatcherObject.Dispatcher.CancelTimer` | network/dispatcher.cc:129-149 | answer and whole new state; the invariant is kept |
| `DispatcherObject.Dispatcher.OnTimeout` | network/dispatcher.cc:166-178 | the draining loop; nothing below the bound is left |
| `DispatcherObject.Dispatcher.RepeatTask` | network/dispatcher.cc:98-105 | the next firing one interval later, and the callback |
| `DispatcherObject.Dispatcher.Execute` | network/dispatcher.cc:98-127 | what the pool runs and the state after it |
| `Varint.EncodeUint` | network/coding.cc:15-28 | writes exactly the encoding, at most ten bytes, and nothing beside it |
| `Varint.DecodeUvarint` | network/coding.cc:30-43 | byte count and value modulo 2^64 of whatever encoding stands there |
| `Varint.DecodeEncode` | network/coding.cc:15-43 | whatever follows, a reader takes exactly the encoding and gets the value back |
| `Varint.PrefixFree` | network/coding.cc:15-28 | no encoding begins another |
| `Varint.LengthIs` | network/coding.cc:15-28 | k bytes suffice exactly below 128^k |
| `Varint.TenBytesAtMost` | network/coding.cc:15-28 | no word needs more than ten |
| `Varint.Minimal` | network/coding.cc:15-43 | no byte string that spells a number is shorter than its encoding |
| `Varint.Canonical` | network/coding.cc:15-43 | a byte string is what the encoder writes exactly when it does not close with an empty group |
| `Varint.StreamRoundTrip` | network/coding.cc:15-43 | any sequence of words written back to back is read back, with the exact byte count, whatever follows |
| `Varint.StreamInjective` | network/coding.cc:15-28 | different sequences are different bytes |
| `Varint.ZigzagIs` | network/coding.cc:3-7 | the shifts and complement give 2v and -2v-1, wrap-around and all |
| `Varint.ZigzagBijective` | network/coding.cc:3-13 | every signed word comes back, the smallest included, and every word is reached |
| `Varint.SignedRoundTrip` | network/coding.cc:3-43 | the signed pair round trips, and k bytes suffice exactly for the numbers of 7k bits |
| `Varint.EncodeInt` | network/coding.cc:3-7 | writes exactly the encoding of the zigzag value |
| `Varint.DecodeVarint` | network/coding.cc:9-13 | the signed number whose zigzag value was spelt |
| `RingBuffer.PushAllIs` | network/buffer.cc:37-49 | the bounded queue holds the most recent bytes, up to capacity |
| `RingBuffer.PutPushes` | network/buffer.cc:37-49 | put appends to the queue, dropping the oldest byte of a full one |
| `RingBuffer.GetPops` | network/buffer.cc:62-73 | get takes the oldest byte, zero if there is none |
| `RingBuffer.HistoryMatches` | network/buffer.cc:37-131 | for every history of byte operations and every capacity, the same bytes out and the same contents left as the queue |
| `RingBuffer.PutBlockMatchesIff` | network/buffer.cc:51-60 | a block put equals putting its bytes one by one exactly when it does not wrap and does not fill, or replaces a full buffer whole, or is empty |
| `RingBuffer.GetBlockMatchesIff` | network/buffer.cc:75-84 | a block get equals getting its bytes one by one exactly when enough are held and none wraps, or it is empty and the buffer not full |
| `RingBuffer.UngetUndoesIff` | network/buffer.cc:75-93 | unget undoes a block get exactly when the buffer was not full, as much is left as was taken, and the position did not come to zero unless the capacity divides 2^64 |
| `RingBuffer.Buffer.constructor` | network/buffer.cc:3-7 | an empty queue |
| `RingBuffer.Buffer.CountHeld` | network/buffer.cc:119-131 | the queue's length |
| `RingBuffer.Buffer.IsEmpty` | network/buffer.cc:102-106 | whether the queue is empty |
| `RingBuffer.Buffer.IsFull` | network/buffer.cc:108-112 | whether the queue has reached capacity |
| `RingBuffer.Buffer.PutByte` | network/buffer.cc:37-49 | whole new state, and the queue it stands for |
| `RingBuffer.Buffer.PutBytes` | network/buffer.cc:51-60 | whether the copy leaves the array, else the whole new state, and the queue where the block fits |
| `RingBuffer.Buffer.GetByte` | network/buffer.cc:62-73 | byte and whole new state |
| `RingBuffer.Buffer.GetBytes` | network/buffer.cc:75-84 | whether the read leaves the array, else bytes handed out and whole new state, nothing touched if too few are held |
| `RingBuffer.Buffer.UngetBytes` | network/buffer.cc:86-93 | whole new state |
| `RingBuffer.Buffer.Clear` | network/buffer.cc:95-100 | an empty queue |

## Left out

- Bytes of a page: a page is its free-list link and a body; byte offsets and the overflow of page number times page size are not modelled.
- System call failures: reads and writes of pages and headers succeed, except that a page that was never written cannot be read.
- File descriptors: a descriptor stands for its file, so a reopened file has the same one; names, permissions and destroy_file are not modelled.
- HashTable.Table.Insert: pages whose descriptor and number add up to less than zero have no bucket in the code either, and are excluded.
- HashTable: each cell of the bucket array is an object of its own; freeing of entries is not modelled.
- BufferManager: list iterators are node handles that are never reused.
- FileTheorems.StepFilesOk: a file is opened once at a time; two handles on one file would cache it apart.
- RingBuffer.Buffer.PutBytes: says when a copy leaves the array and does not model what it overwrites, which is memory outside the buffer.
- RingBuffer.Buffer.GetBytes: says when a read leaves the array and does not model what it finds there.
- RingBuffer: advance_put, advance_get, put_begin, get_begin and the constructor's memset.
- Varint.DecodeUvarint: an encoding of more than ten bytes, where the code shifts by more than a word.
- TimerRuns.StepKeeps: callers cancel by ids that run_at returned, and a repeating timer once and not while in flight; the sum of a deadline and intervals is not cut to 64 bits.
- Timers: the next poll timeout, the wake-up pipe, the poller, and the clearing of both maps when the loop ends; calls are atomic although only the drain takes the mutex.
- Raft persistence, crashes and restarts, timers and random timeouts, membership changes, and applying entries: runs are crash-free, and any server may time out at any moment.
- RaftProgress.Progress: says that further steps lead there from every run, not that timing brings them about.
- LockEntry.RequestCanBeGranted: likewise says that steps lead there, provided that holders unlock.
- Raft messages are values; their encoding and the RPC layer are not part of this model. A handler is one atomic step.
- LockEntry.LockSafety: one outstanding request for each transaction and item, since the code finds a request by its transaction alone; deadlocks are not detected by the code or here.
- LockManager: the lock table's own hash chains are a map, and its lookups and removals are atomic.
- BPlusTree.Find: an empty tree, on which the code follows a null pointer; keys are integers and pins taken on the way down are not modelled.
- B+ tree insertion, deletion, splitting and iteration, whose deciding steps are unfinished in the code.
- Tables, rows, schemas, the SQL front end, sockets, connections and logging.
