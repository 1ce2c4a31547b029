# Tagdata, modelled and proved in Dafny

Tagdata is a copy-on-write B+ tree store: one writer and many snapshot readers share a
file, commits go to fresh pages and are published through one of two metadata pages.  This
project models its page lifecycle, its trees and the structures built on them, and proves
that they mean what they are for.  `dafny verify dfyconfig.toml` checks everything.

## What is modelled

**Pages and commits.**  `Freelist` is the freelist of `src/storage/freelist.rs`, in place.
`Disk` is a file with a page cache: any part of the unsynced writes may survive a power
loss, and a torn block is detectably invalid.  `Lifecycle` is a transition system of reader
starts and ends, a writer's allocations, retirements, writes, syncs and publication, process
death and power loss.  `LedgerProof` and `Safety` prove its invariant over every *sound* run,
one in which power is lost only while the snapshot it may restore is intact, and derive
snapshot safety and page conservation: the committed pages are exactly the freelist block and
the blocks reachable from the root, each once.  Crash atomicity is proved exactly: at any point
of such a run every power loss is survived if and only if that snapshot is intact
(`Safety.CrashAtomicity`).  It always is along a *guarded* run, where no writer begins while the
current metadata is unsynced and no reader is registered (`Safety.GuardedKeeps`), and after any
sync (`Safety.SyncRecovers`), and the guard is exact: from an unguarded begin, and only from
one, that writer can go on to a state in which it is not (`Reuse.GuardExactly`).  `LostCommit.AtomicityFails` is a run of ten steps in which it is
not: a writer dies between writing and syncing the metadata, the next one reuses the pages,
power is lost.  `Checker` is the consistency check and `Audit` proves that every committed
snapshot passes it.

**Trees.**  `BTree` gives a bucket's tree as a value and what it means (its ordered leaves,
hence a sorted map).  `Overlay` is the bucket inside a transaction: committed pages shadowed
by nodes loaded on demand.  `Rebalance` is the merging of underfull nodes, with separators
that go stale, and `Searching` says which merges leave every entry within reach of a search.
`Split`, `Committed` and `Spill` are the writing pass.  `Handover` shows that edits and merges
leave a bucket in the state the writing pass relies on, `Merging` runs any picks of merges and
the promotion over the freelist, and `Outcome` says of the tree before merging when what comes
out can be written.  `Transaction` puts it all together: a bucket is edited by any run of
operations, merged in any order, promoted, written out and reopened, and holds what the sorted
map would hold, in blocks that are exactly those of its nodes (`Transaction.Transact`).
`WholeFile` adds the new freelist block and proves that the file then meets what sealing a
transaction in `Lifecycle` asks for: the pages are exactly the tree's blocks and that block.  `Traversal` is cursors and ranges, `Layout` the bytes of a page
block.

Keys are byte strings; `Bytes.Less` compares them by `Rank`, an embedding of the
lexicographic order into the reals that `Bytes.RankIsOrder` ties to byte-by-byte comparison.

**Structures on top.**  `Ttl` (two expiration indexes), `PurgeTree` (purging all buckets of the
database under one limit), `Merge` (recursive merge under three
policies), `JournalCodec` and `Journal` (the bounded change journal), `Readers` (reader ids
as byte-range locks), `Codec` (order-preserving keys).

## Where the code does less than it promises

Each has a lemma or method at a concrete input and the exact condition.

- Crash atomicity: see above (`Safety.CrashAtomicity`, `LostCommit.AtomicityFails`,
  `src/api/tx.rs:527-563`).
- A search after merging branch nodes: a left merge whose right node has a first separator
  above one of its keys hides that entry.  `Searching.JoinFindable` is the exact condition for
  one join, `Searching.MergeFindable` for a merge anywhere, `Searching.RebalanceFindable` for
  whole runs; `StaleSeparator` is two merges that reach it.  It matters because `spill` searches
  the merged tree for its nested buckets (`src/api/bucket/inner.rs:521-523`).
- Promoting a root's only child: the promoted child is loaded, as the writing pass demands,
  exactly if the merge had data to move or the sibling was loaded
  (`Handover.PromotedLoaded`; `Handover.UnloadedPromoted` is a case where it is not;
  `src/api/bucket/inner.rs:453-471` and `:525`).
- Writing a bucket some of whose leaves were emptied: a leaf that is alone under its parent is
  not merged, moves with the parent's data to a sibling node that is not visited again, and the
  writing pass asks it for a first key it does not have (`src/api/bucket/inner.rs:441-442` and
  `:470-477`, `src/tree/node.rs:413-419`, asked at `:236`).  `Outcome.AlwaysCommits` is the exact
  condition, on the tree and the loaded pages before merging, under which no merges lead there;
  `Outcome.SometimesCommits` is the one under which all do, such as a tree of three or more
  levels that lost every entry.  `EmptiedLeaf.OrderMatters` is a bucket between the two: the
  merges of the source fail on it, and one more would succeed.
- An excluded start of a range is ignored; `Traversal.ExcludedStart` says when that makes no
  difference, `Traversal.ExcludedYielded` is where it does (`src/api/cursor.rs:336-338`).
- A journal consumer named `onfig` shares its key with the configuration; under that name a
  checkpoint sets the retention (`Journal.CheckpointKeys`).  After any run of operations a
  consumer that is behind loses transactions without being told exactly if the last operation to
  set the retention was position 0 under that name (`Journal.SilentLoss`, `Journal.Forgets`).
- Any non-zero byte is read as the truncation flag of a journal record, so a record is
  rewritten as itself exactly if that byte is 0 or 1 (`JournalCodec.Rewrites`,
  `JournalCodec.FlagRewritten`).
- Setting a deadline in a bucket that has a lookup index but no deadline index creates the
  latter with that key alone; the two agree afterwards exactly if no other key had a deadline
  (`Ttl.TtlBucket.SetExpiration`, `Ttl.MissingIndex`).
- A bucket that replaces a value in a merge is under that value's deadline, so it has one exactly
  if the value had (`Merge.DeadlineFollows`, `Merge.BucketUnderDeadline`,
  `src/api/merge.rs:293-297`).

The size of a chunk's last element is also charged to the next chunk when a node is split;
`Split.FullChunk` states the sizes with that charge.

## Model

| member | source | states |
|---|---|---|
| `Bytes.RankIsOrder` | src/tree/page_node.rs:64-84 | comparing ranks is comparing bytes lexicographically, and equal ranks mean equal keys |
| `Bytes.BigEndianOrder` | src/typed/codecs.rs:10-16 | big-endian words of one width sort as their numbers |
| `Bytes.BigEndianRoundTrip` | src/typed/codecs.rs:10-16 | every number that fits reads back |
| `Freelist.FindRun` | src/storage/freelist.rs:152-188 | the one-pass scan finds the least start of n consecutive free ids, and 0 exactly if there is none |
| `Freelist.Freelist.Allocate` | src/storage/freelist.rs:152-188 | first fit: succeeds exactly when a run exists, returns the least start, removes exactly those ids |
| `Freelist.Freelist.Release` | src/storage/freelist.rs:138-150 | exactly the generations below the bound become free; later ones stay as they are |
| `Freelist.Freelist.Init` | src/storage/freelist.rs:109-120 | generation-0 records are free, all others pending under their generation |
| `Freelist.Freelist.Free` | src/storage/freelist.rs:127-136 | the page joins the transaction's generation |
| `Freelist.Freelist.Entries` | src/storage/freelist.rs:200-217 | lists every free and pending page with its generation exactly as often as it is held, sorted by page |
| `Freelist.Freelist.Size` | src/storage/freelist.rs:219-222 | bytes for all records |
| `Freelist.ReloadRestores` | src/storage/freelist.rs:109-120 | writing the records in any order and loading them restores the free set and every generation |
| `Freelist.DroppedIsReleased` | src/storage/freelist.rs:138-150 | dropping generations one by one is the release of all below the bound |
| `Freelist.FewerRecordsFewerEntries` | src/api/tx.rs:454-470 | a freelist with fewer records never needs more entries |
| `Freelist.TxFreelist.Free` | src/storage/freelist.rs:40-45 | retires every page of the block under this transaction |
| `Freelist.TxFreelist.Allocate` | src/storage/freelist.rs:47-82 | a block for the bytes and the checksum: first fit, else new pages at the end of the file |
| `Freelist.TxFreelist.WriteFreelist` | src/api/tx.rs:454-470 | the block sized before its own allocation holds every record, and loading them restores the freelist |
| `Freelist.FreedBlockContents` | src/storage/freelist.rs:40-45 | retiring a block adds exactly its pages to this transaction's generation |
| `Freelist.PagesFor` | src/storage/freelist.rs:57-62 | the least number of pages for payload and checksum |
| `Disk.PublishKeepsFallback` | src/api/tx.rs:533-563 | publishing to the other slot makes the new metadata current and keeps the old one to fall back to |
| `Disk.SyncMakesDurable` | src/api/tx.rs:533-563 | after the sync the current metadata is the one a loss falls back to |
| `Disk.LossSelectsOneOfTwo` | src/storage/db.rs:564-611 | whatever survives of the metadata pages, selection yields the fallback or the current one |
| `Disk.LossKeepsSolid` | src/api/tx.rs:501-532 | durable pages without unsynced writes survive any loss |
| `Disk.WalkStaysInside` | src/storage/page.rs:49-60 | following pointers from the root of an intact snapshot never leaves it |
| `LedgerProof.LedgerRelease` | src/api/tx.rs:212-235 | releasing generations keeps the partition of all pages into free, pending and held |
| `LedgerProof.LedgerRetire` | src/storage/freelist.rs:40-45 | retiring held pages keeps the partition and lists no page twice |
| `LedgerProof.LedgerAllocate` | src/storage/freelist.rs:47-82 | allocating keeps the partition |
| `LedgerProof.PlacesFresh` | src/storage/freelist.rs:47-82 | an allocated block is neither held nor pending |
| `LedgerProof.LedgerReload` | src/storage/db.rs:554-562 | storing and loading the freelist keeps the partition |
| `Safety.InitInv` | src/storage/db.rs:614-660 | a new file satisfies the protocol invariant |
| `Safety.StepInv` | src/api/tx.rs:188-270 | every step of readers, writer, process death and power loss keeps the protocol invariant; of a power loss it is asked that the snapshot it may restore is intact |
| `Safety.RunInv` | src/api/tx.rs:420-596 | the invariant holds along every sound run, guarded or not |
| `Safety.SnapshotSafety` | src/api/tx.rs:193-235 | along every sound run each reader's snapshot reads as committed, and a page being written belongs to no reader's snapshot and not to the committed one |
| `Safety.PageConservation` | src/api/tx.rs:454-470 | after every step ids 2 .. num_pages are the disjoint union of committed, free and pending pages as the stored freelist reads back, and the committed pages are exactly the freelist block and the disjoint blocks reachable from the root as an unshared tree |
| `Safety.CrashAtomicity` | src/api/tx.rs:501-563 | at any point of a sound run, every power loss leaves the last durable or the last published transaction selected and every page it reaches intact, if and only if nothing of the durable snapshot was overwritten |
| `Safety.GuardedKeeps` | src/api/tx.rs:212-235 | along a guarded run it never is, so every loss at every point is survived |
| `Safety.SyncRecovers` | src/api/tx.rs:501-563 | after any sync it is not either, whatever happened before |
| `Safety.ReuseExactly` | src/api/tx.rs:212-235 | a beginning writer may reuse a page of the snapshot a power loss would restore exactly if the metadata is unsynced and no reader is registered |
| `Reuse.GuardExactly` | src/api/tx.rs:212-235 | after a guarded run a beginning writer can go on, before another begins, to a state some power loss does not survive if and only if it is unguarded |
| `LostCommit.AtomicityFails` | src/api/tx.rs:533-563 | an unguarded run after which the selected transaction's freelist block holds another transaction's records |
| `Audit.SnapshotPasses` | src/api/tx.rs:598-724 | a snapshot without leaks whose nodes are in key order has a certificate, so the check accepts it |
| `Audit.CommittedPasses` | src/api/tx.rs:454-470 | after every sound run that holds of every committed snapshot |
| `BTree.LowerSplits` | src/tree/page_node.rs:64-84 | the binary search's insertion point splits a sorted page into smaller and not smaller keys, and hits exactly on present keys |
| `BTree.IndexBounds` | src/tree/page_node.rs:64-84 | the element indexed for a key is the last not above it, or the first |
| `BTree.RouteSplits` | src/api/cursor.rs:247-265 | the ordered leaves split around the leaf a search ends in, before and after an edit of it |
| `BTree.RouteBounds` | src/api/cursor.rs:247-265 | everything left of that leaf is below the key, everything right of it above |
| `BTree.RoutableSorted` | src/api/cursor.rs:287-316 | a tree whose separators route every key has strictly sorted leaves |
| `LeafEdit.PutContents` | src/tree/node.rs:131-141 | inserting into the routed leaf is an update of the sorted map |
| `LeafEdit.DeleteContents` | src/tree/node.rs:169-174 | removing the found element is a removal from the sorted map |
| `LeafEdit.SetLeafRoutable` | src/tree/node.rs:131-174 | editing the routed leaf keeps every separator routing |
| `LeafEdit.RouteFinds` | src/api/cursor.rs:247-265 | a key is in the map exactly if the routed leaf has it, with the same datum |
| `Overlay.InnerBucket.FromMeta` | src/api/bucket/inner.rs:27-45 | a bucket over committed pages starts with nothing loaded and the committed map |
| `Overlay.InnerBucket.NewChild` | src/api/bucket/inner.rs:47-67 | a new bucket is empty, with one loaded root that has no page |
| `Overlay.InnerBucket.PageNode` | src/api/bucket/inner.rs:89-100 | a loaded node shadows its committed page |
| `Overlay.InnerBucket.SearchLeaf` | src/api/cursor.rs:247-265 | ends in the leaf routing leads to, exact exactly if the key is there |
| `Overlay.InnerBucket.Search` | src/api/cursor.rs:223-245 | the path from the root whose last step is that of `search_leaf`, with every parent recorded |
| `Overlay.InnerBucket.AddPageParent` | src/api/bucket/inner.rs:69-78 | the recorded parent is the page that points to it, and never changes |
| `Overlay.InnerBucket.LoadPage` | src/api/bucket/inner.rs:308-349 | loads a page and its ancestors, each attached to its loaded parent, and changes no contents |
| `Overlay.InnerBucket.NodeOf` | src/api/bucket/inner.rs:308-349 | an error exactly for an unloaded page that is neither the root nor has a known parent |
| `Overlay.InnerBucket.EditLeaf` | src/tree/node.rs:131-174 | rewrites exactly the routed leaf and keeps every invariant |
| `Overlay.InnerBucket.Get` | src/api/bucket/inner.rs:102-110 | answers as the sorted map, and changes nothing in it |
| `Overlay.InnerBucket.PutLeaf` | src/api/bucket/inner.rs:156-176 | a map update that returns the old datum and counts new keys; a value and a bucket never replace each other |
| `Overlay.InnerBucket.Put` | src/api/bucket/inner.rs:112-127 | the same for a value |
| `Overlay.InnerBucket.Delete` | src/api/bucket/inner.rs:129-154 | a map removal; missing keys and buckets are errors that change nothing |
| `Overlay.InnerBucket.Run` | src/api/bucket/inner.rs:102-176 | every run of gets, puts and deletes answers as a sorted map does |
| `Overlay.RepSetLeaf` | src/api/bucket/inner.rs:89-100 | rewriting one leaf's page changes that leaf of the tree and nothing else |
| `Overlay.EdgeUnique` | src/api/bucket/inner.rs:69-78 | a page of an unshared tree has one parent |
| `Traversal.Cursor.Seek` | src/api/cursor.rs:92-104 | stands at the key, or where the search for it lands, and says which |
| `Traversal.Cursor.SeekFirst` | src/api/cursor.rs:120-146 | stands at the first entry of a tree of any depth |
| `Traversal.Cursor.Advance` | src/api/cursor.rs:287-316 | yields the entry at the cursor's position in the flattened leaves and moves on by one |
| `Traversal.Cursor.CollectForward` | src/api/cursor.rs:276-316 | iterating yields exactly the flattened leaves |
| `Traversal.Cursor.SeekLast` | src/api/cursor.rs:148-167 | stands at the last entry |
| `Traversal.Cursor.Previous` | src/api/cursor.rs:169-219 | yields the current entry and moves back by one |
| `Traversal.Cursor.CollectBackward` | src/api/cursor.rs:148-219 | iterating backwards yields the leaves in reverse |
| `Traversal.Range.Collect` | src/api/cursor.rs:335-362 | a range with an included or unbounded start yields exactly the entries in bounds, also when the start key is missing |
| `Traversal.ExcludedStart` | src/api/cursor.rs:335-362 | ignoring an excluded start is harmless exactly if no entry within the end bound is at or below it |
| `Traversal.ExcludedYielded` | src/api/cursor.rs:336-338 | two entries of which the excluded one is yielded |
| `Traversal.SeekLands` | src/api/cursor.rs:223-245 | where a search lands in the flattened order |
| `Rebalance.SortedEntries` | src/tree/node.rs:427-430 | appending two sibling leaves' entries and sorting, by whatever sort, is their ordered concatenation |
| `Rebalance.SortedElements` | src/tree/node.rs:423-426 | the same for the elements of two branch nodes, although separators may be stale |
| `Rebalance.MergeFlatten` | src/api/bucket/inner.rs:452-494 | moving a child's data to a sibling, or dropping an emptied one, keeps the ordered leaves |
| `Rebalance.MergeStaged` | src/api/bucket/inner.rs:452-494 | and keeps children in key order with separators between them, though possibly stale |
| `Rebalance.MergeUnshared` | src/api/bucket/inner.rs:452-494 | and no page occurs twice |
| `Rebalance.MergePages` | src/api/bucket/inner.rs:482-494 | and exactly the removed node's page is gone |
| `Rebalance.MergeKeeps` | src/api/bucket/inner.rs:429-494 | all of this for a merge anywhere in the tree, with equal depth and full leaves |
| `Rebalance.RebalanceKeeps` | src/api/bucket/inner.rs:390-503 | for every run of merges in any visiting order, and a final root promotion: same ordered leaves, freed pages exactly those of removed nodes |
| `Searching.SearchableExactly` | src/api/cursor.rs:247-265 | in a tree with stale separators every entry is found by a search for its key exactly if no separator but a node's first is above an entry under it |
| `Searching.LeafMergeRoutable` | src/api/bucket/inner.rs:452-494 | merging leaves, anywhere in a tree, keeps every separator exact |
| `Searching.JoinFindable` | src/api/bucket/inner.rs:459-481 | two joined branch nodes have every entry findable exactly if both had and the right one's first separator is not above an entry of its first child |
| `Searching.MergeFindable` | src/api/bucket/inner.rs:429-494 | a merge anywhere in a tree keeps every entry findable exactly if the children are leaves, the child is empty, or the right node's first separator is not above an entry of its first child |
| `Searching.RebalanceFindable` | src/api/bucket/inner.rs:390-503 | over every run of merges all entries are found after each exactly if each merge is of that kind, and a final promotion keeps it so |
| `StaleSeparator.StartRoutable` | src/api/bucket/inner.rs:390-503 | the example tree routes every key before it is merged |
| `StaleSeparator.FirstMerge` | src/api/bucket/inner.rs:452-494 | a first child merged to the right leaves a separator above a key |
| `StaleSeparator.SecondMerge` | src/api/bucket/inner.rs:452-494 | its parent then merges to the left |
| `StaleSeparator.SearchMisses` | src/api/bucket/inner.rs:521-523 | after both a search misses an entry that is there |
| `Split.SplitIndexes` | src/tree/node.rs:284-332 | every chunk has at least two elements; one that was cut fits the threshold without its last element unless it has two, and is over it with what the running size carried in; what is left over fits but for its last two |
| `Split.SplitPoints` | src/tree/node.rs:284-336 | short or small nodes are not split |
| `Split.RootShrinks` | src/tree/node.rs:249-270 | at most half as many chunks as elements, so root growth ends |
| `Committed.TightFirst` | src/tree/node.rs:413-419 | when every separator is its child's first key, a node's first key is its first entry's |
| `Committed.TightRoutable` | src/tree/node.rs:229-246 | such a tree over sorted leaves routes every key |
| `Committed.CutNode` | src/tree/node.rs:338-357 | breaking chunks off from the right gives the chunks in order |
| `Committed.CutFlatten` | src/tree/node.rs:338-357 | the chunks' leaves concatenate to the node's |
| `Committed.CutTight` | src/tree/node.rs:338-357 | each chunk keeps separators equal to first keys |
| `Spill.InsertBranch` | src/tree/node.rs:143-167 | under the asserted hit or miss the element is replaced in place or inserted at its key's place |
| `Spill.InsertBranches` | src/tree/node.rs:229-246 | a child found by its stale original key is replaced by its pieces, each search hitting or missing as asserted, and nothing else moves |
| `Spill.ElementsSorted` | src/tree/node.rs:201-215 | between any two children the branch's elements, new and stale, are strictly sorted |
| `Spill.CutSound` | src/tree/node.rs:217-228 | written pieces over finished children are finished: tight, balanced, on pages of their own, as the pages spell them |
| `Spill.Spiller.constructor` | src/api/bucket/inner.rs:507-535 | the writing pass starts with nothing written |
| `Spill.Spiller.Retire` | src/tree/node.rs:381-386 | a node's block goes from the held pages to this transaction's generation; one without a page retires nothing |
| `Spill.Spiller.Take` | src/tree/node.rs:371-378 | a new block of pages never used in this pass, as many as the size needs |
| `Spill.Spiller.WriteNode` | src/tree/node.rs:361-378 | the old block is retired, a new one of the node's size holds the node, nothing else is taken |
| `Spill.Spiller.WriteFirst` | src/tree/node.rs:218-223 | a split node uses two new blocks, of which the first is retired again: the pages held lose the old block and gain the second one only |
| `Spill.Spiller.WriteNodes` | src/tree/node.rs:218-228 | every piece on its own new page; the pages held lose exactly the old block and gain exactly the pieces' blocks |
| `Spill.Spiller.Finish` | src/tree/node.rs:217-228 | a node over finished children becomes finished pieces with the same leaves and children, whose blocks are all that is added |
| `Spill.Spiller.SpillNode` | src/tree/node.rs:191-246 | a loaded subtree becomes finished pieces with the same ordered leaves; the pages held lose exactly the loaded blocks and gain exactly the new nodes', and the pieces keep exactly the never-loaded pages |
| `Spill.Spiller.SpillKids` | src/tree/node.rs:201-215 | after all children the node's separators are their first keys |
| `Spill.Spiller.SpillKid` | src/tree/node.rs:209-215 | one child's pieces replace its element |
| `Spill.Spiller.GrowRoot` | src/tree/node.rs:247-277 | new roots until one node holds everything, each new block part of the tree; ends |
| `Spill.Spiller.SpillEmpty` | src/tree/node.rs:217-228 | an emptied bucket keeps one empty leaf |
| `Spill.Spiller.SpillRoot` | src/api/bucket/inner.rs:525-532 | the new tree holds exactly the entries, routes every key, has equal depth and is what its pages spell; the pages held lose exactly the loaded blocks, retired once under this transaction, and gain exactly the blocks of the new nodes |
| `Handover.CommittedTight` | src/tree/node.rs:57-98 | pages whose separators are first keys spell a tight tree |
| `Handover.TightCommits` | src/tree/node.rs:229-246 | a finished tree leaves such pages |
| `Handover.MergeReady` | src/api/bucket/inner.rs:452-494 | after a merge every loaded node is still under the separator it was loaded with, the sibling included |
| `Handover.MergeAtReady` | src/api/bucket/inner.rs:390-503 | the same for a merge anywhere |
| `Handover.ChildFound` | src/api/bucket/inner.rs:445-452 | the parent's element of a loaded child is found by the child's original key, at its index |
| `Handover.KidsByFirstKey` | src/tree/node.rs:201-203 | sorting children by first key gives the order of their elements, despite stale separators |
| `Handover.PromotedLoaded` | src/api/bucket/inner.rs:453-471 | what a two-child root promotes is loaded exactly if the merge had data to move or the sibling was loaded |
| `Handover.UnloadedPromoted` | src/api/bucket/inner.rs:453-471 | an emptied leaf beside a leaf never loaded: it is not |
| `Handover.UnloadedBelow` | src/api/bucket/inner.rs:308-349 | below an unloaded node nothing is loaded |
| `Handover.NodeReady` | src/api/bucket/inner.rs:308-349 | after any edits a loaded node sits under the first key it was loaded with |
| `Handover.BucketReady` | src/api/bucket/inner.rs:507-535 | so the whole bucket is fit for merging and writing |
| `Overlay.SetLeafShape` | src/tree/node.rs:131-174 | edits change entries only: pages, separators and depth stay |
| `Merging.MergeStep` | src/api/bucket/inner.rs:452-494 | a merge of a loaded node keeps the tree fit for writing and retires exactly that node's block |
| `Merging.PromoteStep` | src/api/bucket/inner.rs:409-428 | promoting a root's only child retires the root's block, keeps the leaves, and leaves a tree fit for writing if the child is loaded |
| `Merging.MergeNodes` | src/api/bucket/inner.rs:390-503 | any picks of nodes in any order, and the final promotion: same ordered leaves, every loaded node under the separator it was loaded with, the pages held are the blocks of the remaining nodes |
| `Outcome.AlwaysCommits` | src/api/bucket/inner.rs:390-503 | a bucket can be written whatever loaded nodes are merged, if and only if its tree, after promoting an only child, is loaded and is the empty leaf or has no empty node |
| `Outcome.SometimesCommits` | src/api/bucket/inner.rs:390-503 | some merges let it be written, if and only if it is not so that three or more levels hold nothing, or all the root's children but one are emptied leaves and that one was never loaded |
| `Outcome.NothingLeft` | src/api/bucket/inner.rs:438-443 | a tree of three or more levels that lost every entry cannot be written, whatever is merged |
| `EmptiedLeaf.OrderMatters` | src/api/bucket/inner.rs:441-477 | every key under one node deleted, its sibling never loaded: two merges leave an empty leaf beside others, a third would not |
| `Transaction.CommitBucket` | src/api/bucket/inner.rs:507-535 | the next transaction reads exactly the map that was committed, over pages fit for the next commit; the freelist still partitions the file, and of the pages held exactly the tree's blocks are exchanged |
| `Transaction.Transact` | src/api/tx.rs:420-444 | every run of operations, any merges, promotion, writing and reopening: the answers and the next transaction's map are those of the sorted map, no page leaks; an edited bucket commits whatever is merged if its tree and loaded pages settle, never if they are doomed, and for given merges exactly if the merged tree has a loaded root and no empty leaf beside others |
| `WholeFile.CommittedWhole` | src/api/tx.rs:431-465 | a bucket between transactions and a freelist block, stored page by page, are closed and whole: an unshared tree from the root whose disjoint blocks and the freelist block are all the pages |
| `WholeFile.Commit` | src/api/tx.rs:420-464 | a transaction of one bucket up to its sealing: the next bucket holds what the sorted map would, free, pending and stored pages partition the file, and any pages that store it are closed and whole |
| `Checker.Check` | src/api/tx.rs:598-724 | accepts exactly the files with a certificate: pages that are fine, each linked once, together claiming every page once; ends on every page graph |
| `Checker.CheckPage` | src/api/tx.rs:605-712 | one page passes exactly if it is fine and all it claims is unused |
| `Checker.CheckContent` | src/api/tx.rs:626-712 | keys in order, known types, the one freelist page, no future retirement |
| `Checker.ClaimBlock` | src/api/tx.rs:606-624 | the page and its overflow pages are claimed |
| `Checker.RemoveAll` | src/api/tx.rs:616-624 | removes the ids exactly if all are there |
| `Checker.InOrder` | src/api/tx.rs:628-643 | comparing neighbours decides strict order |
| `Checker.Unshared` | src/api/tx.rs:598-724 | an accepted file visits no page twice |
| `Checker.Acyclic` | src/api/tx.rs:598-724 | in an accepted file every link leads to a later page, so there is no cycle |
| `Layout.WriteNode` | src/storage/page.rs:323-377 | the block holds header, elements and bodies in order, zeros after them |
| `Layout.WriteElements` | src/storage/page.rs:333-368 | element offsets count from the element to its body |
| `Layout.WriteBodies` | src/storage/page.rs:370-376 | bodies follow one another |
| `Layout.CellRoundTrip` | src/storage/page.rs:431-467 | element by element the accessors read what was written |
| `Layout.NodeRoundTrip` | src/tree/node.rs:57-98 | a written block reads back as the same node, whatever follows its image |
| `Layout.ValidateLayout` | src/storage/page.rs:167-226 | accepts exactly the blocks of a known type whose metadata, records, or elements with keys and values lie before the limit |
| `Layout.ImageValid` | src/storage/page.rs:167-226 | what is written passes validation |
| `Layout.ValidReads` | src/storage/page.rs:431-467 | in a valid block every key and value is read in full |
| `Layout.BlockHolds` | src/storage/freelist.rs:47-82 | the pages allocated for a node's size hold its image before the checksum |
| `Layout.Seal` | src/storage/page.rs:380-390 | the trailer is the digest of everything before it |
| `Layout.StoreNode` | src/tree/node.rs:361-378 | a stored node's checksum verifies, its layout validates, and id, block length and contents read back |
| `Layout.ValidateSpan` | src/storage/page.rs:106-165 | succeeds exactly if the aligned block its header spans lies in the file; the overflow checks refuse nothing else |
| `Layout.ValidateBlock` | src/storage/page.rs:91-97 | accepts exactly the blocks with a good span, checksum and layout |
| `Layout.StoredAccepted` | src/storage/page.rs:91-97 | a stored node's block passes wherever its id puts it |
| `Ttl.DeadlineKeys` | src/api/ttl.rs:251-263 | deadline keys read back and sort by deadline, then key |
| `Ttl.TtlBucket.SetExpiration` | src/api/ttl.rs:58-69 | the lookup is updated; the indexes agree exactly if the deadline index existed or no other key had a deadline |
| `Ttl.MissingIndex` | src/api/ttl.rs:58-69 | a bucket where they do not agree afterwards |
| `Ttl.TtlBucket.ClearTtl` | src/api/ttl.rs:94-108 | the key leaves both indexes |
| `Ttl.TtlBucket.PutWithTtl` | src/api/ttl.rs:38-56 | value and deadline together, an error for a bucket |
| `Ttl.LiveUntil` | src/api/ttl.rs:77-91 | a value written with a deadline is visible exactly until then, whatever is written under other keys and purged meanwhile |
| `Ttl.TtlBucket.CollectExpired` | src/api/ttl.rs:124-136 | the scan in key order finds the first expired keys in deadline order |
| `Ttl.TtlBucket.Purge` | src/api/ttl.rs:111-155 | removes the first min(limit, expired) keys in deadline order, or fails exactly if one of them is a bucket, having removed the ones before it; no answer at any later time changes |
| `Ttl.TtlBucket.Run` | src/api/ttl.rs:58-155 | after every run the two indexes hold the same pairs, and values, deadlines and the answers to reads are what the operations mean one by one |
| `PurgeTree.PurgeOwn` | src/api/ttl.rs:111-155 | one bucket's purge inside the tree: its first expired keys in deadline order |
| `PurgeTree.PurgeBelow` | src/api/ttl.rs:219-233 | nested buckets in key order with what is left of the limit take a leading part of everything expired below |
| `PurgeTree.Purge` | src/api/ttl.rs:211-234 | what is removed leads the order of own keys by deadline, then nested buckets by name; it fails exactly if it comes to a key that names a bucket |
| `PurgeTree.PurgeDatabase` | src/api/ttl.rs:186-208 | exactly the first min(limit, expired) keys of the whole database go, with their deadlines and nothing else, or nothing changes, exactly if one of them names a bucket |
| `PurgeTree.PurgeUnseen` | src/api/ttl.rs:77-91 | no answer in any bucket at any later time changes |
| `Ttl.PurgeInvisible` | src/api/ttl.rs:77-91 | removing keys expired at a time changes no answer from then on |
| `Merge.MergeKeyValue` | src/api/merge.rs:190-269 | one value under each policy: taken with its deadline, kept, or a conflict |
| `Merge.MergeEntry` | src/api/merge.rs:161-185 | one source entry, value or bucket |
| `Merge.MergeBucket` | src/api/merge.rs:151-188 | the merge under the policy with the right report; under Error it fails exactly if some common path disagrees, and names one |
| `Merge.MergeByPath` | src/api/merge.rs:115-310 | Overwrite is the source-biased union path by path, KeepExisting the destination-biased one, and under Error both |
| `Merge.OverwriteAgain` | src/api/merge.rs:115-310 | a second Overwrite merge changes nothing |
| `Merge.SecondReport` | src/api/merge.rs:50-67 | and reports nothing inserted, updated, skipped or created |
| `Merge.CountersAddUp` | src/api/merge.rs:50-67 | under every policy inserted, updated, unchanged, skipped, created and merged sum to the source entries that are not inside a refused bucket |
| `Merge.AllReached` | src/api/merge.rs:50-67 | those are all of them under Overwrite, and under Error where it succeeds |
| `Merge.DeadlineFollows` | src/api/merge.rs:257-267 | a winning value brings its deadline; a bucket leaves the destination's |
| `Merge.BucketUnderDeadline` | src/api/merge.rs:293-297 | a bucket that overwrites a value with a deadline is under that deadline |
| `Merge.ConflictBreaks` | src/api/merge.rs:312-316 | a reported path is a disagreement |
| `JournalCodec.Encode` | src/api/journal.rs:181-195 | the record of a change set, or an error exactly if a count or length does not fit |
| `JournalCodec.Decode` | src/api/journal.rs:197-226 | accepts exactly well-formed records and returns their changes |
| `JournalCodec.RecordUnique` | src/api/journal.rs:181-226 | different change sets have different records |
| `JournalCodec.Rewrites` | src/api/journal.rs:202 | a decoded record encodes to itself exactly if its flag byte is 0 or 1 |
| `JournalCodec.FlagRewritten` | src/api/journal.rs:202 | flag byte 2 is written back as 1 |
| `JournalCodec.ChangesRoundTrip` | src/api/journal.rs:204-217 | changes read back, whatever follows them |
| `JournalCodec.ChangesSound` | src/api/journal.rs:204-217 | whatever is read was written so |
| `Journal.TxKeys` | src/api/journal.rs:159-169 | transaction keys read back and sort by id |
| `Journal.CheckpointKeys` | src/api/journal.rs:171-179 | a checkpoint key is never a record's, and the configuration's for one name only |
| `Journal.Start` | src/api/journal.rs:44-53 | the enabling transaction is the first one recorded, and retained; a retention of zero is refused |
| `Journal.Journal.Enable` | src/api/journal.rs:44-53 | a transaction of its own that sets the retention, is recorded and trims to it; zero is refused and changes nothing |
| `Journal.Journal.Checkpoint` | src/api/journal.rs:104-111 | a transaction of its own that stores a position, is recorded and trims; it sets the retention for the colliding name only |
| `Journal.Journal.Persist` | src/api/journal.rs:126-157 | the retained records are a contiguous block of the newest, as many as the retention allows |
| `Journal.Journal.Trim` | src/api/journal.rs:145-156 | the oldest records over the retention go |
| `Journal.Journal.ReplayAfter` | src/api/journal.rs:56-101 | every retained transaction after the requested one, in order up to the limit, as committed; a gap exactly if an older one was dropped |
| `Journal.Run` | src/api/journal.rs:104-157 | every run of operations, the colliding name included, leaves the newest id, the oldest retained, the retention and the history that the operations mean one by one |
| `Journal.HistoryOfRun` | src/api/journal.rs:126-157 | the history is what came before and the sets the run committed, in order under consecutive ids |
| `Journal.KeptOfRun` | src/api/journal.rs:145-156 | how many are retained: the least of all there ever were and, for each commit, its retention and the commits after it |
| `Journal.NothingRetained` | src/api/journal.rs:145-156 | nothing is retained exactly if the retention was last set by position 0 of the colliding name |
| `Journal.SilentLoss` | src/api/journal.rs:77-82 | after any run a consumer that is behind loses transactions without a reported gap exactly in that case |
| `Journal.Forgets` | src/api/journal.rs:171-179 | one such checkpoint loses everything without a gap |
| `Readers.IdRoundTrip` | src/storage/coordination/ofd.rs:162-180 | every 64-bit id reads back from its lock, which stays in its slot's block |
| `Readers.BlocksApart` | src/storage/coordination/ofd.rs:182-188 | locks of different slots never meet, nor the token region |
| `Readers.LockedTokens` | src/storage/coordination/ofd.rs:136-160 | ends and finds each locked slot exactly once, whichever overlapping lock is reported |
| `Readers.OldestReader` | src/storage/coordination/ofd.rs:68-83 | counts the readers and returns the exact minimum of their ids |
| `Readers.Register` | src/storage/coordination/ofd.rs:53-66 | takes the first free slot in turn, failing exactly if all are taken |
| `Codec.Escape` | src/typed/codecs.rs:141-152 | the escaped form |
| `Codec.Unescape` | src/typed/codecs.rs:154-173 | succeeds exactly on bytes that start with an escaped valid string, and returns it with its length |
| `Codec.PairOrder` | src/typed/codecs.rs:116-123 | encoded pairs sort as pairs, embedded zeros included, and are distinct for distinct pairs |
| `Codec.EncodePair` | src/typed/codecs.rs:119-123 | both strings escaped |
| `Codec.DecodePair` | src/typed/codecs.rs:125-132 | inverts encoding and accepts nothing else |
| `Codec.I64Order` | src/typed/codecs.rs:36-46 | signed keys sort as integers and read back |
| `Codec.I64Reencodes` | src/typed/codecs.rs:43-45 | any eight bytes decode to a key that encodes to them |

## Left out

- Memory mapping, raw pointers, file growth and system calls: pages, locks and the digest are abstract.
- SHA3-256 and FNV-1a: a torn block is taken to be detectable; `Layout` takes the digest as a parameter.
- `merge_nodes` as a loop with a stack: `Merging.MergeNodes` takes any picks of loaded nodes in any order instead, so the visiting order itself is not modelled, nor when a node counts as underfull.
- Transaction.Transact: the tree the loaded nodes and pages spell is read once before merging, where the source walks its nodes; nested buckets are leaves' metadata.
- `delete_bucket`: the lifecycle retires only pages a transaction still holds, which the sequence of deleting a nested bucket and then its parent would not respect.
- Nested buckets in one transaction: `Overlay` and `Spill` model one bucket; a nested bucket is a leaf's metadata.
- Spill.Spiller.SpillNode: the loaded children are taken in element order, which `Handover.KidsByFirstKey` proves to be what the sort by first key gives; the tree under way is a value while pages and freelist are updated in place.
- Traversal.Cursor.Advance: not stated for a second call on an empty bucket, where the length of the leaf minus one underflows.
- Merge.MergeBucket: buckets are values and the destination is threaded through, not updated in place; reserved TTL buckets are a field rather than entries, and the root level with its journal bucket is not modelled.
- Codec.Unescape: UTF-8 validity is a parameter.
- Readers.Register: the shared slot counter is a parameter; a lock set between two probes is not modelled.
- PurgeTree.PurgeDatabase: buckets are values with both indexes in agreement; the reserved TTL buckets are a field rather than entries.
- WholeFile.Commit: a file of one bucket; the steps between are not replayed one by one in `Lifecycle`.
- The fill threshold as a product of a 32-bit float: `Split` takes any threshold.
- Timeouts, retries, panics and poisoned locks; read-only handles and options.
- Backup, compaction, salvage, inspection, statistics, the command line, watches and change tracking limits, typed collections.
