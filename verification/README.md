# unidb storage core: model and proofs

A Dafny model of the storage core of unidb: the durable B+tree (`src/btree_index.rs`), the
buffer pool and checkpoint (`src/bufferpool.rs`, `src/checkpoint.rs`) with the recovery they
rely on, and what is built on top of them: the catalog blob (`src/catalog.rs`), large objects
(`src/large_object.rs`) and the inverted-file vector index (`src/disk_vector.rs`).
`dafny verify dfyconfig.toml` checks all of it.

## How it is put together

**One invariant for the tree, sequential and concurrent.** A ghost *shape* (`Shapes`) gives every
page a level and an interval of positions, and every position a fence between keys. Right halves
that no parent knows yet are *pending*. `TreeInv` holds after every single page write: right half,
left half, parent, new root, meta page. `Trees` shows that a shape without pending pages *is* a
well-formed B+tree in the ordinary sense (uniform depth, separators, one sorted leaf chain that is
the in-order leaves), a definition that mentions no ghost state. Keys are embedded into the reals
by `Rank`, which is proved to be the derived order of the source.

**Sequential tree.** `BTree` is the class `DiskBTree`. Its abstract value `Contents()` is the row
sequence along the leaf chain; every operation says what it does to that sequence or to the set of
pairs in it. How an insert that overflows its leaf ends, and which pages it leaves, is a function of
the path it took (`Overflows`). `Accounts` counts pairs with multiplicity and says what a panic on the
way is due to; `InPlace` says when a batch of patches is made entirely in place.

**Concurrent tree.** `Crabbing` is a state machine: any number of threads, and every latch, read,
allocation, page write and latch drop a step of its own. The threads are inserters with safe-node
early release, batch inserters that keep every latch from the meta page to the leaf, and writers
that find a leaf without latches, latch it, re-read it, rewrite it and go on to the next one
(`remove`, `set_value`, `patch_many`, absorbing a run). `CrabbingRuns` proves the invariant and the
final contents for every schedule of all of them, and `Ledger` an exact account of how often each
pair is stored. `Readers` adds latch-free lookups and `Unlatched` the one writer that takes no latch.
`Deadlock`, `CrabbingEnds` and `ReaderEnds` show that no schedule gets stuck, that every schedule
without new jobs ends within a bound, and that a lookup makes a bounded number of reads.

**Durability.** `Durability` is a machine of log appends, page changes, steals, syncs and the steps
of a checkpoint. Writers go on between the steps of a checkpoint, a log append and the page change it
describes are two steps, and a crash may follow any of them. `Recovery` says what redo makes of the
disk and the surviving log, `RecoveryRuns` are runs after which that is less than there was, and
`Skipped` says what a leaf's bytes become when one of two inserts is redone.
`Truncation` is what a checkpoint discards of the log, record by record and segment by segment.
`Pool` is the buffer pool itself, as a class. `Catalogs` is a machine of its own: pages in memory
and on disk, a log with a durable prefix, and the root pointer; `persist` is a run of it.

## Where the code does less than it says

Each of these has a concrete case, beside the exact condition.

- **A split can panic.** `serialize` copies a node into its page and panics if it does not fit
  (`src/btree_index.rs:334`, `345`). `BTree.DiskBTree.Insert` and `Propagate` end that way exactly if
  every node from the leaf up overflows, with halves that fit, until one has a half larger than its
  page (`Overflows.PutPanicsIff`). With fixed-width keys an insert never does
  (`BTree.DiskBTree.Insert`) and a batch does exactly if 7 + e * ceil(m/2) exceeds the page
  (`BTree.NarrowSplitTooWide`), although a comment says its guard prevents it
  (`src/btree_index.rs:1940-1941`); `Witnesses.BatchSplitCanPanic` is such a leaf and batch. With
  text keys a single insert can, on every page size (`Witnesses.TextSplitCanPanic`), but not while
  rows and keys keep to limits that a caller can compute from the page size
  (`Overflows.PutLeafNeverBursts`, `BTree.DiskBTree.InsertMany`): on 8 KiB pages, text keys of up to
  140 bytes (`Overflows.TextBound`).
- **An exact duplicate is not always a no-op** (`src/btree_index.rs:1143-1144`). An insert changes
  nothing exactly if the bisection of the leaf it is routed to meets the pair
  (`BTree.DiskBTree.Insert`), which on an ascending leaf means that the leaf holds it
  (`BTree.AscendingHit`). `Witnesses.PairCanBeStoredTwice` is a tree on which the pair is in another
  leaf.
- **A batch can make no progress.** `insert_batch` deals with no entry at all, and changes no page,
  exactly if the key it starts with lies outside the keys of the leaf it is routed to
  (`BTree.DiskBTree.InsertBatch`); `insert_many` then starts the same round again.
  `Witnesses.BatchCanStall` is such a tree, for every page size. It cannot happen when separators are
  exact (`BTree.NeverMisses`), and every operation here that adds rows keeps them exact, so
  `BTree.DiskBTree.InsertMany` ends.
- **`remove` and `set_value` can pass over a stored pair** (an emptied leaf counts as "past").
  `BTree.DiskBTree.Remove` and `SetValue` state exactly when they find one,
  `Witnesses.PairCanBePassedOver` is a tree on which they do not, and `Walks.WalkComplete` shows
  that without empty leaves `remove` finds every pair.
- **`update_rowid_inplace` takes no latch** (`src/btree_index.rs:1211-1258`): it writes back a leaf
  it read earlier. That replaces one pair and changes nothing else exactly if the leaf holds the
  pairs it held when it was read (`Unlatched.WriteBackIff`), which it does if nobody wrote it in
  between; the page keeps its place in the tree exactly if it was not split (`Unlatched.PutBackTreeIff`),
  and the other threads' invariant exactly if none of them has read it under its latch
  (`Unlatched.PutBackSafeIff`). From a new tree, `UnlatchedRuns.WriteBackCanLosePair` loses a pair that
  was asked for and written, and `UnlatchedRuns.WriteBackCanUndoSplit` undoes a split and leaves no
  tree. The latched writers re-read under the latch and lose nothing
  (`CrabbingLeaves.RewriteLeafStep`).
- **A checkpoint among writers can lose committed changes.** `Engine::checkpoint` takes no lock and
  is said to be safe at any time (`src/lib.rs:6065-6083`). A change that was not applied to its page
  when the checkpoint flushed, and is logged before the checkpoint record, is skipped by recovery and
  may not be on disk. `Durability.CoveredIff` says exactly when a page lacks such a change,
  `Recovery.CheckpointSafeIff` exactly when recovery of a page loses one, and
  `RecoveryRuns.CheckpointCanLoseCommitted` is a reachable run that loses a committed, durable change
  whatever records are redone.
- **Image tracking can be cleared under an insert.** `maybe_log_fpi` is said to give every page one
  image per interval (`src/bufferpool.rs:498-501`). `Durability.ImageBeforeInsertIff` says exactly when
  an insert has an image in the interval it falls into; in `RecoveryRuns.ClearedImageIsMissing` a
  checkpoint clears tracking between the call and the insert, the insert commits without an image,
  and its page stays torn.
- **The first checkpoint can break the write-ahead rule.** A durable LSN of 0 switches the check off
  (`src/bufferpool.rs:743`). `Durability.StepKeeps` says that exactly such a flush breaks it;
  `RecoveryRuns.FirstCheckpointCanBreakWal` is a reachable run.
- **A garbled segment header can cost the segment before it.** It reads as base LSN 0
  (`src/wal.rs:195-209`), so the segment before it looks old to a truncation, although a retained
  position is said to hold it back (`src/checkpoint.rs:71-73`). `Truncation.SparesIff` says exactly when
  every record from the position on stays, `Truncation.GarbledHeaderLosesRecords` is a case where one
  goes; a slot that lags beyond the cap loses records too (`Truncation.SlotsKeepIff`).
- **Numbers of mini-transactions start again at 1 on open** (`src/wal.rs:510`), while recovery tells
  committed ones by number (`src/recovery.rs:63-80`). `RecoveryRuns.TakenForCommittedIff` says exactly
  when an incomplete one is taken for committed; `RecoveryRuns.RestartCanRedoUncommitted` is a restart
  after which one is.
- **Redo of committed mini-transactions only is not exact.** A page can hold, and later logical
  inserts can build on, changes of a mini-transaction that has not committed.
  `Recovery.RecoveryExactIff` says when redo restores a page, `RecoveryRuns.RecoveryCanLoseAnInsert` is
  a reachable crash after which a committed insert is redone onto a leaf without the insert it was
  made on top of. `Skipped.SecondInsertAlone` says what that does to the leaf's bytes: the insert is
  dropped, or put in place, or put out of key order, and when.
- **A torn page is not always repaired** (`src/format.rs:170-180`). Its full-page image is skipped
  with the uncommitted mini-transaction that logged it, but the page may have been on its way to
  disk all the same. `Recovery.TornPageRepairedIff` is the exact condition,
  `RecoveryRuns.TornPageCanStay` a reachable crash.
- **A crash in the middle of a split can lose committed pairs.** If no whole image of the leaf is
  redone, the left half reached the disk and the right half did not, the pairs of the leaf that the
  left half lacks are gone: `Recovery.SplitKeepsPairsIff`, for any leaf and any split, and
  `RecoveryRuns.SplitCanLosePairs` for a reachable crash.
- **A checkpoint can lose the catalog.** Chain pages are written without a frame
  (`src/catalog.rs:1424`, `src/bufferpool.rs:698-714`), so no checkpoint writes them back, while it
  discards their records. `Catalogs.CrashLoadsIff` says when the catalog survives,
  `Catalogs.CheckpointCanLoseCatalog` is a run after which it does not. Without a checkpoint in
  between, a crash at any step loads exactly the catalog of the last flip
  (`Catalogs.CrashIsAtomic`).
- **A row id inserted twice into the vector index is found twice**, unless the leaf the insert lands
  on has the very posting (`Vectors.DiskIvf.Insert`). A search returns a row as often as it is posted
  under the probed cells (`Vectors.DiskIvf.Candidates`); `Vectors.InsertAgain` and `Vectors.TwoCells` are
  calls after which a row comes back twice.
- **`validate` does not check separators**, although its documentation lists them as implied
  (`src/btree_index.rs:2408-2410`). `Validation.Validate` states exactly what it accepts;
  `Validation.MisroutingUnseen` is a tree it accepts in which a lookup misses a stored key.

## Model

| member | source | states |
|---|---|---|
| `Keys.TextRankOrder` | src/btree_index.rs:116-121 | the real embedding of text keys is strictly monotone and injective |
| `Keys.RankInjective` | src/btree_index.rs:116-121 | the key order (variants in order, text by bytes) is total and antisymmetric |
| `Keys.EntryTrichotomy` | src/btree_index.rs:264-266 | comparing pairs by key, then row id, has exactly one of three outcomes |
| `Keys.AscendingOnce` | src/btree_index.rs:264-266 | entries that ascend by key, then row id, hold no pair twice |
| `Nodes.LeafInsertRows` | src/btree_index.rs:1361-1393 | inserting opens one row slot, keeps every payload with its row, in all three payload cases, and adds exactly one row's bytes |
| `Nodes.InsertPosKeepsOrder` | src/btree_index.rs:1361-1368 | every position a binary search can end at keeps the leaf in key order, although row ids are unordered |
| `Nodes.InsertPosAscends` | src/btree_index.rs:1361-1368 | and entries that ascend by key, then row id, go on ascending |
| `Nodes.SafeLeafFits` | src/btree_index.rs:465-488 | a leaf judged safe takes the entry without overflow |
| `Nodes.SafeInternalFits` | src/btree_index.rs:465-488 | an internal node judged safe takes any separator of the tree's key kind without overflow |
| `Nodes.LeafSplitRows` | src/btree_index.rs:2193-2217 | the halves of a leaf hold its rows, in order, payloads included |
| `Steps.RouteStaysInRange` | src/btree_index.rs:439-446 | the child an insert is routed to may hold the key |
| `Steps.WriteLeaf` | src/btree_index.rs:1394-1424 | rewriting a leaf with more rows is one write that keeps the invariant and moves no row left |
| `Steps.WriteLeafLeft` | src/btree_index.rs:2204-2228 | after the left-half write the tree is sound with one pending page and holds the old rows and the new one |
| `Steps.WriteParent` | src/btree_index.rs:1430-1451 | a parent's absorbing write makes the pending page reachable and moves no row |
| `Steps.WriteInnerLeft` | src/btree_index.rs:2233-2271 | the left-half write of an internal split trades one pending page for another and moves no row |
| `Steps.WriteMeta` | src/btree_index.rs:1459-1480 | repointing the meta page makes a new root over both halves and moves no row |
| `Trees.ShapeMeansTree` | src/btree_index.rs:2399-2416 | the invariant without pending pages means: uniform depth, left <= separator <= right, leaf chain = in-order leaves, no leaf twice, keys never decrease |
| `Trees.FlatSorted` | src/btree_index.rs:2407-2408 | keys never decrease along the chain and lie between its end fences |
| `Trees.FreshTree` | src/btree_index.rs:513-529 | a created tree satisfies the invariant and is empty |
| `Spelling.TreeSpells` | src/btree_index.rs:2414-2416 | the rows of the tree are the rows of its in-order leaves |
| `BTree.DiskBTree.constructor` | src/btree_index.rs:513-529 | creates a sound empty tree |
| `Searches.StopLosesNothing` | src/btree_index.rs:829-843 | ending a leaf scan at the first key past the bound loses no hit |
| `Searches.DescendKeepsAhead` | src/btree_index.rs:787-807 | with pending pages around, a read step down never leaves a stored hit behind |
| `Searches.LeafKeepsAhead` | src/btree_index.rs:817-847 | reading a leaf collects a stored hit, or the scan goes on and the hit is ahead |
| `BTree.DiskBTree.FindLeaf` | src/btree_index.rs:787-807 | the landing leaf is on the chain and no leaf before it holds a hit |
| `Lookups.ScanLeaf` | src/btree_index.rs:829-843 | one leaf's hits, and whether the scan is past the bound |
| `Lookups.ScanLeafLimit` | src/btree_index.rs:899-944 | one leaf's hits up to the limit |
| `BTree.DiskBTree.Search` | src/btree_index.rs:610-697 | for equality and every range operator: exactly the filter of the leaf chain, in order, on every sound tree, emptied leaves included; which is the part of the rows that lies below, at or above the key, cut at two places |
| `Searches.SearchesDivide` | src/btree_index.rs:671-690 | in key order: the rows below, at and above a key make up all rows in order, and each search with a weak bound is the strict one and the equal rows |
| `BTree.SearchLaws` | src/btree_index.rs:866-880 | so it is for the searches of every sound tree |
| `BTree.DiskBTree.SearchLimit` | src/btree_index.rs:899-944 | the prefix of that filter of length min(limit, total) |
| `Partitions.DealLeaf` | src/btree_index.rs:1016-1030 | dealing one leaf keeps the slices contiguous and full but for the last |
| `Partitions.Distribute` | src/btree_index.rs:1006-1037 | exactly n slices whose concatenation is the input, none longer than ceil(total/n) |
| `BTree.DiskBTree.SearchPartition` | src/btree_index.rs:954-1037 | n slices of the range search, as above; one slice for n <= 1 |
| `BTree.BinarySearch` | src/btree_index.rs:1362-1368 | on entries in any order, ends at the pair or between a smaller and a greater pair; the first if and only if the bisection meets the pair |
| `BTree.AscendingHit` | src/btree_index.rs:1362-1368 | on entries that ascend by key, then row id, the bisection meets the pair if and only if it is there |
| `BTree.DiskBTree.DescendTo` | src/btree_index.rs:1311-1349 | the retained stack is a linked path to the leaf for the key; its bottom is the root with the meta latch, or a safe node; which frames are kept is a function of the pages and the key |
| `Inserts.LeafRooted` | src/btree_index.rs:1453-1462 | a leaf that overflows at the bottom of the stack is the root, with the meta latch held |
| `Inserts.InnerRooted` | src/btree_index.rs:1453-1462 | the same for an internal node |
| `Inserts.LeafFitWrite` | src/btree_index.rs:1394-1424 | the in-place write puts the row into the row sequence at one position |
| `Inserts.LeafSplitWrite` | src/btree_index.rs:2176-2228 | the two writes of a leaf split replace the leaf's stretch of the row sequence by the full leaf's rows |
| `Inserts.AbsorbWrite` | src/btree_index.rs:1436-1447 | absorbing a separator changes no row and leaves nothing pending |
| `Inserts.InnerSplitWrite` | src/btree_index.rs:2233-2271 | an internal split changes no row and hands one separator up |
| `Inserts.RootWrite` | src/btree_index.rs:1458-1480 | a new root changes no row and leaves nothing pending |
| `Inserts.NarrowLeafHalves` | src/btree_index.rs:2193-2217 | for fixed-width keys, a leaf that fitted before one entry splits into halves that fit |
| `Inserts.NarrowClimb` | src/btree_index.rs:2233-2271 | the same for every internal node a separator climbs into |
| `BTree.DiskBTree.SplitLeaf` | src/btree_index.rs:2176-2228 | effect of `split_leaf` on the row sequence; none, and a panic if and only if a half is larger than its page; none if page ids are used up |
| `BTree.DiskBTree.SplitInternal` | src/btree_index.rs:2233-2271 | effect of `split_internal`: same rows, one separator further up; a panic if and only if a half is larger than its page |
| `BTree.DiskBTree.Propagate` | src/btree_index.rs:1426-1480 | propagating a split to the top leaves a sound tree with the same rows, all nodes within their pages; its pages, root, allocator and ending are a function of the path; it panics if and only if the nodes from the last frame up overflow until one has a half larger than its page, or the new root is; with fixed-width keys it never does |
| `Overflows.ClimbPanicsIff` | src/btree_index.rs:1426-1480 | carrying a separator up panics if and only if every node up to some frame overflows with halves that fit and page ids to be had, and that one has a half larger than its page, or the new root is |
| `Overflows.PutPanicsIff` | src/btree_index.rs:1394-1480 | the same from the leaf write on |
| `Overflows.PutRunsOut` | src/btree_index.rs:1394-1480 | a put that reports no page id left has used them all |
| `Overflows.PutNeat` | src/btree_index.rs:1394-1480 | putting in place a leaf that ascends, whole or as halves, leaves every leaf ascending |
| `Overflows.ClimbNeverBursts` | src/btree_index.rs:1426-1480 | for keys of any kind within limits that fit the page, a separator climbs without a panic and leaves all pages within the limits |
| `Overflows.PutLeafNeverBursts` | src/btree_index.rs:1394-1480 | so does every leaf write that adds a bounded number of bytes, payloads included |
| `Overflows.TextBound` | src/btree_index.rs:287-309 | on 8 KiB pages text keys of up to 140 bytes are within such limits |
| `BTree.DiskBTree.Insert` | src/btree_index.rs:1145-1183 | the row sequence gains exactly the new row, or nothing, the latter if and only if the search of the landing leaf meets the pair; pages, root, allocator and ending are a function of the path, so that it is exact when it runs out of pages and when it panics; never with fixed-width keys, nor with rows and keys of any kind within limits that fit the page; every node stays within its page; out of pages only when there are none left; leaves that ascend by key, then row id, go on ascending |
| `Witnesses.PairCanBeStoredTwice` | src/btree_index.rs:1141-1144 | a sound tree, for every page size, in which an insert of a stored pair is routed to a leaf that lacks it |
| `Witnesses.TextSplitCanPanic` | src/btree_index.rs:311-349 | for every page size, a leaf and a text key that both fit, with a right half that does not |
| `Walks.FindPair` | src/btree_index.rs:2365-2370 | first occurrence of a pair in a leaf |
| `Walks.NotReached` | src/btree_index.rs:2341-2396 | if a walk over leaves stops unsuccessfully, the pair was not reachable for it |
| `Walks.WalkComplete` | src/btree_index.rs:2341-2396 | without empty leaves the walk reaches a pair if and only if it is stored |
| `Edits.DropWrite` | src/btree_index.rs:2371-2386 | rewriting a leaf without one entry removes exactly that row |
| `Edits.SetWrite` | src/btree_index.rs:2300-2322 | rewriting one row id changes exactly that row |
| `BTree.DiskBTree.Remove` | src/btree_index.rs:2331-2397 | removes the first occurrence of the pair in the row sequence if and only if the walk reaches it, else changes nothing |
| `BTree.DiskBTree.SetValue` | src/btree_index.rs:2281-2325 | changes the first row with the key if and only if the landing leaf holds the key, else nothing |
| `BTree.DiskBTree.UpdateRowId` | src/btree_index.rs:1201-1265 | patches the first stored occurrence in place if and only if there is one, else inserts, as above; out of pages only when there are none left, and a panic only where a put of the pair bursts a page |
| `Witnesses.PairCanBePassedOver` | src/btree_index.rs:2364-2391 | a sound tree in which `remove` and `set_value` pass over a stored pair |
| `Sorting.SortByOrder` | src/btree_index.rs:1516-1518 | the stable sort used by the batch operations orders its input |
| `Sorting.SortByStable` | src/btree_index.rs:1516-1518 | elements that tie keep the order they came in |
| `Patches.PatchLeaf` | src/btree_index.rs:2100-2135 | one leaf round of `patch_many`: the patches of the run applied in order, first match each, the rest left over; the index advances; the run ends where keys leave the leaf's range |
| `BTree.DiskBTree.PatchMany` | src/btree_index.rs:2057-2159 | ends; no pair not named as old is lost, nothing but new pairs appears, and if no new pair is another patch's old pair every new pair is present; each patch exchanges one row in place or adds one at most. If every old pair is in the leaf where a read of its key lands, as often as there is a patch for it, it finishes, allocates nothing, and pairs are exchanged one for one; for patches none of which undoes another or does nothing, only then. Out of pages only when there are none left; a panic only where a put of new pairs bursts a page |
| `InPlace.PatchedAccount` | src/btree_index.rs:2100-2135 | on one leaf, patches that find their pair exchange it and the new pairs of the others are left over, counted with multiplicity; none is left over if the leaf has every old pair as often as there is a patch for it |
| `InPlace.SameLanding` | src/btree_index.rs:2086-2115 | a patch made on the leaf of an earlier one is made on the leaf its own key lands on |
| `InPlace.SettledIff` | src/btree_index.rs:2057-2159 | if all patches found their pair, pairs were exchanged one for one; for patches none of which undoes another, only then |
| `InPlace.ExchangedSets` | src/btree_index.rs:2057-2159 | where every old pair was stored once, the pairs are then the old ones less those named as old, and the new ones; the number of rows is the same |
| `Batches.CountRun` | src/btree_index.rs:1594-1598 | the longest run of entries whose keys lie in the leaf's range |
| `Batches.Merge` | src/btree_index.rs:1872-1907 | the merge loop computes the merge of the two runs |
| `Merges.MergedSet` | src/btree_index.rs:1872-1907 | the merge holds exactly the pairs of both runs |
| `Merges.MergedSorted` | src/btree_index.rs:1872-1907 | the merge of two runs in key order is in key order |
| `Merges.MergedBag` | src/btree_index.rs:1872-1907 | the merge holds every old entry as often as before, and what it takes from the new run |
| `Merges.MergedAscends` | src/btree_index.rs:1872-1907 | the merge of two runs that ascend by key, then row id, ascends |
| `Merges.MergedLeaf` | src/btree_index.rs:1872-1935 | the merged leaf is sound where the old one was, holds exactly the pairs of both and starts with the same key |
| `BTree.AbsorbRun` | src/btree_index.rs:1618-1653 | the fast path puts a prefix of the run into the leaf, which stays within its range and, if it was, within its page; no entry is lost or added more often than it is in the run, and a leaf that ascends by key, then row id, goes on ascending |
| `BTree.DiskBTree.InsertBatch` | src/btree_index.rs:1781-2046 | over merge in place, two-way split and single-entry fallback: adds exactly the first n entries; n = 0 if and only if the first key misses the leaf it is routed to, and then no page changes; panics if, and with fixed-width keys only if, the split leaves a half larger than its page; out of pages only when there are none left; if the batch ascends, leaves that ascend go on ascending |
| `BTree.NarrowSplitTooWide` | src/btree_index.rs:1932-1956 | with fixed-width keys, the split leaves such a half if and only if the merged leaf passes the guard and 7 + e * ceil(m/2) > cap |
| `Witnesses.BatchSplitCanPanic` | src/btree_index.rs:1939-1956 | a full leaf of Int keys on an 8 KiB page and a batch of 430 that pass the guard and overflow the right half |
| `BTree.ModestFits` | src/btree_index.rs:1932-1956 | a batch of no more fixed-width entries than one page holds never overflows |
| `BTree.NeverMisses` | src/btree_index.rs:1504-1704 | with exact separators a key inside the landing leaf's range never misses the leaf an insert is routed to |
| `BTree.DiskBTree.InsertMany` | src/btree_index.rs:1504-1704 | ends; unless it runs out of pages or panics, keeps separators exact and adds exactly the given pairs, none more often than it is given, and loses no row; out of pages only when there are none left, a panic only where a put of such entries bursts a page of a tree with part of them; if the entries are all different, leaves that ascend by key, then row id, go on ascending; never panics for at most one page of fixed-width entries, nor for entries of any kind within limits that fit the page, one by one and all together |
| `BTree.BatchSlim` | src/btree_index.rs:1872-1956 | merging a run of any key kind within such limits into its leaf neither panics nor leaves the limits |
| `BTree.DiskBTree.InsertEach` | src/btree_index.rs:2151-2154 | inserting one by one adds exactly the given pairs, none more often than it is given; never panics with fixed-width keys, nor within limits that fit the page; out of pages and panics as above |
| `Witnesses.BatchCanStall` | src/btree_index.rs:1858-1869 | for every page size, a sound tree with an inexact separator and a run on which a batch deals with no entry |
| `Witnesses.LooseBuilt` | src/btree_index.rs:2193-2228 | that tree is what a split and one removal leave |
| `Witnesses.GappyBuilt` | src/btree_index.rs:2331-2397 | the tree with an emptied leaf is what one removal leaves of a tree with exact separators |
| `Sizes.LeafHalvesFit` | src/btree_index.rs:287-309 | for Int and Bool keys a leaf that fitted before one more entry splits into fitting halves |
| `Sizes.InnerHalvesFit` | src/btree_index.rs:287-309 | the same for internal nodes |
| `Sizes.BatchHalvesFit` | src/btree_index.rs:1940-1956 | the halves of a batch split fit if and only if 7 + e * ceil(n/2) <= cap |
| `Sizes.BatchGuardTooWeak` | src/btree_index.rs:1940-1956 | 859 Int entries pass the guard on 8 KiB pages and need 8177 > 8164 bytes on the right |
| `Codec.KeyRound` | src/btree_index.rs:177-230 | every key under 64 KiB, text being UTF-8, decodes to itself wherever it stands |
| `Codec.RowsRound` | src/btree_index.rs:360-399 | every row list decodes to itself, payloads of any length included |
| `Codec.SepsRound` | src/btree_index.rs:400-418 | every separator list decodes to itself |
| `Codec.PageRound` | src/btree_index.rs:311-418 | deserialize undoes serialize for every node that fits, up to an all-empty payload list |
| `Codec.BodyBytes` | src/btree_index.rs:287-309 | `body_len` is the number of bytes laid out |
| `Codec.Serialize` | src/btree_index.rs:311-349 | the loops lay out the specified page |
| `Codec.Deserialize` | src/btree_index.rs:351-418 | the loops read what the page specifies, or fail on a short page or a text key that is not UTF-8 |
| `Redo.RedoIsForward` | src/btree_index.rs:2540-2594 | redo of a logical leaf insert on the page before it gives the bytes the forward path wrote, up to LSN and checksum |
| `Redo.ReplayReproduces` | src/btree_index.rs:2540-2594 | replaying any sequence of such records from a full image reproduces the final leaf |
| `Validation.Append` | src/btree_index.rs:2451-2464 | accepts a leaf's entries if and only if the keys so far never decrease |
| `Validation.WalkChain` | src/btree_index.rs:2437-2472 | on any pages: succeeds if and only if the leaf heads a chain without cycle whose keys never decrease, and returns its entries |
| `Validation.Validate` | src/btree_index.rs:2417-2474 | the same from the root, for a descent that ends |
| `Validation.WellFormedAccepted` | src/btree_index.rs:2399-2416 | every well-formed tree is accepted with exactly its pairs |
| `Validation.MisroutingUnseen` | src/btree_index.rs:2408-2410 | an accepted tree in which a lookup lands right of a stored key |
| `CrabbingSafety.Exclusive` | src/btree_index.rs:1311-1349 | no two threads hold one latch |
| `CrabbingSafety.NoGapBelow` | src/btree_index.rs:1349-1452 | under a latched node only its holder's own pending page can leave a gap |
| `CrabbingSafety.RootComplete` | src/btree_index.rs:1453-1480 | while the meta latch is held without a separator in hand, the root spans all keys |
| `CrabbingSteps.DuplicateStep` | src/btree_index.rs:1362-1367 | finding an exact duplicate keeps the invariant and accounts for the pair |
| `CrabbingSteps.LeafFitStep` | src/btree_index.rs:1394-1424 | the in-place leaf write keeps the invariant among any other threads |
| `CrabbingSteps.LeafSplitStartStep` | src/btree_index.rs:2196-2196 | allocating the right page keeps the invariant |
| `CrabbingSteps.LeafOverflowRooted` | src/btree_index.rs:1453-1462 | in every reachable state an overflowing leaf at the bottom of a stack is the root, with the meta latch held |
| `CrabbingWrites.InnerOverflowRooted` | src/btree_index.rs:1453-1462 | the same for an internal node |
| `CrabbingWrites.AbsorbFitStep` | src/btree_index.rs:1436-1447 | the absorbing write keeps the invariant among any other threads |
| `CrabbingWrites.WriteRightStep` | src/btree_index.rs:2218-2226 | the right-half write keeps the invariant |
| `CrabbingWrites.WriteLeftLeafStep` | src/btree_index.rs:2227-2228 | the left-half write of a leaf keeps the invariant, with one more pending page |
| `CrabbingWrites.WriteLeftInnerStep` | src/btree_index.rs:2256-2271 | the left-half write of an internal node keeps the invariant |
| `CrabbingWrites.WriteTopStep` | src/btree_index.rs:1463-1477 | writing the new root page keeps the invariant |
| `CrabbingWrites.RepointStep` | src/btree_index.rs:1478-1480 | repointing the meta page keeps the invariant and ends the root split |
| `Rewrites.EditAllKeeps` | src/btree_index.rs:2352-2386 | dropping, patching and adding entries between a leaf's keys keeps it sound, loses only the pairs named and brings in only the new ones |
| `Unlatched.WriteBackIff` | src/btree_index.rs:1211-1258 | whatever the threads do between the unlatched read of a leaf and its write-back, exactly one pair is replaced and no other count changes if and only if the leaf holds the pairs it held when it was read; it does if nobody wrote it in between |
| `Unlatched.InsertBetweenIsLost` | src/btree_index.rs:1211-1258 | an insert into the leaf in between is undone: its pair is stored once less |
| `Unlatched.PutBackTreeIff` | src/btree_index.rs:1236-1252 | the pages still form the tree if and only if what was read is a leaf that fits its place |
| `Unlatched.PutBackUndoesSplit` | src/btree_index.rs:1236-1252 | which it is not if the leaf was split since |
| `Unlatched.PutBackSafeIff` | src/btree_index.rs:1236-1252 | written back unchanged but for one row id, the leaf keeps the invariant of all threads if and only if none of them has a snapshot of it |
| `UnlatchedRuns.WriteBackCanLosePair` | src/btree_index.rs:1201-1258 | from a new tree of any page size, a story in which a pair that was asked for and written is gone |
| `UnlatchedRuns.WriteBackCanUndoSplit` | src/btree_index.rs:1201-1258 | from a new tree of any page size, a story in which a split is undone and the pages form no tree of any depth |
| `CrabbingLeaves.RunMerged` | src/btree_index.rs:1872-1935 | the part of a sorted run between a leaf's keys merges into a sound leaf that adds exactly those pairs |
| `CrabbingLeaves.MergeFitStep` | src/btree_index.rs:1912-1931 | a batch inserter's in-place merge keeps the invariant among any other threads |
| `CrabbingLeaves.MergeSplitStartStep` | src/btree_index.rs:1932-1944 | so does the start of its split, which then climbs like any other |
| `CrabbingLeaves.SeekStep` | src/btree_index.rs:787-807 | an unlatched read on the way to a leaf keeps the invariant |
| `CrabbingLeaves.LatchLeafStep` | src/btree_index.rs:2349-2355 | latching the leaf found so keeps it, although the leaf may have split since |
| `CrabbingLeaves.RewriteLeafStep` | src/btree_index.rs:2362-2386 | rewriting the latched leaf keeps it, and every row the edits do not take away |
| `CrabbingLeaves.RightLeafStep` | src/btree_index.rs:2388-2393 | letting go of the leaf before waiting for the next one keeps it |
| `CrabbingRuns.StepKeeps` | src/btree_index.rs:1299-1483 | every step of every thread, inserter, batch inserter or one-leaf writer, keeps the invariant (snapshots equal stored pages, values in range, latches owned, pairs = initial + written - taken away) and moves the rows it does not take away only right |
| `CrabbingRuns.RunKeeps` | src/btree_index.rs:1299-1483 | so does every schedule, up to what it takes away |
| `CrabbingRuns.RunAccounted` | src/btree_index.rs:1299-1483 | after every schedule each requested pair is written or carried by a thread, and nothing else is written but pairs of runs and rewrites |
| `CrabbingRuns.QuietRun` | src/btree_index.rs:1299-1483 | whatever the interleaving, at quiescence nothing is pending and the tree has the initial and the written pairs, less those taken away; written are all requested pairs and beyond them only pairs of runs and rewrites |
| `CrabbingRuns.EveryQuietRun` | src/btree_index.rs:1299-1483 | from a fresh tree: at quiescence the tree is well formed with those pairs; with single inserts only, exactly the requested ones |
| `Ledger.StepConserves` | src/btree_index.rs:1299-1483 | every step of every thread changes how often each pair is stored by exactly what it adds and removes |
| `Ledger.RunConserves` | src/btree_index.rs:1299-1483 | so does every schedule: stored after + removed = stored before + added, with multiplicity |
| `Ledger.ExactAccount` | src/btree_index.rs:1299-1483 | from a tree at rest, after any schedule, a pair is found if and only if it was removed less often than it was stored and added |
| `Ledger.FreshAccount` | src/btree_index.rs:1299-1483 | from a fresh tree, at quiescence, the well-formed tree holds exactly the pairs added more often than removed; one taken away and written again is there |
| `Readers.ReadKeeps` | src/btree_index.rs:778-847 | one latch-free read never fails and keeps every wanted row collected or ahead |
| `Readers.HistoryKeeps` | src/btree_index.rs:778-847 | so does every history of reads and writer steps, for rows that are not taken away |
| `Readers.ReaderMissesNothing` | src/btree_index.rs:778-847 | a finished lookup holds every hit stored when it began that was not taken away meanwhile, and nothing that is neither stored nor was taken away meanwhile |
| `Readers.ReaderNeverStuck` | src/btree_index.rs:778-847 | no history leaves a lookup without a next read |
| `ReaderEnds.LevelBound` | src/btree_index.rs:787-807 | no tree is higher than there are page ids |
| `ReaderEnds.EveryLookupEnds` | src/btree_index.rs:778-847 | among any writers, however many steps they take, a lookup makes at most twice as many reads as there are page ids, and three more |
| `Deadlock.WaitsBelow` | src/btree_index.rs:1311-1349 | in every reachable state every thread, inserter, batch inserter or one-leaf writer, waits only for a latch strictly below all it holds |
| `Deadlock.NoDeadlock` | src/btree_index.rs:1795-1818 | while page ids last, some unfinished thread can step |
| `CrabbingEnds.BudgetFalls` | src/btree_index.rs:1299-1483 | every step that begins no job lowers a natural number fixed by the state |
| `CrabbingEnds.RunSpends` | src/btree_index.rs:1299-1483 | a schedule without new jobs is no longer than that number |
| `CrabbingEnds.EveryInsertArrives` | src/btree_index.rs:1299-1483 | after any schedule there is a bound such that every continuation without new jobs is at most that long, and once none can go on the tree is well formed with every requested pair that was not taken away and nothing not asked for or offered; exactly, with the pairs added more often than removed; with single inserts only, the requested pairs |
| `Pool.BufferPool.constructor` | src/bufferpool.rs:363-420 | an opened pool satisfies the pool invariant, and no page is loose: dirty in no frame and yet different on disk |
| `Pool.BufferPool.SetFrontier` | src/bufferpool.rs:580-585 | the frontier only moves forward |
| `Pool.BufferPool.Flush` | src/bufferpool.rs:724-782 | writes the page back and cleans its frame, unless the page is ahead of the log or the pool is poisoned; exact outcome of each case; with frontier zero nothing is compared, and no page on disk is ahead of the log afterwards if and only if this one was not |
| `Pool.BufferPool.TakeFrame` | src/bufferpool.rs:876-900 | a victim is clean when it is handed out; that fails exactly if it is dirty and the pool poisoned or the write-back failing; no page becomes loose |
| `Pool.SweepStep` | src/bufferpool.rs:861-874 | what one tick of the clock keeps |
| `Pool.ClockCovers` | src/bufferpool.rs:861-874 | one turn of the hand passes every frame |
| `Pool.BufferPool.Sweep` | src/bufferpool.rs:861-904 | two turns find a victim if and only if some frame may be taken, given the write-back succeeds; it is the first frame from the hand on that is idle, that is, unpinned, not held back and not used since the hand was there, or, if none is idle, the first that may be taken |
| `Pool.PickedOnce` | src/bufferpool.rs:861-904 | that leaves no choice: one frame at most is picked |
| `Pool.BufferPool.FindVictim` | src/bufferpool.rs:841-904 | grows below capacity, else sweeps; full only if no frame may be taken; pinned frames stay; fails only if the frame picked is dirty |
| `Pool.InstallKeeps` | src/bufferpool.rs:644-675 | the page table matches the frames one to one after a replacement |
| `Pool.BufferPool.Fetch` | src/bufferpool.rs:644-675 | hands out the page's bytes, pins it and marks it as used; a page in no frame gets a new frame or the one the clock picks; no other pinned page is displaced; the loose pages stay the same |
| `Pool.BufferPool.Unpin` | src/bufferpool.rs:785-792 | lowers one page's pins, never below zero |
| `Pool.BufferPool.WritePage` | src/bufferpool.rs:698-714 | a framed page is changed, dirty, and its cached LSN is the page's; an unframed page is changed in memory only, and is loose from then on if and only if the disk lacks those bytes; the pool invariant holds either way |
| `Pool.OnlyPins` | src/bufferpool.rs:683-693 | with the frontier at the end of the log, a frame that may not be taken is pinned |
| `Pool.BufferPool.FetchForWrite` | src/bufferpool.rs:683-693 | hands out the page, pins it and marks it as used, displaces no other pinned page, and reports full only if every frame is pinned |
| `Pool.BufferPool.FlushAll` | src/bufferpool.rs:794-812 | on success exactly the loose pages differ on disk, and these stay the same; none is ahead of the log if and only if no dirty frame was; no pin changes; frontier zero holds nothing back |
| `Durability.StepKeeps` | src/checkpoint.rs:26-83 | with writers between the steps of a checkpoint: every step keeps that disk pages are prefixes of the durable log, images are true, and the flush has written all but what it missed; except exactly the flush that compares with a durable LSN of 0 |
| `Durability.RunKeeps` | src/checkpoint.rs:26-83 | so does every run without such a flush |
| `Truncation.StepDiscards` | src/checkpoint.rs:71-75 | a truncation discards exactly what lies before both the checkpoint record and the retained position |
| `Truncation.RunDiscards` | src/checkpoint.rs:71-75 | over any run, a record is discarded if and only if some truncation was behind it |
| `Truncation.NothingNeededGoes` | src/checkpoint.rs:71-75 | no run discards a record at or after every retained position, or one that recovery reads |
| `Truncation.SlotsKeepIff` | src/lib.rs:1157-1177 | no slot loses a record it has yet to stream if and only if the one furthest behind is within the cap, or not behind the checkpoint |
| `Truncation.TruncateBefore` | src/wal.rs:1364-1404 | exactly the sealed segments whose successor reads as starting at or before the position are removed; the active one stays |
| `Truncation.SparesIff` | src/wal.rs:1364-1404 | truncation spares every record from the position on if and only if no segment with such a record is followed by one whose header cannot be read |
| `Truncation.ReadableSuffix` | src/wal.rs:1364-1404 | with readable headers a suffix of the segments stays, and no segment that could go |
| `Truncation.GarbledHeaderLosesRecords` | src/wal.rs:197-209 | segments of which one with records still to be streamed goes, since the next one's header is garbled |
| `Durability.CoveredIff` | src/checkpoint.rs:45-61 | what the checkpoint lets recovery skip of a page is all on disk if and only if no change of it, logged before the checkpoint record, was missed by the flush and not written back since |
| `Durability.ImageBeforeInsertIff` | src/bufferpool.rs:502-528 | in every run, a logical insert has a whole image of its page in the interval of tracking it falls into if and only if the record that got the page tracked was logged since the last clear before the call of `maybe_log_fpi` returned, and tracking was not cleared since |
| `Durability.ImageOnce` | src/bufferpool.rs:502-528 | in every run a full-page image shows its page as it was and is the first whole image of it since tracking was cleared |
| `Durability.LatchKeeps` | src/bufferpool.rs:498-501 | a page has one writer between the call and the insert |
| `Durability.SurvivorFacts` | src/recovery.rs:55-62 | after a crash each disk page is the page after a prefix of the surviving log |
| `Recovery.TornPageRepairedIff` | src/recovery.rs:113-137 | the redo pass over committed records rebuilds a page, whatever the crash left of it, if and only if it redoes a whole image and every change after the last one |
| `RecoveryRuns.TornRuns` | src/bufferpool.rs:502-528 | the run of the next row is reachable |
| `RecoveryRuns.TornPageCanStay` | src/recovery.rs:113-137 | there the page may be on its way to disk, and stays as torn as it is |
| `Recovery.RecoveryExactIff` | src/recovery.rs:63-137 | after a crash at any step of any run, redo of committed records from the checkpoint record on rebuilds a page exactly if and only if it redoes every change to it after its last redone image, or after its LSN on disk |
| `Recovery.CheckpointSafeIff` | src/recovery.rs:63-137 | of a page whose changes since the checkpoint all committed, recovery is exact if and only if a whole image of it is redone or the checkpoint's flush missed none of its changes |
| `Recovery.RedoAllExactIff` | src/recovery.rs:63-80 | redoing the records of all mini-transactions would not help: exact if and only if the flush missed no change or the log has a whole image since the checkpoint |
| `RecoveryRuns.OverlapRuns` | src/lib.rs:6069-6083 | the run of the next row is reachable |
| `RecoveryRuns.CheckpointCanLoseCommitted` | src/checkpoint.rs:45-61 | there a committed change whose records are durable is lost |
| `RecoveryRuns.ClearedRuns` | src/checkpoint.rs:51-55 | the run of the next row is reachable |
| `RecoveryRuns.ClearedImageIsMissing` | src/bufferpool.rs:502-528 | there a committed insert has no image since tracking was cleared, and a torn page stays torn |
| `RecoveryRuns.FirstCheckpointCanBreakWal` | src/bufferpool.rs:741-748 | a reachable run that puts a page on disk whose record is not durable |
| `RecoveryRuns.TakenForCommittedIff` | src/recovery.rs:63-80 | after a restart, a record from before it is redone if and only if it was redone already, or a mini-transaction with its number has committed since |
| `RecoveryRuns.FirstLifeRuns` | src/wal.rs:500-516 | the first life of the next rows is reachable |
| `RecoveryRuns.SecondLifeRuns` | src/wal.rs:500-516 | so is the second, after the restart |
| `RecoveryRuns.RestartCanRedoUncommitted` | src/recovery.rs:63-137 | the next recovery redoes an image that never committed over a leaf nobody touched since |
| `RecoveryRuns.InterleavedRuns` | src/recovery.rs:113-137 | the run of the next row is reachable |
| `RecoveryRuns.RecoveryCanLoseAnInsert` | src/recovery.rs:617-670 | there, redo rebuilds a leaf that lacks an insert a committed one was made on |
| `Skipped.SecondInsertAlone` | src/btree_index.rs:2540-2594 | on the bytes: with the first of two inserts missing the second is dropped if and only if its position is out of range, else put there, and the leaf stays in key order if and only if it does not step over a greater key |
| `Skipped.OrderCanBreak` | src/btree_index.rs:2540-2594 | a leaf that ends up out of key order |
| `Recovery.SkippedTrace` | src/recovery.rs:113-137 | a change that is not redone is in a recovered page if and only if the disk had it and no image is redone, or the last image redone shows it |
| `Recovery.SplitKeepsPairsIff` | src/btree_index.rs:2204-2228 | a leaf of any image and inserts, all on disk or redone, and a split of it that did not commit, whose halves hold its pairs and the new one: every pair of the leaf is still in one of the two pages, unless no whole image of the leaf is redone, the left half is on disk and the right half is not; and only then |
| `RecoveryRuns.LeafSplitPairs` | src/btree_index.rs:2176-2228 | the halves of every leaf split meet that: together they have all pairs and the new one, and if the leaf had two at least, all different, the left half lacks one |
| `RecoveryRuns.SplitRuns` | src/btree_index.rs:2204-2228 | the run of the next row is reachable |
| `RecoveryRuns.SplitCanLosePairs` | src/recovery.rs:113-137 | there, exactly the pairs that the left half lacks are lost |
| `Chains.Cut` | src/catalog.rs:1363-1443 | cutting a blob gives non-empty pieces of at most the given size that join to it, as many as the length divided by the size, rounded up |
| `Chains.Collect` | src/catalog.rs:686-711 | the loop returns the chunks along the chain, or fails at a bad page |
| `Chains.ChainReads` | src/catalog.rs:686-711 | a chain whose pages are in place reads back as the blob |
| `Catalogs.LoadFrame` | src/catalog.rs:686-711 | reading a catalog depends only on the pages of its chain |
| `Catalogs.Load` | src/catalog.rs:648-671 | fresh, chained and old single-page catalogs, and broken ones |
| `Catalogs.OldFormatLoads` | src/catalog.rs:667-670 | a JSON object that is the whole root page loads as itself |
| `Catalogs.ChainIsFollowed` | src/catalog.rs:656-665 | a root page written as a chain page is followed, whatever its chunk |
| `Catalogs.FreshUntilFlip` | src/catalog.rs:649-651 | until a first catalog is persisted a new system loads as one without tables, now and after any crash |
| `Catalogs.CatalogStore.Persist` | src/catalog.rs:1363-1443 | for every non-empty blob and page size: fails if and only if a page has no room for a chunk, or the blob takes more pages (its length by the chunk size, rounded up) than there are ids left, and then changes no page and no root; else a run of the machine that leaves old pages untouched, writes so many fresh ids, each payload within its slot, and ends with the root loading the blob |
| `Catalogs.CrashIsAtomic` | src/catalog.rs:1363-1443 | a crash anywhere in any run of persists, syncs and write-backs, with any part of the log beyond the durable prefix kept: recovery and load give exactly the catalog of the last flipped root |
| `Catalogs.StepKeeps` | src/catalog.rs:1403-1443 | every step keeps the invariant: each page id is written once, its record holds its bytes, and the root's chain is in memory |
| `Catalogs.StepSafe` | src/catalog.rs:1430-1441 | every step but a checkpoint keeps the current catalog on disk or in durable committed records; the flip makes the new one so, because its commit is durable |
| `Catalogs.RecoveredIs` | src/recovery.rs:113-137 | recovery has exactly the pages that are on disk or have a committed record in the replayed log, with the bytes they had |
| `Catalogs.CrashLoadsIff` | src/catalog.rs:648-683 | after a crash the catalog loads as it was if and only if each of its pages is so kept |
| `Catalogs.PersistRuns` | src/checkpoint.rs:26-83 | the run of the next row is reachable |
| `Catalogs.CheckpointCanLoseCatalog` | src/checkpoint.rs:26-83 | a persisted catalog that a checkpoint and a crash make unloadable, since its page had no frame |
| `Catalogs.CatalogStore.Save` | src/catalog.rs:648-683 | after persisting a catalog, loading it, now or after a crash with any part of the log beyond the durable prefix kept, gives the same tables with every row count unknown; fails exactly as above |
| `Catalogs.EmptyIsSafe` | src/catalog.rs:648-671 | a new system satisfies the invariant and its missing catalog is safe |
| `Lobs.Fill` | src/large_object.rs:137-147 | whatever the reads return, a chunk is full unless the stream ends |
| `Lobs.LobStore.AddChunk` | src/large_object.rs:151-166 | storing and indexing one chunk extends the object by it and touches no other object; fails only when row ids or page ids are used up, or the index insert bursts a page, which an index as it is made never does |
| `Lobs.LobStore.WriteStream` | src/large_object.rs:120-172 | for a fresh id and every pattern of short reads: chunks 0..m-1, all full but possibly the last, joining to the stream; the length is returned; other objects unchanged; with an index as it is made, fails only when row ids or page ids are used up |
| `Lobs.SortedIsOrder` | src/large_object.rs:175-199 | sorted by number, the i-th row is chunk i, whatever order the index yields |
| `Lobs.LobStore.ReadStream` | src/large_object.rs:203-229 | returns the joined chunks, hence the stream that was written |
| `Lobs.StillHolds` | src/large_object.rs:203-229 | writing another object leaves this one readable |
| `Centroids.ReadPage` | src/disk_vector.rs:301-312 | a centroid page reads back its link and floats |
| `Centroids.SliceFull` | src/disk_vector.rs:240-246 | every page of the table is full but the last |
| `Centroids.LayOut` | src/disk_vector.rs:229-250 | the page chain holds the flat table; no other page is touched |
| `Centroids.CutFlattened` | src/disk_vector.rs:317-320 | cutting the flat table into rows undoes flattening |
| `Centroids.LoadCentroids` | src/disk_vector.rs:295-320 | for every dimension, list count and page size the chain reloads to the trained table; a wrong length is an error |
| `Vectors.NearestCentroid` | src/disk_vector.rs:116-127 | the first of the cells nearest to the vector |
| `Vectors.OneCell` | src/disk_vector.rs:116-127 | a vector has one cell |
| `Vectors.NearestCells` | src/disk_vector.rs:365-375 | the probed cells are different and none is farther than a cell left out |
| `Vectors.DiskIvf.constructor` | src/disk_vector.rs:211-268 | an index over the trained table, nothing stored, postings exact |
| `Vectors.DiskIvf.Insert` | src/disk_vector.rs:324-334 | the row id is posted under its vector's cell, unless the leaf the insert lands on has that very posting; exact postings (every row once, under its cell) stay exact for a new row id, and for one stored before if and only if that posting is met; fails only when page ids are used up or the insert bursts a page, which payload-free postings on real page sizes never do |
| `Vectors.LookupTimes` | src/disk_vector.rs:376-379 | a lookup of a cell returns a row id as often as it is posted there |
| `Vectors.DiskIvf.Candidates` | src/disk_vector.rs:353-379 | each row id as often as it is posted under the probed cells; with exact postings, the stored rows of those cells, each once, and all rows if all cells are probed |
| `Vectors.DiskIvf.Search` | src/disk_vector.rs:386-405 | the first k of the fetchable candidates by distance, each as often as it is a candidate; with exact postings, the k nearest of the probed cells, nearest first, with true distances |
| `Vectors.DiskIvf.SearchAll` | src/disk_vector.rs:386-405 | probing all cells of an index with exact postings: the true k nearest stored rows |
| `Vectors.InsertAgain` | src/disk_vector.rs:324-379 | in every index with exact postings, a stored row inserted again with a vector of another cell comes back twice |
| `Vectors.TwoCells` | src/disk_vector.rs:324-379 | such an index, with two cells, and the calls |

## Left out

- Batch operations on trees with payloads: the source drops or misaligns payloads there (`src/btree_index.rs:1647`, `1686-1690`, `1922-1926`); the batch members require a payload-free tree.
- Crabbing.Next: a half larger than its page is written all the same in the concurrent model; the panic is modelled in `BTree`. A batch that meets a leaf with payloads gives up there.
- BTree.DiskBTree.PatchMany: when some old pair is not where a read of its key lands, it does not say which patches are still made in place, since that depends on splits by earlier ones; it says that each exchanges one row or adds at most one.
- BTree.DiskBTree.InsertMany: requires exact separators; without them it need not end (see above).
- Validation.Validate: requires that the descent along first children ends; on a cycle of internal pages the source does not return.
- `remove` of the vector index.
- Catalogs.CatalogStore.Persist: when page ids run out it takes none of those left; the source takes them one by one and does not give them back. Page ids of one chain are consecutive.
- In `Truncation` the position of a slot and the current LSN are given; how slots advance is not modelled.
- Lobs.LobStore.ReadStream: every chunk row is visible; MVCC visibility and `delete` of large objects are not modelled.
- In the concurrent model a rewrite of several entries is one list of edits chosen freely between the leaf's keys; which edits `remove` or `patch_many` choose is in `BTree` and `Patches`. There is one unlatched patch at a time, its descent is not modelled, and the durability machine has every writer hold the page's latch.
- A latch-free page read is one step: a read torn by a concurrent write of the same page is not modelled.
- In the durability machine one checkpoint runs at a time and its flush is one step, as the pool's lock makes it; marking a page dirty and tracking its image are one step with writing it.
- Of a restart the machine has the pages recovery rebuilt and the numbering from 1; the theorems about recovery are about the log of one life.
- Heap pages, slotted pages, undo, MVCC and user transactions: recovery is modelled for index pages only.
- CRC, mmap, file growth, group commit, fault injection beyond a failing write-back, metrics and prefetch hints.
- `restore_page_image`, the control file codec (a plain record here), and JSON encoding of the catalog (a decoder that undoes an encoder).
- Training of centroids and f32 arithmetic: any table of equal-length rows, and any real-valued distance, so no NaN and no overflow to infinity.
- Catalog setters, named types, triggers, policies; `csr_index`, `fulltext`, `cron`, `metrics`, `autovacuum`: small or finite-domain code that would only add easy members.
