# A verified model of the copy-on-write page B+tree

This project models `pagebtree`, a copy-on-write B+tree over numbered 4096-byte pages whose retired
pages are pinned by readers, and `btree`, the smaller B-tree of linked nodes beside it, and proves
what their code and documentation promise. `dafny verify dfyconfig.toml` checks it all.

## How the model is laid out

The store is a map from page ids to pages; a page is what its bytes decode to: a leaf (entries and
the link to the next leaf), a branch (separators and children) or an overflow page. `Trees.Tree` is
the tree object with the fields the program has. It carries a ghost `shape`, the tree that its
pages spell out, and one ghost `Pin` for each open snapshot. The predicates that matter:

- `Nodes.Rep`: the pages below an id spell out a given tree. Every separator is the first key of
  the child to its right, by definition, and every value is inline or in a chain of overflow pages.
- `Nodes.Balanced` and `Nodes.Full`: uniform depth, at most 2d-1 keys in a page, at least d-1 in a
  branch and at least `lo` in a leaf. `lo` is a ghost parameter: d-1 when every pair is small enough
  that 2d-1 of its cells fit a page (`Pages.SmallPair`), 1 when every key is within the bound of
  `Pages.KeyFits`, and 0 for any keys at all. With 0 no leaf is empty and no branch without a child,
  and nothing more is kept, as branches whose keys do not share a page are not joined.
- `Pages.Owns`: page conservation. The allocated ids are, each exactly once, free, retired or live,
  or in a mapped file one of the pages that syncs saved lists on (the ghost field `listPages`).
- `Pages.Frame`: what any staged step may do to the store. It writes only pages it took from the
  free list or the end of the file, and retires at the current revision.
- `Invariants.Held` and `Invariants.PinOk`: no page of an open snapshot can be handed out, is
  retired below the snapshot's revision, or differs from when the snapshot was taken.
- `Invariants.WellFormed`: all of this between two calls, and the leaf links spell the leaves in
  order whenever no in-process reader is open.

Contents are sorted sequences of pairs; `Contents` connects them to finite maps, so that `Put` is
proved to be a map update and `Delete` a map removal.

| Files | What they hold |
|---|---|
| `KeyOrder`, `Seqs`, `Contents`, `Ranges` | comparators, sorted sequences and maps, range reads with a visitor that may stop |
| `Pages`, `Nodes`, `Tree`, `Overflow`, `Forests` | the store, what pages spell out, page primitives, overflow chains |
| `Splits`, `LeafPages`, `Branches`, `Routing`, `Capacity`, `Insert` | insertion, and exactly when it fits the pages |
| `Layouts`, `Delete` | deletion: borrowing, merging, redistributing, dropping empty leaves, and the leaves that result |
| `Freelist`, `LeafLinks`, `Invariants`, `Updates`, `Snapshots`, `Runs` | recycling, whole operations, snapshots, whole runs |
| `Batches`, `Transactions` | atomic batches, optimistic transactions |
| `Search`, `LinkedScans`, `Cursors`, `PageCache` | readers |
| `Integrity`, `Acceptance`, `Audits` | the validator: soundness and completeness |
| `LittleEndian`, `SlottedPage`, `MetaPages`, `ChainBytes` | bytes of pages |
| `Reclaim`, `Recovery`, `Reopening` | saved free and retired lists, the choice of the root to recover, a sync and a reopen |
| `ReaderTable` | the slots that processes share |
| `Cases` | concrete trees at which the limits below show |
| `BTree` | `btree` |

Things that come from outside are parameters: the comparator (any strict total order), the visitor
of a range read (a function of the pairs seen so far), what the reader table reports, which
processes run, the checksum (any function to 32 bits), the set of pages whose checksum is wrong, the
id at which growing a mapped file fails (`growLimit`; none for a memory tree), and the number of
entries that a list can be given room for. An allocation that fails, a page that overflows and an
index out of range panic in the program; here they are `Panic` results.

## What the code demands, and where it falls short

- Degree is at least 2. Any pair may be put, but a put can panic, for two causes. A page may not hold
  its cells (pagebtree/insert.go:221-223, pagebtree/insert.go:264-266). And an empty value may be sent
  to a chain, which is an index out of range as it has no first page (pagebtree/overflow.go:58-84):
  at once if the key has more than 2040 bytes, or when its turn comes in the loop that spills the
  largest inline values (pagebtree/insert.go:217-226). `Updates.Put` says exactly when a put in memory
  panics: `Capacity.Takes` tells it from the keys and cell sizes on the way to the leaf. For one leaf
  the condition is `LeafPages.LeafTakes`, and for an empty tree it is `Pages.Storable`: a key of at
  most 4048 bytes, and of at most 2040 for an empty value. No other pair is ever stored by a put, a
  batch or a transaction, whatever else is in the tree. `Cases.EmptyValuePanics` and
  `Cases.TwoHalvesPanic` are two runs that end in such a panic.
- No put panics in memory if every key leaves room for 2d-1 cells with overflow references,
  20 + (2d-1)(28 + |key|) <= 4096; this is `Pages.KeyFits`, and `Pages.KeyFitsMeaning` has the formula.
- A batch that panics rolls back, in memory to exactly the saved state: `Batches.CommitDetailed`,
  `Cases.EmptyValueRollsBack`, `Cases.UnstorableRollsBack`.
- Least fill after a deletion is not kept for large pairs: when two leaves do not fit one page, they
  are divided, and with fewer than 2d-2 entries one of them ends below d-1 keys. `Updates.Delete`
  says exactly when: leaves stay at least half full if and only if the leaf that loses the key had
  more than d-1 keys or no other, or what is left of it and of the neighbour it is joined with fits
  one page or makes at least 2d-2 entries (`Deletion.SiteKeeps`). `Cases.DeleteUnderfills` is a tree
  and a deletion at which it fails.
- The program's own audit (pagebtree/integrity.go:369-371) refuses such a tree. `Audits.Audit` has
  the exact verdict on every well-formed tree: it passes if and only if every page below the root
  has d-1 keys and no page was retired at revision zero. Under the key bound only leaves can have
  fewer (`Updates.HalfFullMeans`).
- A sync writes a record for any tree, and recovery refuses some of them. A reopen takes what was
  synced if and only if every page below the root has d-1 keys and the leaf links spell the leaves
  (`Reopening.SyncAndReopen`); what it takes is a well-formed tree again, which can be updated and
  synced as before (`Reopening.Resume`). A leaf can be too empty (`Cases.UnderfullIsRefused`), and links can be
  stale while an in-process snapshot is open (`Cases.StaleLinksAreRefused`).
- A panic in `Put` or `Delete` outside of a batch leaves the tree well-formed if and only if no page
  was free and the file could not grow, so that nothing was done at all (`Updates.Put`,
  `Updates.Delete`). Otherwise the root is retired although it is still the root, or a page of an
  empty tree is lost: `Cases.TwoHalvesPanic` and `Cases.EmptyValuePanics` are runs in memory, and
  `Cases.PutOnLastPage` is a tree in a full file. Only batches roll back, and a run therefore ends at
  such a panic.
- A page can be retired at revision zero: `Cases.RetiredAtZero` does it with an empty tree, an open
  snapshot and a batch of two puts. Such a page comes back from a saved list as a free page, and
  fails the audit; `ReclaimChains.RecordsRoundTrip` and `Audits.Audit` state both exactly.
- A metadata page that refers to a chain where a reader expects the pages themselves does not read
  back: `MetaPages.WriteReadRoundTrip` says exactly which records do, and
  `MetaPages.WrittenAndRefused` has one that does not. A sync never writes such a record
  (`Reopening.PreparedReadsBack`).
- A metadata page of an older version with a count of 2^63 or more makes reading panic
  (pagebtree/mmap.go:1657-1658); `MetaPages.ReadMetaPage` says exactly when.
- `WriteBatch.DeleteRange` compares its bounds as byte strings (pagebtree/batch.go:102) although the
  tree may have another order. `Batches.DeleteRangeClearsIff` says exactly when a committed range
  deletion clears the range; `ReadWriteTx.DeleteRange` always does.
- `ErrTreeInvariant`, `ErrFreelist` and the other errors of a failed validation are one failure here.

## Model

| member | source | states |
|---|---|---|
| Runs.Run | pagebtree/tree.go:81-87 | over every run of puts, deletes, batches, reads, snapshot opens and closes, whatever the keys, everything observed is what an abstract map with views per snapshot shows; unless a single update panicked the tree ends well-formed, so no page leaks and none is retired or freed twice. An action panics only if at that step the file has a limit or a key is past the bound, and always if it puts a pair that is not storable |
| Runs.RunFromEmpty | pagebtree/tree.go:48-60 | the same from a new tree of any degree; unless a single update panicked, leaves end at least half full if all pairs are small |
| Runs.Step | pagebtree/snapshot.go:28-33 | one action refines one abstract action, and open snapshots keep what they showed when taken |
| Runs.RunBatch | pagebtree/batch.go:142-202 | a batch of any operations in a run is one abstract step, or none if it panicked; if it puts a pair that is not storable it always does |
| Runs.IntervalMeans | pagebtree/tree.go:126-156 | a range read asks for all pairs, those from a key on, or those from a key on and below another |
| Contents.UpsertIsMapUpdate | pagebtree/tree.go:81-87 | putting a key into the sorted pairs updates the map at that key only |
| Contents.RemoveIsMapRemoval | pagebtree/delete.go:16-22 | deleting a key removes exactly that key from the map |
| Contents.LookupIsMapLookup | pagebtree/tree.go:70-75 | looking a key up in the sorted pairs is looking it up in the map |
| Contents.SortedIsCanonical | pagebtree/tree.go:126-134 | two sorted sequences with the same map are equal |
| KeyOrder.PersistedOrdersAreStrict | pagebtree/key_order.go:9-25 | the bytewise order and its reverse are strict total orders |
| KeyOrder.FirstDifferenceDecides | pagebtree/key_order.go:9-25 | bytewise order compares unsigned bytes at the first place where two keys differ, and puts a proper prefix first; the reverse order turns it round |
| Trees.Tree.constructor | pagebtree/tree.go:48-60 | an empty tree of normalised degree whose store owns no page |
| Trees.Tree.AllocPage | pagebtree/tree.go:245-262 | takes the page freed last, grows the file only if none is free, and makes the page live; a panic changes nothing |
| Trees.Tree.CopyPage | pagebtree/tree.go:264-271 | the copy is on an available page, the original is retired, and no page in use is written |
| Trees.Tree.RetirePage | pagebtree/freelist.go:37-42 | a live page joins the retired list at the current revision |
| Overflow.WriteOverflowChain | pagebtree/overflow.go:62-84 | the value is held by a linked chain of newly taken pages, as few as its length needs; in memory it panics if and only if the value is empty |
| Overflow.ChunksFormChain | pagebtree/overflow.go:62-84 | pages holding consecutive pieces of a value form a chain that holds the value |
| Overflow.ReadOverflowChain | pagebtree/overflow.go:125-136 | reading a chain gives back what it holds, cut at the referenced length |
| Overflow.ResolveValue | pagebtree/overflow.go:117-123 | the value of a cell reads back byte for byte, inline or not |
| Overflow.RetireOverflowValue | pagebtree/overflow.go:138-149 | exactly the pages of the replaced value's chain leave the live pages |
| LeafPages.EncodeEntry | pagebtree/overflow.go:44-49 | a new value stays inline exactly if its cell takes at most half a page, and goes to a chain otherwise; a cell read back stays as it is; the cell stands for the same pair; in memory it panics if and only if the value is empty and large with its key |
| LeafPages.EncodeEntries | pagebtree/insert.go:203-213 | the same for the entries of a leaf; in memory it panics if and only if one of them does |
| LeafPages.Spill | pagebtree/insert.go:217-226 | one inline value goes to a chain and the pairs stay; in memory it panics if and only if the value is empty |
| LeafPages.LargestInlineLeafEntry | pagebtree/insert.go:240-254 | the first one of the largest inline cells, and no answer means that every cell is a reference |
| LeafPages.SpilledValueIsLarge | pagebtree/insert.go:203-227 | under the key bound a leaf that does not fit has a value of more than 20 bytes to spill |
| LeafPages.WriteEncodedLeafEntries | pagebtree/insert.go:229-238 | succeeds exactly if the cells fit a page |
| LeafPages.WriteLeafEntries | pagebtree/insert.go:203-227 | the spill loop ends with a page that spells the same pairs; values go to chains largest first, and the last one that went was needed; in memory it panics if and only if an empty value is large with its key, or the page takes the cells at no turn before an empty one is due; under the key bound it never does |
| LeafPages.OnePairTaken | pagebtree/insert.go:203-227 | a leaf takes a single pair if and only if it is storable |
| Splits.LeafSplitIndex | pagebtree/insert.go:58-97 | among the admissible cuts the difference of the page bytes of the two halves is least, and this is the first such cut |
| Splits.HeldBytesAre | pagebtree/insert.go:99-101 | an entry weighs what its cell takes: with the value inline for a new one, as it is for one read back |
| Splits.WeightIsBytes | pagebtree/insert.go:77-97 | header and weights together are the bytes of the leaf page |
| Splits.BranchSplitIndex | pagebtree/insert.go:148-173 | the promoted separator leaves both branches within limits with the least difference of page bytes, and is the first such |
| Branches.MustWriteBranchParts | pagebtree/insert.go:256-269 | panics exactly if the separators do not fit a page |
| Branches.SeparatorsOfFit | pagebtree/insert.go:256-269 | under the key bound a branch of 2d children fits a page |
| Insertion.Insert | pagebtree/insert.go:17-24 | refines insertion into the sorted pairs for any key, unless it panics; old value returned; depth, order, fill, separators and ownership kept; at most one split. In memory it panics, splits and hands up a separator exactly as told from the tree before |
| Insertion.InsertLeaf | pagebtree/insert.go:26-56 | the same for a leaf: replacement retires the old value's chain, a full leaf splits |
| Capacity.GrowthMeans | pagebtree/insert.go:46-56 | unless a page overflows, a leaf is divided exactly if it would hold more than 2d-1 pairs, and a branch exactly if it would have more than 2d-1 keys |
| Insertion.SplitLeaf | pagebtree/insert.go:46-56 | both halves are full, hold all pairs in order, and no other admissible cut makes their page bytes less different, nor does an earlier one make them as little different |
| Insertion.InsertBranch | pagebtree/insert.go:110-146 | the same for a branch; separators stay the first keys although they are not recomputed |
| Insertion.SplitBranch | pagebtree/insert.go:131-145 | the promoted key is the right branch's first key, both branches are full, and the page bytes of the two balance best |
| Routing.SearchSlot | pagebtree/page.go:400-414 | binary search lands on the first key not below the target, and finds it if it is there |
| Routing.ChildIndex | pagebtree/search.go:307-313 | the slot after an equal separator, else the slot found |
| Routing.ChildForSplits | pagebtree/search.go:315-321 | separators up to the chosen child are at most the key, later ones above it |
| Routing.ChildIsRouted | pagebtree/search.go:315-321 | in an ordered tree the chosen child is the one whose pairs surround the key |
| Routing.RoutedUpdates | pagebtree/insert.go:110-146 | put, delete and lookup below a branch are those of the routed child |
| Routing.FirstKeyOf | pagebtree/delete.go:383-399 | the first key of the leftmost leaf, or none if that leaf is empty |
| Deletion.BorrowBranchChildBeforeDescent | pagebtree/delete.go:88-136 | exactly when the branch has d children and a neighbour more, the neighbour's nearest child moves over; both branches stay full, contents unchanged |
| Deletion.BorrowedMeans | pagebtree/delete.go:88-136 | a branch of d-1 keys takes the last child of its left neighbour if that has more than d-1 keys, else the first child of such a right neighbour, else nothing; all other children stay |
| Deletion.MergeUnderfullLeaf | pagebtree/delete.go:138-197 | a leaf is repaired exactly if it has fewer than d-1 keys, or d-1 and fewer bytes than the repair percentage of a page, and has a neighbour, the left one if there is one: one leaf if the entries fit, else two cut where the page bytes balance best; any other leaf stays as it is; contents unchanged |
| Deletion.MergeUnderfullBranch | pagebtree/delete.go:215-265 | likewise for branches: one branch with all children if they fit one, or two that divide them with least difference of page bytes; a branch at or above the fill stays as it is |
| Deletion.BranchChildSplitIndex | pagebtree/delete.go:284-305 | with 2d to 4d children both branches get d to 2d and no admissible cut balances the bytes better; otherwise the children are halved |
| Deletion.WriteBranchChildren | pagebtree/delete.go:323-337 | the rebuilt separators are the first keys of the children; panics exactly if they do not fit a page, and a branch without children becomes an empty leaf |
| Deletion.SmallLeavesMerge | pagebtree/delete.go:207-213 | pairs small enough never keep two leaves apart that have at most 2d-1 entries |
| Deletion.HalfStep | pagebtree/delete.go:65-86 | whether the leaves below a branch stay at least half full is decided below the child that deletion enters, or by the repair of that child |
| Deletion.SubtreeEmpty | pagebtree/delete.go:367-381 | true exactly if the subtree holds no pair |
| Deletion.DeleteFromLeaf | pagebtree/delete.go:50-63 | exactly the pair leaves the leaf, no other value is spilled, and its overflow chain is retired |
| Deletion.DeleteFromBranch | pagebtree/delete.go:65-86 | removes exactly the key, loses at most one child, and keeps order, depth, separators, fill and ownership through borrowing, merging and dropping |
| Updates.CollapseRoot | pagebtree/delete.go:339-365 | single-child branches and an empty leaf leave the top; the pairs stay and the root is a leaf, has two children, or is gone |
| Updates.DeleteStaged | pagebtree/delete.go:24-40 | the old value is returned and removed if present; otherwise nothing at all changes |
| Updates.Delete | pagebtree/delete.go:16-22 | map removal of exactly this key, one revision step if it was there, invariant kept; the leaves afterwards are those before, except that the leaf that held the key is joined or divided with its neighbour exactly if it is due, and is dropped if it is empty; leaves stay at least half full if and only if the two leaves concerned allow it; after a panic the tree is well-formed if and only if no page could be had at all |
| Updates.HalfFullMeans | pagebtree/delete.go:138-197 | under the key bound, leaves of d-1 keys are all that the fill of the whole tree asks |
| Updates.PutStaged | pagebtree/tree.go:89-118 | the pairs are upserted and the old value returned, also when the root splits or is planted |
| Updates.GrowRoot | pagebtree/tree.go:105-111 | a new root over two halves spells their pairs, one level higher |
| Updates.Put | pagebtree/tree.go:81-87 | map update at this key for any pair, exactly one revision step, invariant kept; in memory it panics if and only if a page on the way does not take what is written to it, which with an empty tree means that the pair is not storable; a pair that is not storable is never stored; it panics on the last page of a file; after a panic the tree is well-formed if and only if no page could be had at all |
| Invariants.StoredPairs | pagebtree/overflow.go:58-84 | whatever pages spell out, every pair in it is storable |
| PageCaches.Get | pagebtree/tree.go:70-75 | read through the cache, the value of the key in the map, or none if closed |
| Updates.PublishStagedMutation | pagebtree/tree.go:120-124 | revision one higher; a retired page becomes free if the reader table could be read and every reader here and in the table is above its revision, and stays retired otherwise; links repaired, invariant restored |
| Freelist.OldestReaderRevision | pagebtree/freelist.go:61-89 | the least revision of the readers here and in the table, found exactly if there is one, and zero if the table cannot be read; a revision is held back exactly if a reader is at or below it |
| Freelist.ReclaimRetiredPages | pagebtree/freelist.go:44-59 | pages held back stay retired in order, the others become free in order: a page stays exactly if the table could not be read or some reader is at or below its revision |
| Freelist.RetiredOrFree | pagebtree/freelist.go:44-89 | a retired page is kept if the scan failed or a reader here or in the table is at or below its revision, and is among the released ones otherwise |
| Freelist.KeptAndReleased | pagebtree/freelist.go:44-59 | reclaiming loses and duplicates no page |
| Freelist.KeptIffHeldBack | pagebtree/freelist.go:44-59 | a page is kept exactly if a reader holds it back |
| Freelist.ReclaimOwns | pagebtree/freelist.go:44-59 | page conservation survives reclaiming |
| LeafLinks.RelinkLeaves | pagebtree/leaf_links.go:3-23 | without readers the links spell the leaves in order; with readers nothing is written; nothing but links ever changes |
| LeafLinks.CollectLeavesInOrder | pagebtree/leaf_links.go:25-37 | appends the leaves from left to right |
| Invariants.FrameKeepsPins | pagebtree/tree.go:245-271 | no staged step takes, rewrites or retires early a page that an open snapshot reaches |
| Invariants.ReclaimKeepsPins | pagebtree/freelist.go:44-59 | reclaiming frees no page that an open snapshot reaches |
| Invariants.HeldIsReadable | pagebtree/snapshot.go:28-33 | the current pages still spell out the tree the snapshot was taken of |
| Snapshots.BeginRead | pagebtree/freelist.go:15-20 | one more reader at the revision |
| Snapshots.EndRead | pagebtree/freelist.go:22-35 | one reader fewer; then every retired page above which all readers are becomes free, and the others stay retired |
| Snapshots.TakeSnapshot | pagebtree/tree.go:215-229 | shows the current pairs, registers a reader, and keeps every other snapshot |
| Snapshots.CloseSnapshot | pagebtree/snapshot.go:70-82 | unregisters exactly this snapshot once; then every retired page that no reader is at or below becomes free, and the others stay; contents and other snapshots stay |
| Snapshots.GetAt | pagebtree/snapshot.go:28-33 | reads the map as it was when the snapshot was taken |
| Snapshots.RangeAt | pagebtree/snapshot.go:35-54 | visits the pairs in range as they were when the snapshot was taken, until the visitor stops |
| Snapshots.RangeTree | pagebtree/tree.go:126-156 | linked-leaf and tree-walk reads, whichever is chosen, visit the filtered sorted map |
| Batches.WriteBatch.Put | pagebtree/batch.go:76-85 | appends to an open batch, ignored by a closed one |
| Batches.WriteBatch.Delete | pagebtree/batch.go:88-96 | likewise |
| Batches.WriteBatch.Rollback | pagebtree/batch.go:116-122 | drops the operations and closes |
| Batches.DeleteRange | pagebtree/batch.go:101-113 | stages a deletion for each key in range if the bounds ascend as byte strings |
| Batches.DeleteRangeClears | pagebtree/batch.go:101-113 | those deletions leave exactly the pairs outside the range |
| Batches.DeleteRangeClearsIff | pagebtree/batch.go:102 | a committed range deletion clears the range if and only if the bounds ascend bytewise or the range was empty |
| Batches.DeleteRangeMissesInReverse | pagebtree/batch.go:102 | a pair in range of a reverse-order tree that it misses |
| Batches.Restore | pagebtree/batch.go:259-276 | fields, contents, free and retired lists as saved, well-formed again; in memory the whole store |
| Batches.CommitDetailed | pagebtree/batch.go:142-202 | all or nothing at any panic, and with a pair that is not storable it always panics: root, counters, lists and contents are as before; else the operations folded over the map in order, each with the value that its key had by then, and one revision step exactly if something changed |
| Batches.ApplyIsMapFold | pagebtree/batch.go:142-202 | the fold over sorted pairs is the fold of updates and removals over the map |
| Transactions.BeginReadWrite | pagebtree/tx.go:25-36 | the view is what the tree holds |
| Transactions.ReadWriteTx.Put | pagebtree/tx.go:56-63 | overlay and batch agree: the view is updated at the key |
| Transactions.ReadWriteTx.Delete | pagebtree/tx.go:66-72 | the key leaves the view |
| Transactions.ReadWriteTx.Get | pagebtree/tx.go:39-53 | reads the base overridden by the transaction's own writes |
| Transactions.VisibleKeysBetween | pagebtree/tx.go:102-125 | the sorted keys of the view in range, without duplicates |
| Transactions.RangeBetween | pagebtree/tx.go:87-100 | visits the view's pairs in range until the visitor stops |
| Transactions.DeleteRange | pagebtree/tx.go:76-83 | leaves exactly the view's pairs outside the range, in any order |
| Transactions.Commit | pagebtree/tx.go:161-172 | conflicts exactly if another revision was published since the begin; success makes the tree equal the view, one revision on if anything changed; never a success with a pair that is not storable |
| Transactions.CommitBoth | pagebtree/tx.go:161-172 | of two transactions begun at one revision the second conflicts exactly if the first committed a change |
| Transactions.Rollback | pagebtree/tx.go:138-146 | drops the staged operations and the base snapshot, not the contents |
| Transactions.CloseTx | pagebtree/tx.go:199-209 | closes the base snapshot and leaves the tree's contents |
| Search.SearchPage | pagebtree/search.go:12-34 | finds exactly the value the sorted pairs have under the key |
| Search.RangePage | pagebtree/search.go:36-95 | visits the pairs in range in order until the visitor stops, in all three forms |
| Search.RangeLeafSlots | pagebtree/search.go:183-196 | visits the slots from the start on and stops at the end bound |
| Ranges.VisitSeesPrefix | pagebtree/search.go:36-52 | a read sees a prefix of what is in range, and all of it, accepted to the last pair, unless it is stopped |
| Ranges.WithinExact | pagebtree/search.go:74-95 | in range are exactly the pairs with start <= key < end |
| LinkedScans.StartLeaf | pagebtree/search.go:272-298 | everything before the chosen leaf is below the start, nothing after it is |
| LinkedScans.RangeLinkedLeaves | pagebtree/search.go:97-181 | following the links visits what the recursive walk visits, and never a leaf twice |
| Cursors.Cursor.LoadForward | pagebtree/cursor.go:267-293 | from any stack that stands before pair p, lands on p or reports the end bound |
| Cursors.Cursor.LoadBackward | pagebtree/cursor.go:295-321 | from any stack that stands after pair p, lands on p or reports the lower bound |
| Cursors.Cursor.DescendLeft | pagebtree/cursor.go:208-222 | lands on the first pair of the subtree |
| Cursors.Cursor.DescendRight | pagebtree/cursor.go:224-239 | lands on the last pair of the subtree |
| Cursors.Cursor.SeekBeforeFrom | pagebtree/cursor.go:241-265 | lands on the last pair below the key |
| Cursors.Cursor.Seek | pagebtree/cursor.go:99-125 | lands on the least key within bounds not below the target, or there is none: every pair before it is below the target or out of bounds; key and value shown are that pair's |
| Cursors.Cursor.First | pagebtree/cursor.go:87-96 | lands on the first pair within bounds and shows it, or there is none |
| Cursors.Cursor.Last | pagebtree/cursor.go:138-147 | lands on the last pair within bounds and shows it, or there is none |
| Cursors.Cursor.Next | pagebtree/cursor.go:128-135 | moves by exactly one pair and shows it, or fails exactly if that leaves the bounds |
| Cursors.Cursor.Prev | pagebtree/cursor.go:150-157 | likewise backwards |
| Cursors.Cursor.NextPrev | pagebtree/cursor.go:128-157 | Prev undoes Next |
| Cursors.Cursor.PrevNext | pagebtree/cursor.go:128-157 | Next undoes Prev |
| Cursors.Cursor.Delete | pagebtree/cursor.go:182-187 | the current key leaves the live tree; the cursor still shows and walks its snapshot |
| Cursors.Cursor.Close | pagebtree/cursor.go:190-202 | closes the snapshot it owns, once, and is unusable afterwards |
| Integrity.ValidateOverflowValue | pagebtree/integrity.go:428-462 | accepts exactly sound unseen chains of the referenced length, and terminates on any pages |
| Integrity.ValidatePageBounds | pagebtree/integrity.go:349-426 | whatever pages there are: an accepted page is the root of a tree without sharing, in bounds, with right separators; and every such tree is accepted |
| Acceptance.AcceptableSorted | pagebtree/integrity.go:349-426 | the keys of an accepted tree are strictly increasing and within its bounds |
| Acceptance.AcceptedIsReadable | pagebtree/integrity.go:349-426 | an accepted tree is empty or every read of it is right |
| Acceptance.ValidatorIsExact | pagebtree/integrity.go:349-426 | for any pages: a tree without sharing is accepted if and only if its pages spell it out, its keys strictly increase from leaf to leaf, every page below the root has d-1 keys, and no page of it or of a value is page zero or damaged |
| Acceptance.BuiltIsAcceptable | pagebtree/integrity.go:349-426 | every tree whose pages below the root have d-1 keys is accepted |
| Acceptance.WellFormedIsAccepted | pagebtree/integrity.go:155-161 | the tree between calls is accepted if and only if every page below its root has d-1 keys |
| Acceptance.ModelsUnique | pagebtree/integrity.go:349-426 | pages spell out at most one tree below a root, so what is accepted is the tree itself |
| Acceptance.CountReachableKeys | pagebtree/integrity.go:325-343 | the number of pairs of the tree |
| Audits.ValidateReusablePages | pagebtree/integrity.go:118-153 | accepts exactly lists whose ids are from one to below the next page, outside of the tree, without duplicates and in one list only, with no revision zero |
| Audits.OwnedAreReusable | pagebtree/integrity.go:118-153 | page conservation implies all of that but the revisions |
| Audits.ValidateLeafLinks | pagebtree/integrity.go:309-323 | accepts exactly if the links spell the leaves |
| Audits.Audit | pagebtree/integrity.go:66-116 | the exact verdict on any state of a tree, however it came about: passed if and only if some tree below the root is sound, or there is no root and nothing is counted, and the lists are right; a well-formed tree passes if and only if every page below the root has d-1 keys and none was retired at revision zero |
| Audits.SoundMeans | pagebtree/integrity.go:66-153 | sound: the pages spell out the tree without sharing or damage, keys strictly increase, every page below the root has d-1 keys, the counter is right, without readers the links spell the leaves, and free and retired pages are in range, outside of the tree and each listed once |
| SlottedPages.SlottedPage.AppendCell | pagebtree/page.go:420-442 | taken exactly if it fits, and then all cells are stored; refused without a change |
| SlottedPages.SlottedPage.ReadCell | pagebtree/page.go:285-327 | what was appended reads back |
| SlottedPages.SlottedPage.SetNextLeaf | pagebtree/page.go:131-134 | changes the link and the checksum, and no cell |
| SlottedPages.SlottedPage.ValidChecksum | pagebtree/page.go:144-153 | true exactly if bytes 16 to 19 hold the checksum of all others, as in every written page |
| SlottedPages.LeafBytesExact | pagebtree/delete.go:207-213 | the size that updates compute is the number of bytes used |
| SlottedPages.BranchBytesExact | pagebtree/insert.go:175-185 | likewise for branches |
| SlottedPages.EntryRoundTrip | pagebtree/overflow.go:23-42 | overflow references survive their encoding, and inline values are not taken for one |
| SlottedPages.ReferenceMeans | pagebtree/overflow.go:31-42 | a value is a reference exactly if it is flagged, has 20 bytes and starts with the magic, and then it is the encoding of what it is read as |
| SlottedPages.LeafRoundTrip | pagebtree/page.go:483-491 | a leaf can be written exactly if it fits, and reads back with its link |
| SlottedPages.BranchParts | pagebtree/page.go:493-503 | keys and children read back as stored |
| SlottedPages.StoredDoNotOverlap | pagebtree/page.go:420-442 | appended cells never overlap each other or the slots |
| SlottedPages.ValidateSlottedLayout | pagebtree/page.go:187-237 | accepts exactly cells in bounds, pairwise apart, in key order, with allowed flags and nonzero children |
| SlottedPages.LayoutMeans | pagebtree/page.go:187-237 | in an accepted page every cell lies between the end of the free space and the end of the page, its key comes after that of the slot before, it overlaps no other cell, and its flags and child are allowed |
| SlottedPages.SlotMeans | pagebtree/page.go:285-327 | slot i at byte 20 + 8i has the start of its cell, the lengths of key and value, and the flags, two bytes each |
| SlottedPages.LayoutFails | pagebtree/page.go:187-237 | a page with a directory in bounds is refused only for one bad slot, two neighbours out of order or two cells that overlap |
| SlottedPages.StoredBytes | pagebtree/page.go:285-327 | where the header fields, the slot fields and the bytes of key and value of every appended cell are |
| SlottedPages.StoredPasses | pagebtree/page.go:187-237 | pages written in strict key order with nonzero children pass |
| ReclaimChains.Save | pagebtree/mmap.go:1374-1464 | the lists go inline or to fresh chained pages, a chunk each; fails exactly if the file cannot grow that far |
| ReclaimChains.Resolve | pagebtree/mmap.go:1182-1289 | panics exactly if a chain is said to have a negative number of entries or more than there is room for; else accepts exactly sound, acyclic, undamaged chains in range with the recorded count, and terminates on any pages |
| ReclaimChains.RecordsRoundTrip | pagebtree/mmap.go:1466-1475 | both lists come back in order if and only if no page was retired at revision zero |
| ReclaimChains.BackKeeps | pagebtree/mmap.go:1466-1475 | whatever the revisions, no page is lost or duplicated by a save and a load |
| ReclaimChains.WalkIsSound | pagebtree/mmap.go:1182-1289 | what was walked are distinct undamaged pages in range, of the right kind, not empty and each linked to the next, and the records are theirs in order |
| ReclaimChains.SoundIsWalked | pagebtree/mmap.go:1182-1289 | and every such chain is walked to its end |
| ReclaimChains.ResolvedMeans | pagebtree/mmap.go:1182-1289 | a reference that resolves starts such a chain of as many records as it says; what it gives as retired has a revision of at least one |
| ReclaimChains.SoundResolves | pagebtree/mmap.go:1182-1289 | a reference to such a chain resolves if and only if the number of records is the one it says |
| ReclaimChains.WalkOfSaved | pagebtree/mmap.go:1182-1289 | a saved chain is walked page by page and record by record |
| ReclaimChains.SaveAndLoad | pagebtree/mmap.go:1374-1464 | lists of any length survive a save and a load in all three forms, if and only if none was retired at revision zero |
| ChainBytes.WriteFreelistPage | pagebtree/freelist_pages.go:10-19 | the page is the image of its list, whatever it held before |
| ChainBytes.WriteReclaimPage | pagebtree/reclaim_pages.go:16-26 | likewise for records |
| ChainBytes.ReadChainPage | pagebtree/freelist_pages.go:21-40 | a list exactly if the checksum is that of the other bytes and kind, count and layout are right; and then the list that the bytes say |
| ChainBytes.ChainPageMeans | pagebtree/freelist_pages.go:21-40 | where kind, count, link and entries are in the bytes, and that nothing else decides |
| ChainBytes.ChainDamageIsSeen | pagebtree/page.go:144-153 | a written page with other bytes outside of its checksum reads only if their checksum happens to be the same |
| ChainBytes.ChainPageRoundTrip | pagebtree/reclaim_pages.go:28-50 | a written page reads back as it was |
| ChainBytes.SavedIsStorable | pagebtree/mmap.go:1374-1464 | every page that saving fills is within its capacity |
| MetaPages.WriteMetaPage | pagebtree/mmap.go:1693-1741 | refused exactly for retired pages before version 3, a list too long to be inline, a list without a root in version 3, a root without a list, or an unknown key order; else the page is the record's image, whatever it held before |
| MetaPages.ReadMetaPage | pagebtree/mmap.go:1616-1682 | blank, invalid or a record, exactly as the fields and the checksum say: what is found has the magic, version 1 to 3, page size 4096 and the checksum of its other bytes; a panic exactly for a negative count of inline pages |
| MetaPages.FoundMeans | pagebtree/mmap.go:1616-1682 | where each field is in the bytes of a page that is found, and what it may hold |
| MetaPages.RightIsFound | pagebtree/mmap.go:1616-1682 | with these fields right a page is found if and only if its count and its list go together |
| MetaPages.DamageIsSeen | pagebtree/mmap.go:1632-1637 | a written page with other bytes outside of its checksum is found only if their checksum happens to be the same |
| MetaPages.ZeroMeansBytewise | pagebtree/testdata/generate_legacy_zero_key_order.go:50-57 | a page with key order zero, as older files have it, reads as bytewise order with everything else as written |
| LittleEndian.DecodeEight | pagebtree/mmap.go:1616-1682 | a stored word is the sum of its bytes, the lowest first |
| MetaPages.WriteReadRoundTrip | pagebtree/mmap.go:1616-1741 | what is written reads back if and only if the version is known and a chain is not referred to where pages are expected inline |
| Recovery.ValidateFreelist | pagebtree/mmap.go:1750-1770 | accepts exactly lists in range that repeat and overlap nothing |
| Recovery.ValidateRetiredPages | pagebtree/mmap.go:1772-1799 | likewise, with revisions from one to the record's |
| Recovery.ValidateReachablePages | pagebtree/integrity.go:155-161 | finds the tree of the root if there is one |
| Recovery.MappedTree.ApplyMetaRecord | pagebtree/mmap.go:1138-1155 | the fields are those of the record and the lists are empty |
| Recovery.CheckRecord | pagebtree/mmap.go:1048-1087 | accepts exactly if some tree and some lists fit the record, unless resolving its lists panics |
| Recovery.MappedTree.LoadMeta | pagebtree/mmap.go:980-1101 | panics exactly if the lists of a candidate cannot be given room and no newer one is usable; else succeeds exactly if some slot is usable, and takes the usable slot of highest revision, whatever earlier candidates left in the fields. The key order is the one asked for, if any was; the slot is the one of the revision's parity; root, next page and both lists lie in the mapped file; length, degree and revisions are what they must be |
| Reopening.NoPageTwice | pagebtree/mmap.go:1058-1079 | in an accepted record no page is used twice by tree, list pages, free list and retired list |
| Reopening.RecoveredIsReadable | pagebtree/mmap.go:1053-1057 | the recovered tree can be read, and its keys ascend as byte strings, or descend if the file says reverse order |
| Reopening.SavedFits | pagebtree/mmap.go:1302-1372 | the record a sync writes is usable if the links spell the leaves and every page below the root has d-1 keys |
| Reopening.FoundIsRecoverable | pagebtree/mmap.go:1048-1087 | and only then: what recovery finds below the synced root is the tree itself, and it finds it only under these conditions |
| Reopening.SyncAndReopen | pagebtree/mmap.go:1331-1372 | for any well-formed tree in a file, open snapshots and earlier syncs or not: a reopen takes what was synced if and only if links and fill are right and no other key order is asked for, and then finds root, counters and every page of the tree as they were, every page accounted for, and the lists as they were if and only if no page was retired at revision zero; asked for another order, it fails unless the other slot has a record in that order |
| Reopening.Resume | pagebtree/mmap.go:1080-1092 | what was found makes a well-formed tree with the same contents and revision, which can be synced and reopened again |
| ReaderTables.ReaderTable.Claim | pagebtree/reader_table_unix.go:106-143 | takes the first slot that no running owner holds, and fails exactly if there is none; the slot has the process, its start from version 2 on and the boot from version 3 on, and is not stale in any report that names the process with that start and boot; no other slot changes |
| ReaderTables.ReaderTable.Release | pagebtree/reader_table_unix.go:145-162 | the slot of an owner is free afterwards; a slot that is no longer this handle's own and every other slot stay as they are |
| ReaderTables.ReaderTable.UpdateRevision | pagebtree/reader_table_unix.go:164-181 | publishes the revision exactly if the slot is still this handle's own |
| ReaderTables.ReaderTable.OldestRevision | pagebtree/reader_table_unix.go:183-215 | the least revision of the running owners; none exactly if no owner runs; a failure exactly if a running owner's slot has token zero or a revision above the tree's. Only stale slots are cleared, and without a failure all of them |
| ReaderTables.ReaderTable.Scan | pagebtree/reader_table_unix.go:239-287 | likewise, with the numbers of active, stale, process-start and boot-id slots up to the first invalid one, and of the slots it clears |
| ReaderTables.TakenOrStale | pagebtree/reader_table_unix.go:511-536 | an active slot is a running owner's exactly if its process runs and neither its start nor the boot is known to be another, and is stale otherwise |
| ReaderTables.HeldMeans | pagebtree/reader_table_unix.go:500-509 | a handle owns the active slot with its token and process, unless start or boot is known to be another |
| ReaderTables.StepKeeps | pagebtree/reader_table_unix.go:106-181 | no step changes the slot or the handle of a running owner other than the acting one, and every owner's slot tells its process rightly; processes may die and the system may boot anew |
| ReaderTables.RunKeeps | pagebtree/reader_table_unix.go:106-287 | nor does any run of steps |
| ReaderTables.OwnerIsSeen | pagebtree/reader_table_unix.go:500-536 | a running owner's slot, whenever it was claimed, is not stale in any honest report, and the owner can always publish a revision |
| ReaderTables.OwnersAreCounted | pagebtree/reader_table_unix.go:183-215 | while an owner runs no scan finds the table without readers, nor an oldest revision above the owner's |
| ReaderTables.ClaimPins | pagebtree/reader_table_unix.go:106-143 | a claim that finds a slot makes its handle an owner of that revision |
| ReaderTables.ReleaseFrees | pagebtree/reader_table_unix.go:145-162 | after an owner's release its slot is inactive, it owns none, and no other slot has changed |
| ReaderTables.ClaimAndRelease | pagebtree/reader_table_unix.go:106-162 | a claim followed by its release leaves what a scan reports as it was |
| ReaderTables.ReclaimIsSafe | pagebtree/freelist.go:44-89 | a page is released only if retired before every revision pinned by a running owner and every reader here; one invalid slot blocks all |
| PageCaches.PageCache.Branch | pagebtree/page_cache.go:57-80 | answers what the page holds; map and list agree, size stays within capacity, and the ids are in least-recently-used order |
| PageCaches.TouchedAt | pagebtree/page_cache.go:109-134 | the id looked up comes first, the others keep their order, and what is over the capacity is dropped from the end |
| PageCaches.PageCache.Insert | pagebtree/page_cache.go:109-120 | the eviction loop ends and drops the oldest ids only |
| PageCaches.PageCache.EvictOldest | pagebtree/page_cache.go:136-149 | takes exactly the last id out of list and map |
| PageCaches.SameSize | pagebtree/page_cache.go:109-120 | map and list have the same size, as they agree |
| PageCaches.SearchPageWithCache | pagebtree/search.go:16-34 | reading through the cache finds what reading the pages finds |
| Pages.KeyFitsMeaning | pagebtree/insert.go:203-227 | the key bound is that of 2d-1 cells with references in one page |
| Cases.DeleteUnderfills | pagebtree/delete.go:138-197 | a half-full tree and a deletion that leaves a leaf below d-1 keys |
| Cases.LargeTree | pagebtree/tree.go:48-60 | that tree exists |
| Cases.EmptyValuePanics | pagebtree/overflow.go:58-84 | the first put into a new tree in memory, of an empty value under a key of 2041 bytes, panics and loses a page, although a leaf with that cell has 2069 bytes |
| Cases.TwoHalvesPanic | pagebtree/insert.go:217-226 | two puts into a new tree in memory, of storable pairs with empty values: the second panics, and the tree is no longer well-formed |
| Cases.EmptyValueRollsBack | pagebtree/batch.go:142-202 | a batch with the put of the first of these leaves the new tree exactly as it was |
| Cases.UnstorableRollsBack | pagebtree/batch.go:142-202 | in memory a batch with a pair that is not storable leaves everything as it was |
| Cases.PutOnLastPage | pagebtree/tree.go:245-262 | a tree of two levels and one page to grow by: a put panics, and the tree is no longer well-formed |
| Cases.RetiredAtZero | pagebtree/freelist.go:37-42 | a run that retires a page at revision zero |
| Cases.UnderfullIsRefused | pagebtree/integrity.go:369-371 | a tree with one leaf below d-1 keys is synced and not taken by a reopen |
| Cases.StaleLinksAreRefused | pagebtree/leaf_links.go:3-23 | a tree with stale links under an open snapshot is synced and not taken by a reopen |
| BTree.SplitChild | btree/insert.go:40-63 | the median moves up, the halves hold the rest in order, and nothing but the two nodes is written |
| BTree.InsertNonFull | btree/insert.go:8-38 | refines insertion without ever entering a full node, also when the promoted median is the key; only nodes made in the call are written below it |
| BTree.Tree.Set | btree/tree.go:41-66 | map update, one revision step, degree invariant kept, and only this object and new nodes written |
| BTree.RunUpdates | btree/tree.go:41-66 | over every run of updates each snapshot keeps showing what it showed when taken |
| BTree.SearchNode | btree/search.go:8-23 | finds exactly the value the sorted pairs have under the key |
| BTree.RangeNode | btree/search.go:25-43 | visits the pairs in order until the visitor stops |
| BTree.GetAt | btree/snapshot.go:25-27 | reads the map as it was when captured |
| BTree.RangeAt | btree/snapshot.go:29-31 | visits the pairs as they were when captured |

## Left out

- Memory mapping, msync, file locks, advice, prefetching, file growth and truncation, dirty-page tracking: calls into the system.
- Crash durability and what snapshots of other processes see: the code does not keep them in general.
- The sweep of obsolete metadata pages after recovery and after a sync (pagebtree/mmap.go:1477-1507): what is stated about an accepted record is its state before the sweep.
- The extra revision step a sync takes to upgrade metadata of an older version (pagebtree/mmap.go:1337-1345).
- Which of several errors a failed recovery reports, and the trace events.
- Recovery.MappedTree.LoadMeta: how many entries a list can be given room for is a parameter, as it depends on the machine. The two candidates are put in order by one comparison, where the program calls a sort.
- Reopening.SyncAndReopen: the synced lists are within that number, as they were in memory.
- Wrap-around of 64-bit ids, revisions and lengths in memory; `Reopening.Narrow` bounds them where they are stored.
- Reading pages through bytes everywhere: the tree works on decoded pages, and `SlottedPage`, `ChainBytes` and `MetaPages` prove that encoding and decoding are inverse. The checksum is any function; pages whose checksum or layout is wrong form the set `damaged`.
- Updates.Get: reads without the page cache; `PageCaches.Get` is proved to give the same answers.
- PageCaches.PageCache.Branch: assumes, as it must, that the checksum tells apart the contents stored under one id; the statistics other than hits and misses are not specified.
- Deletion.DeleteFrom: is stated for a key that is there, which is the only way it is called.
- Transactions, cursors and syncs as actions of `Runs.Run`: each has its own contract.
- Snapshots.GetAt: reads the page map of the tree, as the pages of the snapshot never change in it; after a rolled-back batch the program restores that map from its own copy.
- Batches.Restore: in a mapped file, bytes of pages that nobody used may differ afterwards; used pages do not.
- Transactions.VisibleKeysBetween: the program's sort is an insertion sort here; any sort gives the same keys.
- ReaderTables.RunKeeps: assumes distinct tokens, and a system whose reports name every running process and give its start and the boot rightly or not at all.
- Cursors over transactions.
- BTree.Tree.Set: keys are byte strings under any strict total order; keys that are not ordered, such as NaN, are outside of it.
- The validator does not look at uniform depth, the greatest fill or leaked pages, so nothing about them follows from acceptance.
- Nil trees, batches and cursors; closing a tree; compaction; statistics, profiles, exporters, page summaries and the command-line tools: plumbing or easy members.
