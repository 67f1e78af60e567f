// What recovery guarantees, and a sync followed by a reopen (pagebtree/mmap.go).

module Reopening {
  import opened KeyOrder
  import opened Contents
  import opened Pages
  import opened Nodes
  import opened Trees
  import opened LeafLinks
  import opened Search
  import opened Invariants
  import opened Updates
  import opened Integrity
  import opened Acceptance
  import opened MetaPages
  import opened Recovery
  import Chains = ReclaimChains
  import SlottedPages

  // ---- What is recovered ----

  lemma {:induction false} DistinctOnce(ids: seq<PageId>, claimed: set<PageId>, x: PageId)
    requires Apart(ids, claimed)
    ensures multiset(ids)[x] <= 1 && (x in claimed ==> x !in multiset(ids))
    decreases |ids|
  {
    if ids != [] {
      var front, last := ids[..|ids| - 1], ids[|ids| - 1];
      assert forall i :: 0 <= i < |front| ==> front[i] == ids[i] && front[..i] == ids[..i];
      DistinctOnce(front, claimed, x);
      assert ids == front + [last] && last !in front;
    }
  }

  // No page of a recovered file is used twice: tree and value pages, list pages, free pages
  // and retired pages are pairwise disjoint, and none occurs more than once.
  lemma NoPageTwice(f: MappedFile, end: PageId, m: Meta, shape: Option<Node>, lists: Chains.Loaded)
    requires Fits(f, end, m, shape, lists)
    ensures forall x ::
              (LiveIds(shape) + multiset(lists.chain) + multiset(lists.free) + multiset(RetiredIds(lists.retired)))[x]
              <= 1
  {
    hide Acceptable, Ids, Linked, RetiredIds, SubjectOf, Apart, Chains.Resolved;
    var live, chain, free := LiveSet(shape), Chains.IdsOf(lists.chain), Chains.IdsOf(lists.free);
    forall x
      ensures (LiveIds(shape) + multiset(lists.chain) + multiset(lists.free) + multiset(RetiredIds(lists.retired)))[x]
              <= 1
    {
      assert LiveIds(shape)[x] <= 1 && (x in LiveIds(shape) ==> x in live);
      DistinctOnce(lists.chain, live, x);
      DistinctOnce(lists.free, live + chain, x);
      DistinctOnce(RetiredIds(lists.retired), live + chain + free, x);
    }
  }

  // A recovered tree that is not empty can be read in order.
  lemma RecoveredIsReadable(f: MappedFile, end: PageId, m: Meta, shape: Option<Node>, lists: Chains.Loaded)
    requires Fits(f, end, m, shape, lists)
    ensures Sorted(OrderOf(m.keyOrder), PairsIn(shape))
    ensures forall i, j :: 0 <= i < j < |PairsIn(shape)| ==>
              if m.keyOrder == ReverseOrder then CompareBytewise(PairsIn(shape)[i].key, PairsIn(shape)[j].key) > 0
              else CompareBytewise(PairsIn(shape)[i].key, PairsIn(shape)[j].key) < 0
    ensures PairsIn(shape) != [] ==> Readable(OrderOf(m.keyOrder), TreePages(f, end), shape.value)
  {
    hide Acceptable, Unseen, Linked, ListsOk, Chains.Resolved, Readable, SortedKeys, Flat;
    if shape.Some? {
      AcceptedIsReadable(SubjectOf(f, end, m), shape.value);
    } else {
      NothingSorted(OrderOf(m.keyOrder));
    }
    SortedEitherWay(m.keyOrder, PairsIn(shape));
  }

  lemma SortedEitherWay(o: StoredOrder, s: seq<KV>)
    requires Sorted(OrderOf(o), s)
    ensures forall i, j :: 0 <= i < j < |s| ==>
              if o == ReverseOrder then CompareBytewise(s[i].key, s[j].key) > 0
              else CompareBytewise(s[i].key, s[j].key) < 0
  {
    hide CompareBytewise;
    forall i, j | 0 <= i < j < |s|
      ensures if o == ReverseOrder then CompareBytewise(s[i].key, s[j].key) > 0
              else CompareBytewise(s[i].key, s[j].key) < 0
    {
      assert Lt(OrderOf(o), Keys(s)[i], Keys(s)[j]);
    }
  }

  // ---- What a sync writes can be recovered ----

  // The metadata that a sync writes for a tree whose lists went to pages `ids`.
  function RecordOf(t: Tree, o: StoredOrder, ids: seq<PageId>, root: PageId, maxPages: nat): MetaRecord
    reads t
  {
    MetaRecord(if |t.retired| > 0 then META_VERSION
               else 2, t.root, t.nextPage + |ids|, t.length, t.revision, t.degree, maxPages, Tag(o), t.free, t.retired,
               root)
  }

  // A tree that may be synced. Its list pages, if it has any, are those of earlier syncs.
  ghost predicate Syncable(t: Tree, o: StoredOrder, lo: nat)
    reads t
  {
    && t.degree >= 2 && WellFormed(t, lo) && !t.closed && t.first == FIRST_TREE_PAGE && t.degree <= MAX_PAGE_DEGREE
    && t.order == OrderOf(o)
  }

  // What recovery asks of the tree beyond that: the links spell the leaves, and every page
  // below the root has d-1 keys.
  ghost predicate Recoverable(t: Tree)
    requires t.degree >= 1
    reads t
  {
    Linked(t.pages, LeavesIn(t.shape)) && HalfFilled(t.degree, t.shape, t.height)
  }

  // The file holds the tree's pages and the lists on fresh pages.
  ghost predicate Written(f: MappedFile, t: Tree, ids: seq<PageId>)
    reads t
  {
    && f.damaged == {} && f.pages == t.pages && Chains.Fresh(ids, t.nextPage)
    && Chains.ChainLength(t.free, t.retired) == |ids|
    && (ids != [] ==> Chains.Holds(f.chains, |t.retired| > 0, ids, Chains.RecordsFor(t.free, t.retired)))
  }

  // The lists of the tree as they come back, saved on pages `ids`.
  function BackLists(t: Tree, ids: seq<PageId>): (lists: Chains.Loaded)
    reads t
    ensures lists.chain == ids
  {
    Chains.Loaded(Chains.FreeBack(t.free, t.retired), Chains.RetiredBack(t.free, t.retired), ids)
  }

  lemma OwnedOnce(first: PageId, s: Store, live: multiset<PageId>, x: PageId)
    requires Owns(first, s, live)
    ensures multiset(s.free)[x] + multiset(RetiredIds(s.retired))[x] + live[x] == if first <= x < s.nextPage then 1
            else 0
  {
    hide RetiredIds;
    var m := multiset(s.free) + multiset(RetiredIds(s.retired)) + live;
    assert m[x] == multiset(s.free)[x] + multiset(RetiredIds(s.retired))[x] + live[x];
    assert m[x] == Upto(first, s.nextPage)[x];
  }

  lemma ApartFrom(ids: seq<PageId>, claimed: set<PageId>)
    requires forall x :: x in multiset(ids) ==> multiset(ids)[x] == 1 && x !in claimed
    ensures Apart(ids, claimed)
  {
    forall i | 0 <= i < |ids| ensures ids[i] !in claimed && ids[i] !in ids[..i] {
      assert ids == ids[..i] + [ids[i]] + ids[i + 1..];
      assert multiset(ids)[ids[i]] == multiset(ids[..i])[ids[i]] + 1 + multiset(ids[i + 1..])[ids[i]];
      assert ids[i] in multiset(ids);
    }
  }

  // The store with the lists as they come back.
  function BackStore(s: Store): Store {
    s.(free := Chains.FreeBack(s.free, s.retired), retired := Chains.RetiredBack(s.free, s.retired))
  }

  lemma BackOwns(first: PageId, s: Store, live: multiset<PageId>, revision: nat)
    requires Owns(first, s, live) && RetiredUpTo(s.retired, revision)
    ensures Owns(first, BackStore(s), live) && RevisionsOk(BackStore(s).retired, revision)
  {
    hide Upto, Chains.FreeBack, Chains.RetiredBack, RetiredIds;
    Chains.BackKeeps(s.free, s.retired);
  }

  lemma ListsApart(s: Store, lists: multiset<PageId>, shape: Option<Node>, m: Meta, ids: seq<PageId>)
    requires Owns(FIRST_TREE_PAGE, s, lists + LiveIds(shape)) && Chains.Fresh(ids, s.nextPage)
             && RevisionsOk(s.retired, m.revision)
    requires m.nextPage == s.nextPage + |ids| && m.nextPage <= FIRST_TREE_PAGE + m.maxPages
    ensures ListsOk(m, LiveSet(shape), Chains.Loaded(s.free, s.retired, ids))
  {
    hide Owns, RetiredIds, LiveIds, Apart, RevisionsOk;
    var live, chain, free := LiveSet(shape), Chains.IdsOf(ids), Chains.IdsOf(s.free);
    var all := RetiredIds(s.retired);
    forall x: PageId
      ensures multiset(s.free)[x] + multiset(all)[x] + lists[x] + LiveIds(shape)[x]
              == if FIRST_TREE_PAGE <= x < s.nextPage then 1 else 0
    {
      OwnedOnce(FIRST_TREE_PAGE, s, lists + LiveIds(shape), x);
    }
    FreshApart(ids, s.nextPage, live);
    ApartFrom(s.free, live + chain);
    ApartFrom(all, live + chain + free);
    forall i | 0 <= i < |s.free| ensures Reusable(s.free[i], m) {
      assert s.free[i] in multiset(s.free);
    }
    forall i | 0 <= i < |all| ensures Reusable(all[i], m) {
      assert all[i] in multiset(all);
    }
  }

  lemma FreshApart(ids: seq<PageId>, nextPage: PageId, live: set<PageId>)
    requires Chains.Fresh(ids, nextPage) && forall x :: x in live ==> x < nextPage
    ensures Apart(ids, live) && forall x :: x in ids ==> x >= nextPage
  {
  }

  // The pages that are looked at hold the tree, with the same links.
  lemma TreeIsThere(t: Tree, o: StoredOrder, lo: nat, f: MappedFile, end: PageId)
    requires Syncable(t, o, lo) && f.pages == t.pages && t.nextPage <= end && t.shape.Some?
    ensures var n := t.shape.value;
            && n.id == t.root && t.root != 0 && Rep(TreePages(f, end), n) && Unseen(Ids(n), {}) && 0 !in Ids(n)
            && Balanced(n, t.height, lo, t.degree) && n.Count() >= 1 && Sorted(t.order, Flat(n))
            && (Linked(TreePages(f, end), LeafIds(n)) <==> Linked(t.pages, LeafIds(n)))
  {
    hide Owns, Spells, Pinned, Linked, Current, Unseen, Ids, LeafIds, Flat, Rep, Balanced, Readable, SortedKeys,
      TreePages, OrderOf;
    var n := t.shape.value;
    SpellsMeans(t.order, t.degree, t.pages, t.root, n, t.height, lo);
    LiveUnseen(t.first, t.State(), n, t.listPages);
    LiveKept(t.State(), f, end, n, t.listPages);
    RepSame(t.pages, TreePages(f, end), n);
    RepModels(t.pages, n);
    LeafPagesOf(t.pages, n);
    LinkedKept(t.State(), f, end, n, t.listPages);
  }

  lemma SavedTreeOk(t: Tree, o: StoredOrder, lo: nat, f: MappedFile, end: PageId, m: Meta)
    requires Syncable(t, o, lo) && f.pages == t.pages && f.damaged == {} && t.nextPage <= end && Recoverable(t)
    requires m.root == t.root && m.degree == t.degree && m.keyOrder == o
    ensures TreeOk(SubjectOf(f, end, m), t.shape) && Linked(TreePages(f, end), LeavesIn(t.shape))
  {
    hide Owns, Spells, Pinned, Linked, Current, Acceptable, Unseen, Ids, LeafIds, Flat, Rep, Balanced, SortedKeys,
      TreePages, OrderOf;
    RootMeans(t.order, t.degree, t.pages, t.root, t.shape, t.height, lo);
    if t.shape.Some? {
      TreeIsThere(t, o, lo, f, end);
      AcceptedIffFilled(SubjectOf(f, end, m), t.shape.value, t.height, lo);
    } else {
      NoLeaves(TreePages(f, end));
    }
  }

  // What recovery finds below the root that was synced is the tree, and it finds it only if
  // the links and the fill are right.
  lemma FoundIsRecoverable(t: Tree, o: StoredOrder, lo: nat, f: MappedFile, end: PageId, m: Meta, shape: Option<Node>)
    requires Syncable(t, o, lo) && f.pages == t.pages && f.damaged == {} && t.nextPage <= end
    requires m.root == t.root && m.degree == t.degree && m.keyOrder == o
    requires TreeOk(SubjectOf(f, end, m), shape) && Linked(TreePages(f, end), LeavesIn(shape))
    ensures shape == t.shape && Recoverable(t)
  {
    hide Owns, Spells, Pinned, Linked, Current, Acceptable, Unseen, Ids, LeafIds, Flat, Rep, Balanced, SortedKeys,
      TreePages, OrderOf, Models;
    var c := SubjectOf(f, end, m);
    RootMeans(t.order, t.degree, t.pages, t.root, t.shape, t.height, lo);
    if shape.Some? {
      NonzeroRoot(c, shape.value);
      TreeIsThere(t, o, lo, f, end);
      AcceptableModels(c, shape.value, None, None);
      RepModels(c.pages, t.shape.value);
      ModelsUnique(c.pages, shape.value, t.shape.value);
      AcceptedIffFilled(c, t.shape.value, t.height, lo);
    } else {
      NoLeaves(t.pages);
    }
  }

  // Every page of the tree is looked at.
  lemma LiveKept(s: Store, f: MappedFile, end: PageId, n: Node, rest: multiset<PageId>)
    requires Owns(FIRST_TREE_PAGE, s, rest + Ids(n)) && f.pages == s.pages && s.nextPage <= end
    ensures SameData(s.pages, TreePages(f, end), Ids(n))
    ensures forall x :: x in Ids(n) && x in s.pages ==> x in TreePages(f, end) && TreePages(f, end)[x] == s.pages[x]
  {
    hide Owns, Ids;
    forall x | x in Ids(n) && x in s.pages ensures x in TreePages(f, end) && TreePages(f, end)[x] == s.pages[x] {
      LiveIsNotAvailable(FIRST_TREE_PAGE, s, rest + Ids(n), x);
    }
  }

  lemma LinkedKept(s: Store, f: MappedFile, end: PageId, n: Node, rest: multiset<PageId>)
    requires Owns(FIRST_TREE_PAGE, s, rest + Ids(n)) && f.pages == s.pages && s.nextPage <= end && forall x ::
               x in LeafIds(n) ==> x in s.pages
    ensures Linked(TreePages(f, end), LeafIds(n)) <==> Linked(s.pages, LeafIds(n))
  {
    hide Owns, Ids, LeafIds, TreePages;
    LiveKept(s, f, end, n, rest);
    LeafIdsAmongIds(n);
    assert forall x :: x in LeafIds(n) ==> x in multiset(LeafIds(n));
  }

  // The lists resolve to what was saved.
  lemma SavedResolves(t: Tree, o: StoredOrder, f: MappedFile, end: PageId, maxPages: nat, m: Meta, ids: seq<PageId>)
    requires Written(f, t, ids) && m == MetaOf(RecordOf(t, o, ids, if ids == [] then 0 else ids[0], maxPages))
    requires FIRST_TREE_PAGE <= t.nextPage && m.nextPage <= end && m.nextPage <= FIRST_TREE_PAGE + maxPages
    ensures Chains.Resolved(ListFile(f, end, m), m.saved) == Some(BackLists(t, ids))
  {
    hide Chains.Holds, Chains.Walk, Chains.FreeOf, Chains.RetiredOf, Chains.RecordsFor, ListPages;
    if ids == [] {
      ChainNeeded(t.free, t.retired);
      Chains.FreeRecords(t.free);
    } else {
      var records, reclaim := Chains.RecordsFor(t.free, t.retired), |t.retired| > 0;
      HoldsStill(f, end, reclaim, ids, records, t.nextPage);
      Chains.WalkOfSaved(ListFile(f, end, m), reclaim, ids, records, 0);
      assert ids[..0] == [] && records[0..] == records && ids[0..] == ids && Chains.IdsOf([]) == {};
    }
  }

  lemma ChainNeeded(free: seq<PageId>, retired: seq<RetiredPage>)
    ensures Chains.ChainLength(free, retired) == 0 <==> retired == [] && |free| <= Chains.MAX_META_FREE_PAGES
  {
    if |retired| > 0 {
      Chains.CountPositive(|free| + |retired|, Chains.RECLAIM_CAPACITY);
    } else if |free| > Chains.MAX_META_FREE_PAGES {
      Chains.CountPositive(|free|, Chains.FREELIST_CAPACITY);
    }
  }

  lemma HoldsStill(f: MappedFile, end: PageId, reclaim: bool, ids: seq<PageId>, records: seq<Chains.Record>,
          nextPage: PageId)
    requires Chains.Holds(f.chains, reclaim, ids, records) && Chains.Fresh(ids, nextPage) && FIRST_TREE_PAGE <= nextPage
             && nextPage + |ids| <= end
    ensures Chains.Holds(ListPages(f, end), reclaim, ids, records)
  {
    forall i | 0 <= i < |ids| ensures Chains.HoldsChunk(ListPages(f, end), reclaim, ids, records, i) {
      assert Chains.HoldsChunk(f.chains, reclaim, ids, records, i);
    }
  }

  // The record of a sync is usable and stands for the tree that was synced.
  lemma SavedFits(t: Tree, o: StoredOrder, lo: nat, f: MappedFile, end: PageId, maxPages: nat, m: Meta,
          ids: seq<PageId>)
    requires Syncable(t, o, lo) && Written(f, t, ids)
             && m == MetaOf(RecordOf(t, o, ids, if ids == [] then 0 else ids[0], maxPages))
    requires m.nextPage <= end && m.nextPage <= FIRST_TREE_PAGE + maxPages && Recoverable(t)
    ensures Fits(f, end, m, t.shape, BackLists(t, ids))
    ensures m.root != 0 ==> FIRST_TREE_PAGE <= m.root < m.nextPage
  {
    hide Owns, Spells, Pinned, Linked, Current, TreeOk, ListsOk, Chains.Resolved, RevisionsOk, Written, OrderOf,
      Recoverable;
    SyncableMeans(t, o, lo);
    WrittenMeans(f, t, ids);
    SavedResolves(t, o, f, end, maxPages, m, ids);
    SavedTreeOk(t, o, lo, f, end, m);
    BackOwns(FIRST_TREE_PAGE, t.State(), t.listPages + LiveIds(t.shape), t.revision);
    ListsApart(BackStore(t.State()), t.listPages, t.shape, m, ids);
  }

  lemma WrittenMeans(f: MappedFile, t: Tree, ids: seq<PageId>)
    requires Written(f, t, ids)
    ensures f.damaged == {} && f.pages == t.pages && Chains.Fresh(ids, t.nextPage)
  {
  }

  lemma SyncableMeans(t: Tree, o: StoredOrder, lo: nat)
    requires Syncable(t, o, lo)
    ensures Owns(FIRST_TREE_PAGE, t.State(), t.listPages + LiveIds(t.shape)) && RetiredUpTo(t.retired, t.revision)
            && t.length == |PairsIn(t.shape)|
    ensures 2 <= t.degree <= MAX_PAGE_DEGREE && FIRST_TREE_PAGE <= t.nextPage && t.order == OrderOf(o)
    ensures t.root != 0 ==> FIRST_TREE_PAGE <= t.root < t.nextPage
  {
    hide Spells, Pinned, Linked, Current, Ids, Owns;
    RootMeans(t.order, t.degree, t.pages, t.root, t.shape, t.height, lo);
    OwnsStart(FIRST_TREE_PAGE, t.State(), t.listPages + LiveIds(t.shape));
    if t.shape.Some? {
      SpellsMeans(t.order, t.degree, t.pages, t.root, t.shape.value, t.height, lo);
      IdsBelow(t.shape.value);
      LiveIsNotAvailable(FIRST_TREE_PAGE, t.State(), t.listPages + LiveIds(t.shape), t.root);
    }
  }

  lemma OwnsStart(first: PageId, s: Store, live: multiset<PageId>)
    requires Owns(first, s, live)
    ensures first <= s.nextPage
  {
  }

  // ---- A sync and a reopen ----

  // All numbers of the tree can be stored.
  predicate Narrow(t: Tree, maxPages: nat)
    reads t
  {
    t.nextPage + |t.free| + |t.retired| + maxPages + t.length + t.revision < TWO63
  }

  lemma NarrowIsWide(t: Tree, o: StoredOrder, lo: nat, ids: seq<PageId>, root: PageId, maxPages: nat)
    requires Syncable(t, o, lo) && Narrow(t, maxPages) && t.nextPage + |ids| <= FIRST_TREE_PAGE + maxPages
    requires root == 0 || root < t.nextPage + |ids|
    requires root == 0 ==> |t.free| <= Chains.MAX_META_FREE_PAGES
    ensures Wide(MetaOf(RecordOf(t, o, ids, root, maxPages)))
  {
    hide Spells, Pinned, Linked, Current, Owns, RevisionsOk, RetiredIds, LiveIds, OrderOf;
    SyncableMeans(t, o, lo);
    forall i | 0 <= i < |t.free| ensures t.free[i] < TWO64 {
      OwnedOnce(FIRST_TREE_PAGE, t.State(), t.listPages + LiveIds(t.shape), t.free[i]);
      assert t.free[i] in multiset(t.free);
    }
  }

  // writeMetaPage, then readMetaPageChecked.
  method StoreMeta(crc: SlottedPages.Checksum, r: MetaRecord) returns (read: MetaRead)
    requires Writable(r) && Wide(MetaOf(r)) && ReadsBack(r)
    ensures read == Found(MetaOf(r))
  {
    hide Writable, Wide, ReadsBack, Image, Read, ReadPanics;
    var data := new Byte[PAGE_SIZE](_ => 0);
    var written := WriteMetaPage(data, crc, r);
    WriteReadRoundTrip(crc, r);
    WrittenDoesNotPanic(crc, MetaOf(r));
    var status;
    status, read := ReadMetaPage(data, crc);
  }

  lemma RoomForChain(t: Tree, maxPages: nat)
    requires t.nextPage <= FIRST_TREE_PAGE + maxPages
    ensures Chains.ChainLength(t.free, t.retired) == 0 ==>
              t.nextPage + Chains.ChainLength(t.free, t.retired) <= FIRST_TREE_PAGE + maxPages
  {
  }

  lemma SavedIsWritten(t: Tree, f: MappedFile, ids: seq<PageId>)
    requires f.damaged == {} && f.pages == t.pages && |ids| == Chains.ChainLength(t.free, t.retired)
             && Chains.Fresh(ids, t.nextPage)
    requires ids != [] ==> Chains.Holds(f.chains, |t.retired| > 0, ids, Chains.RecordsFor(t.free, t.retired))
    ensures Written(f, t, ids)
  {
  }

  // A sync never writes a record that would not read back.
  lemma PreparedReadsBack(t: Tree, o: StoredOrder, ids: seq<PageId>, root: PageId, maxPages: nat)
    requires t.nextPage >= 1 && Chains.Fresh(ids, t.nextPage) && |ids| == Chains.ChainLength(t.free, t.retired)
    requires root == if ids == [] then 0 else ids[0]
    ensures var r := RecordOf(t, o, ids, root, maxPages); Writable(r) && ReadsBack(r)
  {
    hide Chains.ChainLength;
    ChainNeeded(t.free, t.retired);
  }

  lemma SavedRecordOk(t: Tree, o: StoredOrder, lo: nat, ids: seq<PageId>, root: PageId, maxPages: nat)
    requires Syncable(t, o, lo) && Narrow(t, maxPages) && t.nextPage + |ids| <= FIRST_TREE_PAGE + maxPages
    requires |ids| == Chains.ChainLength(t.free, t.retired) && Chains.Fresh(ids, t.nextPage) && root == if ids == []
             then 0 else ids[0]
    ensures var r := RecordOf(t, o, ids, root, maxPages); Writable(r) && Wide(MetaOf(r)) && ReadsBack(r)
  {
    hide Syncable, Wide, OrderOf, Narrow, Chains.ChainLength, RetiredIds;
    ChainNeeded(t.free, t.retired);
    SyncableMeans(t, o, lo);
    PreparedReadsBack(t, o, ids, root, maxPages);
    NarrowIsWide(t, o, lo, ids, root, maxPages);
  }

  // The synced record is in its slot, can be used, and the other slot is older.
  ghost predicate Synced(t: Tree, o: StoredOrder, lo: nat, f: MappedFile, maxPages: nat, m: Meta, ids: seq<PageId>,
          slots: seq<MetaRead>)
    reads t
  {
    && Syncable(t, o, lo) && Written(f, t, ids) && |slots| == META_PAGE_COUNT
    && maxPages >= MIN_MMAP_PAGE_COUNT && f.pageCount == FIRST_TREE_PAGE + maxPages
    && m == MetaOf(RecordOf(t, o, ids, if ids == [] then 0 else ids[0], maxPages))
    && m.nextPage <= FIRST_TREE_PAGE + maxPages
    && slots[t.revision % META_PAGE_COUNT] == Found(m)
    && forall i: nat ::
      i < |slots| && i != t.revision % META_PAGE_COUNT && slots[i].Found? ==> slots[i].meta.revision < t.revision
  }

  lemma SyncedIsUsable(t: Tree, o: StoredOrder, lo: nat, f: MappedFile, maxPages: nat, m: Meta, ids: seq<PageId>,
          slots: seq<MetaRead>, wanted: Option<StoredOrder>)
    requires Synced(t, o, lo, f, maxPages, m, ids, slots) && Recoverable(t) && wanted in {None, Some(o)}
    ensures |slots| == META_PAGE_COUNT && UsableSlot(slots, t.revision % META_PAGE_COUNT, wanted, f)
    ensures m.nextPage <= LoadedEnd(slots, wanted, f.pageCount)
    ensures Fits(f, LoadedEnd(slots, wanted, f.pageCount), m, t.shape, BackLists(t, ids))
  {
    hide Syncable, Written, Fits, Recoverable;
    SyncableMeans(t, o, lo);
    var end := LoadedEnd(slots, wanted, f.pageCount);
    assert Candidate(Found(m), t.revision % META_PAGE_COUNT, wanted, f.pageCount);
    SavedFits(t, o, lo, f, end, maxPages, m, ids);
  }

  lemma Reopened(t: Tree, o: StoredOrder, lo: nat, f: MappedFile, maxPages: nat, m: Meta, ids: seq<PageId>,
          slots: seq<MetaRead>, wanted: Option<StoredOrder>, at: nat, shape: Option<Node>, lists: Chains.Loaded)
    requires Synced(t, o, lo, f, maxPages, m, ids, slots) && |slots| == META_PAGE_COUNT && at < |slots|
             && UsableSlot(slots, at, wanted, f)
    requires Recoverable(t) && wanted in {None, Some(o)}
    requires forall i: nat ::
               i < |slots| && UsableSlot(slots, i, wanted, f) ==> slots[i].meta.revision <= slots[at].meta.revision
    requires Fits(f, LoadedEnd(slots, wanted, f.pageCount), slots[at].meta, shape, lists)
    ensures slots[at] == Found(m) && lists == BackLists(t, ids)
    ensures forall x :: x in LiveIds(t.shape) && x in t.pages ==>
              x in TreePages(f, LoadedEnd(slots, wanted, f.pageCount))
                && TreePages(f, LoadedEnd(slots, wanted, f.pageCount))[x] == t.pages[x]
  {
    hide Syncable, Written, TreeOk, ListsOk, Linked, LiveIds, TreePages, LoadedEnd, CanUse, Recoverable;
    SyncedIsUsable(t, o, lo, f, maxPages, m, ids, slots, wanted);
    SyncableMeans(t, o, lo);
    WrittenMeans(f, t, ids);
    LivePagesKept(t, f, LoadedEnd(slots, wanted, f.pageCount));
  }

  // If the record that was synced is taken, the tree was recoverable.
  lemma TakenIsRecoverable(t: Tree, o: StoredOrder, lo: nat, f: MappedFile, maxPages: nat, m: Meta, ids: seq<PageId>,
          slots: seq<MetaRead>, wanted: Option<StoredOrder>, at: nat, shape: Option<Node>, lists: Chains.Loaded)
    requires Synced(t, o, lo, f, maxPages, m, ids, slots) && |slots| == META_PAGE_COUNT && at < |slots|
             && UsableSlot(slots, at, wanted, f)
    requires Fits(f, LoadedEnd(slots, wanted, f.pageCount), slots[at].meta, shape, lists)
             && slots[at].meta.revision == t.revision
    ensures Recoverable(t) && wanted in {None, Some(o)}
  {
    hide Syncable, Written, TreeOk, ListsOk, Linked, LiveIds, TreePages, CanUse, Recoverable, OrderOf, Chains.Resolved;
    SyncableMeans(t, o, lo);
    WrittenMeans(f, t, ids);
    assert at == t.revision % META_PAGE_COUNT && slots[at] == Found(m);
    FoundIsRecoverable(t, o, lo, f, LoadedEnd(slots, wanted, f.pageCount), m, shape);
  }

  lemma LivePagesKept(t: Tree, f: MappedFile, end: PageId)
    requires Owns(FIRST_TREE_PAGE, t.State(), t.listPages + LiveIds(t.shape)) && f.pages == t.pages && t.nextPage <= end
    ensures forall x ::
              x in LiveIds(t.shape) && x in t.pages ==> x in TreePages(f, end) && TreePages(f, end)[x] == t.pages[x]
  {
    hide Owns, Ids;
    if t.shape.Some? {
      LiveKept(t.State(), f, end, t.shape.value, t.listPages);
    }
  }

  lemma AppliedMeans(h: MappedTree, t: Tree, o: StoredOrder, lo: nat, m: Meta, ids: seq<PageId>, root: PageId,
          maxPages: nat)
    requires Syncable(t, o, lo) && h.Applied(m) && m == MetaOf(RecordOf(t, o, ids, root, maxPages))
    ensures h.root == t.root && h.length == t.length && h.revision == t.revision && h.degree == t.degree
            && h.keyOrder == o
    ensures h.nextPage == t.nextPage + |ids|
  {
    hide Syncable;
    SyncableMeans(t, o, lo);
  }

  // The pages of the lists are accounted for beside those of the tree.
  lemma {:induction false} FreshOwned(first: PageId, s: Store, live: multiset<PageId>, ids: seq<PageId>)
    requires Owns(first, s, live) && Chains.Fresh(ids, s.nextPage)
    ensures Owns(first, s.(nextPage := s.nextPage + |ids|), live + multiset(ids))
    decreases |ids|
  {
    hide Owns, Upto;
    if ids == [] {
      assert live + multiset(ids) == live && s.(nextPage := s.nextPage + |ids|) == s;
    } else {
      var front, last := ids[..|ids| - 1], ids[|ids| - 1];
      FreshOwned(first, s, live, front);
      TakeFresh(first, s.(nextPage := s.nextPage + |front|), live + multiset(front), 0);
      assert ids == front + [last] && last == s.nextPage + |front|;
      assert live + multiset(ids) == live + multiset(front) + multiset{last};
    }
  }

  // The store that a reopen finds.
  function StoreOf(h: MappedTree): Store
    reads h
  {
    Store(h.pages, h.nextPage, h.free, h.retired, None)
  }

  // Pages that hold the tree are as good as its own.
  lemma ReopenedWell(t: Tree, o: StoredOrder, lo: nat, f: MappedFile, end: PageId, ids: seq<PageId>)
    requires Syncable(t, o, lo) && Recoverable(t) && f.pages == t.pages && t.nextPage <= end
             && Chains.Fresh(ids, t.nextPage)
    ensures Spells(t.order, t.degree, TreePages(f, end), t.root, t.shape, t.height, lo)
    ensures Linked(TreePages(f, end), LeavesIn(t.shape))
    ensures Owns(FIRST_TREE_PAGE, BackStore(Store(TreePages(f, end), t.nextPage + |ids|, t.free, t.retired, None)),
              (t.listPages + LiveIds(t.shape)) + multiset(ids))
  {
    hide Pinned, Linked, Current, Unseen, Ids, LeafIds, Flat, Rep, Balanced, Readable, SortedKeys, OrderOf, Upto,
      RetiredIds;
    var s := Store(TreePages(f, end), t.nextPage, t.free, t.retired, None);
    assert Owns(FIRST_TREE_PAGE, s, t.listPages + LiveIds(t.shape));
    FreshOwned(FIRST_TREE_PAGE, s, t.listPages + LiveIds(t.shape), ids);
    SyncableMeans(t, o, lo);
    BackOwns(FIRST_TREE_PAGE, s.(nextPage := s.nextPage + |ids|), (t.listPages + LiveIds(t.shape)) + multiset(ids),
        t.revision);
    NoLeaves(TreePages(f, end));
    if t.shape.Some? {
      TreeIsThere(t, o, lo, f, end);
    }
  }

  // What was found is what was synced: the root, the counters, the lists (apart from pages
  // retired at revision zero, which come back as free), every page of the tree, and the
  // lists' own pages beside those of earlier syncs.
  ghost predicate Regained(t: Tree, o: StoredOrder, h: MappedTree, lo: nat)
    reads t, h
  {
    && h.root == t.root && h.length == t.length && h.revision == t.revision && h.degree == t.degree && h.keyOrder == o
    && h.free == Chains.FreeBack(t.free, t.retired) && h.retired == Chains.RetiredBack(t.free, t.retired)
    && (h.free == t.free && h.retired == t.retired <==> Chains.NoneAtZero(t.retired))
    && h.nextPage == t.nextPage + |h.metaFreelistPages|
    && (forall x :: x in LiveIds(t.shape) && x in t.pages ==> x in h.pages && h.pages[x] == t.pages[x])
    && Spells(t.order, t.degree, h.pages, h.root, t.shape, t.height, lo) && Linked(h.pages, LeavesIn(t.shape))
    && Owns(FIRST_TREE_PAGE, StoreOf(h), (t.listPages + LiveIds(t.shape)) + multiset(h.metaFreelistPages))
    && h.pages.Keys !! h.file.chains.Keys
  }

  lemma AllRegained(t: Tree, o: StoredOrder, h: MappedTree, lo: nat)
    requires h.root == t.root && h.length == t.length && h.revision == t.revision && h.degree == t.degree
             && h.keyOrder == o
    requires Chains.Loaded(h.free, h.retired, h.metaFreelistPages) == BackLists(t, h.metaFreelistPages)
             && h.nextPage == t.nextPage + |h.metaFreelistPages|
    requires forall x :: x in LiveIds(t.shape) && x in t.pages ==> x in h.pages && h.pages[x] == t.pages[x]
    requires Spells(t.order, t.degree, h.pages, h.root, t.shape, t.height, lo) && Linked(h.pages, LeavesIn(t.shape))
    requires Owns(FIRST_TREE_PAGE, StoreOf(h), (t.listPages + LiveIds(t.shape)) + multiset(h.metaFreelistPages))
    requires h.pages.Keys !! h.file.chains.Keys
    ensures Regained(t, o, h, lo)
  {
    hide Owns, Spells, Linked, LiveIds, Chains.FreeOf, Chains.RetiredOf, Chains.RecordsFor;
    Chains.RecordsRoundTrip(t.free, t.retired);
  }

  // A reopen of a file with the record that was just synced.
  method Reopen(t: Tree, o: StoredOrder, f: MappedFile, slots: seq<MetaRead>, other: MetaRead,
          wanted: Option<StoredOrder>, capacity: nat, ghost lo: nat, ghost maxPages: nat, ghost m: Meta,
          ghost ids: seq<PageId>)
    returns (r: Status, ok: bool, h: MappedTree)
    requires Synced(t, o, lo, f, maxPages, m, ids, slots) && |slots| == META_PAGE_COUNT
    requires slots == if t.revision % 2 == 0 then [Found(m), other] else [other, Found(m)]
    requires |t.free| + |t.retired| <= capacity
    ensures fresh(h)
    ensures ok && h.revision == t.revision <==> Recoverable(t) && wanted in {None, Some(o)}
    ensures ok && wanted.Some? ==> h.keyOrder == wanted.value
    ensures wanted !in {None, Some(o)} && !other.Found? ==> !ok
    ensures r.Panic? ==> !ok && other.Found? && !Chains.Reservable(other.meta.saved, capacity)
    ensures Recoverable(t) && wanted in {None, Some(o)} ==> Regained(t, o, h, lo)
  {
    hide *;
    SyncedMeans(t, o, lo, f, maxPages, m, ids, slots);
    SyncableMeans(t, o, lo);
    h := new MappedTree(f, wanted, capacity);
    if Recoverable(t) && wanted in {None, Some(o)} {
      SyncedIsUsable(t, o, lo, f, maxPages, m, ids, slots, wanted);
    }
    OnlyOtherBreaks(t, o, lo, f, maxPages, m, ids, slots, other, wanted, capacity);
    ghost var at, shape;
    r, ok, at, shape := h.LoadMeta(slots);
    if Recoverable(t) && wanted in {None, Some(o)} {
      Reopened(t, o, lo, f, maxPages, m, ids, slots, wanted, at, shape,
          Chains.Loaded(h.free, h.retired, h.metaFreelistPages));
      AppliedMeans(h, t, o, lo, m, ids, if ids == [] then 0 else ids[0], maxPages);
      FoundStore(t, o, lo, f, maxPages, m, ids, slots, wanted, h);
      AllRegained(t, o, h, lo);
    } else if ok {
      if h.revision == t.revision {
        TakenIsRecoverable(t, o, lo, f, maxPages, m, ids, slots, wanted, at, shape,
            Chains.Loaded(h.free, h.retired, h.metaFreelistPages));
      }
      OtherIsTaken(t, o, lo, f, maxPages, m, ids, slots, other, wanted, at);
    }
  }

  // If another order is asked for, what was synced is no candidate.
  lemma OtherIsTaken(t: Tree, o: StoredOrder, lo: nat, f: MappedFile, maxPages: nat, m: Meta, ids: seq<PageId>,
          slots: seq<MetaRead>, other: MetaRead, wanted: Option<StoredOrder>, at: nat)
    requires Synced(t, o, lo, f, maxPages, m, ids, slots) && |slots| == META_PAGE_COUNT
    requires slots == if t.revision % 2 == 0 then [Found(m), other] else [other, Found(m)]
    requires at < |slots| && UsableSlot(slots, at, wanted, f)
    ensures wanted !in {None, Some(o)} ==> slots[at] == other && other.Found?
  {
    hide Syncable, Written, CanUse, LoadedEnd;
  }

  // A sync and a reopen, while the other metadata page is older. The reopen takes what was
  // synced if and only if the tree is recoverable and no other key order is asked for.
  method SyncAndReopen(t: Tree, o: StoredOrder, chains: Chains.ChainMap, maxPages: nat, other: MetaRead,
          wanted: Option<StoredOrder>, crc: SlottedPages.Checksum, capacity: nat, ghost lo: nat)
    returns (saved: bool, r: Status, ok: bool, h: MappedTree)
    requires Syncable(t, o, lo) && Narrow(t, maxPages)
    requires maxPages >= 2 && t.nextPage <= FIRST_TREE_PAGE + maxPages
    requires other.Found? ==> other.meta.revision < t.revision
    requires |t.free| + |t.retired| <= capacity
    requires t.pages.Keys !! chains.Keys
    ensures saved <==> t.nextPage + Chains.ChainLength(t.free, t.retired) <= FIRST_TREE_PAGE + maxPages
    ensures fresh(h)
    ensures saved ==> (ok && h.revision == t.revision <==> Recoverable(t) && wanted in {None, Some(o)})
    ensures ok && wanted.Some? ==> h.keyOrder == wanted.value
    ensures saved && wanted !in {None, Some(o)} && !other.Found? ==> !ok
    ensures r.Panic? ==> !ok && other.Found? && !Chains.Reservable(other.meta.saved, capacity)
    ensures saved && Recoverable(t) && wanted in {None, Some(o)} ==> Regained(t, o, h, lo)
  {
    hide *;
    SyncableMeans(t, o, lo);
    TwoSlots(t.revision);
    var chains', nextPage', ids, lists;
    saved, lists, chains', nextPage',
      ids := Chains.Save(t.free, t.retired, chains, t.nextPage, FIRST_TREE_PAGE + maxPages);
    PagesApart(t, o, lo, chains, chains', ids, saved);
    var f := FileData(t.pages, chains', {}, FIRST_TREE_PAGE + maxPages);
    RoomForChain(t, maxPages);
    r, ok := Done, false;
    if !saved {
      h := new MappedTree(f, wanted, capacity);
      return;
    }
    var root := if ids == [] then 0 else ids[0];
    ghost var m := MetaOf(RecordOf(t, o, ids, root, maxPages));
    SavedIsWritten(t, f, ids);
    SavedRecordOk(t, o, lo, ids, root, maxPages);
    var read := StoreMeta(crc, RecordOf(t, o, ids, root, maxPages));
    var slots := if t.revision % 2 == 0 then [read, other] else [other, read];
    SyncedNow(t, o, lo, f, maxPages, m, ids, slots, other);
    r, ok, h := Reopen(t, o, f, slots, other, wanted, capacity, lo, maxPages, m, ids);
  }

  // What was synced can be given room, and the other record is only looked at if what was
  // synced cannot be used.
  lemma OnlyOtherBreaks(t: Tree, o: StoredOrder, lo: nat, f: MappedFile, maxPages: nat, m: Meta, ids: seq<PageId>,
          slots: seq<MetaRead>, other: MetaRead, wanted: Option<StoredOrder>, capacity: nat)
    requires Synced(t, o, lo, f, maxPages, m, ids, slots) && |slots| == META_PAGE_COUNT
    requires slots == if t.revision % 2 == 0 then [Found(m), other] else [other, Found(m)]
    requires |t.free| + |t.retired| <= capacity
    requires Recoverable(t) && wanted in {None, Some(o)} ==> UsableSlot(slots, t.revision % META_PAGE_COUNT, wanted, f)
    ensures (exists i: nat :: i < |slots| && BreaksAt(slots, i, wanted, f, capacity)) ==>
              !(Recoverable(t) && wanted in {None, Some(o)}) && other.Found?
                && !Chains.Reservable(other.meta.saved, capacity)
  {
    hide Syncable, Written, Recoverable, CanUse, LoadedEnd;
  }

  // List pages are written where there is no tree page.
  lemma PagesApart(t: Tree, o: StoredOrder, lo: nat, chains: Chains.ChainMap, chains': Chains.ChainMap,
          ids: seq<PageId>, saved: bool)
    requires Syncable(t, o, lo) && t.pages.Keys !! chains.Keys
    requires if saved then chains'.Keys <= chains.Keys + (set x | x in ids) && Chains.Fresh(ids, t.nextPage)
             else chains' == chains
    ensures t.pages.Keys !! chains'.Keys
  {
    hide Spells, Pinned, Linked, Current, Ids, LiveIds;
  }

  lemma SyncedMeans(t: Tree, o: StoredOrder, lo: nat, f: MappedFile, maxPages: nat, m: Meta, ids: seq<PageId>,
          slots: seq<MetaRead>)
    requires Synced(t, o, lo, f, maxPages, m, ids, slots)
    ensures Syncable(t, o, lo) && Written(f, t, ids) && m.nextPage == t.nextPage + |ids|
    ensures m == MetaOf(RecordOf(t, o, ids, if ids == [] then 0 else ids[0], maxPages))
  {
    hide Syncable, Written;
  }

  lemma TreePagesApart(f: MappedFile, end: PageId)
    ensures TreePages(f, end).Keys !! f.chains.Keys
  {
  }

  lemma FoundStore(t: Tree, o: StoredOrder, lo: nat, f: MappedFile, maxPages: nat, m: Meta, ids: seq<PageId>,
          slots: seq<MetaRead>, wanted: Option<StoredOrder>, h: MappedTree)
    requires Synced(t, o, lo, f, maxPages, m, ids, slots) && |slots| == META_PAGE_COUNT && Recoverable(t)
             && wanted in {None, Some(o)}
    requires h.pages == TreePages(f, LoadedEnd(slots, wanted, f.pageCount)) && h.root == t.root
             && h.nextPage == t.nextPage + |ids|
    requires Chains.Loaded(h.free, h.retired, h.metaFreelistPages) == BackLists(t, ids)
    ensures Spells(t.order, t.degree, h.pages, h.root, t.shape, t.height, lo) && Linked(h.pages, LeavesIn(t.shape))
    ensures Owns(FIRST_TREE_PAGE, StoreOf(h), (t.listPages + LiveIds(t.shape)) + multiset(h.metaFreelistPages))
    ensures h.pages.Keys !! f.chains.Keys
  {
    hide Syncable, Written, Linked, LiveIds, TreePages, LoadedEnd, Recoverable, Owns, Spells, Synced, Fits, UsableSlot;
    SyncedIsUsable(t, o, lo, f, maxPages, m, ids, slots, wanted);
    SyncedMeans(t, o, lo, f, maxPages, m, ids, slots);
    WrittenMeans(f, t, ids);
    ReopenedWell(t, o, lo, f, LoadedEnd(slots, wanted, f.pageCount), ids);
    TreePagesApart(f, LoadedEnd(slots, wanted, f.pageCount));
  }

  // The tree that an open makes of what was found (pagebtree/mmap.go, OpenMmap). Everything
  // that holds of a well-formed tree holds of it, and it may be synced again.
  method Resume(t: Tree, o: StoredOrder, h: MappedTree, repairPercent: nat, growLimit: Option<PageId>, ghost lo: nat)
    returns (u: Tree)
    requires Syncable(t, o, lo) && Recoverable(t) && Regained(t, o, h, lo)
    requires repairPercent <= 100
    ensures fresh(u) && Syncable(u, o, lo) && Recoverable(u) && u.readers == map[] && !u.readOnly
    ensures Pairs(u) == Pairs(t) && u.revision == t.revision && u.order == t.order && u.degree == t.degree
    ensures u.listPages == t.listPages + multiset(h.metaFreelistPages)
    ensures u.pages.Keys !! h.file.chains.Keys
  {
    hide Owns, Spells, Linked, Upto, OrderOf, Recoverable, Syncable;
    SyncableMeans(t, o, lo);
    u := new Tree(OrderOf(h.keyOrder), h.degree, repairPercent, FIRST_TREE_PAGE, growLimit);
    FillFields(u, h);
    FillShape(u, t, h);
    ResumedWell(t, o, h, u, lo);
  }

  method FillFields(u: Tree, h: MappedTree)
    requires h.length >= 0
    modifies u`pages, u`root, u`nextPage, u`length, u`revision, u`free, u`retired
    ensures u.pages == h.pages && u.root == h.root && u.nextPage == h.nextPage && u.length == h.length
            && u.revision == h.revision && u.free == h.free && u.retired == h.retired
  {
    u.pages, u.root, u.nextPage, u.length := h.pages, h.root, h.nextPage, h.length;
    u.revision, u.free, u.retired := h.revision, h.free, h.retired;
  }

  ghost method FillShape(u: Tree, t: Tree, h: MappedTree)
    requires u != t
    modifies u`shape, u`height, u`listPages
    ensures u.shape == t.shape && u.height == t.height && u.listPages == t.listPages + multiset(h.metaFreelistPages)
  {
    u.shape, u.height, u.listPages := t.shape, t.height, t.listPages + multiset(h.metaFreelistPages);
  }

  lemma OwnsAnyLimit(first: PageId, s: Store, s': Store, live: multiset<PageId>)
    requires Owns(first, s, live) && s' == s.(limit := s'.limit)
    ensures Owns(first, s', live)
  {
    hide Upto;
  }

  // A tree that nobody reads yet.
  lemma NobodyReads(u: Tree, lo: nat)
    requires u.degree >= 2 && lo < u.degree && u.length == |PairsIn(u.shape)| && u.readers == map[] && u.pins == map[]
    requires Owns(u.first, u.State(), u.listPages + LiveIds(u.shape)) && RetiredUpTo(u.retired, u.revision)
    requires Spells(u.order, u.degree, u.pages, u.root, u.shape, u.height, lo) && Linked(u.pages, LeavesIn(u.shape))
    ensures WellFormed(u, lo)
  {
    hide Owns, Spells, Linked, LiveIds, PairsIn, LeavesIn;
  }

  lemma ResumedWell(t: Tree, o: StoredOrder, h: MappedTree, u: Tree, lo: nat)
    requires Syncable(t, o, lo) && Recoverable(t) && Regained(t, o, h, lo)
    requires u.order == t.order && u.degree == t.degree && u.first == FIRST_TREE_PAGE
    requires u.pages == h.pages && u.root == h.root && u.nextPage == h.nextPage && u.length == h.length
             && u.revision == h.revision && u.free == h.free && u.retired == h.retired
    requires u.shape == t.shape && u.height == t.height && u.listPages == t.listPages + multiset(h.metaFreelistPages)
    requires u.readers == map[] && u.pins == map[] && !u.closed
    ensures Syncable(u, o, lo) && Recoverable(u) && Pairs(u) == Pairs(t)
  {
    hide WellFormed, Spells, Linked, OrderOf, LiveIds, PairsIn, LeavesIn, HalfFilled, RevisionsOk, Owns;
    SyncableMeans(t, o, lo);
    assert u.listPages + LiveIds(t.shape) == (t.listPages + LiveIds(t.shape)) + multiset(h.metaFreelistPages);
    OwnsAnyLimit(FIRST_TREE_PAGE, StoreOf(h), u.State(), u.listPages + LiveIds(u.shape));
    Chains.BackKeeps(t.free, t.retired);
    NobodyReads(u, lo);
  }

  lemma TwoSlots(revision: nat)
    ensures revision % META_PAGE_COUNT == revision % 2
  {
  }

  lemma SyncedNow(t: Tree, o: StoredOrder, lo: nat, f: MappedFile, maxPages: nat, m: Meta, ids: seq<PageId>,
          slots: seq<MetaRead>, other: MetaRead)
    requires Syncable(t, o, lo) && Written(f, t, ids) && maxPages >= 2
             && f.pageCount == FIRST_TREE_PAGE + maxPages
    requires m == MetaOf(RecordOf(t, o, ids, if ids == [] then 0 else ids[0], maxPages))
             && t.nextPage + |ids| <= FIRST_TREE_PAGE + maxPages
    requires other.Found? ==> other.meta.revision < t.revision
    requires slots == if t.revision % 2 == 0 then [Found(m), other] else [other, Found(m)]
    ensures |slots| == META_PAGE_COUNT && Synced(t, o, lo, f, maxPages, m, ids, slots)
  {
    hide Syncable, Written;
  }
}
