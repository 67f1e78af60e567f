// Choosing the root to recover from (pagebtree/mmap.go).

module Recovery {
  import opened KeyOrder
  import opened Contents
  import opened Pages
  import opened Nodes
  import opened LeafLinks
  import opened Invariants
  import opened Integrity
  import opened Acceptance
  import opened Audits
  import opened MetaPages
  import Chains = ReclaimChains

  const META_PAGE_COUNT := 2
  const MIN_MMAP_PAGE_COUNT := 2
  const MAX_PAGE_DEGREE := 255

  // A file: its tree pages, its list pages, the pages with a wrong checksum or layout, and
  // how many pages are mapped. The flags of a page say which kind it is.
  datatype FileData = FileData(pages: PageMap, chains: Chains.ChainMap, damaged: set<PageId>, pageCount: nat)

  type MappedFile = f: FileData | f.pages.Keys !! f.chains.Keys witness FileData(map[], map[], {}, 0)

  function OrderOf(o: StoredOrder): Order {
    PersistedOrdersAreStrict();
    if o.BytewiseOrder? then Bytewise else Reverse
  }

  // ---- Candidates ----

  // validateMetaBounds
  predicate BoundsOk(m: Meta, pageCount: nat) {
    && m.maxPages >= MIN_MMAP_PAGE_COUNT && FIRST_TREE_PAGE <= m.nextPage <= FIRST_TREE_PAGE + m.maxPages
    && m.nextPage <= pageCount && (m.root != 0 ==> FIRST_TREE_PAGE <= m.root < m.nextPage)
  }

  // validateMetaSlot, validateMetaKeyOrder and validateMetaBounds
  predicate Candidate(read: MetaRead, slot: nat, requested: Option<StoredOrder>, pageCount: nat) {
    && read.Found? && read.meta.revision % META_PAGE_COUNT == slot
    && (requested.Some? ==> read.meta.keyOrder == requested.value)
    && BoundsOk(read.meta, pageCount)
  }

  // Where the pages that are looked at end: at the highest next page of a candidate.
  function LoadedEnd(slots: seq<MetaRead>, requested: Option<StoredOrder>, pageCount: nat): PageId
    requires |slots| == META_PAGE_COUNT
  {
    var a := if Candidate(slots[0], 0, requested, pageCount) then slots[0].meta.nextPage else FIRST_TREE_PAGE;
    var b := if Candidate(slots[1], 1, requested, pageCount) then slots[1].meta.nextPage else FIRST_TREE_PAGE;
    if a > b then a else b
  }

  // ---- What is checked of a candidate ----

  function TreePages(f: MappedFile, end: PageId): PageMap {
    map x | x in f.pages && FIRST_TREE_PAGE <= x < end :: f.pages[x]
  }

  function ListPages(f: MappedFile, end: PageId): Chains.ChainMap {
    map x | x in f.chains && FIRST_TREE_PAGE <= x < end :: f.chains[x]
  }

  function ListFile(f: MappedFile, end: PageId, m: Meta): Chains.File
    requires m.maxPages >= 0
  {
    Chains.File(ListPages(f, end), f.damaged, m.nextPage, m.maxPages)
  }

  function SubjectOf(f: MappedFile, end: PageId, m: Meta): Subject {
    Subject(TreePages(f, end), m.root, if m.degree < 2 then 2 else m.degree, OrderOf(m.keyOrder), f.damaged)
  }

  ghost function LiveSet(shape: Option<Node>): set<PageId> {
    IdSet(LiveIds(shape))
  }

  ghost predicate TreeOk(c: Subject, shape: Option<Node>) {
    && RootOf(shape) == c.root
    && (shape.Some? ==> Acceptable(c, shape.value, None, None) && Unseen(Ids(shape.value), {}))
  }

  // None of the pages is claimed, and none occurs twice.
  ghost predicate Apart(ids: seq<PageId>, claimed: set<PageId>) {
    forall i :: 0 <= i < |ids| ==> ids[i] !in claimed && ids[i] !in ids[..i]
  }

  predicate Reusable(id: PageId, m: Meta) {
    FIRST_TREE_PAGE <= id < m.nextPage && id < FIRST_TREE_PAGE + m.maxPages
  }

  ghost predicate AllReusable(ids: seq<PageId>, m: Meta) {
    forall i :: 0 <= i < |ids| ==> Reusable(ids[i], m)
  }

  ghost predicate RevisionsOk(retired: seq<RetiredPage>, revision: nat) {
    forall i :: 0 <= i < |retired| ==> 1 <= retired[i].revision <= revision
  }

  ghost predicate ListsOk(m: Meta, live: set<PageId>, lists: Chains.Loaded) {
    && Apart(lists.chain, live)
    && AllReusable(lists.free, m) && Apart(lists.free, live + Chains.IdsOf(lists.chain))
    && RevisionsOk(lists.retired, m.revision) && AllReusable(RetiredIds(lists.retired), m)
    && Apart(RetiredIds(lists.retired), live + Chains.IdsOf(lists.chain) + Chains.IdsOf(lists.free))
  }

  // The record is usable: this is the tree and these are the lists that it stands for.
  ghost predicate Fits(f: MappedFile, end: PageId, m: Meta, shape: Option<Node>, lists: Chains.Loaded) {
    && m.maxPages >= 0 && Chains.Resolved(ListFile(f, end, m), m.saved) == Some(lists)
    && TreeOk(SubjectOf(f, end, m), shape)
    && ListsOk(m, LiveSet(shape), lists)
    && Linked(TreePages(f, end), LeavesIn(shape))
    && m.length == |PairsIn(shape)| && 2 <= m.degree <= MAX_PAGE_DEGREE
  }

  ghost predicate CanUse(f: MappedFile, end: PageId, m: Meta) {
    exists shape: Option<Node>, lists: Chains.Loaded :: Fits(f, end, m, shape, lists)
  }

  // ---- Checking lists ----

  // Claim pages one by one, unless one of them is taken.
  method Claim(ids: seq<PageId>, claimed: set<PageId>) returns (ok: bool, claimed': set<PageId>)
    ensures ok <==> Apart(ids, claimed)
    ensures ok ==> claimed' == claimed + Chains.IdsOf(ids)
  {
    claimed' := claimed;
    for i := 0 to |ids|
      invariant claimed' == claimed + Chains.IdsOf(ids[..i])
      invariant forall j :: 0 <= j < i ==> ids[j] !in claimed && ids[j] !in ids[..j]
    {
      if ids[i] in claimed' {
        return false, claimed';
      }
      Chains.IdsOfStep(ids, i);
      claimed' := claimed' + {ids[i]};
    }
    assert ids[..|ids|] == ids;
    return true, claimed';
  }

  lemma ApartMeans(ids: seq<PageId>, claimed: set<PageId>)
    ensures Apart(ids, claimed) <==>
            (forall id :: id in ids ==> id !in claimed) && (forall i, j :: 0 <= i < j < |ids| ==> ids[i] != ids[j])
  {
    if Apart(ids, claimed) {
      forall i, j | 0 <= i < j < |ids| ensures ids[i] != ids[j] {
        assert ids[..j][i] == ids[i];
      }
    } else {
      var j :| 0 <= j < |ids| && !(ids[j] !in claimed && ids[j] !in ids[..j]);
      if ids[j] in ids[..j] {
        var i :| 0 <= i < j && ids[..j][i] == ids[j];
      }
    }
  }

  lemma InRangeOnce(ids: seq<PageId>, m: Meta, claimed: set<PageId>)
    ensures AllReusable(ids, m) && Apart(ids, claimed) <==>
            && (forall id :: id in ids ==> 2 <= id < m.nextPage && id < 2 + m.maxPages && id !in claimed)
            && (forall i, j :: 0 <= i < j < |ids| ==> ids[i] != ids[j])
  {
    hide Apart;
    ApartMeans(ids, claimed);
    if forall id :: id in ids ==> 2 <= id < m.nextPage && id < 2 + m.maxPages {
      assert forall i :: 0 <= i < |ids| ==> ids[i] in ids;
    }
  }

  lemma RetiredInRangeOnce(retired: seq<RetiredPage>, m: Meta, claimed: set<PageId>)
    ensures RevisionsOk(retired, m.revision) && AllReusable(RetiredIds(retired), m)
            && Apart(RetiredIds(retired), claimed) <==>
            && (forall r :: r in retired ==>
                  && 1 <= r.revision <= m.revision
                  && 2 <= r.id < m.nextPage && r.id < 2 + m.maxPages && r.id !in claimed)
            && (forall i, j :: 0 <= i < j < |retired| ==> retired[i].id != retired[j].id)
  {
    hide Apart, AllReusable;
    var ids := RetiredIds(retired);
    InRangeOnce(ids, m, claimed);
    assert |ids| == |retired| && forall i :: 0 <= i < |retired| ==> ids[i] == retired[i].id;
    forall r | r in retired ensures r.id in ids {
      var i :| 0 <= i < |retired| && retired[i] == r;
      assert ids[i] == r.id;
    }
    forall id | id in ids ensures exists r :: r in retired && r.id == id {
      var i :| 0 <= i < |ids| && ids[i] == id;
      assert retired[i] in retired;
    }
    if forall r :: r in retired ==> 1 <= r.revision <= m.revision {
      assert forall i :: 0 <= i < |retired| ==> retired[i] in retired;
    }
  }

  // validateFreelist. A claimed id is refused whether it is reachable or was seen before.
  method ValidateFreelist(m: Meta, free: seq<PageId>, claimed: set<PageId>) returns (ok: bool, claimed': set<PageId>)
    ensures ok <==> AllReusable(free, m) && Apart(free, claimed)
    ensures ok <==>
            && (forall id :: id in free ==> 2 <= id < m.nextPage && id < 2 + m.maxPages && id !in claimed)
            && (forall i, j :: 0 <= i < j < |free| ==> free[i] != free[j])
    ensures ok ==> claimed' == claimed + Chains.IdsOf(free)
  {
    InRangeOnce(free, m, claimed);
    hide Reusable;
    claimed' := claimed;
    for i := 0 to |free|
      invariant claimed' == claimed + Chains.IdsOf(free[..i])
      invariant forall j :: 0 <= j < i ==> Reusable(free[j], m) && free[j] !in claimed && free[j] !in free[..j]
    {
      if !Reusable(free[i], m) || free[i] in claimed' {
        return false, claimed';
      }
      Chains.IdsOfStep(free, i);
      claimed' := claimed' + {free[i]};
    }
    assert free[..|free|] == free;
    return true, claimed';
  }

  // validateRetiredPages
  method ValidateRetiredPages(m: Meta, retired: seq<RetiredPage>, claimed: set<PageId>) returns (ok: bool)
    ensures ok <==>
              RevisionsOk(retired, m.revision) && AllReusable(RetiredIds(retired), m)
              && Apart(RetiredIds(retired), claimed)
    ensures ok <==>
            && (forall r :: r in retired ==>
                  && 1 <= r.revision <= m.revision
                  && 2 <= r.id < m.nextPage && r.id < 2 + m.maxPages && r.id !in claimed)
            && (forall i, j :: 0 <= i < j < |retired| ==> retired[i].id != retired[j].id)
  {
    RetiredInRangeOnce(retired, m, claimed);
    hide Reusable;
    var claimed' := claimed;
    ghost var ids := RetiredIds(retired);
    for i := 0 to |retired|
      invariant claimed' == claimed + Chains.IdsOf(ids[..i])
      invariant forall j :: 0 <= j < i ==> 1 <= retired[j].revision <= m.revision
      invariant forall j :: 0 <= j < i ==> Reusable(ids[j], m) && ids[j] !in claimed && ids[j] !in ids[..j]
    {
      var id := retired[i].id;
      assert id == ids[i];
      if retired[i].revision == 0 || retired[i].revision > m.revision || !Reusable(id, m) || id in claimed' {
        return false;
      }
      Chains.IdsOfStep(ids, i);
      claimed' := claimed' + {id};
    }
    return true;
  }

  // validateReachablePages. `want` is a tree that the root may stand for: then it is found.
  method ValidateReachablePages(c: Subject, ghost want: Option<Node>)
    returns (ok: bool, reachable: set<PageId>, ghost shape: Option<Node>)
    requires c.degree >= 2
    ensures ok ==> TreeOk(c, shape) && reachable == LiveSet(shape)
    ensures TreeOk(c, want) ==> ok && shape == want
  {
    hide Acceptable, Unseen, Ids, IdSet;
    ghost var good := TreeOk(c, want);
    reachable, shape := {}, None;
    if good && want.Some? {
      NonzeroRoot(c, want.value);
    }
    if c.root == 0 {
      NothingLive();
      return true, {}, None;
    }
    ghost var n;
    ok, reachable, n := ValidatePageBounds(c, c.root, {}, None, None, if good then want else None);
    shape := Some(n);
    assert {} + IdSet(Ids(n)) == IdSet(Ids(n));
  }

  lemma NonzeroRoot(c: Subject, n: Node)
    requires Acceptable(c, n, None, None)
    ensures n.id != 0
  {
    hide GoodSlots, SortedKeys, Separators, RootIds, RoomBetween;
  }

  lemma NothingLive()
    ensures LiveSet(None) == {}
  {
  }

  // ---- The tree handle ----

  class MappedTree {
    const file: MappedFile
    const requested: Option<StoredOrder>
    // How many entries a list can be given room for.
    const capacity: nat

    var pages: PageMap
    var root: PageId
    var nextPage: PageId
    var length: int
    var revision: nat
    var syncedRevision: nat
    var degree: nat
    var keyOrder: StoredOrder
    var free: seq<PageId>
    var retired: seq<RetiredPage>
    var metaFreelistRoot: PageId
    var metaFreelistPages: seq<PageId>
    var metadataUpgradePending: bool

    constructor (file: MappedFile, requested: Option<StoredOrder>, capacity: nat)
      ensures this.file == file && this.requested == requested && this.capacity == capacity
    {
      this.file, this.requested, this.capacity := file, requested, capacity;
      pages, root, nextPage, length := map[], 0, FIRST_TREE_PAGE, 0;
      revision, syncedRevision, degree, keyOrder := 0, 0, 2, BytewiseOrder;
      free, retired, metaFreelistRoot, metaFreelistPages, metadataUpgradePending := [], [], 0, [], false;
    }

    // The fields are those of this record.
    ghost predicate Applied(m: Meta)
      reads this
    {
      && root == m.root && length == m.length && revision == m.revision && syncedRevision == m.revision
      && degree == (if m.degree < 2 then 2 else m.degree) && keyOrder == m.keyOrder
      && nextPage == (if m.nextPage < FIRST_TREE_PAGE then FIRST_TREE_PAGE else m.nextPage)
    }

    method ApplyMetaRecord(m: Meta)
      modifies `root, `nextPage, `length, `revision, `syncedRevision, `degree, `keyOrder, `free, `retired,
        `metaFreelistRoot, `metaFreelistPages
      ensures Applied(m) && free == [] && retired == [] && metaFreelistRoot == 0 && metaFreelistPages == []
    {
      root, nextPage, length, revision, syncedRevision := m.root, m.nextPage, m.length, m.revision, m.revision;
      degree := if m.degree < 2 then 2 else m.degree;
      keyOrder := m.keyOrder;
      free, retired, metaFreelistRoot, metaFreelistPages := [], [], 0, [];
      if nextPage < FIRST_TREE_PAGE {
        nextPage := FIRST_TREE_PAGE;
      }
    }

    // One round of the candidate loop: accept the record or reject it.
    method TryRecord(m: Meta, end: PageId)
      returns (r: Status, ok: bool, lists: Chains.Loaded, ghost shape: Option<Node>)
      requires BoundsOk(m, file.pageCount) && pages == TreePages(file, end)
      modifies `root, `nextPage, `length, `revision, `syncedRevision, `degree, `keyOrder, `free, `retired,
        `metaFreelistRoot, `metaFreelistPages
      ensures r.Panic? <==> !Chains.Reservable(m.saved, capacity)
      ensures ok <==> r.Done? && CanUse(file, end, m)
      ensures ok ==> Fits(file, end, m, shape, lists) && Applied(m)
    {
      hide Fits;
      ApplyMetaRecord(m);
      r, ok, lists, shape := CheckRecord(m, file, end, capacity);
    }

    // The loop over the two slots that collects candidates, newest first.
    method Candidates(slots: seq<MetaRead>) returns (records: seq<Meta>, ghost from: seq<nat>)
      requires |slots| == META_PAGE_COUNT
      ensures Ranked(slots, requested, file.pageCount, records, from)
    {
      records, from := [], [];
      for index := 0 to META_PAGE_COUNT
        invariant |records| == |from| <= index
        invariant forall k ::
                    0 <= k < |from| ==>
                      from[k] < index && Candidate(slots[from[k]], from[k], requested, file.pageCount)
                      && records[k] == slots[from[k]].meta
        invariant forall i: nat :: i < index && Candidate(slots[i], i, requested, file.pageCount) ==> i in from
      {
        if Candidate(slots[index], index, requested, file.pageCount) {
          records := records + [slots[index].meta];
          from := from + [index];
        }
      }
      if |records| == 2 && records[0].revision < records[1].revision {
        records, from := [records[1], records[0]], [from[1], from[0]];
      }
    }

    // loadMeta: the record that is accepted is the newest usable one, whatever an earlier
    // candidate left in the fields.
    method LoadMeta(slots: seq<MetaRead>) returns (r: Status, ok: bool, ghost at: nat, ghost shape: Option<Node>)
      requires |slots| == META_PAGE_COUNT
      modifies this
      ensures r.Panic? <==> exists i: nat :: i < |slots| && BreaksAt(slots, i, requested, file, capacity)
      ensures ok <==> r.Done? && exists i: nat :: i < |slots| && UsableSlot(slots, i, requested, file)
      ensures ok ==>
                && at < |slots| && UsableSlot(slots, at, requested, file)
                && (forall i: nat ::
                  i < |slots| && UsableSlot(slots, i, requested, file) ==>
                    slots[i].meta.revision <= slots[at].meta.revision)
                && Applied(slots[at].meta) && metaFreelistRoot == slots[at].meta.saved.root
                && pages == TreePages(file, LoadedEnd(slots, requested, file.pageCount))
                && Fits(file, LoadedEnd(slots, requested, file.pageCount), slots[at].meta, shape,
                  Chains.Loaded(free, retired, metaFreelistPages))
      // The order asked for is respected, the record was where its revision belongs, and nothing
      // it stands for is outside of the file.
      ensures ok && requested.Some? ==> keyOrder == requested.value
      ensures ok ==> at < 2 && slots[at].Found? && revision == slots[at].meta.revision && revision % 2 == at
      ensures ok ==>
                && 2 <= nextPage <= file.pageCount && nextPage <= 2 + slots[at].meta.maxPages
                && slots[at].meta.maxPages >= 2
                && (root != 0 ==> 2 <= root < nextPage)
                && (forall x :: x in file.pages && 2 <= x < nextPage ==> x in pages && pages[x] == file.pages[x])
                && (forall x :: x in pages ==> x in file.pages && pages[x] == file.pages[x])
                && (forall x :: x in pages ==>
                      exists i :: 0 <= i < 2 && slots[i].Found? && 2 <= x < slots[i].meta.nextPage)
      ensures ok ==>
                && 2 <= degree <= 255 && length == |PairsIn(shape)| && root == RootOf(shape)
                && (forall x :: x in free || x in metaFreelistPages ==> 2 <= x < nextPage)
                && (forall r :: r in retired ==> 2 <= r.id < nextPage && 1 <= r.revision <= revision)
                && (slots[at].meta.saved.root != 0 ==> |free| + |retired| == slots[at].meta.saved.count)
    {
      hide *;
      at, shape := 0, None;
      var end := LoadedEnd(slots, requested, file.pageCount);
      var records, from := Candidates(slots);
      if |records| == 0 {
        NoneUsable(slots, requested, file, records, from);
        NoneBreaks(slots, requested, file, capacity, records, from);
        return Done, false, 0, None;
      }
      LoadPages(end);
      for k := 0 to |records|
        invariant pages == TreePages(file, end)
        invariant forall j :: 0 <= j < k ==>
                    !CanUse(file, end, records[j]) && Chains.Reservable(records[j].saved, capacity)
      {
        RankedMeans(slots, requested, file.pageCount, records, from, k);
        var lists;
        r, ok, lists, shape := TryRecord(records[k], end);
        if r.Panic? {
          BreaksHere(slots, requested, file, capacity, records, from, k);
          return r, false, 0, None;
        }
        if ok {
          NewestUsable(slots, requested, file, records, from, k);
          NoneBreaksBefore(slots, requested, file, capacity, records, from, k);
          Accept(records[k], lists);
          TakenMeans(slots, from[k], requested, file, shape, lists);
          return Done, true, from[k], shape;
        }
      }
      NoneUsable(slots, requested, file, records, from);
      NoneBreaks(slots, requested, file, capacity, records, from);
      return Done, false, 0, None;
    }

    method Accept(m: Meta, lists: Chains.Loaded)
      requires Applied(m)
      modifies `free, `retired, `metaFreelistRoot, `metaFreelistPages, `metadataUpgradePending
      ensures Applied(m) && metaFreelistRoot == m.saved.root && Chains.Loaded(free, retired, metaFreelistPages) == lists
      ensures metadataUpgradePending <==> m.saved.version < if lists.retired != [] then META_VERSION else 2
    {
      free, retired := lists.free, lists.retired;
      metaFreelistRoot, metaFreelistPages := m.saved.root, lists.chain;
      metadataUpgradePending := m.saved.version < if retired != [] then META_VERSION else 2;
    }

    method LoadPages(end: PageId)
      modifies `pages
      ensures pages == TreePages(file, end)
    {
      pages := TreePages(file, end);
    }
  }

  // The candidates of the slots, newest first.
  ghost predicate Ranked(slots: seq<MetaRead>, requested: Option<StoredOrder>, pageCount: nat, records: seq<Meta>,
          from: seq<nat>)
    requires |slots| == META_PAGE_COUNT
  {
    && |records| == |from|
    && (forall k ::
      0 <= k < |from| ==>
        from[k] < |slots| && Candidate(slots[from[k]], from[k], requested, pageCount)
        && records[k] == slots[from[k]].meta)
    && (forall i: nat :: i < |slots| && Candidate(slots[i], i, requested, pageCount) ==> i in from)
    && (forall j, k :: 0 <= j < k < |records| ==> records[j].revision >= records[k].revision)
  }

  ghost predicate UsableSlot(slots: seq<MetaRead>, i: nat, requested: Option<StoredOrder>, file: MappedFile)
    requires |slots| == META_PAGE_COUNT && i < |slots|
  {
    && Candidate(slots[i], i, requested, file.pageCount)
    && CanUse(file, LoadedEnd(slots, requested, file.pageCount), slots[i].meta)
  }

  // Looking at slot i panics, and it is looked at: no newer candidate can be used.
  ghost predicate BreaksAt(slots: seq<MetaRead>, i: nat, requested: Option<StoredOrder>, file: MappedFile,
          capacity: nat)
    requires |slots| == META_PAGE_COUNT && i < |slots|
  {
    && Candidate(slots[i], i, requested, file.pageCount) && !Chains.Reservable(slots[i].meta.saved, capacity)
    && forall j: nat :: j < |slots| && UsableSlot(slots, j, requested, file) ==>
         slots[j].meta.revision <= slots[i].meta.revision
  }

  // What is known of a record that is taken.
  lemma TakenMeans(slots: seq<MetaRead>, at: nat, requested: Option<StoredOrder>, file: MappedFile,
          shape: Option<Node>, lists: Chains.Loaded)
    requires |slots| == META_PAGE_COUNT && at < |slots| && UsableSlot(slots, at, requested, file)
    requires Fits(file, LoadedEnd(slots, requested, file.pageCount), slots[at].meta, shape, lists)
    ensures slots[at].Found? && slots[at].meta.revision % 2 == at
    ensures requested.Some? ==> slots[at].meta.keyOrder == requested.value
    ensures var m, pages := slots[at].meta, TreePages(file, LoadedEnd(slots, requested, file.pageCount));
            && 2 <= m.nextPage <= file.pageCount && m.nextPage <= 2 + m.maxPages && m.maxPages >= 2
            && (m.root != 0 ==> 2 <= m.root < m.nextPage)
            && (forall x :: x in file.pages && 2 <= x < m.nextPage ==> x in pages && pages[x] == file.pages[x])
            && (forall x :: x in pages ==> x in file.pages && pages[x] == file.pages[x])
            && (forall x :: x in pages ==>
                  exists i :: 0 <= i < 2 && slots[i].Found? && 2 <= x < slots[i].meta.nextPage)
            && 2 <= m.degree <= 255 && m.length == |PairsIn(shape)| && m.root == RootOf(shape)
            && (forall x :: x in lists.free || x in lists.chain ==> 2 <= x < m.nextPage)
            && (forall r :: r in lists.retired ==> 2 <= r.id < m.nextPage && 1 <= r.revision <= m.revision)
            && (m.saved.root != 0 ==> |lists.free| + |lists.retired| == m.saved.count)
  {
    hide Acceptable, Unseen, Linked, PairsIn, LiveSet, Chains.Resolved, RevisionsOk, Apart;
    var m := slots[at].meta;
    forall r | r in lists.retired ensures 2 <= r.id < m.nextPage && 1 <= r.revision <= m.revision {
      var i :| 0 <= i < |lists.retired| && lists.retired[i] == r;
      assert RetiredIds(lists.retired)[i] == r.id;
      RetiredRevision(lists.retired, m.revision, i);
    }
    Chains.ResolvedMeans(ListFile(file, LoadedEnd(slots, requested, file.pageCount), m), m.saved);
  }

  lemma RetiredRevision(retired: seq<RetiredPage>, revision: nat, i: nat)
    requires RevisionsOk(retired, revision) && i < |retired|
    ensures 1 <= retired[i].revision <= revision
  {
  }

  lemma BreaksHere(slots: seq<MetaRead>, requested: Option<StoredOrder>, file: MappedFile, capacity: nat,
          records: seq<Meta>, from: seq<nat>, k: nat)
    requires |slots| == META_PAGE_COUNT && Ranked(slots, requested, file.pageCount, records, from) && k < |records|
    requires !Chains.Reservable(records[k].saved, capacity)
    requires forall j :: 0 <= j < k ==> !CanUse(file, LoadedEnd(slots, requested, file.pageCount), records[j])
    ensures from[k] < |slots| && BreaksAt(slots, from[k], requested, file, capacity)
  {
    hide CanUse, BoundsOk, LoadedEnd;
  }

  lemma NoneBreaksBefore(slots: seq<MetaRead>, requested: Option<StoredOrder>, file: MappedFile, capacity: nat,
          records: seq<Meta>, from: seq<nat>, k: nat)
    requires |slots| == META_PAGE_COUNT && Ranked(slots, requested, file.pageCount, records, from) && k < |records|
    requires CanUse(file, LoadedEnd(slots, requested, file.pageCount), records[k])
    requires forall j :: 0 <= j <= k ==> Chains.Reservable(records[j].saved, capacity)
    ensures !exists i: nat :: i < |slots| && BreaksAt(slots, i, requested, file, capacity)
  {
    hide CanUse, BoundsOk, LoadedEnd;
    assert UsableSlot(slots, from[k], requested, file);
  }

  lemma NoneBreaks(slots: seq<MetaRead>, requested: Option<StoredOrder>, file: MappedFile, capacity: nat,
          records: seq<Meta>, from: seq<nat>)
    requires |slots| == META_PAGE_COUNT && Ranked(slots, requested, file.pageCount, records, from)
    requires forall j :: 0 <= j < |records| ==> Chains.Reservable(records[j].saved, capacity)
    ensures !exists i: nat :: i < |slots| && BreaksAt(slots, i, requested, file, capacity)
  {
    hide CanUse, BoundsOk, LoadedEnd;
  }

  lemma RankedMeans(slots: seq<MetaRead>, requested: Option<StoredOrder>, pageCount: nat, records: seq<Meta>,
          from: seq<nat>, k: nat)
    requires |slots| == META_PAGE_COUNT && Ranked(slots, requested, pageCount, records, from) && k < |records|
    ensures |from| == |records| && from[k] < |slots| && Candidate(slots[from[k]], from[k], requested, pageCount)
    ensures slots[from[k]].Found? && records[k] == slots[from[k]].meta && BoundsOk(records[k], pageCount)
  {
  }

  // The first record that can be used is the newest one.
  lemma NewestUsable(slots: seq<MetaRead>, requested: Option<StoredOrder>, file: MappedFile, records: seq<Meta>,
          from: seq<nat>, k: nat)
    requires |slots| == META_PAGE_COUNT && Ranked(slots, requested, file.pageCount, records, from) && k < |records|
    requires CanUse(file, LoadedEnd(slots, requested, file.pageCount), records[k])
    requires forall j :: 0 <= j < k ==> !CanUse(file, LoadedEnd(slots, requested, file.pageCount), records[j])
    ensures from[k] < |slots| && UsableSlot(slots, from[k], requested, file)
    ensures forall i: nat ::
              i < |slots| && UsableSlot(slots, i, requested, file) ==>
                slots[i].meta.revision <= slots[from[k]].meta.revision
  {
    hide CanUse, BoundsOk, LoadedEnd;
  }

  lemma NoneUsable(slots: seq<MetaRead>, requested: Option<StoredOrder>, file: MappedFile, records: seq<Meta>,
          from: seq<nat>)
    requires |slots| == META_PAGE_COUNT && Ranked(slots, requested, file.pageCount, records, from)
    requires forall j :: 0 <= j < |records| ==> !CanUse(file, LoadedEnd(slots, requested, file.pageCount), records[j])
    ensures !exists i: nat :: i < |slots| && UsableSlot(slots, i, requested, file)
  {
    hide CanUse, BoundsOk, LoadedEnd;
  }

  method CheckRecord(m: Meta, f: MappedFile, end: PageId, capacity: nat)
    returns (r: Status, ok: bool, lists: Chains.Loaded, ghost shape: Option<Node>)
    requires BoundsOk(m, f.pageCount)
    ensures r.Panic? <==> !Chains.Reservable(m.saved, capacity)
    ensures ok <==> r.Done? && CanUse(f, end, m)
    ensures ok ==> Fits(f, end, m, shape, lists)
  {
    hide TreeOk, Acceptable, Apart, AllReusable, RevisionsOk, Linked, TreePages, ListPages, Chains.Resolved,
      OrderOf, LeafIds, Flat, Ids, IdSet;
    ghost var want: Option<Node> := None;
    ghost var good := CanUse(f, end, m);
    if good {
      var s, l :| Fits(f, end, m, s, l);
      want := s;
    }
    shape := None;
    r, ok, lists := Chains.Resolve(ListFile(f, end, m), m.saved, capacity);
    if !ok {
      return;
    }
    var c := SubjectOf(f, end, m);
    var claimed;
    ok, claimed, shape := ValidateReachablePages(c, want);
    if !ok {
      return;
    }
    assert good ==> Fits(f, end, m, shape, lists);
    ok, claimed := Claim(lists.chain, claimed);
    if !ok {
      return;
    }
    ok, claimed := ValidateFreelist(m, lists.free, claimed);
    if !ok {
      return;
    }
    ok := ValidateRetiredPages(m, lists.retired, claimed);
    if !ok {
      return;
    }
    ok := CheckTree(c, m.length, m.degree, shape);
    assert ok <==> Fits(f, end, m, shape, lists);
  }

  // validateLeafLinks and validateMetaInvariants, whose bounds have been checked before
  method CheckTree(c: Subject, length: int, degree: int, ghost shape: Option<Node>) returns (ok: bool)
    requires TreeOk(c, shape)
    ensures ok <==> Linked(c.pages, LeavesIn(shape)) && length == |PairsIn(shape)| && 2 <= degree <= MAX_PAGE_DEGREE
  {
    hide Acceptable, Unseen, Linked, Ids, Flat, Models, LeafIds;
    if shape.Some? {
      NonzeroRoot(c, shape.value);
      AcceptableModels(c, shape.value, None, None);
    }
    var keyCount := 0;
    if c.root != 0 {
      ok := ValidateLeafLinks(c.pages, c.root, shape.value);
      if !ok {
        return;
      }
      var seen;
      keyCount, seen := CountReachableKeys(c.pages, c.root, {}, shape.value);
    } else {
      NoLeaves(c.pages);
    }
    return length >= 0 && 2 <= degree <= MAX_PAGE_DEGREE && keyCount == length;
  }

}
