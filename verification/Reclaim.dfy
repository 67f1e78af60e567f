// Free and retired pages saved with the metadata: inline, or in a chain of metadata pages
// (pagebtree/mmap.go, pagebtree/freelist_pages.go, pagebtree/reclaim_pages.go).

module ReclaimChains {
  import opened Contents
  import opened Pages

  const MAX_META_FREE_PAGES := 501
  const FREELIST_CAPACITY := 509
  const RECLAIM_CAPACITY := 254

  // A reclaim record; revision zero marks a free page.
  datatype Record = Record(id: PageId, revision: nat)

  datatype ChainPage =
    | FreelistPage(next: PageId, ids: seq<PageId>)
    | ReclaimPage(next: PageId, records: seq<Record>)

  type ChainMap = map<PageId, ChainPage>

  // How the lists are referred to from a metadata page.
  datatype Saved = Saved(version: nat, count: int, inline: seq<PageId>, root: PageId)

  // What comes back.
  datatype Loaded = Loaded(free: seq<PageId>, retired: seq<RetiredPage>, chain: seq<PageId>)

  // ---- Records ----

  // reclaimRecordsFor
  function RecordsFor(free: seq<PageId>, retired: seq<RetiredPage>): (r: seq<Record>)
    ensures |r| == |free| + |retired|
  {
    seq(|free|, i requires 0 <= i < |free| => Record(free[i], 0)) +
    seq(|retired|, i requires 0 <= i < |retired| => Record(retired[i].id, retired[i].revision))
  }

  // Reading records back: those of revision zero are free pages.
  function FreeOf(records: seq<Record>): seq<PageId> {
    if records == [] then []
    else FreeOf(records[..|records| - 1]) + if records[|records| - 1].revision == 0 then [records[|records| - 1].id]
      else []
  }

  function RetiredOf(records: seq<Record>): seq<RetiredPage> {
    if records == [] then []
    else
      RetiredOf(records[..|records| - 1]) +
      if records[|records| - 1].revision == 0 then []
        else [RetiredPage(records[|records| - 1].id, records[|records| - 1].revision)]
  }

  ghost predicate NoneAtZero(retired: seq<RetiredPage>) {
    forall i :: 0 <= i < |retired| ==> retired[i].revision != 0
  }

  lemma {:induction false} FreeRecords(free: seq<PageId>)
    ensures FreeOf(RecordsFor(free, [])) == free && RetiredOf(RecordsFor(free, [])) == []
  {
    if free != [] {
      FreeRecords(free[..|free| - 1]);
      assert RecordsFor(free, [])[..|free| - 1] == RecordsFor(free[..|free| - 1], []);
    }
  }

  // The lists come back from their records exactly if no page was retired at revision zero:
  // such a page comes back as a free one.
  lemma {:induction false} RecordsRoundTrip(free: seq<PageId>, retired: seq<RetiredPage>)
    ensures FreeOf(RecordsFor(free, retired)) == free && RetiredOf(RecordsFor(free, retired)) == retired <==>
              NoneAtZero(retired)
    ensures |RetiredOf(RecordsFor(free, retired))| <= |retired|
  {
    var records := RecordsFor(free, retired);
    if retired == [] {
      FreeRecords(free);
    } else {
      var front, last := retired[..|retired| - 1], retired[|retired| - 1];
      RecordsRoundTrip(free, front);
      assert records[..|records| - 1] == RecordsFor(free, front);
      assert retired == front + [last];
      if last.revision != 0 {
        assert RetiredOf(records) == RetiredOf(RecordsFor(free, front)) + [last];
        assert NoneAtZero(retired) <==> NoneAtZero(front);
        assert RetiredOf(records) == retired <==> RetiredOf(RecordsFor(free, front)) == front;
      }
    }
  }

  // The lists as they come back from their records.
  function FreeBack(free: seq<PageId>, retired: seq<RetiredPage>): seq<PageId> {
    FreeOf(RecordsFor(free, retired))
  }

  function RetiredBack(free: seq<PageId>, retired: seq<RetiredPage>): seq<RetiredPage> {
    RetiredOf(RecordsFor(free, retired))
  }

  lemma IdsAppend(rs: seq<RetiredPage>, r: RetiredPage)
    ensures RetiredIds(rs + [r]) == RetiredIds(rs) + [r.id]
  {
  }

  lemma OneMore(m: multiset<PageId>, ids: seq<PageId>, id: PageId)
    ensures m + multiset(ids + [id]) == m + multiset(ids) + multiset{id}
  {
  }

  // No page is lost or duplicated, and what comes back retired was retired later than at zero.
  lemma {:induction false} BackKeeps(free: seq<PageId>, retired: seq<RetiredPage>)
    ensures multiset(FreeBack(free, retired)) + multiset(RetiredIds(RetiredBack(free, retired)))
            == multiset(free) + multiset(RetiredIds(retired))
    ensures forall i :: 0 <= i < |RetiredBack(free, retired)| ==>
              RetiredBack(free, retired)[i] in retired && RetiredBack(free, retired)[i].revision >= 1
  {
    hide RetiredIds;
    var records := RecordsFor(free, retired);
    if retired == [] {
      FreeRecords(free);
    } else {
      var front, last := retired[..|retired| - 1], retired[|retired| - 1];
      BackKeeps(free, front);
      assert records[..|records| - 1] == RecordsFor(free, front);
      assert retired == front + [last];
      IdsAppend(front, last);
      IdsAppend(RetiredBack(free, front), last);
      OneMore(multiset(free), RetiredIds(front), last.id);
      if last.revision != 0 {
        assert RetiredBack(free, retired) == RetiredBack(free, front) + [last];
        assert FreeBack(free, retired) == FreeBack(free, front);
        OneMore(multiset(FreeBack(free, front)), RetiredIds(RetiredBack(free, front)), last.id);
      } else {
        assert RetiredBack(free, retired) == RetiredBack(free, front);
        OneMore(multiset(RetiredIds(RetiredBack(free, front))), FreeBack(free, front), last.id);
        assert FreeBack(free, retired) == FreeBack(free, front) + [last.id];
      }
    }
  }

  // ---- Chains ----

  // The i-th chunk of a list.
  function Chunk<T>(list: seq<T>, size: nat, i: nat): seq<T>
    requires size > 0 && i * size <= |list|
  {
    if (i + 1) * size <= |list| then list[i * size..(i + 1) * size] else list[i * size..]
  }

  function ChunkCount(n: nat, size: nat): nat
    requires size > 0
  {
    (n + size - 1) / size
  }

  lemma ChunkBounds(n: nat, size: nat, i: nat)
    requires size > 0 && i < ChunkCount(n, size)
    ensures i * size < n && (i + 1 < ChunkCount(n, size) ==> (i + 1) * size < n)
            && (i + 1 == ChunkCount(n, size) ==> n <= (i + 1) * size)
  {
    var k := ChunkCount(n, size);
    assert k * size <= n + size - 1 < (k + 1) * size;
    assert (i + 1) * size <= k * size by { MulMonotone(size, i + 1, k); }
    if i + 1 < k {
      MulMonotone(size, i + 2, k);
      assert (i + 2) * size == (i + 1) * size + size;
    }
  }

  // The entries of a page as records.
  function RecordsIn(p: ChainPage): seq<Record> {
    match p
    case FreelistPage(_, ids) => RecordsFor(ids, [])
    case ReclaimPage(_, records) => records
  }

  function Capacity(reclaim: bool): nat {
    if reclaim then RECLAIM_CAPACITY else FREELIST_CAPACITY
  }

  ghost predicate HoldsChunk(pages: ChainMap, reclaim: bool, ids: seq<PageId>, records: seq<Record>, i: nat)
    requires i < |ids|
  {
    && ids[i] in pages && i * Capacity(reclaim) <= |records|
    && (pages[ids[i]].ReclaimPage? <==> reclaim) && pages[ids[i]].next == NextOf(ids, i)
    && RecordsIn(pages[ids[i]]) == Chunk(records, Capacity(reclaim), i)
  }

  // Pages `ids` hold these records, a chunk each, linked in order.
  ghost predicate Holds(pages: ChainMap, reclaim: bool, ids: seq<PageId>, records: seq<Record>) {
    && |ids| == ChunkCount(|records|, Capacity(reclaim))
    && (forall i :: 0 <= i < |ids| ==> HoldsChunk(pages, reclaim, ids, records, i))
  }

  // Consecutive fresh pages.
  ghost predicate Fresh(ids: seq<PageId>, nextPage: PageId) {
    forall i :: 0 <= i < |ids| ==> ids[i] == nextPage + i
  }

  // The pages a chain needs, or none if the file cannot grow that far.
  method AllocChainPages(nextPage: PageId, count: nat, limit: PageId) returns (ok: bool, ids: seq<PageId>)
    ensures ok <==> nextPage + count <= limit || count == 0
    ensures ok ==> |ids| == count && Fresh(ids, nextPage)
  {
    ids := [];
    for i := 0 to count
      invariant |ids| == i && Fresh(ids, nextPage) && (i > 0 ==> nextPage + i <= limit)
    {
      if nextPage + i >= limit {
        return false, ids;
      }
      ids := ids + [nextPage + i];
    }
    return true, ids;
  }

  // How many metadata pages the lists take.
  function ChainLength(free: seq<PageId>, retired: seq<RetiredPage>): nat {
    if |retired| > 0 then ChunkCount(|free| + |retired|, RECLAIM_CAPACITY)
    else if |free| <= MAX_META_FREE_PAGES then 0
    else ChunkCount(|free|, FREELIST_CAPACITY)
  }

  // prepareMetaFreelistPages and prepareMetaFreePages, and what writeMetaPage then records.
  method Save(free: seq<PageId>, retired: seq<RetiredPage>, pages: ChainMap, nextPage: PageId, limit: PageId)
    returns (ok: bool, saved: Saved, pages': ChainMap, nextPage': PageId, ids: seq<PageId>)
    requires nextPage >= FIRST_TREE_PAGE
    ensures ok <==> ChainLength(free, retired) == 0 || nextPage + ChainLength(free, retired) <= limit
    ensures ok ==>
              && |ids| == ChainLength(free, retired) && nextPage' == nextPage + |ids| && Fresh(ids, nextPage)
              && saved.count == |free| + |retired| && saved.version == (if |retired| > 0 then 3 else 2)
              && (forall x :: x in pages && x < nextPage ==> x in pages' && pages'[x] == pages[x])
              && (ids == [] ==> saved.inline == free && retired == [] && saved.root == 0)
              && (ids != [] ==>
                    && saved.inline == [] && saved.root == ids[0]
                    && Holds(pages', |retired| > 0, ids, RecordsFor(free, retired)))
    ensures !ok ==> pages' == pages && nextPage' == nextPage
    ensures pages'.Keys <= pages.Keys + (set x | x in ids)
  {
    pages', nextPage', saved, ids := pages, nextPage, Saved(2, |free|, free, 0), [];
    if |retired| == 0 {
      if |free| <= MAX_META_FREE_PAGES {
        return true, saved, pages, nextPage, [];
      }
      ok, ids := AllocChainPages(nextPage, ChunkCount(|free|, FREELIST_CAPACITY), limit);
      if !ok {
        return;
      }
      pages' := WriteFreelist(ids, free, pages, nextPage);
      CountPositive(|free|, FREELIST_CAPACITY);
      return true, Saved(2, |free|, [], ids[0]), pages', nextPage + |ids|, ids;
    }
    var records := RecordsFor(free, retired);
    ok, ids := AllocChainPages(nextPage, ChunkCount(|records|, RECLAIM_CAPACITY), limit);
    if !ok {
      return;
    }
    pages' := WriteRecords(ids, records, pages, nextPage);
    CountPositive(|records|, RECLAIM_CAPACITY);
    return true, Saved(3, |records|, [], ids[0]), pages', nextPage + |ids|, ids;
  }

  lemma CountPositive(n: nat, size: nat)
    requires n > 0 && size > 0
    ensures ChunkCount(n, size) > 0
  {
    assert n + size - 1 >= size;
  }

  method WriteRecords(ids: seq<PageId>, records: seq<Record>, pages: ChainMap, nextPage: PageId)
    returns (pages': ChainMap)
    requires Fresh(ids, nextPage) && |ids| == ChunkCount(|records|, RECLAIM_CAPACITY)
    ensures Holds(pages', true, ids, records) && pages'.Keys <= pages.Keys + (set x | x in ids)
    ensures forall x :: x in pages && x < nextPage ==> x in pages' && pages'[x] == pages[x]
  {
    pages' := pages;
    for i := 0 to |ids|
      invariant forall j :: 0 <= j < i ==> HoldsChunk(pages', true, ids, records, j)
      invariant forall x :: x in pages && x < nextPage ==> x in pages' && pages'[x] == pages[x]
      invariant pages'.Keys <= pages.Keys + set x | x in ids
    {
      ChunkBounds(|records|, RECLAIM_CAPACITY, i);
      ghost var before := pages';
      pages' := pages'[ids[i] := ReclaimPage(NextOf(ids, i), Chunk(records, RECLAIM_CAPACITY, i))];
      forall j | 0 <= j < i ensures HoldsChunk(pages', true, ids, records, j) {
        assert HoldsChunk(before, true, ids, records, j) && ids[j] != ids[i];
      }
    }
  }

  lemma RecordsOfChunk(list: seq<PageId>, size: nat, i: nat)
    requires size > 0 && i * size <= |list|
    ensures RecordsFor(Chunk(list, size, i), []) == Chunk(RecordsFor(list, []), size, i)
  {
    var from := i * size;
    var to := if (i + 1) * size <= |list| then (i + 1) * size else |list|;
    assert from <= to by { MulMonotone(size, i, i + 1); }
    RecordsOfSlice(list, from, to);
  }

  lemma RecordsOfSlice(list: seq<PageId>, from: nat, to: nat)
    requires from <= to <= |list|
    ensures RecordsFor(list[from..to], []) == RecordsFor(list, [])[from..to]
  {
  }

  method WriteFreelist(ids: seq<PageId>, list: seq<PageId>, pages: ChainMap, nextPage: PageId)
    returns (pages': ChainMap)
    requires Fresh(ids, nextPage) && |ids| == ChunkCount(|list|, FREELIST_CAPACITY)
    ensures Holds(pages', false, ids, RecordsFor(list, [])) && pages'.Keys <= pages.Keys + (set x | x in ids)
    ensures forall x :: x in pages && x < nextPage ==> x in pages' && pages'[x] == pages[x]
  {
    hide RecordsFor, Chunk;
    pages' := pages;
    ghost var records := RecordsFor(list, []);
    for i := 0 to |ids|
      invariant forall j :: 0 <= j < i ==> HoldsChunk(pages', false, ids, records, j)
      invariant forall x :: x in pages && x < nextPage ==> x in pages' && pages'[x] == pages[x]
      invariant pages'.Keys <= pages.Keys + set x | x in ids
    {
      ChunkBounds(|list|, FREELIST_CAPACITY, i);
      ghost var before := pages';
      pages' := pages'[ids[i] := FreelistPage(NextOf(ids, i), Chunk(list, FREELIST_CAPACITY, i))];
      RecordsOfChunk(list, FREELIST_CAPACITY, i);
      forall j | 0 <= j < i ensures HoldsChunk(pages', false, ids, records, j) {
        assert HoldsChunk(before, false, ids, records, j) && ids[j] != ids[i];
      }
    }
  }

  // ---- Reading a chain back ----

  // A page the chain may use.
  predicate InRangeOfFile(id: PageId, nextPage: PageId, maxPages: nat) {
    FIRST_TREE_PAGE <= id < nextPage && id < FIRST_TREE_PAGE + maxPages
  }

  // Where a chain may lie, and which pages have a wrong checksum.
  datatype File = File(pages: ChainMap, damaged: set<PageId>, nextPage: PageId, maxPages: nat)

  predicate Usable(f: File, reclaim: bool, id: PageId, seen: set<PageId>) {
    && InRangeOfFile(id, f.nextPage, f.maxPages) && id !in seen && id in f.pages && id !in f.damaged
    && (f.pages[id].ReclaimPage? <==> reclaim) && |RecordsIn(f.pages[id])| > 0
  }

  // The pages and the records of the chain that starts at `id`, if it is sound.
  datatype Walked = Walked(records: seq<Record>, ids: seq<PageId>)

  function Walk(f: File, reclaim: bool, id: PageId, seen: set<PageId>): Option<Walked>
    decreases f.pages.Keys - seen
  {
    if id == 0 then Some(Walked([], []))
    else if !Usable(f, reclaim, id, seen) then None
    else
      match Walk(f, reclaim, f.pages[id].next, seen + {id})
      case None => None
      case Some(rest) => Some(Walked(RecordsIn(f.pages[id]) + rest.records, [id] + rest.ids))
  }

  // What a metadata page's lists resolve to.
  function Resolved(f: File, saved: Saved): Option<Loaded> {
    if saved.root == 0 then Some(Loaded(saved.inline, [], []))
    else
      match Walk(f, saved.version >= 3, saved.root, {})
      case None => None
      case Some(w) => if |w.records| == saved.count then Some(Loaded(FreeOf(w.records), RetiredOf(w.records), w.ids))
        else None
  }

  // Room for as many entries as a chain is said to have can be reserved: a list has at most
  // `capacity`, and the count is what the metadata page says.
  predicate Reservable(saved: Saved, capacity: nat) {
    saved.root != 0 ==> 0 <= saved.count <= capacity
  }

  // resolveMetaFreelist and resolveMetaReclaim; they differ in the pages they accept.
  method Resolve(f: File, saved: Saved, capacity: nat) returns (r: Status, ok: bool, loaded: Loaded)
    ensures r.Panic? <==> !Reservable(saved, capacity)
    ensures r.Done? ==> (ok <==> Resolved(f, saved).Some?)
    ensures ok ==> r.Done? && loaded == Resolved(f, saved).value
  {
    hide FreeOf, RetiredOf, RecordsIn;
    if saved.root == 0 {
      return Done, true, Loaded(saved.inline, [], []);
    }
    if !(0 <= saved.count <= capacity) {
      return Panic, false, Loaded([], [], []);
    }
    var reclaim := saved.version >= 3;
    var free: seq<PageId>, retired: seq<RetiredPage>, chain: seq<PageId> := [], [], [];
    var seen: set<PageId> := {};
    var id := saved.root;
    ghost var records: seq<Record> := [];
    loaded := Loaded([], [], []);
    NoRecords([]);
    ghost var whole := Walk(f, reclaim, id, {});
    NothingYet(whole);
    while id != 0
      invariant seen <= f.pages.Keys
      invariant free == FreeOf(records) && retired == RetiredOf(records)
                && |free| + |retired| == |records| <= saved.count
      invariant Continued(whole, records, chain, Walk(f, reclaim, id, seen))
      decreases f.pages.Keys - seen
    {
      if !InRangeOfFile(id, f.nextPage, f.maxPages) || id in seen || id !in f.pages || id in f.damaged {
        return Done, false, loaded;
      }
      var p := f.pages[id];
      if (p.ReclaimPage? != reclaim) || |RecordsIn(p)| == 0 {
        return Done, false, loaded;
      }
      ghost var rest := Walk(f, reclaim, p.next, seen + {id});
      seen := seen + {id};
      chain := chain + [id];
      var added;
      added, free, retired := TakeRecords(RecordsIn(p), free, retired, saved.count);
      TakenTogether(records, RecordsIn(p));
      ContinueOn(whole, records, chain, RecordsIn(p), id, rest);
      records := records + RecordsIn(p);
      if !added {
        return Done, false, loaded;
      }
      id := p.next;
    }
    NothingMore(whole, records, chain);
    if |free| + |retired| != saved.count {
      return Done, false, loaded;
    }
    return Done, true, Loaded(free, retired, chain);
  }

  // The whole walk is what has been walked followed by the rest of it.
  ghost predicate Continued(whole: Option<Walked>, records: seq<Record>, ids: seq<PageId>, rest: Option<Walked>) {
    whole == match rest case None => None case Some(w) => Some(Walked(records + w.records, ids + w.ids))
  }

  lemma NothingYet(whole: Option<Walked>)
    ensures Continued(whole, [], [], whole)
  {
    if whole.Some? {
      assert [] + whole.value.records == whole.value.records && [] + whole.value.ids == whole.value.ids;
    }
  }

  lemma NothingMore(whole: Option<Walked>, records: seq<Record>, ids: seq<PageId>)
    requires Continued(whole, records, ids, Some(Walked([], [])))
    ensures whole == Some(Walked(records, ids))
  {
    assert records + [] == records && ids + [] == ids;
  }

  lemma ContinueOn(whole: Option<Walked>, records: seq<Record>, ids: seq<PageId>, more: seq<Record>, id: PageId,
          rest: Option<Walked>)
    requires ids != [] && ids[|ids| - 1] == id
    requires Continued(whole, records, ids[..|ids| - 1],
                       match rest case None => None case Some(w) => Some(Walked(more + w.records, [id] + w.ids)))
    ensures Continued(whole, records + more, ids, rest)
    ensures whole.Some? ==> |whole.value.records| >= |records| + |more|
  {
    if rest.Some? {
      assert records + (more + rest.value.records) == (records + more) + rest.value.records;
      assert ids[..|ids| - 1] + ([id] + rest.value.ids) == ids + rest.value.ids;
    }
  }

  lemma NoRecords(records: seq<Record>)
    ensures FreeOf(records[..0]) == [] && RetiredOf(records[..0]) == []
    ensures |records| == 0 ==> FreeOf(records) == [] && RetiredOf(records) == []
  {
  }

  // Sort the records of one page into the two lists.
  method TakeRecords(records: seq<Record>, free: seq<PageId>, retired: seq<RetiredPage>, count: int)
    returns (ok: bool, free': seq<PageId>, retired': seq<RetiredPage>)
    requires |free| + |retired| <= count
    ensures ok <==> |free| + |retired| + |records| <= count
    ensures ok ==> free' == free + FreeOf(records) && retired' == retired + RetiredOf(records)
    ensures ok ==> |free'| + |retired'| == |free| + |retired| + |records|
  {
    free', retired' := free, retired;
    for i := 0 to |records|
      invariant free' == free + FreeOf(records[..i]) && retired' == retired + RetiredOf(records[..i])
      invariant |free'| + |retired'| == |free| + |retired| + i <= count
    {
      assert records[..i + 1][..i] == records[..i];
      if |free'| + |retired'| >= count {
        return false, free', retired';
      }
      if records[i].revision == 0 {
        free' := free' + [records[i].id];
      } else {
        retired' := retired' + [RetiredPage(records[i].id, records[i].revision)];
      }
    }
    assert records[..|records|] == records;
    return true, free', retired';
  }

  lemma OneMoreRecord(a: seq<Record>, r: Record)
    ensures FreeOf(a + [r]) == FreeOf(a) + (if r.revision == 0 then [r.id] else [])
    ensures RetiredOf(a + [r]) == RetiredOf(a) + (if r.revision == 0 then [] else [RetiredPage(r.id, r.revision)])
  {
    assert (a + [r])[..|a|] == a;
  }

  lemma {:induction false} TakenTogether(a: seq<Record>, b: seq<Record>)
    ensures FreeOf(a + b) == FreeOf(a) + FreeOf(b) && RetiredOf(a + b) == RetiredOf(a) + RetiredOf(b)
    decreases |b|
  {
    hide FreeOf, RetiredOf;
    if b == [] {
      assert a + b == a;
      NoRecords(b);
    } else {
      var front, last := b[..|b| - 1], b[|b| - 1];
      TakenTogether(a, front);
      OneMoreRecord(a + front, last);
      OneMoreRecord(front, last);
      assert b == front + [last] && a + b == (a + front) + [last];
    }
  }

  // ---- What a walk finds ----

  // The entries of some list pages, one page after the other.
  function EntriesOn(pages: ChainMap, ids: seq<PageId>): seq<Record>
    requires forall i :: 0 <= i < |ids| ==> ids[i] in pages
  {
    if ids == [] then [] else RecordsIn(pages[ids[0]]) + EntriesOn(pages, ids[1..])
  }

  // Distinct pages of the right kind within the file, each undamaged, not empty, and linked to
  // the next one.
  ghost predicate SoundChain(f: File, reclaim: bool, ids: seq<PageId>, seen: set<PageId>) {
    && (forall i :: 0 <= i < |ids| ==>
          && 2 <= ids[i] < f.nextPage && ids[i] < 2 + f.maxPages && ids[i] !in seen
          && ids[i] in f.pages && ids[i] !in f.damaged
          && (f.pages[ids[i]].ReclaimPage? <==> reclaim) && RecordsIn(f.pages[ids[i]]) != []
          && f.pages[ids[i]].next == NextOf(ids, i))
    && (forall i, j :: 0 <= i < j < |ids| ==> ids[i] != ids[j])
  }

  // A walk that succeeds has gone along a sound chain.
  lemma {:induction false} WalkIsSound(f: File, reclaim: bool, id: PageId, seen: set<PageId>)
    requires Walk(f, reclaim, id, seen).Some?
    ensures var w := Walk(f, reclaim, id, seen).value;
            && SoundChain(f, reclaim, w.ids, seen) && w.records == EntriesOn(f.pages, w.ids)
            && if id == 0 then w.ids == [] else w.ids != [] && w.ids[0] == id
    decreases f.pages.Keys - seen
  {
    hide RecordsIn;
    if id != 0 {
      WalkIsSound(f, reclaim, f.pages[id].next, seen + {id});
      var rest := Walk(f, reclaim, f.pages[id].next, seen + {id}).value.ids;
      assert ([id] + rest)[1..] == rest;
    }
  }

  // Every sound chain is walked to its end.
  lemma {:induction false} SoundIsWalked(f: File, reclaim: bool, ids: seq<PageId>, seen: set<PageId>)
    requires SoundChain(f, reclaim, ids, seen)
    ensures Walk(f, reclaim, if ids == [] then 0 else ids[0], seen) == Some(Walked(EntriesOn(f.pages, ids), ids))
    decreases |ids|
  {
    hide RecordsIn;
    if ids != [] {
      var rest := ids[1..];
      forall i | 0 <= i < |rest| ensures rest[i] == ids[i + 1] != ids[0] && NextOf(rest, i) == NextOf(ids, i + 1) {
        assert ids[0] != ids[i + 1];
      }
      SoundIsWalked(f, reclaim, rest, seen + {ids[0]});
      assert ids == [ids[0]] + rest;
    }
  }

  lemma {:induction false} EveryEntryOnce(records: seq<Record>)
    ensures |FreeOf(records)| + |RetiredOf(records)| == |records|
    ensures forall r :: r in RetiredOf(records) ==> r.revision >= 1 && Record(r.id, r.revision) in records
    ensures forall id :: id in FreeOf(records) ==> Record(id, 0) in records
  {
    if records != [] {
      EveryEntryOnce(records[..|records| - 1]);
      assert records == records[..|records| - 1] + [records[|records| - 1]];
    }
  }

  // A reference resolves exactly if a sound chain of as many entries as it says starts there.
  lemma ResolvedMeans(f: File, saved: Saved)
    ensures saved.root == 0 ==> Resolved(f, saved) == Some(Loaded(saved.inline, [], []))
    ensures saved.root != 0 && Resolved(f, saved).Some? ==>
              var l := Resolved(f, saved).value;
              && SoundChain(f, saved.version >= 3, l.chain, {}) && l.chain != [] && l.chain[0] == saved.root
              && |l.free| + |l.retired| == |EntriesOn(f.pages, l.chain)| == saved.count
              && forall r :: r in l.retired ==> r.revision >= 1
  {
    hide Walk, FreeOf, RetiredOf, RecordsIn;
    if saved.root != 0 && Resolved(f, saved).Some? {
      WalkIsSound(f, saved.version >= 3, saved.root, {});
      EveryEntryOnce(Walk(f, saved.version >= 3, saved.root, {}).value.records);
    }
  }

  lemma SoundResolves(f: File, saved: Saved, ids: seq<PageId>)
    requires ids != [] && ids[0] == saved.root != 0 && SoundChain(f, saved.version >= 3, ids, {})
    ensures Resolved(f, saved).Some? <==> |EntriesOn(f.pages, ids)| == saved.count
    ensures Resolved(f, saved).Some? ==> Resolved(f, saved).value.chain == ids
  {
    hide Walk, FreeOf, RetiredOf, RecordsIn, EntriesOn;
    SoundIsWalked(f, saved.version >= 3, ids, {});
  }

  // The distinct pages a chain of records was saved on.
  ghost predicate OnPages(f: File, ids: seq<PageId>) {
    && (forall i :: 0 <= i < |ids| ==> InRangeOfFile(ids[i], f.nextPage, f.maxPages) && ids[i] !in f.damaged)
    && (forall i, j :: 0 <= i < j < |ids| ==> ids[i] != ids[j])
  }

  function IdsOf(ids: seq<PageId>): (r: set<PageId>)
    ensures forall x :: x in r <==> x in ids
  {
    set x | x in ids
  }

  lemma IdsOfStep(ids: seq<PageId>, k: nat)
    requires k < |ids|
    ensures IdsOf(ids[..k + 1]) == IdsOf(ids[..k]) + {ids[k]}
  {
    assert ids[..k + 1] == ids[..k] + [ids[k]];
  }

  lemma ChunkRest(records: seq<Record>, size: nat, k: nat)
    requires size > 0 && k < ChunkCount(|records|, size)
    ensures k * size < |records| && |Chunk(records, size, k)| > 0
    ensures var rest := if k + 1 < ChunkCount(|records|, size) then (k + 1) * size else |records|;
            rest <= |records| && records[k * size..] == Chunk(records, size, k) + records[rest..]
  {
    ChunkBounds(|records|, size, k);
  }

  // A saved chain is walked page by page and record by record.
  lemma {:induction false} WalkOfSaved(f: File, reclaim: bool, ids: seq<PageId>, records: seq<Record>, k: nat)
    requires Holds(f.pages, reclaim, ids, records) && OnPages(f, ids) && k < |ids|
    ensures k * Capacity(reclaim) <= |records|
    ensures Walk(f, reclaim, ids[k], IdsOf(ids[..k])) == Some(Walked(records[k * Capacity(reclaim)..], ids[k..]))
    decreases |ids| - k
  {
    var size := Capacity(reclaim);
    assert HoldsChunk(f.pages, reclaim, ids, records, k);
    ChunkRest(records, size, k);
    IdsOfStep(ids, k);
    assert ids[k..] == [ids[k]] + ids[k + 1..];
    assert ids[k] !in IdsOf(ids[..k]) && Usable(f, reclaim, ids[k], IdsOf(ids[..k]));
    if k + 1 < |ids| {
      WalkOfSaved(f, reclaim, ids, records, k + 1);
    } else {
      assert ids[k + 1..] == [] && records[|records|..] == [];
    }
  }

  // The lists survive being saved and loaded, in order, whatever their lengths and in all
  // three forms, if and only if no page was retired at revision zero.
  method SaveAndLoad(free: seq<PageId>, retired: seq<RetiredPage>, pages: ChainMap, nextPage: PageId, maxPages: nat)
    returns (ok: bool, loaded: Loaded)
    requires FIRST_TREE_PAGE <= nextPage <= FIRST_TREE_PAGE + maxPages
    ensures ok <==>
              ChainLength(free, retired) == 0 || nextPage + ChainLength(free, retired) <= FIRST_TREE_PAGE + maxPages
    ensures ok ==> (loaded.free == free && loaded.retired == retired <==> NoneAtZero(retired))
  {
    hide Holds, FreeOf, RetiredOf, Walk;
    var saved, pages', nextPage', ids;
    ok, saved, pages', nextPage', ids := Save(free, retired, pages, nextPage, FIRST_TREE_PAGE + maxPages);
    loaded := Loaded([], [], []);
    if ok {
      RecordsRoundTrip(free, retired);
      var f := File(pages', {}, nextPage', maxPages);
      if ids != [] {
        WalkOfSaved(f, |retired| > 0, ids, RecordsFor(free, retired), 0);
        assert ids[..0] == [] && RecordsFor(free, retired)[0..] == RecordsFor(free, retired);
        assert IdsOf([]) == {};
      }
      var resolved;
      var r;
      r, resolved, loaded := Resolve(f, saved, |free| + |retired|);
      assert resolved;
    }
  }
}
