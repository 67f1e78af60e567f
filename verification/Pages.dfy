// Pages, and the store that hands page ids out and takes them back
// (pagebtree/page.go, pagebtree/overflow.go, pagebtree/freelist.go).
//
// A page is modelled by what its bytes decode to; SlottedPage.dfy is about the
// bytes themselves.

module Pages {
  import opened KeyOrder
  import opened Contents

  const PAGE_SIZE := 4096
  const PAGE_HEADER_SIZE := 20
  const SLOT_SIZE := 8
  const OVERFLOW_REF_SIZE := 20
  const OVERFLOW_PAYLOAD_SIZE := PAGE_SIZE - PAGE_HEADER_SIZE

  // Page ids; zero means "no page".
  type PageId = nat

  // The first id of a tree page in a mapped file, after the two metadata pages.
  const FIRST_TREE_PAGE := 2

  // A leaf cell's value: the bytes themselves or a reference to a chain of overflow pages.
  datatype Cell = Inline(bytes: Bytes) | Ref(first: PageId, length: nat)

  datatype Entry = Entry(key: Key, cell: Cell)

  datatype PageData =
    | LeafPage(entries: seq<Entry>, next: PageId)
    | BranchPage(keys: seq<Key>, children: seq<PageId>)
    | OverflowPage(follow: PageId, payload: Bytes)

  // Every byte string of a branch page decodes to one child more than it has keys.
  type Page = p: PageData | p.BranchPage? ==> |p.children| == |p.keys| + 1 witness LeafPage([], 0)

  datatype RetiredPage = RetiredPage(id: PageId, revision: nat)

  // ---- Encoded sizes ----

  function CellSize(c: Cell): nat {
    match c
    case Inline(bytes) => |bytes|
    case Ref(_, _) => OVERFLOW_REF_SIZE
  }

  function EntryBytes(e: Entry): nat {
    SLOT_SIZE + |e.key| + CellSize(e.cell)
  }

  function SumEntryBytes(entries: seq<Entry>): nat {
    if entries == [] then 0
    else SumEntryBytes(entries[..|entries| - 1]) + EntryBytes(entries[|entries| - 1])
  }

  function LeafBytes(entries: seq<Entry>): nat {
    PAGE_HEADER_SIZE + SumEntryBytes(entries)
  }

  function SeparatorBytes(key: Key): nat {
    SLOT_SIZE + |key| + 8
  }

  function SumSeparatorBytes(keys: seq<Key>): nat {
    if keys == [] then 0
    else SumSeparatorBytes(keys[..|keys| - 1]) + SeparatorBytes(keys[|keys| - 1])
  }

  function BranchBytes(keys: seq<Key>): nat {
    PAGE_HEADER_SIZE + SumSeparatorBytes(keys)
  }

  lemma OneSeparatorBytes(key: Key)
    ensures BranchBytes([key]) == PAGE_HEADER_SIZE + SeparatorBytes(key)
  {
    var none: seq<Key> := [];
    assert [key][..0] == none;
    assert SumSeparatorBytes([key]) == SumSeparatorBytes(none) + SeparatorBytes(key);
  }

  // slottedBytesUsed
  function BytesUsed(p: Page): nat {
    match p
    case LeafPage(entries, _) => LeafBytes(entries)
    case BranchPage(keys, _) => BranchBytes(keys)
    case OverflowPage(_, payload) => PAGE_HEADER_SIZE + |payload|
  }

  function MaxKeys(degree: nat): nat
    requires degree >= 2
  {
    2 * degree - 1
  }

  // The bytes each of the 2d-1 cells of a full leaf can have.
  function CellRoom(degree: nat): nat
    requires degree >= 2
  {
    (PAGE_SIZE - PAGE_HEADER_SIZE) / MaxKeys(degree)
  }

  // A page can hold 2d-1 cells with this key, each with an overflow reference.
  predicate KeyFits(degree: nat, key: Key)
    requires degree >= 2
  {
    SLOT_SIZE + |key| + OVERFLOW_REF_SIZE <= CellRoom(degree)
  }

  lemma KeyFitsMeaning(degree: nat, key: Key)
    requires degree >= 2
    ensures KeyFits(degree, key) <==>
            PAGE_HEADER_SIZE + MaxKeys(degree) * (SLOT_SIZE + |key| + OVERFLOW_REF_SIZE) <= PAGE_SIZE
  {
    var m, room, need := MaxKeys(degree), CellRoom(degree), SLOT_SIZE + |key| + OVERFLOW_REF_SIZE;
    assert m * room <= PAGE_SIZE - PAGE_HEADER_SIZE < m * (room + 1);
    if need <= room {
      MulMonotone(m, need, room);
    } else {
      MulMonotone(m, room + 1, need);
    }
  }

  lemma MulMonotone(m: nat, a: nat, b: nat)
    requires a <= b
    ensures m * a <= m * b
  {
  }

  ghost predicate KeysFit(degree: nat, s: seq<KV>)
    requires degree >= 2
  {
    forall i :: 0 <= i < |s| ==> KeyFits(degree, s[i].key)
  }

  // What the least fill `lo` asks of the keys: for zero, nothing.
  ghost predicate Fitting(lo: nat, degree: nat, s: seq<KV>)
    requires degree >= 2
  {
    lo == 0 || KeysFit(degree, s)
  }

  // shouldStoreOverflow
  predicate StoresOverflow(key: Key, value: Bytes) {
    |key| + |value| + SLOT_SIZE > PAGE_SIZE / 2
  }

  // What a tree can hold: a page has room for the key beside a reference, and an empty value
  // is not sent to a chain, which has no first page then. These are the keys of at most 4048
  // bytes, and of at most 2040 bytes for an empty value.
  predicate Storable(key: Key, value: Bytes) {
    && PAGE_HEADER_SIZE + SLOT_SIZE + |key| + OVERFLOW_REF_SIZE <= PAGE_SIZE
    && (value == [] ==> !StoresOverflow(key, value))
  }

  ghost predicate AllStorable(s: seq<KV>) {
    forall i :: 0 <= i < |s| ==> Storable(s[i].key, s[i].value)
  }

  lemma KeyFitsIsStorable(degree: nat, key: Key, value: Bytes)
    requires degree >= 2 && KeyFits(degree, key)
    ensures Storable(key, value)
  {
    MulMonotone(CellRoom(degree), 3, MaxKeys(degree));
  }

  lemma {:induction false} CellWithin(entries: seq<Entry>, i: nat)
    requires i < |entries|
    ensures EntryBytes(entries[i]) <= SumEntryBytes(entries)
    decreases |entries|
  {
    if i < |entries| - 1 {
      CellWithin(entries[..|entries| - 1], i);
    }
  }

  // A pair whose leaf cell leaves room for 2d-2 others as large.
  predicate SmallPair(degree: nat, kv: KV)
    requires degree >= 2
  {
    SLOT_SIZE + |kv.key| + |kv.value| <= CellRoom(degree) || StoresOverflow(kv.key, kv.value)
  }

  ghost predicate AllSmall(degree: nat, s: seq<KV>)
    requires degree >= 2
  {
    forall i :: 0 <= i < |s| ==> SmallPair(degree, s[i])
  }

  // 2d-1 cells of at most CellRoom(d) bytes fit one leaf.
  lemma {:induction false} RoomySum(degree: nat, entries: seq<Entry>)
    requires degree >= 2
    requires forall i :: 0 <= i < |entries| ==> EntryBytes(entries[i]) <= CellRoom(degree)
    ensures SumEntryBytes(entries) <= |entries| * CellRoom(degree)
  {
    if entries != [] {
      RoomySum(degree, entries[..|entries| - 1]);
      assert |entries| * CellRoom(degree) == (|entries| - 1) * CellRoom(degree) + CellRoom(degree);
    }
  }

  lemma RoomyFits(degree: nat, entries: seq<Entry>)
    requires degree >= 2 && |entries| <= MaxKeys(degree)
    requires forall i :: 0 <= i < |entries| ==> EntryBytes(entries[i]) <= CellRoom(degree)
    ensures LeafBytes(entries) <= PAGE_SIZE
  {
    RoomySum(degree, entries);
    MulMonotone(CellRoom(degree), |entries|, MaxKeys(degree));
    assert MaxKeys(degree) * CellRoom(degree) <= PAGE_SIZE - PAGE_HEADER_SIZE;
  }

  lemma {:induction false} SeparatorsSum(degree: nat, keys: seq<Key>)
    requires degree >= 2
    requires forall i :: 0 <= i < |keys| ==> KeyFits(degree, keys[i])
    ensures SumSeparatorBytes(keys) <= |keys| * CellRoom(degree)
  {
    if keys != [] {
      SeparatorsSum(degree, keys[..|keys| - 1]);
      assert |keys| * CellRoom(degree) == (|keys| - 1) * CellRoom(degree) + CellRoom(degree);
    }
  }

  // Under the key bound a branch of 2d-1 separators fits one page.
  lemma SeparatorsFit(degree: nat, keys: seq<Key>)
    requires degree >= 2 && |keys| <= MaxKeys(degree)
    requires forall i :: 0 <= i < |keys| ==> KeyFits(degree, keys[i])
    ensures BranchBytes(keys) <= PAGE_SIZE
  {
    SeparatorsSum(degree, keys);
    MulMonotone(CellRoom(degree), |keys|, MaxKeys(degree));
    assert MaxKeys(degree) * CellRoom(degree) <= PAGE_SIZE - PAGE_HEADER_SIZE;
  }

  // ---- The store ----

  // Whether a staged mutation ran to its end or panicked.
  datatype Status = Done | Panic {
    predicate IsFailure() {
      Panic?
    }

    function PropagateFailure(): Status {
      this
    }
  }

  type PageMap = map<PageId, Page>

  // What the i-th page of a list links to.
  function NextOf(ids: seq<PageId>, i: nat): PageId
    requires i < |ids|
  {
    if i + 1 < |ids| then ids[i + 1] else 0
  }

  // The part of a tree that allocation, retirement and page writes change.
  // `limit` is the id at which the file cannot grow any more; a memory tree has none.
  datatype Store = Store(pages: PageMap, nextPage: PageId, free: seq<PageId>, retired: seq<RetiredPage>,
      limit: Option<PageId>)

  function RetiredIds(rs: seq<RetiredPage>): (r: seq<PageId>)
    ensures |r| == |rs|
  {
    seq(|rs|, i requires 0 <= i < |rs| => rs[i].id)
  }

  // Each id in [first, next) once.
  ghost function Upto(first: PageId, next: PageId): (m: multiset<PageId>)
    ensures forall x: PageId :: m[x] == if first <= x < next then 1 else 0
  {
    if next <= first then multiset{} else Upto(first, next - 1) + multiset{next - 1}
  }

  // Page conservation: the allocated ids are, each exactly once, free, retired or live.
  ghost predicate Owns(first: PageId, s: Store, live: multiset<PageId>) {
    && 1 <= first <= s.nextPage
    && (forall x :: x in s.pages ==> x < s.nextPage)
    && multiset(s.free) + multiset(RetiredIds(s.retired)) + live == Upto(first, s.nextPage)
  }

  // An id the next allocations may hand out.
  ghost predicate Available(s: Store, id: PageId) {
    id in s.free || id >= s.nextPage
  }

  // How many ids are taken, and that none is left to take.
  function Used(s: Store): int {
    s.nextPage - |s.free|
  }

  predicate Exhausted(s: Store) {
    s.free == [] && s.limit.Some? && s.limit.value <= s.nextPage
  }

  // What a staged mutation may do to the store: take ids only from the available ones,
  // retire at the current revision, and write no page that was in use except `own`.
  ghost predicate Frame(s: Store, t: Store, own: set<PageId>, revision: nat) {
    && s.nextPage <= t.nextPage && Used(s) <= Used(t)
    && s.limit == t.limit && (s.limit.Some? && s.nextPage < t.nextPage ==> t.nextPage <= s.limit.value)
    && (forall x :: x in t.free ==> x in s.free)
    && s.retired <= t.retired
    && (forall i :: |s.retired| <= i < |t.retired| ==> t.retired[i].revision == revision)
    && (forall x :: x in s.pages && !Available(s, x) && x !in own ==> x in t.pages && t.pages[x] == s.pages[x])
  }

  // Taking the last free id, or the next fresh one, makes it live; retiring undoes it.
  lemma TakeFree(first: PageId, s: Store, live: multiset<PageId>, revision: nat)
    requires Owns(first, s, live) && s.free != []
    ensures var last := |s.free| - 1;
            Owns(first, s.(free := s.free[..last]), live + multiset{s.free[last]})
    ensures Frame(s, s.(free := s.free[..|s.free| - 1]), {}, revision)
  {
    var last := |s.free| - 1;
    assert s.free == s.free[..last] + [s.free[last]];
    assert multiset(s.free) == multiset(s.free[..last]) + multiset{s.free[last]};
  }

  lemma TakeFresh(first: PageId, s: Store, live: multiset<PageId>, revision: nat)
    requires Owns(first, s, live)
    ensures Owns(first, s.(nextPage := s.nextPage + 1), live + multiset{s.nextPage})
    ensures (s.limit.Some? ==> s.nextPage < s.limit.value) ==> Frame(s, s.(nextPage := s.nextPage + 1), {}, revision)
  {
    hide Upto;
    assert Upto(first, s.nextPage + 1) == Upto(first, s.nextPage) + multiset{s.nextPage};
  }

  lemma Retire(first: PageId, s: Store, live: multiset<PageId>, r: RetiredPage)
    requires Owns(first, s, live + multiset{r.id})
    ensures Owns(first, s.(retired := s.retired + [r]), live)
  {
    assert RetiredIds(s.retired + [r]) == RetiredIds(s.retired) + [r.id];
  }

  lemma FrameReflexive(s: Store, revision: nat)
    ensures Frame(s, s, {}, revision)
  {
  }

  lemma FrameTransitive(s: Store, t: Store, u: Store, own: set<PageId>, own': set<PageId>, revision: nat)
    requires Frame(s, t, own, revision) && Frame(t, u, own', revision)
    requires forall x :: x in own' ==> x in own || Available(s, x)
    ensures Frame(s, u, own, revision)
  {
    forall x | x in s.pages && !Available(s, x) && x !in own
      ensures x in u.pages && u.pages[x] == s.pages[x]
    {
      assert !Available(t, x);
    }
  }

  lemma FrameUses(s: Store, t: Store, own: set<PageId>, revision: nat)
    requires Frame(s, t, own, revision)
    ensures Used(s) <= Used(t) && s.limit == t.limit
    ensures s.limit.Some? && s.nextPage < t.nextPage ==> t.nextPage <= s.limit.value
    ensures |s.retired| <= |t.retired|
  {
  }

  lemma FrameWiden(s: Store, t: Store, own: set<PageId>, own': set<PageId>, revision: nat)
    requires Frame(s, t, own, revision) && own <= own'
    ensures Frame(s, t, own', revision)
  {
  }

  // What is available after a staged step was available before it.
  lemma AvailableBack(s: Store, t: Store, id: PageId, revision: nat, own: set<PageId> := {})
    requires Frame(s, t, own, revision) && Available(t, id)
    ensures Available(s, id)
  {
  }

  // Writing a live page leaves the other live pages alone.
  lemma WriteKeepsOthers(first: PageId, s: Store, id: PageId, page: Page, live: multiset<PageId>)
    requires Owns(first, s, live + multiset{id})
    ensures SameData(s.pages, s.pages[id := page], live)
  {
    LiveDisjoint(first, s, live, multiset{id});
  }

  lemma {:induction false} UptoSize(first: PageId, next: PageId)
    requires first <= next
    ensures |Upto(first, next)| == next - first
    decreases next
  {
    if first < next {
      UptoSize(first, next - 1);
    }
  }

  // How many pages are free, retired and live.
  lemma OwnsCounts(first: PageId, s: Store, live: multiset<PageId>)
    requires Owns(first, s, live)
    ensures Used(s) == first + |s.retired| + |live|
  {
    hide Upto;
    UptoSize(first, s.nextPage);
    assert |multiset(s.free) + multiset(RetiredIds(s.retired)) + live| == |s.free| + |RetiredIds(s.retired)| + |live|;
  }

  // A page that was taken and is neither live nor retired is lost.
  lemma LostPage(first: PageId, s: Store, t: Store, live: multiset<PageId>)
    requires Owns(first, s, live) && Used(t) > Used(s) && t.retired == s.retired
    ensures !Owns(first, t, live)
  {
    hide Owns;
    OwnsCounts(first, s, live);
    if Owns(first, t, live) {
      OwnsCounts(first, t, live);
    }
  }

  // A live page that was retired is accounted for twice.
  lemma RetiredLivePage(first: PageId, s: Store, t: Store, own: set<PageId>, revision: nat, live: multiset<PageId>,
          id: PageId)
    requires Frame(s, t, own, revision) && id in RetiredIds(s.retired) && id in live
    ensures !Owns(first, t, live)
  {
    hide Owns;
    var i :| 0 <= i < |s.retired| && RetiredIds(s.retired)[i] == id;
    assert RetiredIds(t.retired)[i] == id;
    if Owns(first, t, live) {
      LiveIsNotAvailable(first, t, live, id);
    }
  }

  // Live ids are pairwise distinct and neither available nor retired.
  lemma LiveIsNotAvailable(first: PageId, s: Store, live: multiset<PageId>, x: PageId)
    requires Owns(first, s, live) && x in live
    ensures live[x] == 1 && !Available(s, x) && 1 <= first <= x
    ensures x !in RetiredIds(s.retired)
  {
    var m := multiset(s.free) + multiset(RetiredIds(s.retired)) + live;
    assert m[x] == multiset(s.free)[x] + multiset(RetiredIds(s.retired))[x] + live[x];
    assert m[x] == Upto(first, s.nextPage)[x];
    assert x in s.free <==> multiset(s.free)[x] > 0;
  }

  // Two parts of the live pages have no page in common.
  lemma LiveDisjoint(first: PageId, s: Store, a: multiset<PageId>, b: multiset<PageId>)
    requires Owns(first, s, a + b)
    ensures a !! b
  {
    forall x | x in a ensures x !in b {
      LiveIsNotAvailable(first, s, a + b, x);
      assert (a + b)[x] == a[x] + b[x];
    }
  }

  // ---- Page contents apart from leaf links ----

  function Unlinked(p: Page): Page {
    if p.LeafPage? then p.(next := 0) else p
  }

  // The pages of `ids` are the same in both maps, leaf links aside.
  ghost predicate SameData(p: PageMap, q: PageMap, ids: multiset<PageId>) {
    forall x :: x in ids && x in p ==> x in q && Unlinked(q[x]) == Unlinked(p[x])
  }

  lemma FrameKeepsLive(first: PageId, s: Store, t: Store, own: set<PageId>, revision: nat, live: multiset<PageId>)
    requires Owns(first, s, live) && Frame(s, t, own, revision)
    requires forall x :: x in own ==> x !in live
    ensures SameData(s.pages, t.pages, live)
  {
    forall x | x in live && x in s.pages ensures x in t.pages && Unlinked(t.pages[x]) == Unlinked(s.pages[x]) {
      LiveIsNotAvailable(first, s, live, x);
    }
  }

  lemma LiveDisjointOwn(first: PageId, s: Store, own: set<PageId>, others: multiset<PageId>, part: multiset<PageId>)
    requires Owns(first, s, others + part)
    requires forall x :: x in own ==> x in others || Available(s, x)
    ensures forall x :: x in own ==> x !in part
  {
    hide Owns;
    LiveDisjoint(first, s, others, part);
    forall x | x in own && x in part ensures false {
      LiveIsNotAvailable(first, s, others + part, x);
    }
  }

  lemma FrameKeepsPart(first: PageId, s: Store, t: Store, own: set<PageId>, revision: nat, part: multiset<PageId>,
          others: multiset<PageId>)
    requires Owns(first, s, others + part) && Frame(s, t, own, revision)
    requires forall x :: x in own ==> x !in part
    ensures SameData(s.pages, t.pages, part)
  {
    hide Owns;
    forall x | x in part && x in s.pages ensures x in t.pages && Unlinked(t.pages[x]) == Unlinked(s.pages[x]) {
      LiveIsNotAvailable(first, s, others + part, x);
    }
  }
}
