// The cache of decoded branch pages that reads of a tree go through
// (pagebtree/page_cache.go, pagebtree/search.go).

module PageCaches {
  import opened KeyOrder
  import opened Contents
  import opened Pages
  import opened Nodes
  import opened Trees
  import opened Routing
  import opened Search
  import opened Invariants

  const DEFAULT_CAPACITY := 128

  datatype CachedBranch = CachedBranch(checksum: nat, keys: seq<Key>, children: seq<PageId>)

  // An element of the recency list; the ticket tells elements apart as their addresses do.
  datatype Element = Element(ticket: nat, id: PageId)

  // The ticket is that of the entry's list element.
  datatype CachedEntry = CachedEntry(branch: CachedBranch, ticket: nat)

  // A page stored under an id.
  datatype Stored = Stored(id: PageId, page: PageData)

  // ---- Recency lists ----

  function IdsOf(lru: seq<Element>): (ids: seq<PageId>)
    ensures |ids| == |lru|
  {
    seq(|lru|, i requires 0 <= i < |lru| => lru[i].id)
  }

  // list.Remove
  function Cut(lru: seq<Element>, ticket: nat): seq<Element> {
    if lru == [] then [] else if lru[0].ticket == ticket then lru[1..] else [lru[0]] + Cut(lru[1..], ticket)
  }

  // ---- What a least-recently-used list is ----

  function Without(ids: seq<PageId>, id: PageId): seq<PageId> {
    if ids == [] then [] else if ids[0] == id then ids[1..] else [ids[0]] + Without(ids[1..], id)
  }

  function Take(ids: seq<PageId>, n: nat): seq<PageId> {
    if |ids| <= n then ids else ids[..n]
  }

  // The ids after a lookup: the one looked up, then the others in their order, as many as fit.
  function Touched(ids: seq<PageId>, id: PageId, capacity: nat): seq<PageId> {
    Take([id] + Without(ids, id), capacity)
  }

  // A lookup puts the id first, keeps the order of the others, and drops from the end what is
  // over the capacity. The id was at place `k`, or nowhere if that is past the end.
  lemma TouchedAt(ids: seq<PageId>, id: PageId, capacity: nat, k: nat)
    requires k <= |ids| && id !in ids[..k] && (k < |ids| ==> ids[k] == id)
    ensures |Touched(ids, id, capacity)| ==
            var all := if k < |ids| then |ids| else |ids| + 1;
            if all < capacity then all else capacity
    ensures capacity > 0 ==> Touched(ids, id, capacity)[0] == id
    ensures forall i :: 1 <= i < |Touched(ids, id, capacity)| ==>
              Touched(ids, id, capacity)[i] == if i <= k then ids[i - 1] else ids[i]
  {
    hide Without;
    if k < |ids| {
      WithoutAt(ids, k);
    } else {
      assert ids[..k] == ids;
      WithoutNone(ids, id);
    }
  }

  // ---- Map and list agree ----

  ghost predicate Distinct(lru: seq<Element>) {
    forall i, j :: 0 <= i < j < |lru| ==> lru[i].id != lru[j].id && lru[i].ticket != lru[j].ticket
  }

  ghost predicate Agree(branches: map<PageId, CachedEntry>, lru: seq<Element>, tickets: nat) {
    && Distinct(lru)
    && (forall i :: 0 <= i < |lru| ==> lru[i].id in branches && branches[lru[i].id].ticket == lru[i].ticket < tickets)
    && Covers(branches.Keys, IdsOf(lru))
  }

  ghost predicate Covers(keys: set<PageId>, ids: seq<PageId>) {
    forall id :: id in keys ==> id in ids
  }

  lemma DistinctTickets(lru: seq<Element>, i: nat)
    requires Distinct(lru) && i < |lru|
    ensures forall j :: 0 <= j < i ==> lru[j].ticket != lru[i].ticket
  {
  }

  lemma CutDistinct(lru: seq<Element>, i: nat)
    requires Distinct(lru) && i < |lru|
    ensures Cut(lru, lru[i].ticket) == lru[..i] + lru[i + 1..]
  {
    DistinctTickets(lru, i);
    hide Distinct;
    CutAt(lru, lru[i].ticket, i);
  }

  lemma {:induction false} CutAt(lru: seq<Element>, ticket: nat, i: nat)
    requires i < |lru| && lru[i].ticket == ticket && forall j :: 0 <= j < i ==> lru[j].ticket != ticket
    ensures Cut(lru, ticket) == lru[..i] + lru[i + 1..]
  {
    if i > 0 {
      CutAt(lru[1..], ticket, i - 1);
      Shift(lru, i);
    }
  }

  lemma Shift<T>(s: seq<T>, i: nat)
    requires 0 < i < |s|
    ensures [s[0]] + (s[1..][..i - 1] + s[1..][i..]) == s[..i] + s[i + 1..]
  {
  }

  lemma {:induction false} WithoutAt(ids: seq<PageId>, i: nat)
    requires i < |ids| && ids[i] !in ids[..i]
    ensures Without(ids, ids[i]) == ids[..i] + ids[i + 1..]
  {
    if i > 0 {
      assert ids[0] in ids[..i];
      assert ids[1..][..i - 1] == ids[1..i] && ids[1..][i..] == ids[i + 1..];
      WithoutAt(ids[1..], i - 1);
    }
  }

  lemma {:induction false} WithoutNone(ids: seq<PageId>, id: PageId)
    requires id !in ids
    ensures Without(ids, id) == ids
  {
    if ids != [] {
      WithoutNone(ids[1..], id);
    }
  }

  lemma {:induction false} IndexOf(branches: map<PageId, CachedEntry>, lru: seq<Element>, tickets: nat, id: PageId)
    returns (i: nat)
    requires Agree(branches, lru, tickets) && id in branches
    ensures i < |lru| && lru[i] == Element(branches[id].ticket, id) && IdsOf(lru)[i] == id && id !in IdsOf(lru)[..i]
  {
    assert id in IdsOf(lru);
    i :| 0 <= i < |lru| && IdsOf(lru)[i] == id;
  }

  // Removing an entry removes its element.
  lemma {:induction false} CutAgrees(branches: map<PageId, CachedEntry>, lru: seq<Element>, tickets: nat, id: PageId)
    requires Agree(branches, lru, tickets) && id in branches
    ensures Agree(branches - {id}, Cut(lru, branches[id].ticket), tickets)
    ensures IdsOf(Cut(lru, branches[id].ticket)) == Without(IdsOf(lru), id)
    ensures id !in IdsOf(Cut(lru, branches[id].ticket)) && |Cut(lru, branches[id].ticket)| == |lru| - 1
  {
    hide Cut, Without;
    var i := IndexOf(branches, lru, tickets, id);
    CutDistinct(lru, i);
    WithoutAt(IdsOf(lru), i);
    DropAgrees(branches, lru, tickets, i, lru[..i] + lru[i + 1..]);
  }

  lemma {:induction false} DropAgrees(branches: map<PageId, CachedEntry>, lru: seq<Element>, tickets: nat, i: nat,
          cut: seq<Element>)
    requires Agree(branches, lru, tickets) && i < |lru| && cut == lru[..i] + lru[i + 1..]
    ensures Agree(branches - {lru[i].id}, cut, tickets)
    ensures IdsOf(cut) == IdsOf(lru)[..i] + IdsOf(lru)[i + 1..] && lru[i].id !in IdsOf(cut)
  {
    hide Covers;
    var id := lru[i].id;
    forall j | 0 <= j < |cut| ensures cut[j] == lru[if j < i then j else j + 1] && cut[j].id != id {
    }
    DropDistinct(lru, i, cut);
    assert IdsOf(cut) == IdsOf(lru)[..i] + IdsOf(lru)[i + 1..];
    DropCovers(branches.Keys, IdsOf(lru), i, IdsOf(cut));
    assert (branches - {id}).Keys == branches.Keys - {id};
  }

  lemma {:induction false} DropCovers(keys: set<PageId>, ids: seq<PageId>, i: nat, cut: seq<PageId>)
    requires Covers(keys, ids) && i < |ids| && cut == ids[..i] + ids[i + 1..]
    ensures Covers(keys - {ids[i]}, cut)
  {
    forall x | x in keys - {ids[i]} ensures x in cut {
      var j :| 0 <= j < |ids| && ids[j] == x;
      assert cut[if j < i then j else j - 1] == x;
    }
  }

  lemma {:induction false} DropDistinct(lru: seq<Element>, i: nat, cut: seq<Element>)
    requires Distinct(lru) && i < |lru| && cut == lru[..i] + lru[i + 1..]
    ensures Distinct(cut)
  {
    forall j, k | 0 <= j < k < |cut| ensures cut[j].id != cut[k].id && cut[j].ticket != cut[k].ticket {
      assert cut[j] == lru[if j < i then j else j + 1] && cut[k] == lru[if k < i then k else k + 1];
    }
  }

  lemma {:induction false} PushAgrees(branches: map<PageId, CachedEntry>, lru: seq<Element>, tickets: nat, id: PageId,
          branch: CachedBranch)
    requires Agree(branches, lru, tickets) && id !in branches
    ensures Agree(branches[id := CachedEntry(branch, tickets)], [Element(tickets, id)] + lru, tickets + 1)
    ensures IdsOf([Element(tickets, id)] + lru) == [id] + IdsOf(lru)
  {
    var all := branches[id := CachedEntry(branch, tickets)];
    assert all - {id} == branches;
    MoreTickets(branches, lru, tickets, tickets + 1);
    JoinAgrees(all, lru, tickets + 1, Element(tickets, id));
  }

  // An element put before those of the other entries.
  lemma {:induction false} JoinAgrees(branches: map<PageId, CachedEntry>, lru: seq<Element>, tickets: nat, e: Element)
    requires Agree(branches - {e.id}, lru, tickets)
    requires e.id in branches && branches[e.id].ticket == e.ticket < tickets
    requires forall i :: 0 <= i < |lru| ==> lru[i].ticket != e.ticket
    ensures Agree(branches, [e] + lru, tickets)
    ensures IdsOf([e] + lru) == [e.id] + IdsOf(lru)
  {
    hide Covers, Distinct;
    assert IdsOf([e] + lru) == [e.id] + IdsOf(lru);
    JoinDistinct(lru, e);
    JoinCovers(branches.Keys, e.id, IdsOf(lru));
    assert (branches - {e.id}).Keys == branches.Keys - {e.id};
  }

  lemma JoinDistinct(lru: seq<Element>, e: Element)
    requires Distinct(lru) && forall i :: 0 <= i < |lru| ==> lru[i].ticket != e.ticket && lru[i].id != e.id
    ensures Distinct([e] + lru)
  {
  }

  lemma JoinCovers(keys: set<PageId>, id: PageId, ids: seq<PageId>)
    requires Covers(keys - {id}, ids)
    ensures Covers(keys, [id] + ids)
  {
    forall x | x in keys ensures x in [id] + ids {
      assert x == id || x in ids;
    }
  }

  lemma MoreTickets(branches: map<PageId, CachedEntry>, lru: seq<Element>, tickets: nat, more: nat)
    requires Agree(branches, lru, tickets) && tickets <= more
    ensures Agree(branches, lru, more)
  {
    hide Covers, Distinct;
  }

  // Moving an entry's element to the front.
  lemma {:induction false} FrontAgrees(branches: map<PageId, CachedEntry>, lru: seq<Element>, tickets: nat, id: PageId)
    requires Agree(branches, lru, tickets) && id in branches
    ensures Agree(branches, [Element(branches[id].ticket, id)] + Cut(lru, branches[id].ticket), tickets)
    ensures IdsOf([Element(branches[id].ticket, id)] + Cut(lru, branches[id].ticket)) == [id] + Without(IdsOf(lru), id)
  {
    hide Cut, Without;
    CutAgrees(branches, lru, tickets, id);
    var i := IndexOf(branches, lru, tickets, id);
    CutDistinct(lru, i);
    OthersDiffer(lru, i, lru[..i] + lru[i + 1..]);
    hide Agree;
    JoinAgrees(branches, lru[..i] + lru[i + 1..], tickets, lru[i]);
  }

  lemma OthersDiffer(lru: seq<Element>, i: nat, cut: seq<Element>)
    requires Distinct(lru) && i < |lru| && cut == lru[..i] + lru[i + 1..]
    ensures forall j :: 0 <= j < |cut| ==> cut[j].ticket != lru[i].ticket
  {
    forall j | 0 <= j < |cut| ensures cut[j].ticket != lru[i].ticket {
      assert cut[j] == lru[if j < i then j else j + 1];
    }
  }

  // There are as many entries as elements.
  lemma {:induction false} SameSize(branches: map<PageId, CachedEntry>, lru: seq<Element>, tickets: nat)
    requires Agree(branches, lru, tickets)
    ensures |branches| == |lru|
    decreases |lru|
  {
    if lru == [] {
      assert branches == map[];
    } else {
      var id := lru[0].id;
      CutAgrees(branches, lru, tickets, id);
      SameSize(branches - {id}, Cut(lru, branches[id].ticket), tickets);
      assert branches.Keys == (branches - {id}).Keys + {id};
    }
  }

  // ---- Checksums tell contents apart ----

  // No two branch pages stored under one id have the same checksum and different contents.
  ghost predicate Distinguishes(crc: PageData -> nat, history: set<Stored>) {
    forall a, b :: a in history && b in history && a.id == b.id && crc(a.page) == crc(b.page) ==> a.page == b.page
  }

  // Every entry is a page that was looked up.
  ghost predicate Genuine(crc: PageData -> nat, branches: map<PageId, CachedEntry>, history: set<Stored>) {
    forall id :: id in branches ==>
      Stored(id, BranchPage(branches[id].branch.keys, branches[id].branch.children)) in history
      && crc(BranchPage(branches[id].branch.keys, branches[id].branch.children)) == branches[id].branch.checksum
  }

  class PageCache {
    const crc: PageData -> nat
    var capacity: nat
    var initialized: bool
    var branches: map<PageId, CachedEntry>
    var lru: seq<Element>
    // The number of list elements made so far.
    var tickets: nat
    var hits: nat
    var misses: nat
    var invalidations: nat
    var evictions: nat
    var entries: nat
    ghost var history: set<Stored>

    // newPageCache, with the capacity normalised
    constructor (crc: PageData -> nat, capacity: int)
      ensures this.crc == crc && Valid() && initialized && history == {} && branches == map[]
      ensures this.capacity == if capacity == 0 then 128 else if capacity < 0 then 0 else capacity
    {
      this.crc := crc;
      this.capacity := if capacity == 0 then DEFAULT_CAPACITY else if capacity < 0 then 0 else capacity;
      initialized, branches, lru, tickets := true, map[], [], 0;
      hits, misses, invalidations, evictions, entries := 0, 0, 0, 0, 0;
      history := {};
    }

    ghost predicate Valid()
      reads this
    {
      Agree(branches, lru, tickets) && |lru| <= capacity && Genuine(crc, branches, history)
    }

    // evictOldest
    method EvictOldest()
      requires Agree(branches, lru, tickets) && lru != []
      modifies `branches, `lru, `evictions, `entries
      ensures Agree(branches, lru, tickets) && IdsOf(lru) == IdsOf(old(lru))[..|old(lru)| - 1]
      ensures branches == old(branches) - {old(lru)[|old(lru)| - 1].id} && |lru| == |old(lru)| - 1
    {
      hide Cut, Without, Agree, IdsOf;
      if |lru| == 0 {
        return;
      }
      var element := lru[|lru| - 1];
      LastEntry(branches, lru, tickets);
      CutAgrees(branches, lru, tickets, element.id);
      branches := branches - {element.id};
      lru := Cut(lru, element.ticket);
      evictions := evictions + 1;
      entries := |branches|;
    }

    // insert: the loop ends because every eviction takes an entry, which it does because map
    // and list agree.
    method Insert(id: PageId, branch: CachedBranch)
      requires Agree(branches, lru, tickets) && id !in branches && |lru| <= capacity
      modifies `branches, `lru, `tickets, `evictions, `entries
      ensures Agree(branches, lru, tickets) && |lru| <= capacity
      ensures capacity > 0 ==>
                IdsOf(lru) == Take([id] + IdsOf(old(lru)), capacity) && id in branches && branches[id].branch == branch
      ensures capacity == 0 ==> branches == old(branches) && lru == old(lru) == []
      ensures forall x :: x in branches && x != id ==> x in old(branches) && branches[x] == old(branches)[x]
    {
      hide Agree, Distinct, IdsOf;
      if capacity == 0 {
        entries := 0;
        return;
      }
      SameSize(branches, lru, tickets);
      ghost var ids := IdsOf(lru);
      while |branches| >= capacity
        invariant Agree(branches, lru, tickets) && |branches| == |lru| <= capacity && tickets == old(tickets)
        invariant IdsOf(lru) == ids[..|lru|] && |lru| <= |ids| && (|lru| == |ids| || |lru| == capacity - 1)
        invariant id !in branches && forall x :: x in branches ==> x in old(branches) && branches[x] == old(branches)[x]
        decreases |lru|
      {
        EvictOldest();
        SameSize(branches, lru, tickets);
      }
      PushAgrees(branches, lru, tickets, id, branch);
      lru := [Element(tickets, id)] + lru;
      branches := branches[id := CachedEntry(branch, tickets)];
      tickets := tickets + 1;
      entries := |branches|;
    }

    // remove
    method Remove(id: PageId)
      requires Agree(branches, lru, tickets) && id in branches
      modifies `branches, `lru, `entries
      ensures Agree(branches, lru, tickets) && IdsOf(lru) == Without(IdsOf(old(lru)), id) && |lru| < |old(lru)|
      ensures branches == old(branches) - {id}
    {
      CutAgrees(branches, lru, tickets, id);
      lru := Cut(lru, branches[id].ticket);
      branches := branches - {id};
      entries := |branches|;
    }

    // touch
    method Touch(id: PageId)
      requires Agree(branches, lru, tickets) && id in branches
      modifies `lru
      ensures Agree(branches, lru, tickets) && IdsOf(lru) == [id] + Without(IdsOf(old(lru)), id) && |lru| == |old(lru)|
    {
      FrontAgrees(branches, lru, tickets, id);
      CutAgrees(branches, lru, tickets, id);
      lru := [Element(branches[id].ticket, id)] + Cut(lru, branches[id].ticket);
    }

    // branch: what comes back is what the page holds, cached or not, and the list of ids is a
    // least-recently-used one.
    method Branch(id: PageId, page: PageData) returns (branch: CachedBranch)
      requires Valid() && initialized && page.BranchPage?
      requires Distinguishes(crc, history + {Stored(id, page)})
      modifies this
      ensures Valid() && initialized && capacity == old(capacity) && history == old(history) + {Stored(id, page)}
      ensures branch.keys == page.keys && branch.children == page.children
      ensures IdsOf(lru) == Touched(IdsOf(old(lru)), id, capacity)
      ensures old(id in branches && branches[id].branch.checksum == crc(page)) ==>
                hits == old(hits) + 1 && misses == old(misses)
      ensures !old(id in branches && branches[id].branch.checksum == crc(page)) ==>
                hits == old(hits) && misses == old(misses) + 1
    {
      hide Agree, IdsOf, Without, Genuine, Distinguishes;
      ghost var ids := IdsOf(lru);
      var checksum := crc(page);
      if id in branches {
        if branches[id].branch.checksum == checksum {
          HitIsPage(crc, branches, history, id, page);
          GenuineGrows(crc, branches, branches, history, id, page);
          history := history + {Stored(id, page)};
          hits := hits + 1;
          Touch(id);
          return branches[id].branch;
        }
        invalidations := invalidations + 1;
        Remove(id);
      } else {
        NotListed(branches, lru, tickets, id);
      }
      branch := CachedBranch(checksum, page.keys, page.children);
      misses := misses + 1;
      Insert(id, branch);
      GenuineGrows(crc, old(branches), branches, history, id, page);
      history := history + {Stored(id, page)};
    }
  }

  lemma NotListed(branches: map<PageId, CachedEntry>, lru: seq<Element>, tickets: nat, id: PageId)
    requires Agree(branches, lru, tickets) && id !in branches
    ensures Without(IdsOf(lru), id) == IdsOf(lru)
  {
    WithoutNone(IdsOf(lru), id);
  }

  // An entry with the page's checksum holds the page's contents.
  lemma HitIsPage(crc: PageData -> nat, branches: map<PageId,
          CachedEntry>, history: set<Stored>, id: PageId, page: PageData)
    requires Genuine(crc, branches, history) && id in branches && branches[id].branch.checksum == crc(page)
    requires page.BranchPage? && Distinguishes(crc, history + {Stored(id, page)})
    ensures branches[id].branch.keys == page.keys && branches[id].branch.children == page.children
  {
    var known := Stored(id, BranchPage(branches[id].branch.keys, branches[id].branch.children));
    assert known in history + {Stored(id, page)} && Stored(id, page) in history + {Stored(id, page)};
    assert known.page == page;
  }

  lemma GenuineGrows(crc: PageData -> nat, before: map<PageId, CachedEntry>, after: map<PageId,
          CachedEntry>, history: set<Stored>, id: PageId, page: PageData)
    requires Genuine(crc, before, history) && page.BranchPage?
    requires forall x :: x in after && (x != id || x !in before || after[x] != before[x]) ==>
               (x == id && after[x].branch == CachedBranch(crc(page), page.keys, page.children))
                 || (x in before && after[x] == before[x])
    ensures Genuine(crc, after, history + {Stored(id, page)})
  {
    assert page == BranchPage(page.keys, page.children);
  }

  lemma LastEntry(branches: map<PageId, CachedEntry>, lru: seq<Element>, tickets: nat)
    requires Agree(branches, lru, tickets) && lru != []
    ensures var e := lru[|lru| - 1]; e.id in branches && branches[e.id].ticket == e.ticket
    ensures Without(IdsOf(lru), lru[|lru| - 1].id) == IdsOf(lru)[..|lru| - 1]
  {
    hide Covers;
    LastWithout(lru);
  }

  lemma LastWithout(lru: seq<Element>)
    requires Distinct(lru) && lru != []
    ensures Without(IdsOf(lru), lru[|lru| - 1].id) == IdsOf(lru)[..|lru| - 1]
  {
    var ids, last := IdsOf(lru), |lru| - 1;
    assert ids[last] !in ids[..last];
    WithoutAt(ids, last);
    assert ids[last + 1..] == [];
  }

  // ---- Reading through the cache ----

  // The pages a read may look up.
  function StoredIn(pages: PageMap): set<Stored> {
    set x | x in pages :: Stored(x, pages[x])
  }

  lemma FewerDistinguished(crc: PageData -> nat, few: set<Stored>, many: set<Stored>)
    requires Distinguishes(crc, many) && few <= many
    ensures Distinguishes(crc, few)
  {
  }

  // searchBranchChild: the child the page itself routes to.
  method SearchBranchChild(cache: PageCache, id: PageId, page: PageData, key: Key, o: Order) returns (child: PageId)
    requires cache.Valid() && cache.initialized && page.BranchPage? && |page.children| == |page.keys| + 1
             && SortedKeys(o, page.keys)
    requires Distinguishes(cache.crc, cache.history + {Stored(id, page)})
    modifies cache
    ensures cache.Valid() && cache.initialized && cache.history == old(cache.history) + {Stored(id, page)}
    ensures child == page.children[ChildFor(o, page.keys, key)]
  {
    hide SortedKeys, Distinguishes;
    var entry := cache.Branch(id, page);
    var index := ChildIndex(o, entry.keys, key);
    return entry.children[index];
  }

  // searchPageWithCache: reading through the cache finds what reading the pages finds.
  method SearchPageWithCache(cache: PageCache, pages: PageMap, root: PageId, key: Key, o: Order,
          ghost shape: Option<Node>)
    returns (value: Option<Bytes>)
    requires cache.Valid() && cache.initialized && Distinguishes(cache.crc, cache.history + StoredIn(pages))
    requires root == if shape.Some? then shape.value.id else 0
    requires shape.Some? ==> Readable(o, pages, shape.value)
    modifies cache
    ensures cache.Valid() && cache.initialized && cache.history <= old(cache.history) + StoredIn(pages)
    ensures value == if shape.Some? then Lookup(o, Flat(shape.value), key) else None
  {
    hide Readable, ValuesRep, ValueRep, SortedKeys, LowerBound, Has, Flat, FlatAll, Models, Distinguishes, StoredIn,
      Agree, Genuine;
    ReadableId(o, pages, shape);
    if root == 0 {
      return None;
    }
    var at := root;
    ghost var n := shape.value;
    ghost var many := cache.history + StoredIn(pages);
    while at != 0
      invariant at == n.id && at != 0 && Readable(o, pages, n)
      invariant Lookup(o, Flat(n), key) == Lookup(o, Flat(shape.value), key)
      invariant cache.Valid() && cache.initialized && cache.history <= many
      decreases n
    {
      ReadableShape(o, pages, n);
      var p := pages[at];
      if p.LeafPage? {
        value := SearchLeaf(pages, p, key, o, n);
        return;
      }
      ReadableKids(o, pages, n);
      ChildIsRouted(o, n.kids, key);
      ghost var index := ChildFor(o, p.keys, key);
      RoutedLookup(o, n.kids, index, key);
      PageStored(pages, at);
      FewerDistinguished(cache.crc, cache.history + {Stored(at, p)}, many);
      at := SearchBranchChild(cache, at, p, key, o);
      n := n.kids[index];
      ReadableId(o, pages, Some(n));
    }
    return None;
  }

  // Get of a tree, through its cache.
  method Get(t: Tree, cache: PageCache, key: Key, ghost lo: nat) returns (value: Option<Bytes>)
    requires WellFormed(t, lo) && cache.Valid() && cache.initialized
    requires Distinguishes(cache.crc, cache.history + StoredIn(t.pages))
    modifies cache
    ensures value == if t.closed then None else Lookup(t.order, Pairs(t), key)
    ensures cache.Valid() && cache.initialized && cache.history <= old(cache.history) + StoredIn(t.pages)
  {
    hide Owns, Spells, Pinned, Current, Readable, Flat, Distinguishes, StoredIn, Agree, Genuine, Has;
    if t.closed {
      return None;
    }
    SpellsReadable(t.order, t.degree, t.pages, t.root, t.shape, t.height, lo);
    NothingFound(t.order, key);
    value := SearchPageWithCache(cache, t.pages, t.root, key, t.order, t.shape);
  }

  lemma PageStored(pages: PageMap, id: PageId)
    requires id in pages
    ensures Stored(id, pages[id]) in StoredIn(pages)
  {
  }
}
