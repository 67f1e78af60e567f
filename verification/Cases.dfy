// Trees at which the limits of the design show: a deletion after which a leaf is too empty,
// a panic that damages a tree, a page retired at revision zero, and trees that a sync writes
// and recovery refuses.

module Cases {
  import opened KeyOrder
  import opened Contents
  import opened Pages
  import opened Nodes
  import opened Trees
  import opened Splits
  import opened LeafPages
  import opened Capacity
  import opened Routing
  import opened Freelist
  import opened LeafLinks
  import opened Deletion
  import opened Invariants
  import opened Updates
  import opened Snapshots
  import opened Batches
  import opened Audits
  import opened MetaPages
  import opened Recovery
  import opened Reopening
  import SlottedPages

  // ---- Two leaves under a root ----

  function InlineSlots(s: seq<KV>): (r: seq<Slot>)
    ensures |r| == |s|
  {
    seq(|s|, i requires 0 <= i < |s| => Slot(s[i], []))
  }

  function TwoLeaves(root: PageId, x: PageId, y: PageId, a: seq<KV>, b: seq<KV>): Node {
    Branch(root, [Leaf(x, InlineSlots(a)), Leaf(y, InlineSlots(b))])
  }

  function LeafOf(s: seq<KV>, next: PageId): Page {
    LeafPage(EntriesOf(InlineSlots(s)), next)
  }

  // A leaf can hold these pairs, every value beside its key.
  predicate FitsInline(s: seq<KV>) {
    && LeafBytes(EntriesOf(InlineSlots(s))) <= PAGE_SIZE
    && forall i :: 0 <= i < |s| ==> !StoresOverflow(s[i].key, s[i].value)
  }

  ghost predicate HoldsTwo(pages: PageMap, root: PageId, x: PageId, y: PageId, a: seq<KV>, b: seq<KV>) {
    && root in pages && x in pages && y in pages && b != []
    && pages[root] == BranchPage([b[0].key], [x, y])
    && pages[x].LeafPage? && pages[x].entries == EntriesOf(InlineSlots(a))
    && pages[y].LeafPage? && pages[y].entries == EntriesOf(InlineSlots(b))
  }

  lemma {:induction false} InlineIds(s: seq<KV>)
    ensures ChainIds(InlineSlots(s)) == multiset{}
    decreases |s|
  {
    if s != [] {
      assert InlineSlots(s)[1..] == InlineSlots(s[1..]);
      InlineIds(s[1..]);
    }
  }

  lemma InlineFlat(id: PageId, s: seq<KV>)
    ensures Flat(Leaf(id, InlineSlots(s))) == s && Ids(Leaf(id, InlineSlots(s))) == multiset{id}
    ensures LeafIds(Leaf(id, InlineSlots(s))) == [id]
  {
    InlineIds(s);
    assert PairsOf(InlineSlots(s)) == s;
  }

  lemma TwoLeavesFlat(root: PageId, x: PageId, y: PageId, a: seq<KV>, b: seq<KV>)
    ensures Flat(TwoLeaves(root, x, y, a, b)) == a + b && Ids(TwoLeaves(root, x, y, a, b)) == multiset{root, x, y}
    ensures LeafIds(TwoLeaves(root, x, y, a, b)) == [x, y]
  {
    hide Flat, Ids, LeafIds, FlatAll, IdsAll, LeafIdsAll;
    var l, r := Leaf(x, InlineSlots(a)), Leaf(y, InlineSlots(b));
    InlineFlat(x, a);
    InlineFlat(y, b);
    OfBranch(root, [l, r]);
    assert [l, r] == [l] + [r];
    ConcatAll([l], [r]);
    One(l);
    One(r);
  }

  lemma TwoLeavesRep(pages: PageMap, root: PageId, x: PageId, y: PageId, a: seq<KV>, b: seq<KV>)
    requires HoldsTwo(pages, root, x, y, a, b) && FitsInline(a) && FitsInline(b)
    ensures Rep(pages, TwoLeaves(root, x, y, a, b))
  {
    hide LeafBytes, BranchBytes;
    var l, r := Leaf(x, InlineSlots(a)), Leaf(y, InlineSlots(b));
    OneSeparatorBytes(b[0].key);
    assert Rep(pages, l) && Rep(pages, r);
    assert Separators([l, r]) == [b[0].key] && RootIds([l, r]) == [x, y];
    assert RepAll(pages, [l, r]);
  }

  lemma TwoLeavesBalanced(root: PageId, x: PageId, y: PageId, a: seq<KV>, b: seq<KV>, lo: nat, d: nat)
    requires d >= 2 && a != [] && b != [] && |a| < 2 * d && |b| < 2 * d
    ensures Balanced(TwoLeaves(root, x, y, a, b), 1, lo, d) <==> |a| >= lo && |b| >= lo
  {
    var kids := TwoLeaves(root, x, y, a, b).kids;
    assert Full(kids[0], 0, lo, d) <==> |a| >= lo;
    assert Full(kids[1], 0, lo, d) <==> |b| >= lo;
  }

  lemma TwoLeavesSpell(o: Order, d: nat, pages: PageMap, root: PageId, x: PageId, y: PageId, a: seq<KV>, b: seq<KV>,
          lo: nat)
    requires HoldsTwo(pages, root, x, y, a, b) && FitsInline(a) && FitsInline(b)
    requires d >= 2 && 1 <= |a| < 2 * d && 1 <= |b| < 2 * d && lo <= |a| && lo <= |b|
    requires root != 0 && x != 0 && y != 0 && Sorted(o, a + b) && Fitting(lo, d, a + b)
    ensures Spells(o, d, pages, root, Some(TwoLeaves(root, x, y, a, b)), 1, lo)
  {
    hide Rep, Balanced, Flat, Ids, SortedKeys, Fitting, HoldsTwo;
    TwoLeavesFlat(root, x, y, a, b);
    TwoLeavesRep(pages, root, x, y, a, b);
    TwoLeavesBalanced(root, x, y, a, b, lo, d);
  }

  // A tree that holds the pairs in leaves 2 and 3 under root 4, one revision old.
  method TwoLeafTree(o: Order, degree: nat, repairPercent: nat, growLimit: Option<PageId>, a: seq<KV>, b: seq<KV>,
          ghost lo: nat)
    returns (t: Tree)
    requires degree >= 2 && lo < degree && repairPercent <= 100
    requires 1 <= |a| < 2 * degree && 1 <= |b| < 2 * degree && lo <= |a| && lo <= |b|
    requires FitsInline(a) && FitsInline(b) && Sorted(o, a + b) && Fitting(lo, degree, a + b)
    ensures fresh(t) && WellFormed(t, lo)
    ensures t.order == o && t.degree == degree && t.first == FIRST_TREE_PAGE && t.growLimit == growLimit
            && t.repairPercent == repairPercent
    ensures t.shape == Some(TwoLeaves(4, 2, 3, a, b)) && t.height == 1 && Pairs(t) == a + b
    ensures !t.closed && !t.readOnly && t.readers == map[] && t.free == [] && t.retired == [] && t.nextPage == 5
            && t.revision == 1
    ensures t.length == |a| + |b|
  {
    hide Owns, Sorted, Fitting, FitsInline, TwoLeaves, TwoLeafPages, WellFormed, Pairs;
    t := new Tree(o, degree, repairPercent, FIRST_TREE_PAGE, growLimit);
    FillTwoLeaves(t, a, b);
    TwoLeafTreeWell(t, a, b, lo);
  }

  method FillTwoLeaves(t: Tree, a: seq<KV>, b: seq<KV>)
    requires b != []
    modifies t`pages, t`root, t`nextPage, t`length, t`revision, t`shape, t`height
    ensures t.pages == TwoLeafPages(a, b) && t.shape == Some(TwoLeaves(4, 2, 3, a, b)) && t.height == 1
    ensures t.root == 4 && t.nextPage == 5 && t.length == |a| + |b| && t.revision == 1
  {
    hide TwoLeaves, TwoLeafPages;
    t.pages := TwoLeafPages(a, b);
    t.root, t.nextPage, t.length, t.revision := 4, 5, |a| + |b|, 1;
    t.shape, t.height := Some(TwoLeaves(4, 2, 3, a, b)), 1;
  }

  function TwoLeafPages(a: seq<KV>, b: seq<KV>): PageMap
    requires b != []
  {
    map[2 := LeafOf(a, 3), 3 := LeafOf(b, 0), 4 := BranchPage([b[0].key], [2, 3])]
  }

  lemma TwoLeafPagesOwned(a: seq<KV>, b: seq<KV>, limit: Option<PageId>)
    requires b != []
    ensures Owns(FIRST_TREE_PAGE, Store(TwoLeafPages(a, b), 5, [], [], limit), multiset{4, 2, 3})
    ensures HoldsTwo(TwoLeafPages(a, b), 4, 2, 3, a, b) && Linked(TwoLeafPages(a, b), [2, 3])
  {
    hide EntriesOf, Upto;
    NoneRetired();
    assert multiset([]) + multiset([]) + multiset{4, 2, 3} == Upto(2, 5);
  }

  lemma TwoLeafTreeWell(t: Tree, a: seq<KV>, b: seq<KV>, lo: nat)
    requires t.degree >= 2 && lo < t.degree && t.first == FIRST_TREE_PAGE
    requires 1 <= |a| < 2 * t.degree && 1 <= |b| < 2 * t.degree && lo <= |a| && lo <= |b|
    requires FitsInline(a) && FitsInline(b) && Sorted(t.order, a + b) && Fitting(lo, t.degree, a + b)
    requires t.pages == TwoLeafPages(a, b) && t.root == 4 && t.nextPage == 5 && t.length == |a| + |b| && t.free == []
             && t.retired == []
    requires t.shape == Some(TwoLeaves(4, 2, 3, a, b)) && t.height == 1 && t.readers == map[] && t.pins == map[]
             && t.listPages == multiset{}
    ensures WellFormed(t, lo) && Pairs(t) == a + b
  {
    hide Balanced, Flat, Ids, Sorted, Fitting, Spells, Owns, EntriesOf, FitsInline, LeafIds, TwoLeaves, TwoLeafPages,
      HoldsTwo, Linked;
    TwoLeafPagesOwned(a, b, t.growLimit);
    TwoLeavesSpell(t.order, t.degree, t.pages, 4, 2, 3, a, b, lo);
    TwoLeavesFlat(4, 2, 3, a, b);
    assert t.listPages + LiveIds(t.shape) == LiveIds(t.shape);
  }

  // ---- Concrete pairs ----

  // Values of 2,000 bytes: two fit a leaf, three do not.
  function Large(): (v: Bytes)
    ensures |v| == 2000
  {
    seq(2000, _ => 0)
  }

  function LargePair(k: Byte): KV {
    KV([k], Large())
  }

  lemma LargePairsFit(k: Byte, j: Byte)
    ensures FitsInline([LargePair(k)]) && FitsInline([LargePair(k), LargePair(j)])
  {
    var one, two := EntriesOf(InlineSlots([LargePair(k)])), EntriesOf(InlineSlots([LargePair(k), LargePair(j)]));
    assert one[..0] == [] && two[..1] == [two[0]] && [two[0]][..0] == [];
    assert SumEntryBytes([two[0]]) == SumEntryBytes([]) + EntryBytes(two[0]);
  }

  lemma BytewiseOne(a: Byte, b: Byte)
    requires a < b
    ensures IsStrictTotalOrder(Bytewise) && Lt(Bytewise, [a], [b])
  {
    PersistedOrdersAreStrict();
    assert Bytewise.compare([a], [b]) == -1;
  }

  lemma ShortKeysFit(s: seq<KV>)
    requires forall i :: 0 <= i < |s| ==> |s[i].key| == 1
    ensures KeysFit(2, s) && KeysFit(3, s)
  {
  }

  // Pairs with the keys [1], [2], ... in bytewise order.
  lemma ByteKeysSorted(s: seq<KV>)
    requires |s| < 256 && forall i :: 0 <= i < |s| ==> s[i].key == [i + 1]
    ensures IsStrictTotalOrder(Bytewise) && Sorted(Bytewise, s)
  {
    PersistedOrdersAreStrict();
    forall i, j | 0 <= i < j < |s| ensures Lt(Bytewise, Keys(s)[i], Keys(s)[j]) {
      BytewiseOne(i + 1, j + 1);
    }
  }

  lemma ByteKeysTwo(a: seq<KV>, b: seq<KV>)
    requires |a + b| < 256 && forall i :: 0 <= i < |a + b| ==> (a + b)[i].key == [i + 1]
    ensures IsStrictTotalOrder(Bytewise) && Sorted(Bytewise, a + b) && KeysFit(2, a + b) && KeysFit(3, a + b)
  {
    ByteKeysSorted(a + b);
    ShortKeysFit(a + b);
  }

  // ---- A deletion after which a leaf is too empty ----

  const FIRST_LARGE := [LargePair(1), LargePair(2)]
  const LAST_LARGE := [LargePair(3), LargePair(4)]

  ghost predicate IsLargeTree(t: Tree)
    reads t
  {
    && t.degree == 3 && IsStrictTotalOrder(Bytewise) && t.order == Bytewise && WellFormed(t, 2)
    && t.growLimit.None? && !t.closed && !t.readOnly
    && t.shape == Some(TwoLeaves(4, 2, 3, FIRST_LARGE, LAST_LARGE)) && t.height == 1
  }

  // Degree 3, two leaves of two large pairs each.
  method LargeTree() returns (t: Tree)
    ensures fresh(t) && IsLargeTree(t)
  {
    hide FitsInline, Sorted, KeysFit, WellFormed;
    LargePairsFit(1, 2);
    LargePairsFit(3, 4);
    ByteKeysTwo(FIRST_LARGE, LAST_LARGE);
    t := TwoLeafTree(Bytewise, 3, 25, None, FIRST_LARGE, LAST_LARGE, 2);
  }

  // Without its first pair the first leaf has one key; with the other leaf's pairs it does not
  // fit one page, and three pairs are not enough for two leaves of two.
  lemma LargeTreeFallsShort()
    requires IsStrictTotalOrder(Bytewise)
    ensures !StaysHalf(Bytewise, 3, TwoLeaves(4, 2, 3, FIRST_LARGE, LAST_LARGE), 1, [1])
  {
    hide Large, StoresOverflow;
    var kids := TwoLeaves(4, 2, 3, FIRST_LARGE, LAST_LARGE).kids;
    assert Bytewise.compare([3], [1]) > 0;
    assert Separators(kids) == [[3]];
    assert ChildFor(Bytewise, [[3]], [1]) == 0;
    var slots := InlineSlots(FIRST_LARGE);
    assert Bytewise.compare([1], [1]) == 0;
    assert Keys(PairsOf(slots)) == [[1], [2]];
    assert LowerBound(Bytewise, [[1], [2]], [1]) == 0;
    var left := Dropped(Bytewise, slots, [1]);
    assert left == [Slot(LargePair(2), [])];
    var after := kids[0 := Leaf(2, left)];
    LargePairWeight(PairEntries(after, 0));
    assert PairsOf(left)[0] == LargePair(2);
  }

  lemma LargePairWeight(entries: seq<LeafEntry>)
    requires |entries| == 3 && forall i :: 0 <= i < 3 ==> HeldBytes(entries[i]) == 2009
    ensures !Merges(3, entries)
  {
    assert entries[..2][..1] == entries[..1] && entries[..1][..0] == [];
    assert Weight(entries) == Weight(entries[..2]) + 2009;
    assert Weight(entries[..2]) == Weight(entries[..1]) + 2009;
    assert Weight(entries[..1]) == Weight([]) + 2009;
  }

  lemma LargePairs(t: Tree)
    requires IsLargeTree(t)
    ensures KeysFit(3, Pairs(t)) && Lookup(t.order, Pairs(t), [1]) == Some(Large())
    ensures !KeepsHalfFull(t, [1])
  {
    hide WellFormed, StaysHalf, Flat, Large, KeyFits, TwoLeaves, KeysFit;
    LargeTreeFallsShort();
    TwoLeavesFlat(4, 2, 3, FIRST_LARGE, LAST_LARGE);
    ByteKeysTwo(FIRST_LARGE, LAST_LARGE);
    var s := FIRST_LARGE + LAST_LARGE;
    assert Keys(s)[0] == [1] && Bytewise.compare([1], [1]) == 0;
    assert LowerBound(Bytewise, Keys(s), [1]) == 0;
  }

  // Deleting one key of a tree whose leaves are half full leaves a leaf that is not.
  method DeleteUnderfills(t: Tree) returns (r: Status, previous: Option<Bytes>)
    requires IsLargeTree(t)
    modifies t`pages, t`nextPage, t`free, t`retired, t`reused, t`root, t`length, t`revision, t`shape, t`height
    ensures r.Done? && previous == Some(Large())
    ensures WellFormed(t, 1) && !WellFormed(t, 2)
  {
    hide WellFormed, StaysHalf, KeysFit, HalfFull, Flat, RoomFor, Lookup, Remove, MapOf, TwoLeaves, KeepsHalfFull,
      Large;
    LargePairs(t);
    HalfFullMeans(t, 2);
    WellFormedWeaker(t, 2, 1);
    r, previous := Delete(t, [1], 1);
    HalfFullMeans(t, 1);
  }

  // ---- A panic that damages the tree ----

  // One page is left in the file: the copy of the root takes it, and the copy of the leaf
  // panics. The root is then retired and still the root.
  method PutOnLastPage() returns (t: Tree, r: Status)
    ensures fresh(t) && r.Panic? && t.shape.Some? && t.root == t.shape.value.id
    ensures forall lo :: !WellFormed(t, lo)
  {
    hide FitsInline, Sorted, KeysFit, WellFormed, Flat, Lookup, Upsert, MapOf, Large;
    LargePairsFit(1, 2);
    LargePairsFit(3, 4);
    ByteKeysTwo(FIRST_LARGE, LAST_LARGE);
    t := TwoLeafTree(Bytewise, 3, 25, Some(6), FIRST_LARGE, LAST_LARGE, 0);
    WellFormedRoot(t, 0);
    assert LastPage(t) && !Exhausted(t.State());
    var previous;
    r, previous := Put(t, [9], [], 0);
    forall lo ensures !WellFormed(t, lo) {
      if WellFormed(t, lo) {
        WellFormedWeaker(t, lo, 0);
      }
    }
  }

  lemma WellFormedRoot(t: Tree, lo: nat)
    requires WellFormed(t, lo)
    ensures t.root == RootOf(t.shape)
  {
    hide Owns, Pinned, Linked, Rep, Balanced, Fitting, Flat;
  }

  // ---- A pair that no tree can store ----

  function LongKey(): (k: Key)
    ensures |k| == 2041
  {
    seq(2041, _ => 0)
  }

  // Its cell has 2049 bytes, and a page has room for it. As this is more than half a page the
  // value is sent to a chain, which an empty value does not have.
  lemma LongKeyIsNotStorable()
    ensures LeafBytes([Entry(LongKey(), Inline([]))]) == 2069
    ensures StoresOverflow(LongKey(), []) && !Storable(LongKey(), []) && Storable(LongKey(), [0])
  {
    OneCellBytes(Entry(LongKey(), Inline([])));
  }

  // The key with an empty value is the first that is put into a new tree in memory. The page
  // that was taken for it is lost.
  method EmptyValuePanics() returns (t: Tree, r: Status)
    ensures fresh(t) && t.growLimit.None? && t.shape.None? && r.Panic?
    ensures forall lo :: !WellFormed(t, lo)
  {
    hide WellFormed, Owns, LongKey, Upsert, Lookup, MapOf, Storable;
    PersistedOrdersAreStrict();
    LongKeyIsNotStorable();
    t := new Tree(Bytewise, 2, 25, 1, None);
    EmptyWell(t, 0);
    var previous;
    r, previous := Put(t, LongKey(), [], 0);
    forall lo ensures !WellFormed(t, lo) {
      if WellFormed(t, lo) {
        WellFormedWeaker(t, lo, 0);
      }
    }
  }

  function HalfKey(b: Byte): (k: Key)
    ensures |k| == 2040
  {
    seq(2040, _ => b)
  }

  // Two cells of 2048 bytes are 20 bytes too many, and the first to go is empty.
  lemma TwoHalvesOverflow(entries: seq<LeafEntry>)
    requires |entries| == 2
    requires forall i :: 0 <= i < 2 ==> |entries[i].key| == 2040 && PlannedCell(entries[i]).cell == Inline([])
    ensures !LeafTakes(entries)
  {
    var cells := Planned(entries);
    assert cells[..1][..0] == [] && cells[..1][0] == cells[0];
    assert SumEntryBytes(cells[..1]) == SumEntryBytes(cells[..1][..0]) + 2048;
    assert SumEntryBytes(cells) == SumEntryBytes(cells[..1]) + 2048;
    forall k | 0 <= k <= 2 ensures !FitsAt(cells, k) {
      if k == 0 {
        assert SpilledUpTo(cells, 0) == cells;
      } else {
        assert SpillsBefore(cells, 0, k);
      }
    }
  }

  // A tree of one pair with an empty value is one leaf with an inline cell.
  lemma OnlyPair(t: Tree, kv: KV, lo: nat)
    requires WellFormed(t, lo) && Pairs(t) == [kv] && kv.value == []
    ensures t.shape.Some? && t.shape.value == Leaf(t.shape.value.id, [Slot(kv, [])])
  {
    hide Owns, Pinned, Linked, Current, SortedKeys, Fitting, Rep, Balanced, Flat, Ids;
    OnlyPairBelow(t.pages, t.shape.value, kv, t.height, lo, t.degree);
  }

  lemma OnlyPairBelow(pages: PageMap, n: Node, kv: KV, h: nat, lo: nat, d: nat)
    requires d >= 2 && Rep(pages, n) && RootBalanced(n, h, lo, d) && Flat(n) == [kv] && kv.value == []
    ensures n == Leaf(n.id, [Slot(kv, [])])
  {
    hide ChainRep, LeafBytes, FlatAll, BranchBytes, Separators;
    if n.Branch? {
      FirstOfAll(n.kids);
      FirstOfAll(n.kids[1..]);
      FullIsNonempty(n.kids[0], h - 1, lo, d);
      FullIsNonempty(n.kids[1], h - 1, lo, d);
      assert false;
    } else {
      assert |PairsOf(n.slots)| == |n.slots| && PairsOf(n.slots)[0] == n.slots[0].kv;
      assert SlotRep(pages, n.slots[0]);
    }
  }

  lemma SecondHalfOverflows(o: Order, id: PageId)
    ensures !Takes(o, 2, Some(Leaf(id, [Slot(KV(HalfKey(0), []), [])])), HalfKey(1), [])
    ensures Storable(HalfKey(0), []) && Storable(HalfKey(1), [])
  {
    var slots := [Slot(KV(HalfKey(0), []), [])];
    assert Keys(PairsOf(slots)) == [HalfKey(0)];
    assert HalfKey(0)[0] != HalfKey(1)[0];
    var entries := WithPair(o, slots, HalfKey(1), []);
    TwoHalvesOverflow(entries);
    assert LeafGrowth(2, entries) == Overfull;
  }

  // Two puts into a new tree in memory, of pairs that are storable: the second one panics.
  method TwoHalvesPanic() returns (t: Tree, first: Status, second: Status)
    ensures fresh(t) && t.growLimit.None? && first.Done? && second.Panic? && Pairs(t) == [KV(HalfKey(0), [])]
    ensures Storable(HalfKey(1), []) && forall lo :: !WellFormed(t, lo)
  {
    hide WellFormed, Owns, HalfKey, Upsert, Lookup, MapOf, Storable, Takes, PairsIn, KeyFits;
    PersistedOrdersAreStrict();
    t := new Tree(Bytewise, 2, 25, 1, None);
    EmptyWell(t, 0);
    SecondHalfOverflows(Bytewise, 0);
    var previous;
    first, previous := Put(t, HalfKey(0), [], 0);
    UpsertEmpty(Bytewise, HalfKey(0), []);
    OnlyPair(t, KV(HalfKey(0), []), 0);
    SecondHalfOverflows(Bytewise, t.shape.value.id);
    second, previous := Put(t, HalfKey(1), [], 0);
    forall lo ensures !WellFormed(t, lo) {
      if WellFormed(t, lo) {
        WellFormedWeaker(t, lo, 0);
      }
    }
  }

  // In a batch the put of the empty value leaves the new tree as it was.
  method EmptyValueRollsBack() returns (t: Tree, result: CommitResult)
    ensures fresh(t) && result == Refused(BatchPanicked) && WellFormed(t, 1) && Pairs(t) == []
    ensures t.State() == Store(map[], 1, [], [], None) && t.root == 0 && t.revision == 0
  {
    hide WellFormed, Owns, LongKey, Storable;
    PersistedOrdersAreStrict();
    LongKeyIsNotStorable();
    t := new Tree(Bytewise, 2, 25, 1, None);
    EmptyWell(t, 1);
    var b := new WriteBatch(t);
    b.Put(LongKey(), []);
    assert b.ops[0] == PutOp(LongKey(), []);
    result := UnstorableRollsBack(b, 1);
  }

  // In memory a batch that puts such a pair changes nothing at all, whatever else is in it.
  method UnstorableRollsBack(b: WriteBatch, ghost lo: nat) returns (result: CommitResult)
    requires WellFormed(b.tree, lo) && !b.closed && !b.tree.closed && !b.tree.readOnly && b.tree.growLimit.None?
    requires PutsUnstorable(b.ops)
    modifies b`ops, b`closed, b.tree`pages, b.tree`nextPage, b.tree`free, b.tree`retired, b.tree`reused
    modifies b.tree`root, b.tree`length, b.tree`revision, b.tree`shape, b.tree`height
    ensures result == Refused(BatchPanicked) && WellFormed(b.tree, lo)
    ensures SaveBatchTreeState(b.tree) == old(SaveBatchTreeState(b.tree)) && b.tree.shape == old(b.tree.shape)
  {
    hide WellFormed, RolledBack, Bounded, Retires, PutsUnstorable;
    result := CommitDetailed(b, lo);
  }

  // ---- A page retired at revision zero ----

  // An empty tree, an open snapshot, and a batch of two puts: the second one copies the root
  // that the first one planted, and the snapshot holds it back.
  method RetiredAtZero() returns (t: Tree)
    ensures fresh(t) && WellFormed(t, 1) && !t.closed
    ensures exists i :: 0 <= i < |t.retired| && t.retired[i].revision == 0
  {
    hide WellFormed, Owns, PairsIn;
    PersistedOrdersAreStrict();
    t := new Tree(Bytewise, 2, 25, 1, None);
    EmptyWell(t, 1);
    var s := TakeSnapshot(t, 1);
    CommitTwoPuts(t, s.ticket);
  }

  method CommitTwoPuts(t: Tree, ghost ticket: nat)
    requires WellFormed(t, 1) && t.degree == 2 && IsStrictTotalOrder(Bytewise) && t.order == Bytewise
    requires t.growLimit.None? && !t.closed && !t.readOnly && Pairs(t) == [] && t.retired == [] && t.revision == 0
    requires ticket in t.pins && t.pins[ticket].revision == 0
    modifies t`pages, t`nextPage, t`free, t`retired, t`reused, t`root, t`length, t`revision, t`shape, t`height
    ensures WellFormed(t, 1) && exists i :: 0 <= i < |t.retired| && t.retired[i].revision == 0
  {
    hide WellFormed, Apply, Results, KeysFit, PairsIn, RootCopies, Bounded, Retires, RoomFor, OpsFit, RolledBack,
      SomeChanged, PutsUnstorable;
    var b := new WriteBatch(t);
    b.Put([1], []);
    b.Put([2], []);
    assert b.ops == TWO_PUTS;
    ghost var before := SaveBatchTreeState(t);
    TwoPuts();
    var result := CommitDetailed(b, 1);
    assert result.Committed? by {
      if result.Refused? {
        OneOfFive(result.error);
      }
    }
    HeldAtZero(t, before, ticket, RootCopies(Bytewise, [], TWO_PUTS), 1);
  }

  lemma OneOfFive(e: CommitError)
    ensures e in {BatchClosed, TreeClosed, ReadOnly, BatchPanicked, TxConflict}
  {
  }

  const TWO_PUTS := [PutOp([1], []), PutOp([2], [])]

  lemma TwoPuts()
    requires IsStrictTotalOrder(Bytewise)
    ensures RoomFor(1, 2, []) && OpsFit(2, 1, TWO_PUTS) && Bounded(2, [], TWO_PUTS)
    ensures RootCopies(Bytewise, [], TWO_PUTS) >= 1 && SomeChanged(Results(Bytewise, [], TWO_PUTS))
  {
    hide LowerBound;
    assert TWO_PUTS[..1] == [PutOp([1], [])] && [PutOp([1], [])][..0] == [];
    assert Apply(Bytewise, [], TWO_PUTS[..1]) == ApplyOp(Bytewise, [], PutOp([1], []));
    UpsertEmpty(Bytewise, [1], []);
    assert Results(Bytewise, [], TWO_PUTS)[1].changed;
  }

  // What was retired at revision zero stays retired as long as a snapshot at zero is open.
  lemma HeldAtZero(t: Tree, before: BatchTreeState, ticket: nat, copies: nat, lo: nat)
    requires WellFormed(t, lo) && ticket in t.pins && t.pins[ticket].revision == 0
    requires before.revision == 0 && before.store.retired == [] && Retires(before, copies, t) && copies >= 1
    ensures exists i :: 0 <= i < |t.retired| && t.retired[i].revision == 0
  {
    hide Owns, Spells, PinOk, Linked, Current, KeptPages;
    var staged :| RetiredBy(before, staged, copies, t);
    assert HeldBack(t.readers, t.scan, 0);
    KeptIffHeldBack(t.readers, t.scan, staged, staged[0]);
    var i :| 0 <= i < |t.retired| && t.retired[i] == staged[0];
  }

  // ---- Trees that a sync writes and recovery refuses ----

  const SMALL_ONE := [KV([1], [])]
  const SMALL_TWO := [KV([2], [])]

  lemma SmallFits(s: seq<KV>)
    requires |s| <= 2 && forall i :: 0 <= i < |s| ==> |s[i].key| == 1 && s[i].value == []
    ensures FitsInline(s)
  {
    hide CellRoom;
    var entries := EntriesOf(InlineSlots(s));
    forall i | 0 <= i < |entries| ensures EntryBytes(entries[i]) <= CellRoom(3) {
      RoomOfThree();
    }
    RoomyFits(3, entries);
  }

  lemma RoomOfThree()
    ensures CellRoom(3) == 815
  {
  }

  // A leaf below d-1 keys, as a deletion can leave it. Nothing else is wrong with the tree.
  method UnderfullIsRefused(crc: SlottedPages.Checksum) returns (t: Tree, saved: bool, ok: bool, h: MappedTree)
    ensures fresh(t) && WellFormed(t, 1) && Linked(t.pages, LeavesIn(t.shape)) && saved
            && !(ok && h.revision == t.revision)
  {
    hide FitsInline, Sorted, KeysFit, WellFormed, Flat, Spells, TwoLeaves, Owns, Linked, LeavesIn, LiveIds, Balanced;
    SmallFits(SMALL_ONE);
    SmallFits([KV([2], []), KV([3], [])]);
    ByteKeysTwo(SMALL_ONE, [KV([2], []), KV([3], [])]);
    t := TwoLeafTree(Bytewise, 3, 25, Some(10), SMALL_ONE, [KV([2], []), KV([3], [])], 1);
    TwoLeavesBalanced(4, 2, 3, SMALL_ONE, [KV([2], []), KV([3], [])], 2, 3);
    WellFormedLinks(t, 1);
    assert Syncable(t, BytewiseOrder, 1);
    var r;
    saved, r, ok, h := SyncAndReopen(t, BytewiseOrder, map[], 8, Blank, None, crc, 2, 1);
  }

  lemma WellFormedLinks(t: Tree, lo: nat)
    requires WellFormed(t, lo) && !t.closed && t.readers == map[]
    ensures Linked(t.pages, LeavesIn(t.shape))
  {
    hide Staged, Linked, LeavesIn;
  }

  // A snapshot of leaves 2 and 3 under root 4 is open, and the second key was put again: leaf
  // 6 under root 5 has its new value. Leaf 2 is in both trees and still links to leaf 3, as
  // links are left alone while somebody reads.
  const NEW_TWO := [KV([2], [7])]

  function StalePages(): PageMap {
    map[2 := LeafOf(SMALL_ONE, 3), 3 := LeafOf(SMALL_TWO, 0), 4 := BranchPage([[2]], [2, 3]),
        5 := BranchPage([[2]], [2, 6]), 6 := LeafOf(NEW_TWO, 0)]
  }

  const STALE_RETIRED := [RetiredPage(4, 1), RetiredPage(3, 1)]

  function StaleStore(limit: Option<PageId>): Store {
    Store(StalePages(), 7, [], STALE_RETIRED, limit)
  }

  ghost function StalePin(): Pin {
    Pin(1, Some(TwoLeaves(4, 2, 3, SMALL_ONE, SMALL_TWO)), 1, StalePages())
  }

  lemma StalePagesHold()
    ensures HoldsTwo(StalePages(), 4, 2, 3, SMALL_ONE, SMALL_TWO) && HoldsTwo(StalePages(), 5, 2, 6, SMALL_ONE, NEW_TWO)
    ensures !Linked(StalePages(), [2, 6]) && forall x :: x in StalePages() ==> x < 7
  {
    hide EntriesOf, InlineSlots;
    assert [2, 6][0] == 2 && NextOf([2, 6], 0) == 6;
  }

  lemma StaleOwned(limit: Option<PageId>)
    ensures Owns(FIRST_TREE_PAGE, StaleStore(limit), multiset{5, 2, 6})
  {
    hide EntriesOf, InlineSlots, Upto, StalePages;
    StalePagesHold();
    assert RetiredIds(STALE_RETIRED) == [4, 3];
    assert multiset([]) + multiset([4, 3]) + multiset{5, 2, 6} == Upto(2, 7);
  }

  lemma StaleSpells()
    requires IsStrictTotalOrder(Bytewise)
    ensures Spells(Bytewise, 2, StalePages(), 4, Some(TwoLeaves(4, 2, 3, SMALL_ONE, SMALL_TWO)), 1, 0)
    ensures Spells(Bytewise, 2, StalePages(), 5, Some(TwoLeaves(5, 2, 6, SMALL_ONE, NEW_TWO)), 1, 1)
  {
    hide FitsInline, Sorted, KeysFit, HoldsTwo, Spells, StalePages, TwoLeaves;
    SmallFits(SMALL_ONE);
    SmallFits(SMALL_TWO);
    OneByteFits();
    StalePagesHold();
    ByteKeysTwo(SMALL_ONE, SMALL_TWO);
    ByteKeysTwo(SMALL_ONE, NEW_TWO);
    TwoLeavesSpell(Bytewise, 2, StalePages(), 4, 2, 3, SMALL_ONE, SMALL_TWO, 0);
    TwoLeavesSpell(Bytewise, 2, StalePages(), 5, 2, 6, SMALL_ONE, NEW_TWO, 1);
  }

  lemma OneByteFits()
    ensures FitsInline(NEW_TWO)
  {
    var entries := EntriesOf(InlineSlots(NEW_TWO));
    assert entries[..0] == [];
  }

  lemma StaleHeld(limit: Option<PageId>)
    ensures Held(StaleStore(limit), StalePin())
  {
    hide TwoLeaves, Ids, StalePages;
    TwoLeavesFlat(4, 2, 3, SMALL_ONE, SMALL_TWO);
  }

  lemma StaleCounted()
    ensures Counted(map[1 := 1], map[0 := StalePin()])
  {
    hide TwoLeaves, StalePages;
    assert Tickets(map[0 := StalePin()], 1) == {0};
  }

  lemma StalePinned(limit: Option<PageId>)
    requires IsStrictTotalOrder(Bytewise)
    ensures Pinned(Bytewise, 2, StaleStore(limit), 2, map[1 := 1], map[0 := StalePin()])
  {
    hide Spells, TwoLeaves, StalePages, StaleStore, Held, Counted;
    StaleSpells();
    StaleHeld(limit);
    StaleCounted();
    TwoLeavesRoot();
  }

  lemma TwoLeavesRoot()
    ensures TwoLeaves(4, 2, 3, SMALL_ONE, SMALL_TWO).id == 4 && TwoLeaves(5, 2, 6, SMALL_ONE, NEW_TWO).id == 5
  {
  }

  method FillStale(t: Tree)
    modifies t`pages, t`nextPage, t`free, t`retired, t`root, t`length, t`revision, t`shape, t`height
    ensures t.State() == StaleStore(t.growLimit) && t.root == 5 && t.length == 2 && t.revision == 2
    ensures t.shape == Some(TwoLeaves(5, 2, 6, SMALL_ONE, NEW_TWO)) && t.height == 1
  {
    hide TwoLeaves, StalePages, StalePin;
    t.pages, t.nextPage, t.free, t.retired := StalePages(), 7, [], STALE_RETIRED;
    t.root, t.length, t.revision := 5, 2, 2;
    t.shape, t.height := Some(TwoLeaves(5, 2, 6, SMALL_ONE, NEW_TWO)), 1;
  }

  method OpenStale(t: Tree)
    modifies t`readers, t`pins, t`tickets
    ensures t.readers == map[1 := 1] && t.pins == map[0 := StalePin()] && t.tickets == 1
  {
    hide StalePin;
    t.readers, t.pins, t.tickets := map[1 := 1], map[0 := StalePin()], 1;
  }

  lemma StaleWell(t: Tree)
    requires IsStrictTotalOrder(Bytewise) && t.order == Bytewise && t.degree == 2 && t.first == FIRST_TREE_PAGE
    requires t.State() == StaleStore(t.growLimit) && t.root == 5 && t.length == 2 && t.revision == 2
             && t.readers == map[1 := 1]
    requires t.pins == map[0 := StalePin()] && t.tickets == 1 && !t.closed && !t.readOnly
    requires t.shape == Some(TwoLeaves(5, 2, 6, SMALL_ONE, NEW_TWO)) && t.height == 1 && t.listPages == multiset{}
    ensures WellFormed(t, 1) && HalfFilled(2, t.shape, 1) && !Linked(t.pages, LeavesIn(t.shape))
  {
    hide TwoLeaves, StalePages, Spells, Pinned, Owns, Flat, Ids, LeafIds, Balanced, Linked;
    StalePagesHold();
    StaleOwned(t.growLimit);
    StaleSpells();
    StaleCurrent(t.shape);
    assert 1 in t.readers;
    StalePinned(t.growLimit);
    TwoLeavesFlat(5, 2, 6, SMALL_ONE, NEW_TWO);
    assert t.listPages + LiveIds(t.shape) == LiveIds(t.shape);
    TwoLeavesBalanced(5, 2, 6, SMALL_ONE, NEW_TWO, 1, 2);
  }

  lemma StaleCurrent(shape: Option<Node>)
    ensures Current(2, map[0 := StalePin()], shape)
  {
    hide TwoLeaves, StalePages, PairsIn;
  }

  // The leaves are as full as can be asked, but a link is stale.
  method StaleLinksAreRefused(crc: SlottedPages.Checksum) returns (t: Tree, saved: bool, ok: bool, h: MappedTree)
    ensures fresh(t) && WellFormed(t, 1) && HalfFilled(t.degree, t.shape, t.height) && saved
            && !(ok && h.revision == t.revision)
  {
    hide WellFormed, Flat, Spells, TwoLeaves, StalePages, StalePin, Owns, Linked, LeavesIn, LiveIds, Balanced;
    PersistedOrdersAreStrict();
    t := new Tree(Bytewise, 2, 25, FIRST_TREE_PAGE, Some(10));
    FillStale(t);
    OpenStale(t);
    StaleWell(t);
    assert Syncable(t, BytewiseOrder, 1);
    var r;
    saved, r, ok, h := SyncAndReopen(t, BytewiseOrder, map[], 8, Blank, None, crc, 2, 1);
  }
}
