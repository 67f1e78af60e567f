// What holds of a tree object between calls, and of the snapshots open on it
// (pagebtree/tree.go, pagebtree/freelist.go, pagebtree/snapshot.go).

module Invariants {
  import opened KeyOrder
  import opened Contents
  import opened Pages
  import opened Nodes
  import opened Trees
  import opened LeafLinks
  import opened Search
  import opened Freelist

  ghost function LiveIds(shape: Option<Node>): multiset<PageId> {
    if shape.Some? then Ids(shape.value) else multiset{}
  }

  ghost function PairsIn(shape: Option<Node>): seq<KV> {
    if shape.Some? then Flat(shape.value) else []
  }

  ghost function LeavesIn(shape: Option<Node>): seq<PageId> {
    if shape.Some? then LeafIds(shape.value) else []
  }

  ghost function RootOf(shape: Option<Node>): PageId {
    if shape.Some? then shape.value.id else 0
  }

  // The pages below `root` spell out a B+tree: separators, order, depth, fill.
  ghost predicate Spells(o: Order, d: nat, pages: PageMap, root: PageId, shape: Option<Node>, h: nat, lo: nat) {
    && d >= 2
    && root == RootOf(shape)
    && (shape.Some? ==>
          && Rep(pages, shape.value) && 0 !in Ids(shape.value)
          && RootBalanced(shape.value, h, lo, d)
          && Sorted(o, Flat(shape.value)) && Fitting(lo, d, Flat(shape.value)))
  }

  // What a tree spells out can be read.
  lemma SpellsReadable(o: Order, d: nat, pages: PageMap, root: PageId, shape: Option<Node>, h: nat, lo: nat)
    requires Spells(o, d, pages, root, shape, h, lo)
    ensures root == RootOf(shape) && (shape.Some? ==> root != 0 && Readable(o, pages, shape.value))
  {
    hide Rep, SortedKeys, Fitting, Flat, Balanced, Solid, Models;
    if shape.Some? {
      IdsBelow(shape.value);
      RepModels(pages, shape.value);
      BalancedIsSolid(shape.value, h, lo, d);
    }
  }

  // ---- Open snapshots ----

  // Page `x` was not retired before `revision`.
  ghost predicate RetiredSince(rs: seq<RetiredPage>, x: PageId, revision: nat) {
    forall i :: 0 <= i < |rs| && rs[i].id == x ==> revision <= rs[i].revision
  }

  // No page of the snapshot's tree has changed, can be handed out, or can be reclaimed
  // while a reader at the snapshot's revision is registered.
  ghost predicate Held(s: Store, p: Pin) {
    forall x :: x in LiveIds(p.shape) ==>
      && !Available(s, x)
      && RetiredSince(s.retired, x, p.revision)
      && (x in p.captured ==> x in s.pages && s.pages[x] == p.captured[x])
  }

  ghost predicate PinOk(o: Order, d: nat, s: Store, revision: nat, p: Pin) {
    && p.revision <= revision
    && Held(s, p)
    && Spells(o, d, p.captured, RootOf(p.shape), p.shape, p.height, 0)
  }

  ghost function Tickets(pins: map<nat, Pin>, revision: nat): set<nat> {
    set k | k in pins && pins[k].revision == revision
  }

  // The reader counts are the numbers of open snapshots per revision.
  ghost predicate Counted(readers: map<nat, nat>, pins: map<nat, Pin>) {
    && (forall k :: k in pins ==> pins[k].revision in readers)
    && (forall r :: r in readers ==> readers[r] == |Tickets(pins, r)| > 0)
  }

  ghost predicate Pinned(o: Order, d: nat, s: Store, revision: nat, readers: map<nat, nat>, pins: map<nat, Pin>) {
    && (forall k :: k in pins ==> PinOk(o, d, s, revision, pins[k]))
    && Counted(readers, pins)
  }

  // ---- The tree ----

  // No page was retired later than now.
  ghost predicate RetiredUpTo(rs: seq<RetiredPage>, revision: nat) {
    forall i :: 0 <= i < |rs| ==> rs[i].revision <= revision
  }

  lemma ReclaimRetiresUpTo(s: Store, readers: map<nat, nat>, scan: TableScan, revision: nat)
    requires RetiredUpTo(s.retired, revision)
    ensures RetiredUpTo(Reclaimed(s, readers, scan).retired, revision)
  {
    KeptAreRetired(readers, scan, s.retired);
  }

  lemma FrameRetiresUpTo(s: Store, t: Store, revision: nat)
    requires RetiredUpTo(s.retired, revision) && Frame(s, t, {}, revision)
    ensures RetiredUpTo(t.retired, revision)
  {
  }

  // What holds between the staged operations of a batch.
  ghost predicate Staged(t: Tree, lo: nat)
    reads t
  {
    && t.degree >= 2 && lo < t.degree
    && Owns(t.first, t.State(), t.listPages + LiveIds(t.shape))
    && Spells(t.order, t.degree, t.pages, t.root, t.shape, t.height, lo)
    && t.length == |PairsIn(t.shape)|
    && Pinned(t.order, t.degree, t.State(), t.revision, t.readers, t.pins)
    && (forall k :: k in t.pins ==> k < t.tickets)
    && RetiredUpTo(t.retired, t.revision)
  }

  // A snapshot at the current revision shows what the tree holds now.
  ghost predicate Current(revision: nat, pins: map<nat, Pin>, shape: Option<Node>) {
    forall k :: k in pins && pins[k].revision == revision ==> PairsIn(pins[k].shape) == PairsIn(shape)
  }

  // What holds between calls: in addition revisions identify contents, and the leaf links
  // are right unless readers are open.
  ghost predicate WellFormed(t: Tree, lo: nat): (well: bool)
    reads t
    ensures well ==> t.degree >= 2 && lo < t.degree
  {
    && Staged(t, lo)
    && Current(t.revision, t.pins, t.shape)
    && (!t.closed && (t.readers == map[] || t.readOnly) ==> Linked(t.pages, LeavesIn(t.shape)))
  }

  ghost function Pairs(t: Tree): seq<KV>
    reads t
  {
    PairsIn(t.shape)
  }

  // A tree without pages.
  lemma EmptyWell(t: Tree, lo: nat)
    requires t.degree >= 2 && lo < t.degree && t.root == 0 && t.length == 0 && t.readers == map[]
    requires t.shape == None && t.pins == map[] && t.retired == [] && Owns(t.first, t.State(), t.listPages)
    ensures WellFormed(t, lo) && Pairs(t) == []
  {
    hide Owns;
    assert t.listPages + LiveIds(None) == t.listPages;
  }

  // ---- The least fill required of leaves can be lowered ----

  lemma {:induction false} FullWeaker(n: Node, h: nat, lo: nat, lo': nat, d: nat)
    requires Full(n, h, lo, d) && lo' <= lo && d >= 1
    ensures Full(n, h, lo', d)
    decreases n
  {
    if n.Branch? {
      forall i | 0 <= i < |n.kids| ensures Full(n.kids[i], h - 1, lo', d) {
        FullWeaker(n.kids[i], h - 1, lo, lo', d);
      }
    }
  }

  lemma BalancedWeaker(n: Node, h: nat, lo: nat, lo': nat, d: nat)
    requires Balanced(n, h, lo, d) && lo' <= lo && d >= 1
    ensures Balanced(n, h, lo', d)
  {
    if n.Branch? {
      forall i | 0 <= i < |n.kids| ensures Full(n.kids[i], h - 1, lo', d) {
        FullWeaker(n.kids[i], h - 1, lo, lo', d);
      }
    }
  }

  lemma SpellsWeaker(o: Order, d: nat, pages: PageMap, root: PageId, shape: Option<Node>, h: nat, lo: nat, lo': nat)
    requires Spells(o, d, pages, root, shape, h, lo) && lo' <= lo
    ensures Spells(o, d, pages, root, shape, h, lo')
  {
    hide Rep, Ids, SortedKeys, KeysFit, Flat, Balanced;
    if shape.Some? {
      BalancedWeaker(shape.value, h, lo, lo', d);
    }
  }

  // A well-formed tree is one with any lower least fill too.
  lemma WellFormedWeaker(t: Tree, lo: nat, lo': nat)
    requires WellFormed(t, lo) && lo' <= lo
    ensures WellFormed(t, lo')
  {
    hide Owns, Spells, Pinned, Linked;
    SpellsWeaker(t.order, t.degree, t.pages, t.root, t.shape, t.height, lo, lo');
  }

  // Whatever a tree stores is storable: its cell is on a page, inline or with a reference.
  lemma {:induction false} StoredPairs(pages: PageMap, n: Node)
    requires Rep(pages, n)
    ensures AllStorable(Flat(n))
    decreases n, 1
  {
    hide SlotRep, FlatAll, SumEntryBytes, Separators, RootIds, Storable;
    match n
    case Leaf(_, slots) =>
      forall i | 0 <= i < |slots| ensures Storable(slots[i].kv.key, slots[i].kv.value) {
        CellWithin(EntriesOf(slots), i);
        assert SlotRep(pages, slots[i]);
        StoredSlot(pages, slots[i]);
      }
    case Branch(_, kids) =>
      StoredPairsOfAll(pages, kids);
  }

  lemma StoredSlot(pages: PageMap, s: Slot)
    requires SlotRep(pages, s) && PAGE_HEADER_SIZE + EntryBytes(EntryOf(s)) <= PAGE_SIZE
    ensures Storable(s.kv.key, s.kv.value)
  {
    hide ChainRep;
  }

  lemma {:induction false} StoredPairsOfAll(pages: PageMap, kids: seq<Node>)
    requires forall i :: 0 <= i < |kids| ==> Rep(pages, kids[i])
    ensures AllStorable(FlatAll(kids))
    decreases kids, 0
  {
    hide Rep, Flat, Storable;
    if kids != [] {
      StoredPairs(pages, kids[0]);
      StoredPairsOfAll(pages, kids[1..]);
    }
  }

  lemma StagedPairs(t: Tree, lo: nat)
    requires Staged(t, lo)
    ensures AllStorable(Pairs(t))
  {
    hide Owns, Pinned, Rep, Balanced, Fitting, Flat, Ids, SortedKeys, Storable;
    if t.shape.Some? {
      StoredPairs(t.pages, t.shape.value);
    }
  }

  // The pages of a live tree in another page map.
  lemma SpellsSame(o: Order, d: nat, p: PageMap, q: PageMap, root: PageId, shape: Option<Node>, h: nat, lo: nat)
    requires Spells(o, d, p, root, shape, h, lo) && SameData(p, q, LiveIds(shape))
    ensures Spells(o, d, q, root, shape, h, lo)
  {
    hide Rep, Ids, SortedKeys, KeysFit, Flat, Balanced, SameData;
    if shape.Some? {
      RepSame(p, q, shape.value);
    }
  }

  // ---- Safety of recycling: what a staged step and a reclaim keep for open snapshots ----

  lemma HeldIsReadable(o: Order, d: nat, s: Store, revision: nat, p: Pin)
    requires PinOk(o, d, s, revision, p)
    ensures Spells(o, d, s.pages, RootOf(p.shape), p.shape, p.height, 0)
  {
    hide Spells, LiveIds, Available, RetiredSince;
    assert SameData(p.captured, s.pages, LiveIds(p.shape));
    SpellsSame(o, d, p.captured, s.pages, RootOf(p.shape), p.shape, p.height, 0);
  }

  // A staged mutation takes, rewrites and retires nothing a snapshot can still reach.
  lemma FrameKeepsPin(o: Order, d: nat, s: Store, t: Store, revision: nat, p: Pin)
    requires PinOk(o, d, s, revision, p) && Frame(s, t, {}, revision)
    ensures PinOk(o, d, t, revision, p)
  {
    hide Spells, LiveIds;
    forall x | x in LiveIds(p.shape)
      ensures !Available(t, x) && RetiredSince(t.retired, x, p.revision)
      ensures x in p.captured ==> x in t.pages && t.pages[x] == p.captured[x]
    {
      assert !Available(s, x);
    }
  }

  lemma FrameKeepsPins(o: Order, d: nat, s: Store, t: Store, revision: nat, readers: map<nat, nat>, pins: map<nat, Pin>)
    requires Pinned(o, d, s, revision, readers, pins) && Frame(s, t, {}, revision)
    ensures Pinned(o, d, t, revision, readers, pins)
  {
    hide PinOk, Frame, Counted;
    forall k | k in pins ensures PinOk(o, d, t, revision, pins[k]) {
      FrameKeepsPin(o, d, s, t, revision, pins[k]);
    }
  }

  // The store after a reclaim.
  ghost function Reclaimed(s: Store, readers: map<nat, nat>, scan: TableScan): Store {
    s.(free := s.free + ReleasedIds(readers, scan, s.retired), retired := KeptPages(readers, scan, s.retired))
  }

  lemma {:induction false} ReleasedWasFreeable(readers: map<nat, nat>, scan: TableScan, rs: seq<RetiredPage>, x: PageId)
    requires x in ReleasedIds(readers, scan, rs)
    ensures exists i :: 0 <= i < |rs| && rs[i].id == x && !HeldBack(readers, scan, rs[i].revision)
  {
    hide HeldBack;
    var front, last := rs[..|rs| - 1], rs[|rs| - 1];
    if x in ReleasedIds(readers, scan, front) {
      ReleasedWasFreeable(readers, scan, front, x);
      var i :| 0 <= i < |front| && front[i].id == x && !HeldBack(readers, scan, front[i].revision);
      assert rs[i] == front[i];
    }
  }

  // Reclaiming frees no page that a registered reader can still reach.
  lemma ReclaimKeepsPin(o: Order, d: nat, s: Store, revision: nat, readers: map<nat, nat>, scan: TableScan, p: Pin)
    requires PinOk(o, d, s, revision, p) && p.revision in readers
    ensures PinOk(o, d, Reclaimed(s, readers, scan), revision, p)
  {
    hide Spells, LiveIds, HeldBack, KeptPages, ReleasedIds;
    var t := Reclaimed(s, readers, scan);
    forall x | x in LiveIds(p.shape) ensures !Available(t, x) && RetiredSince(t.retired, x, p.revision) {
      if x in ReleasedIds(readers, scan, s.retired) {
        ReleasedWasFreeable(readers, scan, s.retired, x);
        ReaderHoldsBack(readers, scan, s.retired, x, p.revision);
      }
      forall i | 0 <= i < |t.retired| && t.retired[i].id == x ensures p.revision <= t.retired[i].revision {
        KeptIffHeldBack(readers, scan, s.retired, t.retired[i]);
      }
    }
  }

  lemma ReaderHoldsBack(readers: map<nat, nat>, scan: TableScan, rs: seq<RetiredPage>, x: PageId, revision: nat)
    requires revision in readers && RetiredSince(rs, x, revision)
    ensures !exists i :: 0 <= i < |rs| && rs[i].id == x && !HeldBack(readers, scan, rs[i].revision)
  {
  }

  lemma ReclaimKeepsPins(o: Order, d: nat, s: Store, revision: nat, readers: map<nat, nat>, scan: TableScan,
          pins: map<nat, Pin>)
    requires Pinned(o, d, s, revision, readers, pins)
    ensures Pinned(o, d, Reclaimed(s, readers, scan), revision, readers, pins)
  {
    hide PinOk, Reclaimed;
    forall k | k in pins ensures PinOk(o, d, Reclaimed(s, readers, scan), revision, pins[k]) {
      ReclaimKeepsPin(o, d, s, revision, readers, scan, pins[k]);
    }
  }
}
