// Snapshots and the reads they serve (pagebtree/snapshot.go, pagebtree/tree.go,
// pagebtree/freelist.go).

module Snapshots {
  import opened KeyOrder
  import opened Contents
  import opened Pages
  import opened Nodes
  import opened Trees
  import opened LeafLinks
  import opened Freelist
  import opened Ranges
  import opened Search
  import opened LinkedScans
  import opened Invariants
  import opened Updates

  class Snapshot {
    const tree: Tree?
    const root: PageId
    const length: nat
    const revision: nat
    var closed: bool

    ghost const ticket: nat

    constructor (tree: Tree?, root: PageId, length: nat, revision: nat, closed: bool, ghost ticket: nat)
      ensures this.tree == tree && this.root == root && this.length == length && this.revision == revision
      ensures this.closed == closed && this.ticket == ticket
    {
      this.tree, this.root, this.length, this.revision := tree, root, length, revision;
      this.closed, this.ticket := closed, ticket;
    }

    // An open snapshot is one of the pins of its tree.
    ghost predicate Registered()
      reads this, tree
    {
      !closed ==>
        && tree != null
        && ticket in tree.pins
        && tree.pins[ticket].revision == revision
        && root == RootOf(tree.pins[ticket].shape)
        && length == |PairsIn(tree.pins[ticket].shape)|
    }

    // What the snapshot shows: the pairs of the tree when it was opened.
    ghost function View(): seq<KV>
      requires Registered()
      reads this, tree
    {
      if closed then [] else PairsIn(tree.pins[ticket].shape)
    }
  }

  // ---- Opening and closing ----

  method BeginRead(t: Tree, revision: nat)
    modifies t`readers
    ensures t.readers == old(t.readers)[revision := (if revision in old(t.readers) then old(t.readers)[revision] else 0)
                                        + 1]
  {
    var count := if revision in t.readers then t.readers[revision] else 0;
    t.readers := t.readers[revision := count + 1];
  }

  method EndRead(t: Tree, revision: nat)
    modifies t`readers, t`free, t`retired
    ensures t.readers == WithoutOne(old(t.readers), revision)
    ensures t.State() == Reclaimed(old(t.State()), t.readers, t.scan)
    ensures forall r :: r in old(t.retired) ==>
              if t.scan.ScanFailed? || (exists v :: v in t.readers && v <= r.revision)
                 || (t.scan.Oldest? && t.scan.revision <= r.revision)
              then r in t.retired else r !in t.retired && r.id in t.free
  {
    hide KeptPages, ReleasedIds;
    var count := if revision in t.readers then t.readers[revision] else 0;
    if count <= 1 {
      t.readers := t.readers - {revision};
    } else {
      t.readers := t.readers[revision := count - 1];
    }
    ReclaimRetiredPages(t);
  }

  ghost function WithoutOne(readers: map<nat, nat>, revision: nat): map<nat, nat> {
    if revision !in readers || readers[revision] <= 1 then readers - {revision}
      else readers[revision := readers[revision] - 1]
  }

  lemma TicketAdded(pins: map<nat, Pin>, k: nat, p: Pin, r: nat)
    requires k !in pins
    ensures Tickets(pins[k := p], r) == if r == p.revision then Tickets(pins, r) + {k} else Tickets(pins, r)
    ensures |Tickets(pins[k := p], r)| == |Tickets(pins, r)| + if r == p.revision then 1 else 0
  {
    assert Tickets(pins[k := p], r) == if r == p.revision then Tickets(pins, r) + {k} else Tickets(pins, r);
  }

  lemma CountedAfterOpen(readers: map<nat, nat>, pins: map<nat, Pin>, k: nat, p: Pin)
    requires Counted(readers, pins) && k !in pins
    ensures Counted(readers[p.revision := (if p.revision in readers then readers[p.revision] else 0) + 1], pins[k := p])
  {
    hide Tickets;
    var readers' := readers[p.revision := (if p.revision in readers then readers[p.revision] else 0) + 1];
    forall r | r in readers' ensures readers'[r] == |Tickets(pins[k := p], r)| > 0 {
      TicketAdded(pins, k, p, r);
      if p.revision !in readers {
        NoTickets(readers, pins, p.revision);
      }
    }
  }

  lemma NoTickets(readers: map<nat, nat>, pins: map<nat, Pin>, r: nat)
    requires Counted(readers, pins) && r !in readers
    ensures Tickets(pins, r) == {}
  {
  }

  lemma CountedAfterClose(readers: map<nat, nat>, pins: map<nat, Pin>, k: nat)
    requires Counted(readers, pins) && k in pins
    ensures Counted(WithoutOne(readers, pins[k].revision), pins - {k})
  {
    hide Tickets;
    var rest, p := pins - {k}, pins[k];
    assert rest[k := p] == pins;
    forall r: nat ensures |Tickets(pins, r)| == |Tickets(rest, r)| + if r == p.revision then 1 else 0 {
      TicketAdded(rest, k, p, r);
    }
    forall j | j in rest ensures rest[j].revision in WithoutOne(readers, p.revision) {
      InTickets(rest, j);
    }
  }

  lemma InTickets(pins: map<nat, Pin>, k: nat)
    requires k in pins
    ensures k in Tickets(pins, pins[k].revision) && |Tickets(pins, pins[k].revision)| > 0
  {
  }

  // A new snapshot holds on to the tree as it is.
  lemma NewPinOk(t: Tree, lo: nat, p: Pin)
    requires Staged(t, lo) && p == Pin(t.revision, t.shape, t.height, t.pages)
    ensures PinOk(t.order, t.degree, t.State(), t.revision, p)
  {
    hide Owns, Spells, Pinned, Available, Ids;
    SpellsWeaker(t.order, t.degree, t.pages, t.root, t.shape, t.height, lo, 0);
    SpellsRoot(t.order, t.degree, t.pages, t.root, t.shape, t.height, lo);
    forall x | x in LiveIds(p.shape) ensures !Available(t.State(), x) && RetiredSince(t.retired, x, p.revision) {
      LiveIsNotAvailable(t.first, t.State(), t.listPages + LiveIds(t.shape), x);
      NotRetired(t.retired, x, p.revision);
    }
  }

  lemma NotRetired(rs: seq<RetiredPage>, x: PageId, revision: nat)
    requires x !in RetiredIds(rs)
    ensures RetiredSince(rs, x, revision)
  {
    forall i | 0 <= i < |rs| ensures rs[i].id in RetiredIds(rs) {
      assert RetiredIds(rs)[i] == rs[i].id;
    }
  }

  lemma SpellsRoot(o: Order, d: nat, pages: PageMap, root: PageId, shape: Option<Node>, h: nat, lo: nat)
    requires Spells(o, d, pages, root, shape, h, lo)
    ensures root == RootOf(shape)
  {
  }

  lemma PinnedAfterOpen(o: Order, d: nat, s: Store, revision: nat, readers: map<nat, nat>, pins: map<nat, Pin>, k: nat,
          p: Pin)
    requires Pinned(o, d, s, revision, readers, pins) && k !in pins && PinOk(o, d, s, revision, p)
    ensures Pinned(o, d, s, revision,
              readers[p.revision := (if p.revision in readers then readers[p.revision] else 0) + 1], pins[k := p])
  {
    hide PinOk, Counted;
    CountedAfterOpen(readers, pins, k, p);
  }

  lemma PinnedAfterClose(o: Order, d: nat, s: Store, revision: nat, readers: map<nat, nat>, pins: map<nat, Pin>, k: nat)
    requires Pinned(o, d, s, revision, readers, pins) && k in pins
    ensures Pinned(o, d, s, revision, WithoutOne(readers, pins[k].revision), pins - {k})
  {
    hide PinOk, Counted;
    CountedAfterClose(readers, pins, k);
  }

  // Tree.Snapshot
  method TakeSnapshot(t: Tree, ghost lo: nat) returns (s: Snapshot)
    requires WellFormed(t, lo)
    modifies t`readers, t`pins, t`tickets
    ensures fresh(s) && s.Registered() && s.closed == t.closed
            && (!s.closed ==> s.tree == t && s.ticket !in old(t.pins))
    ensures WellFormed(t, lo)
    ensures !t.closed ==>
              s.revision == t.revision && s.View() == Pairs(t) && t.pins.Keys == old(t.pins).Keys + {s.ticket}
    ensures t.closed ==> t.pins == old(t.pins)
    ensures forall k :: k in old(t.pins) ==> k in t.pins && t.pins[k] == old(t.pins)[k]
  {
    hide Owns, Spells, Pinned, Linked, WellFormed, Staged, PairsIn;
    if t.closed {
      s := new Snapshot(null, 0, 0, 0, true, 0);
      return;
    }
    WellFormedMeans(t, lo);
    ghost var k := Register(t, lo);
    s := new Snapshot(t, t.root, t.length, t.revision, false, k);
  }

  lemma WellFormedMeans(t: Tree, lo: nat)
    requires WellFormed(t, lo)
    ensures t.root == RootOf(t.shape) && t.length == |PairsIn(t.shape)| && (forall k :: k in t.pins ==> k < t.tickets)
  {
    hide Owns, Pinned, Linked, Rep, Balanced, KeysFit, Flat;
  }

  // Count a reader at the current revision.
  method Register(t: Tree, ghost lo: nat) returns (ghost k: nat)
    requires WellFormed(t, lo)
    modifies t`readers, t`pins, t`tickets
    ensures k == old(t.tickets) && t.tickets == k + 1
    ensures t.pins == old(t.pins)[k := Pin(t.revision, t.shape, t.height, t.pages)]
    ensures WellFormed(t, lo)
  {
    hide Owns, Spells, Pinned, Linked, LiveIds, PairsIn, LeavesIn;
    k := t.tickets;
    ghost var p := Pin(t.revision, t.shape, t.height, t.pages);
    NewPinOk(t, lo, p);
    PinnedAfterOpen(t.order, t.degree, t.State(), t.revision, t.readers, t.pins, k, p);
    BeginRead(t, t.revision);
    t.pins, t.tickets := t.pins[k := p], k + 1;
  }

  // Snapshot.Close
  method CloseSnapshot(s: Snapshot, ghost lo: nat)
    requires s.Registered() && (!s.closed ==> WellFormed(s.tree, lo))
    modifies s`closed, if s.closed then {} else {s.tree}
    ensures s.closed
    ensures old(s.closed) ==>
              s.tree == null || (s.tree.pins == old(s.tree.pins) && s.tree.State() == old(s.tree.State()))
    ensures !old(s.closed) ==>
              && WellFormed(s.tree, lo) && Pairs(s.tree) == old(Pairs(s.tree))
              && s.tree.pins == old(s.tree.pins) - {s.ticket}
              && s.tree.revision == old(s.tree.revision) && s.tree.tickets == old(s.tree.tickets)
              && s.tree.closed == old(s.tree.closed) && s.tree.readOnly == old(s.tree.readOnly)
              && s.tree.scan == old(s.tree.scan)
              // One reader fewer, and what only it held back is free.
              && s.tree.readers == WithoutOne(old(s.tree.readers), s.revision)
              && s.tree.free == Reclaimed(old(s.tree.State()), s.tree.readers, s.tree.scan).free
              && s.tree.retired == Reclaimed(old(s.tree.State()), s.tree.readers, s.tree.scan).retired
    // Every page that no reader needs any more is free.
    ensures !old(s.closed) ==>
              forall r :: r in old(s.tree.retired) ==>
                if s.tree.scan.ScanFailed? || (exists v :: v in s.tree.readers && v <= r.revision)
                   || (s.tree.scan.Oldest? && s.tree.scan.revision <= r.revision)
                then r in s.tree.retired else r !in s.tree.retired && r.id in s.tree.free
  {
    hide Owns, Spells, Pinned, Linked, Reclaimed, WithoutOne, LiveIds, LeavesIn, PairsIn, RetiredUpTo, OnlyRelinked;
    if s.closed {
      return;
    }
    s.closed := true;
    Unregister(s.tree, s.revision, s.ticket, lo);
    if !s.tree.closed && !s.tree.readOnly {
      Relink(s.tree, lo);
    }
  }

  // endRead, seen from the snapshots that stay open.
  method Unregister(t: Tree, revision: nat, ghost k: nat, ghost lo: nat)
    requires Staged(t, lo) && k in t.pins && t.pins[k].revision == revision
    modifies t`readers, t`free, t`retired, t`pins
    ensures Staged(t, lo) && t.pins == old(t.pins) - {k}
    ensures t.readers == WithoutOne(old(t.readers), revision)
            && t.State() == Reclaimed(old(t.State()), t.readers, t.scan)
    ensures forall r :: r in old(t.retired) ==>
              if t.scan.ScanFailed? || (exists v :: v in t.readers && v <= r.revision)
                 || (t.scan.Oldest? && t.scan.revision <= r.revision)
              then r in t.retired else r !in t.retired && r.id in t.free
  {
    hide Owns, Spells, Pinned, Reclaimed, LiveIds, PairsIn;
    ghost var s0 := t.State();
    PinnedAfterClose(t.order, t.degree, s0, t.revision, t.readers, t.pins, k);
    EndRead(t, revision);
    t.pins := t.pins - {k};
    ReclaimedPages(s0, t.readers, t.scan);
    ReclaimOwns(t.first, s0, t.readers, t.scan, t.listPages + LiveIds(t.shape));
    ReclaimKeepsPins(t.order, t.degree, s0, t.revision, t.readers, t.scan, t.pins);
    ReclaimRetiresUpTo(s0, t.readers, t.scan, t.revision);
  }

  lemma ReclaimedPages(s: Store, readers: map<nat, nat>, scan: TableScan)
    ensures var r := Reclaimed(s, readers, scan);
            r == s.(free := s.free + ReleasedIds(readers, scan, s.retired),
                retired := KeptPages(readers, scan, s.retired))
  {
  }

  // ---- Reading ----

  // The pages of an open snapshot spell out the tree it was opened on.
  lemma SnapshotReadable(s: Snapshot, lo: nat)
    requires s.Registered() && !s.closed && WellFormed(s.tree, lo)
    ensures var p := s.tree.pins[s.ticket];
            Spells(s.tree.order, s.tree.degree, s.tree.pages, s.root, p.shape, p.height, 0)
  {
    hide Owns, Spells, Linked, PinOk;
    HeldIsReadable(s.tree.order, s.tree.degree, s.tree.State(), s.tree.revision, s.tree.pins[s.ticket]);
  }

  // Snapshot.Get
  method GetAt(s: Snapshot, key: Key, ghost lo: nat) returns (value: Option<Bytes>)
    requires s.Registered() && (!s.closed ==> WellFormed(s.tree, lo))
    ensures value == if s.closed then None else Lookup(s.tree.order, s.View(), key)
  {
    hide Owns, Spells, Pinned, Linked, Readable, Flat;
    if s.closed {
      return None;
    }
    SnapshotReadable(s, lo);
    ghost var p := s.tree.pins[s.ticket];
    SpellsReadable(s.tree.order, s.tree.degree, s.tree.pages, s.root, p.shape, p.height, 0);
    value := SearchPage(s.tree.pages, s.root, key, s.tree.order, p.shape);
  }

  // A range read from a root page.
  method RangeRoot(pages: PageMap, root: PageId, start: Option<Key>, end: Option<Key>, o: Order, visit: Visitor,
                   ghost d: nat, ghost shape: Option<Node>, ghost h: nat, ghost lo: nat)
    returns (seen: seq<KV>)
    requires end.Some? ==> start.Some?
    requires Spells(o, d, pages, root, shape, h, lo)
    ensures seen == Visit(visit, [], Within(o, PairsIn(shape), start, end)).0
  {
    hide Spells, Within, Visit, Flat;
    SpellsReadable(o, d, pages, root, shape, h, lo);
    if root == 0 {
      WithinNothing(o, start, end);
      VisitNothing(visit, []);
      return [];
    }
    var more;
    seen, more := RangePage(pages, root, start, end, o, visit, [], shape.value);
  }

  // Snapshot.Range, RangeFrom and RangeBetween
  method RangeAt(s: Snapshot, start: Option<Key>, end: Option<Key>, visit: Visitor, ghost lo: nat)
    returns (seen: seq<KV>)
    requires end.Some? ==> start.Some?
    requires s.Registered() && (!s.closed ==> WellFormed(s.tree, lo))
    ensures seen == if s.closed then [] else Visit(visit, [], Within(s.tree.order, s.View(), start, end)).0
  {
    hide Owns, Spells, Pinned, Linked, Within, Visit, Flat;
    if s.closed {
      return [];
    }
    SnapshotReadable(s, lo);
    ghost var p := s.tree.pins[s.ticket];
    seen := RangeRoot(s.tree.pages, s.root, start, end, s.tree.order, visit, s.tree.degree, p.shape, p.height, 0);
  }

  // Tree.Range, RangeFrom and RangeBetween: along the leaf links when no snapshot is
  // open, through the branches otherwise. Both see the same pairs.
  method RangeTree(t: Tree, start: Option<Key>, end: Option<Key>, visit: Visitor, ghost lo: nat) returns (seen: seq<KV>)
    requires end.Some? ==> start.Some?
    requires WellFormed(t, lo)
    ensures seen == if t.closed then [] else Visit(visit, [], Within(t.order, Pairs(t), start, end)).0
  {
    hide Owns, Spells, Pinned, Linked, Within, Visit, Flat, LeafIds;
    if t.closed {
      return [];
    }
    ReadersPositive(t.order, t.degree, t.State(), t.revision, t.readers, t.pins);
    SpellsReadable(t.order, t.degree, t.pages, t.root, t.shape, t.height, lo);
    var active := ActiveReaderCount(t);
    if active == 0 {
      if t.root == 0 {
        WithinNothing(t.order, start, end);
        VisitNothing(visit, []);
        return [];
      }
      var ok;
      seen, ok := RangeLinkedLeaves(t.pages, t.root, start, end, t.order, visit, t.shape.value);
      if ok {
        return;
      }
    }
    seen := RangeRoot(t.pages, t.root, start, end, t.order, visit, t.degree, t.shape, t.height, lo);
  }
}
