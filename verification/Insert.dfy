// Insertion below a page the caller has already copied (pagebtree/insert.go).

module Insertion {
  import opened KeyOrder
  import opened Seqs
  import opened Contents
  import opened Pages
  import opened Nodes
  import opened Splits
  import opened Trees
  import opened Overflow
  import opened LeafPages
  import opened Branches
  import opened Routing
  import opened Capacity
  import opened Forests

  datatype SplitResult = SplitResult(separator: Key, right: PageId)

  // What insertion needs of the node `n` below the page it is called on.
  ghost predicate Ready(t: Tree, s: Store, n: Node, h: nat, lo: nat, rest: multiset<PageId>) {
    && t.degree >= 2 && lo < t.degree
    && Rep(s.pages, n) && Owns(t.first, s, rest + Ids(n))
    && Balanced(n, h, lo, t.degree) && n.Count() >= 1
    && Sorted(t.order, Flat(n))
  }

  // Under the key bound only a mapped file that cannot grow makes insertion panic.
  ghost predicate NeverPanics(t: Tree, s: seq<KV>, key: Key) {
    t.growLimit.None? && t.degree >= 2 && KeysFit(t.degree, s) && KeyFits(t.degree, key)
  }

  function GrowthOf(split: Option<SplitResult>): Growth {
    match split
    case None => Stays
    case Some(cut) => Divides(cut.separator)
  }

  // The pages went the way `g` says; in memory insertion panics exactly if one overflows.
  ghost predicate Grew(t: Tree, r: Status, split: Option<SplitResult>, g: Growth) {
    if r.Done? then g == GrowthOf(split) else t.growLimit.Some? || g.Overfull?
  }

  // What it leaves: the node with the pair put in, or two full nodes that hold it together.
  ghost predicate Inserted(t: Tree, s: Store, n: Node, key: Key, value: Bytes, h: nat, lo: nat, rest: multiset<PageId>,
                           split: Option<SplitResult>, left: Node, right: Node)
  {
    && left.id == n.id && left.Leaf? == n.Leaf?
    && Rep(s.pages, left)
    && match split
       case None =>
         && Flat(left) == Upsert(t.order, Flat(n), key, value)
         && Balanced(left, h, lo, t.degree) && left.Count() >= n.Count()
         && Owns(t.first, s, rest + Ids(left))
       case Some(cut) =>
         && Rep(s.pages, right) && right.id == cut.right && FirstKey(right) == cut.separator
         && Flat(left) + Flat(right) == Upsert(t.order, Flat(n), key, value)
         && Full(left, h, lo, t.degree) && Full(right, h, lo, t.degree)
         && Owns(t.first, s, rest + Ids(left) + Ids(right))
  }

  // ---- Leaves ----

  function EntryKeys(entries: seq<LeafEntry>): (r: seq<Key>)
    ensures |r| == |entries|
  {
    seq(|entries|, i requires 0 <= i < |entries| => entries[i].key)
  }

  lemma LoadedKeys(slots: seq<Slot>)
    ensures EntryKeys(Loaded(EntriesOf(slots))) == Keys(PairsOf(slots))
  {
  }

  lemma UpsertKeysFit(o: Order, d: nat, s: seq<KV>, key: Key, value: Bytes)
    requires d >= 2 && KeysFit(d, s) && KeyFits(d, key)
    ensures KeysFit(d, Upsert(o, s, key, value))
  {
    hide KeyFits, LowerBound;
  }

  lemma ReplacedSlots(pages: PageMap, slots: seq<Slot>, index: nat, key: Key, value: Bytes)
    requires SlotsRep(pages, slots) && index < |slots| && slots[index].kv.key == key
    ensures var src := slots[index := Slot(KV(key, value), [])];
            && MatchesAll(pages, Loaded(EntriesOf(slots))[index := LeafEntry(key, Raw(value))], src)
            && PairsOf(src) == PairsOf(slots)[index := KV(key, value)]
            && ChainIds(slots) == ChainIds(src) + multiset(slots[index].chain)
  {
    hide SlotRep, ChainIds;
    var src := slots[index := Slot(KV(key, value), [])];
    ChainIdsAround(slots, index);
    ChainIdsAround(src, index);
    assert src[..index] == slots[..index] && src[index + 1..] == slots[index + 1..];
    assert ChainIds(slots) == ChainIds(src) + multiset(slots[index].chain);
    assert PairsOf(src) == PairsOf(slots)[index := KV(key, value)];
  }

  lemma InsertedSlots(pages: PageMap, slots: seq<Slot>, index: nat, key: Key, value: Bytes)
    requires SlotsRep(pages, slots) && index <= |slots|
    ensures var src := InsertAt(slots, index, Slot(KV(key, value), []));
            && MatchesAll(pages, InsertAt(Loaded(EntriesOf(slots)), index, LeafEntry(key, Raw(value))), src)
            && PairsOf(src) == InsertAt(PairsOf(slots), index, KV(key, value))
            && ChainIds(slots) == ChainIds(src)
  {
    hide SlotRep, ChainIds, SlotsRep, MatchesAll, InsertAt;
    var slot := Slot(KV(key, value), []);
    var src := InsertAt(slots, index, slot);
    assert MatchesAll(pages, InsertAt(Loaded(EntriesOf(slots)), index, LeafEntry(key, Raw(value))), src) by {
      InsertedMatches(pages, slots, index, key, value);
    }
    ChainIdsInsert(slots, index, slot);
    PairsInsert(slots, index, slot);
  }

  lemma PairsInsert(slots: seq<Slot>, index: nat, slot: Slot)
    requires index <= |slots|
    ensures PairsOf(InsertAt(slots, index, slot)) == InsertAt(PairsOf(slots), index, slot.kv)
  {
  }

  lemma InsertedMatches(pages: PageMap, slots: seq<Slot>, index: nat, key: Key, value: Bytes)
    requires SlotsRep(pages, slots) && index <= |slots|
    ensures MatchesAll(pages, InsertAt(Loaded(EntriesOf(slots)), index, LeafEntry(key, Raw(value))),
                       InsertAt(slots, index, Slot(KV(key, value), [])))
  {
    hide SlotRep;
  }

  lemma ChainIdsInsert(slots: seq<Slot>, index: nat, slot: Slot)
    requires index <= |slots| && slot.chain == []
    ensures ChainIds(InsertAt(slots, index, slot)) == ChainIds(slots)
  {
    hide ChainIds;
    var a, b := slots[..index], slots[index..];
    assert slots == a + b;
    ChainIdsBetween(a, slot, b);
    assert InsertAt(slots, index, slot) == a + ([slot] + b);
  }

  lemma ChainIdsBetween(a: seq<Slot>, slot: Slot, b: seq<Slot>)
    requires slot.chain == []
    ensures ChainIds(a + ([slot] + b)) == ChainIds(a + b)
  {
    hide ChainIds;
    ChainIdsConcat(a, b);
    ChainIdsConcat(a, [slot] + b);
    ChainIdsConcat([slot], b);
    ChainIdsOne(slot);
  }

  lemma LeafStays(d: nat, entries: seq<LeafEntry>)
    requires d >= 2
    ensures |entries| <= MaxKeys(d) ==> LeafGrowth(d, entries) == if LeafTakes(entries) then Stays else Overfull
  {
  }

  lemma LeafGrows(o: Order, d: nat, n: Node, key: Key, value: Bytes)
    requires d >= 2 && n.Leaf?
    ensures PutGrowth(o, d, n, key, value) == LeafGrowth(d, WithPair(o, n.slots, key, value))
  {
  }

  // A leaf that holds the new pairs is what insertion leaves when it does not split.
  lemma LeafInserted(t: Tree, n: Node, key: Key, value: Bytes, h: nat, lo: nat, rest: multiset<PageId>,
          slots: seq<Slot>)
    requires n.Leaf? && h == 0 && t.degree >= 2
    requires Rep(t.pages, Leaf(n.id, slots)) && Owns(t.first, t.State(), rest + multiset{n.id} + ChainIds(slots))
    requires PairsOf(slots) == Upsert(t.order, PairsOf(n.slots), key, value)
    requires |n.slots| <= |slots| < 2 * t.degree
    ensures Inserted(t, t.State(), n, key, value, h, lo, rest, None, Leaf(n.id, slots), n)
  {
    hide Owns, Rep, Upsert, ChainIds;
    assert rest + Ids(Leaf(n.id, slots)) == rest + multiset{n.id} + ChainIds(slots);
  }

  method InsertLeaf(t: Tree, id: PageId, key: Key, value: Bytes, ghost n: Node, ghost h: nat, ghost lo: nat,
          ghost rest: multiset<PageId>)
    returns (r: Status, previous: Option<Bytes>, split: Option<SplitResult>, ghost left: Node, ghost right: Node)
    requires n.id == id && n.Leaf? && Ready(t, t.State(), n, h, lo, rest)
    modifies t`pages, t`nextPage, t`free, t`retired, t`reused
    ensures Frame(old(t.State()), t.State(), {id}, t.revision)
    ensures NeverPanics(t, Flat(n), key) ==> r.Done?
    ensures Grew(t, r, split, PutGrowth(t.order, t.degree, n, key, value))
    ensures r.Done? ==> previous == Lookup(t.order, Flat(n), key)
    ensures r.Done? ==> Inserted(t, t.State(), n, key, value, h, lo, rest, split, left, right)
  {
    hide Owns, Frame, Inserted, SlotsRep, MatchesAll, ChainIds, LowerBound, KeysFit, KeyFits, SortedKeys, Rep,
      LeafGrowth, PutGrowth, LeafTakes;
    left, right, split, previous := n, n, None, None;
    ghost var slots := n.slots;
    LeafRepOf(t.pages, n);
    var entries := Loaded(t.pages[id].entries);
    LoadedKeys(slots);
    var index, found := SearchSlot(t.order, EntryKeys(entries), key);
    ghost var after := WithPair(t.order, slots, key, value);
    LeafGrows(t.order, t.degree, n, key, value);
    LeafStays(t.degree, after);
    if NeverPanics(t, Flat(n), key) {
      UpsertKeysFit(t.order, t.degree, PairsOf(slots), key, value);
    }
    if found {
      assert entries[index := LeafEntry(key, Raw(value))] == after;
      previous := ResolveAt(t, entries, index, slots);
      ghost var slots';
      r, slots' := ReplaceInLeaf(t, id, entries, index, key, value, slots, rest);
      if r.Done? {
        left := Leaf(id, slots');
        LeafInserted(t, n, key, value, h, lo, rest, slots');
      }
      return;
    }
    InsertedSlots(t.pages, slots, index, key, value);
    ghost var src := InsertAt(slots, index, Slot(KV(key, value), []));
    entries := InsertAt(entries, index, LeafEntry(key, Raw(value)));
    assert entries == after;
    assert rest + Ids(n) == rest + multiset{id} + ChainIds(src);
    if |entries| <= MaxKeys(t.degree) {
      ghost var slots';
      r, slots' := WriteLeafEntries(t, id, entries, src, rest);
      if r.Done? {
        left := Leaf(id, slots');
        assert |PairsOf(slots')| == |slots'| && |PairsOf(src)| == |src|;
        LeafInserted(t, n, key, value, h, lo, rest, slots');
      }
      return;
    }
    r, split, left, right := SplitLeaf(t, id, entries, src, n, key, value, lo, rest);
  }

  lemma LeafRepOf(pages: PageMap, n: Node)
    requires n.Leaf? && Rep(pages, n)
    ensures n.id in pages && pages[n.id].LeafPage? && pages[n.id].entries == EntriesOf(n.slots)
            && SlotsRep(pages, n.slots)
    ensures LeafBytes(EntriesOf(n.slots)) <= PAGE_SIZE
  {
  }

  method ResolveAt(t: Tree, entries: seq<LeafEntry>, index: nat, ghost slots: seq<Slot>)
    returns (previous: Option<Bytes>)
    requires index < |entries| && entries == Loaded(EntriesOf(slots)) && SlotsRep(t.pages, slots)
    ensures previous == Some(slots[index].kv.value)
  {
    var value := ResolveValue(t.pages, entries[index].body.cell, slots[index]);
    previous := Some(value);
  }

  method ReplaceInLeaf(t: Tree, id: PageId, entries: seq<LeafEntry>, index: nat, key: Key, value: Bytes,
                       ghost slots: seq<Slot>, ghost rest: multiset<PageId>)
    returns (r: Status, ghost slots': seq<Slot>)
    requires t.degree >= 2 && |slots| <= MaxKeys(t.degree)
    requires id in t.pages && t.pages[id].LeafPage? && entries == Loaded(EntriesOf(slots)) && SlotsRep(t.pages, slots)
    requires index < |entries| && entries[index].key == key
    requires Owns(t.first, t.State(), rest + Ids(Leaf(id, slots)))
    modifies t`pages, t`nextPage, t`free, t`retired, t`reused
    ensures Frame(old(t.State()), t.State(), {id}, t.revision)
    ensures r.Done? ==> LeafTakes(entries[index := LeafEntry(key, Raw(value))])
    ensures r.Panic? ==> t.growLimit.Some? || !LeafTakes(entries[index := LeafEntry(key, Raw(value))])
    ensures t.growLimit.None? && KeysFit(t.degree, PairsOf(slots)[index := KV(key, value)]) ==> r.Done?
    ensures r.Done? ==>
              && Rep(t.pages, Leaf(id, slots')) && Owns(t.first, t.State(), rest + multiset{id} + ChainIds(slots'))
              && PairsOf(slots') == PairsOf(slots)[index := KV(key, value)] && |slots'| == |slots|
  {
    hide Owns, Frame, MatchesAll, ChainIds, KeysFit, Rep, LeafTakes;
    ghost var s0 := t.State();
    ghost var src := slots[index := Slot(KV(key, value), [])];
    ReplacedSlots(t.pages, slots, index, key, value);
    assert rest + Ids(Leaf(id, slots)) == rest + multiset{id} + ChainIds(src) + multiset(slots[index].chain);
    RetireOverflowValue(t, entries[index].body.cell, slots[index], rest + multiset{id} + ChainIds(src));
    ghost var s1 := t.State();
    r, slots' := WriteLeafEntries(t, id, entries[index := LeafEntry(key, Raw(value))], src, rest);
    FrameWiden(s0, s1, {}, {id}, t.revision);
    FrameTransitive(s0, s1, t.State(), {id}, {id}, t.revision);
    if r.Done? {
      assert |PairsOf(slots')| == |slots'| && |PairsOf(src)| == |src|;
    }
  }

  // A leaf with one entry too many: the right part moves to a new page.
  method SplitLeaf(t: Tree, id: PageId, entries: seq<LeafEntry>, ghost src: seq<Slot>, ghost n: Node, key: Key,
          value: Bytes, ghost lo: nat, ghost rest: multiset<PageId>)
    returns (r: Status, split: Option<SplitResult>, ghost left: Node, ghost right: Node)
    requires t.degree >= 2 && lo < t.degree && n.Leaf? && n.id == id
    requires id in t.pages && t.pages[id].LeafPage?
    requires |entries| == |src| == 2 * t.degree && MatchesAll(t.pages, entries, src)
    requires Owns(t.first, t.State(), rest + multiset{id} + ChainIds(src))
    requires PairsOf(src) == Upsert(t.order, PairsOf(n.slots), key, value)
    modifies t`pages, t`nextPage, t`free, t`reused
    ensures Frame(old(t.State()), t.State(), {id}, t.revision)
    ensures t.growLimit.None? && KeysFit(t.degree, PairsOf(src)) ==> r.Done?
    ensures Grew(t, r, split, LeafGrowth(t.degree, entries))
    ensures r.Done? ==> Inserted(t, t.State(), n, key, value, 0, lo, rest, split, left, right)
    ensures r.Done? ==>
              left.Leaf? && |left.slots| <= |entries| && IsBestCut(entries, |left.slots|, t.degree - 1, t.degree + 1)
    // In bytes no other cut balances the two leaves better, and no earlier one as well.
    ensures r.Done? ==>
              forall cut :: t.degree - 1 <= cut <= t.degree + 1 ==>
                var best := |left.slots|;
                var l, r := LeafBytes(Weighed(entries[..best])), LeafBytes(Weighed(entries[best..]));
                var l', r' := LeafBytes(Weighed(entries[..cut])), LeafBytes(Weighed(entries[cut..]));
                && Max(l, r) - Min(l, r) <= Max(l', r') - Min(l', r')
                && (cut < best ==> Max(l, r) - Min(l, r) < Max(l', r') - Min(l', r'))
  {
    hide Owns, Frame, MatchesAll, ChainIds, KeysFit, Rep, Upsert, IsBestCut, LeafTakes, LeafBytes, Weighed,
      LeafCut;
    ghost var s0 := t.State();
    split, left, right := None, n, n;
    var next := t.pages[id].next;
    var mid := LeafSplitIndex(entries, t.degree);
    LeafCutsFill(|entries|, t.degree, mid);
    LeafCutIsBest(t.degree, entries, mid);
    var rightId;
    r, rightId := NewLeaf(t, id, entries, src, rest);
    ghost var s1 := t.State();
    FrameWiden(s0, s1, {}, {id}, t.revision);
    if r.Panic? {
      return;
    }
    ghost var ls, rs;
    r, ls, rs := WriteLeafPair(t, id, rightId, entries, mid, src, rest);
    ghost var s2 := t.State();
    FrameTransitive(s0, s1, s2, {id}, {id, rightId}, t.revision);
    if r.Panic? {
      return;
    }
    left, right := Leaf(id, ls), Leaf(rightId, rs);
    LinkLeaf(t, rightId, next, right, rest + Ids(left));
    FrameTransitive(s0, s2, t.State(), {id}, {rightId}, t.revision);
    assert rest + Ids(left) + Ids(right) == (rest + Ids(right)) + Ids(left);
    KeepRep(t.first, s2, t.State(), {rightId}, t.revision, left, rest + Ids(right));
    split := Some(SplitResult(entries[mid].key, rightId));
    SplitLeafPairs(t.pages, entries, src, mid, ls, rs, s0.pages);
  }

  // The empty page that will take the right part of a leaf.
  method NewLeaf(t: Tree, id: PageId, ghost entries: seq<LeafEntry>, ghost src: seq<Slot>, ghost rest: multiset<PageId>)
    returns (r: Status, rightId: PageId)
    requires id in t.pages && t.pages[id].LeafPage? && MatchesAll(t.pages, entries, src)
    requires Owns(t.first, t.State(), rest + multiset{id} + ChainIds(src))
    modifies t`pages, t`nextPage, t`free, t`reused
    ensures Frame(old(t.State()), t.State(), {}, t.revision)
    ensures t.growLimit.None? ==> r.Done?
    ensures r.Done? ==>
              && Available(old(t.State()), rightId)
              && rightId in t.pages && t.pages[rightId].LeafPage? && id in t.pages && t.pages[id].LeafPage?
              && MatchesAll(t.pages, entries, src)
              && Owns(t.first, t.State(), rest + multiset{id} + multiset{rightId} + ChainIds(src))
  {
    hide Owns, Frame, MatchesAll, ChainIds, Available;
    ghost var s0 := t.State();
    r, rightId := t.AllocPage(rest + multiset{id} + ChainIds(src));
    ghost var s1 := t.State();
    if r.Panic? {
      return;
    }
    ghost var live := rest + multiset{id} + ChainIds(src) + multiset{rightId};
    t.WritePage(rightId, LeafPage([], 0), live);
    FrameTransitive(s0, s1, t.State(), {}, {rightId}, t.revision);
    assert live == rest + multiset{id} + multiset{rightId} + ChainIds(src);
    assert live == (rest + multiset{id} + multiset{rightId}) + ChainIds(src);
    KeepLeafSource(t.first, s1, t.State(), rightId, t.revision, entries, src, rest + multiset{id} + multiset{rightId});
  }

  lemma SplitLeafPairs(pages: PageMap, entries: seq<LeafEntry>, src: seq<Slot>, mid: nat, ls: seq<Slot>, rs: seq<Slot>,
          before: PageMap)
    requires MatchesAll(before, entries, src) && mid < |entries|
    requires PairsOf(ls) == PairsOf(src)[..mid] && PairsOf(rs) == PairsOf(src)[mid..]
    ensures |ls| == mid && |rs| == |src| - mid && rs[0].kv.key == entries[mid].key
    ensures PairsOf(ls) + PairsOf(rs) == PairsOf(src)
  {
    assert |PairsOf(ls)| == |ls| && |PairsOf(rs)| == |rs|;
    assert PairsOf(rs)[0] == rs[0].kv;
    assert Matches(before, entries[mid], src[mid]);
  }

  // ---- Branches ----

  method Insert(t: Tree, id: PageId, key: Key, value: Bytes, ghost n: Node, ghost h: nat, ghost lo: nat,
          ghost rest: multiset<PageId>)
    returns (r: Status, previous: Option<Bytes>, split: Option<SplitResult>, ghost left: Node, ghost right: Node)
    requires n.id == id && Ready(t, t.State(), n, h, lo, rest)
    modifies t`pages, t`nextPage, t`free, t`retired, t`reused
    ensures Frame(old(t.State()), t.State(), {id}, t.revision)
    ensures NeverPanics(t, Flat(n), key) ==> r.Done?
    ensures Grew(t, r, split, PutGrowth(t.order, t.degree, n, key, value))
    ensures r.Done? && n.Branch? ==> Used(t.State()) > Used(old(t.State()))
    ensures r.Done? ==> previous == Lookup(t.order, Flat(n), key)
    ensures r.Done? ==> Inserted(t, t.State(), n, key, value, h, lo, rest, split, left, right)
    decreases h, 1
  {
    hide Owns, Frame, Inserted, Balanced, Sorted, KeysFit, Flat, Lookup, Grew, PutGrowth;
    if t.pages[id].LeafPage? {
      r, previous, split, left, right := InsertLeaf(t, id, key, value, n, h, lo, rest);
    } else {
      r, previous, split, left, right := InsertBranch(t, id, key, value, n, h, lo, rest);
    }
  }

  lemma BranchRepOf(pages: PageMap, n: Node)
    requires n.Branch? && Rep(pages, n)
    ensures n.id in pages && pages[n.id] == BranchPage(Separators(n.kids), RootIds(n.kids)) && n.kids != []
    ensures BranchBytes(Separators(n.kids)) <= PAGE_SIZE
    ensures RepAll(pages, n.kids)
  {
  }

  lemma BranchKids(o: Order, n: Node, h: nat, lo: nat, d: nat)
    requires n.Branch? && Balanced(n, h, lo, d) && n.Count() >= 1 && d >= 2
    requires Sorted(o, Flat(n))
    ensures h > 0 && |n.kids| <= 2 * d && SortedKids(o, n.kids, h - 1, lo, d) && Flat(n) == FlatAll(n.kids)
  {
  }

  // A branch whose child at `index`, where the key goes, has been copied.
  ghost predicate Descending(t: Tree, s: Store, id: PageId, kids: seq<Node>, index: nat, key: Key, h: nat, lo: nat,
          rest: multiset<PageId>)
  {
    && h > 0 && t.degree >= 2 && lo < t.degree
    && index < |kids| <= 2 * t.degree
    && Rep(s.pages, Branch(id, kids)) && Owns(t.first, s, rest + Ids(Branch(id, kids)))
    && SortedKids(t.order, kids, h - 1, lo, t.degree)
    && Routed(t.order, kids, index, key)
  }

  // The children `kids` are those of before, with the one the key goes to under another id.
  ghost predicate IsCopied(o: Order, before: seq<Node>, kids: seq<Node>, keys: seq<Key>, index: nat, key: Key) {
    && keys == Separators(before) && index == ChildFor(o, keys, key) && index < |before|
    && exists id :: kids == before[index := WithId(before[index], id)]
  }

  lemma CopiedGrowth(o: Order, d: nat, n: Node, kids: seq<Node>, keys: seq<Key>, index: nat, key: Key, value: Bytes)
    requires d >= 2 && n.Branch? && IsCopied(o, n.kids, kids, keys, index, key)
    ensures index < |kids|
    ensures var child := PutGrowth(o, d, kids[index], key, value);
            PutGrowth(o, d, n, key, value)
            == if child.Divides? && index <= |keys| then BranchGrowth(d, InsertAt(keys, index, child.separator))
               else child
  {
    hide PutGrowth, BranchGrowth, ChildFor;
    var id :| kids == n.kids[index := WithId(n.kids[index], id)];
    GrowthWithId(o, d, n.kids[index], id, key, value);
    BranchGrows(o, d, n, index, key, value, PutGrowth(o, d, n.kids[index], key, value));
  }

  method DescendForInsert(t: Tree, id: PageId, key: Key, ghost n: Node, ghost h: nat, ghost lo: nat,
          ghost rest: multiset<PageId>)
    returns (r: Status, index: nat, keys: seq<Key>, children: seq<PageId>, ghost kids: seq<Node>)
    requires n.id == id && n.Branch? && Ready(t, t.State(), n, h, lo, rest)
    modifies t`pages, t`nextPage, t`free, t`retired, t`reused
    ensures Frame(old(t.State()), t.State(), {id}, t.revision)
    ensures t.growLimit.None? ==> r.Done?
    ensures r.Done? ==> Used(t.State()) > Used(old(t.State()))
    ensures r.Done? ==>
              && Descending(t, t.State(), id, kids, index, key, h, lo, rest)
              && |kids| == |n.kids| && FlatAll(kids) == Flat(n)
              && keys == Separators(kids) && children == RootIds(kids)
              && Available(old(t.State()), children[index])
    ensures r.Done? ==> IsCopied(t.order, n.kids, kids, keys, index, key)
  {
    hide Owns, Frame, Rep, RepAll, FlatAll, IdsAll, Balanced, KeysFit, AllFull, FirstKey, Sorted, Available, ChildFor,
      Routed, Separators, BranchBytes;
    ghost var s0 := t.State();
    BranchRepOf(t.pages, n);
    BranchKids(t.order, n, h, lo, t.degree);
    keys, children := t.pages[id].keys, t.pages[id].children;
    SortedIsSolid(t.order, n.kids, h - 1, lo, t.degree);
    ChildIsRouted(t.order, n.kids, key);
    index := ChildIndex(t.order, keys, key);
    RoutedIndex(t.order, n.kids, index, key);
    assert rest + Ids(n) == (rest + multiset{id}) + IdsAll(n.kids);
    var newId;
    r, children, newId, kids := CopyKid(t, children, index, n.kids, rest + multiset{id});
    ghost var s1 := t.State();
    FrameWiden(s0, s1, {}, {id}, t.revision);
    if r.Panic? {
      return;
    }
    CopiedKidFits(t.order, n.kids, index, newId, key, h - 1, lo, t.degree);
    assert (rest + multiset{id}) + IdsAll(kids) == rest + Ids(Branch(id, kids));
    r := WriteKids(t, id, keys, children, kids, h - 1, lo, rest);
    FrameTransitive(s0, s1, t.State(), {id}, {id}, t.revision);
    FrameUses(s1, t.State(), {id}, t.revision);
  }

  lemma RoutedIndex(o: Order, kids: seq<Node>, index: nat, key: Key)
    requires Routed(o, kids, index, key)
    ensures index < |kids|
  {
  }

  lemma CopiedKidFits(o: Order, kids: seq<Node>, index: nat, newId: PageId, key: Key, h: nat, lo: nat, d: nat)
    requires SortedKids(o, kids, h, lo, d) && Routed(o, kids, index, key)
    ensures var kids' := kids[index := WithId(kids[index], newId)];
            SortedKids(o, kids', h, lo, d) && Routed(o, kids', index, key)
  {
    hide FlatAll, Flat, Full, Sorted;
    var k := WithId(kids[index], newId);
    WithIdSame(kids[index], newId);
    SplitAround(kids, index, k);
    Around(kids, index);
    AllFullReplace(kids, index, k, h, lo, d);
  }

  lemma ChildReady(t: Tree, s: Store, id: PageId, kids: seq<Node>, index: nat, key: Key, h: nat, lo: nat,
          rest: multiset<PageId>)
    requires Descending(t, s, id, kids, index, key, h, lo, rest)
    ensures Ready(t, s, kids[index], h - 1, lo, (rest + multiset{id}) + Others(kids, index))
    ensures Forest(t.first, s, RootIds(kids), kids, rest + multiset{id})
    ensures Full(kids[index], h - 1, lo, t.degree)
    ensures KeysFit(t.degree, FlatAll(kids)) ==> KeysFit(t.degree, Flat(kids[index]))
  {
    hide Owns, FlatAll, IdsAll, Flat, Sorted, KeysFit;
    BranchRepOf(s.pages, Branch(id, kids));
    OthersAround(kids, index, rest + multiset{id});
    assert rest + Ids(Branch(id, kids)) == (rest + multiset{id}) + IdsAll(kids);
    RoutedSorted(t.order, kids, index);
    FullIffBalanced(kids[index], h - 1, lo, t.degree);
    Around(kids, index);
    if KeysFit(t.degree, FlatAll(kids)) {
      KeysFitPart(t.degree, FlatAll(kids[..index]), Flat(kids[index]), FlatAll(kids[index + 1..]));
    }
  }

  lemma KeysFitPart(d: nat, a: seq<KV>, b: seq<KV>, c: seq<KV>)
    requires d >= 2 && KeysFit(d, a + b + c)
    ensures KeysFit(d, b)
  {
    hide KeyFits;
    forall i | 0 <= i < |b| ensures KeyFits(d, b[i].key) {
      assert (a + b + c)[|a| + i] == b[i];
    }
  }

  method InsertBranch(t: Tree, id: PageId, key: Key, value: Bytes, ghost n: Node, ghost h: nat, ghost lo: nat,
          ghost rest: multiset<PageId>)
    returns (r: Status, previous: Option<Bytes>, split: Option<SplitResult>, ghost left: Node, ghost right: Node)
    requires n.id == id && n.Branch? && Ready(t, t.State(), n, h, lo, rest)
    modifies t`pages, t`nextPage, t`free, t`retired, t`reused
    ensures Frame(old(t.State()), t.State(), {id}, t.revision)
    ensures NeverPanics(t, Flat(n), key) ==> r.Done?
    ensures Grew(t, r, split, PutGrowth(t.order, t.degree, n, key, value))
    ensures r.Done? ==> Used(t.State()) > Used(old(t.State()))
    ensures r.Done? ==> previous == Lookup(t.order, Flat(n), key)
    ensures r.Done? ==> Inserted(t, t.State(), n, key, value, h, lo, rest, split, left, right)
    decreases h, 0
  {
    hide Owns, Frame, Inserted, Descending, Ready, Sorted, KeysFit, FlatAll, Flat, Lookup, Available, KeyFits,
      PutGrowth, BranchGrowth, IsCopied;
    ghost var s0 := t.State();
    left, right, split, previous := n, n, None, None;
    ReadyBranch(t, s0, n, h, lo, rest);
    var index, keys, children;
    ghost var kids;
    r, index, keys, children, kids := DescendForInsert(t, id, key, n, h, lo, rest);
    if r.Panic? {
      return;
    }
    ghost var s1 := t.State();
    DescendingIndex(t, s1, id, kids, index, key, h, lo, rest);
    ChildReady(t, s1, id, kids, index, key, h, lo, rest);
    RoutedUpdates(t.order, kids, index, key, value);
    CopiedGrowth(t.order, t.degree, n, kids, keys, index, key, value);
    ghost var l, rt;
    r, previous, split, l,
      rt := Insert(t, children[index], key, value, kids[index], h - 1, lo, (rest + multiset{id}) + Others(kids, index));
    ghost var s2 := t.State();
    FrameTransitive(s0, s1, s2, {id}, {children[index]}, t.revision);
    if r.Panic? {
      return;
    }
    r, split, left,
      right := FinishBranch(t, s1, id, keys, children, index, split, n, kids, l, rt, key, value, h, lo, rest);
    FrameTransitive(s0, s2, t.State(), {id}, {id}, t.revision);
    FrameUses(s1, s2, {children[index]}, t.revision);
    FrameUses(s2, t.State(), {id}, t.revision);
  }

  // The branch after insertion below its copied child.
  method FinishBranch(t: Tree, ghost s: Store, id: PageId, keys: seq<Key>, children: seq<PageId>, index: nat,
          childSplit: Option<SplitResult>, ghost n: Node, ghost kids: seq<Node>, ghost l: Node, ghost rt: Node,
          ghost key: Key, ghost value: Bytes, ghost h: nat, ghost lo: nat, ghost rest: multiset<PageId>)
    returns (r: Status, split: Option<SplitResult>, ghost left: Node, ghost right: Node)
    requires n.Branch? && n.id == id && |kids| == |n.kids| && FlatAll(kids) == Flat(n)
    requires Descending(t, s, id, kids, index, key, h, lo, rest)
    requires keys == Separators(kids) && children == RootIds(kids)
    requires Frame(s, t.State(), {kids[index].id}, t.revision)
    requires Inserted(t, t.State(), kids[index], key, value, h - 1, lo, (rest + multiset{id}) + Others(kids, index),
               childSplit, l, rt)
    requires t.degree >= 2
    modifies t`pages, t`nextPage, t`free, t`reused
    ensures Frame(old(t.State()), t.State(), {id}, t.revision)
    ensures NeverPanics(t, Flat(n), key) ==> r.Done?
    ensures Grew(t, r, split,
              if childSplit.Some? && index <= |keys|
              then BranchGrowth(t.degree, InsertAt(keys, index, childSplit.value.separator)) else Stays)
    ensures r.Done? ==> Inserted(t, t.State(), n, key, value, h, lo, rest, split, left, right)
  {
    hide Owns, Frame, Inserted, Descending, Sorted, KeysFit, FlatAll, Flat, KeyFits, AllFull, Separators, Upsert,
      BranchGrowth;
    ghost var s1 := t.State();
    FrameReflexive(s1, t.revision);
    FrameWiden(s1, s1, {}, {id}, t.revision);
    DescendingIndex(t, s, id, kids, index, key, h, lo, rest);
    if childSplit.None? {
      NoSplit(t, s, s1, n, kids, index, key, value, h, lo, rest, l, rt);
      return Done, None, Branch(id, kids[index := l]), n;
    }
    ghost var grown := kids[..index] + [l, rt] + kids[index + 1..];
    ChildSplit(t, s, s1, id, kids, index, key, value, h, lo, rest, childSplit.value, l, rt);
    if NeverPanics(t, Flat(n), key) {
      UpsertKeysFit(t.order, t.degree, FlatAll(kids), key, value);
    }
    assert |Separators(kids)| == |kids| - 1;
    r, split, left, right := AddChild(t, id, InsertAt(keys, index, childSplit.value.separator),
                                      InsertAt(children, index + 1, childSplit.value.right), grown, n, key, value, h,
                                        lo, rest);
  }

  lemma ReadyBranch(t: Tree, s: Store, n: Node, h: nat, lo: nat, rest: multiset<PageId>)
    requires Ready(t, s, n, h, lo, rest) && n.Branch?
    ensures h > 0 && t.degree >= 2
  {
  }

  lemma DescendingIndex(t: Tree, s: Store, id: PageId, kids: seq<Node>, index: nat, key: Key, h: nat, lo: nat,
          rest: multiset<PageId>)
    requires Descending(t, s, id, kids, index, key, h, lo, rest)
    ensures index < |kids| && |kids| <= 2 * t.degree && h > 0 && t.degree >= 2 && lo < t.degree
    ensures Sorted(t.order, FlatAll(kids)) && Routed(t.order, kids, index, key)
  {
  }

  // The page of the branch is untouched while insertion works below it.
  lemma BranchPageKept(t: Tree, s: Store, s': Store, id: PageId, kids: seq<Node>, index: nat, key: Key, h: nat, lo: nat,
          rest: multiset<PageId>)
    requires Descending(t, s, id, kids, index, key, h, lo, rest)
    requires Frame(s, s', {kids[index].id}, t.revision)
    ensures id in s'.pages && s'.pages[id] == BranchPage(Separators(kids), RootIds(kids))
    ensures BranchBytes(Separators(kids)) <= PAGE_SIZE
  {
    hide Owns, Frame, FlatAll, IdsAll, Flat, Sorted, KeysFit, SortedKids, Routed, FirstKey, BranchBytes;
    var live := (rest + Others(kids, index) + Below(kids[index])) + multiset{kids[index].id};
    OthersAround(kids, index, rest + multiset{id});
    IdsBelow(kids[index]);
    assert rest + Ids(Branch(id, kids)) == (rest + IdsAll(kids)) + multiset{id};
    assert kids[index].id in IdsAll(kids) by { Around(kids, index); }
    LiveDisjointOwn(t.first, s, {kids[index].id}, rest + IdsAll(kids), multiset{id});
    FrameKeepsPart(t.first, s, s', {kids[index].id}, t.revision, multiset{id}, rest + IdsAll(kids));
  }

  lemma NoSplit(t: Tree, s: Store, s': Store, n: Node, kids: seq<Node>, index: nat, key: Key, value: Bytes, h: nat,
          lo: nat, rest: multiset<PageId>, l: Node, rt: Node)
    requires n.Branch? && |kids| == |n.kids| && FlatAll(kids) == Flat(n)
    requires Descending(t, s, n.id, kids, index, key, h, lo, rest)
    requires Frame(s, s', {kids[index].id}, t.revision)
    requires Inserted(t, s', kids[index], key, value, h - 1, lo, (rest + multiset{n.id}) + Others(kids, index), None, l,
               rt)
    ensures Inserted(t, s', n, key, value, h, lo, rest, None, Branch(n.id, kids[index := l]), n)
  {
    hide Owns, Frame, FlatAll, IdsAll, LeafIdsAll, Flat, Sorted, KeysFit, FirstKey, Upsert, Full, Rep, Lt, BranchBytes;
    var id, k := n.id, kids[index];
    ChildReady(t, s, id, kids, index, key, h, lo, rest);
    RoutedUpdates(t.order, kids, index, key, value);
    IdsBelow(k);
    ReplaceKid(t.first, s, s', {k.id}, t.revision, RootIds(kids), kids, index, l, rest + multiset{id});
    BranchPageKept(t, s, s', id, kids, index, key, h, lo, rest);
    FullIffBalanced(k, h - 1, lo, t.degree);
    FullIffBalanced(l, h - 1, lo, t.degree);
    AllFullReplace(kids, index, l, h - 1, lo, t.degree);
    LeftKeepsFirst(t.order, kids, index, key, value, h - 1, lo, t.degree, l);
    SeparatorsReplace(kids, index, l);
    assert RootIds(kids)[index := l.id] == RootIds(kids);
    OfBranch(id, kids[index := l]);
    BranchRep(s'.pages, id, kids[index := l]);
    assert (rest + multiset{id}) + IdsAll(kids[index := l]) == rest + Ids(Branch(id, kids[index := l]));
  }

  // A key routed to a child other than the leftmost is not below its first key.
  lemma LeftKeepsFirst(o: Order, kids: seq<Node>, index: nat, key: Key, value: Bytes, h: nat, lo: nat, d: nat, l: Node)
    requires SortedKids(o, kids, h, lo, d) && Routed(o, kids, index, key)
    requires Flat(l) == Upsert(o, Flat(kids[index]), key, value) && Full(l, h, lo, d)
    ensures index > 0 ==> FirstKey(l) == FirstKey(kids[index])
  {
    hide FlatAll, Flat, Sorted, Upsert, Full, Lt;
    FullIsNonempty(l, h, lo, d);
    AllFullIsSolid(kids, h, lo, d);
    KidOffset(kids, index);
    if index > 0 {
      AllFullNonempty(kids[..index], h, lo, d);
      UpsertKeepsFirst(o, Flat(kids[index]), key, value);
    }
  }

  // The children once the one at `index` has been split in two.
  lemma ChildSplit(t: Tree, s: Store, s': Store, id: PageId, kids: seq<Node>, index: nat, key: Key, value: Bytes,
          h: nat, lo: nat, rest: multiset<PageId>, cut: SplitResult, l: Node, rt: Node)
    requires Descending(t, s, id, kids, index, key, h, lo, rest)
    requires Frame(s, s', {kids[index].id}, t.revision)
    requires Inserted(t, s', kids[index], key, value, h - 1, lo, (rest + multiset{id}) + Others(kids, index), Some(cut),
               l, rt)
    ensures var grown := kids[..index] + [l, rt] + kids[index + 1..];
            && Forest(t.first, s', InsertAt(RootIds(kids), index + 1, cut.right), grown, rest + multiset{id})
            && Separators(grown) == InsertAt(Separators(kids), index, cut.separator)
            && FlatAll(grown) == Upsert(t.order, FlatAll(kids), key, value)
            && AllFull(grown, h - 1, lo, t.degree)
  {
    hide Owns, Frame, FlatAll, IdsAll, LeafIdsAll, Flat, Sorted, KeysFit, FirstKey, Upsert, Full, Rep, Lt, Ids;
    var k := kids[index];
    var grown := kids[..index] + [l, rt] + kids[index + 1..];
    ChildReady(t, s, id, kids, index, key, h, lo, rest);
    RoutedUpdates(t.order, kids, index, key, value);
    IdsBelow(k);
    SiblingsKept(t.first, s, s', {k.id}, t.revision, kids, index, rest + multiset{id});
    RepAllConcat(s'.pages, kids[..index], [l, rt]);
    RepAllConcat(s'.pages, kids[..index] + [l, rt], kids[index + 1..]);
    GrownParts(kids, index, l, rt);
    assert Flat(l) + Flat(rt) == Upsert(t.order, Flat(k), key, value);
    assert (rest + multiset{id}) + IdsAll(grown) == (rest + multiset{id}) + Others(kids, index) + Ids(l) + Ids(rt);
    GrownSeparators(t.order, kids, index, key, value, h - 1, lo, t.degree, l, rt);
  }

  lemma GrownParts(kids: seq<Node>, index: nat, l: Node, rt: Node)
    requires index < |kids|
    ensures var grown := kids[..index] + [l, rt] + kids[index + 1..];
            && FlatAll(grown) == FlatAll(kids[..index]) + (Flat(l) + Flat(rt)) + FlatAll(kids[index + 1..])
            && IdsAll(grown) == Others(kids, index) + Ids(l) + Ids(rt)
            && (l.id == kids[index].id ==> RootIds(grown) == InsertAt(RootIds(kids), index + 1, rt.id))
  {
    hide FlatAll, IdsAll, LeafIdsAll, Flat, Ids;
    MiddleAll(kids[..index], [l, rt], kids[index + 1..]);
    PairAll(l, rt);
  }

  lemma GrownSeparators(o: Order, kids: seq<Node>, index: nat, key: Key, value: Bytes, h: nat, lo: nat, d: nat, l: Node,
          rt: Node)
    requires SortedKids(o, kids, h, lo, d) && Routed(o, kids, index, key)
    requires Flat(l) + Flat(rt) == Upsert(o, Flat(kids[index]), key, value) && Full(l, h, lo, d) && Full(rt, h, lo, d)
    ensures var grown := kids[..index] + [l, rt] + kids[index + 1..];
            && Separators(grown) == InsertAt(Separators(kids), index, FirstKey(rt))
            && AllFull(grown, h, lo, d)
  {
    hide FlatAll, Flat, Sorted, Upsert, Full, Lt, FirstKey;
    var grown := kids[..index] + [l, rt] + kids[index + 1..];
    FullIsNonempty(l, h, lo, d);
    AllFullIsSolid(kids, h, lo, d);
    KidOffset(kids, index);
    if index > 0 {
      AllFullNonempty(kids[..index], h, lo, d);
      UpsertKeepsFirst(o, Flat(kids[index]), key, value);
    }
    SeparatorsGrown(kids, index, l, rt);
    forall j | 0 <= j < |grown| ensures Full(grown[j], h, lo, d) {
      assert grown[j] == if j < index then kids[j] else if j == index then l else if j == index + 1 then rt
             else kids[j - 1];
    }
  }

  lemma SeparatorsGrown(kids: seq<Node>, index: nat, l: Node, rt: Node)
    requires index < |kids| && (index > 0 ==> FirstKey(l) == FirstKey(kids[index]))
    ensures Separators(kids[..index] + [l, rt] + kids[index + 1..]) == InsertAt(Separators(kids), index, FirstKey(rt))
  {
    hide FirstKey;
    var grown := kids[..index] + [l, rt] + kids[index + 1..];
    forall j | 0 <= j < |kids| ensures Separators(grown)[j] == InsertAt(Separators(kids), index, FirstKey(rt))[j] {
      assert grown[j + 1] == if j + 1 < index then kids[j + 1] else if j + 1 == index then l else if j == index then rt
             else kids[j];
    }
  }

  // The branch with one child more: written as it is, or split around a promoted separator.
  method AddChild(t: Tree, id: PageId, keys: seq<Key>, children: seq<PageId>, ghost kids: seq<Node>, ghost n: Node,
          ghost key: Key, ghost value: Bytes, ghost h: nat, ghost lo: nat, ghost rest: multiset<PageId>)
    returns (r: Status, split: Option<SplitResult>, ghost left: Node, ghost right: Node)
    requires t.degree >= 2 && lo < t.degree && h > 0
    requires n.Branch? && n.id == id && |n.kids| + 1 == |kids| <= 2 * t.degree + 1 && |kids| >= 2
    requires Forest(t.first, t.State(), children, kids, rest + multiset{id}) && keys == Separators(kids)
    requires AllFull(kids, h - 1, lo, t.degree)
    requires FlatAll(kids) == Upsert(t.order, Flat(n), key, value)
    modifies t`pages, t`nextPage, t`free, t`reused
    ensures Frame(old(t.State()), t.State(), {id}, t.revision)
    ensures t.growLimit.None? && KeysFit(t.degree, FlatAll(kids)) ==> r.Done?
    ensures Grew(t, r, split, BranchGrowth(t.degree, keys))
    ensures r.Done? ==> Inserted(t, t.State(), n, key, value, h, lo, rest, split, left, right)
  {
    hide Owns, Frame, FlatAll, Flat, KeysFit, FirstKey, Upsert, Full, Rep, AllFull, RepAll, IdsAll, Separators,
      BranchBytes, BranchCut;
    split, left, right := None, n, n;
    OfBranch(id, kids);
    assert (rest + multiset{id}) + IdsAll(kids) == rest + Ids(Branch(id, kids));
    assert |keys| == |kids| - 1;
    if |keys| <= MaxKeys(t.degree) {
      r := WriteKids(t, id, keys, children, kids, h - 1, lo, rest);
      left := Branch(id, kids);
      BranchBalanced(id, kids, h, lo, t.degree);
      return;
    }
    r, split, left, right := SplitBranch(t, id, keys, children, kids, h, lo, rest);
  }

  lemma BranchBalanced(id: PageId, kids: seq<Node>, h: nat, lo: nat, d: nat)
    requires h > 0 && AllFull(kids, h - 1, lo, d) && |kids| <= 2 * d
    ensures Balanced(Branch(id, kids), h, lo, d)
    ensures |kids| >= KidMin(lo, d) ==> Full(Branch(id, kids), h, lo, d)
  {
  }

  method SplitBranch(t: Tree, id: PageId, keys: seq<Key>, children: seq<PageId>, ghost kids: seq<Node>,
                     ghost h: nat, ghost lo: nat, ghost rest: multiset<PageId>)
    returns (r: Status, split: Option<SplitResult>, ghost left: Node, ghost right: Node)
    requires t.degree >= 2 && lo < t.degree && h > 0 && |kids| == 2 * t.degree + 1
    requires Forest(t.first, t.State(), children, kids, rest + multiset{id}) && keys == Separators(kids)
    requires AllFull(kids, h - 1, lo, t.degree)
    modifies t`pages, t`nextPage, t`free, t`reused
    ensures Frame(old(t.State()), t.State(), {id}, t.revision)
    ensures t.growLimit.None? && KeysFit(t.degree, FlatAll(kids)) ==> r.Done?
    ensures Grew(t, r, split, BranchGrowth(t.degree, keys))
    ensures r.Done? ==>
              && split.Some? && left.Branch? && left.id == id && right.id == split.value.right
              && Rep(t.pages, left) && Rep(t.pages, right)
              && FirstKey(right) == split.value.separator
              && Flat(left) + Flat(right) == FlatAll(kids)
              && Full(left, h, lo, t.degree) && Full(right, h, lo, t.degree)
              && Owns(t.first, t.State(), rest + Ids(left) + Ids(right))
              && left.kids == kids[..|left.kids|] && 1 <= |left.kids| <= |keys|
              && split.value.separator == keys[|left.kids| - 1]
              && (forall i :: t.degree - 1 <= i <= t.degree ==>
                var best := |left.kids| - 1;
                var l, r := BranchBytes(keys[..best]), BranchBytes(keys[best + 1..]);
                var l', r' := BranchBytes(keys[..i]), BranchBytes(keys[i + 1..]);
                && Max(l, r) - Min(l, r) <= Max(l', r') - Min(l', r')
                && (i < best ==> Max(l, r) - Min(l, r) < Max(l', r') - Min(l', r')))
  {
    hide Owns, Frame, FlatAll, Flat, KeysFit, FirstKey, Full, Rep, AllFull, RepAll, IdsAll, Separators, RootIds,
      Available, BranchImbalance, BranchBytes, BranchGrowth, Max, Min, LeafIdsAll, Exhausted;
    ghost var s0 := t.State();
    split, left, right := None, Branch(id, kids), Branch(id, kids);
    assert |keys| == |kids| - 1 == |children| - 1;
    var mid := BranchSplitIndex(keys, t.degree);
    BranchDivides(t.degree, keys, mid);
    var promoted := keys[mid];
    var rightKeys, rightChildren := keys[mid + 1..], children[mid + 1..];
    var leftKeys, leftChildren := keys[..mid], children[..mid + 1];
    ghost var lk, rk := kids[..mid + 1], kids[mid + 1..];
    var rightId;
    r, rightId := NewBranch(t, id, kids, rest);
    ghost var s2 := t.State();
    FrameWiden(s0, s2, {}, {id}, t.revision);
    if r.Panic? {
      return;
    }
    ghost var live := (rest + multiset{id}) + IdsAll(kids) + multiset{rightId};
    CutAll(t.pages, kids, mid + 1, h - 1, lo, t.degree);
    CutSeparators(kids, mid);
    left, right := Branch(id, lk), Branch(rightId, rk);
    OfBranch(id, lk);
    OfBranch(rightId, rk);
    assert live == (rest + Ids(right)) + Ids(left);
    r := WriteKids(t, id, leftKeys, leftChildren, lk, h - 1, lo, rest + Ids(right));
    ghost var s3 := t.State();
    FrameTransitive(s0, s2, s3, {id}, {id}, t.revision);
    if r.Panic? {
      return;
    }
    split := Some(SplitResult(promoted, rightId));
    assert live == (rest + multiset{rightId} + Ids(left)) + IdsAll(rk);
    KeepAll(t.first, s2, s3, {id}, t.revision, rk, rest + multiset{rightId} + Ids(left));
    assert rest + Ids(right) + Ids(left) == (rest + Ids(left)) + Ids(right);
    r := WriteKids(t, rightId, rightKeys, rightChildren, rk, h - 1, lo, rest + Ids(left));
    FrameTransitive(s0, s3, t.State(), {id}, {rightId}, t.revision);
    KeepRep(t.first, s3, t.State(), {rightId}, t.revision, left, rest + Ids(right));
    BranchBalanced(id, lk, h, lo, t.degree);
    BranchBalanced(rightId, rk, h, lo, t.degree);
  }

  // The empty page that will take the right part of a branch.
  method NewBranch(t: Tree, id: PageId, ghost kids: seq<Node>, ghost rest: multiset<PageId>)
    returns (r: Status, rightId: PageId)
    requires RepAll(t.pages, kids) && Owns(t.first, t.State(), (rest + multiset{id}) + IdsAll(kids))
    modifies t`pages, t`nextPage, t`free, t`reused
    ensures Frame(old(t.State()), t.State(), {}, t.revision)
    ensures t.growLimit.None? ==> r.Done?
    ensures r.Done? ==>
              && Available(old(t.State()), rightId) && RepAll(t.pages, kids)
              && Owns(t.first, t.State(), (rest + multiset{id}) + IdsAll(kids) + multiset{rightId})
  {
    hide Owns, Frame, RepAll, IdsAll, Available;
    ghost var s0 := t.State();
    r, rightId := t.AllocPage((rest + multiset{id}) + IdsAll(kids));
    ghost var s1 := t.State();
    if r.Panic? {
      return;
    }
    ghost var live := (rest + multiset{id}) + IdsAll(kids) + multiset{rightId};
    t.WritePage(rightId, BranchPage([], [0]), live);
    FrameTransitive(s0, s1, t.State(), {}, {rightId}, t.revision);
    assert live == (rest + multiset{id} + multiset{rightId}) + IdsAll(kids);
    KeepAll(t.first, s1, t.State(), {rightId}, t.revision, kids, rest + multiset{id} + multiset{rightId});
  }

  lemma CutSeparators(kids: seq<Node>, mid: nat)
    requires mid + 1 < |kids|
    ensures Separators(kids[..mid + 1]) == Separators(kids)[..mid]
            && Separators(kids[mid + 1..]) == Separators(kids)[mid + 1..]
    ensures FirstKey(kids[mid + 1]) == Separators(kids)[mid]
  {
    hide FirstKey;
  }
}
