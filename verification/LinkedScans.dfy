// Range reads that follow the leaf links instead of the branches (pagebtree/search.go).

module LinkedScans {
  import opened KeyOrder
  import opened Contents
  import opened Pages
  import opened Nodes
  import opened Routing
  import opened Forests
  import opened Ranges
  import opened LeafLinks
  import opened Search

  // The leaves of a tree from left to right.
  function Leaves(n: Node): seq<Node>
    decreases n, 1
  {
    match n
    case Leaf(_, _) => [n]
    case Branch(_, kids) => LeavesAll(kids)
  }

  function LeavesAll(kids: seq<Node>): seq<Node>
    decreases kids, 0
  {
    if kids == [] then [] else Leaves(kids[0]) + LeavesAll(kids[1..])
  }

  lemma {:induction false} LeavesConcat(a: seq<Node>, b: seq<Node>)
    ensures LeavesAll(a + b) == LeavesAll(a) + LeavesAll(b)
    decreases |a|
  {
    if a == [] {
      assert a + b == b;
    } else {
      assert (a + b)[0] == a[0] && (a + b)[1..] == a[1..] + b;
      LeavesConcat(a[1..], b);
    }
  }

  lemma LeavesAround(kids: seq<Node>, i: nat)
    requires i < |kids|
    ensures LeavesAll(kids) == LeavesAll(kids[..i]) + Leaves(kids[i]) + LeavesAll(kids[i + 1..])
  {
    assert kids == kids[..i] + kids[i..];
    LeavesConcat(kids[..i], kids[i..]);
    assert kids[i..][0] == kids[i] && kids[i..][1..] == kids[i + 1..];
  }

  // The leaves hold the pairs of the tree, and their ids are the leaf ids.
  lemma {:induction false} LeavesHold(n: Node)
    ensures FlatAll(Leaves(n)) == Flat(n) && RootIds(Leaves(n)) == LeafIds(n)
    decreases n, 1
  {
    if n.Leaf? {
      One(n);
    } else {
      LeavesAllHold(n.kids);
    }
  }

  lemma {:induction false} LeavesAllHold(kids: seq<Node>)
    ensures FlatAll(LeavesAll(kids)) == FlatAll(kids) && RootIds(LeavesAll(kids)) == LeafIdsAll(kids)
    decreases kids, 0
  {
    hide FlatAll, Flat, LeafIdsAll, LeafIds, Leaves, LeavesAll, IdsAll, RootIds;
    if kids == [] {
      NothingHolds();
    } else {
      LeavesFirst(kids);
      LeavesHold(kids[0]);
      LeavesAllHold(kids[1..]);
      FirstOfAll(kids);
      var a, b := Leaves(kids[0]), LeavesAll(kids[1..]);
      ConcatAll(a, b);
      RootIdsConcat(a, b);
    }
  }

  lemma NothingHolds()
    ensures FlatAll(LeavesAll([])) == FlatAll([]) && RootIds(LeavesAll([])) == LeafIdsAll([])
  {
  }

  lemma LeavesFirst(kids: seq<Node>)
    requires kids != []
    ensures LeavesAll(kids) == Leaves(kids[0]) + LeavesAll(kids[1..])
  {
  }

  // What a scan needs of one leaf.
  ghost predicate GoodLeaf(o: Order, pages: PageMap, n: Node) {
    && n.Leaf? && n.slots != [] && n.id != 0
    && n.id in pages && pages[n.id].LeafPage? && pages[n.id].entries == EntriesOf(n.slots)
    && ValuesRep(pages, n.slots)
    && Sorted(o, PairsOf(n.slots))
  }

  ghost predicate GoodLeaves(o: Order, pages: PageMap, leaves: seq<Node>) {
    forall i :: 0 <= i < |leaves| ==> GoodLeaf(o, pages, leaves[i])
  }

  lemma {:induction false} LeavesAreGood(o: Order, pages: PageMap, n: Node)
    requires Readable(o, pages, n)
    ensures GoodLeaves(o, pages, Leaves(n)) && Leaves(n) != []
    decreases n, 1
  {
    hide ValuesRep, FlatAll, SortedKeys;
    if n.Leaf? {
      ReadableLeaf(o, pages, n);
    } else {
      ReadableKids(o, pages, n);
      LeavesAllAreGood(o, pages, n.kids);
    }
  }

  lemma {:induction false} LeavesAllAreGood(o: Order, pages: PageMap, kids: seq<Node>)
    requires forall i :: 0 <= i < |kids| ==> Readable(o, pages, kids[i])
    ensures GoodLeaves(o, pages, LeavesAll(kids)) && (kids != [] ==> LeavesAll(kids) != [])
    decreases kids, 0
  {
    hide Readable, GoodLeaf;
    if kids != [] {
      LeavesAreGood(o, pages, kids[0]);
      LeavesAllAreGood(o, pages, kids[1..]);
    }
  }

  // The leaves before the k-th are below `start`, those from k + w on are not.
  ghost predicate Brackets(o: Order, leaves: seq<Node>, k: nat, w: nat, start: Option<Key>) {
    && k + w <= |leaves|
    && (start.None? ==> k == 0)
    && (start.Some? ==>
      AllBelow(o, FlatAll(leaves[..k]), start.value) && NoneBelow(o, FlatAll(leaves[k + w..]), start.value))
  }

  ghost predicate AllBelow(o: Order, s: seq<KV>, key: Key) {
    forall i :: 0 <= i < |s| ==> Lt(o, s[i].key, key)
  }

  ghost predicate NoneBelow(o: Order, s: seq<KV>, key: Key) {
    forall i :: 0 <= i < |s| ==> !Lt(o, s[i].key, key)
  }

  // leftmostLeaf and leafForKey: the leaf a search for `start` ends in, or the first one.
  method StartLeaf(pages: PageMap, root: PageId, start: Option<Key>, o: Order, ghost n: Node)
    returns (leaf: PageId, ghost k: nat)
    requires root == n.id && Readable(o, pages, n)
    ensures k < |Leaves(n)| && leaf == Leaves(n)[k].id
    ensures Brackets(o, Leaves(n), k, 1, start)
  {
    hide Readable, ValuesRep, SortedKeys, LowerBound, Has, Flat, FlatAll, Models, Lt, Leaves, LeavesAll, Brackets;
    var at := root;
    ghost var m := n;
    k := 0;
    leaf := 0;
    ReadableId(o, pages, Some(n));
    WholeBrackets(o, Leaves(n), start);
    while at != 0
      invariant at == m.id && at != 0 && Readable(o, pages, m)
      invariant k + |Leaves(m)| <= |Leaves(n)| && Leaves(n)[k..k + |Leaves(m)|] == Leaves(m)
      invariant Brackets(o, Leaves(n), k, |Leaves(m)|, start)
      decreases m
    {
      ReadableShape(o, pages, m);
      var p := pages[at];
      if p.LeafPage? {
        LeafOfLeaf(m);
        assert Leaves(n)[k..k + 1][0] == Leaves(n)[k];
        return at, k;
      }
      ReadableKids(o, pages, m);
      var index := 0;
      if start.Some? {
        index := ChildIndex(o, p.keys, start.value);
        ChildIsRouted(o, m.kids, start.value);
        SidesOfRouted(o, m.kids, index, start.value);
      }
      EnterLeaves(o, Leaves(n), m, k, index, start);
      at := p.children[index];
      k := k + |LeavesAll(m.kids[..index])|;
      m := m.kids[index];
      ReadableId(o, pages, Some(m));
    }
  }

  lemma LeafOfLeaf(n: Node)
    requires n.Leaf?
    ensures Leaves(n) == [n]
  {
  }

  lemma WholeBrackets(o: Order, leaves: seq<Node>, start: Option<Key>)
    ensures Brackets(o, leaves, 0, |leaves|, start) && leaves[0..|leaves|] == leaves
  {
    FlatAllEmpty();
    assert leaves[..0] == [] && leaves[|leaves|..] == [];
  }

  lemma SidesOfRouted(o: Order, kids: seq<Node>, i: nat, start: Key)
    requires Sorted(o, FlatAll(kids)) && Routed(o, kids, i, start)
    ensures AllBelow(o, FlatAll(kids[..i]), start) && NoneBelow(o, FlatAll(kids[i + 1..]), start)
  {
    hide FlatAll, Flat, SortedKeys, Lt;
    Around(kids, i);
    var left, mid, right := FlatAll(kids[..i]), Flat(kids[i]), FlatAll(kids[i + 1..]);
    SortedParts(o, left + mid, right);
    SortedParts(o, left, mid);
    forall j | 0 <= j < |left| ensures Lt(o, left[j].key, start) {
      BelowFirst(o, left[j].key, mid[0].key, start);
    }
    forall j | 0 <= j < |right| ensures !Lt(o, right[j].key, start) {
      SortedFromFirst(o, right, j);
      AboveFirst(o, start, right[0].key, right[j].key);
    }
  }

  lemma SortedFromFirst(o: Order, s: seq<KV>, j: nat)
    requires Sorted(o, s) && j < |s|
    ensures s[0].key == s[j].key || Lt(o, s[0].key, s[j].key)
  {
    assert j > 0 ==> Lt(o, Keys(s)[0], Keys(s)[j]);
  }

  lemma AboveFirst(o: Order, start: Key, b: Key, key: Key)
    requires Lt(o, start, b) && (b == key || Lt(o, b, key))
    ensures !Lt(o, key, start)
  {
    if b != key {
      Transitive(o, start, b, key);
    }
    Trichotomy(o, start, key);
  }

  // Going down from `m` to its child at `index` passes the leaves of the children before it.
  lemma EnterLeaves(o: Order, all: seq<Node>, m: Node, k: nat, index: nat, start: Option<Key>)
    requires m.Branch? && index < |m.kids|
    requires k + |Leaves(m)| <= |all| && all[k..k + |Leaves(m)|] == Leaves(m)
    requires Brackets(o, all, k, |Leaves(m)|, start)
    requires start.None? ==> index == 0
    requires start.Some? ==>
               AllBelow(o, FlatAll(m.kids[..index]), start.value)
               && NoneBelow(o, FlatAll(m.kids[index + 1..]), start.value)
    ensures var k', w := k + |LeavesAll(m.kids[..index])|, |Leaves(m.kids[index])|;
            k' + w <= |all| && all[k'..k' + w] == Leaves(m.kids[index]) && Brackets(o, all, k', w, start)
  {
    hide FlatAll, Flat, Lt, LeavesAll, Leaves, AllBelow, NoneBelow, RootIds, LeafIdsAll, Brackets;
    LeavesAround(m.kids, index);
    LeavesOfBranch(m);
    LeavesAllHold(m.kids[..index]);
    LeavesAllHold(m.kids[index + 1..]);
    if start.None? {
      assert m.kids[..0] == [];
      LeavesNone();
    }
    var before, mine, after := LeavesAll(m.kids[..index]), Leaves(m.kids[index]), LeavesAll(m.kids[index + 1..]);
    SlicePart(all, k, before, mine, after);
    NarrowBrackets(o, all, k, before, mine, after, start);
  }

  lemma NarrowBrackets(o: Order, all: seq<Node>, k: nat, before: seq<Node>, mine: seq<Node>, after: seq<Node>,
          start: Option<Key>)
    requires k + |before + mine + after| <= |all| && all[k..k + |before + mine + after|] == before + mine + after
    requires Brackets(o, all, k, |before + mine + after|, start)
    requires start.None? ==> before == []
    requires start.Some? ==> AllBelow(o, FlatAll(before), start.value) && NoneBelow(o, FlatAll(after), start.value)
    ensures Brackets(o, all, k + |before|, |mine|, start)
  {
    hide FlatAll, Lt, AllBelow, NoneBelow;
    SlicePart(all, k, before, mine, after);
    var right := all[k + |before + mine + after|..];
    ConcatAll(all[..k], before);
    ConcatAll(after, right);
    if start.Some? {
      SidesConcat(o, FlatAll(all[..k]), FlatAll(before), start.value);
      SidesConcat(o, FlatAll(after), FlatAll(right), start.value);
    }
  }

  lemma SlicePart(all: seq<Node>, k: nat, before: seq<Node>, mine: seq<Node>, after: seq<Node>)
    requires k + |before + mine + after| <= |all| && all[k..k + |before + mine + after|] == before + mine + after
    ensures var k', end := k + |before|, k + |before| + |mine|;
            && all[k'..end] == mine && all[..k'] == all[..k] + before
            && all[end..] == after + all[k + |before + mine + after|..]
  {
    var part := before + mine + after;
    assert all == all[..k] + part + all[k + |part|..];
  }

  lemma SidesConcat(o: Order, a: seq<KV>, b: seq<KV>, key: Key)
    ensures AllBelow(o, a, key) && AllBelow(o, b, key) ==> AllBelow(o, a + b, key)
    ensures NoneBelow(o, a, key) && NoneBelow(o, b, key) ==> NoneBelow(o, a + b, key)
  {
  }

  lemma LeavesNone()
    ensures LeavesAll([]) == []
  {
  }

  lemma LeavesOfBranch(n: Node)
    requires n.Branch?
    ensures Leaves(n) == LeavesAll(n.kids)
  {
  }

  // rangeLinkedLeaves, rangeLinkedLeavesFrom and rangeLinkedLeavesBetween. Without a
  // start the scan begins at the leftmost leaf and never looks for a slot.
  method RangeLinkedLeaves(pages: PageMap, root: PageId, start: Option<Key>, end: Option<Key>, o: Order, visit: Visitor,
                           ghost n: Node)
    returns (seen: seq<KV>, ok: bool)
    requires end.Some? ==> start.Some?
    requires root == n.id && Readable(o, pages, n)
    requires Linked(pages, LeafIds(n))
    ensures ok && seen == Visit(visit, [], Within(o, Flat(n), start, end)).0
  {
    hide Readable, ValuesRep, ValueRep, SortedKeys, LowerBound, Has, Flat, FlatAll, Models, Within, Visit, Lt, Leaves,
      LeafIds, GoodLeaf, Brackets, Linked;
    if end.Some? {
      LtMeans(o, start.value, end.value);
      if o.compare(start.value, end.value) >= 0 {
        EmptyBounds(o, Flat(n), start.value, end.value);
        VisitNothing(visit, []);
        return [], true;
      }
    }
    var leaf;
    ghost var k;
    leaf, k := StartLeaf(pages, root, start, o, n);
    LeavesHold(n);
    LeavesAreGood(o, pages, n);
    assert Sorted(o, Flat(n)) by { ReadableSorted(o, pages, n); }
    seen, ok := Follow(pages, leaf, start, end, o, visit, Leaves(n), k);
  }

  lemma ReadableSorted(o: Order, pages: PageMap, n: Node)
    requires Readable(o, pages, n)
    ensures Sorted(o, Flat(n))
  {
  }

  // What lies before the starting leaf is below `start`.
  lemma ScanFrom(o: Order, leaves: seq<Node>, k: nat, start: Option<Key>, end: Option<Key>)
    requires k < |leaves| && Brackets(o, leaves, k, 1, start)
    ensures Within(o, FlatAll(leaves), start, end) == Within(o, FlatAll(leaves[k..]), start, end)
  {
    hide FlatAll, Lt, Within;
    assert leaves == leaves[..k] + leaves[k..];
    ConcatAll(leaves[..k], leaves[k..]);
    WithinConcat(o, FlatAll(leaves[..k]), FlatAll(leaves[k..]), start, end);
    if start.Some? {
      WithinNone(o, FlatAll(leaves[..k]), start, end);
    } else {
      assert leaves[..k] == [];
      FlatAllEmpty();
      WithinNothing(o, start, end);
    }
  }

  // Follow the links from the starting leaf, remembering the leaves visited.
  method Follow(pages: PageMap, first: PageId, start: Option<Key>, end: Option<Key>, o: Order, visit: Visitor,
                ghost leaves: seq<Node>, ghost k0: nat)
    returns (seen: seq<KV>, ok: bool)
    requires k0 < |leaves| && first == leaves[k0].id && Brackets(o, leaves, k0, 1, start)
    requires Sorted(o, FlatAll(leaves)) && GoodLeaves(o, pages, leaves) && Linked(pages, RootIds(leaves))
    ensures ok && seen == Visit(visit, [], Within(o, FlatAll(leaves), start, end)).0
  {
    hide ValuesRep, ValueRep, SortedKeys, LowerBound, Has, Flat, FlatAll, Models, Within, Visit, Lt, GoodLeaf,
      GoodLeaves, Linked, Brackets;
    seen := [];
    var leaf := first;
    var visited: set<PageId> := {};
    var firstLeaf := true;
    ghost var k, all := k0, FlatAll(leaves);
    ScanFrom(o, leaves, k0, start, end);
    GoodLeafIds(o, pages, leaves);
    while leaf != 0
      invariant k0 <= k <= |leaves| && leaf == (if k < |leaves| then leaves[k].id else 0)
      invariant firstLeaf <==> k == k0
      invariant visited <= set j | 0 <= j < k :: leaves[j].id
      invariant Visit(visit, [], Within(o, all, start, end))
                == Visit(visit, seen, Within(o, FlatAll(leaves[k..]), start, end))
      decreases |leaves| - k
    {
      LinkedAreDistinct(o, pages, leaves, k);
      if leaf in visited {
        return seen, true;
      }
      visited := visited + {leaf};
      GoodLeafAt(o, pages, leaves, k);
      var p := pages[leaf];
      if end.Some? && |p.entries| > 0 {
        LtMeans(o, p.entries[0].key, end.value);
        if o.compare(p.entries[0].key, end.value) >= 0 {
          LeavesPastEnd(o, leaves, k, start, end.value);
          VisitNothing(visit, seen);
          return seen, true;
        }
      }
      KidStep(o, leaves, k, start, end, visit, seen);
      var more;
      if firstLeaf {
        seen, more := RangeLeaf(pages, p.entries, start, end, o, visit, seen, leaves[k].slots);
      } else {
        LaterLeaf(o, leaves, k0, k, start, end);
        assert PairsOf(leaves[k].slots)[0..] == PairsOf(leaves[k].slots);
        seen, more := RangeLeafSlots(pages, p.entries, 0, end, o, visit, seen, leaves[k].slots);
      }
      if !more {
        return seen, true;
      }
      firstLeaf := false;
      leaf := p.next;
      k := k + 1;
    }
    assert leaves[k..] == [];
    FlatAllEmpty();
    WithinNothing(o, start, end);
    VisitNothing(visit, seen);
    return seen, true;
  }

  lemma GoodLeafIds(o: Order, pages: PageMap, leaves: seq<Node>)
    requires GoodLeaves(o, pages, leaves)
    ensures forall i :: 0 <= i < |leaves| ==> leaves[i].id != 0
  {
    hide ValuesRep, SortedKeys;
  }

  lemma GoodLeafAt(o: Order, pages: PageMap, leaves: seq<Node>, k: nat)
    requires GoodLeaves(o, pages, leaves) && k < |leaves| && Linked(pages, RootIds(leaves))
    ensures leaves[k].Leaf? && leaves[k].slots != [] && ValuesRep(pages, leaves[k].slots)
    ensures Flat(leaves[k]) == PairsOf(leaves[k].slots) && Sorted(o, PairsOf(leaves[k].slots))
    ensures leaves[k].id in pages && pages[leaves[k].id].LeafPage?
    ensures pages[leaves[k].id].entries == EntriesOf(leaves[k].slots)
    ensures |pages[leaves[k].id].entries| > 0 && pages[leaves[k].id].entries[0].key == leaves[k].slots[0].kv.key
    ensures pages[leaves[k].id].next == if k + 1 < |leaves| then leaves[k + 1].id else 0
  {
    hide ValuesRep, SortedKeys;
    assert GoodLeaf(o, pages, leaves[k]);
    assert RootIds(leaves)[k] == leaves[k].id;
  }

  // A chain of links that ends visits no leaf twice.
  lemma {:induction false} LinkedAreDistinct(o: Order, pages: PageMap, leaves: seq<Node>, k: nat)
    requires Linked(pages, RootIds(leaves)) && k <= |leaves|
    requires forall i :: 0 <= i < |leaves| ==> leaves[i].id != 0
    ensures k < |leaves| ==> forall j :: 0 <= j < k ==> leaves[j].id != leaves[k].id
    decreases |leaves| - k
  {
    if k < |leaves| {
      LinkedAreDistinct(o, pages, leaves, k + 1);
      var ids := RootIds(leaves);
      forall j | 0 <= j < k ensures leaves[j].id != leaves[k].id {
        assert pages[ids[j]].next == ids[j + 1] && pages[ids[k]].next == NextOf(ids, k);
        assert k + 1 < |leaves| ==> leaves[j + 1].id != leaves[k + 1].id;
      }
    }
  }

  lemma LeavesPastEnd(o: Order, leaves: seq<Node>, k: nat, start: Option<Key>, end: Key)
    requires Sorted(o, FlatAll(leaves)) && k < |leaves|
    requires leaves[k].Leaf? && leaves[k].slots != [] && !Lt(o, leaves[k].slots[0].kv.key, end)
    ensures Within(o, FlatAll(leaves[k..]), start, Some(end)) == []
  {
    hide FlatAll, Lt, SortedKeys, Within;
    assert leaves == leaves[..k] + leaves[k..];
    ConcatAll(leaves[..k], leaves[k..]);
    SortedParts(o, FlatAll(leaves[..k]), FlatAll(leaves[k..]));
    FirstOfAll(leaves[k..]);
    assert Flat(leaves[k])[0] == leaves[k].slots[0].kv;
    NothingFrom(o, FlatAll(leaves[k..]), start, end);
  }

  lemma LaterLeaf(o: Order, leaves: seq<Node>, k0: nat, k: nat, start: Option<Key>, end: Option<Key>)
    requires k0 < k < |leaves| && Brackets(o, leaves, k0, 1, start)
    ensures Within(o, Flat(leaves[k]), start, end) == Within(o, Flat(leaves[k]), None, end)
  {
    hide FlatAll, Flat, Lt, Within;
    if start.Some? {
      var rest := leaves[k0 + 1..];
      Around(rest, k - k0 - 1);
      var before := FlatAll(rest[..k - k0 - 1]);
      forall j | 0 <= j < |Flat(leaves[k])| ensures !Lt(o, Flat(leaves[k])[j].key, start.value) {
        assert FlatAll(rest)[|before| + j] == Flat(leaves[k])[j];
      }
      DropStart(o, Flat(leaves[k]), start.value, end);
    }
  }
}
