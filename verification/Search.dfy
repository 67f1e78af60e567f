// Point and range reads below a root page (pagebtree/search.go).

module Search {
  import opened KeyOrder
  import opened Contents
  import opened Pages
  import opened Nodes
  import opened Overflow
  import opened Routing
  import opened Ranges
  // A node that reads can rely on: its pages spell out a tree with no empty leaf, in order.
  ghost predicate Readable(o: Order, pages: PageMap, n: Node) {
    Models(pages, n) && 0 !in Ids(n) && Solid(n) && Sorted(o, Flat(n))
  }

  lemma ReadableKids(o: Order, pages: PageMap, n: Node)
    requires Readable(o, pages, n) && n.Branch?
    ensures n.id != 0 && n.id in pages
    ensures pages[n.id] == BranchPage(Separators(n.kids), RootIds(n.kids)) && n.kids != []
    ensures SolidKids(o, n.kids) && Flat(n) == FlatAll(n.kids)
    ensures SortedKeys(o, Separators(n.kids))
    ensures forall i :: 0 <= i < |n.kids| ==> Readable(o, pages, n.kids[i])
  {
    hide ValuesRep, FlatAll, IdsAll, LeafIdsAll, Lt, SortedKeys;
    IdsBelow(n);
    SeparatorsSorted(o, n.kids);
    forall i | 0 <= i < |n.kids| ensures Readable(o, pages, n.kids[i]) {
      Around(n.kids, i);
      RoutedSorted(o, n.kids, i);
    }
  }

  lemma ReadableLeaf(o: Order, pages: PageMap, n: Node)
    requires Readable(o, pages, n) && n.Leaf?
    ensures n.id != 0 && n.slots != []
    ensures n.id in pages && pages[n.id].LeafPage? && pages[n.id].entries == EntriesOf(n.slots)
    ensures ValuesRep(pages, n.slots) && Sorted(o, PairsOf(n.slots)) && Flat(n) == PairsOf(n.slots)
  {
    hide ValuesRep, SortedKeys;
    IdsBelow(n);
  }

  function CellKeys(entries: seq<Entry>): (r: seq<Key>)
    ensures |r| == |entries|
  {
    seq(|entries|, i requires 0 <= i < |entries| => entries[i].key)
  }

  lemma CellKeysOf(slots: seq<Slot>)
    ensures CellKeys(EntriesOf(slots)) == Keys(PairsOf(slots))
  {
  }

  lemma EntryAt(pages: PageMap, slots: seq<Slot>, i: nat)
    requires ValuesRep(pages, slots) && i < |slots|
    ensures ValueRep(pages, slots[i])
    ensures EntriesOf(slots)[i].key == slots[i].kv.key && EntriesOf(slots)[i].cell == CellOf(slots[i])
    ensures PairsOf(slots)[i] == slots[i].kv
  {
  }

  // The value under a key of a leaf page.
  method SearchLeaf(pages: PageMap, p: Page, key: Key, o: Order, ghost n: Node) returns (value: Option<Bytes>)
    requires Readable(o, pages, n) && n.Leaf? && n.id in pages && p == pages[n.id] && p.LeafPage?
    ensures value == Lookup(o, Flat(n), key)
  {
    hide Readable, ValuesRep, ValueRep, SortedKeys, LowerBound, Has, Flat, Models;
    ReadableLeaf(o, pages, n);
    CellKeysOf(n.slots);
    var index, found := SearchSlot(o, CellKeys(p.entries), key);
    if !found {
      return None;
    }
    HasAt(o, PairsOf(n.slots), key);
    EntryAt(pages, n.slots, index);
    var v := ResolveValue(pages, p.entries[index].cell, n.slots[index]);
    return Some(v);
  }

  // searchPage
  method SearchPage(pages: PageMap, root: PageId, key: Key, o: Order, ghost shape: Option<Node>)
    returns (value: Option<Bytes>)
    requires root == if shape.Some? then shape.value.id else 0
    requires shape.Some? ==> Readable(o, pages, shape.value)
    ensures value == if shape.Some? then Lookup(o, Flat(shape.value), key) else None
  {
    hide Readable, ValuesRep, ValueRep, SortedKeys, LowerBound, Has, Flat, FlatAll, Models;
    if root == 0 {
      ReadableId(o, pages, shape);
      return None;
    }
    var at := root;
    ghost var n := shape.value;
    ReadableId(o, pages, shape);
    while at != 0
      invariant at == n.id && at != 0 && Readable(o, pages, n)
      invariant Lookup(o, Flat(n), key) == Lookup(o, Flat(shape.value), key)
      decreases n
    {
      ReadableShape(o, pages, n);
      var p := pages[at];
      if p.LeafPage? {
        value := SearchLeaf(pages, p, key, o, n);
        return;
      }
      ReadableKids(o, pages, n);
      var index := ChildIndex(o, p.keys, key);
      ChildIsRouted(o, n.kids, key);
      RoutedLookup(o, n.kids, index, key);
      at := p.children[index];
      n := n.kids[index];
      ReadableId(o, pages, Some(n));
    }
    return None;
  }

  lemma ReadableId(o: Order, pages: PageMap, shape: Option<Node>)
    requires shape.Some? ==> Readable(o, pages, shape.value)
    ensures shape.Some? ==> shape.value.id != 0
  {
    if shape.Some? {
      IdsBelow(shape.value);
    }
  }

  lemma ReadableShape(o: Order, pages: PageMap, n: Node)
    requires Readable(o, pages, n)
    ensures n.id in pages && (pages[n.id].LeafPage? <==> n.Leaf?)
  {
  }

  lemma RoutedLookup(o: Order, kids: seq<Node>, i: nat, key: Key)
    requires Sorted(o, FlatAll(kids)) && Routed(o, kids, i, key)
    ensures Lookup(o, FlatAll(kids), key) == Lookup(o, Flat(kids[i]), key)
  {
    RoutedUpdates(o, kids, i, key, []);
  }

  lemma HasAt(o: Order, s: seq<KV>, key: Key)
    requires Has(o, Keys(s), key)
    ensures LowerBound(o, Keys(s), key) < |s|
    ensures Lookup(o, s, key) == Some(s[LowerBound(o, Keys(s), key)].value)
  {
  }

  // ---- Range reads that walk the tree ----

  // rangeLeafSlots
  method RangeLeafSlots(pages: PageMap, entries: seq<Entry>, startIndex: nat, end: Option<Key>, o: Order,
          visit: Visitor, seen: seq<KV>, ghost slots: seq<Slot>)
    returns (seen': seq<KV>, more: bool)
    requires entries == EntriesOf(slots) && ValuesRep(pages, slots) && Sorted(o, PairsOf(slots))
             && startIndex <= |entries|
    ensures (seen', more) == Visit(visit, seen, Within(o, PairsOf(slots)[startIndex..], None, end))
  {
    hide ValuesRep, ValueRep, SortedKeys, Within, Visit, Lt;
    seen' := seen;
    ghost var s := PairsOf(slots);
    for i := startIndex to |entries|
      invariant Visit(visit, seen, Within(o, s[startIndex..], None, end))
                == Visit(visit, seen', Within(o, s[i..], None, end))
    {
      EntryAt(pages, slots, i);
      assert s[i..] == [s[i]] + s[i + 1..];
      if end.Some? {
        LtMeans(o, entries[i].key, end.value);
      }
      if end.Some? && o.compare(entries[i].key, end.value) >= 0 {
        SortedSuffix(o, s, i);
        NothingWithin(o, s[i..], end.value);
        VisitNothing(visit, seen');
        return seen', true;
      }
      var value := ResolveValue(pages, entries[i].cell, slots[i]);
      var kv := KV(entries[i].key, value);
      WithinStep(o, s[i..], None, end);
      VisitStep(visit, seen', kv, Within(o, s[i + 1..], None, end));
      seen' := seen' + [kv];
      if !visit(seen') {
        return seen', false;
      }
    }
    assert s[|entries|..] == [];
    WithinNothing(o, None, end);
    VisitNothing(visit, seen');
    return seen', true;
  }

  lemma SortedSuffix(o: Order, s: seq<KV>, i: nat)
    requires Sorted(o, s) && i <= |s|
    ensures Sorted(o, s[..i]) && Sorted(o, s[i..])
  {
    assert s == s[..i] + s[i..];
    SortedParts(o, s[..i], s[i..]);
  }

  lemma NothingWithin(o: Order, s: seq<KV>, end: Key)
    requires Sorted(o, s) && s != [] && !Lt(o, s[0].key, end)
    ensures Within(o, s, None, Some(end)) == []
  {
    NothingFrom(o, s, None, end);
  }

  lemma VisitNothing(visit: Visitor, seen: seq<KV>)
    ensures Visit(visit, seen, []) == (seen, true)
  {
  }

  lemma WithinStep(o: Order, s: seq<KV>, start: Option<Key>, end: Option<Key>)
    requires s != [] && InRange(o, s[0].key, start, end)
    ensures Within(o, s, start, end) == [s[0]] + Within(o, s[1..], start, end)
  {
  }

  lemma VisitStep(visit: Visitor, seen: seq<KV>, kv: KV, rest: seq<KV>)
    ensures Visit(visit, seen, [kv] + rest) == if visit(seen + [kv]) then Visit(visit, seen + [kv], rest)
            else (seen + [kv], false)
  {
    assert ([kv] + rest)[1..] == rest;
  }

  // The pairs of a branch that are within bounds are those of the children from the one
  // `start` is routed to.
  lemma WithinKids(o: Order, kids: seq<Node>, i: nat, start: Key, end: Option<Key>)
    requires Sorted(o, FlatAll(kids)) && Routed(o, kids, i, start)
    ensures Within(o, FlatAll(kids), Some(start), end) == Within(o, FlatAll(kids[i..]), Some(start), end)
  {
    hide FlatAll, Flat, SortedKeys, Lt, Within;
    Around(kids, i);
    FirstOfAll(kids[i..]);
    assert kids[i..][0] == kids[i] && kids[i..][1..] == kids[i + 1..];
    WithinFrom(o, FlatAll(kids[..i]), Flat(kids[i]), FlatAll(kids[i + 1..]), start, end);
  }

  lemma WithinFrom(o: Order, left: seq<KV>, mid: seq<KV>, right: seq<KV>, start: Key, end: Option<Key>)
    requires Sorted(o, left + mid + right)
    requires left == [] || (mid != [] && !Lt(o, start, mid[0].key))
    ensures Within(o, left + mid + right, Some(start), end) == Within(o, mid + right, Some(start), end)
  {
    hide SortedKeys, Lt, Within;
    assert left + mid + right == left + (mid + right);
    WithinConcat(o, left, mid + right, Some(start), end);
    SortedParts(o, left, mid + right);
    forall j | 0 <= j < |left| ensures !InRange(o, left[j].key, Some(start), end) {
      assert (mid + right)[0] == mid[0];
      BelowFirst(o, left[j].key, mid[0].key, start);
    }
    WithinNone(o, left, Some(start), end);
  }

  lemma BelowFirst(o: Order, a: Key, b: Key, key: Key)
    requires Lt(o, a, b) && !Lt(o, key, b)
    ensures Lt(o, a, key)
  {
    Trichotomy(o, key, b);
  }

  // rangePage, rangePageFrom and rangePageBetween: without a start they begin at the
  // first child or slot, without an end they never stop early.
  method RangePage(pages: PageMap, root: PageId, start: Option<Key>, end: Option<Key>, o: Order, visit: Visitor,
          seen: seq<KV>, ghost n: Node)
    returns (seen': seq<KV>, more: bool)
    requires end.Some? ==> start.Some?
    requires root == n.id && Readable(o, pages, n)
    ensures (seen', more) == Visit(visit, seen, Within(o, Flat(n), start, end))
    decreases n
  {
    hide Readable, ValuesRep, ValueRep, SortedKeys, LowerBound, Has, Flat, FlatAll, Models, Within, Visit, Lt;
    ReadableId(o, pages, Some(n));
    if end.Some? && o.compare(start.value, end.value) >= 0 {
      assert !Lt(o, start.value, end.value) by { LtMeans(o, start.value, end.value); }
      EmptyBounds(o, Flat(n), start.value, end.value);
      VisitNothing(visit, seen);
      return seen, true;
    }
    ReadableShape(o, pages, n);
    var p := pages[root];
    if p.LeafPage? {
      ReadableLeaf(o, pages, n);
      seen', more := RangeLeaf(pages, p.entries, start, end, o, visit, seen, n.slots);
      return;
    }
    ReadableKids(o, pages, n);
    var index := 0;
    if start.Some? {
      index := ChildIndex(o, p.keys, start.value);
      ChildIsRouted(o, n.kids, start.value);
      WithinKids(o, n.kids, index, start.value, end);
    } else {
      assert n.kids[0..] == n.kids;
    }
    seen' := seen;
    while index <= |p.keys|
      invariant index <= |n.kids|
      invariant Visit(visit, seen, Within(o, Flat(n), start, end))
                == Visit(visit, seen', Within(o, FlatAll(n.kids[index..]), start, end))
      decreases |n.kids| - index
    {
      if end.Some? && index > 0 && o.compare(p.keys[index - 1], end.value) >= 0 {
        LtMeans(o, p.keys[index - 1], end.value);
        KidsPastEnd(o, n.kids, index, start, end.value);
        VisitNothing(visit, seen');
        return seen', true;
      }
      KidStep(o, n.kids, index, start, end, visit, seen');
      seen', more := RangePage(pages, p.children[index], start, end, o, visit, seen', n.kids[index]);
      if !more {
        return;
      }
      index := index + 1;
    }
    assert n.kids[index..] == [];
    FlatAllEmpty();
    WithinNothing(o, start, end);
    VisitNothing(visit, seen');
    return seen', true;
  }

  method RangeLeaf(pages: PageMap, entries: seq<Entry>, start: Option<Key>, end: Option<Key>, o: Order, visit: Visitor,
          seen: seq<KV>, ghost slots: seq<Slot>)
    returns (seen': seq<KV>, more: bool)
    requires entries == EntriesOf(slots) && ValuesRep(pages, slots) && Sorted(o, PairsOf(slots))
    ensures (seen', more) == Visit(visit, seen, Within(o, PairsOf(slots), start, end))
  {
    hide ValuesRep, ValueRep, SortedKeys, Within, Visit, Lt, LowerBound, Has;
    var index := 0;
    if start.Some? {
      CellKeysOf(slots);
      var found;
      index, found := SearchSlot(o, CellKeys(entries), start.value);
      WithinIsSlice(o, PairsOf(slots), start.value, end);
    } else {
      assert PairsOf(slots)[0..] == PairsOf(slots);
    }
    seen', more := RangeLeafSlots(pages, entries, index, end, o, visit, seen, slots);
  }

  lemma KidStep(o: Order, kids: seq<Node>, i: nat, start: Option<Key>, end: Option<Key>, visit: Visitor, seen: seq<KV>)
    requires i < |kids|
    ensures var r := Visit(visit, seen, Within(o, Flat(kids[i]), start, end));
            Visit(visit, seen, Within(o, FlatAll(kids[i..]), start, end))
            == if r.1 then Visit(visit, r.0, Within(o, FlatAll(kids[i + 1..]), start, end)) else r
  {
    hide FlatAll, Flat, Within, Visit;
    FirstOfAll(kids[i..]);
    assert kids[i..][1..] == kids[i + 1..];
    WithinConcat(o, Flat(kids[i]), FlatAll(kids[i + 1..]), start, end);
    VisitConcat(visit, seen, Within(o, Flat(kids[i]), start, end), Within(o, FlatAll(kids[i + 1..]), start, end));
  }

  lemma KidsPastEnd(o: Order, kids: seq<Node>, i: nat, start: Option<Key>, end: Key)
    requires SolidKids(o, kids) && 0 < i < |kids| && !Lt(o, Separators(kids)[i - 1], end)
    ensures Within(o, FlatAll(kids[i..]), start, Some(end)) == []
  {
    hide FlatAll, Flat, FirstKey, Solid, Lt, SortedKeys, Within;
    KidOffset(kids, i);
    var rest := kids[i..];
    AllSolidNonempty(rest);
    assert kids == kids[..i] + rest;
    ConcatAll(kids[..i], rest);
    SortedParts(o, FlatAll(kids[..i]), FlatAll(rest));
    NothingFrom(o, FlatAll(rest), start, end);
  }
}
