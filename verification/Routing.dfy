// Finding the slot or the child for a key (pagebtree/search.go, page.searchSlot).

module Routing {
  import opened KeyOrder
  import opened Contents
  import opened Pages
  import opened Nodes

  // searchSlotWithComparator; slices.BinarySearchFunc finds the same slot.
  method SearchSlot(o: Order, keys: seq<Key>, key: Key) returns (index: nat, found: bool)
    requires SortedKeys(o, keys)
    ensures index == LowerBound(o, keys, key)
    ensures found <==> Has(o, keys, key)
  {
    hide LowerBound;
    var low, high := 0, |keys|;
    while low < high
      invariant low <= high <= |keys|
      invariant forall j :: 0 <= j < low ==> Lt(o, keys[j], key)
      invariant forall j :: high <= j < |keys| ==> !Lt(o, keys[j], key) && keys[j] != key
    {
      var mid := low + (high - low) / 2;
      var cmp := o.compare(keys[mid], key);
      Trichotomy(o, keys[mid], key);
      if cmp < 0 {
        forall j | low <= j < mid ensures Lt(o, keys[j], key) {
          Transitive(o, keys[j], keys[mid], key);
        }
        low := mid + 1;
      } else if cmp > 0 {
        forall j | mid < j < high ensures !Lt(o, keys[j], key) && keys[j] != key {
          Transitive(o, key, keys[mid], keys[j]);
          Trichotomy(o, key, keys[j]);
        }
        high := mid;
      } else {
        AtLowerBound(o, keys, mid);
        return mid, true;
      }
    }
    LowerBoundUnique(o, keys, key, low);
    return low, false;
  }

  // The child a branch with these separators sends a key to.
  function ChildFor(o: Order, keys: seq<Key>, key: Key): (i: nat)
    ensures i <= |keys|
  {
    LowerBound(o, keys, key) + if Has(o, keys, key) then 1 else 0
  }

  method ChildIndex(o: Order, keys: seq<Key>, key: Key) returns (index: nat)
    requires SortedKeys(o, keys)
    ensures index == ChildFor(o, keys, key)
  {
    var found;
    index, found := SearchSlot(o, keys, key);
    if found {
      index := index + 1;
    }
  }

  // The separators up to the chosen child are at most the key, the others above it.
  lemma ChildForSplits(o: Order, keys: seq<Key>, key: Key)
    requires SortedKeys(o, keys)
    ensures forall j :: 0 <= j < ChildFor(o, keys, key) ==> !Lt(o, key, keys[j])
    ensures forall j :: ChildFor(o, keys, key) <= j < |keys| ==> Lt(o, key, keys[j])
  {
    hide LowerBound;
    var m := LowerBound(o, keys, key);
    LowerBoundSplits(o, keys, key);
    forall j | 0 <= j < |keys|
      ensures if j < ChildFor(o, keys, key) then !Lt(o, key, keys[j]) else Lt(o, key, keys[j])
    {
      Trichotomy(o, key, keys[j]);
      assert m < j ==> Lt(o, keys[m], keys[j]);
    }
  }

  // The pairs of a node, seen from the child a key is routed to.
  ghost predicate Routed(o: Order, kids: seq<Node>, i: nat, key: Key) {
    && i < |kids|
    && (FlatAll(kids[..i]) == [] || (Flat(kids[i]) != [] && !Lt(o, key, Flat(kids[i])[0].key)))
    && (FlatAll(kids[i + 1..]) == [] || Lt(o, key, FlatAll(kids[i + 1..])[0].key))
  }

  // Children of a branch of height h+1 whose pairs are sorted.
  ghost predicate SortedKids(o: Order, kids: seq<Node>, h: nat, lo: nat, d: nat) {
    && kids != [] && d >= 1
    && AllFull(kids, h, lo, d)
    && Sorted(o, FlatAll(kids))
  }

  // Children that a reader can route through.
  ghost predicate SolidKids(o: Order, kids: seq<Node>) {
    kids != [] && AllSolid(kids) && Sorted(o, FlatAll(kids))
  }

  // The first pair of the i-th child, found in the pairs of all.
  lemma KidOffset(kids: seq<Node>, i: nat)
    requires AllSolid(kids) && i < |kids|
    ensures Flat(kids[i]) != [] && FirstKey(kids[i]) == Flat(kids[i])[0].key
    ensures |FlatAll(kids[..i])| < |FlatAll(kids)|
    ensures FlatAll(kids)[|FlatAll(kids[..i])|] == Flat(kids[i])[0]
  {
    hide FlatAll, Flat, FirstKey, Solid;
    SolidIsNonempty(kids[i]);
    Around(kids, i);
  }

  lemma OffsetsIncrease(kids: seq<Node>, i: nat, j: nat)
    requires AllSolid(kids) && i < j <= |kids|
    ensures |FlatAll(kids[..i])| < |FlatAll(kids[..j])|
  {
    hide FlatAll, Flat, FirstKey, Solid;
    var front := kids[..j];
    KidOffset(front, i);
    assert front[..i] == kids[..i];
  }

  lemma SeparatorsSorted(o: Order, kids: seq<Node>)
    requires SolidKids(o, kids)
    ensures SortedKeys(o, Separators(kids))
  {
    hide FlatAll, Flat, FirstKey, Solid, Lt;
    var s, all := Separators(kids), FlatAll(kids);
    forall i, j | 0 <= i < j < |s| ensures Lt(o, s[i], s[j]) {
      KidOffset(kids, i + 1);
      KidOffset(kids, j + 1);
      OffsetsIncrease(kids, i + 1, j + 1);
      assert Lt(o, Keys(all)[|FlatAll(kids[..i + 1])|], Keys(all)[|FlatAll(kids[..j + 1])|]);
    }
  }

  // Routing by separators leads to the child whose pairs surround the key.
  lemma ChildIsRouted(o: Order, kids: seq<Node>, key: Key)
    requires SolidKids(o, kids)
    ensures SortedKeys(o, Separators(kids))
    ensures Routed(o, kids, ChildFor(o, Separators(kids), key), key)
  {
    hide FlatAll, Flat, FirstKey, Solid, Lt, LowerBound;
    SeparatorsSorted(o, kids);
    ChildForSplits(o, Separators(kids), key);
    var i := ChildFor(o, Separators(kids), key);
    KidOffset(kids, i);
    if i == 0 {
      assert kids[..0] == [];
      FlatAllEmpty();
    } else {
      assert Separators(kids)[i - 1] == FirstKey(kids[i]);
    }
    if i + 1 == |kids| {
      assert kids[i + 1..] == [];
      FlatAllEmpty();
    } else {
      AllSolidNonempty(kids[i + 1..]);
      assert Separators(kids)[i] == FirstKey(kids[i + 1]);
    }
  }

  lemma SortedIsSolid(o: Order, kids: seq<Node>, h: nat, lo: nat, d: nat)
    requires SortedKids(o, kids, h, lo, d)
    ensures SolidKids(o, kids)
  {
    hide FlatAll, Full, Solid, SortedKeys;
    AllFullIsSolid(kids, h, lo, d);
  }

  lemma FlatAllEmpty()
    ensures FlatAll([]) == []
  {
  }

  // ---- What routing says about the updates ----

  lemma RoutedSorted(o: Order, kids: seq<Node>, i: nat)
    requires Sorted(o, FlatAll(kids)) && i < |kids|
    ensures Sorted(o, Flat(kids[i]))
  {
    hide FlatAll, Flat, SortedKeys;
    Around(kids, i);
    SortedParts(o, FlatAll(kids[..i]) + Flat(kids[i]), FlatAll(kids[i + 1..]));
    SortedParts(o, FlatAll(kids[..i]), Flat(kids[i]));
  }

  lemma RoutedUpdates(o: Order, kids: seq<Node>, i: nat, key: Key, value: Bytes)
    requires Sorted(o, FlatAll(kids)) && Routed(o, kids, i, key)
    ensures Upsert(o, FlatAll(kids), key, value)
            == FlatAll(kids[..i]) + Upsert(o, Flat(kids[i]), key, value) + FlatAll(kids[i + 1..])
    ensures Remove(o, FlatAll(kids), key) == FlatAll(kids[..i]) + Remove(o, Flat(kids[i]), key) + FlatAll(kids[i + 1..])
    ensures Lookup(o, FlatAll(kids), key) == Lookup(o, Flat(kids[i]), key)
    ensures Has(o, Keys(FlatAll(kids)), key) <==> Has(o, Keys(Flat(kids[i])), key)
  {
    hide FlatAll, Flat, SortedKeys, Upsert, Remove, Lookup, Has, Keys;
    Around(kids, i);
    UpsertLocal(o, FlatAll(kids[..i]), Flat(kids[i]), FlatAll(kids[i + 1..]), key, value);
    RemoveLocal(o, FlatAll(kids[..i]), Flat(kids[i]), FlatAll(kids[i + 1..]), key);
    LookupLocal(o, FlatAll(kids[..i]), Flat(kids[i]), FlatAll(kids[i + 1..]), key);
    PositionLocal(o, FlatAll(kids[..i]), Flat(kids[i]), FlatAll(kids[i + 1..]), key);
  }

  // Putting a key that is not below the first one leaves the first key in place.
  lemma UpsertKeepsFirst(o: Order, s: seq<KV>, key: Key, value: Bytes)
    requires s != [] && !Lt(o, key, s[0].key)
    ensures Upsert(o, s, key, value) != [] && Upsert(o, s, key, value)[0].key == s[0].key
  {
    Trichotomy(o, key, s[0].key);
  }

  // ---- First keys ----

  function LeftmostLeaf(n: Node): Node
    decreases n
  {
    if n.Leaf? || n.kids == [] then n else LeftmostLeaf(n.kids[0])
  }

  // firstKey: walk the leftmost path.
  method FirstKeyOf(pages: PageMap, id: PageId, ghost n: Node) returns (key: Option<Key>)
    requires n.id == id && Models(pages, n) && 0 !in Ids(n)
    ensures key == if Flat(LeftmostLeaf(n)) == [] then None else Some(FirstKey(n))
  {
    hide FlatAll, ValuesRep, IdsAll, LeafIdsAll, Separators;
    var at := id;
    ghost var m := n;
    key := None;
    IdsBelow(m);
    while at != 0
      invariant m.id == at && at != 0 && Models(pages, m) && 0 !in Ids(m)
      invariant LeftmostLeaf(m) == LeftmostLeaf(n) && FirstKey(m) == FirstKey(n)
      decreases m
    {
      var p := pages[at];
      if p.LeafPage? {
        if |p.entries| == 0 {
          return None;
        }
        return Some(p.entries[0].key);
      }
      at := p.children[0];
      Around(m.kids, 0);
      m := m.kids[0];
      IdsBelow(m);
    }
  }
}
