// Put, Delete and Get on a tree (pagebtree/tree.go, pagebtree/delete.go).

module Updates {
  import opened KeyOrder
  import opened Contents
  import opened Pages
  import opened Nodes
  import opened Trees
  import opened LeafPages
  import opened Splits
  import opened Branches
  import opened Forests
  import opened Capacity
  import opened Insertion
  import opened Layouts
  import opened Deletion
  import opened Freelist
  import opened LeafLinks
  import opened Search
  import opened Invariants

  lemma ZeroNotLive(first: PageId, s: Store, live: multiset<PageId>)
    requires Owns(first, s, live)
    ensures 0 !in live
  {
    if 0 in live {
      LiveIsNotAvailable(first, s, live, 0);
    }
  }

  // ---- Putting ----

  // A node that insertion left spells out a tree.
  lemma MakeSpells(o: Order, d: nat, first: PageId, s: Store, n: Node, h: nat, lo: nat,
          rest: multiset<PageId>)
    requires d >= 2
    requires Rep(s.pages, n) && Owns(first, s, rest + Ids(n))
    requires Balanced(n, h, lo, d) && n.Count() >= (if n.Leaf? then 1 else 2)
    requires Sorted(o, Flat(n)) && Fitting(lo, d, Flat(n))
    ensures Spells(o, d, s.pages, n.id, Some(n), h, lo) && Owns(first, s, rest + LiveIds(Some(n)))
  {
    hide Rep, Ids, SortedKeys, Fitting, Flat, Balanced, Owns;
    ZeroNotLive(first, s, rest + Ids(n));
  }

  lemma SpellsMeans(o: Order, d: nat, pages: PageMap, root: PageId, n: Node, h: nat, lo: nat)
    requires Spells(o, d, pages, root, Some(n), h, lo)
    ensures root == n.id && n.id != 0 && Rep(pages, n) && Balanced(n, h, lo, d)
            && n.Count() >= (if n.Leaf? then 1 else 2)
    ensures Sorted(o, Flat(n)) && d >= 2 && Fitting(lo, d, Flat(n)) && Readable(o, pages, n)
  {
    hide Rep, SortedKeys, Fitting, Flat, Balanced, Readable;
    SpellsReadable(o, d, pages, root, Some(n), h, lo);
  }

  lemma UpsertLength(o: Order, s: seq<KV>, key: Key, value: Bytes)
    ensures |Upsert(o, s, key, value)| == |s| + if Lookup(o, s, key).None? then 1 else 0
  {
  }

  lemma RemoveLength(o: Order, s: seq<KV>, key: Key)
    ensures |Remove(o, s, key)| == |s| - if Lookup(o, s, key).None? then 0 else 1
    ensures Lookup(o, s, key).None? <==> !Has(o, Keys(s), key)
  {
  }

  // The first leaf of an empty tree.
  method PlantRoot(t: Tree, key: Key, value: Bytes, ghost lo: nat) returns (r: Status, id: PageId, ghost n: Node)
    requires t.degree >= 2 && lo < t.degree && Owns(t.first, t.State(), t.listPages)
             && (lo >= 1 ==> KeyFits(t.degree, key))
    modifies t`pages, t`nextPage, t`free, t`reused
    ensures Frame(old(t.State()), t.State(), {}, t.revision)
    ensures r.Done? ==> Storable(key, value)
    ensures r.Panic? ==> t.growLimit.Some? || !Storable(key, value)
    ensures r.Panic? ==>
              if Exhausted(old(t.State())) then t.State() == old(t.State()) else Used(t.State()) > Used(old(t.State()))
    ensures r.Done? ==>
              && Owns(t.first, t.State(), t.listPages + LiveIds(Some(n)))
              && Spells(t.order, t.degree, t.pages, id, Some(n), 0, lo)
              && Flat(n) == [KV(key, value)]
  {
    hide Owns, Frame, MatchesAll, ChainIds, KeyFits, Rep, Spells, Available, Laid;
    ghost var s0 := t.State();
    ghost var src := [Slot(KV(key, value), [])];
    n := Leaf(0, src);
    id := 0;
    r, id := t.AllocPage(t.listPages);
    if r.Panic? {
      return;
    }
    ghost var s1 := t.State();
    t.WritePage(id, LeafPage([], 0), t.listPages + multiset{id});
    FrameTransitive(s0, s1, t.State(), {}, {id}, t.revision);
    ghost var s2 := t.State();
    FirstSlot(t.pages, key, value);
    assert t.listPages + multiset{id} + ChainIds(src) == t.listPages + multiset{id};
    ghost var slots;
    r, slots := WriteLeafEntries(t, id, [LeafEntry(key, Raw(value))], src, t.listPages);
    FrameTransitive(s0, s2, t.State(), {}, {id}, t.revision);
    FrameUses(s2, t.State(), {id}, t.revision);
    OnePairTaken(key, value);
    if r.Done? {
      if lo >= 1 {
        OneKeyFits(t.degree, KV(key, value));
      }
      n := Leaf(id, slots);
      assert t.listPages + Ids(n) == t.listPages + multiset{id} + ChainIds(slots);
      MakeSpells(t.order, t.degree, t.first, t.State(), n, 0, lo, t.listPages);
    }
  }

  // An empty tree takes exactly the storable pairs.
  lemma EmptyTakes(o: Order, d: nat, key: Key, value: Bytes)
    ensures Takes(o, d, None, key, value) <==> Storable(key, value)
  {
    hide LeafTakes, Storable;
    OnePairTaken(key, value);
  }

  lemma FirstSlot(pages: PageMap, key: Key, value: Bytes)
    ensures MatchesAll(pages, [LeafEntry(key, Raw(value))], [Slot(KV(key, value), [])])
    ensures ChainIds([Slot(KV(key, value), [])]) == multiset{}
    ensures PairsOf([Slot(KV(key, value), [])]) == [KV(key, value)]
  {
    ChainIdsOne(Slot(KV(key, value), []));
  }

  lemma OneKeyFits(d: nat, kv: KV)
    requires d >= 2 && KeyFits(d, kv.key)
    ensures KeysFit(d, [kv])
  {
  }

  // A root of two children has room for their separator, as that is the key of a stored pair.
  lemma RootHasRoom(pages: PageMap, right: Node, h: nat, lo: nat, d: nat)
    requires Rep(pages, right) && Full(right, h, lo, d) && d >= 1
    ensures BranchBytes([FirstKey(right)]) <= PAGE_SIZE
  {
    hide Rep, Full, Flat, FirstKey;
    StoredPairs(pages, right);
    FullIsNonempty(right, h, lo, d);
    assert Storable(Flat(right)[0].key, Flat(right)[0].value);
    OneSeparatorBytes(FirstKey(right));
  }

  // Put a new root over the two halves of a split one.
  method GrowRoot(t: Tree, separator: Key, leftId: PageId, rightId: PageId, ghost left: Node, ghost right: Node,
          ghost h: nat, ghost lo: nat)
    returns (r: Status, id: PageId)
    requires t.degree >= 2 && lo < t.degree
    requires left.id == leftId && right.id == rightId && FirstKey(right) == separator
    requires Rep(t.pages, left) && Rep(t.pages, right) && Owns(t.first, t.State(), t.listPages + Ids(left) + Ids(right))
    requires Full(left, h, lo, t.degree) && Full(right, h, lo, t.degree)
    requires Sorted(t.order, Flat(left) + Flat(right)) && Fitting(lo, t.degree, Flat(left) + Flat(right))
    modifies t`pages, t`nextPage, t`free, t`reused
    ensures Frame(old(t.State()), t.State(), {}, t.revision)
    ensures t.growLimit.None? ==> r.Done?
    ensures r.Done? ==>
              var n := Branch(id, [left, right]);
              && Owns(t.first, t.State(), t.listPages + LiveIds(Some(n)))
              && Spells(t.order, t.degree, t.pages, id, Some(n), h + 1, lo)
              && Flat(n) == Flat(left) + Flat(right)
  {
    hide Owns, Frame, Rep, RepAll, Spells, Available, Full, AllFull, Balanced, Flat, FlatAll, Ids, IdsAll, LeafIdsAll,
      SortedKeys, KeysFit, Fitting, FirstKey, LiveIds, Exhausted, BranchBytes;
    ghost var s0 := t.State();
    ghost var kids := [left, right];
    RootHasRoom(t.pages, right, h, lo, t.degree);
    TwoKids(t.pages, left, right, h, lo, t.degree, t.listPages);
    id := 0;
    r, id := t.AllocPage(t.listPages + Ids(left) + Ids(right));
    if r.Panic? {
      return;
    }
    ghost var s1 := t.State();
    KeepAll(t.first, s0, s1, {}, t.revision, kids, t.listPages);
    OfBranch(id, kids);
    assert t.listPages + Ids(left) + Ids(right) + multiset{id} == t.listPages + Ids(Branch(id, kids));
    t.WritePage(id, BranchPage([], [0]), t.listPages + Ids(Branch(id, kids)));
    FrameTransitive(s0, s1, t.State(), {}, {id}, t.revision);
    ghost var s2 := t.State();
    assert t.listPages + Ids(Branch(id, kids)) == (t.listPages + multiset{id}) + IdsAll(kids);
    KeepAll(t.first, s1, s2, {id}, t.revision, kids, t.listPages + multiset{id});
    assert [leftId, rightId] == RootIds(kids) && [separator] == Separators(kids);
    r := WriteKids(t, id, [separator], [leftId, rightId], kids, h, lo, t.listPages);
    FrameTransitive(s0, s2, t.State(), {}, {id}, t.revision);
    if r.Done? {
      TwoKidsSpell(t.order, t.degree, t.first, t.State(), id, left, right, h, lo, t.listPages);
    }
  }

  lemma TwoKids(pages: PageMap, left: Node, right: Node, h: nat, lo: nat, d: nat,
          rest: multiset<PageId>)
    requires Full(left, h, lo, d) && Full(right, h, lo, d)
    requires Rep(pages, left) && Rep(pages, right)
    ensures RepAll(pages, [left, right]) && AllFull([left, right], h, lo, d)
    ensures FlatAll([left, right]) == Flat(left) + Flat(right)
    ensures IdsAll([left, right]) == Ids(left) + Ids(right)
    ensures rest + IdsAll([left, right]) == rest + Ids(left) + Ids(right)
  {
    hide Rep, Full, Flat, Ids, LeafIdsAll;
    assert [left, right] == [left] + [right];
    ConcatAll([left], [right]);
    One(left);
    One(right);
  }

  lemma TwoKidsSpell(o: Order, d: nat, first: PageId, s: Store, id: PageId, left: Node, right: Node, h: nat, lo: nat,
          rest: multiset<PageId>)
    requires d >= 2 && Full(left, h, lo, d) && Full(right, h, lo, d)
    requires Rep(s.pages, Branch(id, [left, right])) && Owns(first, s, rest + Ids(Branch(id, [left, right])))
    requires Sorted(o, Flat(left) + Flat(right)) && Fitting(lo, d, Flat(left) + Flat(right))
    ensures var n := Branch(id, [left, right]);
            Spells(o, d, s.pages, id, Some(n), h + 1, lo) && Owns(first, s, rest + LiveIds(Some(n)))
              && Flat(n) == Flat(left) + Flat(right)
  {
    hide Owns, Rep, Spells, Full, Flat, FlatAll, Ids, IdsAll, LeafIdsAll, SortedKeys, Fitting, Balanced;
    var n := Branch(id, [left, right]);
    OfBranch(id, [left, right]);
    PairAll(left, right);
    TwoKidsBalanced(id, left, right, h, lo, d);
    MakeSpells(o, d, first, s, n, h + 1, lo, rest);
  }

  lemma TwoKidsBalanced(id: PageId, left: Node, right: Node, h: nat, lo: nat, d: nat)
    requires Full(left, h, lo, d) && Full(right, h, lo, d) && d >= 2
    ensures Balanced(Branch(id, [left, right]), h + 1, lo, d)
  {
  }

  // Make a staged tree the current one.
  method Install(t: Tree, root: PageId, length: nat, ghost shape: Option<Node>, ghost h: nat, ghost s0: Store,
          ghost lo: nat)
    requires t.degree >= 2 && lo < t.degree && length == |PairsIn(shape)|
    requires Owns(t.first, t.State(), t.listPages + LiveIds(shape))
             && Spells(t.order, t.degree, t.pages, root, shape, h, lo)
    requires Pinned(t.order, t.degree, s0, t.revision, t.readers, t.pins) && Frame(s0, t.State(), {}, t.revision)
    requires (forall k :: k in t.pins ==> k < t.tickets) && RetiredUpTo(s0.retired, t.revision)
    modifies t`root, t`length, t`shape, t`height
    ensures Staged(t, lo)
    ensures t.root == root && t.length == length && t.shape == shape && t.height == h
  {
    hide Owns, Frame, Spells, Pinned, PairsIn, RetiredUpTo;
    FrameRetiresUpTo(s0, t.State(), t.revision);
    t.root, t.length := root, length;
    t.shape, t.height := shape, h;
    FrameKeepsPins(t.order, t.degree, s0, t.State(), t.revision, t.readers, t.pins);
  }

  // putStaged
  method PutStaged(t: Tree, key: Key, value: Bytes, ghost lo: nat)
    returns (r: Status, previous: Option<Bytes>, changed: bool)
    requires Staged(t, lo) && (lo >= 1 ==> KeyFits(t.degree, key))
    modifies t`pages, t`nextPage, t`free, t`retired, t`reused, t`root, t`length, t`shape, t`height
    ensures Frame(old(t.State()), t.State(), {}, t.revision)
    ensures t.closed || t.readOnly ==>
              r.Done? && !changed && previous == None && t.State() == old(t.State()) && Pairs(t) == old(Pairs(t))
    ensures !t.closed && !t.readOnly && r.Done? ==>
              && changed && previous == Lookup(t.order, old(Pairs(t)), key)
              && Pairs(t) == Upsert(t.order, old(Pairs(t)), key, value)
    ensures r.Done? ==> Staged(t, lo)
    ensures !changed ==>
              t.root == old(t.root) && t.shape == old(t.shape) && t.height == old(t.height) && t.length == old(t.length)
    ensures r.Panic? ==> !changed && Damaged(t, old(t.State()))
    ensures NeverPanics(t, old(Pairs(t)), key) ==> r.Done?
    ensures r.Done? && changed ==> Takes(t.order, t.degree, old(t.shape), key, value)
    ensures r.Panic? ==> t.growLimit.Some? || !Takes(t.order, t.degree, old(t.shape), key, value)
    ensures r.Done? && changed && old(t.shape).Some? && old(t.shape).value.Branch? ==>
              Used(t.State()) >= Used(old(t.State())) + 2
    ensures r.Done? && changed && old(t.shape).Some? ==> |t.retired| > |old(t.retired)|
  {
    hide Owns, Frame, Spells, Pinned, Upsert, Lookup, SortedKeys, KeysFit, Fitting, KeyFits, Flat, Available, Ids, Rep,
      Balanced, Readable, Keys, Has, LowerBound, Takes;
    ghost var s0 := t.State();
    FrameReflexive(s0, t.revision);
    previous, changed := None, false;
    if t.closed || t.readOnly {
      return Done, None, false;
    }
    ghost var pairs0 := Pairs(t);
    RootMeans(t.order, t.degree, t.pages, t.root, t.shape, t.height, lo);
    if t.root == 0 {
      var id;
      ghost var n;
      if KeyFits(t.degree, key) {
        KeyFitsIsStorable(t.degree, key, value);
      }
      EmptyTakes(t.order, t.degree, key, value);
      assert t.listPages + LiveIds(t.shape) == t.listPages;
      r, id, n := PlantRoot(t, key, value, lo);
      if r.Panic? {
        if !Exhausted(s0) {
          LostPage(t.first, s0, t.State(), t.listPages + LiveIds(t.shape));
        }
        return;
      }
      UpsertEmpty(t.order, key, value);
      Install(t, id, 1, Some(n), 0, s0, lo);
      return Done, None, true;
    }
    ghost var n := t.shape.value;
    SpellsMeans(t.order, t.degree, t.pages, t.root, n, t.height, lo);
    UpsertSorted(t.order, Flat(n), key, value);
    if KeysFit(t.degree, Flat(n)) && KeyFits(t.degree, key) {
      UpsertKeysFit(t.order, t.degree, Flat(n), key, value);
    }
    UpsertFitting(t.order, lo, t.degree, Flat(n), key, value);
    UpsertLength(t.order, Flat(n), key, value);
    var rootId;
    ghost var n', h';
    r, rootId, previous, n', h' := PutBelowRoot(t, key, value, lo);
    if r.Panic? {
      return;
    }
    changed := true;
    var length := t.length;
    if previous.None? {
      length := length + 1;
    }
    Install(t, rootId, length, Some(n'), h', s0, lo);
  }

  lemma RootMeans(o: Order, d: nat, pages: PageMap, root: PageId, shape: Option<Node>, h: nat, lo: nat)
    requires Spells(o, d, pages, root, shape, h, lo)
    ensures root == 0 <==> shape.None?
  {
    hide Rep, SortedKeys, KeysFit, Flat, Balanced;
    if shape.Some? {
      IdsBelow(shape.value);
    }
  }

  lemma UpsertEmpty(o: Order, key: Key, value: Bytes)
    ensures Upsert(o, [], key, value) == [KV(key, value)] && Lookup(o, [], key) == None
  {
  }

  // Copy the root, insert below the copy, and grow the tree if the copy was split.
  method PutBelowRoot(t: Tree, key: Key, value: Bytes, ghost lo: nat)
    returns (r: Status, rootId: PageId, previous: Option<Bytes>, ghost n': Node, ghost h': nat)
    requires t.degree >= 2 && lo < t.degree && t.shape.Some?
    requires Owns(t.first, t.State(), t.listPages + LiveIds(t.shape))
    requires Spells(t.order, t.degree, t.pages, t.root, t.shape, t.height, lo)
    requires var after := Upsert(t.order, Flat(t.shape.value), key, value);
             Sorted(t.order, after) && Fitting(lo, t.degree, after)
    modifies t`pages, t`nextPage, t`free, t`retired, t`reused
    ensures Frame(old(t.State()), t.State(), {}, t.revision)
    ensures NeverPanics(t, Flat(t.shape.value), key) ==> r.Done?
    ensures r.Done? ==> Takes(t.order, t.degree, t.shape, key, value)
    ensures r.Panic? ==> t.growLimit.Some? || !Takes(t.order, t.degree, t.shape, key, value)
    ensures r.Panic? ==> Damaged(t, old(t.State()))
    ensures r.Done? && t.shape.value.Branch? ==> Used(t.State()) >= Used(old(t.State())) + 2
    ensures r.Done? ==> |t.retired| > |old(t.retired)|
    ensures r.Done? ==>
              && previous == Lookup(t.order, Flat(t.shape.value), key)
              && Owns(t.first, t.State(), t.listPages + LiveIds(Some(n')))
              && Spells(t.order, t.degree, t.pages, rootId, Some(n'), h', lo)
              && Flat(n') == Upsert(t.order, Flat(t.shape.value), key, value)
  {
    hide Owns, Frame, Spells, Upsert, Lookup, SortedKeys, KeysFit, Fitting, KeyFits, Flat, Available, Ids, Balanced,
      Rep, Full, FirstKey, RetiredIds, PutGrowth, Inserted;
    ghost var s0 := t.State();
    ghost var n := t.shape.value;
    if NeverPanics(t, Flat(n), key) {
      UpsertKeysFit(t.order, t.degree, Flat(n), key, value);
    }
    n', h', previous := n, t.height, None;
    SpellsMeans(t.order, t.degree, t.pages, t.root, n, t.height, lo);
    assert t.listPages + LiveIds(t.shape) == t.listPages + Ids(n);
    rootId := t.root;
    r, rootId := CopyNode(t, t.root, n, t.listPages);
    if r.Panic? {
      return;
    }
    ghost var s1, m := t.State(), WithId(n, rootId);
    WithIdSame(n, rootId);
    GrowthWithId(t.order, t.degree, n, rootId, key, value);
    RetiredAppend(s0.retired, RetiredPage(n.id, t.revision));
    var split;
    ghost var left, right;
    r, previous, split, left, right := Insert(t, rootId, key, value, m, t.height, lo, t.listPages);
    ghost var s2 := t.State();
    FrameTransitive(s0, s1, s2, {}, {rootId}, t.revision);
    FrameUses(s1, s2, {rootId}, t.revision);
    if r.Panic? {
      RootRetired(t, s1, s2, {rootId}, n);
      return;
    }
    ghost var copy := rootId;
    r, rootId, n', h' := NewRoot(t, rootId, split, m, key, value, left, right, lo);
    FrameTransitive(s0, s2, t.State(), {}, {}, t.revision);
    FrameUses(s2, t.State(), {}, t.revision);
    RetiredIdsGrow(s1, s2, {copy}, t.revision, n.id);
    if r.Panic? {
      RootRetired(t, s2, t.State(), {}, n);
    }
  }

  // The root after insertion below its copy: the copy, or a new one over its two halves.
  method NewRoot(t: Tree, copy: PageId, split: Option<SplitResult>, ghost m: Node, ghost key: Key, ghost value: Bytes,
          ghost left: Node, ghost right: Node, ghost lo: nat)
    returns (r: Status, rootId: PageId, ghost n': Node, ghost h': nat)
    requires t.degree >= 2 && lo < t.degree && m.id == copy && m.Count() >= (if m.Leaf? then 1 else 2)
    requires Inserted(t, t.State(), m, key, value, t.height, lo, t.listPages, split, left, right)
    requires var after := Upsert(t.order, Flat(m), key, value);
             Sorted(t.order, after) && Fitting(lo, t.degree, after)
    modifies t`pages, t`nextPage, t`free, t`reused
    ensures Frame(old(t.State()), t.State(), {}, t.revision)
    ensures t.growLimit.None? ==> r.Done?
    ensures r.Done? ==>
              && Owns(t.first, t.State(), t.listPages + LiveIds(Some(n')))
              && Spells(t.order, t.degree, t.pages, rootId, Some(n'), h', lo)
              && Flat(n') == Upsert(t.order, Flat(m), key, value)
  {
    hide Owns, Frame, Spells, Upsert, SortedKeys, Fitting, Flat, Ids, Balanced, Rep, Full, FirstKey, LiveIds;
    FrameReflexive(t.State(), t.revision);
    r, rootId, n', h' := Done, copy, left, t.height;
    match split
    case None =>
      MakeSpells(t.order, t.degree, t.first, t.State(), left, t.height, lo, t.listPages);
    case Some(cut) =>
      r, rootId := GrowRoot(t, cut.separator, copy, cut.right, left, right, t.height, lo);
      n', h' := Branch(rootId, [left, right]), t.height + 1;
  }

  // After a panic that allocation had no part in, or not at once, pages are lost or the
  // root is retired: the store and the tree no longer go together.
  ghost predicate Damaged(t: Tree, before: Store)
    reads t
  {
    if Exhausted(before) then t.State() == before else !Owns(t.first, t.State(), t.listPages + LiveIds(t.shape))
  }

  lemma RetiredIdsGrow(s: Store, s': Store, own: set<PageId>, revision: nat, id: PageId)
    requires Frame(s, s', own, revision) && id in RetiredIds(s.retired)
    ensures id in RetiredIds(s'.retired)
  {
    var i :| 0 <= i < |s.retired| && RetiredIds(s.retired)[i] == id;
    assert RetiredIds(s'.retired)[i] == id;
  }

  lemma RootRetired(t: Tree, s: Store, s': Store, own: set<PageId>, n: Node)
    requires t.shape == Some(n) && s' == t.State() && Frame(s, s', own, t.revision) && n.id in RetiredIds(s.retired)
    ensures !Owns(t.first, t.State(), t.listPages + LiveIds(t.shape))
  {
    hide Owns, Frame, RetiredIds;
    IdsBelow(n);
    RetiredLivePage(t.first, s, s', own, t.revision, t.listPages + LiveIds(t.shape), n.id);
  }

  lemma UpsertFitting(o: Order, lo: nat, d: nat, s: seq<KV>, key: Key, value: Bytes)
    requires d >= 2 && Fitting(lo, d, s) && (lo >= 1 ==> KeyFits(d, key))
    ensures Fitting(lo, d, Upsert(o, s, key, value))
  {
    hide KeyFits, KeysFit, Upsert;
    if lo >= 1 {
      UpsertKeysFit(o, d, s, key, value);
    }
  }

  // ---- Deleting ----

  // The node that is left when single-child branches and an empty leaf are taken off the top.
  ghost predicate Collapsed(n: Node, h: nat, shape: Option<Node>, h': nat, lo: nat, d: nat) {
    && PairsIn(shape) == Flat(n) && ListsIn(shape) == LeafLists(n)
    && (shape.Some? ==>
          && Balanced(shape.value, h', lo, d) && h' <= h
          && shape.value.Count() >= (if shape.value.Leaf? then 1 else 2)
          && (HalfLeaves(d, shape.value) <==> HalfLeaves(d, n)))
  }

  // collapseRoot
  method CollapseRoot(t: Tree, rootId: PageId, ghost n: Node, ghost h: nat, ghost lo: nat)
    returns (root: PageId, ghost shape: Option<Node>, ghost h': nat)
    requires t.degree >= 2 && lo < t.degree
    requires n.id == rootId && Rep(t.pages, n) && Owns(t.first, t.State(), t.listPages + Ids(n))
    requires n == Leaf(n.id, []) || Balanced(n, h, lo, t.degree)
    modifies t`retired
    ensures Frame(old(t.State()), t.State(), {}, t.revision)
    ensures Owns(t.first, t.State(), t.listPages + LiveIds(shape)) && root == RootOf(shape)
    ensures shape.Some? ==> Rep(t.pages, shape.value)
    ensures Collapsed(n, h, shape, h', lo, t.degree)
  {
    hide Owns, Frame, Rep, Balanced, Flat, FlatAll, Ids, IdsAll, Collapsed, HalfLeaves,
      LeafLists, LeafListsAll;
    ghost var s0 := t.State();
    FrameReflexive(s0, t.revision);
    root, shape, h' := rootId, Some(n), h;
    ghost var m := n;
    LiveRootNonzero(t.first, t.State(), m, t.listPages);
    while root != 0
      invariant root == m.id && root != 0 && shape == Some(m)
      invariant Rep(t.pages, m) && Owns(t.first, t.State(), t.listPages + Ids(m)) && h' <= h
      invariant m == Leaf(m.id, []) || Balanced(m, h', lo, t.degree)
      invariant Flat(m) == Flat(n) && (HalfLeaves(t.degree, m) <==> HalfLeaves(t.degree, n))
      invariant LeafLists(m) == LeafLists(n)
      invariant Frame(s0, t.State(), {}, t.revision)
      decreases m
    {
      RepKind(t.pages, m);
      var p := t.pages[root];
      ghost var s1 := t.State();
      if p.LeafPage? {
        if |p.entries| == 0 {
          EmptyLeaf(m);
          assert t.listPages + Ids(m) == t.listPages + multiset{m.id};
          t.RetirePage(root, t.listPages);
          FrameTransitive(s0, s1, t.State(), {}, {}, t.revision);
          CollapsedToNothing(n, m, h, h', lo, t.degree);
          assert t.listPages + LiveIds(None) == t.listPages;
          return 0, None, h';
        }
        CollapsedHere(n, m, h, h', lo, t.degree);
        return;
      }
      if |p.children| == 1 {
        OnlyChild(t.pages, m, h', lo, t.degree);
        OnlyChildHalf(t.degree, m);
        assert t.listPages + Ids(m) == t.listPages + Ids(m.kids[0]) + multiset{m.id};
        t.RetirePage(root, t.listPages + Ids(m.kids[0]));
        FrameTransitive(s0, s1, t.State(), {}, {}, t.revision);
        root := p.children[0];
        m, h' := m.kids[0], h' - 1;
        shape := Some(m);
        LiveRootNonzero(t.first, t.State(), m, t.listPages);
      } else {
        CollapsedHere(n, m, h, h', lo, t.degree);
        return;
      }
    }
  }

  lemma RepKind(pages: PageMap, n: Node)
    requires Rep(pages, n)
    ensures n.id in pages
    ensures n.Leaf? ==> pages[n.id].LeafPage? && |pages[n.id].entries| == |n.slots|
    ensures n.Branch? ==> pages[n.id].BranchPage? && pages[n.id].children == RootIds(n.kids) && n.kids != []
  {
  }

  lemma EmptyLeaf(n: Node)
    requires n.Leaf? && n.slots == []
    ensures Flat(n) == [] && Ids(n) == multiset{n.id}
  {
  }

  lemma OnlyChild(pages: PageMap, n: Node, h: nat, lo: nat, d: nat)
    requires n.Branch? && |n.kids| == 1 && Rep(pages, n) && Balanced(n, h, lo, d)
    ensures h > 0 && Rep(pages, n.kids[0]) && Balanced(n.kids[0], h - 1, lo, d)
    ensures LeafLists(n) == LeafLists(n.kids[0])
    ensures Flat(n) == Flat(n.kids[0]) && Ids(n) == multiset{n.id} + Ids(n.kids[0])
  {
    hide Rep, Full, FlatAll, IdsAll, LeafIdsAll, Flat, Ids, LeafLists, LeafListsAll;
    BranchRepOf(pages, n);
    BalancedKid(n, h, lo, d);
    OfBranch(n.id, n.kids);
    One(n.kids[0]);
    ListsOfBranch(n);
    ListsOne(n.kids[0]);
    assert n.kids == [n.kids[0]];
  }

  lemma OnlyChildHalf(d: nat, n: Node)
    requires n.Branch? && |n.kids| == 1
    ensures HalfLeaves(d, n) <==> HalfLeaves(d, n.kids[0])
  {
  }

  lemma BalancedKid(n: Node, h: nat, lo: nat, d: nat)
    requires n.Branch? && |n.kids| == 1 && Balanced(n, h, lo, d)
    ensures h > 0 && Balanced(n.kids[0], h - 1, lo, d)
  {
    FullIffBalanced(n.kids[0], h - 1, lo, d);
  }

  lemma CollapsedToNothing(n: Node, m: Node, h: nat, h': nat, lo: nat, d: nat)
    requires Flat(m) == Flat(n) && LeafLists(m) == LeafLists(n) && m.Leaf? && m.slots == []
    ensures Collapsed(n, h, None, h', lo, d)
  {
  }

  lemma CollapsedHere(n: Node, m: Node, h: nat, h': nat, lo: nat, d: nat)
    requires Flat(m) == Flat(n) && LeafLists(m) == LeafLists(n) && Balanced(m, h', lo, d) && h' <= h
             && m.Count() >= (if m.Leaf? then 1 else 2)
    requires HalfLeaves(d, m) <==> HalfLeaves(d, n)
    ensures Collapsed(n, h, Some(m), h', lo, d)
  {
  }

  // Get below the current root.
  method Find(t: Tree, key: Key, ghost lo: nat) returns (value: Option<Bytes>)
    requires Staged(t, lo)
    ensures value == Lookup(t.order, Pairs(t), key)
  {
    hide Owns, Spells, Pinned, Readable, Flat;
    if t.shape.Some? {
      SpellsMeans(t.order, t.degree, t.pages, t.root, t.shape.value, t.height, lo);
    }
    RootMeans(t.order, t.degree, t.pages, t.root, t.shape, t.height, lo);
    value := SearchPage(t.pages, t.root, key, t.order, t.shape);
  }

  // Copy the root, delete below the copy, and take an idle top off the tree.
  method DeleteBelowRoot(t: Tree, key: Key, ghost lo: nat)
    returns (r: Status, root: PageId, ghost shape: Option<Node>, ghost h': nat)
    requires t.degree >= 2 && lo < t.degree && t.shape.Some?
    requires Has(t.order, Keys(Flat(t.shape.value)), key) && RoomFor(lo, t.degree, Flat(t.shape.value))
    requires Owns(t.first, t.State(), t.listPages + LiveIds(t.shape))
    requires Spells(t.order, t.degree, t.pages, t.root, t.shape, t.height, lo)
    modifies t`pages, t`nextPage, t`free, t`retired, t`reused
    ensures Frame(old(t.State()), t.State(), {}, t.revision)
    ensures t.growLimit.None? && KeysFit(t.degree, Flat(t.shape.value)) ==> r.Done?
    ensures r.Panic? ==> Damaged(t, old(t.State()))
    ensures r.Done? ==>
              && Owns(t.first, t.State(), t.listPages + LiveIds(shape))
              && Spells(t.order, t.degree, t.pages, root, shape, h', lo)
              && PairsIn(shape) == Remove(t.order, Flat(t.shape.value), key)
              && |t.retired| > |old(t.retired)|
              && Settled(t.order, t.degree, t.repairPercent, t.shape.value, t.height, key, ListsIn(shape))
              && (HalfBelow(t.degree, t.shape.value) ==>
                    (HalfFull(t.degree, shape) <==> StaysHalf(t.order, t.degree, t.shape.value, t.height, key)))
  {
    hide Owns, Frame, Spells, Remove, Lookup, SortedKeys, KeysFit, Fitting, Flat, Available, Ids, Balanced, Rep, Full,
      Collapsed, Has, RoomFor, Readable,
      StaysHalf, HalfBelow, HalfFull, HalfLeaves, Dropped, RetiredIds, Lighter, Settled, ListsIn, LeafLists;
    ghost var s0 := t.State();
    ghost var n := t.shape.value;
    root, shape, h' := t.root, t.shape, t.height;
    SpellsMeans(t.order, t.degree, t.pages, t.root, n, t.height, lo);
    assert t.listPages + LiveIds(t.shape) == t.listPages + Ids(n);
    var rootId;
    r, rootId := CopyNode(t, t.root, n, t.listPages);
    if r.Panic? {
      return;
    }
    ghost var s1, m := t.State(), WithId(n, rootId);
    WithIdSame(n, rootId);
    SettledWithId(t.order, t.degree, t.repairPercent, n, rootId, t.height, key);
    RetiredAppend(s0.retired, RetiredPage(n.id, t.revision));
    RoomMeansFitting(lo, t.degree, Flat(n));
    ghost var n';
    r, n' := DeleteFrom(t, rootId, key, m, t.height, lo, t.listPages);
    ghost var s2 := t.State();
    FrameTransitive(s0, s1, s2, {}, {rootId}, t.revision);
    FrameUses(s1, s2, {rootId}, t.revision);
    if r.Panic? {
      RootRetired(t, s1, s2, {rootId}, n);
      return;
    }
    LighterMeans(m, n', t.height, lo, t.degree);
    root, shape, h' := CollapseRoot(t, rootId, n', t.height, lo);
    CollapsedLists(n', t.height, shape, h', lo, t.degree);
    FrameTransitive(s0, s2, t.State(), {}, {}, t.revision);
    FrameUses(s2, t.State(), {}, t.revision);
    RootDeleted(t, n, rootId, key, n', shape, h', lo);
  }

  lemma CollapsedLists(n: Node, h: nat, shape: Option<Node>, h': nat, lo: nat, d: nat)
    requires Collapsed(n, h, shape, h', lo, d)
    ensures ListsIn(shape) == LeafLists(n)
  {
  }

  lemma SettledWithId(o: Order, d: nat, percent: nat, n: Node, id: PageId, h: nat, key: Key)
    ensures forall after ::
              Settled(o, d, percent, WithId(n, id), h, key, after) <==> Settled(o, d, percent, n, h, key, after)
  {
    hide Site, SettledAt, LeafListsAll, Dropped;
  }

  lemma LighterMeans(n: Node, n': Node, h: nat, lo: nat, d: nat)
    requires Lighter(n, n', h, lo, d) && n'.id == n.id
    ensures n' == Leaf(n'.id, []) || Balanced(n', h, lo, d)
  {
  }

  lemma RootDeleted(t: Tree, n: Node, rootId: PageId, key: Key, n': Node, shape: Option<Node>, h': nat, lo: nat)
    requires t.degree >= 2 && Balanced(n, t.height, lo, t.degree) && n.Count() >= (if n.Leaf? then 1 else 2)
    requires Sorted(t.order, Flat(n)) && Fitting(lo, t.degree, Flat(n))
    requires var m := WithId(n, rootId);
             && Flat(n') == Remove(t.order, Flat(n), key) && Lighter(m, n', t.height, lo, t.degree)
             && (m.Branch? && HalfBelow(t.degree, m) ==>
               (HalfBelow(t.degree, n') <==> StaysHalf(t.order, t.degree, m, t.height, key)))
    requires Collapsed(n', t.height, shape, h', lo, t.degree) && Owns(t.first, t.State(), t.listPages + LiveIds(shape))
    requires shape.Some? ==> Rep(t.pages, shape.value)
    ensures Spells(t.order, t.degree, t.pages, RootOf(shape), shape, h', lo)
            && PairsIn(shape) == Remove(t.order, Flat(n), key)
    ensures HalfBelow(t.degree, n) ==> (HalfFull(t.degree, shape) <==> StaysHalf(t.order, t.degree, n, t.height, key))
  {
    hide Owns, Spells, Remove, SortedKeys, Fitting, Flat, Balanced, Rep, Collapsed, StaysHalf, HalfBelow, HalfFull,
      HalfLeaves, Lighter, Solid, Ids, ListsIn, LeafLists;
    RemoveSorted(t.order, Flat(n), key);
    RemoveFitting(t.order, lo, t.degree, Flat(n), key);
    CollapsedSpells(t.order, t.degree, t.first, t.State(), n', t.height, shape, h', lo, t.listPages);
    BalancedIsSolid(n, t.height, lo, t.degree);
    WithIdSame(n, rootId);
    StaysHalfWithId(t.order, t.degree, n, rootId, t.height, key);
    CollapsedHalf(t.order, t.degree, WithId(n, rootId), t.height, key, n', shape, h', lo);
  }

  lemma RemoveFitting(o: Order, lo: nat, d: nat, s: seq<KV>, key: Key)
    requires d >= 2 && Fitting(lo, d, s)
    ensures Fitting(lo, d, Remove(o, s, key))
  {
    hide KeysFit, Remove;
    if lo >= 1 {
      RemoveKeysFit(o, d, s, key);
    }
  }

  // ---- Leaves that are at least half full ----

  // Every leaf but a root has at least d-1 keys.
  ghost predicate HalfFull(d: nat, shape: Option<Node>) {
    shape.Some? ==> HalfBelow(d, shape.value)
  }

  lemma {:induction false} HalfIsFull(n: Node, h: nat, lo: nat, d: nat)
    requires d >= 2 && 1 <= lo
    ensures Full(n, h, lo, d) && HalfLeaves(d, n) ==> Full(n, h, d - 1, d)
    ensures Full(n, h, d - 1, d) ==> HalfLeaves(d, n)
    decreases n
  {
    if n.Branch? && h > 0 {
      forall i | 0 <= i < |n.kids|
        ensures Full(n.kids[i], h - 1, lo, d) && HalfLeaves(d, n.kids[i]) ==> Full(n.kids[i], h - 1, d - 1, d)
        ensures Full(n.kids[i], h - 1, d - 1, d) ==> HalfLeaves(d, n.kids[i])
      {
        HalfIsFull(n.kids[i], h - 1, lo, d);
      }
    }
  }

  // Half-full leaves are what the least fill d-1 asks of a tree.
  lemma HalfIsBalanced(n: Node, h: nat, lo: nat, d: nat)
    requires d >= 2 && 1 <= lo && Balanced(n, h, lo, d)
    ensures HalfBelow(d, n) <==> Balanced(n, h, d - 1, d)
  {
    if n.Branch? {
      forall i | 0 <= i < |n.kids|
        ensures HalfLeaves(d, n.kids[i]) <==> Full(n.kids[i], h - 1, d - 1, d)
      {
        HalfIsFull(n.kids[i], h - 1, lo, d);
      }
    }
  }

  lemma {:induction false} HalfSize(d: nat, n: Node)
    requires d >= 2 && HalfLeaves(d, n) && Solid(n)
    ensures |Flat(n)| + 1 >= d
    decreases n
  {
    if n.Branch? {
      HalfSize(d, n.kids[0]);
      FirstOfAll(n.kids);
    }
  }

  lemma HalfSizeOfTwo(d: nat, n: Node)
    requires d >= 2 && n.Branch? && |n.kids| >= 2 && HalfBelow(d, n) && Solid(n)
    ensures |Flat(n)| >= 2 * d - 2
  {
    hide Flat, FlatAll, IdsAll, LeafIdsAll;
    HalfSize(d, n.kids[0]);
    HalfSize(d, n.kids[1]);
    FirstOfAll(n.kids);
    FirstOfAll(n.kids[1..]);
    OfBranch(n.id, n.kids);
  }

  lemma StaysHalfWithId(o: Order, d: nat, n: Node, id: PageId, h: nat, key: Key)
    requires d >= 2
    ensures StaysHalf(o, d, WithId(n, id), h, key) <==> StaysHalf(o, d, n, h, key)
    ensures HalfBelow(d, WithId(n, id)) <==> HalfBelow(d, n)
    ensures Solid(WithId(n, id)) <==> Solid(n)
  {
    hide Site, SiteKeeps, HalfAll;
  }

  // A root that becomes a leaf has enough keys for one if it had two half-full children.
  lemma CollapsedHalf(o: Order, d: nat, n: Node, h: nat, key: Key, n': Node, shape: Option<Node>, h': nat, lo: nat)
    requires d >= 2 && Solid(n) && n.Count() >= (if n.Leaf? then 1 else 2) && Balanced(n, h, lo, d)
    requires Flat(n') == Remove(o, Flat(n), key) && Lighter(n, n', h, lo, d) && Collapsed(n', h, shape, h', lo, d)
    requires n.Branch? && HalfBelow(d, n) ==> (HalfBelow(d, n') <==> StaysHalf(o, d, n, h, key))
    ensures HalfBelow(d, n) ==> (HalfFull(d, shape) <==> StaysHalf(o, d, n, h, key))
  {
    hide Balanced, Site, SiteKeeps, Solid, Flat, HalfAll, HalfLeaves, Remove;
    RemoveLength(o, Flat(n), key);
    if shape.Some? {
      LeafAtTheBottom(shape.value, h', lo, d);
    }
    LeafAtTheBottom(n, h, lo, d);
    if HalfBelow(d, n) && n.Branch? {
      HalfSizeOfTwo(d, n);
      HalfBranch(d, n');
      if shape.value.Leaf? {
        LeafSize(d, shape.value);
      } else {
        HalfBranch(d, shape.value);
      }
    }
  }

  lemma LeafAtTheBottom(n: Node, h: nat, lo: nat, d: nat)
    requires Balanced(n, h, lo, d)
    ensures n.Leaf? <==> h == 0
  {
  }

  lemma LeafSize(d: nat, n: Node)
    requires n.Leaf?
    ensures HalfLeaves(d, n) <==> |Flat(n)| + 1 >= d
  {
    assert |PairsOf(n.slots)| == |n.slots|;
  }

  lemma CollapsedSpells(o: Order, d: nat, first: PageId, s: Store, n: Node, h: nat, shape: Option<Node>, h': nat,
          lo: nat, rest: multiset<PageId>)
    requires d >= 2
    requires Collapsed(n, h, shape, h', lo, d) && Owns(first, s, rest + LiveIds(shape))
             && (shape.Some? ==> Rep(s.pages, shape.value))
    requires Sorted(o, Flat(n)) && Fitting(lo, d, Flat(n))
    ensures Spells(o, d, s.pages, RootOf(shape), shape, h', lo) && PairsIn(shape) == Flat(n)
  {
    hide Owns, Rep, Balanced, Flat, SortedKeys, Fitting, Ids, Readable, HalfLeaves;
    if shape.Some? {
      MakeSpells(o, d, first, s, shape.value, h', lo, rest);
    }
  }

  // Deleting the key keeps the leaves at least half full: read off two leaves before the call.
  ghost predicate KeepsHalfFull(t: Tree, key: Key)
    requires t.degree >= 2
    reads t
  {
    t.shape.Some? ==> StaysHalf(t.order, t.degree, t.shape.value, t.height, key)
  }

  // deleteStaged
  method DeleteStaged(t: Tree, key: Key, ghost lo: nat) returns (r: Status, previous: Option<Bytes>, changed: bool)
    requires Staged(t, lo) && RoomFor(lo, t.degree, Pairs(t))
    modifies t`pages, t`nextPage, t`free, t`retired, t`reused, t`root, t`length, t`shape, t`height
    ensures Frame(old(t.State()), t.State(), {}, t.revision)
    ensures t.closed || t.readOnly ==> r.Done? && previous == None && !changed
    ensures Lookup(t.order, old(Pairs(t)), key).None? ==> r.Done? && !changed
    ensures !t.closed && !t.readOnly && r.Done? ==>
              && previous == Lookup(t.order, old(Pairs(t)), key)
              && changed == previous.Some?
              && Pairs(t) == Remove(t.order, old(Pairs(t)), key)
    ensures r.Done? ==> Staged(t, lo)
    ensures r.Panic? ==> !changed && Damaged(t, old(t.State()))
    ensures !changed ==>
              t.root == old(t.root) && t.shape == old(t.shape) && t.height == old(t.height) && t.length == old(t.length)
    ensures r.Done? && !changed ==> t.State() == old(t.State())
    ensures t.growLimit.None? && KeysFit(t.degree, old(Pairs(t))) ==> r.Done?
    ensures r.Done? && changed ==> |t.retired| > |old(t.retired)|
    ensures r.Done? && changed ==>
              && old(t.shape).Some?
              && Settled(t.order, t.degree, t.repairPercent, old(t.shape).value, old(t.height), key, ListsIn(t.shape))
    ensures r.Done? && changed && old(HalfFull(t.degree, t.shape)) ==>
              (HalfFull(t.degree, t.shape) <==> old(KeepsHalfFull(t, key)))
  {
    hide Owns, Frame, Spells, Pinned, Remove, Lookup, SortedKeys, KeysFit, Fitting, Flat, Available, Ids, Has, RoomFor,
      Keys, Readable, Balanced, Rep,
      StaysHalf, HalfBelow, Settled, ListsIn;
    ghost var s0 := t.State();
    FrameReflexive(s0, t.revision);
    previous, changed := None, false;
    RootMeans(t.order, t.degree, t.pages, t.root, t.shape, t.height, lo);
    RemoveLength(t.order, Pairs(t), key);
    if t.closed || t.readOnly || t.root == 0 {
      NothingToRemove(t.order, key);
      return Done, None, false;
    }
    var found := Find(t, key, lo);
    if found.None? {
      RemoveAbsent(t.order, Pairs(t), key);
      return Done, None, false;
    }
    var root;
    ghost var shape, h';
    r, root, shape, h' := DeleteBelowRoot(t, key, lo);
    if r.Panic? {
      return;
    }
    previous, changed := found, true;
    Install(t, root, t.length - 1, shape, h', s0, lo);
  }

  lemma NothingToRemove(o: Order, key: Key)
    ensures Remove(o, [], key) == [] && Lookup(o, [], key) == None
  {
  }

  lemma RemoveAbsent(o: Order, s: seq<KV>, key: Key)
    requires Lookup(o, s, key).None?
    ensures Remove(o, s, key) == s
  {
  }

  // ---- Publishing ----

  lemma RelinkedKeeps(first: PageId, s: Store, pages: PageMap, leaves: seq<PageId>, live: multiset<PageId>,
          rest: multiset<PageId>)
    requires Owns(first, s, rest + live) && OnlyRelinked(s.pages, pages, leaves)
    ensures Owns(first, s.(pages := pages), rest + live) && SameData(s.pages, pages, live)
  {
    forall x | x in pages ensures x < s.nextPage {
      assert x in s.pages.Keys;
    }
  }

  lemma NoReadersNoPins(readers: map<nat, nat>, pins: map<nat, Pin>)
    requires Counted(readers, pins) && readers == map[]
    ensures pins == map[]
  {
  }

  lemma ReadersPositive(o: Order, d: nat, s: Store, revision: nat, readers: map<nat, nat>, pins: map<nat, Pin>)
    requires Pinned(o, d, s, revision, readers, pins)
    ensures Counted(readers, pins) && forall r :: r in readers ==> readers[r] > 0
  {
    hide PinOk;
  }

  lemma PinnedLater(o: Order, d: nat, s: Store, revision: nat, readers: map<nat, nat>, pins: map<nat, Pin>)
    requires Pinned(o, d, s, revision, readers, pins)
    ensures Pinned(o, d, s, revision + 1, readers, pins)
  {
    hide Held, Spells, Counted;
  }

  lemma NoPinIsNewer(o: Order, d: nat, s: Store, revision: nat, readers: map<nat, nat>, pins: map<nat, Pin>,
          shape: Option<Node>)
    requires Pinned(o, d, s, revision, readers, pins)
    ensures Current(revision + 1, pins, shape)
  {
    hide Held, Spells, Counted, PairsIn;
    forall k | k in pins ensures pins[k].revision <= revision {
      assert PinOk(o, d, s, revision, pins[k]);
    }
  }

  // With no snapshot open the leaf links are in nobody's view.
  lemma RelinkKeepsPins(o: Order, d: nat, s: Store, pages: PageMap, revision: nat, readers: map<nat, nat>,
          pins: map<nat, Pin>)
    requires Pinned(o, d, s, revision, readers, pins)
    requires readers != map[] ==> pages == s.pages
    ensures Pinned(o, d, s.(pages := pages), revision, readers, pins)
  {
    hide PinOk;
    if readers == map[] {
      NoReadersNoPins(readers, pins);
    }
  }

  // reclaimRetiredPages between calls
  method Reclaim(t: Tree, ghost lo: nat)
    requires Staged(t, lo)
    modifies t`free, t`retired
    ensures Staged(t, lo)
    ensures t.State() == Reclaimed(old(t.State()), t.readers, t.scan)
    ensures forall r :: r in old(t.retired) ==>
              if t.scan.ScanFailed? || (exists v :: v in t.readers && v <= r.revision)
                 || (t.scan.Oldest? && t.scan.revision <= r.revision)
              then r in t.retired else r !in t.retired && r.id in t.free
  {
    hide Owns, Spells, Pinned, KeptPages, ReleasedIds;
    ghost var s0 := t.State();
    ReclaimOwns(t.first, s0, t.readers, t.scan, t.listPages + LiveIds(t.shape));
    ReclaimKeepsPins(t.order, t.degree, s0, t.revision, t.readers, t.scan, t.pins);
    ReclaimRetiresUpTo(s0, t.readers, t.scan, t.revision);
    ReclaimRetiredPages(t);
  }

  // relinkLeaves between calls
  method Relink(t: Tree, ghost lo: nat)
    requires Staged(t, lo)
    modifies t`pages
    ensures Staged(t, lo)
    ensures t.readers == map[] ==> Linked(t.pages, LeavesIn(t.shape))
    ensures t.readers != map[] ==> t.pages == old(t.pages)
    ensures OnlyRelinked(old(t.pages), t.pages, LeavesIn(t.shape))
  {
    hide Owns, Spells, Pinned, Rep, Readable, Balanced, Flat, OnlyRelinked, Linked, LeafIds, SameData, Ids;
    ghost var s0 := t.State();
    RootMeans(t.order, t.degree, t.pages, t.root, t.shape, t.height, lo);
    ReadersPositive(t.order, t.degree, s0, t.revision, t.readers, t.pins);
    if t.shape.Some? {
      SpellsMeans(t.order, t.degree, t.pages, t.root, t.shape.value, t.height, lo);
    }
    RelinkLeaves(t);
    NoLeaves(t.pages);
    RelinkedReflexive(t.pages, []);
    RelinkedKeeps(t.first, s0, t.pages, LeavesIn(t.shape), LiveIds(t.shape), t.listPages);
    SpellsSame(t.order, t.degree, s0.pages, t.pages, t.root, t.shape, t.height, lo);
    RelinkKeepsPins(t.order, t.degree, s0, t.pages, t.revision, t.readers, t.pins);
  }

  // publishStagedMutation
  method PublishStagedMutation(t: Tree, ghost lo: nat)
    requires Staged(t, lo) && !t.readOnly
    modifies t`revision, t`free, t`retired, t`pages
    ensures WellFormed(t, lo)
    ensures t.revision == old(t.revision) + 1
    ensures t.free == Reclaimed(old(t.State()), t.readers, t.scan).free
            && t.retired == Reclaimed(old(t.State()), t.readers, t.scan).retired
    ensures forall r :: r in old(t.retired) ==>
              if t.scan.ScanFailed? || (exists v :: v in t.readers && v <= r.revision)
                 || (t.scan.Oldest? && t.scan.revision <= r.revision)
              then r in t.retired else r !in t.retired && r.id in t.free
  {
    hide Owns, Spells, Pinned, Linked, OnlyRelinked, LeafIds, Flat, Ids, Reclaimed, LiveIds, PairsIn;
    PinnedLater(t.order, t.degree, t.State(), t.revision, t.readers, t.pins);
    NoPinIsNewer(t.order, t.degree, t.State(), t.revision, t.readers, t.pins, t.shape);
    t.revision := t.revision + 1;
    Reclaim(t, lo);
    Relink(t, lo);
  }

  // ---- The operations ----

  // How far the least fill goes after the key has been put, or pairs have been deleted.
  ghost function FillAfterPut(t: Tree, key: Key, lo: nat): nat {
    if t.degree >= 2 && KeyFits(t.degree, key) then lo else 0
  }

  ghost function FillAfterDelete(t: Tree, lo: nat): nat
    requires t.degree >= 2
    reads t
  {
    if RoomFor(lo, t.degree, Pairs(t)) then lo else 1
  }

  // A closed or read-only tree refuses; otherwise the map is updated, one revision later.
  method Put(t: Tree, key: Key, value: Bytes, ghost lo: nat) returns (r: Status, previous: Option<Bytes>)
    requires WellFormed(t, lo)
    modifies t`pages, t`nextPage, t`free, t`retired, t`reused, t`root, t`length, t`revision, t`shape, t`height
    ensures r.Done? ==> WellFormed(t, FillAfterPut(t, key, lo))
    ensures t.closed || t.readOnly ==>
              r.Done? && previous == None && t.State() == old(t.State()) && t.revision == old(t.revision)
                && t.shape == old(t.shape)
    ensures !t.closed && !t.readOnly && r.Done? ==>
              && previous == Lookup(t.order, old(Pairs(t)), key)
              && Pairs(t) == Upsert(t.order, old(Pairs(t)), key, value)
              && MapOf(Pairs(t)) == old(MapOf(Pairs(t)))[key := value]
              && t.revision == old(t.revision) + 1
    ensures NeverPanics(t, old(Pairs(t)), key) ==> r.Done?
    // Exactly when the pages take the pair: never if it is not storable, and with an empty tree
    // always if it is.
    ensures !t.closed && !t.readOnly && r.Done? ==>
              Storable(key, value) && Takes(t.order, t.degree, old(t.shape), key, value)
    ensures r.Panic? ==> t.growLimit.Some? || !Takes(t.order, t.degree, old(t.shape), key, value)
    ensures t.growLimit.None? && !t.closed && !t.readOnly && old(t.shape).None? ==> (r.Done? <==> Storable(key, value))
    // A panic leaves the tree as it was only if the first page could not be had.
    ensures r.Panic? ==> t.shape == old(t.shape) && t.root == old(t.root) && t.revision == old(t.revision)
    ensures r.Panic? ==> (WellFormed(t, lo) <==> Exhausted(old(t.State())))
    ensures old(LastPage(t)) ==> r.Panic?
  {
    hide Owns, Spells, Pinned, Linked, Frame, Upsert, Lookup, Flat, MapOf, KeyFits, KeysFit, LiveIds, LeavesIn, Current,
      SortedKeys, Fitting, Storable, Takes;
    PairsSorted(t, lo);
    UpsertIsMapUpdate(t.order, Pairs(t), key, value);
    ghost var lo', s0 := FillAfterPut(t, key, lo), t.State();
    WellFormedWeaker(t, lo, lo');
    EmptyTakes(t.order, t.degree, key, value);
    var changed;
    r, previous, changed := PutStaged(t, key, value, lo');
    if changed && r.Done? {
      UsesLastPage(s0, t.State(), t.revision);
      PutIsStorable(t, lo', old(Pairs(t)), key, value);
      PublishStagedMutation(t, lo');
    }
  }

  lemma PutIsStorable(t: Tree, lo: nat, s: seq<KV>, key: Key, value: Bytes)
    requires Staged(t, lo) && Pairs(t) == Upsert(t.order, s, key, value)
    ensures Storable(key, value)
  {
    hide Staged, Pairs, LowerBound, Storable;
    StagedPairs(t, lo);
    assert Pairs(t)[LowerBound(t.order, Keys(s), key)] == KV(key, value);
  }

  // An open tree of more than one level, and a file that can grow by one page only.
  ghost predicate LastPage(t: Tree)
    reads t
  {
    && !t.closed && !t.readOnly && t.shape.Some? && t.shape.value.Branch?
    && t.free == [] && t.growLimit == Some(t.nextPage + 1)
  }

  lemma UsesLastPage(s: Store, s': Store, revision: nat)
    requires Frame(s, s', {}, revision)
    ensures s.free == [] && s.limit == Some(s.nextPage + 1) ==> Used(s') <= Used(s) + 1
  {
  }

  lemma WellDegree(t: Tree, lo: nat)
    requires WellFormed(t, lo)
    ensures t.degree >= 2 && lo < t.degree
  {
    hide Owns, Spells, Pinned, PairsIn, Linked, Current;
  }

  lemma PairsSorted(t: Tree, lo: nat)
    requires Staged(t, lo)
    ensures t.degree >= 2 && lo < t.degree && Sorted(t.order, Pairs(t)) && Fitting(lo, t.degree, Pairs(t))
  {
    hide Owns, Pinned, Rep, Balanced, Flat, Ids, SortedKeys, KeysFit;
    EmptySorted(t.order, t.degree);
  }

  lemma EmptySorted(o: Order, d: nat)
    requires d >= 2
    ensures Sorted(o, []) && KeysFit(d, [])
  {
  }

  method Delete(t: Tree, key: Key, ghost lo: nat) returns (r: Status, previous: Option<Bytes>)
    requires WellFormed(t, lo)
    modifies t`pages, t`nextPage, t`free, t`retired, t`reused, t`root, t`length, t`revision, t`shape, t`height
    ensures r.Done? ==> WellFormed(t, old(FillAfterDelete(t, lo)))
    ensures t.closed || t.readOnly || Lookup(t.order, old(Pairs(t)), key).None? ==>
              r.Done? && previous == None && t.State() == old(t.State()) && t.revision == old(t.revision)
                && t.shape == old(t.shape)
    ensures !t.closed && !t.readOnly && r.Done? ==>
              && previous == Lookup(t.order, old(Pairs(t)), key)
              && Pairs(t) == Remove(t.order, old(Pairs(t)), key)
              && MapOf(Pairs(t)) == old(MapOf(Pairs(t))) - {key}
              && t.revision == old(t.revision) + if previous.Some? then 1 else 0
    // Only leaves beside the one that held the key are laid out anew, and exactly if it is due
    // for repair then.
    ensures r.Done? && previous.Some? ==>
              && old(t.shape).Some?
              && Settled(t.order, t.degree, t.repairPercent, old(t.shape).value, old(t.height), key, ListsIn(t.shape))
    // Leaves stay at least half full exactly if the two leaves concerned allow it.
    ensures r.Done? && previous.Some? && old(HalfFull(t.degree, t.shape)) ==>
              (HalfFull(t.degree, t.shape) <==> old(KeepsHalfFull(t, key)))
    ensures t.growLimit.None? && KeysFit(t.degree, old(Pairs(t))) ==> r.Done?
    ensures r.Panic? ==> t.shape == old(t.shape) && t.root == old(t.root) && t.revision == old(t.revision)
    ensures r.Panic? ==> (WellFormed(t, lo) <==> Exhausted(old(t.State())))
  {
    hide Owns, Spells, Pinned, Linked, Frame, Remove, Lookup, Flat, MapOf, RoomFor, KeysFit, Fitting, HalfFull,
      KeepsHalfFull, Settled, ListsIn, LiveIds, LeavesIn, Current, SortedKeys, Reclaimed, RetiredUpTo;
    PairsSorted(t, lo);
    RemoveIsMapRemoval(t.order, Pairs(t), key);
    ghost var lo' := FillAfterDelete(t, lo);
    RoomForOne(lo, t.degree, Pairs(t));
    WellFormedWeaker(t, lo, lo');
    var changed;
    r, previous, changed := DeleteStaged(t, key, lo');
    if changed && r.Done? {
      PublishStagedMutation(t, lo');
    }
  }

  lemma RoomForOne(lo: nat, d: nat, s: seq<KV>)
    requires d >= 2 && lo < d && Fitting(lo, d, s)
    ensures RoomFor(lo, d, s) || (lo >= 1 && RoomFor(1, d, s))
  {
  }

  // Every page below the root has at least d-1 keys.
  ghost predicate HalfFilled(d: nat, shape: Option<Node>, h: nat)
    requires d >= 1
  {
    shape.Some? ==> Balanced(shape.value, h, d - 1, d)
  }

  // Under the key bound only leaves can have fewer, and a tree whose leaves do not is
  // well-formed with the least fill d-1.
  lemma HalfFullMeans(t: Tree, lo: nat)
    requires WellFormed(t, lo) && 1 <= lo
    ensures HalfFilled(t.degree, t.shape, t.height) <==> HalfFull(t.degree, t.shape)
    ensures WellFormed(t, t.degree - 1) <==> HalfFull(t.degree, t.shape)
  {
    hide Owns, Pinned, Linked, Rep, Balanced, KeysFit, Flat, Ids, SortedKeys, HalfBelow;
    if t.shape.Some? {
      HalfIsBalanced(t.shape.value, t.height, lo, t.degree);
    }
  }

  method Get(t: Tree, key: Key, ghost lo: nat) returns (value: Option<Bytes>)
    requires WellFormed(t, lo)
    ensures value == if t.closed then None else Lookup(t.order, Pairs(t), key)
  {
    if t.closed {
      return None;
    }
    value := Find(t, key, lo);
  }
}
