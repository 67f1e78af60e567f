// The validator: what it accepts is a search tree, and the trees that updates build are
// accepted (pagebtree/integrity.go).

module Integrity {
  import opened KeyOrder
  import opened Contents
  import opened Pages
  import opened Nodes
  import opened Trees
  import opened Routing
  import opened Ranges
  import opened Search
  import opened Cursors

  // ---- Page ids seen on the way ----

  // The ids of `m` are distinct and none of them has been seen.
  ghost predicate Unseen(m: multiset<PageId>, seen: set<PageId>) {
    forall x :: x in m ==> m[x] == 1 && x !in seen
  }

  ghost function IdSet(m: multiset<PageId>): set<PageId> {
    set x | x in m
  }

  lemma UnseenSum(a: multiset<PageId>, b: multiset<PageId>, seen: set<PageId>)
    ensures Unseen(a + b, seen) <==> Unseen(a, seen) && Unseen(b, seen + IdSet(a))
    ensures IdSet(a + b) == IdSet(a) + IdSet(b)
  {
    if Unseen(a + b, seen) {
      forall x | x in a ensures a[x] == 1 && x !in seen {
        assert x in a + b && (a + b)[x] == a[x] + b[x];
      }
      forall x | x in b ensures b[x] == 1 && x !in seen + IdSet(a) {
        assert x in a + b && (a + b)[x] == a[x] + b[x];
      }
    }
    if Unseen(a, seen) && Unseen(b, seen + IdSet(a)) {
      forall x | x in a + b ensures (a + b)[x] == 1 && x !in seen {
        assert (a + b)[x] == a[x] + b[x];
      }
    }
  }

  // ---- Overflow chains ----

  // What validateOverflowValue accepts: a chain of undamaged pages that holds the value.
  ghost predicate GoodValue(pages: PageMap, damaged: set<PageId>, s: Slot) {
    ValueRep(pages, s) && forall x :: x in s.chain ==> x !in damaged
  }

  predicate GoodOverflowPage(pages: PageMap, damaged: set<PageId>, id: PageId) {
    && id in pages && id !in damaged
    && pages[id].OverflowPage? && |pages[id].payload| <= OVERFLOW_PAYLOAD_SIZE
  }

  ghost predicate HeadIs(chain: seq<PageId>, id: PageId) {
    id == if chain == [] then 0 else chain[0]
  }

  // Put before any chain that starts at `id`, these pages and these bytes make a chain.
  ghost predicate Continues(pages: PageMap, chain: seq<PageId>, bytes: Bytes, id: PageId) {
    forall rest: seq<PageId>, more: Bytes ::
      HeadIs(rest, id) && ChainRep(pages, rest, more) ==> ChainRep(pages, chain + rest, bytes + more)
  }

  lemma ContinuesFromNothing(pages: PageMap, id: PageId)
    ensures Continues(pages, [], [], id)
  {
    forall rest: seq<PageId>, more: Bytes | HeadIs(rest, id) && ChainRep(pages, rest, more)
      ensures ChainRep(pages, [] + rest, [] + more)
    {
      assert [] + rest == rest && [] + more == more;
    }
  }

  lemma ContinuesOn(pages: PageMap, damaged: set<PageId>, chain: seq<PageId>, bytes: Bytes, id: PageId)
    requires Continues(pages, chain, bytes, id) && id != 0 && GoodOverflowPage(pages, damaged, id)
    ensures Continues(pages, chain + [id], bytes + pages[id].payload, pages[id].follow)
  {
    var payload := pages[id].payload;
    forall rest: seq<PageId>, more: Bytes | HeadIs(rest, pages[id].follow) && ChainRep(pages, rest, more)
      ensures ChainRep(pages, (chain + [id]) + rest, (bytes + payload) + more)
    {
      assert ([id] + rest)[1..] == rest && (payload + more)[|payload|..] == more;
      assert HeadIs([id] + rest, id) && ChainRep(pages, [id] + rest, payload + more);
      assert (chain + [id]) + rest == chain + ([id] + rest) && (bytes + payload) + more == bytes + (payload + more);
    }
  }

  lemma ContinuesToEnd(pages: PageMap, chain: seq<PageId>, bytes: Bytes)
    requires Continues(pages, chain, bytes, 0)
    ensures ChainRep(pages, chain, bytes)
  {
    assert HeadIs([], 0) && ChainRep(pages, [], []);
    assert chain + [] == chain && bytes + [] == bytes;
  }

  // What is left of a chain that the walk should accept.
  ghost predicate Expected(pages: PageMap, damaged: set<PageId>, seen: set<PageId>, want: Option<Slot>,
          chain: seq<PageId>, bytes: Bytes, id: PageId)
  {
    want.Some? && GoodValue(pages, damaged, want.value) && Unseen(multiset(want.value.chain), seen)
      && want.value.chain != [] ==>
      && chain <= want.value.chain && bytes <= want.value.kv.value
      && HeadIs(want.value.chain[|chain|..], id)
      && ChainRep(pages, want.value.chain[|chain|..], want.value.kv.value[|bytes|..])
  }

  // The next page of an expected chain passes every check.
  lemma ExpectedNext(pages: PageMap, damaged: set<PageId>, seen: set<PageId>, want: Option<Slot>, chain: seq<PageId>,
          bytes: Bytes, id: PageId)
    requires Expected(pages, damaged, seen, want, chain, bytes, id) && id != 0
    requires want.Some? && GoodValue(pages, damaged, want.value) && Unseen(multiset(want.value.chain), seen)
             && want.value.chain != []
    ensures GoodOverflowPage(pages, damaged, id) && id !in seen + IdSet(multiset(chain))
    ensures Expected(pages, damaged, seen, want, chain + [id], bytes + pages[id].payload, pages[id].follow)
  {
    var all, k := want.value.chain, |chain|;
    var rest, more := all[k..], want.value.kv.value[|bytes|..];
    assert all == chain + [id] + all[k + 1..];
    assert multiset(all) == multiset(chain) + multiset{id} + multiset(all[k + 1..]);
    assert id in multiset(all) && multiset(all)[id] == multiset(chain)[id] + 1 + multiset(all[k + 1..])[id];
    assert id in all;
    assert rest[1..] == all[k + 1..];
    var payload := pages[id].payload;
    assert more[|payload|..] == want.value.kv.value[|bytes + payload|..];
  }

  // validateOverflowValue. `want` is a slot the cell may be the encoding of: then the value
  // is accepted if that slot is good.
  method ValidateOverflowValue(pages: PageMap, damaged: set<PageId>, cell: Cell, key: Key, seen: set<PageId>,
          ghost want: Option<Slot>)
    returns (ok: bool, seen': set<PageId>, ghost slot: Slot)
    requires want.Some? ==> cell == CellOf(want.value)
    ensures ok ==>
              && slot.kv.key == key && CellOf(slot) == cell && GoodValue(pages, damaged, slot)
              && Unseen(multiset(slot.chain), seen) && seen' == seen + IdSet(multiset(slot.chain))
    ensures want.Some? && GoodValue(pages, damaged, want.value) && Unseen(multiset(want.value.chain), seen) ==>
              ok && slot.chain == want.value.chain && slot.kv.value == want.value.kv.value
  {
    hide ChainRep, Expected, Continues, Unseen, IdSet, GoodOverflowPage;
    seen', slot := seen, Slot(KV(key, []), []);
    NoIds(seen);
    match cell
    case Inline(bytes) =>
      return true, seen, Slot(KV(key, bytes), []);
    case Ref(first, length) =>
      if first == 0 {
        ChainStartsNonzero(pages, damaged, want);
        return false, seen, slot;
      }
      var total;
      ghost var chain, bytes;
      ok, seen', total, chain, bytes := WalkChain(pages, damaged, first, seen, want);
      if ok && total == length {
        slot := Slot(KV(key, bytes), chain);
        return true, seen', slot;
      }
      return false, seen', slot;
  }

  lemma NoIds(seen: set<PageId>)
    ensures Unseen(multiset([]), seen) && seen + IdSet(multiset([])) == seen
  {
  }

  lemma ChainStartsNonzero(pages: PageMap, damaged: set<PageId>, want: Option<Slot>)
    ensures want.Some? && GoodValue(pages, damaged, want.value) && want.value.chain != [] ==> want.value.chain[0] != 0
  {
  }

  method WalkChain(pages: PageMap, damaged: set<PageId>, first: PageId, seen: set<PageId>, ghost want: Option<Slot>)
    returns (ok: bool, seen': set<PageId>, total: nat, ghost chain: seq<PageId>, ghost bytes: Bytes)
    requires first != 0
    requires want.Some? && want.value.chain != [] ==> want.value.chain[0] == first
    ensures ok ==>
              && chain != [] && chain[0] == first && ChainRep(pages, chain, bytes) && total == |bytes|
              && (forall x :: x in chain ==> x !in damaged)
              && Unseen(multiset(chain), seen) && seen' == seen + IdSet(multiset(chain))
    ensures want.Some? && GoodValue(pages, damaged, want.value) && Unseen(multiset(want.value.chain), seen)
            && want.value.chain != [] ==>
              ok && chain == want.value.chain && bytes == want.value.kv.value
  {
    hide ChainRep, Expected, Continues, Unseen, IdSet, GoodOverflowPage, GoodValue;
    ghost var good := want.Some? && GoodValue(pages, damaged, want.value) && Unseen(multiset(want.value.chain), seen)
      && want.value.chain != [];
    var id := first;
    seen', total, chain, bytes := seen, 0, [], [];
    NoIds(seen);
    ContinuesFromNothing(pages, first);
    ExpectedStart(pages, damaged, seen, want, first);
    while id != 0
      invariant Continues(pages, chain, bytes, id) && total == |bytes|
      invariant if chain == [] then id == first else chain[0] == first
      invariant forall x :: x in chain ==> x !in damaged
      invariant Unseen(multiset(chain), seen) && seen' == seen + IdSet(multiset(chain))
      invariant Expected(pages, damaged, seen, want, chain, bytes, id)
      decreases pages.Keys - seen'
    {
      if good {
        ExpectedNext(pages, damaged, seen, want, chain, bytes, id);
      }
      if id in seen' {
        return false, seen', total, chain, bytes;
      }
      CheckPage(pages, damaged, id);
      if id !in pages || id in damaged || !pages[id].OverflowPage? || |pages[id].payload| > OVERFLOW_PAYLOAD_SIZE {
        return false, seen' + {id}, total, chain, bytes;
      }
      ContinuesOn(pages, damaged, chain, bytes, id);
      ExpectedElse(pages, damaged, seen, want, chain + [id], bytes + pages[id].payload, pages[id].follow);
      SeeOne(chain, id, seen);
      seen' := seen' + {id};
      total, chain, bytes := total + |pages[id].payload|, chain + [id], bytes + pages[id].payload;
      id := pages[id].follow;
    }
    ContinuesToEnd(pages, chain, bytes);
    ExpectedEnd(pages, damaged, seen, want, chain, bytes);
    return true, seen', total, chain, bytes;
  }

  lemma ExpectedStart(pages: PageMap, damaged: set<PageId>, seen: set<PageId>, want: Option<Slot>, first: PageId)
    requires want.Some? && want.value.chain != [] ==> want.value.chain[0] == first
    ensures Expected(pages, damaged, seen, want, [], [], first)
  {
    if want.Some? {
      assert want.value.chain[0..] == want.value.chain && want.value.kv.value[0..] == want.value.kv.value;
    }
  }

  lemma ExpectedElse(pages: PageMap, damaged: set<PageId>, seen: set<PageId>, want: Option<Slot>, chain: seq<PageId>,
          bytes: Bytes, id: PageId)
    ensures !(want.Some? && GoodValue(pages, damaged, want.value) && Unseen(multiset(want.value.chain), seen)
              && want.value.chain != []) ==>
              Expected(pages, damaged, seen, want, chain, bytes, id)
  {
  }

  lemma ExpectedEnd(pages: PageMap, damaged: set<PageId>, seen: set<PageId>, want: Option<Slot>, chain: seq<PageId>,
          bytes: Bytes)
    requires Expected(pages, damaged, seen, want, chain, bytes, 0)
    ensures want.Some? && GoodValue(pages, damaged, want.value) && Unseen(multiset(want.value.chain), seen)
            && want.value.chain != [] ==>
              chain == want.value.chain && bytes == want.value.kv.value
  {
  }

  lemma CheckPage(pages: PageMap, damaged: set<PageId>, id: PageId)
    ensures GoodOverflowPage(pages, damaged, id) <==>
            !(id !in pages || id in damaged || !pages[id].OverflowPage? || |pages[id].payload| > OVERFLOW_PAYLOAD_SIZE)
  {
  }

  lemma SeeOne(chain: seq<PageId>, id: PageId, seen: set<PageId>)
    requires Unseen(multiset(chain), seen) && id !in seen + IdSet(multiset(chain))
    ensures Unseen(multiset(chain + [id]), seen)
    ensures seen + IdSet(multiset(chain + [id])) == seen + IdSet(multiset(chain)) + {id}
  {
    assert multiset(chain + [id]) == multiset(chain) + multiset{id};
    UnseenSum(multiset(chain), multiset{id}, seen);
    assert IdSet(multiset{id}) == {id};
  }

  // ---- Tree pages ----

  // What a check of one tree looks at. `damaged` are the pages with a wrong checksum.
  datatype Subject = Subject(pages: PageMap, root: PageId, degree: nat, order: Order, damaged: set<PageId>)

  function LowerOf(keys: seq<Key>, i: nat, lower: Option<Key>): Option<Key>
    requires i <= |keys|
  {
    if i > 0 then Some(keys[i - 1]) else lower
  }

  function UpperOf(keys: seq<Key>, i: nat, upper: Option<Key>): Option<Key>
    requires i <= |keys|
  {
    if i < |keys| then Some(keys[i]) else upper
  }

  ghost predicate RoomBetween(o: Order, lower: Option<Key>, upper: Option<Key>) {
    lower.Some? && upper.Some? ==> Lt(o, lower.value, upper.value)
  }

  ghost predicate GoodSlots(c: Subject, slots: seq<Slot>, lower: Option<Key>, upper: Option<Key>) {
    forall i ::
        0 <= i < |slots| ==> InRange(c.order, slots[i].kv.key, lower, upper) && GoodValue(c.pages, c.damaged, slots[i])
  }

  // What validatePageBounds accepts below one page.
  ghost predicate Acceptable(c: Subject, n: Node, lower: Option<Key>, upper: Option<Key>)
    decreases n
  {
    && n.id != 0 && n.id in c.pages && n.id !in c.damaged
    && match n
       case Leaf(id, slots) =>
         && c.pages[id].LeafPage? && c.pages[id].entries == EntriesOf(slots)
         && SortedKeys(c.order, Keys(PairsOf(slots)))
         && (id != c.root ==> |slots| >= c.degree - 1)
         && GoodSlots(c, slots, lower, upper)
       case Branch(id, kids) =>
         && kids != [] && c.pages[id] == BranchPage(Separators(kids), RootIds(kids))
         && SortedKeys(c.order, Separators(kids))
         && (id != c.root ==> |kids| >= c.degree)
         && (forall i :: 0 <= i < |kids| ==>
               var lo, hi := LowerOf(Separators(kids), i, lower), UpperOf(Separators(kids), i, upper);
               && RoomBetween(c.order, lo, hi)
               && Acceptable(c, kids[i], lo, hi)
               && (i > 0 ==> Flat(LeftmostLeaf(kids[i])) != []))
  }

  ghost predicate Wanted(c: Subject, want: Option<Node>, seen: set<PageId>, lower: Option<Key>, upper: Option<Key>) {
    want.Some? && Acceptable(c, want.value, lower, upper) && Unseen(Ids(want.value), seen)
  }

  // The order check of validateSlottedLayout.
  method KeysAscend(o: Order, keys: seq<Key>) returns (ok: bool)
    ensures ok <==> SortedKeys(o, keys)
  {
    for i := 0 to |keys|
      invariant SortedKeys(o, keys[..i])
    {
      if i > 0 {
        LtMeans(o, keys[i - 1], keys[i]);
        if o.compare(keys[i - 1], keys[i]) >= 0 {
          return false;
        }
        AscendStep(o, keys, i);
      }
    }
    assert keys[..|keys|] == keys;
    return true;
  }

  lemma AscendStep(o: Order, keys: seq<Key>, i: nat)
    requires 0 < i < |keys| && SortedKeys(o, keys[..i]) && Lt(o, keys[i - 1], keys[i])
    ensures SortedKeys(o, keys[..i + 1])
  {
    forall j | 0 <= j < i ensures Lt(o, keys[j], keys[i]) {
      if j < i - 1 {
        assert Lt(o, keys[..i][j], keys[..i][i - 1]);
        Transitive(o, keys[j], keys[i - 1], keys[i]);
      }
    }
    forall j, k | 0 <= j < k < i ensures Lt(o, keys[j], keys[k]) {
      assert Lt(o, keys[..i][j], keys[..i][k]);
    }
  }

  // The bounds and values of a leaf.
  method ValidateLeaf(c: Subject, entries: seq<Entry>, seen: set<PageId>, lower: Option<Key>, upper: Option<Key>,
          ghost want: Option<seq<Slot>>)
    returns (ok: bool, seen': set<PageId>, ghost slots: seq<Slot>)
    requires want.Some? ==> entries == EntriesOf(want.value)
    ensures ok ==>
              && entries == EntriesOf(slots) && GoodSlots(c, slots, lower, upper)
              && Unseen(ChainIds(slots), seen) && seen' == seen + IdSet(ChainIds(slots))
    ensures want.Some? && GoodSlots(c, want.value, lower, upper) && Unseen(ChainIds(want.value), seen) ==>
              ok && slots == want.value
  {
    hide GoodValue, Unseen, IdSet, ChainIds, Lt;
    ghost var good := want.Some? && GoodSlots(c, want.value, lower, upper) && Unseen(ChainIds(want.value), seen);
    seen', slots := seen, [];
    NoSlots(seen);
    for i := 0 to |entries|
      invariant |slots| == i && EntriesOf(slots) == entries[..i]
      invariant GoodSlots(c, slots, lower, upper)
      invariant Unseen(ChainIds(slots), seen) && seen' == seen + IdSet(ChainIds(slots))
      invariant good ==> slots == want.value[..i]
    {
      var key := entries[i].key;
      RangeMeans(c.order, key, lower, upper);
      if lower.Some? && c.order.compare(key, lower.value) < 0 {
        return false, seen', slots;
      }
      if upper.Some? && c.order.compare(key, upper.value) >= 0 {
        return false, seen', slots;
      }
      ghost var one := if good then Some(want.value[i]) else None;
      if good {
        NextSlot(want.value, i, seen);
        assert EntriesOf(want.value)[i] == EntryOf(want.value[i]);
      }
      ghost var slot;
      ghost var before := seen';
      ok, seen', slot := ValidateOverflowValue(c.pages, c.damaged, entries[i].cell, key, seen', one);
      if !ok {
        return false, seen', slots;
      }
      AddSlot(slots, slot, seen);
      assert EntriesOf(slots + [slot]) == entries[..i + 1];
      assert good ==> slot == want.value[i];
      slots := slots + [slot];
    }
    assert entries[..|entries|] == entries;
    return true, seen', slots;
  }

  lemma NoSlots(seen: set<PageId>)
    ensures Unseen(ChainIds([]), seen) && seen + IdSet(ChainIds([])) == seen
    ensures EntriesOf([]) == []
  {
  }

  lemma RangeMeans(o: Order, key: Key, lower: Option<Key>, upper: Option<Key>)
    ensures InRange(o, key, lower, upper) <==>
            && !(lower.Some? && o.compare(key, lower.value) < 0)
            && !(upper.Some? && o.compare(key, upper.value) >= 0)
  {
  }

  lemma NextSlot(slots: seq<Slot>, i: nat, seen: set<PageId>)
    requires Unseen(ChainIds(slots), seen) && i < |slots|
    ensures Unseen(multiset(slots[i].chain), seen + IdSet(ChainIds(slots[..i])))
  {
    hide Unseen, IdSet, ChainIds;
    ChainIdsAround(slots, i);
    UnseenSum(ChainIds(slots[..i]) + multiset(slots[i].chain), ChainIds(slots[i + 1..]), seen);
    UnseenSum(ChainIds(slots[..i]), multiset(slots[i].chain), seen);
  }

  lemma AddSlot(slots: seq<Slot>, slot: Slot, seen: set<PageId>)
    ensures Unseen(ChainIds(slots), seen) && Unseen(multiset(slot.chain), seen + IdSet(ChainIds(slots))) ==>
              Unseen(ChainIds(slots + [slot]), seen)
    ensures seen + IdSet(ChainIds(slots + [slot])) == seen + IdSet(ChainIds(slots)) + IdSet(multiset(slot.chain))
  {
    hide Unseen, IdSet, ChainIds;
    ChainIdsConcat(slots, [slot]);
    ChainIdsOne(slot);
    UnseenSum(ChainIds(slots), multiset(slot.chain), seen);
  }

  // validatePageBounds. `want` is a tree the page may be the root of: then it is accepted
  // if that tree is acceptable.
  method ValidatePageBounds(c: Subject, id: PageId, seen: set<PageId>, lower: Option<Key>, upper: Option<Key>,
          ghost want: Option<Node>)
    returns (ok: bool, seen': set<PageId>, ghost n: Node)
    requires id != 0 && c.degree >= 2
    requires want.Some? ==> want.value.id == id
    ensures ok ==>
              && n.id == id && Acceptable(c, n, lower, upper)
              && Unseen(Ids(n), seen) && seen' == seen + IdSet(Ids(n))
    ensures Wanted(c, want, seen, lower, upper) ==> ok && n == want.value
    decreases c.pages.Keys - seen, 1
  {
    hide Unseen, IdSet, Acceptable, GoodSlots, SortedKeys, ChainIds;
    ghost var good := Wanted(c, want, seen, lower, upper);
    seen', n := seen, Leaf(id, []);
    if good {
      WantedPage(c, want.value, seen, lower, upper);
    }
    if id in seen {
      return false, seen, n;
    }
    seen' := seen + {id};
    if id !in c.pages || id in c.damaged {
      return false, seen', n;
    }
    var p := c.pages[id];
    var sorted := KeysAscend(c.order, if p.LeafPage? then CellKeys(p.entries) else if p.BranchPage? then p.keys
                             else []);
    if !sorted || (p.BranchPage? && 0 in p.children) {
      return false, seen', n;
    }
    if p.LeafPage? {
      if id != c.root && |p.entries| < c.degree - 1 {
        return false, seen', n;
      }
      ghost var slots;
      ok, seen', slots := ValidateLeaf(c, p.entries, seen', lower, upper, if good then Some(want.value.slots)
                                       else None);
      if ok {
        n := Leaf(id, slots);
        CellKeysOf(slots);
        LeafAccepted(c, id, slots, seen, lower, upper);
      }
      return;
    }
    if !p.BranchPage? {
      return false, seen', n;
    }
    if id != c.root && |p.keys| < c.degree - 1 {
      return false, seen', n;
    }
    ghost var kids;
    ok, seen', kids := ValidateChildren(c, p.keys, p.children, seen', lower, upper, if good then Some(want.value.kids)
                                        else None);
    if ok {
      n := Branch(id, kids);
      BranchAccepted(c, id, kids, seen, lower, upper);
    }
  }

  lemma WantedPage(c: Subject, n: Node, seen: set<PageId>, lower: Option<Key>, upper: Option<Key>)
    requires Acceptable(c, n, lower, upper) && Unseen(Ids(n), seen) && c.degree >= 2
    ensures n.id in c.pages && n.id !in c.damaged && n.id !in seen
    ensures c.pages[n.id].LeafPage? <==> n.Leaf?
    ensures n.Leaf? ==>
              && c.pages[n.id].entries == EntriesOf(n.slots) && SortedKeys(c.order, CellKeys(c.pages[n.id].entries))
              && (n.id != c.root ==> |n.slots| >= c.degree - 1)
              && GoodSlots(c, n.slots, lower, upper) && Unseen(ChainIds(n.slots), seen + {n.id})
    ensures n.Branch? ==>
              && c.pages[n.id] == BranchPage(Separators(n.kids), RootIds(n.kids))
              && SortedKeys(c.order, Separators(n.kids)) && n.kids != []
              && (n.id != c.root ==> |n.kids| >= c.degree)
              && GoodKids(c, Separators(n.kids), n.kids, lower, upper) && Unseen(IdsAll(n.kids), seen + {n.id})
              && 0 !in RootIds(n.kids)
  {
    hide SortedKeys, GoodSlots, ChainIds, IdsAll, Ids, Unseen, GoodKids, RootIds, Separators;
    RootUnseen(n, seen);
    if n.Leaf? {
      CellKeysOf(n.slots);
    } else {
      WantedKids(c, n, lower, upper);
    }
  }

  lemma RootUnseen(n: Node, seen: set<PageId>)
    ensures Unseen(Ids(n), seen) <==> n.id !in seen && Unseen(Below(n), seen + {n.id})
    ensures seen + IdSet(Ids(n)) == seen + {n.id} + IdSet(Below(n))
  {
    hide ChainIds, IdsAll;
    assert IdSet(multiset{n.id}) == {n.id};
    UnseenSum(multiset{n.id}, Below(n), seen);
  }

  lemma WantedKids(c: Subject, n: Node, lower: Option<Key>, upper: Option<Key>)
    requires n.Branch? && Acceptable(c, n, lower, upper)
    ensures GoodKids(c, Separators(n.kids), n.kids, lower, upper) && 0 !in RootIds(n.kids)
  {
    hide SortedKeys, Flat, FirstKey, RoomBetween, GoodSlots, LeftmostLeaf;
    var keys := Separators(n.kids);
    forall i | 0 <= i < |n.kids| ensures GoodKid(c, keys, n.kids[i], i, lower, upper) && RootIds(n.kids)[i] != 0 {
      assert Acceptable(c, n.kids[i], LowerOf(keys, i, lower), UpperOf(keys, i, upper));
      assert i > 0 ==> keys[i - 1] == FirstKey(n.kids[i]);
    }
  }

  // The children of a branch page with these keys.
  ghost predicate GoodKids(c: Subject, keys: seq<Key>, kids: seq<Node>, lower: Option<Key>, upper: Option<Key>) {
    && |kids| <= |keys| + 1
    && (forall i :: 0 <= i < |kids| ==> GoodKid(c, keys, kids[i], i, lower, upper))
  }

  ghost predicate GoodKid(c: Subject, keys: seq<Key>, kid: Node, i: nat, lower: Option<Key>, upper: Option<Key>) {
    && i <= |keys|
    && RoomBetween(c.order, LowerOf(keys, i, lower), UpperOf(keys, i, upper))
    && Acceptable(c, kid, LowerOf(keys, i, lower), UpperOf(keys, i, upper))
    && (i > 0 ==> Flat(LeftmostLeaf(kid)) != [] && FirstKey(kid) == keys[i - 1])
  }

  lemma LeafAccepted(c: Subject, id: PageId, slots: seq<Slot>, seen: set<PageId>, lower: Option<Key>,
          upper: Option<Key>)
    requires id != 0 && id in c.pages && id !in c.damaged && id !in seen
    requires c.pages[id].LeafPage? && c.pages[id].entries == EntriesOf(slots)
    requires SortedKeys(c.order, Keys(PairsOf(slots))) && (id != c.root ==> |slots| >= c.degree - 1)
    requires GoodSlots(c, slots, lower, upper) && Unseen(ChainIds(slots), seen + {id})
    ensures Acceptable(c, Leaf(id, slots), lower, upper)
    ensures Unseen(Ids(Leaf(id, slots)), seen)
            && seen + {id} + IdSet(ChainIds(slots)) == seen + IdSet(Ids(Leaf(id, slots)))
  {
    hide SortedKeys, GoodSlots, ChainIds, Unseen, IdSet, Ids;
    RootUnseen(Leaf(id, slots), seen);
  }

  lemma BranchAccepted(c: Subject, id: PageId, kids: seq<Node>, seen: set<PageId>, lower: Option<Key>,
          upper: Option<Key>)
    requires id != 0 && id in c.pages && id !in c.damaged && id !in seen && c.degree >= 2
    requires kids != [] && c.pages[id] == BranchPage(Separators(kids), RootIds(kids))
             && SortedKeys(c.order, Separators(kids))
    requires id != c.root ==> |kids| >= c.degree
    requires GoodKids(c, Separators(kids), kids, lower, upper) && Unseen(IdsAll(kids), seen + {id})
    ensures Acceptable(c, Branch(id, kids), lower, upper)
    ensures Unseen(Ids(Branch(id, kids)), seen)
            && seen + {id} + IdSet(IdsAll(kids)) == seen + IdSet(Ids(Branch(id, kids)))
  {
    hide SortedKeys, IdsAll, Unseen, IdSet, Ids;
    RootUnseen(Branch(id, kids), seen);
    KidsAccepted(c, id, kids, lower, upper);
  }

  lemma KidsAccepted(c: Subject, id: PageId, kids: seq<Node>, lower: Option<Key>, upper: Option<Key>)
    requires id != 0 && id in c.pages && id !in c.damaged && c.degree >= 2
    requires kids != [] && c.pages[id] == BranchPage(Separators(kids), RootIds(kids))
             && SortedKeys(c.order, Separators(kids))
    requires id != c.root ==> |kids| >= c.degree
    requires GoodKids(c, Separators(kids), kids, lower, upper)
    ensures Acceptable(c, Branch(id, kids), lower, upper)
  {
    hide SortedKeys, Flat, FirstKey, RoomBetween, GoodSlots, LeftmostLeaf, RootIds;
    forall i | 0 <= i < |kids| ensures GoodKid(c, Separators(kids), kids[i], i, lower, upper) {
    }
  }

  // The loop over the children of a branch.
  method ValidateChildren(c: Subject, keys: seq<Key>, children: seq<PageId>, seen: set<PageId>, lower: Option<Key>,
          upper: Option<Key>, ghost want: Option<seq<Node>>)
    returns (ok: bool, seen': set<PageId>, ghost kids: seq<Node>)
    requires c.degree >= 2 && 0 !in children && |children| == |keys| + 1
    requires want.Some? ==>
               && RootIds(want.value) == children && Separators(want.value) == keys
               && GoodKids(c, keys, want.value, lower, upper) && Unseen(IdsAll(want.value), seen)
    ensures ok ==>
              && RootIds(kids) == children && Separators(kids) == keys && GoodKids(c, keys, kids, lower, upper)
              && Unseen(IdsAll(kids), seen) && seen' == seen + IdSet(IdsAll(kids))
    ensures want.Some? ==> ok && kids == want.value
    decreases c.pages.Keys - seen, 3
  {
    hide Unseen, IdSet, Acceptable, IdsAll, Ids, Lt, Separators, Flat, FirstKey, GoodKid;
    seen', kids := seen, [];
    NoKids(c, keys, seen, lower, upper);
    for i := 0 to |children|
      invariant |kids| == i && RootIds(kids) == children[..i]
      invariant GoodKids(c, keys, kids, lower, upper)
      invariant Unseen(IdsAll(kids), seen) && seen' == seen + IdSet(IdsAll(kids))
      invariant want.Some? ==> kids == want.value[..i]
    {
      ghost var kid;
      ghost var one := if want.Some? then Some(want.value[i]) else None;
      if want.Some? {
        NextKid(c, keys, want.value, i, seen, lower, upper);
      }
      ok, seen', kid := ValidateChild(c, keys, children[i], i, seen', lower, upper, one);
      if !ok {
        return false, seen', kids;
      }
      AddKid(kids, kid, seen);
      assert RootIds(kids + [kid]) == children[..i + 1];
      kids := kids + [kid];
    }
    assert children[..|children|] == children;
    KidsSeparators(c, keys, kids, lower, upper);
    return true, seen', kids;
  }

  lemma NoKids(c: Subject, keys: seq<Key>, seen: set<PageId>, lower: Option<Key>, upper: Option<Key>)
    ensures GoodKids(c, keys, [], lower, upper)
    ensures Unseen(IdsAll([]), seen) && seen + IdSet(IdsAll([])) == seen
  {
  }

  lemma NextKid(c: Subject, keys: seq<Key>, kids: seq<Node>, i: nat, seen: set<PageId>, lower: Option<Key>,
          upper: Option<Key>)
    requires GoodKids(c, keys, kids, lower, upper) && Unseen(IdsAll(kids), seen) && i < |kids|
    ensures GoodKid(c, keys, kids[i], i, lower, upper) && kids[i].id == RootIds(kids)[i]
    ensures Unseen(Ids(kids[i]), seen + IdSet(IdsAll(kids[..i])))
  {
    hide Unseen, IdSet, IdsAll, Ids, GoodKid, FlatAll, LeafIdsAll;
    Around(kids, i);
    UnseenSum(IdsAll(kids[..i]) + Ids(kids[i]), IdsAll(kids[i + 1..]), seen);
    UnseenSum(IdsAll(kids[..i]), Ids(kids[i]), seen);
  }

  lemma AddKid(kids: seq<Node>, kid: Node, seen: set<PageId>)
    ensures Unseen(IdsAll(kids), seen) && Unseen(Ids(kid), seen + IdSet(IdsAll(kids))) ==>
              Unseen(IdsAll(kids + [kid]), seen)
    ensures seen + IdSet(IdsAll(kids + [kid])) == seen + IdSet(IdsAll(kids)) + IdSet(Ids(kid))
  {
    hide Unseen, IdSet, IdsAll, Ids, FlatAll, LeafIdsAll;
    ConcatAll(kids, [kid]);
    One(kid);
    UnseenSum(IdsAll(kids), Ids(kid), seen);
  }

  lemma KidsSeparators(c: Subject, keys: seq<Key>, kids: seq<Node>, lower: Option<Key>, upper: Option<Key>)
    requires GoodKids(c, keys, kids, lower, upper) && |kids| == |keys| + 1
    ensures Separators(kids) == keys
  {
    hide Acceptable, Flat, FirstKey;
    forall i | 0 <= i < |keys| ensures Separators(kids)[i] == keys[i] {
      assert GoodKid(c, keys, kids[i + 1], i + 1, lower, upper);
    }
  }

  // One child: its bounds, what is below it, and its separator.
  method ValidateChild(c: Subject, keys: seq<Key>, child: PageId, i: nat, seen: set<PageId>, lower: Option<Key>,
          upper: Option<Key>, ghost want: Option<Node>)
    returns (ok: bool, seen': set<PageId>, ghost kid: Node)
    requires c.degree >= 2 && child != 0 && i <= |keys|
    requires want.Some? ==>
               want.value.id == child && GoodKid(c, keys, want.value, i, lower, upper) && Unseen(Ids(want.value), seen)
    ensures ok ==>
              && kid.id == child && GoodKid(c, keys, kid, i, lower, upper)
              && Unseen(Ids(kid), seen) && seen' == seen + IdSet(Ids(kid))
    ensures want.Some? ==> ok && kid == want.value
    decreases c.pages.Keys - seen, 2
  {
    hide Unseen, IdSet, Acceptable, Ids, Lt, Flat, FirstKey;
    var lo, hi := LowerOf(keys, i, lower), UpperOf(keys, i, upper);
    seen', kid := seen, Leaf(child, []);
    if lo.Some? && hi.Some? {
      LtMeans(c.order, lo.value, hi.value);
      if c.order.compare(lo.value, hi.value) >= 0 {
        return false, seen', kid;
      }
    }
    ok, seen', kid := ValidatePageBounds(c, child, seen, lo, hi, want);
    if !ok || i == 0 {
      return;
    }
    AcceptableModels(c, kid, lo, hi);
    var first := FirstKeyOf(c.pages, child, kid);
    if first.None? || keys[i - 1] != first.value {
      ok := false;
    }
  }

  // What is accepted can be read.
  lemma {:induction false} AcceptableModels(c: Subject, n: Node, lower: Option<Key>, upper: Option<Key>)
    requires Acceptable(c, n, lower, upper)
    ensures Models(c.pages, n) && 0 !in Ids(n)
    decreases n
  {
    hide Separators, RootIds, SortedKeys, FlatAll, LeafIdsAll, LeftmostLeaf;
    if n.Leaf? {
      forall i | 0 <= i < |n.slots| ensures ValueRep(c.pages, n.slots[i]) {
        assert GoodValue(c.pages, c.damaged, n.slots[i]);
      }
      ChainsNonzero(c.pages, n.slots);
    } else {
      forall i | 0 <= i < |n.kids| ensures Models(c.pages, n.kids[i]) && 0 !in Ids(n.kids[i]) {
        AcceptableModels(c, n.kids[i], LowerOf(Separators(n.kids), i, lower), UpperOf(Separators(n.kids), i, upper));
      }
      IdsNonzero(n.kids);
    }
  }

  lemma {:induction false} IdsNonzero(kids: seq<Node>)
    requires forall i :: 0 <= i < |kids| ==> 0 !in Ids(kids[i])
    ensures 0 !in IdsAll(kids)
  {
    hide Ids;
    if kids != [] {
      IdsNonzero(kids[1..]);
    }
  }

  lemma {:induction false} ChainsNonzero(pages: PageMap, slots: seq<Slot>)
    requires ValuesRep(pages, slots)
    ensures 0 !in ChainIds(slots)
  {
    if slots != [] {
      assert forall i :: 0 <= i < |slots[1..]| ==> slots[1..][i] == slots[i + 1];
      ChainsNonzero(pages, slots[1..]);
      assert ValueRep(pages, slots[0]);
      ChainNonzero(pages, slots[0].chain, slots[0].kv.value);
    }
  }

  lemma {:induction false} ChainNonzero(pages: PageMap, chain: seq<PageId>, bytes: Bytes)
    requires chain != [] ==> ChainRep(pages, chain, bytes)
    ensures 0 !in multiset(chain)
    decreases |chain|
  {
    if chain != [] {
      ChainNonzero(pages, chain[1..], bytes[|pages[chain[0]].payload|..]);
      assert chain == [chain[0]] + chain[1..];
    }
  }
}
