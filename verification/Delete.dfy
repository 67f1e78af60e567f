// Deletion below a page the caller has already copied (pagebtree/delete.go).

module Deletion {
  import opened KeyOrder
  import opened Seqs
  import opened Contents
  import opened Pages
  import opened Nodes
  import opened Splits
  import opened Trees
  import opened Overflow
  import opened LeafPages
  import opened Branches
  import opened Routing
  import opened Forests
  import opened Insertion
  import opened Layouts

  // ---- First keys and branch pages rebuilt from children ----

  lemma LiveIdsNonzero(first: PageId, s: Store, n: Node, live: multiset<PageId>)
    requires Owns(first, s, live + Ids(n))
    ensures 0 !in Ids(n)
  {
    if 0 in live + Ids(n) {
      LiveIsNotAvailable(first, s, live + Ids(n), 0);
    }
  }

  lemma {:induction false} FullHasFirstKey(n: Node, h: nat, lo: nat, d: nat)
    requires Full(n, h, lo, d) && d >= 1
    ensures Flat(LeftmostLeaf(n)) != []
    decreases n
  {
    if n.Branch? {
      FullHasFirstKey(n.kids[0], h - 1, lo, d);
    }
  }

  // The separators of a list of children, read off their first keys.
  method ReadSeparators(t: Tree, children: seq<PageId>, ghost kids: seq<Node>, ghost h: nat, ghost lo: nat,
          ghost live: multiset<PageId>)
    returns (keys: seq<Key>)
    requires t.degree >= 2 && kids != [] && AllFull(kids, h, lo, t.degree)
    requires Forest(t.first, t.State(), children, kids, live)
    ensures keys == Separators(kids)
  {
    hide Owns, Full, FirstKey, Rep, IdsAll, FlatAll, Flat;
    keys := [];
    for i := 1 to |children|
      invariant |keys| == i - 1
      invariant forall j :: 0 <= j < i - 1 ==> keys[j] == FirstKey(kids[j + 1])
    {
      OthersAround(kids, i, live);
      FullHasFirstKey(kids[i], h, lo, t.degree);
      RepModels(t.pages, kids[i]);
      LiveIdsNonzero(t.first, t.State(), kids[i], live + Others(kids, i));
      var key := FirstKeyOf(t.pages, children[i], kids[i]);
      if key.Some? {
        keys := keys + [key.value];
      }
    }
  }

  // What a branch page becomes when it is rebuilt over these children.
  function Rebuilt(id: PageId, kids: seq<Node>): Node {
    if kids == [] then Leaf(id, []) else Branch(id, kids)
  }

  lemma RebuiltBranch(id: PageId, kids: seq<Node>)
    ensures Flat(Rebuilt(id, kids)) == FlatAll(kids) && Ids(Rebuilt(id, kids)) == multiset{id} + IdsAll(kids)
  {
  }

  // writeBranchChildren: a branch without children becomes an empty leaf.
  method WriteBranchChildren(t: Tree, id: PageId, children: seq<PageId>, ghost kids: seq<Node>, ghost h: nat,
          ghost lo: nat, ghost live: multiset<PageId>)
    returns (r: Status)
    requires t.degree >= 2 && AllFull(kids, h, lo, t.degree)
    requires children == RootIds(kids) && RepAll(t.pages, kids)
    requires Owns(t.first, t.State(), live + Ids(Branch(id, kids)))
    modifies t`pages
    ensures Owns(t.first, t.State(), live + Ids(Branch(id, kids)))
    ensures Frame(old(t.State()), t.State(), {id}, t.revision)
    ensures r.Done? <==> BranchBytes(Separators(kids)) <= PAGE_SIZE
    ensures |kids| <= 2 * t.degree && KeysFit(t.degree, FlatAll(kids)) ==> r.Done?
    ensures r.Done? ==> Rep(t.pages, Rebuilt(id, kids))
  {
    hide Owns, Frame, AllFull, FirstKey, Rep, RepAll, IdsAll, FlatAll, KeysFit, Flat, BranchBytes, LeafBytes;
    if |children| == 0 {
      NothingFits();
      t.WritePage(id, LeafPage([], 0), live + Ids(Branch(id, kids)));
      EmptyRep(t.pages, id);
      return Done;
    }
    assert live + Ids(Branch(id, kids)) == (live + multiset{id}) + IdsAll(kids);
    var keys := ReadSeparators(t, children, kids, h, lo, live + multiset{id});
    r := WriteKids(t, id, keys, children, kids, h, lo, live);
  }

  lemma NothingFits()
    ensures BranchBytes(Separators([])) <= PAGE_SIZE
  {
  }

  lemma EmptyRep(pages: PageMap, id: PageId)
    requires id in pages && pages[id] == LeafPage([], 0)
    ensures Rep(pages, Leaf(id, []))
  {
  }

  // branchChildrenBytes
  method BranchChildrenBytes(t: Tree, children: seq<PageId>, ghost kids: seq<Node>, ghost h: nat, ghost lo: nat,
          ghost live: multiset<PageId>)
    returns (bytes: nat)
    requires t.degree >= 2 && kids != [] && AllFull(kids, h, lo, t.degree)
    requires Forest(t.first, t.State(), children, kids, live)
    ensures bytes == BranchBytes(Separators(kids))
  {
    hide Forest, AllFull;
    var keys := ReadSeparators(t, children, kids, h, lo, live);
    bytes := PAGE_HEADER_SIZE;
    for i := 0 to |keys|
      invariant bytes == BranchBytes(keys[..i])
    {
      assert keys[..i + 1][..i] == keys[..i];
      bytes := bytes + SeparatorBytes(keys[i]);
    }
    assert keys[..|keys|] == keys;
  }

  lemma ForestParts(first: PageId, s: Store, children: seq<PageId>, kids: seq<Node>, live: multiset<PageId>, cut: nat,
          h: nat, lo: nat, d: nat)
    requires Forest(first, s, children, kids, live) && cut <= |kids| && AllFull(kids, h, lo, d)
    ensures Forest(first, s, children[..cut], kids[..cut], live + IdsAll(kids[cut..]))
    ensures Forest(first, s, children[cut..], kids[cut..], live + IdsAll(kids[..cut]))
    ensures AllFull(kids[..cut], h, lo, d) && AllFull(kids[cut..], h, lo, d)
  {
    hide Owns, Rep, IdsAll, FlatAll, LeafIdsAll, Full;
    assert kids == kids[..cut] + kids[cut..];
    ConcatAll(kids[..cut], kids[cut..]);
    assert live + IdsAll(kids) == (live + IdsAll(kids[cut..])) + IdsAll(kids[..cut]);
    assert live + IdsAll(kids) == (live + IdsAll(kids[..cut])) + IdsAll(kids[cut..]);
  }

  function ChildImbalance(kids: seq<Node>, cut: nat): (gap: nat)
    requires cut <= |kids|
    ensures var l, r := BranchBytes(Separators(kids[..cut])), BranchBytes(Separators(kids[cut..]));
            gap == Max(l, r) - Min(l, r)
  {
    Abs(BranchBytes(Separators(kids[..cut])) - BranchBytes(Separators(kids[cut..])))
  }

  // branchChildSplitIndex
  method BranchChildSplitIndex(t: Tree, children: seq<PageId>, ghost kids: seq<Node>, ghost h: nat, ghost lo: nat,
          ghost live: multiset<PageId>)
    returns (best: nat)
    requires t.degree >= 2 && |kids| >= 2 && AllFull(kids, h, lo, t.degree)
    requires Forest(t.first, t.State(), children, kids, live)
    ensures 1 <= best < |kids|
    ensures 2 * t.degree <= |kids| <= 4 * t.degree ==>
              && t.degree <= best <= 2 * t.degree && t.degree <= |kids| - best <= 2 * t.degree
              && forall cut :: t.degree <= cut <= 2 * t.degree && t.degree <= |kids| - cut <= 2 * t.degree ==>
                   var l, r := BranchBytes(Separators(kids[..best])), BranchBytes(Separators(kids[best..]));
                   var l', r' := BranchBytes(Separators(kids[..cut])), BranchBytes(Separators(kids[cut..]));
                   && Max(l, r) - Min(l, r) <= Max(l', r') - Min(l', r')
                   && (cut < best ==> Max(l, r) - Min(l, r) < Max(l', r') - Min(l', r'))
    ensures !(2 * t.degree <= |kids| <= 4 * t.degree) ==> best == |kids| / 2
  {
    hide Forest, AllFull, BranchBytes, ChildImbalance, Separators;
    var n := |children|;
    ForestSize(t.first, t.State(), children, kids, live);
    var minChildren := Max(1, t.degree);
    var low := Max(minChildren, n - (MaxKeys(t.degree) + 1));
    var high := Min(MaxKeys(t.degree) + 1, n - minChildren);
    if low > high {
      return n / 2;
    }
    best := low;
    var bestDistance := CutDistance(t, children, best, kids, h, lo, live);
    for cut := low + 1 to high + 1
      invariant low <= best <= high && bestDistance == ChildImbalance(kids, best)
      invariant forall j :: low <= j < cut ==> bestDistance <= ChildImbalance(kids, j)
      invariant forall j :: low <= j < best ==> bestDistance < ChildImbalance(kids, j)
    {
      var distance := CutDistance(t, children, cut, kids, h, lo, live);
      if distance < bestDistance {
        best := cut;
        bestDistance := distance;
      }
    }
    BestChildCut(kids, best, low, high);
  }

  lemma BestChildCut(kids: seq<Node>, best: nat, low: nat, high: nat)
    requires low <= best <= high <= |kids|
    requires forall j :: low <= j <= high ==> ChildImbalance(kids, best) <= ChildImbalance(kids, j)
    requires forall j :: low <= j < best ==> ChildImbalance(kids, best) < ChildImbalance(kids, j)
    ensures forall cut :: low <= cut <= high ==>
              var l, r := BranchBytes(Separators(kids[..best])), BranchBytes(Separators(kids[best..]));
              var l', r' := BranchBytes(Separators(kids[..cut])), BranchBytes(Separators(kids[cut..]));
              && Max(l, r) - Min(l, r) <= Max(l', r') - Min(l', r')
              && (cut < best ==> Max(l, r) - Min(l, r) < Max(l', r') - Min(l', r'))
  {
    hide BranchBytes, Separators;
    forall cut | low <= cut <= high
      ensures var l, r := BranchBytes(Separators(kids[..best])), BranchBytes(Separators(kids[best..]));
              var l', r' := BranchBytes(Separators(kids[..cut])), BranchBytes(Separators(kids[cut..]));
              && Max(l, r) - Min(l, r) <= Max(l', r') - Min(l', r')
              && (cut < best ==> Max(l, r) - Min(l, r) < Max(l', r') - Min(l', r'))
    {
      assert ChildImbalance(kids, best) <= ChildImbalance(kids, cut);
    }
  }

  lemma ForestSize(first: PageId, s: Store, children: seq<PageId>, kids: seq<Node>, live: multiset<PageId>)
    requires Forest(first, s, children, kids, live)
    ensures |children| == |kids| && children == RootIds(kids)
  {
  }

  method CutDistance(t: Tree, children: seq<PageId>, cut: nat, ghost kids: seq<Node>, ghost h: nat, ghost lo: nat,
          ghost live: multiset<PageId>)
    returns (distance: nat)
    requires t.degree >= 2 && 0 < cut < |kids| == |children| && AllFull(kids, h, lo, t.degree)
    requires Forest(t.first, t.State(), children, kids, live)
    ensures distance == ChildImbalance(kids, cut)
  {
    hide Forest, AllFull, BranchBytes, IdsAll;
    ForestParts(t.first, t.State(), children, kids, live, cut, h, lo, t.degree);
    var left := BranchChildrenBytes(t, children[..cut], kids[..cut], h, lo, live + IdsAll(kids[cut..]));
    var right := BranchChildrenBytes(t, children[cut..], kids[cut..], h, lo, live + IdsAll(kids[..cut]));
    distance := Abs(left as int - right as int);
  }

  // ---- Two neighbouring leaves ----

  ghost predicate LeafPair(kids: seq<Node>, i: nat) {
    i + 1 < |kids| && kids[i].Leaf? && kids[i + 1].Leaf?
  }

  lemma LeafPairSource(t: Tree, s: Store, children: seq<PageId>, kids: seq<Node>, i: nat, live: multiset<PageId>)
    requires Forest(t.first, s, children, kids, live) && LeafPair(kids, i) && t.degree >= 2
    ensures |children| == |kids| && children[i] == kids[i].id && children[i + 1] == kids[i + 1].id
    ensures children[i] in s.pages && s.pages[children[i]].LeafPage?
            && s.pages[children[i]].entries == EntriesOf(kids[i].slots)
    ensures children[i + 1] in s.pages && s.pages[children[i + 1]].LeafPage?
    ensures s.pages[children[i + 1]].entries == EntriesOf(kids[i + 1].slots)
    ensures var src := kids[i].slots + kids[i + 1].slots;
            && MatchesAll(s.pages, Loaded(EntriesOf(kids[i].slots)) + Loaded(EntriesOf(kids[i + 1].slots)), src)
            && PairsOf(src) == Flat(kids[i]) + Flat(kids[i + 1])
            && Owns(t.first, s,
              (live + OthersOfPair(kids, i)) + multiset{children[i]} + multiset{children[i + 1]} + ChainIds(src))
    ensures KeysFit(t.degree, FlatAll(kids)) ==> KeysFit(t.degree, Flat(kids[i]) + Flat(kids[i + 1]))
  {
    hide Owns, IdsAll, FlatAll, LeafIdsAll, SlotsRep, Matches, ChainIds, KeyFits;
    var l, r := kids[i], kids[i + 1];
    assert Rep(s.pages, l) && Rep(s.pages, r);
    LoadedMatches(s.pages, l.slots);
    LoadedMatches(s.pages, r.slots);
    assert MatchesAll(s.pages, Loaded(EntriesOf(l.slots)) + Loaded(EntriesOf(r.slots)), l.slots + r.slots);
    PairAround(kids, i);
    ChainIdsConcat(l.slots, r.slots);
    assert live + IdsAll(kids)
        == (live + OthersOfPair(kids, i)) + multiset{l.id} + multiset{r.id} + ChainIds(l.slots + r.slots);
    if KeysFit(t.degree, FlatAll(kids)) {
      KeysFitPart(t.degree, FlatAll(kids[..i]), Flat(l) + Flat(r), FlatAll(kids[i + 2..]));
    }
  }

  // Both leaves' entries go to the left page, and the right page is retired.
  method CombineLeaves(t: Tree, children: seq<PageId>, i: nat, merged: seq<LeafEntry>, ghost kids: seq<Node>,
          ghost live: multiset<PageId>)
    returns (r: Status, children': seq<PageId>, ghost kids': seq<Node>, ghost slots: seq<Slot>)
    requires Forest(t.first, t.State(), children, kids, live) && LeafPair(kids, i) && t.degree >= 2
    requires merged == Loaded(EntriesOf(kids[i].slots)) + Loaded(EntriesOf(kids[i + 1].slots))
    requires |merged| <= MaxKeys(t.degree)
    modifies t`pages, t`nextPage, t`free, t`retired, t`reused
    ensures |children| == |kids|
    ensures Frame(old(t.State()), t.State(), {children[i], children[i + 1]}, t.revision)
    ensures t.growLimit.None? && KeysFit(t.degree, FlatAll(kids)) ==> r.Done?
    ensures r.Done? ==>
              && |slots| == |merged| && PairsOf(slots) == PairsOf(kids[i].slots + kids[i + 1].slots)
              && children' == RemoveAt(children, i + 1)
              && kids' == kids[..i] + [Leaf(kids[i].id, slots)] + kids[i + 2..]
              && Forest(t.first, t.State(), children', kids', live) && FlatAll(kids') == FlatAll(kids)
  {
    hide Owns, Frame, IdsAll, FlatAll, ChainIds, SlotsRep, KeysFit, MatchesAll, RepAll, Rep, OthersOfPair, EntryOf,
      LeafTakes, Laid;
    ghost var s0 := t.State();
    children', kids', slots := children, kids, [];
    LeafPairSource(t, s0, children, kids, i, live);
    var id, gone := children[i], children[i + 1];
    var next := t.pages[gone].next;
    ghost var src := kids[i].slots + kids[i + 1].slots;
    ghost var rest := live + OthersOfPair(kids, i);
    assert rest + multiset{id} + multiset{gone} + ChainIds(src)
           == (rest + multiset{gone}) + multiset{id} + ChainIds(src);
    r, slots := WriteLeafEntries(t, id, merged, src, rest + multiset{gone});
    ghost var s1 := t.State();
    FrameWiden(s0, s1, {id}, {id, gone}, t.revision);
    if r.Panic? {
      return;
    }
    assert |PairsOf(slots)| == |slots| && |PairsOf(src)| == |src|;
    ghost var made := Leaf(id, slots);
    assert rest + multiset{gone} + multiset{id} + ChainIds(slots) == (rest + multiset{gone}) + Ids(made);
    LinkLeaf(t, id, next, made, rest + multiset{gone});
    ghost var s2 := t.State();
    FrameTransitive(s0, s1, s2, {id, gone}, {id}, t.revision);
    assert (rest + multiset{gone}) + Ids(made) == (rest + Ids(made)) + multiset{gone};
    t.RetirePage(gone, rest + Ids(made));
    FrameTransitive(s0, s2, t.State(), {id, gone}, {}, t.revision);
    One(made);
    OneRep(t.pages, made);
    IdsBelow(kids[i]);
    IdsBelow(kids[i + 1]);
    ReplacePair(t.first, s0, t.State(), {id, gone}, t.revision, children, kids, i, [made], live);
    kids' := kids[..i] + [made] + kids[i + 2..];
    children' := RemoveAt(children, i + 1);
    assert children' == children[..i] + RootIds([made]) + children[i + 2..];
  }

  lemma OneRep(pages: PageMap, n: Node)
    requires Rep(pages, n)
    ensures RepAll(pages, [n])
  {
    hide Rep;
  }

  lemma TwoRep(pages: PageMap, m: Node, n: Node)
    requires Rep(pages, m) && Rep(pages, n)
    ensures RepAll(pages, [m, n])
  {
    hide Rep;
  }

  // Both leaves' entries are divided between the two pages at `cut`.
  method RedistributeLeaves(t: Tree, children: seq<PageId>, i: nat, merged: seq<LeafEntry>, cut: nat,
          ghost kids: seq<Node>, ghost live: multiset<PageId>)
    returns (r: Status, ghost kids': seq<Node>, ghost ls: seq<Slot>, ghost rs: seq<Slot>)
    requires Forest(t.first, t.State(), children, kids, live) && LeafPair(kids, i) && t.degree >= 2
    requires merged == Loaded(EntriesOf(kids[i].slots)) + Loaded(EntriesOf(kids[i + 1].slots))
    requires cut <= |merged| && cut <= MaxKeys(t.degree) && |merged| - cut <= MaxKeys(t.degree)
    modifies t`pages, t`nextPage, t`free, t`reused
    ensures |children| == |kids|
    ensures Frame(old(t.State()), t.State(), {children[i], children[i + 1]}, t.revision)
    ensures t.growLimit.None? && KeysFit(t.degree, FlatAll(kids)) ==> r.Done?
    ensures r.Done? ==>
              && |ls| == cut && |rs| == |merged| - cut
              && PairsOf(ls) + PairsOf(rs) == PairsOf(kids[i].slots + kids[i + 1].slots)
              && kids' == kids[..i] + [Leaf(kids[i].id, ls), Leaf(kids[i + 1].id, rs)] + kids[i + 2..]
              && Forest(t.first, t.State(), children, kids', live) && FlatAll(kids') == FlatAll(kids)
  {
    hide Owns, Frame, IdsAll, FlatAll, ChainIds, SlotsRep, KeysFit, MatchesAll, RepAll, Rep, OthersOfPair, EntryOf,
      EntriesOf, Loaded, PairsOf, LeafIdsAll, LeafTakes;
    ghost var s0 := t.State();
    kids' := kids;
    LeafPairSource(t, s0, children, kids, i, live);
    ghost var src := kids[i].slots + kids[i + 1].slots;
    ghost var rest := live + OthersOfPair(kids, i);
    assert |src| == |merged|;
    r, ls, rs := WriteLeafPair(t, children[i], children[i + 1], merged, cut, src, rest);
    if r.Panic? {
      return;
    }
    assert |PairsOf(ls)| == |ls| && |PairsOf(rs)| == |rs| && |PairsOf(src)| == |src|;
    ghost var l, rt := Leaf(children[i], ls), Leaf(children[i + 1], rs);
    PairAll(l, rt);
    TwoRep(t.pages, l, rt);
    assert rest + Ids(l) + Ids(rt) == rest + (Ids(l) + Ids(rt));
    assert PairsOf(src)[..cut] + PairsOf(src)[cut..] == PairsOf(src);
    IdsBelow(kids[i]);
    IdsBelow(kids[i + 1]);
    ReplacePair(t.first, s0, t.State(), {children[i], children[i + 1]}, t.revision, children, kids, i, [l, rt], live);
    kids' := kids[..i] + [l, rt] + kids[i + 2..];
    assert children == children[..i] + RootIds([l, rt]) + children[i + 2..];
  }

  // ---- Repairing an underfull leaf ----

  // Every child is full but the one at `index`, which has lost one key or child.
  ghost predicate OneDeficit(kids: seq<Node>, index: nat, h: nat, lo: nat, d: nat) {
    && index < |kids| && d >= 2
    && (forall j :: 0 <= j < |kids| && j != index ==> Full(kids[j], h, lo, d))
    && Balanced(kids[index], h, lo, d) && kids[index].Count() >= 1
    && kids[index].Count() + 1 >= MinCount(kids[index], lo, d)
  }

  // What the least fill asks of the pairs: that keys fit, and for more than one key in a leaf
  // that pairs are small enough to share a page.
  ghost predicate RoomFor(lo: nat, d: nat, s: seq<KV>)
    requires d >= 2
  {
    lo < d && Fitting(lo, d, s) && (lo <= 1 || AllSmall(d, s))
  }

  // leafEntriesFitPage and the count test beside it: the leaves become one.
  predicate Merges(d: nat, merged: seq<LeafEntry>)
    requires d >= 2
  {
    |merged| <= MaxKeys(d) && PAGE_HEADER_SIZE + Weight(merged) <= PAGE_SIZE
  }

  lemma {:induction false} RoomyWeight(d: nat, merged: seq<LeafEntry>)
    requires d >= 2
    requires forall i :: 0 <= i < |merged| ==> HeldBytes(merged[i]) <= CellRoom(d)
    ensures Weight(merged) <= |merged| * CellRoom(d)
  {
    if merged != [] {
      RoomyWeight(d, merged[..|merged| - 1]);
      assert |merged| * CellRoom(d) == (|merged| - 1) * CellRoom(d) + CellRoom(d);
    }
  }

  // Small pairs never keep two leaves apart that have few enough entries.
  lemma SmallLeavesMerge(d: nat, pages: PageMap, slots: seq<Slot>)
    requires d >= 2 && SlotsRep(pages, slots) && |slots| <= MaxKeys(d)
    requires AllSmall(d, PairsOf(slots)) && KeysFit(d, PairsOf(slots))
    ensures Merges(d, Loaded(EntriesOf(slots)))
  {
    hide ChainRep, KeyFits, CellRoom;
    var merged := Loaded(EntriesOf(slots));
    forall i | 0 <= i < |merged| ensures HeldBytes(merged[i]) <= CellRoom(d) {
      assert SmallPair(d, PairsOf(slots)[i]) && KeyFits(d, PairsOf(slots)[i].key);
      SmallCell(d, pages, slots[i]);
    }
    RoomyWeight(d, merged);
    MulMonotone(CellRoom(d), |merged|, MaxKeys(d));
    RoomFillsPage(d);
  }

  lemma RoomFillsPage(d: nat)
    requires d >= 2
    ensures MaxKeys(d) * CellRoom(d) <= PAGE_SIZE - PAGE_HEADER_SIZE
  {
  }

  lemma SmallCell(d: nat, pages: PageMap, slot: Slot)
    requires d >= 2 && SlotRep(pages, slot) && SmallPair(d, slot.kv) && KeyFits(d, slot.kv.key)
    ensures SLOT_SIZE + |slot.kv.key| + CellSize(CellOf(slot)) <= CellRoom(d)
  {
    hide ChainRep, CellRoom;
  }

  // isBelowMinRepairFill
  predicate BelowRepairFill(percent: nat, p: Page) {
    var threshold := PAGE_SIZE * percent / 100;
    threshold > 0 && BytesUsed(p) < threshold
  }

  // leafNeedsRepair and branchNeedsRepair
  predicate NeedsRepair(d: nat, percent: nat, p: Page)
    requires d >= 2 && !p.OverflowPage?
  {
    var count := if p.LeafPage? then |p.entries| else |p.keys|;
    count < d - 1 || (count <= d - 1 && BelowRepairFill(percent, p))
  }

  // A leaf node that leafNeedsRepair asks to repair.
  predicate Underfull(d: nat, percent: nat, n: Node)
    requires d >= 2
  {
    n.Leaf? && NeedsRepair(d, percent, LeafPage(EntriesOf(n.slots), 0))
  }

  lemma UnderfullMeans(d: nat, percent: nat, n: Node)
    requires d >= 2 && n.Leaf?
    ensures Underfull(d, percent, n) <==>
            |n.slots| < d - 1
              || (|n.slots| == d - 1 && LeafBytes(EntriesOf(n.slots)) < PAGE_SIZE * percent / 100)
    ensures Underfull(d, percent, n) <==> IsDue(d, percent, n.slots)
  {
    hide SumEntryBytes;
  }

  lemma UnderfullBranchMeans(d: nat, percent: nat, n: Node)
    requires d >= 2 && n.Branch? && n.kids != []
    ensures UnderfullBranch(d, percent, n) <==>
            |n.kids| < d || (|n.kids| == d && BranchBytes(Separators(n.kids)) < PAGE_SIZE * percent / 100)
  {
    hide SumSeparatorBytes, FirstKey;
  }

  // A branch node that branchNeedsRepair asks to repair.
  predicate UnderfullBranch(d: nat, percent: nat, n: Node)
    requires d >= 2
  {
    n.Branch? && n.kids != [] && NeedsRepair(d, percent, BranchPage(Separators(n.kids), RootIds(n.kids)))
  }

  // Where the pair of neighbours that repair of the child at `index` works on begins.
  function PairAt(index: nat): nat {
    if index > 0 then index - 1 else index
  }

  // The entries of two neighbouring leaves.
  function PairEntries(kids: seq<Node>, i: nat): seq<LeafEntry>
    requires i + 1 < |kids| && kids[i].Leaf? && kids[i + 1].Leaf?
  {
    Loaded(EntriesOf(kids[i].slots)) + Loaded(EntriesOf(kids[i + 1].slots))
  }

  // The leaves at `i` and `i + 1` after repair: one leaf, or two cut as balanced as can be.
  // The other children stay.
  ghost predicate Repaired(d: nat, merged: seq<LeafEntry>, kids: seq<Node>, i: nat, kids': seq<Node>)
    requires d >= 2 && i + 1 < |kids|
  {
    && LeafPair(kids, i)
    && if Merges(d, merged) then
         && |kids'| == |kids| - 1 && kids' == kids[..i] + [kids'[i]] + kids[i + 2..]
         && kids'[i].Leaf? && kids'[i].Count() == |merged|
         && Rejoined(d, kids[i].slots, kids[i + 1].slots, [PairsOf(kids'[i].slots)])
       else
         && |kids'| == |kids| && kids' == kids[..i] + [kids'[i], kids'[i + 1]] + kids[i + 2..]
         && LeafPair(kids', i) && kids'[i].Count() + kids'[i + 1].Count() == |merged|
         && kids'[i].slots != [] && kids'[i + 1].slots != []
         && Rejoined(d, kids[i].slots, kids[i + 1].slots, [PairsOf(kids'[i].slots), PairsOf(kids'[i + 1].slots)])
         // The exact condition under which repair restores the minimum fill.
         && (kids'[i].Count() >= d - 1 && kids'[i + 1].Count() >= d - 1 <==> |merged| >= 2 * d - 2)
  }

  // Copy the sibling, then combine or redistribute the pair of leaves.
  method RepairLeafPair(t: Tree, children: seq<PageId>, i: nat, sibling: nat, merged: seq<LeafEntry>,
                        ghost kids: seq<Node>, ghost lo: nat, ghost live: multiset<PageId>)
    returns (r: Status, children': seq<PageId>, ghost kids': seq<Node>)
    requires Forest(t.first, t.State(), children, kids, live) && LeafPair(kids, i) && t.degree >= 2
    requires sibling == i || sibling == i + 1
    requires merged == Loaded(EntriesOf(kids[i].slots)) + Loaded(EntriesOf(kids[i + 1].slots))
    requires OneDeficit(kids, if sibling == i then i + 1 else i, 0, lo, t.degree)
    requires kids[if sibling == i then i + 1 else i].Count() <= t.degree - 1
    requires RoomFor(lo, t.degree, FlatAll(kids))
    modifies t`pages, t`nextPage, t`free, t`retired, t`reused
    ensures |children| == |kids|
    ensures Frame(old(t.State()), t.State(), {children[if sibling == i then i + 1 else i]}, t.revision)
    ensures t.growLimit.None? && KeysFit(t.degree, FlatAll(kids)) ==> r.Done?
    ensures r.Done? ==>
              && Forest(t.first, t.State(), children', kids', live) && FlatAll(kids') == FlatAll(kids)
              && |kids| - 1 <= |kids'| <= |kids| && AllFull(kids', 0, lo, t.degree)
              && Repaired(t.degree, merged, kids, i, kids')
  {
    hide Owns, Frame, IdsAll, FlatAll, KeysFit, RoomFor, Rejoined, Rep, Available, Weight, LeafCutLow, LeafCutHigh;
    ghost var s0 := t.State();
    children', kids' := children, kids;
    var other := if sibling == i then i + 1 else i;
    PairCounts(t, s0, children, kids, i, other, merged, lo, live);
    var newId;
    ghost var kids1;
    r, children', newId, kids1 := CopyKid(t, children, sibling, kids, live);
    ghost var s1 := t.State();
    FrameWiden(s0, s1, {}, {children[other]}, t.revision);
    if r.Panic? {
      return;
    }
    CopiedPair(kids, i, sibling, newId, lo, t.degree);
    r, children', kids' := SettleLeafPair(t, children', i, merged, kids1, lo, live);
    assert {kids1[i].id, kids1[i + 1].id} == {newId, children[other]};
    FrameTransitive(s0, s1, t.State(), {children[other]}, {newId, children[other]}, t.revision);
  }

  method SettleLeafPair(t: Tree, children: seq<PageId>, i: nat, merged: seq<LeafEntry>, ghost kids: seq<Node>,
          ghost lo: nat, ghost live: multiset<PageId>)
    returns (r: Status, children': seq<PageId>, ghost kids': seq<Node>)
    requires Forest(t.first, t.State(), children, kids, live) && LeafPair(kids, i) && t.degree >= 2 && lo < t.degree
    requires merged == Loaded(EntriesOf(kids[i].slots)) + Loaded(EntriesOf(kids[i + 1].slots))
    requires forall j :: 0 <= j < |kids| && j != i && j != i + 1 ==> Full(kids[j], 0, lo, t.degree)
    requires 2 <= |merged| <= 2 * MaxKeys(t.degree) && |merged| >= lo
    requires lo > 1 && !Merges(t.degree, merged) ==> |merged| >= 2 * t.degree - 2
    modifies t`pages, t`nextPage, t`free, t`retired, t`reused
    ensures Frame(old(t.State()), t.State(), {kids[i].id, kids[i + 1].id}, t.revision)
    ensures t.growLimit.None? && KeysFit(t.degree, FlatAll(kids)) ==> r.Done?
    ensures r.Done? ==>
              && Forest(t.first, t.State(), children', kids', live) && FlatAll(kids') == FlatAll(kids)
              && |kids| - 1 <= |kids'| <= |kids| && AllFull(kids', 0, lo, t.degree)
              && Repaired(t.degree, merged, kids, i, kids')
  {
    hide Owns, Frame, IdsAll, FlatAll, KeysFit, IsBestCut, Rep, Rejoined, LeafBytes, Weighed, RepAll, Available, Weight,
      LeafCutLow, LeafCutHigh,
      Full;
    children', kids' := children, kids;
    var fits := LeafEntriesFitPage(merged);
    if |merged| <= MaxKeys(t.degree) && fits {
      ghost var slots;
      r, children', kids', slots := CombineLeaves(t, children', i, merged, kids, live);
      if r.Done? {
        CombinedIsFull(kids, i, merged, slots, lo, t.degree);
        CombinedRejoins(t.degree, merged, kids[i].slots, kids[i + 1].slots, slots);
      }
    } else {
      var cut := LeafSplitIndex(merged, t.degree);
      LeafCutsFill(|merged|, t.degree, cut);
      ghost var ls, rs;
      r, kids', ls, rs := RedistributeLeaves(t, children', i, merged, cut, kids, live);
      if r.Done? {
        DividedIsFull(kids, i, merged, ls, rs, lo, t.degree);
        DividedRejoins(t.degree, merged, kids[i].slots, kids[i + 1].slots, cut, ls, rs);
      }
    }
  }

  lemma PairLoaded(a: seq<Slot>, b: seq<Slot>)
    ensures var cells, merged := EntriesOf(a + b), Loaded(EntriesOf(a)) + Loaded(EntriesOf(b));
            && |merged| == |cells|
            && forall i :: 0 <= i < |cells| ==> merged[i] == LeafEntry(cells[i].key, Encoded(cells[i].cell))
  {
    hide EntryOf;
  }

  lemma CombinedRejoins(d: nat, merged: seq<LeafEntry>, a: seq<Slot>, b: seq<Slot>, slots: seq<Slot>)
    requires d >= 2 && Merges(d, merged) && merged == Loaded(EntriesOf(a)) + Loaded(EntriesOf(b))
    requires PairsOf(slots) == PairsOf(a + b)
    ensures Rejoined(d, a, b, [PairsOf(slots)])
  {
    hide Weight, LeafBytes, EntriesOf, Loaded;
    PairLoaded(a, b);
    LoadedIsWeighed(EntriesOf(a + b), merged);
  }

  lemma DividedRejoins(d: nat, merged: seq<LeafEntry>, a: seq<Slot>, b: seq<Slot>, cut: nat, ls: seq<Slot>,
          rs: seq<Slot>)
    requires d >= 2 && !Merges(d, merged) && merged == Loaded(EntriesOf(a)) + Loaded(EntriesOf(b))
    requires 2 <= |merged| <= 2 * MaxKeys(d) && |ls| == cut && PairsOf(ls) + PairsOf(rs) == PairsOf(a + b)
    requires if LeafCutLow(|merged|, d) <= LeafCutHigh(|merged|, d)
             then LeafCutLow(|merged|, d) <= cut <= LeafCutHigh(|merged|, d)
               && IsBestCut(merged, cut, LeafCutLow(|merged|, d), LeafCutHigh(|merged|, d))
             else cut == |merged| / 2
    ensures Rejoined(d, a, b, [PairsOf(ls), PairsOf(rs)])
  {
    hide Weight, LeafBytes, EntriesOf, Loaded, IsBestCut, LeafCutLow, LeafCutHigh, IsCutAt;
    PairLoaded(a, b);
    LoadedIsWeighed(EntriesOf(a + b), merged);
    ChosenCut(d, EntriesOf(a + b), merged, cut);
  }

  lemma CombinedIsFull(kids: seq<Node>, i: nat, merged: seq<LeafEntry>, slots: seq<Slot>, lo: nat, d: nat)
    requires LeafPair(kids, i) && d >= 2 && Merges(d, merged)
    requires forall j :: 0 <= j < |kids| && j != i && j != i + 1 ==> Full(kids[j], 0, lo, d)
    requires LeafMin(lo) <= |slots| == |merged|
    ensures var kids' := kids[..i] + [Leaf(kids[i].id, slots)] + kids[i + 2..];
            && AllFull(kids', 0, lo, d) && |kids'| == |kids| - 1 && kids'[i] == Leaf(kids[i].id, slots)
            && kids' == kids[..i] + [kids'[i]] + kids[i + 2..]
  {
    AllFullPair(kids, i, [Leaf(kids[i].id, slots)], 0, lo, d);
  }

  lemma DividedIsFull(kids: seq<Node>, i: nat, merged: seq<LeafEntry>, ls: seq<Slot>, rs: seq<Slot>, lo: nat, d: nat)
    requires LeafPair(kids, i) && d >= 2 && lo < d
    requires forall j :: 0 <= j < |kids| && j != i && j != i + 1 ==> Full(kids[j], 0, lo, d)
    requires 1 <= |ls| <= MaxKeys(d) && 1 <= |rs| <= MaxKeys(d) && |ls| + |rs| == |merged|
    requires |ls| >= d - 1 && |rs| >= d - 1 <==> |merged| >= 2 * d - 2
    requires lo > 1 ==> |merged| >= 2 * d - 2
    ensures var kids' := kids[..i] + [Leaf(kids[i].id, ls), Leaf(kids[i + 1].id, rs)] + kids[i + 2..];
            && AllFull(kids', 0, lo, d) && |kids'| == |kids| && kids'[i] == Leaf(kids[i].id, ls)
            && kids'[i + 1] == Leaf(kids[i + 1].id, rs)
            && kids' == kids[..i] + [kids'[i], kids'[i + 1]] + kids[i + 2..]
  {
    var made := [Leaf(kids[i].id, ls), Leaf(kids[i + 1].id, rs)];
    assert Full(made[0], 0, lo, d) && Full(made[1], 0, lo, d);
    AllFullPair(kids, i, made, 0, lo, d);
  }

  // leafEntriesFitPage
  method LeafEntriesFitPage(entries: seq<LeafEntry>) returns (fits: bool)
    ensures fits <==> PAGE_HEADER_SIZE + Weight(entries) <= PAGE_SIZE
  {
    var total := TotalWeight(entries);
    fits := PAGE_HEADER_SIZE + total <= PAGE_SIZE;
  }

  // How many entries a pair under repair can have.
  lemma {:induction false} PairCounts(t: Tree, s: Store, children: seq<PageId>, kids: seq<Node>, i: nat, other: nat,
          merged: seq<LeafEntry>, lo: nat, live: multiset<PageId>)
    requires Forest(t.first, s, children, kids, live) && LeafPair(kids, i) && t.degree >= 2
             && (other == i || other == i + 1)
    requires merged == Loaded(EntriesOf(kids[i].slots)) + Loaded(EntriesOf(kids[i + 1].slots))
    requires OneDeficit(kids, other, 0, lo, t.degree) && kids[other].Count() <= t.degree - 1
    requires RoomFor(lo, t.degree, FlatAll(kids))
    ensures |children| == |kids| && children[other] == kids[other].id
    ensures 2 <= |merged| <= 2 * MaxKeys(t.degree) && |merged| >= lo && lo < t.degree
    ensures lo > 1 && !Merges(t.degree, merged) ==> |merged| >= 2 * t.degree - 2
  {
    hide Owns, FlatAll, IdsAll, LeafIdsAll, KeyFits, SmallPair, SlotRep, Merges, KeysFit;
    LeafPairSource(t, s, children, kids, i, live);
    var slots := kids[i].slots + kids[i + 1].slots;
    if lo > 1 && |merged| <= MaxKeys(t.degree) {
      PairAround(kids, i);
      AllSmallPart(t.degree, FlatAll(kids[..i]), Flat(kids[i]) + Flat(kids[i + 1]), FlatAll(kids[i + 2..]));
      SlotsRepConcat(s.pages, kids[i].slots, kids[i + 1].slots);
      assert Rep(s.pages, kids[i]) && Rep(s.pages, kids[i + 1]);
      assert Loaded(EntriesOf(slots)) == merged;
      SmallLeavesMerge(t.degree, s.pages, slots);
    }
  }

  lemma AllSmallPart(d: nat, a: seq<KV>, b: seq<KV>, c: seq<KV>)
    requires d >= 2 && AllSmall(d, a + b + c)
    ensures AllSmall(d, b)
  {
    hide SmallPair;
    forall i | 0 <= i < |b| ensures SmallPair(d, b[i]) {
      assert (a + b + c)[|a| + i] == b[i];
    }
  }

  lemma CopiedPair(kids: seq<Node>, i: nat, sibling: nat, newId: PageId, lo: nat, d: nat)
    requires LeafPair(kids, i) && (sibling == i || sibling == i + 1)
    requires OneDeficit(kids, if sibling == i then i + 1 else i, 0, lo, d)
    ensures var kids' := kids[sibling := WithId(kids[sibling], newId)];
            && LeafPair(kids', i)
            && kids'[i].slots == kids[i].slots && kids'[i + 1].slots == kids[i + 1].slots
            && (forall j :: 0 <= j < |kids'| && j != i && j != i + 1 ==> Full(kids'[j], 0, lo, d))
  {
    hide Full;
  }

  // Facts about the page of the child at `index`.
  lemma KidPage(t: Tree, s: Store, children: seq<PageId>, kids: seq<Node>, index: nat, live: multiset<PageId>)
    requires Forest(t.first, s, children, kids, live) && index < |kids|
    ensures |children| == |kids| && children[index] == kids[index].id
    ensures children[index] in s.pages && !s.pages[children[index]].OverflowPage?
    ensures s.pages[children[index]].LeafPage? <==> kids[index].Leaf?
    ensures kids[index].Leaf? ==> s.pages[children[index]].entries == EntriesOf(kids[index].slots)
    ensures kids[index].Branch? ==>
              && s.pages[children[index]] == BranchPage(Separators(kids[index].kids), RootIds(kids[index].kids))
              && kids[index].kids != [] && RepAll(s.pages, kids[index].kids)
  {
    hide Owns, FlatAll, IdsAll, Flat, FirstKey;
    assert Rep(s.pages, kids[index]);
  }

  lemma NoDeficit(kids: seq<Node>, index: nat, h: nat, lo: nat, d: nat)
    requires OneDeficit(kids, index, h, lo, d) && kids[index].Count() >= MinCount(kids[index], lo, d)
    ensures AllFull(kids, h, lo, d)
  {
    hide Full, Balanced;
    FullIffBalanced(kids[index], h, lo, d);
  }

  lemma Heights(kids: seq<Node>, index: nat, h: nat, lo: nat, d: nat, j: nat)
    requires OneDeficit(kids, index, h, lo, d) && j < |kids|
    ensures kids[j].Leaf? <==> h == 0
    ensures kids[j].Branch? ==> kids[j].kids != []
  {
  }

  method MergeUnderfullLeaf(t: Tree, children: seq<PageId>, index: nat, ghost kids: seq<Node>, ghost h: nat,
          ghost lo: nat, ghost live: multiset<PageId>)
    returns (r: Status, children': seq<PageId>, ghost kids': seq<Node>)
    requires t.degree >= 2 && Forest(t.first, t.State(), children, kids, live)
    requires (|kids| >= 2 || lo == 0) && OneDeficit(kids, index, h, lo, t.degree)
    requires RoomFor(lo, t.degree, FlatAll(kids))
    modifies t`pages, t`nextPage, t`free, t`retired, t`reused
    ensures Frame(old(t.State()), t.State(), {kids[index].id}, t.revision)
    ensures t.growLimit.None? && KeysFit(t.degree, FlatAll(kids)) ==> r.Done?
    ensures r.Done? ==>
              && Forest(t.first, t.State(), children', kids', live) && FlatAll(kids') == FlatAll(kids)
              && |kids| - 1 <= |kids'| <= |kids|
              && (h == 0 ==> AllFull(kids', h, lo, t.degree))
              && (h > 0 || |kids| < 2 ==> kids' == kids && children' == children)
    // A leaf is due for repair below d-1 entries, or with d-1 entries of fewer bytes than the
    // given part of a page; otherwise all leaves stay.
    ensures r.Done? && h == 0 ==> kids[index].Leaf?
    ensures r.Done? && h == 0 && |kids| >= 2
            && |kids[index].slots| >= t.degree - 1
            && (|kids[index].slots| >= t.degree
                || LeafBytes(EntriesOf(kids[index].slots)) >= PAGE_SIZE * t.repairPercent / 100) ==>
              kids' == kids && children' == children
    // It is joined with its left neighbour, the leftmost one with its right neighbour.
    ensures r.Done? && h == 0 && |kids| >= 2
            && (|kids[index].slots| < t.degree - 1
                || (|kids[index].slots| == t.degree - 1
                    && LeafBytes(EntriesOf(kids[index].slots)) < PAGE_SIZE * t.repairPercent / 100)) ==>
              && LeafPair(kids, PairAt(index))
              && Repaired(t.degree, PairEntries(kids, PairAt(index)), kids, PairAt(index), kids')
  {
    hide Owns, Frame, IdsAll, FlatAll, KeysFit, RoomFor, Rep, RepAll, Full, Balanced, Flat, Repaired, BelowRepairFill,
      LeafBytes, Underfull;
    if kids[index].Leaf? {
      UnderfullPage(t.degree, t.repairPercent, t.State(), children, kids, index, t.first, live);
      UnderfullMeans(t.degree, t.repairPercent, kids[index]);
    }
    FrameReflexive(t.State(), t.revision);
    FrameWiden(t.State(), t.State(), {}, {kids[index].id}, t.revision);
    children', kids' := children, kids;
    KidPage(t, t.State(), children, kids, index, live);
    Heights(kids, index, h, lo, t.degree, index);
    FullIffBalanced(kids[index], h, lo, t.degree);
    var child := t.pages[children[index]];
    if |children| <= 1 || !child.LeafPage? || !NeedsRepair(t.degree, t.repairPercent, child) {
      LeafNotRepaired(kids, index, h, lo, t.degree, FlatAll(kids));
      return Done, children, kids;
    }
    if index > 0 {
      KidPage(t, t.State(), children, kids, index - 1, live);
      Heights(kids, index, h, lo, t.degree, index - 1);
      var left := t.pages[children[index - 1]];
      if left.LeafPage? {
        r, children', kids' := RepairLeafPair(t, children, index - 1, index - 1,
            Loaded(left.entries) + Loaded(child.entries), kids, lo, live);
        return;
      }
    }
    if index + 1 < |children| {
      KidPage(t, t.State(), children, kids, index + 1, live);
      Heights(kids, index, h, lo, t.degree, index + 1);
      var right := t.pages[children[index + 1]];
      if right.LeafPage? {
        r, children', kids' := RepairLeafPair(t, children, index, index + 1,
            Loaded(child.entries) + Loaded(right.entries), kids, lo, live);
        return;
      }
    }
    return Done, children, kids;
  }

  // What repair looks at is the same for a leaf page and its node.
  lemma UnderfullPage(d: nat, percent: nat, s: Store, children: seq<PageId>, kids: seq<Node>, index: nat, first: PageId,
          live: multiset<PageId>)
    requires d >= 2 && Forest(first, s, children, kids, live) && index < |kids| && kids[index].Leaf?
    ensures |children| == |kids| && children[index] in s.pages && s.pages[children[index]].LeafPage?
    ensures Underfull(d, percent, kids[index]) <==> NeedsRepair(d, percent, s.pages[children[index]])
  {
    hide Owns, IdsAll, FlatAll, SumEntryBytes, SlotsRep;
    assert Rep(s.pages, kids[index]);
  }

  lemma LeafNotRepaired(kids: seq<Node>, index: nat, h: nat, lo: nat, d: nat, s: seq<KV>)
    requires OneDeficit(kids, index, h, lo, d) && RoomFor(lo, d, s)
    ensures h == 0 && (kids[index].Count() >= d - 1 || lo == 0) ==> AllFull(kids, h, lo, d)
  {
    hide Full, Balanced, AllSmall, Fitting;
    if h == 0 && (kids[index].Count() >= d - 1 || lo == 0) {
      Heights(kids, index, h, lo, d, index);
      NoDeficit(kids, index, h, lo, d);
    }
  }

  // ---- Two neighbouring branches ----

  ghost predicate BranchPair(kids: seq<Node>, i: nat) {
    i + 1 < |kids| && kids[i].Branch? && kids[i + 1].Branch?
  }

  // The children of the branches at `i` and `i + 1`.
  ghost function Grandkids(kids: seq<Node>, i: nat): seq<Node>
    requires BranchPair(kids, i)
  {
    kids[i].kids + kids[i + 1].kids
  }

  lemma BranchPairSource(t: Tree, s: Store, children: seq<PageId>, kids: seq<Node>, i: nat, h: nat, lo: nat,
          live: multiset<PageId>)
    requires Forest(t.first, s, children, kids, live) && BranchPair(kids, i) && t.degree >= 2
    requires Balanced(kids[i], h, lo, t.degree) && Balanced(kids[i + 1], h, lo, t.degree)
    ensures var g := Grandkids(kids, i);
            && h > 0 && AllFull(g, h - 1, lo, t.degree) && RepAll(s.pages, g)
            && FlatAll(g) == Flat(kids[i]) + Flat(kids[i + 1])
            && Owns(t.first, s,
              (live + OthersOfPair(kids, i)) + multiset{kids[i].id} + multiset{kids[i + 1].id} + IdsAll(g))
    ensures KeysFit(t.degree, FlatAll(kids)) ==> KeysFit(t.degree, FlatAll(Grandkids(kids, i)))
  {
    hide Owns, IdsAll, FlatAll, LeafIdsAll, KeyFits, Full;
    var l, r := kids[i], kids[i + 1];
    var g := Grandkids(kids, i);
    assert Rep(s.pages, l) && Rep(s.pages, r);
    RepAllConcat(s.pages, l.kids, r.kids);
    PairAround(kids, i);
    ConcatAll(l.kids, r.kids);
    OfBranch(l.id, l.kids);
    OfBranch(r.id, r.kids);
    assert live + IdsAll(kids) == (live + OthersOfPair(kids, i)) + multiset{l.id} + multiset{r.id} + IdsAll(g);
    if KeysFit(t.degree, FlatAll(kids)) {
      KeysFitPart(t.degree, FlatAll(kids[..i]), Flat(l) + Flat(r), FlatAll(kids[i + 2..]));
    }
  }

  // The grandchildren before `cut` go to the left page, the others to the right page.
  method RewriteBranchPair(t: Tree, children: seq<PageId>, i: nat, grand: seq<PageId>, cut: nat,
                           ghost kids: seq<Node>, ghost h: nat, ghost lo: nat, ghost live: multiset<PageId>)
    returns (r: Status, ghost kids': seq<Node>)
    requires Forest(t.first, t.State(), children, kids, live) && BranchPair(kids, i) && t.degree >= 2
    requires Balanced(kids[i], h, lo, t.degree) && Balanced(kids[i + 1], h, lo, t.degree)
    requires grand == RootIds(Grandkids(kids, i))
    requires 1 <= cut <= 2 * t.degree && 1 <= |Grandkids(kids, i)| - cut <= 2 * t.degree
    modifies t`pages
    ensures |children| == |kids|
    ensures Frame(old(t.State()), t.State(), {kids[i].id, kids[i + 1].id}, t.revision)
    ensures KeysFit(t.degree, FlatAll(kids)) ==> r.Done?
    ensures kids' == kids[..i] + [Branch(kids[i].id, Grandkids(kids, i)[..cut]),
              Branch(kids[i + 1].id, Grandkids(kids, i)[cut..])] + kids[i + 2..]
    ensures r.Done? ==> Forest(t.first, t.State(), children, kids', live) && FlatAll(kids') == FlatAll(kids)
    ensures h > 0 && AllFull(Grandkids(kids, i), h - 1, lo, t.degree)
  {
    hide Owns, Frame, IdsAll, FlatAll, KeysFit, Rep, RepAll, AllFull, Balanced, Flat, OthersOfPair;
    ghost var s0 := t.State();
    BranchPairSource(t, s0, children, kids, i, h, lo, live);
    KidPage(t, s0, children, kids, i, live);
    KidPage(t, s0, children, kids, i + 1, live);
    ghost var g := Grandkids(kids, i);
    ghost var l, rt := Branch(children[i], g[..cut]), Branch(children[i + 1], g[cut..]);
    r := WriteBranchPair(t, children[i], children[i + 1], grand, cut, g, h - 1, lo, live + OthersOfPair(kids, i));
    kids' := kids[..i] + [l, rt] + kids[i + 2..];
    if r.Panic? {
      return;
    }
    CutAll(t.pages, g, cut, h - 1, lo, t.degree);
    OfBranch(l.id, l.kids);
    OfBranch(rt.id, rt.kids);
    PairAll(l, rt);
    TwoRep(t.pages, l, rt);
    IdsBelow(kids[i]);
    IdsBelow(kids[i + 1]);
    assert (live + OthersOfPair(kids, i)) + (Ids(l) + Ids(rt)) == (live + OthersOfPair(kids, i)) + IdsAll([l, rt]);
    ReplacePair(t.first, s0, t.State(), {children[i], children[i + 1]}, t.revision, children, kids, i, [l, rt], live);
    assert children == children[..i] + RootIds([l, rt]) + children[i + 2..];
  }

  // Two writeBranchChildren calls: grand[..cut] on one page, grand[cut..] on the other.
  method WriteBranchPair(t: Tree, leftId: PageId, rightId: PageId, grand: seq<PageId>, cut: nat, ghost g: seq<Node>,
                         ghost h: nat, ghost lo: nat, ghost rest: multiset<PageId>)
    returns (r: Status)
    requires t.degree >= 2 && grand == RootIds(g) && RepAll(t.pages, g) && AllFull(g, h, lo, t.degree)
    requires 1 <= cut <= 2 * t.degree && 1 <= |g| - cut <= 2 * t.degree
    requires Owns(t.first, t.State(), rest + multiset{leftId} + multiset{rightId} + IdsAll(g))
    modifies t`pages
    ensures Frame(old(t.State()), t.State(), {leftId, rightId}, t.revision)
    ensures KeysFit(t.degree, FlatAll(g)) ==> r.Done?
    ensures r.Done? ==>
              && Rep(t.pages, Branch(leftId, g[..cut])) && Rep(t.pages, Branch(rightId, g[cut..])) && RepAll(t.pages, g)
              && Owns(t.first, t.State(), rest + (Ids(Branch(leftId, g[..cut])) + Ids(Branch(rightId, g[cut..]))))
  {
    hide Owns, Frame, IdsAll, FlatAll, KeysFit, Rep, RepAll, AllFull, Flat;
    ghost var s0 := t.State();
    ghost var gl, gr := g[..cut], g[cut..];
    CutAll(s0.pages, g, cut, h, lo, t.degree);
    ghost var l, rt := Branch(leftId, gl), Branch(rightId, gr);
    ghost var live := rest + multiset{leftId} + multiset{rightId} + IdsAll(g);
    assert live == (rest + Ids(rt)) + Ids(l) == (rest + Ids(l)) + Ids(rt) == rest + (Ids(l) + Ids(rt));
    r := WriteBranchChildren(t, leftId, grand[..cut], gl, h, lo, rest + Ids(rt));
    ghost var s1 := t.State();
    FrameWiden(s0, s1, {leftId}, {leftId, rightId}, t.revision);
    if r.Panic? {
      return;
    }
    assert live == (rest + multiset{leftId} + multiset{rightId}) + IdsAll(g);
    KeepAll(t.first, s0, s1, {leftId}, t.revision, g, rest + multiset{leftId} + multiset{rightId});
    CutAll(s1.pages, g, cut, h, lo, t.degree);
    r := WriteBranchChildren(t, rightId, grand[cut..], gr, h, lo, rest + Ids(l));
    KeepRep(t.first, s1, t.State(), {rightId}, t.revision, l, rest + Ids(rt));
    KeepAll(t.first, s1, t.State(), {rightId}, t.revision, g, rest + multiset{leftId} + multiset{rightId});
    FrameTransitive(s0, s1, t.State(), {leftId, rightId}, {rightId}, t.revision);
  }

  // All the grandchildren go to the left page, and the right page is retired.
  method MergeBranchPair(t: Tree, children: seq<PageId>, i: nat, grand: seq<PageId>,
                         ghost kids: seq<Node>, ghost h: nat, ghost lo: nat, ghost live: multiset<PageId>)
    returns (r: Status, children': seq<PageId>, ghost kids': seq<Node>)
    requires Forest(t.first, t.State(), children, kids, live) && BranchPair(kids, i) && t.degree >= 2
    requires Balanced(kids[i], h, lo, t.degree) && Balanced(kids[i + 1], h, lo, t.degree)
    requires grand == RootIds(Grandkids(kids, i)) && BranchBytes(Separators(Grandkids(kids, i))) <= PAGE_SIZE
    requires 1 <= |Grandkids(kids, i)| <= 2 * t.degree
    modifies t`pages, t`retired
    ensures r.Done? && |children| == |kids|
    ensures Frame(old(t.State()), t.State(), {kids[i].id}, t.revision)
    ensures kids' == kids[..i] + [Branch(kids[i].id, Grandkids(kids, i))] + kids[i + 2..]
            && children' == RemoveAt(children, i + 1)
    ensures Forest(t.first, t.State(), children', kids', live) && FlatAll(kids') == FlatAll(kids)
    ensures h > 0 && AllFull(Grandkids(kids, i), h - 1, lo, t.degree)
  {
    hide Owns, Frame, IdsAll, FlatAll, KeysFit, Rep, RepAll, AllFull, Balanced, Flat, OthersOfPair, BranchBytes;
    ghost var s0 := t.State();
    BranchPairSource(t, s0, children, kids, i, h, lo, live);
    KidPage(t, s0, children, kids, i, live);
    KidPage(t, s0, children, kids, i + 1, live);
    ghost var g := Grandkids(kids, i);
    ghost var rest := live + OthersOfPair(kids, i);
    var id, gone := children[i], children[i + 1];
    ghost var made := Branch(id, g);
    OfBranch(id, g);
    assert rest + multiset{id} + multiset{gone} + IdsAll(g) == (rest + multiset{gone}) + Ids(made);
    r := WriteBranchChildren(t, id, grand, g, h - 1, lo, rest + multiset{gone});
    ghost var s1 := t.State();
    assert (rest + multiset{gone}) + Ids(made) == (rest + Ids(made)) + multiset{gone};
    t.RetirePage(gone, rest + Ids(made));
    FrameTransitive(s0, s1, t.State(), {id}, {}, t.revision);
    One(made);
    OneRep(t.pages, made);
    IdsBelow(kids[i]);
    ReplacePair(t.first, s0, t.State(), {id}, t.revision, children, kids, i, [made], live);
    kids' := kids[..i] + [made] + kids[i + 2..];
    children' := RemoveAt(children, i + 1);
    assert children' == children[..i] + RootIds([made]) + children[i + 2..];
  }

  // ---- Repairing an underfull branch ----

  // A pair of branches of which one has lost a child.
  ghost predicate BranchPairReady(kids: seq<Node>, i: nat, h: nat, lo: nat, d: nat) {
    && BranchPair(kids, i) && d >= 2 && h > 0
    && Balanced(kids[i], h, lo, d) && Balanced(kids[i + 1], h, lo, d)
    && (forall j :: 0 <= j < |kids| && j != i && j != i + 1 ==> Full(kids[j], h, lo, d))
    && (if lo == 0 then 2 else 2 * d - 1) <= |Grandkids(kids, i)| <= 3 * d
  }

  lemma BranchPairIsReady(kids: seq<Node>, index: nat, i: nat, h: nat, lo: nat, d: nat)
    requires OneDeficit(kids, index, h, lo, d) && h > 0 && i + 1 < |kids| && (index == i || index == i + 1)
    requires kids[index].Count() <= d
    ensures BranchPairReady(kids, i, h, lo, d)
  {
    hide Full, Balanced;
    Heights(kids, index, h, lo, d, i);
    Heights(kids, index, h, lo, d, i + 1);
    FullIffBalanced(kids[i], h, lo, d);
    FullIffBalanced(kids[i + 1], h, lo, d);
    BranchAtMost(kids[i], h, lo, d);
    BranchAtMost(kids[i + 1], h, lo, d);
  }

  lemma BranchAtMost(n: Node, h: nat, lo: nat, d: nat)
    requires n.Branch? && Balanced(n, h, lo, d)
    ensures |n.kids| <= 2 * d
  {
  }

  lemma CopiedBranchPair(kids: seq<Node>, i: nat, sibling: nat, newId: PageId, h: nat, lo: nat, d: nat)
    requires BranchPairReady(kids, i, h, lo, d) && (sibling == i || sibling == i + 1)
    ensures BranchPairReady(kids[sibling := WithId(kids[sibling], newId)], i, h, lo, d)
    ensures Grandkids(kids[sibling := WithId(kids[sibling], newId)], i) == Grandkids(kids, i)
  {
    hide Full, Balanced;
    WithIdSame(kids[sibling], newId);
  }

  // The branches of the pair after repair are full.
  lemma RewrittenIsFull(kids: seq<Node>, i: nat, cut: nat, h: nat, lo: nat, d: nat)
    requires BranchPairReady(kids, i, h, lo, d) && AllFull(Grandkids(kids, i), h - 1, lo, d)
    requires KidMin(lo, d) <= cut <= 2 * d && KidMin(lo, d) <= |Grandkids(kids, i)| - cut <= 2 * d
    ensures AllFull(kids[..i]
                    + [Branch(kids[i].id, Grandkids(kids, i)[..cut]), Branch(kids[i + 1].id, Grandkids(kids, i)[cut..])]
                    + kids[i + 2..], h, lo, d)
  {
    hide Full, Balanced;
    var g := Grandkids(kids, i);
    BranchBalanced(kids[i].id, g[..cut], h, lo, d);
    BranchBalanced(kids[i + 1].id, g[cut..], h, lo, d);
    AllFullPair(kids, i, [Branch(kids[i].id, g[..cut]), Branch(kids[i + 1].id, g[cut..])], h, lo, d);
  }

  lemma MergedIsFull(kids: seq<Node>, i: nat, h: nat, lo: nat, d: nat)
    requires BranchPairReady(kids, i, h, lo, d) && AllFull(Grandkids(kids, i), h - 1, lo, d)
             && |Grandkids(kids, i)| <= 2 * d
    ensures AllFull(kids[..i] + [Branch(kids[i].id, Grandkids(kids, i))] + kids[i + 2..], h, lo, d)
  {
    hide Full, Balanced;
    BranchBalanced(kids[i].id, Grandkids(kids, i), h, lo, d);
    AllFullPair(kids, i, [Branch(kids[i].id, Grandkids(kids, i))], h, lo, d);
  }

  lemma GrandForest(t: Tree, s: Store, children: seq<PageId>, kids: seq<Node>, i: nat, h: nat, lo: nat,
          live: multiset<PageId>)
    requires Forest(t.first, s, children, kids, live) && BranchPairReady(kids, i, h, lo, t.degree)
    ensures |children| == |kids|
    ensures children[i] in s.pages
            && s.pages[children[i]] == BranchPage(Separators(kids[i].kids), RootIds(kids[i].kids))
    ensures children[i + 1] in s.pages
            && s.pages[children[i + 1]] == BranchPage(Separators(kids[i + 1].kids), RootIds(kids[i + 1].kids))
    ensures RootIds(Grandkids(kids, i)) == RootIds(kids[i].kids) + RootIds(kids[i + 1].kids)
    ensures AllFull(Grandkids(kids, i), h - 1, lo, t.degree)
    ensures KeysFit(t.degree, FlatAll(kids)) ==> KeysFit(t.degree, FlatAll(Grandkids(kids, i)))
    ensures Forest(t.first, s, RootIds(Grandkids(kids, i)), Grandkids(kids, i),
                   (live + OthersOfPair(kids, i)) + multiset{kids[i].id} + multiset{kids[i + 1].id})
  {
    hide Owns, IdsAll, FlatAll, KeysFit, Full, Balanced, Rep, RepAll, FirstKey, AllFull, OthersOfPair, Separators,
      RootIds, Flat;
    BranchPairSource(t, s, children, kids, i, h, lo, live);
    KidPage(t, s, children, kids, i, live);
    KidPage(t, s, children, kids, i + 1, live);
    RootIdsConcat(kids[i].kids, kids[i + 1].kids);
  }

  // branchChildrenFitPage and the count test beside it: the branches become one.
  ghost predicate Joins(d: nat, g: seq<Node>) {
    |g| <= 2 * d && BranchBytes(Separators(g)) <= PAGE_SIZE
  }

  // The branches at `i` and `i + 1` after repair: one branch with all their children, or two
  // with the children divided as balanced as can be. The other children stay.
  ghost predicate BranchesRepaired(d: nat, kids: seq<Node>, i: nat, kids': seq<Node>)
    requires BranchPair(kids, i)
  {
    var g := Grandkids(kids, i);
    if Joins(d, g) then
      && |kids'| == |kids| - 1 && kids' == kids[..i] + [kids'[i]] + kids[i + 2..]
      && kids'[i].Branch? && kids'[i].kids == g
    else
      && |kids'| == |kids| && kids' == kids[..i] + [kids'[i], kids'[i + 1]] + kids[i + 2..]
      && BranchPair(kids', i) && Divided(d, g, kids'[i].kids, kids'[i + 1].kids)
  }

  // With fewer than 2d children, which only keys too long for a page keep apart, each side
  // gets half.
  ghost predicate Divided(d: nat, g: seq<Node>, left: seq<Node>, right: seq<Node>) {
    && left + right == g && (|g| < 2 * d ==> |left| == |g| / 2)
    && (|g| >= 2 * d ==>
          && d <= |left| <= 2 * d && d <= |right| <= 2 * d
          && forall cut ::
            d <= cut <= 2 * d && d <= |g| - cut <= 2 * d ==>
              var l, r := BranchBytes(Separators(left)), BranchBytes(Separators(right));
              var l', r' := BranchBytes(Separators(g[..cut])), BranchBytes(Separators(g[cut..]));
              && Max(l, r) - Min(l, r) <= Max(l', r') - Min(l', r')
              && (cut < |left| ==> Max(l, r) - Min(l, r) < Max(l', r') - Min(l', r')))
  }

  method RepairBranchPair(t: Tree, children: seq<PageId>, i: nat, sibling: nat,
                          ghost kids: seq<Node>, ghost h: nat, ghost lo: nat, ghost live: multiset<PageId>)
    returns (r: Status, children': seq<PageId>, ghost kids': seq<Node>)
    requires Forest(t.first, t.State(), children, kids, live) && BranchPairReady(kids, i, h, lo, t.degree)
    requires (sibling == i || sibling == i + 1) && Fitting(lo, t.degree, FlatAll(kids))
    modifies t`pages, t`nextPage, t`free, t`retired, t`reused
    ensures Frame(old(t.State()), t.State(), {kids[if sibling == i then i + 1 else i].id}, t.revision)
    ensures t.growLimit.None? && KeysFit(t.degree, FlatAll(kids)) ==> r.Done?
    ensures r.Done? ==>
              && Forest(t.first, t.State(), children', kids', live) && FlatAll(kids') == FlatAll(kids)
              && |kids| - 1 <= |kids'| <= |kids| && AllFull(kids', h, lo, t.degree)
              && BranchPair(kids, i) && BranchesRepaired(t.degree, kids, i, kids')
  {
    hide Owns, Frame, IdsAll, FlatAll, KeysFit, Full, Balanced, Rep, RepAll, FirstKey, AllFull, Available,
      BranchPairReady, Forest, BranchBytes, Divided;
    ghost var s0 := t.State();
    children', kids' := children, kids;
    GrandForest(t, s0, children, kids, i, h, lo, live);
    ReadyParts(kids, i, h, lo, t.degree);
    var grand := t.pages[children[i]].children + t.pages[children[i + 1]].children;
    ghost var g := Grandkids(kids, i);
    var bytes := BranchChildrenBytes(t, grand, g, h - 1, lo,
        (live + OthersOfPair(kids, i)) + multiset{kids[i].id} + multiset{kids[i + 1].id});
    if |g| <= 2 * t.degree && KeysFit(t.degree, FlatAll(kids)) {
      SeparatorsOfFit(g, h - 1, lo, t.degree);
    }
    ghost var own := {kids[if sibling == i then i + 1 else i].id};
    var merges := |grand| <= MaxKeys(t.degree) + 1 && bytes <= PAGE_SIZE;
    if merges && sibling == i + 1 {
      r, children', kids' := MergeBranchPair(t, children, i, grand, kids, h, lo, live);
      MergedIsFull(kids, i, h, lo, t.degree);
      return;
    }
    var newId;
    r, children', newId, kids' := CopyKid(t, children, sibling, kids, live);
    ghost var s1 := t.State();
    FrameWiden(s0, s1, {}, own, t.revision);
    if r.Panic? {
      return;
    }
    CopiedBranchPair(kids, i, sibling, newId, h, lo, t.degree);
    ReadyParts(kids', i, h, lo, t.degree);
    ghost var pair := {kids'[i].id, kids'[i + 1].id};
    assert pair == own + {newId};
    r, children', kids' := SettleBranchPair(t, children', i, grand, merges, kids', h, lo, live);
    FrameTransitive(s0, s1, t.State(), own, pair, t.revision);
  }

  lemma ReadyParts(kids: seq<Node>, i: nat, h: nat, lo: nat, d: nat)
    requires BranchPairReady(kids, i, h, lo, d)
    ensures BranchPair(kids, i) && d >= 2 && h > 0 && Balanced(kids[i], h, lo, d) && Balanced(kids[i + 1], h, lo, d)
    ensures (if lo == 0 then 2 else 2 * d - 1) <= |Grandkids(kids, i)| <= 3 * d
  {
  }

  lemma DividedAt(d: nat, g: seq<Node>, cut: nat)
    requires 1 <= cut < |g| <= 4 * d
    requires 2 * d <= |g| ==>
               && d <= cut <= 2 * d && d <= |g| - cut <= 2 * d
               && forall c :: d <= c <= 2 * d && d <= |g| - c <= 2 * d ==>
                    var l, r := BranchBytes(Separators(g[..cut])), BranchBytes(Separators(g[cut..]));
                    var l', r' := BranchBytes(Separators(g[..c])), BranchBytes(Separators(g[c..]));
                    && Max(l, r) - Min(l, r) <= Max(l', r') - Min(l', r')
                    && (c < cut ==> Max(l, r) - Min(l, r) < Max(l', r') - Min(l', r'))
    requires !(2 * d <= |g|) ==> cut == |g| / 2
    ensures Divided(d, g, g[..cut], g[cut..])
  {
    hide BranchBytes, Separators;
  }

  method SettleBranchPair(t: Tree, children: seq<PageId>, i: nat, grand: seq<PageId>, merges: bool,
                          ghost kids: seq<Node>, ghost h: nat, ghost lo: nat, ghost live: multiset<PageId>)
    returns (r: Status, children': seq<PageId>, ghost kids': seq<Node>)
    requires Forest(t.first, t.State(), children, kids, live) && BranchPairReady(kids, i, h, lo, t.degree)
    requires grand == RootIds(Grandkids(kids, i)) && (merges <==> Joins(t.degree, Grandkids(kids, i)))
    requires lo >= 1 && !merges ==> |Grandkids(kids, i)| > 2 * t.degree
    modifies t`pages, t`nextPage, t`free, t`retired, t`reused
    ensures Frame(old(t.State()), t.State(), {kids[i].id, kids[i + 1].id}, t.revision)
    ensures KeysFit(t.degree, FlatAll(kids)) ==> r.Done?
    ensures r.Done? ==>
              && Forest(t.first, t.State(), children', kids', live) && FlatAll(kids') == FlatAll(kids)
              && |kids| - 1 <= |kids'| <= |kids| && AllFull(kids', h, lo, t.degree)
              && BranchPair(kids, i) && BranchesRepaired(t.degree, kids, i, kids')
  {
    hide Owns, Frame, IdsAll, FlatAll, KeysFit, Full, Balanced, Rep, RepAll, FirstKey, AllFull, BranchPairReady, Forest,
      ChildImbalance, Divided;
    ghost var s0 := t.State();
    ReadyParts(kids, i, h, lo, t.degree);
    GrandForest(t, s0, children, kids, i, h, lo, live);
    if merges {
      r, children', kids' := MergeBranchPair(t, children, i, grand, kids, h, lo, live);
      FrameWiden(s0, t.State(), {kids[i].id}, {kids[i].id, kids[i + 1].id}, t.revision);
      MergedIsFull(kids, i, h, lo, t.degree);
    } else {
      var cut := BranchChildSplitIndex(t, grand, Grandkids(kids, i), h - 1, lo,
                                       (live + OthersOfPair(kids, i)) + multiset{kids[i].id}
                                         + multiset{kids[i + 1].id});
      children' := children;
      DividedAt(t.degree, Grandkids(kids, i), cut);
      r, kids' := RewriteBranchPair(t, children, i, grand, cut, kids, h, lo, live);
      RewrittenIsFull(kids, i, cut, h, lo, t.degree);
    }
  }

  method MergeUnderfullBranch(t: Tree, children: seq<PageId>, index: nat, ghost kids: seq<Node>, ghost h: nat,
          ghost lo: nat, ghost live: multiset<PageId>)
    returns (r: Status, children': seq<PageId>, ghost kids': seq<Node>)
    requires t.degree >= 2 && Forest(t.first, t.State(), children, kids, live) && Fitting(lo, t.degree, FlatAll(kids))
    requires if h == 0 then AllFull(kids, h, lo, t.degree)
             else (|kids| >= 2 || lo == 0) && OneDeficit(kids, index, h, lo, t.degree)
    modifies t`pages, t`nextPage, t`free, t`retired, t`reused
    ensures Frame(old(t.State()), t.State(), if h > 0 then {kids[index].id} else {}, t.revision)
    ensures t.growLimit.None? && KeysFit(t.degree, FlatAll(kids)) ==> r.Done?
    ensures r.Done? ==>
              && Forest(t.first, t.State(), children', kids', live) && FlatAll(kids') == FlatAll(kids)
              && |kids| - 1 <= |kids'| <= |kids| && AllFull(kids', h, lo, t.degree)
              && (h == 0 || |kids| < 2 ==> kids' == kids)
    // A branch is due for repair below d children, or with d children whose separators have
    // fewer bytes than the given part of a page; otherwise all branches stay.
    ensures r.Done? && h > 0 ==> index < |kids| && kids[index].Branch?
    ensures r.Done? && h > 0 && |kids| >= 2
            && |kids[index].kids| >= t.degree
            && (|kids[index].kids| > t.degree
                || BranchBytes(Separators(kids[index].kids)) >= PAGE_SIZE * t.repairPercent / 100) ==>
              kids' == kids
    ensures r.Done? && h > 0 && |kids| >= 2
            && (|kids[index].kids| < t.degree
                || (|kids[index].kids| == t.degree
                    && BranchBytes(Separators(kids[index].kids)) < PAGE_SIZE * t.repairPercent / 100)) ==>
              && BranchPair(kids, PairAt(index)) && BranchesRepaired(t.degree, kids, PairAt(index), kids')
  {
    hide Owns, Frame, IdsAll, FlatAll, KeysFit, Rep, RepAll, Full, Balanced, FirstKey, AllFull, BelowRepairFill,
      Divided, BranchBytes;
    FrameReflexive(t.State(), t.revision);
    FrameWiden(t.State(), t.State(), {}, if h > 0 then {kids[index].id} else {}, t.revision);
    children', kids' := children, kids;
    if h > 0 {
      Heights(kids, index, h, lo, t.degree, index);
      UnderfullBranchMeans(t.degree, t.repairPercent, kids[index]);
    }
    ForestSize(t.first, t.State(), children, kids, live);
    if |children| <= 1 || index >= |children| {
      if h > 0 {
        NoDeficit(kids, index, h, lo, t.degree);
      }
      return Done, children, kids;
    }
    KidPage(t, t.State(), children, kids, index, live);
    if h == 0 {
      LeavesOnly(kids, index, lo, t.degree);
    }
    var child := t.pages[children[index]];
    if !child.BranchPage? || !NeedsRepair(t.degree, t.repairPercent, child) {
      if h > 0 {
        Heights(kids, index, h, lo, t.degree, index);
        NoDeficit(kids, index, h, lo, t.degree);
      }
      return Done, children, kids;
    }
    assert |Separators(kids[index].kids)| == |kids[index].kids| - 1;
    if index > 0 {
      KidPage(t, t.State(), children, kids, index - 1, live);
      Heights(kids, index, h, lo, t.degree, index - 1);
      if t.pages[children[index - 1]].BranchPage? {
        BranchPairIsReady(kids, index, index - 1, h, lo, t.degree);
        r, children', kids' := RepairBranchPair(t, children, index - 1, index - 1, kids, h, lo, live);
        return;
      }
    }
    if index + 1 < |children| {
      KidPage(t, t.State(), children, kids, index + 1, live);
      Heights(kids, index, h, lo, t.degree, index + 1);
      if t.pages[children[index + 1]].BranchPage? {
        BranchPairIsReady(kids, index, index, h, lo, t.degree);
        r, children', kids' := RepairBranchPair(t, children, index, index + 1, kids, h, lo, live);
        return;
      }
    }
    return Done, children, kids;
  }

  lemma LeavesOnly(kids: seq<Node>, index: nat, lo: nat, d: nat)
    requires AllFull(kids, 0, lo, d) && index < |kids|
    ensures kids[index].Leaf?
  {
  }

  // ---- Borrowing before the descent ----

  lemma BorrowReady(kids: seq<Node>, i: nat, h: nat, lo: nat, d: nat)
    requires BranchPair(kids, i) && AllFull(kids, h, lo, d) && d >= 2
    requires (kids[i].Count() <= d && kids[i + 1].Count() > d) || (kids[i + 1].Count() <= d && kids[i].Count() > d)
    ensures BranchPairReady(kids, i, h, lo, d)
    ensures |Grandkids(kids, i)| == |kids[i].kids| + |kids[i + 1].kids|
  {
  }

  // Copy both branches of a pair, and move the first or last grandchild across.
  method BorrowAcross(t: Tree, children: seq<PageId>, i: nat, cut: nat, ghost kids: seq<Node>, ghost h: nat,
          ghost lo: nat, ghost live: multiset<PageId>)
    returns (r: Status, children': seq<PageId>, ghost kids': seq<Node>)
    requires Forest(t.first, t.State(), children, kids, live) && BranchPairReady(kids, i, h, lo, t.degree)
    requires KidMin(lo, t.degree) <= cut <= 2 * t.degree
             && KidMin(lo, t.degree) <= |Grandkids(kids, i)| - cut <= 2 * t.degree
    modifies t`pages, t`nextPage, t`free, t`retired, t`reused
    ensures Frame(old(t.State()), t.State(), {}, t.revision)
    ensures t.growLimit.None? && KeysFit(t.degree, FlatAll(kids)) ==> r.Done?
    ensures r.Done? ==>
              && Forest(t.first, t.State(), children', kids', live) && FlatAll(kids') == FlatAll(kids)
              && |kids'| == |kids| && AllFull(kids', h, lo, t.degree)
              && Available(old(t.State()), children'[i]) && Available(old(t.State()), children'[i + 1])
              && kids' == kids[i := kids'[i]][i + 1 := kids'[i + 1]]
              && kids'[i] == Branch(children'[i], Grandkids(kids, i)[..cut])
              && kids'[i + 1] == Branch(children'[i + 1], Grandkids(kids, i)[cut..])
  {
    hide Owns, Frame, IdsAll, FlatAll, KeysFit, Rep, RepAll, Full, Balanced, AllFull, Available, BranchPairReady,
      Forest;
    ghost var s0 := t.State();
    children', kids' := children, kids;
    ReadyParts(kids, i, h, lo, t.degree);
    ForestSize(t.first, s0, children, kids, live);
    var leftId, rightId;
    r, children', leftId, kids' := CopyKid(t, children, i, kids, live);
    ghost var s1 := t.State();
    if r.Panic? {
      return;
    }
    CopiedBranchPair(kids, i, i, leftId, h, lo, t.degree);
    ghost var kids1 := kids';
    r, children', rightId, kids' := CopyKid(t, children', i + 1, kids1, live);
    ghost var s2 := t.State();
    FrameTransitive(s0, s1, s2, {}, {}, t.revision);
    if r.Panic? {
      return;
    }
    AvailableBack(s0, s1, rightId, t.revision);
    CopiedBranchPair(kids1, i, i + 1, rightId, h, lo, t.degree);
    ghost var kids2 := kids';
    ReadyParts(kids2, i, h, lo, t.degree);
    GrandForest(t, s2, children', kids2, i, h, lo, live);
    var grand := t.pages[children'[i]].children + t.pages[children'[i + 1]].children;
    r, kids' := RewriteBranchPair(t, children', i, grand, cut, kids2, h, lo, live);
    FrameTransitive(s0, s2, t.State(), {}, {leftId, rightId}, t.revision);
    if r.Panic? {
      return;
    }
    RewrittenIsFull(kids2, i, cut, h, lo, t.degree);
    ForestSize(t.first, s2, children', kids2, live);
    assert children'[i] == leftId && children'[i + 1] == rightId;
  }

  // The branch at `index` has no child to spare, and the one left or right of it has.
  ghost predicate BorrowsLeft(kids: seq<Node>, index: nat, d: nat)
    requires index < |kids|
  {
    kids[index].Branch? && |kids[index].kids| <= d && index > 0 && kids[index - 1].Branch? && |kids[index - 1].kids| > d
  }

  ghost predicate BorrowsRight(kids: seq<Node>, index: nat, d: nat)
    requires index < |kids|
  {
    && kids[index].Branch? && |kids[index].kids| <= d && !BorrowsLeft(kids, index, d)
    && index + 1 < |kids| && kids[index + 1].Branch? && |kids[index + 1].kids| > d
  }

  // The last child of the left neighbour, or the first one of the right neighbour, moves over.
  ghost predicate Borrowed(kids: seq<Node>, index: nat, d: nat, kids': seq<Node>)
    requires index < |kids| == |kids'|
  {
    && (BorrowsLeft(kids, index, d) ==>
          var left := kids[index - 1].kids;
          && BranchPair(kids', index - 1) && kids'[index - 1].kids == left[..|left| - 1]
          && kids'[index].kids == [left[|left| - 1]] + kids[index].kids
          && kids' == kids[index - 1 := kids'[index - 1]][index := kids'[index]])
    && (BorrowsRight(kids, index, d) ==>
          var right := kids[index + 1].kids;
          && BranchPair(kids', index) && kids'[index].kids == kids[index].kids + [right[0]]
          && kids'[index + 1].kids == right[1..]
          && kids' == kids[index := kids'[index]][index + 1 := kids'[index + 1]])
    && (!BorrowsLeft(kids, index, d) && !BorrowsRight(kids, index, d) ==> kids' == kids)
  }

  // A branch of d-1 keys takes the nearest child of its left neighbour if that has more keys,
  // or else of its right one; nothing else changes.
  lemma BorrowedMeans(kids: seq<Node>, index: nat, d: nat, kids': seq<Node>)
    requires d >= 1 && index < |kids| == |kids'| && Borrowed(kids, index, d, kids')
    ensures var short := kids[index].Branch? && |kids[index].kids| - 1 <= d - 1;
            var left := short && index > 0 && kids[index - 1].Branch? && |kids[index - 1].kids| - 1 > d - 1;
            var right := short && !left && index + 1 < |kids| && kids[index + 1].Branch?
                         && |kids[index + 1].kids| - 1 > d - 1;
            && (left <==> BorrowsLeft(kids, index, d)) && (right <==> BorrowsRight(kids, index, d))
            && (left ==>
                  && kids'[index - 1].Branch? && kids'[index].Branch?
                  && |kids'[index].kids| == |kids[index].kids| + 1 && kids'[index].kids[1..] == kids[index].kids
                  && kids'[index - 1].kids + [kids'[index].kids[0]] == kids[index - 1].kids)
            && (right ==>
                  && kids'[index].Branch? && kids'[index + 1].Branch?
                  && |kids'[index].kids| == |kids[index].kids| + 1
                  && kids'[index].kids[..|kids[index].kids|] == kids[index].kids
                  && [kids'[index].kids[|kids[index].kids|]] + kids'[index + 1].kids == kids[index + 1].kids)
            && (!left && !right ==> kids' == kids)
            && forall i :: 0 <= i < |kids| && i != index && !(left && i + 1 == index) && !(right && i == index + 1) ==>
                 kids'[i] == kids[i]
  {
  }

  // borrowBranchChildBeforeDescent: zero when nothing was borrowed.
  method BorrowBranchChildBeforeDescent(t: Tree, children: seq<PageId>, index: nat, ghost kids: seq<Node>, ghost h: nat,
          ghost lo: nat, ghost live: multiset<PageId>)
    returns (r: Status, children': seq<PageId>, copied: PageId, ghost kids': seq<Node>)
    requires t.degree >= 2 && Forest(t.first, t.State(), children, kids, live) && index < |kids|
    requires AllFull(kids, h, lo, t.degree)
    modifies t`pages, t`nextPage, t`free, t`retired, t`reused
    ensures Frame(old(t.State()), t.State(), {}, t.revision)
    ensures t.growLimit.None? && KeysFit(t.degree, FlatAll(kids)) ==> r.Done?
    ensures r.Done? ==>
              && Forest(t.first, t.State(), children', kids', live) && FlatAll(kids') == FlatAll(kids)
              && |kids'| == |kids| && AllFull(kids', h, lo, t.degree)
              && (forall k :: k in Keys(Flat(kids[index])) ==> k in Keys(Flat(kids'[index])))
              && (copied != 0 ==> copied == children'[index] && Available(old(t.State()), copied))
              && (copied != 0 <==> BorrowsLeft(kids, index, t.degree) || BorrowsRight(kids, index, t.degree))
              && Borrowed(kids, index, t.degree, kids')
  {
    hide Owns, Frame, IdsAll, FlatAll, Flat, KeysFit, Rep, RepAll, Full, Balanced, AllFull, Available, Keys, FirstKey,
      Forest, Borrowed, Grandkids, BranchPairReady, Separators, RootIds;
    ghost var s0 := t.State();
    FrameReflexive(s0, t.revision);
    children', kids', copied := children, kids, 0;
    if !BorrowsLeft(kids, index, t.degree) && !BorrowsRight(kids, index, t.degree) {
      NothingBorrowed(kids, index, t.degree);
    }
    KidPage(t, s0, children, kids, index, live);
    var child := t.pages[children[index]];
    if !child.BranchPage? || |child.keys| > t.degree - 1 {
      return Done, children, 0, kids;
    }
    FullCount(kids, index, h, lo, t.degree);
    if index > 0 {
      KidPage(t, s0, children, kids, index - 1, live);
      var left := t.pages[children[index - 1]];
      if left.BranchPage? && |left.keys| > t.degree - 1 {
        FullCount(kids, index - 1, h, lo, t.degree);
        BorrowReady(kids, index - 1, h, lo, t.degree);
        r, children', kids' := BorrowAcross(t, children, index - 1, |left.children| - 1, kids, h, lo, live);
        if r.Done? {
          ForestIdNonzero(t.first, t.State(), children', kids', index, live);
          LeftBorrowed(kids, index, t.degree, kids');
          copied := children'[index];
        }
        return;
      }
    }
    if index + 1 < |children| {
      KidPage(t, s0, children, kids, index + 1, live);
      var right := t.pages[children[index + 1]];
      if right.BranchPage? && |right.keys| > t.degree - 1 {
        FullCount(kids, index + 1, h, lo, t.degree);
        BorrowReady(kids, index, h, lo, t.degree);
        r, children', kids' := BorrowAcross(t, children, index, |child.children| + 1, kids, h, lo, live);
        if r.Done? {
          ForestIdNonzero(t.first, t.State(), children', kids', index, live);
          RightBorrowed(kids, index, t.degree, kids');
          copied := children'[index];
        }
        return;
      }
    }
    return Done, children, 0, kids;
  }

  lemma NothingBorrowed(kids: seq<Node>, index: nat, d: nat)
    requires index < |kids| && !BorrowsLeft(kids, index, d) && !BorrowsRight(kids, index, d)
    ensures Borrowed(kids, index, d, kids)
  {
  }

  lemma LeftBorrowed(kids: seq<Node>, index: nat, d: nat, kids': seq<Node>)
    requires 0 < index < |kids| == |kids'| && BorrowsLeft(kids, index, d) && BranchPair(kids', index - 1)
    requires kids' == kids[index - 1 := kids'[index - 1]][index := kids'[index]]
    requires var cut := |kids[index - 1].kids| - 1;
             kids'[index - 1].kids == Grandkids(kids, index - 1)[..cut]
               && kids'[index].kids == Grandkids(kids, index - 1)[cut..]
    ensures Borrowed(kids, index, d, kids')
    ensures forall k :: k in Keys(Flat(kids[index])) ==> k in Keys(Flat(kids'[index]))
  {
    hide Flat;
    BorrowedFromLeft(kids, index, kids'[index]);
    var left, child := kids[index - 1].kids, kids[index].kids;
    assert (left + child)[..|left| - 1] == left[..|left| - 1];
    assert (left + child)[|left| - 1..] == [left[|left| - 1]] + child;
  }

  lemma RightBorrowed(kids: seq<Node>, index: nat, d: nat, kids': seq<Node>)
    requires index + 1 < |kids| == |kids'| && BorrowsRight(kids, index, d) && BranchPair(kids', index)
    requires kids' == kids[index := kids'[index]][index + 1 := kids'[index + 1]]
    requires var cut := |kids[index].kids| + 1;
             kids'[index].kids == Grandkids(kids, index)[..cut]
               && kids'[index + 1].kids == Grandkids(kids, index)[cut..]
    ensures Borrowed(kids, index, d, kids')
    ensures forall k :: k in Keys(Flat(kids[index])) ==> k in Keys(Flat(kids'[index]))
  {
    hide Flat;
    BorrowedFromRight(kids, index, kids'[index]);
    var child, right := kids[index].kids, kids[index + 1].kids;
    assert (child + right)[..|child| + 1] == child + [right[0]];
    assert (child + right)[|child| + 1..] == right[1..];
  }

  lemma ForestIdNonzero(first: PageId, s: Store, children: seq<PageId>, kids: seq<Node>, index: nat,
          live: multiset<PageId>)
    requires Forest(first, s, children, kids, live) && index < |kids|
    ensures |children| == |kids| && children[index] != 0
  {
    hide Owns, IdsAll, Rep, FlatAll;
    Around(kids, index);
    IdsBelow(kids[index]);
    LiveIsNotAvailable(first, s, live + IdsAll(kids), kids[index].id);
  }

  lemma FullCount(kids: seq<Node>, i: nat, h: nat, lo: nat, d: nat)
    requires AllFull(kids, h, lo, d) && i < |kids| && kids[i].Branch?
    ensures KidMin(lo, d) <= |kids[i].kids| <= 2 * d
    ensures |Separators(kids[i].kids)| == |kids[i].kids| - 1 || kids[i].kids == []
  {
  }

  lemma BorrowedFromLeft(kids: seq<Node>, index: nat, made: Node)
    requires 0 < index < |kids| && BranchPair(kids, index - 1) && kids[index - 1].kids != []
    requires made.Branch? && made.kids == Grandkids(kids, index - 1)[|kids[index - 1].kids| - 1..]
    ensures forall k :: k in Keys(Flat(kids[index])) ==> k in Keys(Flat(made))
  {
    hide FlatAll, Flat, IdsAll, LeafIdsAll;
    var lk, ck := kids[index - 1].kids, kids[index].kids;
    assert made.kids == [lk[|lk| - 1]] + ck;
    ConcatAll([lk[|lk| - 1]], ck);
    OfBranch(made.id, made.kids);
    OfBranch(kids[index].id, ck);
    KeysConcat(FlatAll([lk[|lk| - 1]]), FlatAll(ck));
  }

  lemma BorrowedFromRight(kids: seq<Node>, index: nat, made: Node)
    requires index + 1 < |kids| && BranchPair(kids, index) && kids[index + 1].kids != []
    requires made.Branch? && made.kids == Grandkids(kids, index)[..|kids[index].kids| + 1]
    ensures forall k :: k in Keys(Flat(kids[index])) ==> k in Keys(Flat(made))
  {
    hide FlatAll, Flat, IdsAll, LeafIdsAll;
    var ck, rk := kids[index].kids, kids[index + 1].kids;
    assert made.kids == ck + [rk[0]];
    ConcatAll(ck, [rk[0]]);
    OfBranch(made.id, made.kids);
    OfBranch(kids[index].id, ck);
    KeysConcat(FlatAll(ck), FlatAll([rk[0]]));
  }

  // ---- Which deletions leave a leaf below d-1 keys ----

  // Every leaf has at least d-1 keys.
  ghost predicate HalfLeaves(d: nat, n: Node)
    decreases n
  {
    match n
    case Leaf(_, slots) => |slots| + 1 >= d
    case Branch(_, kids) => forall i :: 0 <= i < |kids| ==> HalfLeaves(d, kids[i])
  }

  ghost predicate HalfAll(d: nat, kids: seq<Node>) {
    forall i :: 0 <= i < |kids| ==> HalfLeaves(d, kids[i])
  }

  ghost predicate HalfOthers(d: nat, kids: seq<Node>, index: nat) {
    forall i :: 0 <= i < |kids| && i != index ==> HalfLeaves(d, kids[i])
  }

  // The same of the leaves below the top.
  ghost predicate HalfBelow(d: nat, n: Node) {
    n.Branch? ==> HalfAll(d, n.kids)
  }

  // Whether repair of the child at `index`, the others having enough, leaves d-1 keys in
  // every leaf: nothing is left of it, or it has enough, or it shares enough with the
  // neighbour it is joined with.
  ghost predicate RepairKeeps(d: nat, kids: seq<Node>, index: nat)
    requires d >= 2 && index < |kids|
  {
    || Flat(kids[index]) == []
    || HalfLeaves(d, kids[index])
    || (|kids| >= 2 && LeafPair(kids, PairAt(index)) &&
        (Merges(d, PairEntries(kids, PairAt(index))) || |PairEntries(kids, PairAt(index))| >= 2 * d - 2))
  }

  // The children of the child at `i` as deletion finds them, after it has borrowed.
  ghost function Lent(kids: seq<Node>, i: nat, d: nat): seq<Node>
    requires i < |kids| && kids[i].Branch?
  {
    if BorrowsLeft(kids, i, d) then [kids[i - 1].kids[|kids[i - 1].kids| - 1]] + kids[i].kids
    else if BorrowsRight(kids, i, d) then kids[i].kids + [kids[i + 1].kids[0]]
    else kids[i].kids
  }

  // Where deletion of `key` below children of height `h` ends: a leaf among its siblings.
  ghost function Site(o: Order, d: nat, kids: seq<Node>, h: nat, key: Key): (seq<Node>, nat)
    decreases h
  {
    var i := ChildFor(o, Separators(kids), key);
    if h == 0 || i >= |kids| || kids[i].Leaf? then (kids, i) else Site(o, d, Lent(kids, i, d), h - 1, key)
  }

  function Dropped(o: Order, slots: seq<Slot>, key: Key): seq<Slot> {
    if Has(o, Keys(PairsOf(slots)), key) then RemoveAt(slots, LowerBound(o, Keys(PairsOf(slots)), key)) else slots
  }

  // Read off two leaves of the tree before the call: the one that loses the key had more than
  // d-1 keys, or no other; or what remains of it and its neighbour fits one page or is
  // enough for two.
  ghost predicate SiteKeeps(o: Order, d: nat, site: (seq<Node>, nat), key: Key)
    requires d >= 2
  {
    var (leaves, i) := site;
    i < |leaves| && leaves[i].Leaf?
      && RepairKeeps(d, leaves[i := Leaf(leaves[i].id, Dropped(o, leaves[i].slots, key))], i)
  }

  // Deletion of `key` from a tree of height `h` whose leaves have d-1 keys keeps it so.
  ghost predicate StaysHalf(o: Order, d: nat, n: Node, h: nat, key: Key)
    requires d >= 2
  {
    n.Branch? && h > 0 ==> SiteKeeps(o, d, Site(o, d, n.kids, h - 1, key), key)
  }

  lemma HalfReplaced(d: nat, kids: seq<Node>, index: nat, k: Node)
    requires index < |kids| && HalfOthers(d, kids, index)
    ensures HalfOthers(d, kids[index := k], index) && (HalfAll(d, kids[index := k]) <==> HalfLeaves(d, k))
  {
    hide HalfLeaves;
    assert kids[index := k][index] == k;
  }

  lemma HalfConcat(d: nat, a: seq<Node>, b: seq<Node>)
    ensures HalfAll(d, a + b) <==> HalfAll(d, a) && HalfAll(d, b)
  {
    hide HalfLeaves;
    assert forall i :: 0 <= i < |a| ==> (a + b)[i] == a[i];
    assert forall i :: 0 <= i < |b| ==> (a + b)[|a| + i] == b[i];
  }

  // Around a pair of children only the pair counts.
  lemma HalfAroundPair(d: nat, kids: seq<Node>, i: nat, made: seq<Node>)
    requires i + 1 < |kids| && HalfAll(d, kids[..i]) && HalfAll(d, kids[i + 2..])
    ensures HalfAll(d, kids[..i] + made + kids[i + 2..]) <==> HalfAll(d, made)
  {
    hide HalfAll;
    HalfConcat(d, kids[..i] + made, kids[i + 2..]);
    HalfConcat(d, kids[..i], made);
  }

  lemma HalfOutside(d: nat, kids: seq<Node>, index: nat, i: nat)
    requires HalfOthers(d, kids, index) && i + 1 < |kids| && (index == i || index == i + 1)
    ensures HalfAll(d, kids[..i]) && HalfAll(d, kids[i + 2..])
    ensures HalfLeaves(d, kids[if index == i then i + 1 else i])
  {
    hide HalfLeaves;
  }

  lemma HalfWhole(d: nat, kids: seq<Node>, index: nat)
    requires index < |kids| && HalfOthers(d, kids, index)
    ensures HalfAll(d, kids) <==> HalfLeaves(d, kids[index])
  {
    hide HalfLeaves;
  }

  lemma HalfOne(d: nat, n: Node)
    ensures HalfAll(d, [n]) <==> HalfLeaves(d, n)
  {
    hide HalfLeaves;
    assert [n][0] == n;
  }

  lemma HalfTwo(d: nat, l: Node, r: Node)
    ensures HalfAll(d, [l, r]) <==> HalfLeaves(d, l) && HalfLeaves(d, r)
  {
    hide HalfLeaves;
    assert [l, r][0] == l && [l, r][1] == r;
  }

  lemma HalfBranch(d: nat, n: Node)
    requires n.Branch?
    ensures HalfLeaves(d, n) <==> HalfAll(d, n.kids)
  {
  }

  // The child that is left out was empty.
  lemma HalfAfterDrop(d: nat, kids: seq<Node>, index: nat)
    requires d >= 2 && index < |kids| && HalfOthers(d, kids, index) && Flat(kids[index]) == []
    ensures HalfAll(d, kids[..index] + kids[index + 1..]) && RepairKeeps(d, kids, index)
  {
    hide HalfLeaves;
  }

  lemma HalfAfterLeafRepair(d: nat, percent: nat, kids: seq<Node>, index: nat, kids': seq<Node>)
    requires d >= 2 && index < |kids| && kids[index].Leaf? && Flat(kids[index]) != [] && HalfOthers(d, kids, index)
    requires |kids| < 2 || !Underfull(d, percent, kids[index]) ==> kids' == kids
    requires |kids| >= 2 && Underfull(d, percent, kids[index]) ==>
               LeafPair(kids, PairAt(index))
                 && Repaired(d, PairEntries(kids, PairAt(index)), kids, PairAt(index), kids')
    ensures HalfAll(d, kids') <==> RepairKeeps(d, kids, index)
  {
    hide IsBestCut, HalfAll, Merges, HalfOthers, BytesUsed;
    if |kids| < 2 || !Underfull(d, percent, kids[index]) {
      HalfWhole(d, kids, index);
    } else {
      var i := PairAt(index);
      HalfOutside(d, kids, index, i);
      if Merges(d, PairEntries(kids, i)) {
        HalfAroundPair(d, kids, i, [kids'[i]]);
        HalfOne(d, kids'[i]);
      } else {
        HalfAroundPair(d, kids, i, [kids'[i], kids'[i + 1]]);
        HalfTwo(d, kids'[i], kids'[i + 1]);
      }
    }
  }

  // Repairing branches moves leaves about, and changes none.
  lemma HalfAfterBranchRepair(d: nat, percent: nat, kids: seq<Node>, index: nat, kids': seq<Node>)
    requires d >= 2 && index < |kids| && kids[index].Branch? && Flat(kids[index]) != [] && HalfOthers(d, kids, index)
    requires |kids| < 2 || !UnderfullBranch(d, percent, kids[index]) ==> kids' == kids
    requires |kids| >= 2 && UnderfullBranch(d, percent, kids[index]) ==>
               BranchPair(kids, PairAt(index)) && BranchesRepaired(d, kids, PairAt(index), kids')
    ensures HalfAll(d, kids') <==> RepairKeeps(d, kids, index)
  {
    hide HalfAll, HalfOthers, HalfLeaves, UnderfullBranch, Joins, Merges, ChildImbalance;
    HalfWhole(d, kids, index);
    if |kids| >= 2 && UnderfullBranch(d, percent, kids[index]) {
      var i := PairAt(index);
      var l, r := kids[i], kids[i + 1];
      HalfOutside(d, kids, index, i);
      HalfConcat(d, l.kids, r.kids);
      HalfBranch(d, l);
      HalfBranch(d, r);
      if Joins(d, Grandkids(kids, i)) {
        HalfAroundPair(d, kids, i, [kids'[i]]);
        HalfOne(d, kids'[i]);
        HalfBranch(d, kids'[i]);
      } else {
        HalfAroundPair(d, kids, i, [kids'[i], kids'[i + 1]]);
        HalfTwo(d, kids'[i], kids'[i + 1]);
        HalfConcat(d, kids'[i].kids, kids'[i + 1].kids);
        HalfBranch(d, kids'[i]);
        HalfBranch(d, kids'[i + 1]);
      }
    }
  }

  // What deletion finds below the child it enters.
  ghost predicate Steps(d: nat, kids: seq<Node>, index: nat, kids': seq<Node>) {
    && index < |kids| == |kids'| && kids'[index].Leaf? == kids[index].Leaf?
    && (kids[index].Leaf? ==> kids'[index].slots == kids[index].slots && kids' == kids[index := kids'[index]])
    && (kids[index].Branch? ==> kids'[index].kids == Lent(kids, index, d))
    && (HalfAll(d, kids) ==> HalfAll(d, kids'))
    && LeafListsAll(kids') == LeafListsAll(kids)
  }

  lemma BorrowedSteps(d: nat, kids: seq<Node>, index: nat, kids': seq<Node>)
    requires index < |kids| == |kids'| && Borrowed(kids, index, d, kids')
    ensures Steps(d, kids, index, kids')
  {
    hide HalfAll, HalfLeaves, LeafListsAll;
    if BorrowsLeft(kids, index, d) {
      var left := kids[index - 1].kids;
      assert left == left[..|left| - 1] + [left[|left| - 1]];
      HalfBorrowed(d, kids, index - 1, kids', left[..|left| - 1], [left[|left| - 1]], kids[index].kids);
      ListsBorrowed(kids, index - 1, kids', left[..|left| - 1], [left[|left| - 1]], kids[index].kids);
    } else if BorrowsRight(kids, index, d) {
      var right := kids[index + 1].kids;
      assert right == [right[0]] + right[1..];
      HalfBorrowed(d, kids, index, kids', kids[index].kids, [right[0]], right[1..]);
      ListsBorrowed(kids, index, kids', kids[index].kids, [right[0]], right[1..]);
    }
  }

  // A child of one of two branches went to the other.
  lemma HalfBorrowed(d: nat, kids: seq<Node>, i: nat, kids': seq<Node>, a: seq<Node>, b: seq<Node>, c: seq<Node>)
    requires BranchPair(kids, i) && BranchPair(kids', i) && |kids'| == |kids|
    requires kids' == kids[i := kids'[i]][i + 1 := kids'[i + 1]]
    requires kids[i].kids + kids[i + 1].kids == a + b + c == kids'[i].kids + kids'[i + 1].kids
    ensures HalfAll(d, kids) ==> HalfAll(d, kids')
  {
    hide HalfAll, HalfLeaves;
    HalfConcat(d, kids[i].kids, kids[i + 1].kids);
    HalfConcat(d, kids'[i].kids, kids'[i + 1].kids);
    HalfBranch(d, kids[i]);
    HalfBranch(d, kids[i + 1]);
    HalfBranch(d, kids'[i]);
    HalfBranch(d, kids'[i + 1]);
    HalfPairChanged(d, kids, i, kids');
  }

  lemma ListsBorrowed(kids: seq<Node>, i: nat, kids': seq<Node>, a: seq<Node>, b: seq<Node>, c: seq<Node>)
    requires BranchPair(kids, i) && BranchPair(kids', i) && |kids'| == |kids|
    requires kids' == kids[i := kids'[i]][i + 1 := kids'[i + 1]]
    requires kids[i].kids + kids[i + 1].kids == a + b + c == kids'[i].kids + kids'[i + 1].kids
    ensures LeafListsAll(kids') == LeafListsAll(kids)
  {
    hide LeafLists, LeafListsAll;
    ListsConcat(kids[i].kids, kids[i + 1].kids);
    ListsConcat(kids'[i].kids, kids'[i + 1].kids);
    ListsOfBranch(kids[i]);
    ListsOfBranch(kids[i + 1]);
    ListsOfBranch(kids'[i]);
    ListsOfBranch(kids'[i + 1]);
    ListsPairChanged(kids, i, kids');
  }

  lemma HalfPairChanged(d: nat, kids: seq<Node>, i: nat, kids': seq<Node>)
    requires i + 1 < |kids| == |kids'| && kids' == kids[i := kids'[i]][i + 1 := kids'[i + 1]]
    requires HalfLeaves(d, kids[i]) && HalfLeaves(d, kids[i + 1]) ==>
               HalfLeaves(d, kids'[i]) && HalfLeaves(d, kids'[i + 1])
    ensures HalfAll(d, kids) ==> HalfAll(d, kids')
  {
    hide HalfLeaves;
  }

  // The child under another id.
  lemma CopiedSteps(d: nat, kids: seq<Node>, index: nat, kids1: seq<Node>, id: PageId)
    requires Steps(d, kids, index, kids1)
    ensures Steps(d, kids, index, kids1[index := WithId(kids1[index], id)])
  {
    hide HalfLeaves, LeafListsAll, LeafLists;
    var k := WithId(kids1[index], id);
    ListsReplaced(kids1, index, k);
    ListsAround(kids1, index);
    ListsWithId(kids1[index], id);
    assert HalfLeaves(d, k) == HalfLeaves(d, kids1[index]) by {
      HalfWithId(d, kids1[index], id);
    }
  }

  lemma HalfWithId(d: nat, n: Node, id: PageId)
    ensures HalfLeaves(d, WithId(n, id)) == HalfLeaves(d, n) && HalfBelow(d, WithId(n, id)) == HalfBelow(d, n)
  {
  }

  // One level of the descent: what happens at the child decides what happens at the branch.
  lemma HalfStep(o: Order, d: nat, n: Node, h: nat, key: Key, index: nat, kids: seq<Node>, m: Node, n': Node)
    requires d >= 2 && n.Branch? && h > 0 && index == ChildFor(o, Separators(n.kids), key)
    requires Steps(d, n.kids, index, kids) && (kids[index].Branch? ==> h > 1)
    requires kids[index].Leaf? ==> m == Leaf(kids[index].id, Dropped(o, kids[index].slots, key))
    requires kids[index].Branch? ==> (m.Leaf? <==> Flat(m) == [])
    requires kids[index].Branch? && HalfBelow(d, kids[index]) ==>
               (HalfBelow(d, m) <==> StaysHalf(o, d, kids[index], h - 1, key))
    requires HalfOthers(d, kids[index := m], index) ==> (HalfBelow(d, n') <==> RepairKeeps(d, kids[index := m], index))
    ensures HalfBelow(d, n) ==> (HalfBelow(d, n') <==> StaysHalf(o, d, n, h, key))
  {
    hide HalfLeaves, ChildFor, Separators, Lent, Dropped, Merges;
    if HalfBelow(d, n) {
      assert HalfAll(d, kids) && HalfOthers(d, kids, index);
      HalfReplaced(d, kids, index, m);
      if kids[index].Leaf? {
        RepairKeepsCopy(d, n.kids, kids, index, m);
      } else {
        HalfBranch(d, kids[index]);
        if m.Branch? {
          HalfBranch(d, m);
        }
        assert RepairKeeps(d, kids[index := m], index) <==> HalfBelow(d, m);
      }
    }
  }

  // ---- Which leaves a deletion leaves ----

  lemma LeafRepairRelays(d: nat, percent: nat, kids: seq<Node>, index: nat, kids': seq<Node>)
    requires d >= 2 && index < |kids| && kids[index].Leaf? && kids[index].slots != []
    requires |kids| < 2 || !IsDue(d, percent, kids[index].slots) ==> kids' == kids
    requires |kids| >= 2 && IsDue(d, percent, kids[index].slots) ==>
               LeafPair(kids, PairAt(index))
                 && Repaired(d, PairEntries(kids, PairAt(index)), kids, PairAt(index), kids')
    ensures Relaid(d, percent, kids, index, kids[index].slots, LeafListsAll(kids'))
  {
    hide LeafListsAll, IsDue, Rejoined, Merges;
    var left := kids[index].slots;
    if |kids| < 2 || !IsDue(d, percent, left) {
      ListsAround(kids, index);
    } else {
      var i := PairAt(index);
      var made := if Merges(d, PairEntries(kids, i)) then [kids'[i]] else [kids'[i], kids'[i + 1]];
      ListsMiddle(kids[..i], made, kids[i + 2..]);
      var lists := LeafListsAll(made);
      if Merges(d, PairEntries(kids, i)) {
        ListsOne(kids'[i]);
        assert kids'[i].slots != [];
        assert lists == [PairsOf(kids'[i].slots)];
      } else {
        ListsTwo(kids'[i], kids'[i + 1]);
        assert lists == [PairsOf(kids'[i].slots), PairsOf(kids'[i + 1].slots)];
      }
      assert Rejoined(d, kids[i].slots, kids[i + 1].slots, lists);
      if index == 0 {
        NoLists(kids);
        assert [] + lists + LeafListsAll(kids[2..]) == lists + LeafListsAll(kids[2..]);
      }
    }
  }

  lemma NoLists(kids: seq<Node>)
    ensures LeafListsAll(kids[..0]) == []
  {
  }

  lemma BranchRepairKeepsLists(d: nat, kids: seq<Node>, i: nat, kids': seq<Node>)
    requires BranchPair(kids, i) && BranchesRepaired(d, kids, i, kids')
    ensures LeafListsAll(kids') == LeafListsAll(kids)
  {
    hide LeafLists, LeafListsAll, Joins, BranchBytes, Separators;
    var g := Grandkids(kids, i);
    ListsConcat(kids[i].kids, kids[i + 1].kids);
    ListsOfBranch(kids[i]);
    ListsOfBranch(kids[i + 1]);
    assert kids == kids[..i] + [kids[i], kids[i + 1]] + kids[i + 2..];
    ListsMiddle(kids[..i], [kids[i], kids[i + 1]], kids[i + 2..]);
    ListsTwo(kids[i], kids[i + 1]);
    ListsOfBranch(kids'[i]);
    if Joins(d, g) {
      ListsMiddle(kids[..i], [kids'[i]], kids[i + 2..]);
      ListsOne(kids'[i]);
    } else {
      ListsConcat(kids'[i].kids, kids'[i + 1].kids);
      ListsOfBranch(kids'[i + 1]);
      ListsMiddle(kids[..i], [kids'[i], kids'[i + 1]], kids[i + 2..]);
      ListsTwo(kids'[i], kids'[i + 1]);
    }
  }

  // The leaves below children once the one at `index` has been repaired or dropped.
  ghost predicate ChildSettled(d: nat, percent: nat, kids: seq<Node>, index: nat, after: seq<seq<KV>>) {
    && index < |kids|
    && if kids[index].Leaf? then Relaid(d, percent, kids, index, kids[index].slots, after)
       else after == LeafListsAll(kids)
  }

  ghost predicate Between(a: seq<seq<KV>>, mid: seq<seq<KV>>, b: seq<seq<KV>>, whole: seq<seq<KV>>) {
    whole == a + mid + b
  }

  // Some of the leaves are those of these siblings, and they alone are laid out anew.
  ghost predicate SettledAt(d: nat, percent: nat, leaves: seq<Node>, i: nat, left: seq<Slot>, before: seq<seq<KV>>,
                            after: seq<seq<KV>>)
    requires i < |leaves|
  {
    exists a, b, mid ::
      Between(a, LeafListsAll(leaves), b, before) && Relaid(d, percent, leaves, i, left, mid)
      && Between(a, mid, b, after)
  }

  // The leaves of a tree of height `h` after deletion of `key`: only the siblings of the leaf
  // that held it are looked at.
  ghost predicate Settled(o: Order, d: nat, percent: nat, n: Node, h: nat, key: Key, after: seq<seq<KV>>) {
    match n
    case Leaf(id, slots) => after == LeafLists(Leaf(id, Dropped(o, slots, key)))
    case Branch(_, kids) =>
      h > 0 ==>
        var site := Site(o, d, kids, h - 1, key);
        && site.1 < |site.0| && site.0[site.1].Leaf?
        && SettledAt(d, percent, site.0, site.1, Dropped(o, site.0[site.1].slots, key), LeafListsAll(kids), after)
  }

  // One level of the descent.
  lemma SettleStep(o: Order, d: nat, percent: nat, n: Node, h: nat, key: Key, index: nat, kids: seq<Node>, m: Node,
          after: seq<seq<KV>>)
    requires n.Branch? && h > 0 && index == ChildFor(o, Separators(n.kids), key)
    requires Steps(d, n.kids, index, kids) && (kids[index].Branch? ==> h > 1)
    requires kids[index].Leaf? ==> m == Leaf(kids[index].id, Dropped(o, kids[index].slots, key))
    requires kids[index].Branch? ==>
               (m.Leaf? ==> m.slots == []) && Settled(o, d, percent, kids[index], h - 1, key, LeafLists(m))
    requires ChildSettled(d, percent, kids[index := m], index, after)
    ensures Settled(o, d, percent, n, h, key, after)
  {
    hide HalfAll, ChildFor, Separators, Lent, Dropped, LeafLists, LeafListsAll, Relaid;
    if kids[index].Leaf? {
      var left := m.slots;
      var there := kids[index := m];
      RelaidSame(d, percent, n.kids, there, index, left, after);
      assert Between([], LeafListsAll(n.kids), [], LeafListsAll(n.kids)) && Between([], after, [], after);
    } else {
      SettledAbove(d, percent, kids, index, m, after);
      var site := Site(o, d, n.kids, h - 1, key);
      assert site == Site(o, d, kids[index].kids, h - 2, key);
      ListsOfBranch(kids[index]);
      ListsAround(kids, index);
      var left := Dropped(o, site.0[site.1].slots, key);
      WidenSettled(d, percent, site.0, site.1, left, LeafLists(kids[index]), LeafLists(m),
          LeafListsAll(kids[..index]), LeafListsAll(kids[index + 1..]));
    }
  }

  lemma SettledAbove(d: nat, percent: nat, kids: seq<Node>, index: nat, m: Node, after: seq<seq<KV>>)
    requires index < |kids| && (m.Leaf? ==> m.slots == []) && ChildSettled(d, percent, kids[index := m], index, after)
    ensures after == LeafListsAll(kids[..index]) + LeafLists(m) + LeafListsAll(kids[index + 1..])
  {
    hide LeafListsAll;
    ListsReplaced(kids, index, m);
    var there := kids[index := m];
    assert there[..index] == kids[..index] && there[index + 1..] == kids[index + 1..];
  }

  // More leaves on both sides.
  lemma WidenSettled(d: nat, percent: nat, leaves: seq<Node>, i: nat, left: seq<Slot>, before: seq<seq<KV>>,
          after: seq<seq<KV>>, pre: seq<seq<KV>>, post: seq<seq<KV>>)
    requires i < |leaves| && SettledAt(d, percent, leaves, i, left, before, after)
    ensures SettledAt(d, percent, leaves, i, left, pre + before + post, pre + after + post)
  {
    hide Relaid, LeafListsAll;
    var a, b, mid :| Between(a, LeafListsAll(leaves), b, before) && Relaid(d, percent, leaves, i, left, mid)
                     && Between(a, mid, b, after);
    assert Between(pre + a, LeafListsAll(leaves), b + post, pre + before + post);
    assert Between(pre + a, mid, b + post, pre + after + post);
  }

  lemma RepairKeepsCopy(d: nat, kids0: seq<Node>, kids: seq<Node>, index: nat, m: Node)
    requires d >= 2 && index < |kids0| == |kids| && kids == kids0[index := kids[index]] && m.Leaf?
    ensures RepairKeeps(d, kids[index := m], index) <==>
              RepairKeeps(d, kids0[index := Leaf(kids0[index].id, m.slots)], index)
  {
    hide Merges;
    var a, b := kids[index := m], kids0[index := Leaf(kids0[index].id, m.slots)];
    assert forall j :: 0 <= j < |a| && j != index ==> a[j] == b[j];
  }

  // ---- Deletion ----

  // What deletion needs of the node below the page it is called on: the key is there.
  ghost predicate DeleteReady(t: Tree, s: Store, n: Node, key: Key, h: nat, lo: nat, rest: multiset<PageId>) {
    && Ready(t, s, n, h, lo, rest)
    && (n.Branch? && lo >= 1 ==> n.Count() >= 2)
    && Has(t.order, Keys(Flat(n)), key)
    && RoomFor(lo, t.degree, Flat(n))
  }

  // What it leaves: the node without the pair, at most one key or child smaller, or an empty leaf.
  ghost predicate Deleted(t: Tree, s: Store, n: Node, key: Key, h: nat, lo: nat, rest: multiset<PageId>, n': Node) {
    && n'.id == n.id && Rep(s.pages, n')
    && Flat(n') == Remove(t.order, Flat(n), key)
    && Lighter(n, n', h, lo, t.degree)
    && (n.Leaf? ==> n' == Leaf(n.id, Dropped(t.order, n.slots, key)))
    && t.degree >= 2
    && (n.Branch? && HalfBelow(t.degree, n) ==> (HalfBelow(t.degree, n') <==> StaysHalf(t.order, t.degree, n, h, key)))
    && Settled(t.order, t.degree, t.repairPercent, n, h, key, LeafLists(n'))
    && Owns(t.first, s, rest + Ids(n'))
  }

  ghost predicate Lighter(n: Node, n': Node, h: nat, lo: nat, d: nat) {
    if Flat(n') == [] then n' == Leaf(n.id, [])
    else n'.Leaf? == n.Leaf? && Balanced(n', h, lo, d) && n'.Count() + 1 >= n.Count()
  }

  lemma RemovedSlots(o: Order, pages: PageMap, slots: seq<Slot>, key: Key)
    requires SlotsRep(pages, slots) && Has(o, Keys(PairsOf(slots)), key)
    ensures var index := LowerBound(o, Keys(PairsOf(slots)), key);
            && index < |slots|
            && MatchesAll(pages, RemoveAt(Loaded(EntriesOf(slots)), index), RemoveAt(slots, index))
            && PairsOf(RemoveAt(slots, index)) == Remove(o, PairsOf(slots), key)
            && ChainIds(slots) == ChainIds(RemoveAt(slots, index)) + multiset(slots[index].chain)
  {
    hide SlotRep, ChainIds, LowerBound, SlotsRep;
    var index := LowerBound(o, Keys(PairsOf(slots)), key);
    RemovedMatches(pages, slots, index);
    ChainIdsAround(slots, index);
    ChainIdsConcat(slots[..index], slots[index + 1..]);
    assert PairsOf(RemoveAt(slots, index)) == RemoveAt(PairsOf(slots), index);
  }

  lemma RemovedMatches(pages: PageMap, slots: seq<Slot>, index: nat)
    requires SlotsRep(pages, slots) && index < |slots|
    ensures MatchesAll(pages, RemoveAt(Loaded(EntriesOf(slots)), index), RemoveAt(slots, index))
  {
    hide SlotRep;
  }

  method DeleteFromLeaf(t: Tree, id: PageId, key: Key, ghost n: Node, ghost h: nat, ghost lo: nat,
          ghost rest: multiset<PageId>)
    returns (r: Status, ghost n': Node)
    requires n.id == id && n.Leaf? && DeleteReady(t, t.State(), n, key, h, lo, rest)
    modifies t`pages, t`nextPage, t`free, t`retired, t`reused
    ensures Frame(old(t.State()), t.State(), {id}, t.revision)
    ensures t.growLimit.None? && KeysFit(t.degree, Flat(n)) ==> r.Done?
    ensures r.Done? ==> Deleted(t, t.State(), n, key, h, lo, rest, n')
  {
    hide Owns, Frame, SlotsRep, MatchesAll, ChainIds, LowerBound, KeysFit, SortedKeys, Rep, Remove, RoomFor, Laid,
      LeafBytes, Site, SiteKeeps;
    ghost var s0 := t.State();
    n' := n;
    ghost var slots := n.slots;
    LeafRepOf(t.pages, n);
    var entries := Loaded(t.pages[id].entries);
    LoadedKeys(slots);
    var index, found := SearchSlot(t.order, EntryKeys(entries), key);
    RemovedSlots(t.order, t.pages, slots, key);
    ghost var src := RemoveAt(slots, index);
    ghost var live := rest + multiset{id} + ChainIds(src);
    assert rest + Ids(n) == live + multiset(slots[index].chain);
    SlotAt(t.pages, slots, index);
    RetireOverflowValue(t, entries[index].body.cell, slots[index], live);
    ghost var s1 := t.State();
    if KeysFit(t.degree, PairsOf(slots)) {
      RemoveKeysFit(t.order, t.degree, PairsOf(slots), key);
    }
    ghost var slots';
    r, slots' := WriteLeafEntries(t, id, RemoveAt(entries, index), src, rest);
    FrameWiden(s0, s1, {}, {id}, t.revision);
    FrameTransitive(s0, s1, t.State(), {id}, {id}, t.revision);
    if r.Done? {
      RemovedLaid(slots, index, slots');
      n' := Leaf(id, slots');
      assert rest + Ids(n') == rest + multiset{id} + ChainIds(slots');
      LeafLighter(n, slots', h, lo, t.degree);
    }
  }

  lemma LeafLighter(n: Node, slots: seq<Slot>, h: nat, lo: nat, d: nat)
    requires n.Leaf? && Balanced(n, h, lo, d) && |slots| + 1 == |n.slots|
    ensures Lighter(n, Leaf(n.id, slots), h, lo, d)
  {
    assert |PairsOf(slots)| == |slots|;
  }

  // What is left of a leaf fits the page, so that nothing more is spilled.
  lemma RemovedLaid(slots: seq<Slot>, index: nat, slots': seq<Slot>)
    requires index < |slots| && LeafBytes(EntriesOf(slots)) <= PAGE_SIZE
    requires Laid(RemoveAt(Loaded(EntriesOf(slots)), index), RemoveAt(slots, index), slots')
    ensures slots' == RemoveAt(slots, index)
  {
    hide LeafBytes, PairSize;
    var entries, src := RemoveAt(Loaded(EntriesOf(slots)), index), RemoveAt(slots, index);
    var encoded :| EncodesAll(entries, src, encoded) && Spilled(encoded, slots');
    forall i | 0 <= i < |encoded| ensures encoded[i] == src[i] {
      assert Encodes(entries[i], src[i], encoded[i]);
    }
    assert encoded == src;
    RemovedBytes(EntriesOf(slots), index);
    assert EntriesOf(src) == RemoveAt(EntriesOf(slots), index);
  }

  lemma {:induction false} RemovedBytes(entries: seq<Entry>, index: nat)
    requires index < |entries|
    ensures LeafBytes(RemoveAt(entries, index)) <= LeafBytes(entries)
    decreases |entries|
  {
    var front, last := entries[..|entries| - 1], entries[|entries| - 1];
    if index < |front| {
      RemovedBytes(front, index);
      var removed := RemoveAt(entries, index);
      assert removed[..|removed| - 1] == RemoveAt(front, index) && removed[|removed| - 1] == last;
    } else {
      assert RemoveAt(entries, index) == front;
    }
  }

  lemma SlotAt(pages: PageMap, slots: seq<Slot>, index: nat)
    requires SlotsRep(pages, slots) && index < |slots|
    ensures SlotRep(pages, slots[index]) && EntriesOf(slots)[index].cell == CellOf(slots[index])
  {
  }

  lemma RemoveKeysFit(o: Order, d: nat, s: seq<KV>, key: Key)
    requires d >= 2 && KeysFit(d, s)
    ensures KeysFit(d, Remove(o, s, key))
  {
    hide KeyFits, LowerBound;
  }

  lemma RemoveRoomFor(o: Order, lo: nat, d: nat, s: seq<KV>, key: Key)
    requires d >= 2 && RoomFor(lo, d, s)
    ensures RoomFor(lo, d, Remove(o, s, key))
  {
    hide SmallPair, LowerBound;
  }

  // subtreeEmpty
  method SubtreeEmpty(t: Tree, id: PageId, ghost n: Node) returns (empty: bool)
    requires n.id == id && Rep(t.pages, n)
    ensures empty <==> Flat(n) == []
    decreases n
  {
    hide SlotsRep;
    var p := t.pages[id];
    if p.LeafPage? {
      return |p.entries| == 0;
    }
    for i := 0 to |p.children|
      invariant forall j :: 0 <= j < i ==> Flat(n.kids[j]) == []
    {
      var childEmpty := SubtreeEmpty(t, p.children[i], n.kids[i]);
      if !childEmpty {
        Around(n.kids, i);
        return false;
      }
    }
    AllEmpty(n.kids);
    return true;
  }

  lemma {:induction false} AllEmpty(kids: seq<Node>)
    requires forall j :: 0 <= j < |kids| ==> Flat(kids[j]) == []
    ensures FlatAll(kids) == []
  {
    if kids != [] {
      AllEmpty(kids[1..]);
    }
  }

  method DeleteFrom(t: Tree, id: PageId, key: Key, ghost n: Node, ghost h: nat, ghost lo: nat,
          ghost rest: multiset<PageId>)
    returns (r: Status, ghost n': Node)
    requires n.id == id && DeleteReady(t, t.State(), n, key, h, lo, rest)
    modifies t`pages, t`nextPage, t`free, t`retired, t`reused
    ensures Frame(old(t.State()), t.State(), {id}, t.revision)
    ensures t.growLimit.None? && KeysFit(t.degree, Flat(n)) ==> r.Done?
    ensures r.Done? ==> Deleted(t, t.State(), n, key, h, lo, rest, n')
    decreases h, 1
  {
    hide Owns, Frame, Deleted, Balanced, Sorted, KeysFit, Flat, Has, RoomFor;
    if t.pages[id].LeafPage? {
      r, n' := DeleteFromLeaf(t, id, key, n, h, lo, rest);
    } else {
      r, n' := DeleteFromBranch(t, id, key, n, h, lo, rest);
    }
  }

  // The children of a branch once the one at `index`, which holds the key, has been copied.
  ghost predicate Entered(t: Tree, s: Store, children: seq<PageId>, kids: seq<Node>, index: nat, key: Key, h: nat,
          lo: nat, live: multiset<PageId>)
  {
    && t.degree >= 2
    && Forest(t.first, s, children, kids, live) && index < |kids|
    && SortedKids(t.order, kids, h, lo, t.degree) && RoomFor(lo, t.degree, FlatAll(kids))
    && key in Keys(Flat(kids[index]))
  }

  method EnterChild(t: Tree, id: PageId, key: Key, ghost n: Node, ghost h: nat, ghost lo: nat,
          ghost rest: multiset<PageId>)
    returns (r: Status, index: nat, children: seq<PageId>, ghost kids: seq<Node>)
    requires n.id == id && n.Branch? && DeleteReady(t, t.State(), n, key, h, lo, rest)
    modifies t`pages, t`nextPage, t`free, t`retired, t`reused
    ensures h > 0
    ensures Frame(old(t.State()), t.State(), {}, t.revision)
    ensures t.growLimit.None? && KeysFit(t.degree, Flat(n)) ==> r.Done?
    ensures r.Done? ==>
              && Entered(t, t.State(), children, kids, index, key, h - 1, lo, rest + multiset{id})
              && |kids| == |n.kids| && |kids| <= 2 * t.degree && FlatAll(kids) == Flat(n)
              && Available(old(t.State()), children[index])
              && index == ChildFor(t.order, Separators(n.kids), key) && Steps(t.degree, n.kids, index, kids)
  {
    hide Owns, Frame, Rep, RepAll, FlatAll, IdsAll, Flat, Balanced, KeysFit, AllFull, FirstKey, Sorted, Available,
      ChildFor, Routed, RoomFor, Keys, Forest,
      Steps, Borrowed, BorrowsLeft, BorrowsRight, Separators;
    ghost var s0 := t.State();
    BranchRepOf(t.pages, n);
    BranchKids(t.order, n, h, lo, t.degree);
    var keys := t.pages[id].keys;
    children := t.pages[id].children;
    OfBranch(id, n.kids);
    SortedIsSolid(t.order, n.kids, h - 1, lo, t.degree);
    ChildIsRouted(t.order, n.kids, key);
    index := ChildIndex(t.order, keys, key);
    RoutedIndex(t.order, n.kids, index, key);
    KeyInChild(t.order, n.kids, index, key);
    assert rest + Ids(n) == (rest + multiset{id}) + IdsAll(n.kids);
    MakeForest(t.first, s0, children, n.kids, rest + multiset{id});
    var copied;
    r, children, copied,
      kids := BorrowBranchChildBeforeDescent(t, children, index, n.kids, h - 1, lo, rest + multiset{id});
    ghost var s1 := t.State();
    if r.Panic? {
      return;
    }
    BorrowedSteps(t.degree, n.kids, index, kids);
    if copied == 0 {
      ghost var kids1 := kids;
      r, children, copied, kids := CopyKid(t, children, index, kids1, rest + multiset{id});
      FrameTransitive(s0, s1, t.State(), {}, {}, t.revision);
      if r.Panic? {
        return;
      }
      AvailableBack(s0, s1, copied, t.revision);
      WithIdSame(kids1[index], copied);
      CopiedSteps(t.degree, n.kids, index, kids1, copied);
      AllFullAt(kids1, index, h - 1, lo, t.degree);
      AllFullReplace(kids1, index, WithId(kids1[index], copied), h - 1, lo, t.degree);
      ForestSize(t.first, t.State(), children, kids, rest + multiset{id});
    }
  }

  lemma AllFullAt(kids: seq<Node>, i: nat, h: nat, lo: nat, d: nat)
    requires AllFull(kids, h, lo, d) && i < |kids|
    ensures Full(kids[i], h, lo, d)
  {
  }

  lemma MakeForest(first: PageId, s: Store, children: seq<PageId>, kids: seq<Node>, live: multiset<PageId>)
    requires children == RootIds(kids) && RepAll(s.pages, kids) && Owns(first, s, live + IdsAll(kids))
    ensures Forest(first, s, children, kids, live)
  {
  }

  lemma KeyInChild(o: Order, kids: seq<Node>, index: nat, key: Key)
    requires Sorted(o, FlatAll(kids)) && Routed(o, kids, index, key) && Has(o, Keys(FlatAll(kids)), key)
    ensures key in Keys(Flat(kids[index]))
  {
    hide FlatAll, Flat, LowerBound, Routed, SortedKeys;
    RoutedIndex(o, kids, index, key);
    RoutedUpdates(o, kids, index, key, []);
    var m := LowerBound(o, Keys(Flat(kids[index])), key);
    assert Keys(Flat(kids[index]))[m] == key;
  }

  // Whichever child holds the key is the one the key is routed to.
  lemma HolderIsRouted(o: Order, kids: seq<Node>, index: nat, key: Key)
    requires Sorted(o, FlatAll(kids)) && index < |kids| && key in Keys(Flat(kids[index]))
    ensures Routed(o, kids, index, key) && Has(o, Keys(Flat(kids[index])), key)
  {
    hide FlatAll, Flat, LowerBound, SortedKeys, Lt;
    Around(kids, index);
    KeyBetween(o, FlatAll(kids[..index]), Flat(kids[index]), FlatAll(kids[index + 1..]), key);
  }

  lemma KeyBetween(o: Order, a: seq<KV>, b: seq<KV>, c: seq<KV>, key: Key)
    requires Sorted(o, a + b + c) && key in Keys(b)
    ensures Has(o, Keys(b), key) && b != [] && !Lt(o, key, b[0].key)
    ensures c == [] || Lt(o, key, c[0].key)
  {
    hide LowerBound, SortedKeys, Lt;
    SortedParts(o, a + b, c);
    SortedParts(o, a, b);
    HasIffIn(o, Keys(b), key);
    var j :| 0 <= j < |b| && Keys(b)[j] == key;
    assert (a + b)[|a| + j] == b[j];
    FirstIsLeast(o, b, j);
  }

  lemma FirstIsLeast(o: Order, s: seq<KV>, j: nat)
    requires Sorted(o, s) && j < |s|
    ensures !Lt(o, s[j].key, s[0].key)
  {
    Trichotomy(o, s[0].key, s[j].key);
    assert j > 0 ==> Lt(o, Keys(s)[0], Keys(s)[j]);
  }

  lemma EnteredReady(t: Tree, s: Store, children: seq<PageId>, kids: seq<Node>, index: nat, key: Key, h: nat, lo: nat,
          live: multiset<PageId>)
    requires Entered(t, s, children, kids, index, key, h, lo, live)
    ensures children[index] == kids[index].id
    ensures DeleteReady(t, s, kids[index], key, h, lo, live + Others(kids, index))
    ensures Full(kids[index], h, lo, t.degree)
    ensures Routed(t.order, kids, index, key)
    ensures KeysFit(t.degree, FlatAll(kids)) ==> KeysFit(t.degree, Flat(kids[index]))
  {
    hide Owns, FlatAll, IdsAll, LeafIdsAll, Flat, SortedKeys, KeysFit, SmallPair, LowerBound, Routed;
    HolderIsRouted(t.order, kids, index, key);
    RoutedSorted(t.order, kids, index);
    OthersAround(kids, index, live);
    FullIffBalanced(kids[index], h, lo, t.degree);
    Around(kids, index);
    if KeysFit(t.degree, FlatAll(kids)) {
      KeysFitPart(t.degree, FlatAll(kids[..index]), Flat(kids[index]), FlatAll(kids[index + 1..]));
    }
    if lo > 1 {
      AllSmallPart(t.degree, FlatAll(kids[..index]), Flat(kids[index]), FlatAll(kids[index + 1..]));
    }
  }

  // The children after deletion below the one at `index`.
  ghost predicate Lessened(t: Tree, s: Store, children: seq<PageId>, kids: seq<Node>, index: nat, h: nat, lo: nat,
          live: multiset<PageId>)
  {
    && t.degree >= 2
    && Forest(t.first, s, children, kids, live) && index < |kids|
    && (forall j :: 0 <= j < |kids| && j != index ==> Full(kids[j], h, lo, t.degree))
    && (if Flat(kids[index]) == [] then kids[index].Leaf? && kids[index].slots == []
        else Balanced(kids[index], h, lo, t.degree) && kids[index].Count() + 1 >= MinCount(kids[index], lo, t.degree))
    && RoomFor(lo, t.degree, FlatAll(kids))
  }

  lemma ChildDeleted(t: Tree, s: Store, s': Store, children: seq<PageId>, kids: seq<Node>, index: nat, key: Key, h: nat,
          lo: nat, live: multiset<PageId>, m: Node)
    requires Entered(t, s, children, kids, index, key, h, lo, live)
    requires Frame(s, s', {kids[index].id}, t.revision)
    requires Deleted(t, s', kids[index], key, h, lo, live + Others(kids, index), m)
    ensures Lessened(t, s', children, kids[index := m], index, h, lo, live)
    ensures FlatAll(kids[index := m]) == Remove(t.order, FlatAll(kids), key)
    ensures KeysFit(t.degree, FlatAll(kids)) ==> KeysFit(t.degree, FlatAll(kids[index := m]))
  {
    hide Owns, Frame, FlatAll, IdsAll, LeafIdsAll, Flat, Sorted, KeysFit, RoomFor, Full, Balanced, Rep, Remove, Keys,
      Routed, StaysHalf, HalfBelow, Dropped, Settled;
    EnteredReady(t, s, children, kids, index, key, h, lo, live);
    RoutedUpdates(t.order, kids, index, key, []);
    IdsBelow(kids[index]);
    ReplaceKid(t.first, s, s', {kids[index].id}, t.revision, children, kids, index, m, live);
    FullIffBalanced(kids[index], h, lo, t.degree);
    if KeysFit(t.degree, FlatAll(kids)) {
      RemoveKeysFit(t.order, t.degree, FlatAll(kids), key);
    }
    RemoveRoomFor(t.order, lo, t.degree, FlatAll(kids), key);
    assert children[index := m.id] == children;
  }

  method RepairChild(t: Tree, children: seq<PageId>, index: nat, ghost kids: seq<Node>, ghost h: nat, ghost lo: nat,
          ghost live: multiset<PageId>)
    returns (r: Status, children': seq<PageId>, ghost kids': seq<Node>)
    requires Lessened(t, t.State(), children, kids, index, h, lo, live) && (|kids| >= 2 || lo == 0)
    modifies t`pages, t`nextPage, t`free, t`retired, t`reused
    ensures Frame(old(t.State()), t.State(), {kids[index].id}, t.revision)
    ensures t.growLimit.None? && KeysFit(t.degree, FlatAll(kids)) ==> r.Done?
    ensures r.Done? ==>
              && Forest(t.first, t.State(), children', kids', live) && FlatAll(kids') == FlatAll(kids)
              && |kids| - 1 <= |kids'| <= |kids| && AllFull(kids', h, lo, t.degree)
              && (HalfOthers(t.degree, kids, index) ==>
                (HalfAll(t.degree, kids') <==> RepairKeeps(t.degree, kids, index)))
              && ChildSettled(t.degree, t.repairPercent, kids, index, LeafListsAll(kids'))
  {
    hide Owns, Frame, IdsAll, FlatAll, KeysFit, RoomFor, Rep, RepAll, Full, Balanced, Flat, AllFull, Forest, Fitting,
      HalfAll, HalfOthers, RepairKeeps, Underfull, UnderfullBranch, Repaired, BranchesRepaired, LeafLists, LeafListsAll,
      IsDue;
    ghost var s0 := t.State();
    FrameReflexive(s0, t.revision);
    KidPage(t, s0, children, kids, index, live);
    KidRep(t.first, s0, children, kids, index, live);
    var empty := SubtreeEmpty(t, children[index], kids[index]);
    if empty {
      children', kids' := DropChild(t, children, index, kids, h, lo, live);
      FrameWiden(s0, t.State(), {}, {kids[index].id}, t.revision);
      ListsConcat(kids[..index], kids[index + 1..]);
      if HalfOthers(t.degree, kids, index) {
        HalfAfterDrop(t.degree, kids, index);
      }
      return Done, children', kids';
    }
    NotEmptyDeficit(kids, index, h, lo, t.degree);
    Heights(kids, index, h, lo, t.degree, index);
    RoomMeansFitting(lo, t.degree, FlatAll(kids));
    r, children', kids' := MergeUnderfullLeaf(t, children, index, kids, h, lo, live);
    ghost var s1 := t.State();
    if r.Panic? {
      return;
    }
    ghost var kids1 := kids';
    r, children', kids' := MergeUnderfullBranch(t, children', index, kids1, h, lo, live);
    FrameWiden(s1, t.State(), if h > 0 then {kids1[index].id} else {}, {kids[index].id}, t.revision);
    FrameTransitive(s0, s1, t.State(), {kids[index].id}, {kids[index].id}, t.revision);
    if r.Done? {
      if h == 0 {
        UnderfullMeans(t.degree, t.repairPercent, kids[index]);
        LeafRepairRelays(t.degree, t.repairPercent, kids, index, kids1);
        if HalfOthers(t.degree, kids, index) {
          HalfAfterLeafRepair(t.degree, t.repairPercent, kids, index, kids1);
        }
      } else {
        UnderfullBranchMeans(t.degree, t.repairPercent, kids[index]);
        if |kids| >= 2 && UnderfullBranch(t.degree, t.repairPercent, kids[index]) {
          BranchRepairKeepsLists(t.degree, kids, PairAt(index), kids');
        }
        if HalfOthers(t.degree, kids, index) {
          HalfAfterBranchRepair(t.degree, t.repairPercent, kids, index, kids');
        }
      }
    }
  }

  lemma RoomMeansFitting(lo: nat, d: nat, s: seq<KV>)
    requires d >= 2 && RoomFor(lo, d, s)
    ensures lo < d && Fitting(lo, d, s)
  {
  }

  lemma KidRep(first: PageId, s: Store, children: seq<PageId>, kids: seq<Node>, index: nat, live: multiset<PageId>)
    requires Forest(first, s, children, kids, live) && index < |kids|
    ensures Rep(s.pages, kids[index])
  {
  }

  lemma NotEmptyDeficit(kids: seq<Node>, index: nat, h: nat, lo: nat, d: nat)
    requires index < |kids| && d >= 2
    requires forall j :: 0 <= j < |kids| && j != index ==> Full(kids[j], h, lo, d)
    requires Balanced(kids[index], h, lo, d) && kids[index].Count() + 1 >= MinCount(kids[index], lo, d)
    requires Flat(kids[index]) != []
    ensures OneDeficit(kids, index, h, lo, d)
  {
    hide Full;
  }

  // The emptied leaf is retired and leaves the list of children.
  method DropChild(t: Tree, children: seq<PageId>, index: nat, ghost kids: seq<Node>, ghost h: nat, ghost lo: nat,
          ghost live: multiset<PageId>)
    returns (children': seq<PageId>, ghost kids': seq<Node>)
    requires Lessened(t, t.State(), children, kids, index, h, lo, live) && Flat(kids[index]) == []
    modifies t`retired
    ensures Frame(old(t.State()), t.State(), {}, t.revision)
    ensures Forest(t.first, t.State(), children', kids', live) && FlatAll(kids') == FlatAll(kids)
    ensures kids' == kids[..index] + kids[index + 1..] && AllFull(kids', h, lo, t.degree)
  {
    hide Owns, Frame, IdsAll, FlatAll, LeafIdsAll, KeysFit, RoomFor, Rep, Full, Balanced, Flat;
    assert Ids(kids[index]) == multiset{kids[index].id};
    OthersAround(kids, index, live);
    t.RetirePage(children[index], live + Others(kids, index));
    kids' := kids[..index] + kids[index + 1..];
    children' := RemoveAt(children, index);
    RepAllParts(t.pages, kids, index);
    RepAllParts(t.pages, kids, index + 1);
    RepAllConcat(t.pages, kids[..index], kids[index + 1..]);
    ConcatAll(kids[..index], kids[index + 1..]);
    Around(kids, index);
    assert live + IdsAll(kids') == live + Others(kids, index);
    assert children' == RootIds(kids');
    forall j | 0 <= j < |kids'| ensures Full(kids'[j], h, lo, t.degree) {
      assert kids'[j] == kids[if j < index then j else j + 1];
    }
  }

  method DeleteFromBranch(t: Tree, id: PageId, key: Key, ghost n: Node, ghost h: nat, ghost lo: nat,
          ghost rest: multiset<PageId>)
    returns (r: Status, ghost n': Node)
    requires n.id == id && n.Branch? && DeleteReady(t, t.State(), n, key, h, lo, rest)
    modifies t`pages, t`nextPage, t`free, t`retired, t`reused
    ensures Frame(old(t.State()), t.State(), {id}, t.revision)
    ensures t.growLimit.None? && KeysFit(t.degree, Flat(n)) ==> r.Done?
    ensures r.Done? ==> Deleted(t, t.State(), n, key, h, lo, rest, n')
    decreases h, 0
  {
    hide Owns, Frame, Entered, Lessened, Sorted, KeysFit, FlatAll, Flat, Has, Balanced, RoomFor, Rep, Available, IdsAll,
      AllFull, Remove,
      Site, SiteKeeps, StaysHalf, HalfBelow, HalfOthers, RepairKeeps, Steps, ChildFor, Separators, Dropped,
      ChildSettled, Settled, LeafLists;
    ghost var s0 := t.State();
    n' := n;
    var index, children;
    ghost var kids;
    r, index, children, kids := EnterChild(t, id, key, n, h, lo, rest);
    ghost var s1 := t.State();
    FrameWiden(s0, s1, {}, {id}, t.revision);
    if r.Panic? {
      return;
    }
    ghost var live := rest + multiset{id};
    EnteredIndex(t, s1, children, kids, index, key, h - 1, lo, live);
    EnteredReady(t, s1, children, kids, index, key, h - 1, lo, live);
    ghost var m;
    r, m := DeleteFrom(t, children[index], key, kids[index], h - 1, lo, live + Others(kids, index));
    ghost var s2 := t.State();
    FrameTransitive(s0, s1, s2, {id}, {children[index]}, t.revision);
    if r.Panic? {
      return;
    }
    ChildDeleted(t, s1, s2, children, kids, index, key, h - 1, lo, live, m);
    assert kids[index := m][index].id == children[index];
    r, n' := FinishDelete(t, id, children, index, n, kids[index := m], key, h, lo, rest);
    FrameTransitive(s0, s2, t.State(), {id}, {id, children[index]}, t.revision);
    if r.Done? {
      BranchHeight(kids[index], h - 1, lo, t.degree);
      HalfStep(t.order, t.degree, n, h, key, index, kids, m, n');
      SettleStep(t.order, t.degree, t.repairPercent, n, h, key, index, kids, m, LeafLists(n'));
    }
  }

  lemma BranchHeight(n: Node, h: nat, lo: nat, d: nat)
    requires Full(n, h, lo, d)
    ensures n.Branch? ==> h > 0
  {
  }

  lemma EnteredIndex(t: Tree, s: Store, children: seq<PageId>, kids: seq<Node>, index: nat, key: Key, h: nat, lo: nat,
          live: multiset<PageId>)
    requires Entered(t, s, children, kids, index, key, h, lo, live)
    ensures index < |kids| == |children| && t.degree >= 2 && lo < t.degree
  {
    hide Owns, FlatAll, Flat, IdsAll, Fitting;
  }

  // Repair the children, then rebuild the branch over them.
  method FinishDelete(t: Tree, id: PageId, children: seq<PageId>, index: nat, ghost n: Node, ghost kids: seq<Node>,
          ghost key: Key, ghost h: nat, ghost lo: nat, ghost rest: multiset<PageId>)
    returns (r: Status, ghost n': Node)
    requires h > 0 && n.Branch? && n.id == id && |kids| == |n.kids| <= 2 * t.degree && (|kids| >= 2 || lo == 0)
    requires Lessened(t, t.State(), children, kids, index, h - 1, lo, rest + multiset{id})
    requires FlatAll(kids) == Remove(t.order, Flat(n), key)
    modifies t`pages, t`nextPage, t`free, t`retired, t`reused
    ensures Frame(old(t.State()), t.State(), {id, kids[index].id}, t.revision)
    ensures t.growLimit.None? && KeysFit(t.degree, FlatAll(kids)) ==> r.Done?
    ensures r.Done? ==>
              && n'.id == id && Rep(t.pages, n') && Owns(t.first, t.State(), rest + Ids(n'))
              && Flat(n') == Remove(t.order, Flat(n), key) && Lighter(n, n', h, lo, t.degree)
              && (HalfOthers(t.degree, kids, index) ==>
                (HalfBelow(t.degree, n') <==> RepairKeeps(t.degree, kids, index)))
              && ChildSettled(t.degree, t.repairPercent, kids, index, LeafLists(n'))
  {
    hide Owns, Frame, KeysFit, FlatAll, Flat, RoomFor, Rep, RepAll, IdsAll, AllFull, Remove, Full, Balanced,
      RepairKeeps, HalfOthers, HalfAll, BranchBytes, ChildSettled;
    ghost var s0 := t.State();
    n' := n;
    var children';
    ghost var kids';
    r, children', kids' := RepairChild(t, children, index, kids, h - 1, lo, rest + multiset{id});
    ghost var s1 := t.State();
    FrameWiden(s0, s1, {kids[index].id}, {id, kids[index].id}, t.revision);
    if r.Panic? {
      return;
    }
    OfBranch(id, kids');
    RebuiltBranch(id, kids');
    assert (rest + multiset{id}) + IdsAll(kids') == rest + Ids(Branch(id, kids'));
    r := WriteBranchChildren(t, id, children', kids', h - 1, lo, rest);
    FrameTransitive(s0, s1, t.State(), {id, kids[index].id}, {id}, t.revision);
    BranchBalanced(id, kids', h, lo, t.degree);
    RebuiltLighter(n, kids', h, lo, t.degree);
    n' := Rebuilt(id, kids');
    NoKidsHalf(t.degree);
  }

  lemma NoKidsHalf(d: nat)
    ensures HalfAll(d, [])
  {
  }

  lemma RebuiltLighter(n: Node, kids: seq<Node>, h: nat, lo: nat, d: nat)
    requires n.Branch? && Balanced(Branch(n.id, kids), h, lo, d) && |kids| + 1 >= |n.kids| && d >= 1
    ensures Lighter(n, Rebuilt(n.id, kids), h, lo, d)
  {
    hide Full;
    if kids != [] {
      BalancedNonempty(Branch(n.id, kids), h, lo, d);
    } else {
      assert Flat(Leaf(n.id, [])) == [];
    }
  }
}
