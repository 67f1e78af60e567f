// The links from leaf to leaf (pagebtree/leaf_links.go).

module LeafLinks {
  import opened Contents
  import opened Pages
  import opened Nodes
  import opened Trees
  import opened Forests
  import opened Overflow

  // Each leaf of the list points to the one after it, the last to none.
  ghost predicate Linked(pages: PageMap, ids: seq<PageId>) {
    forall i :: 0 <= i < |ids| ==> ids[i] in pages && pages[ids[i]].LeafPage? && pages[ids[i]].next == NextOf(ids, i)
  }

  // Nothing but leaf links of `ids` differs between the two maps.
  ghost predicate OnlyRelinked(p: PageMap, q: PageMap, ids: seq<PageId>) {
    && p.Keys == q.Keys
    && (forall x :: x in p ==> Unlinked(q[x]) == Unlinked(p[x]))
    && (forall x :: x in p && x !in ids ==> q[x] == p[x])
  }

  method ActiveReaderCount(t: Tree) returns (total: nat)
    requires forall r :: r in t.readers ==> t.readers[r] > 0
    ensures total > 0 <==> t.readers != map[]
  {
    total := 0;
    var todo := t.readers.Keys;
    while todo != {}
      invariant todo <= t.readers.Keys
      invariant total > 0 <==> todo != t.readers.Keys
      decreases todo
    {
      var revision :| revision in todo;
      total := total + t.readers[revision];
      todo := todo - {revision};
    }
    assert t.readers != map[] <==> t.readers.Keys != {};
  }

  method CollectLeavesInOrder(pages: PageMap, root: PageId, out: seq<PageId>, ghost n: Node) returns (out': seq<PageId>)
    requires root != 0 ==> n.id == root && Models(pages, n) && 0 !in Ids(n)
    ensures out' == if root == 0 then out else out + LeafIds(n)
    decreases n
  {
    hide ValuesRep, FlatAll, LeafIdsAll, IdsAll, Ids;
    if root == 0 {
      return out;
    }
    var p := pages[root];
    if p.LeafPage? {
      return out + [root];
    }
    out' := out;
    NothingAll();
    for i := 0 to |p.children|
      invariant out' == out + LeafIdsAll(n.kids[..i])
    {
      KidNonzero(n, i);
      out' := CollectLeavesInOrder(pages, p.children[i], out', n.kids[i]);
      LeafIdsStep(n.kids, i);
    }
    assert n.kids[..|n.kids|] == n.kids;
  }

  lemma KidNonzero(n: Node, i: nat)
    requires n.Branch? && i < |n.kids|
    requires 0 !in Ids(n)
    ensures n.kids[i].id != 0 && 0 !in Ids(n.kids[i])
  {
    Around(n.kids, i);
    IdsBelow(n.kids[i]);
  }

  lemma LeafIdsStep(kids: seq<Node>, i: nat)
    requires i < |kids|
    ensures LeafIdsAll(kids[..i + 1]) == LeafIdsAll(kids[..i]) + LeafIds(kids[i])
  {
    hide FlatAll, IdsAll, LeafIdsAll;
    assert kids[..i + 1] == kids[..i] + [kids[i]];
    ConcatAll(kids[..i], [kids[i]]);
    One(kids[i]);
  }

  lemma {:induction false} LeafIdsAmongIds(n: Node)
    ensures multiset(LeafIds(n)) <= Ids(n)
    decreases n, 1
  {
    if n.Branch? {
      LeafIdsAmongIdsAll(n.kids);
    }
  }

  lemma {:induction false} LeafIdsAmongIdsAll(kids: seq<Node>)
    ensures multiset(LeafIdsAll(kids)) <= IdsAll(kids)
    decreases kids, 0
  {
    if kids != [] {
      LeafIdsAmongIds(kids[0]);
      LeafIdsAmongIdsAll(kids[1..]);
      assert multiset(LeafIds(kids[0]) + LeafIdsAll(kids[1..]))
             == multiset(LeafIds(kids[0])) + multiset(LeafIdsAll(kids[1..]));
    }
  }

  lemma {:induction false} LeafPagesOf(pages: PageMap, n: Node)
    requires Models(pages, n)
    ensures forall x :: x in LeafIds(n) ==> x in pages && pages[x].LeafPage?
    decreases n, 1
  {
    if n.Branch? {
      LeafPagesOfAll(pages, n.kids);
    }
  }

  lemma {:induction false} LeafPagesOfAll(pages: PageMap, kids: seq<Node>)
    requires forall i :: 0 <= i < |kids| ==> Models(pages, kids[i])
    ensures forall x :: x in LeafIdsAll(kids) ==> x in pages && pages[x].LeafPage?
    decreases kids, 0
  {
    if kids != [] {
      LeafPagesOf(pages, kids[0]);
      LeafPagesOfAll(pages, kids[1..]);
    }
  }

  lemma LeafIdsDistinct(first: PageId, s: Store, n: Node, live: multiset<PageId>)
    requires Owns(first, s, live + Ids(n))
    ensures forall i, j :: 0 <= i < j < |LeafIds(n)| ==> LeafIds(n)[i] != LeafIds(n)[j]
    ensures 0 !in Ids(n)
  {
    hide Owns, LeafIds, Ids;
    LeafIdsAmongIds(n);
    var ids := LeafIds(n);
    var others := live + (Ids(n) - multiset(ids));
    assert live + Ids(n) == others + multiset(ids);
    LiveSeqDistinct(first, s, others, ids);
    if 0 in Ids(n) {
      LiveIsNotAvailable(first, s, live + Ids(n), 0);
    }
  }

  // relinkLeaves: repair every link in place, unless a reader might see it happen.
  method RelinkLeaves(t: Tree)
    requires forall r :: r in t.readers ==> t.readers[r] > 0
    requires t.root == 0 <==> t.shape.None?
    requires t.shape.Some? ==>
               t.root == t.shape.value.id && Rep(t.pages, t.shape.value)
                 && Owns(t.first, t.State(), t.listPages + Ids(t.shape.value))
    modifies t`pages
    ensures t.shape.None? || t.readers != map[] ==> t.pages == old(t.pages)
    ensures t.shape.Some? ==> OnlyRelinked(old(t.pages), t.pages, LeafIds(t.shape.value))
    ensures t.shape.Some? && t.readers == map[] ==> Linked(t.pages, LeafIds(t.shape.value))
  {
    hide Owns, Rep, Models, LeafIds, Ids;
    var active := ActiveReaderCount(t);
    if t.root == 0 || active > 0 {
      return;
    }
    ghost var n := t.shape.value;
    ghost var pages0 := t.pages;
    LeafIdsDistinct(t.first, t.State(), n, t.listPages);
    LiveRootNonzero(t.first, t.State(), n, t.listPages);
    RepModels(t.pages, n);
    LeafPagesOf(t.pages, n);
    var leaves := CollectLeavesInOrder(t.pages, t.root, [], n);
    assert leaves == LeafIds(n);
    LinkAll(t, leaves);
  }

  method LinkAll(t: Tree, leaves: seq<PageId>)
    requires forall j :: 0 <= j < |leaves| ==> leaves[j] in t.pages && t.pages[leaves[j]].LeafPage?
    requires forall i, j :: 0 <= i < j < |leaves| ==> leaves[i] != leaves[j]
    modifies t`pages
    ensures OnlyRelinked(old(t.pages), t.pages, leaves) && Linked(t.pages, leaves)
  {
    hide OnlyRelinked;
    ghost var pages0 := t.pages;
    RelinkedReflexive(t.pages, leaves);
    for i := 0 to |leaves|
      invariant OnlyRelinked(pages0, t.pages, leaves)
      invariant forall j :: 0 <= j < |leaves| ==> leaves[j] in t.pages && t.pages[leaves[j]].LeafPage?
      invariant forall j :: 0 <= j < i ==> t.pages[leaves[j]].next == NextOf(leaves, j)
    {
      var id := leaves[i];
      var next := 0;
      if i + 1 < |leaves| {
        next := leaves[i + 1];
      }
      RelinkStep(pages0, t.pages, leaves, id, next);
      if t.pages[id].next != next {
        t.pages := t.pages[id := t.pages[id].(next := next)];
      }
    }
  }

  lemma RelinkedReflexive(p: PageMap, ids: seq<PageId>)
    ensures OnlyRelinked(p, p, ids)
  {
  }

  lemma RelinkStep(p: PageMap, q: PageMap, ids: seq<PageId>, id: PageId, next: PageId)
    requires OnlyRelinked(p, q, ids) && id in ids && id in q && q[id].LeafPage?
    ensures OnlyRelinked(p, q[id := q[id].(next := next)], ids)
  {
  }

  lemma NoLeaves(pages: PageMap)
    ensures Linked(pages, [])
  {
  }

  lemma LiveRootNonzero(first: PageId, s: Store, n: Node, rest: multiset<PageId>)
    requires Owns(first, s, rest + Ids(n))
    ensures n.id != 0
  {
    IdsBelow(n);
    LiveIsNotAvailable(first, s, rest + Ids(n), n.id);
  }
}
