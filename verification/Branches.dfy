// Writing branch pages and copying pages that spell out a node
// (mustWriteBranchParts in pagebtree/insert.go, copyPage in pagebtree/tree.go).

module Branches {
  import opened KeyOrder
  import opened Pages
  import opened Nodes
  import opened Trees

  method MustWriteBranchParts(t: Tree, id: PageId, keys: seq<Key>, children: seq<PageId>, ghost live: multiset<PageId>)
    returns (r: Status)
    requires |children| == |keys| + 1
    requires Owns(t.first, t.State(), live) && id in live
    modifies t`pages
    ensures Owns(t.first, t.State(), live)
    ensures Frame(old(t.State()), t.State(), {id}, t.revision)
    ensures r.Done? <==> BranchBytes(keys) <= PAGE_SIZE
    ensures r.Done? ==> t.pages == old(t.pages)[id := BranchPage(keys, children)]
  {
    hide Owns, Frame;
    var k := 0;
    r := Done;
    while k < |keys| && r.Done?
      invariant 0 <= k <= |keys|
      invariant BranchBytes(keys[..k]) <= PAGE_SIZE
      invariant r.Panic? ==> k < |keys| && BranchBytes(keys[..k + 1]) > PAGE_SIZE
      decreases |keys| - k, r.Done?
    {
      assert keys[..k + 1][..k] == keys[..k];
      if PAGE_SIZE - BranchBytes(keys[..k]) < SeparatorBytes(keys[k]) {
        r := Panic;
      } else {
        k := k + 1;
      }
    }
    assert keys[..|keys|] == keys && children[..|children|] == children;
    if r.Panic? {
      SeparatorPrefixBytes(keys, k + 1);
    }
    t.WritePage(id, BranchPage(keys[..k], children[..k + 1]), live);
  }

  lemma {:induction false} SeparatorPrefixBytes(keys: seq<Key>, k: nat)
    requires k <= |keys|
    ensures SumSeparatorBytes(keys[..k]) <= SumSeparatorBytes(keys)
    decreases |keys|
  {
    if k < |keys| {
      SeparatorPrefixBytes(keys[..|keys| - 1], k);
      assert keys[..|keys| - 1][..k] == keys[..k];
    } else {
      assert keys[..k] == keys;
    }
  }

  // Under the key bound the separators of at most 2d children fit one page.
  lemma SeparatorsOfFit(kids: seq<Node>, h: nat, lo: nat, d: nat)
    requires d >= 2 && kids != [] && |kids| <= 2 * d
    requires AllFull(kids, h, lo, d) && KeysFit(d, FlatAll(kids))
    ensures BranchBytes(Separators(kids)) <= PAGE_SIZE
  {
    hide Full, FlatAll, Flat, FirstKey, KeyFits, BranchBytes;
    forall i | 0 <= i < |Separators(kids)| ensures KeyFits(d, Separators(kids)[i]) {
      FirstKeyFits(kids, i + 1, h, lo, d);
    }
    SeparatorsFit(d, Separators(kids));
  }

  lemma FirstKeyFits(kids: seq<Node>, i: nat, h: nat, lo: nat, d: nat)
    requires d >= 2 && i < |kids|
    requires AllFull(kids, h, lo, d) && KeysFit(d, FlatAll(kids))
    ensures KeyFits(d, FirstKey(kids[i]))
  {
    hide Full, FlatAll, Flat, FirstKey, KeyFits;
    FullIsNonempty(kids[i], h, lo, d);
    Around(kids, i);
    assert FlatAll(kids)[|FlatAll(kids[..i])|] == Flat(kids[i])[0];
  }

  // A branch page over `kids`, written under a live id.
  method WriteKids(t: Tree, id: PageId, keys: seq<Key>, children: seq<PageId>, ghost kids: seq<Node>,
                   ghost h: nat, ghost lo: nat, ghost live: multiset<PageId>)
    returns (r: Status)
    requires kids != [] && keys == Separators(kids) && children == RootIds(kids)
    requires RepAll(t.pages, kids)
    requires Owns(t.first, t.State(), live + Ids(Branch(id, kids)))
    modifies t`pages
    ensures Owns(t.first, t.State(), live + Ids(Branch(id, kids)))
    ensures Frame(old(t.State()), t.State(), {id}, t.revision)
    ensures r.Done? ==> Rep(t.pages, Branch(id, kids))
    ensures r.Done? <==> BranchBytes(keys) <= PAGE_SIZE
    ensures t.degree >= 2 && |kids| <= 2 * t.degree && AllFull(kids, h, lo, t.degree)
            && KeysFit(t.degree, FlatAll(kids)) ==>
              r.Done?
  {
    hide Owns, Frame, FlatAll, AllFull, KeysFit, BranchBytes, Separators, Rep, IdsAll;
    ghost var s0 := t.State();
    r := MustWriteBranchParts(t, id, keys, children, live + Ids(Branch(id, kids)));
    if t.degree >= 2 && |kids| <= 2 * t.degree && AllFull(kids, h, lo, t.degree) && KeysFit(t.degree, FlatAll(kids)) {
      SeparatorsOfFit(kids, h, lo, t.degree);
    }
    if r.Done? {
      assert live + Ids(Branch(id, kids)) == (live + multiset{id}) + IdsAll(kids);
      KeepAll(t.first, s0, t.State(), {id}, t.revision, kids, live + multiset{id});
      BranchRep(t.pages, id, kids);
    }
  }

  lemma BranchRep(pages: PageMap, id: PageId, kids: seq<Node>)
    requires kids != [] && RepAll(pages, kids)
    requires id in pages && pages[id] == BranchPage(Separators(kids), RootIds(kids))
             && BranchBytes(Separators(kids)) <= PAGE_SIZE
    ensures Rep(pages, Branch(id, kids))
  {
  }

  // copyPage on the root page of a node: the copy spells out the same node.
  method CopyNode(t: Tree, id: PageId, ghost n: Node, ghost live: multiset<PageId>) returns (r: Status, newId: PageId)
    requires n.id == id && Rep(t.pages, n)
    requires Owns(t.first, t.State(), live + Ids(n))
    modifies t`pages, t`nextPage, t`free, t`retired, t`reused
    ensures Frame(old(t.State()), t.State(), {}, t.revision)
    ensures r.Done? ==>
              && Available(old(t.State()), newId)
              && Owns(t.first, t.State(), live + Ids(WithId(n, newId)))
              && Rep(t.pages, WithId(n, newId))
    ensures r.Done? ==>
              Used(t.State()) == Used(old(t.State())) + 1 && t.retired == old(t.retired) + [RetiredPage(id, t.revision)]
    ensures r.Panic? <==> Exhausted(old(t.State()))
    ensures r.Panic? ==> t.State() == old(t.State())
  {
    hide Owns, Frame, Ids, Below, Available;
    ghost var s0 := t.State();
    IdsBelow(n);
    assert live + Ids(n) == (live + Below(n)) + multiset{id};
    assert id in t.pages;
    r, newId := t.CopyPage(id, live + Below(n));
    if r.Panic? {
      return;
    }
    IdsBelow(WithId(n, newId));
    WithIdSame(n, newId);
    assert live + Ids(WithId(n, newId)) == (live + Below(n)) + multiset{newId};
    assert live + Ids(n) == (live + multiset{id}) + Below(n);
    FrameKeepsPart(t.first, s0, t.State(), {}, t.revision, Below(n), live + multiset{id});
    RepOfCopy(s0.pages, n, newId);
  }
}
