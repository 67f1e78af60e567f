// The children of one branch while an update works on them: copied, replaced, moved
// between siblings. The branch page itself is written when they have settled.

module Forests {
  import opened Seqs
  import opened Contents
  import opened Pages
  import opened Nodes
  import opened Trees
  import opened Branches

  // `children` are the pages of `kids`, whose pages are live beside `live`.
  ghost predicate Forest(first: PageId, s: Store, children: seq<PageId>, kids: seq<Node>, live: multiset<PageId>) {
    && children == RootIds(kids)
    && RepAll(s.pages, kids)
    && Owns(first, s, live + IdsAll(kids))
  }

  lemma SplitAround(kids: seq<Node>, i: nat, k: Node)
    requires i < |kids|
    ensures var kids' := kids[i := k];
            && FlatAll(kids') == FlatAll(kids[..i]) + Flat(k) + FlatAll(kids[i + 1..])
            && IdsAll(kids') == IdsAll(kids[..i]) + Ids(k) + IdsAll(kids[i + 1..])
            && kids'[..i] == kids[..i] && kids'[i + 1..] == kids[i + 1..]
  {
    hide FlatAll, IdsAll, LeafIdsAll;
    var kids' := kids[i := k];
    Around(kids', i);
    assert kids'[..i] == kids[..i] && kids'[i + 1..] == kids[i + 1..];
  }

  // The siblings of a child, live while an update works below the child.
  ghost function Others(kids: seq<Node>, i: nat): multiset<PageId>
    requires i < |kids|
  {
    IdsAll(kids[..i]) + IdsAll(kids[i + 1..])
  }

  lemma OthersAround(kids: seq<Node>, i: nat, live: multiset<PageId>)
    requires i < |kids|
    ensures live + IdsAll(kids) == (live + Others(kids, i)) + Ids(kids[i])
  {
    hide IdsAll, FlatAll, LeafIdsAll, Ids;
    Around(kids, i);
  }

  lemma RepAllParts(pages: PageMap, kids: seq<Node>, i: nat)
    requires i <= |kids| && RepAll(pages, kids)
    ensures RepAll(pages, kids[..i]) && RepAll(pages, kids[i..])
  {
    hide Rep;
  }

  lemma RepAllConcat(pages: PageMap, a: seq<Node>, b: seq<Node>)
    requires RepAll(pages, a) && RepAll(pages, b)
    ensures RepAll(pages, a + b)
  {
    hide Rep;
  }

  lemma RepAllReplace(pages: PageMap, kids: seq<Node>, i: nat, k: Node)
    requires i < |kids| && Rep(pages, k)
    requires RepAll(pages, kids[..i]) && RepAll(pages, kids[i + 1..])
    ensures RepAll(pages, kids[i := k])
  {
    hide Rep;
    var kids' := kids[i := k];
    forall j | 0 <= j < |kids'| ensures Rep(pages, kids'[j]) {
      if j < i {
        assert kids'[j] == kids[..i][j];
      } else if j > i {
        assert kids'[j] == kids[i + 1..][j - i - 1];
      }
    }
  }

  // A step that owns pages of one child only leaves its siblings alone.
  lemma SiblingsKept(first: PageId, s: Store, t: Store, own: set<PageId>, revision: nat, kids: seq<Node>, i: nat,
          live: multiset<PageId>)
    requires i < |kids| && RepAll(s.pages, kids)
    requires Owns(first, s, live + IdsAll(kids)) && Frame(s, t, own, revision)
    requires forall x :: x in own ==> x in Ids(kids[i]) || Available(s, x)
    ensures RepAll(t.pages, kids[..i]) && RepAll(t.pages, kids[i + 1..])
  {
    hide Owns, Frame, Rep, RepAll, IdsAll, FlatAll, LeafIdsAll, Ids, Available;
    Around(kids, i);
    RepAllParts(s.pages, kids, i);
    RepAllParts(s.pages, kids, i + 1);
    var a, b := kids[..i], kids[i + 1..];
    assert live + IdsAll(kids) == (live + Ids(kids[i]) + IdsAll(b)) + IdsAll(a);
    assert live + IdsAll(kids) == (live + Ids(kids[i]) + IdsAll(a)) + IdsAll(b);
    KeepAll(first, s, t, own, revision, a, live + Ids(kids[i]) + IdsAll(b));
    KeepAll(first, s, t, own, revision, b, live + Ids(kids[i]) + IdsAll(a));
  }

  // The child at `i` replaced by what an update made of it.
  lemma ReplaceKid(first: PageId, s: Store, t: Store, own: set<PageId>, revision: nat, children: seq<PageId>,
          kids: seq<Node>, i: nat, k: Node, live: multiset<PageId>)
    requires Forest(first, s, children, kids, live) && i < |kids|
    requires Frame(s, t, own, revision)
    requires forall x :: x in own ==> x in Ids(kids[i]) || Available(s, x)
    requires Rep(t.pages, k) && Owns(first, t, (live + Others(kids, i)) + Ids(k))
    ensures Forest(first, t, children[i := k.id], kids[i := k], live)
    ensures FlatAll(kids[i := k]) == FlatAll(kids[..i]) + Flat(k) + FlatAll(kids[i + 1..])
  {
    hide Owns, Frame, Rep, RepAll, IdsAll, FlatAll, LeafIdsAll, Ids, Available, Flat;
    SiblingsKept(first, s, t, own, revision, kids, i, live);
    RepAllReplace(t.pages, kids, i, k);
    SplitAround(kids, i, k);
    assert live + IdsAll(kids[i := k]) == (live + Others(kids, i)) + Ids(k);
    assert RootIds(kids[i := k]) == children[i := k.id];
  }

  method CopyKid(t: Tree, children: seq<PageId>, index: nat, ghost kids: seq<Node>, ghost live: multiset<PageId>)
    returns (r: Status, children': seq<PageId>, newId: PageId, ghost kids': seq<Node>)
    requires Forest(t.first, t.State(), children, kids, live) && index < |kids|
    modifies t`pages, t`nextPage, t`free, t`retired, t`reused
    ensures Frame(old(t.State()), t.State(), {}, t.revision)
    ensures r.Done? ==> Used(t.State()) == Used(old(t.State())) + 1
    ensures r.Panic? <==> Exhausted(old(t.State()))
    ensures r.Panic? ==> t.State() == old(t.State())
    ensures r.Done? ==>
              && Available(old(t.State()), newId)
              && children' == children[index := newId] && kids' == kids[index := WithId(kids[index], newId)]
              && Forest(t.first, t.State(), children', kids', live)
              && FlatAll(kids') == FlatAll(kids) && Separators(kids') == Separators(kids)
  {
    hide Owns, Frame, Rep, IdsAll, FlatAll, LeafIdsAll, Ids, Available, Flat, FirstKey, Others;
    ghost var s0 := t.State();
    OthersAround(kids, index, live);
    children', kids' := children, kids;
    assert Rep(t.pages, kids[index]) && children[index] == kids[index].id;
    r, newId := CopyNode(t, children[index], kids[index], live + Others(kids, index));
    if r.Panic? {
      return;
    }
    ghost var k := WithId(kids[index], newId);
    ReplaceKid(t.first, s0, t.State(), {}, t.revision, children, kids, index, k, live);
    WithIdSame(kids[index], newId);
    Around(kids, index);
    SeparatorsReplace(kids, index, k);
    children', kids' := children[index := newId], kids[index := k];
  }

  lemma SeparatorsReplace(kids: seq<Node>, i: nat, k: Node)
    requires i < |kids| && (i > 0 ==> FirstKey(k) == FirstKey(kids[i]))
    ensures Separators(kids[i := k]) == Separators(kids)
  {
    hide FirstKey;
  }

  lemma AllFullReplace(kids: seq<Node>, i: nat, k: Node, h: nat, lo: nat, d: nat)
    requires i < |kids| && AllFull(kids, h, lo, d) && Full(k, h, lo, d)
    ensures AllFull(kids[i := k], h, lo, d)
  {
    hide Full;
  }

  // ---- Two neighbouring children ----

  ghost function OthersOfPair(kids: seq<Node>, i: nat): multiset<PageId>
    requires i + 1 < |kids|
  {
    IdsAll(kids[..i]) + IdsAll(kids[i + 2..])
  }

  lemma PairAround(kids: seq<Node>, i: nat)
    requires i + 1 < |kids|
    ensures IdsAll(kids) == OthersOfPair(kids, i) + Ids(kids[i]) + Ids(kids[i + 1])
    ensures FlatAll(kids) == FlatAll(kids[..i]) + (Flat(kids[i]) + Flat(kids[i + 1])) + FlatAll(kids[i + 2..])
  {
    hide FlatAll, IdsAll, LeafIdsAll, Flat, Ids;
    var l, r := kids[i], kids[i + 1];
    SplitAtPair(kids, i);
    MiddleAll(kids[..i], [l, r], kids[i + 2..]);
    PairAll(l, r);
  }

  lemma PairAll(l: Node, r: Node)
    ensures FlatAll([l, r]) == Flat(l) + Flat(r) && IdsAll([l, r]) == Ids(l) + Ids(r)
  {
    hide FlatAll, IdsAll, LeafIdsAll, Flat, Ids;
    assert [l, r] == [l] + [r];
    ConcatAll([l], [r]);
    One(l);
    One(r);
  }

  lemma NothingAll()
    ensures FlatAll([]) == [] && IdsAll([]) == multiset{} && LeafIdsAll([]) == []
  {
  }

  lemma MiddleAll(a: seq<Node>, b: seq<Node>, c: seq<Node>)
    ensures FlatAll(a + b + c) == FlatAll(a) + FlatAll(b) + FlatAll(c)
    ensures IdsAll(a + b + c) == IdsAll(a) + IdsAll(b) + IdsAll(c)
  {
    hide FlatAll, IdsAll, LeafIdsAll;
    ConcatAll(a + b, c);
    ConcatAll(a, b);
  }

  // The children at `i` and `i + 1` replaced by what an update made of them.
  lemma ReplacePair(first: PageId, s: Store, t: Store, own: set<PageId>, revision: nat, children: seq<PageId>,
          kids: seq<Node>, i: nat, made: seq<Node>, live: multiset<PageId>)
    requires Forest(first, s, children, kids, live) && i + 1 < |kids|
    requires Frame(s, t, own, revision)
    requires forall x :: x in own ==> x in Ids(kids[i]) || x in Ids(kids[i + 1]) || Available(s, x)
    requires RepAll(t.pages, made) && Owns(first, t, (live + OthersOfPair(kids, i)) + IdsAll(made))
    requires FlatAll(made) == Flat(kids[i]) + Flat(kids[i + 1])
    ensures Forest(first, t, children[..i] + RootIds(made) + children[i + 2..], kids[..i] + made + kids[i + 2..], live)
    ensures FlatAll(kids[..i] + made + kids[i + 2..]) == FlatAll(kids)
  {
    hide Owns, Frame, Rep, RepAll, IdsAll, FlatAll, LeafIdsAll, Ids, Available, Flat;
    var a, b := kids[..i], kids[i + 2..];
    PairAround(kids, i);
    PairSiblingsKept(first, s, t, own, revision, kids, i, live);
    RepAllConcat(t.pages, a, made);
    RepAllConcat(t.pages, a + made, b);
    MiddleAll(a, made, b);
    assert live + IdsAll(a + made + b) == (live + OthersOfPair(kids, i)) + IdsAll(made);
    RootIdsMiddle(kids, i, made);
  }

  lemma RootIdsMiddle(kids: seq<Node>, i: nat, made: seq<Node>)
    requires i + 1 < |kids|
    ensures RootIds(kids[..i] + made + kids[i + 2..]) == RootIds(kids)[..i] + RootIds(made) + RootIds(kids)[i + 2..]
  {
  }

  lemma PairSiblingsKept(first: PageId, s: Store, t: Store, own: set<PageId>, revision: nat, kids: seq<Node>, i: nat,
          live: multiset<PageId>)
    requires i + 1 < |kids| && RepAll(s.pages, kids)
    requires Owns(first, s, live + IdsAll(kids)) && Frame(s, t, own, revision)
    requires forall x :: x in own ==> x in Ids(kids[i]) || x in Ids(kids[i + 1]) || Available(s, x)
    ensures RepAll(t.pages, kids[..i]) && RepAll(t.pages, kids[i + 2..])
  {
    hide Owns, Frame, Rep, RepAll, IdsAll, FlatAll, LeafIdsAll, Ids, Available, Flat;
    var a, b := kids[..i], kids[i + 2..];
    PairAround(kids, i);
    RepAllParts(s.pages, kids, i);
    RepAllParts(s.pages, kids, i + 2);
    var pair := Ids(kids[i]) + Ids(kids[i + 1]);
    assert live + IdsAll(kids) == (live + pair + IdsAll(b)) + IdsAll(a);
    assert live + IdsAll(kids) == (live + pair + IdsAll(a)) + IdsAll(b);
    KeepAll(first, s, t, own, revision, a, live + pair + IdsAll(b));
    KeepAll(first, s, t, own, revision, b, live + pair + IdsAll(a));
  }

  lemma AllFullPair(kids: seq<Node>, i: nat, made: seq<Node>, h: nat, lo: nat, d: nat)
    requires i + 1 < |kids| && AllFull(made, h, lo, d)
    requires forall j :: 0 <= j < |kids| && j != i && j != i + 1 ==> Full(kids[j], h, lo, d)
    ensures AllFull(kids[..i] + made + kids[i + 2..], h, lo, d)
  {
    hide Full;
    var all := kids[..i] + made + kids[i + 2..];
    forall j | 0 <= j < |all| ensures Full(all[j], h, lo, d) {
      if j < i {
        assert all[j] == kids[j];
      } else if j < i + |made| {
        assert all[j] == made[j - i];
      } else {
        assert all[j] == kids[j - |made| + 2];
      }
    }
  }

  // ---- A list of children cut in two ----

  lemma AllFullParts(kids: seq<Node>, cut: nat, h: nat, lo: nat, d: nat)
    requires cut <= |kids| && AllFull(kids, h, lo, d)
    ensures AllFull(kids[..cut], h, lo, d) && AllFull(kids[cut..], h, lo, d)
  {
    hide Full;
  }

  lemma RootIdsConcat(a: seq<Node>, b: seq<Node>)
    ensures RootIds(a + b) == RootIds(a) + RootIds(b)
  {
  }

  lemma RootIdsParts(kids: seq<Node>, cut: nat)
    requires cut <= |kids|
    ensures RootIds(kids[..cut]) == RootIds(kids)[..cut] && RootIds(kids[cut..]) == RootIds(kids)[cut..]
  {
  }

  lemma KeysFitParts(d: nat, a: seq<KV>, b: seq<KV>)
    requires d >= 2 && KeysFit(d, a + b)
    ensures KeysFit(d, a) && KeysFit(d, b)
  {
    hide KeyFits;
    assert forall i :: 0 <= i < |a| ==> (a + b)[i] == a[i];
    assert forall i :: 0 <= i < |b| ==> (a + b)[|a| + i] == b[i];
  }

  lemma CutAll(pages: PageMap, kids: seq<Node>, cut: nat, h: nat, lo: nat, d: nat)
    requires cut <= |kids| && RepAll(pages, kids) && AllFull(kids, h, lo, d) && d >= 2
    ensures RepAll(pages, kids[..cut]) && RepAll(pages, kids[cut..])
    ensures AllFull(kids[..cut], h, lo, d) && AllFull(kids[cut..], h, lo, d)
    ensures FlatAll(kids) == FlatAll(kids[..cut]) + FlatAll(kids[cut..])
    ensures IdsAll(kids) == IdsAll(kids[..cut]) + IdsAll(kids[cut..])
    ensures KeysFit(d, FlatAll(kids)) ==> KeysFit(d, FlatAll(kids[..cut])) && KeysFit(d, FlatAll(kids[cut..]))
    ensures RootIds(kids[..cut]) == RootIds(kids)[..cut] && RootIds(kids[cut..]) == RootIds(kids)[cut..]
  {
    hide FlatAll, AllFull, FirstKey, RepAll, IdsAll, LeafIdsAll, KeysFit, RootIds;
    assert kids == kids[..cut] + kids[cut..];
    ConcatAll(kids[..cut], kids[cut..]);
    RepAllParts(pages, kids, cut);
    AllFullParts(kids, cut, h, lo, d);
    RootIdsParts(kids, cut);
    if KeysFit(d, FlatAll(kids)) {
      KeysFitParts(d, FlatAll(kids[..cut]), FlatAll(kids[cut..]));
    }
  }
}
