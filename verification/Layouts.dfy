// Which pairs share a leaf: the leaves of a tree from left to right, and what the repair of
// an underfull leaf makes of them (pagebtree/delete.go).

module Layouts {
  import opened Contents
  import opened Pages
  import opened Nodes
  import opened Splits

  // The pairs of each leaf from left to right; an empty leaf is none.
  ghost function LeafLists(n: Node): seq<seq<KV>>
    decreases n, 1
  {
    match n
    case Leaf(_, slots) => if slots == [] then [] else [PairsOf(slots)]
    case Branch(_, kids) => LeafListsAll(kids)
  }

  ghost function LeafListsAll(kids: seq<Node>): seq<seq<KV>>
    decreases kids, 0
  {
    if kids == [] then [] else LeafLists(kids[0]) + LeafListsAll(kids[1..])
  }

  ghost function ListsIn(shape: Option<Node>): seq<seq<KV>> {
    if shape.Some? then LeafLists(shape.value) else []
  }

  lemma {:induction false} ListsConcat(a: seq<Node>, b: seq<Node>)
    ensures LeafListsAll(a + b) == LeafListsAll(a) + LeafListsAll(b)
  {
    if a == [] {
      assert a + b == b;
    } else {
      assert (a + b)[0] == a[0] && (a + b)[1..] == a[1..] + b;
      ListsConcat(a[1..], b);
    }
  }

  lemma ListsOne(n: Node)
    ensures LeafListsAll([n]) == LeafLists(n)
  {
    assert [n][1..] == [];
  }

  lemma ListsTwo(m: Node, n: Node)
    ensures LeafListsAll([m, n]) == LeafLists(m) + LeafLists(n)
  {
    hide LeafLists, LeafListsAll;
    assert [m, n] == [m] + [n];
    ListsConcat([m], [n]);
    ListsOne(m);
    ListsOne(n);
  }

  lemma ListsOfBranch(n: Node)
    requires n.Branch?
    ensures LeafLists(n) == LeafListsAll(n.kids)
  {
  }

  lemma ListsWithId(n: Node, id: PageId)
    ensures LeafLists(WithId(n, id)) == LeafLists(n)
  {
  }

  lemma ListsMiddle(a: seq<Node>, b: seq<Node>, c: seq<Node>)
    ensures LeafListsAll(a + b + c) == LeafListsAll(a) + LeafListsAll(b) + LeafListsAll(c)
  {
    hide LeafListsAll;
    ListsConcat(a + b, c);
    ListsConcat(a, b);
  }

  lemma ListsAround(kids: seq<Node>, i: nat)
    requires i < |kids|
    ensures LeafListsAll(kids) == LeafListsAll(kids[..i]) + LeafLists(kids[i]) + LeafListsAll(kids[i + 1..])
  {
    hide LeafLists, LeafListsAll;
    assert kids == kids[..i] + [kids[i]] + kids[i + 1..];
    ListsMiddle(kids[..i], [kids[i]], kids[i + 1..]);
    ListsOne(kids[i]);
  }

  lemma ListsReplaced(kids: seq<Node>, i: nat, k: Node)
    requires i < |kids|
    ensures LeafListsAll(kids[i := k])
            == LeafListsAll(kids[..i]) + LeafLists(k) + LeafListsAll(kids[i + 1..])
  {
    hide LeafLists, LeafListsAll;
    ListsAround(kids[i := k], i);
    assert kids[i := k][..i] == kids[..i] && kids[i := k][i + 1..] == kids[i + 1..];
  }

  // Two neighbours that hold the same leaves together as before.
  lemma ListsPairChanged(kids: seq<Node>, i: nat, kids': seq<Node>)
    requires i + 1 < |kids| == |kids'| && kids' == kids[i := kids'[i]][i + 1 := kids'[i + 1]]
    requires LeafLists(kids[i]) + LeafLists(kids[i + 1]) == LeafLists(kids'[i]) + LeafLists(kids'[i + 1])
    ensures LeafListsAll(kids') == LeafListsAll(kids)
  {
    hide LeafLists, LeafListsAll;
    assert kids == kids[..i] + [kids[i], kids[i + 1]] + kids[i + 2..];
    assert kids' == kids[..i] + [kids'[i], kids'[i + 1]] + kids[i + 2..];
    ListsMiddle(kids[..i], [kids[i], kids[i + 1]], kids[i + 2..]);
    ListsMiddle(kids[..i], [kids'[i], kids'[i + 1]], kids[i + 2..]);
    ListsTwo(kids[i], kids[i + 1]);
    ListsTwo(kids'[i], kids'[i + 1]);
  }

  // ---- Repair ----

  // A leaf that is due for repair: below d-1 entries, or with d-1 entries of fewer bytes than
  // the given part of a page.
  ghost predicate IsDue(d: nat, percent: nat, slots: seq<Slot>) {
    || |slots| + 1 < d
    || (|slots| + 1 == d && LeafBytes(EntriesOf(slots)) < PAGE_SIZE * percent / 100)
  }

  // A cut of the cells of two leaves into two new ones: the one that balances their sizes best
  // and is the first such, among the cuts that give each d-1 to 2d-1 cells. With too few cells
  // for that it is the half.
  ghost predicate IsCutAt(d: nat, cells: seq<Entry>, cut: nat) {
    var n := |cells|;
    && 1 <= cut < n && (d <= n < 2 * d - 2 ==> cut == n / 2) && (n < d ==> n / 2 <= cut <= n - n / 2)
    && forall c ::
      (if n >= d then d - 1 <= c <= 2 * d - 1 && d - 1 <= n - c <= 2 * d - 1 else n / 2 <= c <= n - n / 2) ==>
        var l, r := LeafBytes(cells[..cut]), LeafBytes(cells[cut..]);
        var l', r' := LeafBytes(cells[..c]), LeafBytes(cells[c..]);
        && Max(l, r) - Min(l, r) <= Max(l', r') - Min(l', r')
        && (c < cut ==> Max(l, r) - Min(l, r) < Max(l', r') - Min(l', r'))
  }

  // What becomes of two neighbouring leaves: one if their cells fit a page, else two.
  ghost predicate Rejoined(d: nat, a: seq<Slot>, b: seq<Slot>, after: seq<seq<KV>>) {
    var cells, pairs := EntriesOf(a + b), PairsOf(a + b);
    if |cells| <= 2 * d - 1 && LeafBytes(cells) <= PAGE_SIZE then after == [pairs]
    else
      |after| == 2 && after[0] + after[1] == pairs && IsCutAt(d, cells, |after[0]|)
  }

  lemma LoadedIsWeighed(cells: seq<Entry>, loaded: seq<LeafEntry>)
    requires |loaded| == |cells|
             && forall i :: 0 <= i < |cells| ==> loaded[i] == LeafEntry(cells[i].key, Encoded(cells[i].cell))
    ensures forall cut :: 0 <= cut <= |cells| ==>
              Weighed(loaded[..cut]) == cells[..cut] && Weighed(loaded[cut..]) == cells[cut..]
    ensures PAGE_HEADER_SIZE + Weight(loaded) == LeafBytes(cells)
  {
    hide Weight, LeafBytes;
    WeightIsBytes(loaded);
    assert Weighed(loaded) == cells;
  }

  // The cut that is chosen for cells read back from pages.
  lemma ChosenCut(d: nat, cells: seq<Entry>, loaded: seq<LeafEntry>, cut: nat)
    requires d >= 2 && 2 <= |cells| <= 2 * MaxKeys(d) && |loaded| == |cells|
    requires forall i :: 0 <= i < |cells| ==> loaded[i] == LeafEntry(cells[i].key, Encoded(cells[i].cell))
    requires if LeafCutLow(|cells|, d) <= LeafCutHigh(|cells|, d)
             then LeafCutLow(|cells|, d) <= cut <= LeafCutHigh(|cells|, d)
               && IsBestCut(loaded, cut, LeafCutLow(|cells|, d), LeafCutHigh(|cells|, d))
             else cut == |cells| / 2
    ensures IsCutAt(d, cells, cut)
  {
    hide LeafImbalance, LeafBytes, Weighed;
    LeafCutsFill(|cells|, d, cut);
    LoadedIsWeighed(cells, loaded);
    forall c | 0 <= c <= |cells|
      ensures var l, r := LeafBytes(cells[..c]), LeafBytes(cells[c..]);
              LeafImbalance(loaded, c) == Max(l, r) - Min(l, r)
    {
      ImbalanceIsBytes(loaded, c);
    }
  }

  ghost predicate RejoinedBetween(d: nat, before: seq<seq<KV>>, a: seq<Slot>, b: seq<Slot>, rest: seq<seq<KV>>,
                                  after: seq<seq<KV>>)
  {
    exists made :: Rejoined(d, a, b, made) && after == before + made + rest
  }

  // The leaves among siblings once the one at `i` holds `left`: it is gone if that is nothing.
  // If it is due for repair it is joined with its left neighbour, or as the first with the
  // second. Otherwise no other leaf changes.
  ghost predicate Relaid(d: nat, percent: nat, leaves: seq<Node>, i: nat, left: seq<Slot>, after: seq<seq<KV>>)
    requires i < |leaves|
  {
    if left == [] then after == LeafListsAll(leaves[..i]) + LeafListsAll(leaves[i + 1..])
    else if |leaves| < 2 || !IsDue(d, percent, left) then
      after == LeafListsAll(leaves[..i]) + [PairsOf(left)] + LeafListsAll(leaves[i + 1..])
    else if i > 0 then
      && leaves[i - 1].Leaf?
      && RejoinedBetween(d, LeafListsAll(leaves[..i - 1]), leaves[i - 1].slots, left, LeafListsAll(leaves[i + 1..]),
                         after)
    else
      && leaves[1].Leaf?
      && RejoinedBetween(d, [], left, leaves[1].slots, LeafListsAll(leaves[2..]), after)
  }

  // Only the siblings' contents matter.
  lemma RelaidSame(d: nat, percent: nat, leaves: seq<Node>, leaves': seq<Node>, i: nat, left: seq<Slot>,
          after: seq<seq<KV>>)
    requires i < |leaves| == |leaves'| && leaves' == leaves[i := leaves'[i]]
    ensures Relaid(d, percent, leaves', i, left, after) <==> Relaid(d, percent, leaves, i, left, after)
  {
    hide LeafListsAll, RejoinedBetween, IsDue;
    assert leaves'[..i] == leaves[..i] && leaves'[i + 1..] == leaves[i + 1..];
    if i > 0 {
      assert leaves'[..i - 1] == leaves[..i - 1];
    } else if |leaves| >= 2 {
      assert leaves'[2..] == leaves[2..];
    }
  }
}
