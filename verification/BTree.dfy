// The in-memory B-tree of linked nodes (btree/): preemptive splits on a cloned search path.

module BTree {
  import opened KeyOrder
  import opened Seqs
  import opened Contents
  import opened Ranges
  import opened Routing

  // ---- Trees as values ----

  datatype Shape = Shape(leaf: bool, kvs: seq<KV>, kids: seq<Shape>)

  // The pairs in order: a child, a pair, a child, and so on.
  function InOrder(t: Shape): seq<KV>
    decreases t, 0
  {
    if t.leaf || |t.kids| != |t.kvs| + 1 then t.kvs else LeftOf(t.kids, t.kvs, |t.kvs|) + InOrder(t.kids[|t.kvs|])
  }

  // What comes before child `i`.
  function LeftOf(kids: seq<Shape>, kvs: seq<KV>, i: nat): seq<KV>
    requires i <= |kvs| && i <= |kids|
    decreases kids, i
  {
    if i == 0 then [] else LeftOf(kids, kvs, i - 1) + InOrder(kids[i - 1]) + [kvs[i - 1]]
  }

  // What comes after child `i`.
  function RightOf(kids: seq<Shape>, kvs: seq<KV>, i: nat): seq<KV>
    requires i <= |kvs| && |kids| == |kvs| + 1
    decreases kids, |kvs| - i
  {
    if i == |kvs| then [] else [kvs[i]] + InOrder(kids[i + 1]) + RightOf(kids, kvs, i + 1)
  }

  // Depth `h` everywhere; at most 2d-1 pairs in a node, and at least `least` in the top one,
  // d-1 in the others.
  ghost predicate Proper(t: Shape, h: nat, least: nat, d: nat)
    decreases t
  {
    && least <= |t.kvs| < 2 * d
    && (if t.leaf then h == 0 && t.kids == []
        else h > 0 && |t.kids| == |t.kvs| + 1 && forall i :: 0 <= i < |t.kids| ==> Proper(t.kids[i], h - 1, d - 1, d))
  }

  // ---- Nodes on the heap ----

  class Node {
    var leaf: bool
    var keys: seq<Key>
    var values: seq<Bytes>
    var children: seq<Node>

    constructor (leaf: bool, keys: seq<Key>, values: seq<Bytes>, children: seq<Node>)
      ensures this.leaf == leaf && this.keys == keys && this.values == values && this.children == children
    {
      this.leaf, this.keys, this.values, this.children := leaf, keys, values, children;
    }

    method Clone() returns (out: Node)
      ensures fresh(out)
      ensures out.leaf == leaf && out.keys == keys && out.values == values && out.children == children
    {
      out := new Node(leaf, keys, values, children);
    }
  }

  // The node holds these pairs itself.
  ghost predicate Holds(n: Node, t: Shape)
    reads n
  {
    && n.leaf == t.leaf
    && |n.keys| == |n.values| == |t.kvs|
    && (forall i :: 0 <= i < |t.kvs| ==> n.keys[i] == t.kvs[i].key && n.values[i] == t.kvs[i].value)
    && |n.children| == |t.kids|
  }

  // These nodes, all of them in `repr` with everything below them, spell out these trees.
  // They may share nodes with each other and with older trees.
  ghost predicate Children(children: seq<Node>, kids: seq<Shape>, repr: set<Node>)
    reads repr
    decreases kids, 0
  {
    |children| == |kids| && forall i :: 0 <= i < |kids| ==> children[i] in repr && Spells(children[i], kids[i], repr)
  }

  ghost predicate Spells(n: Node, t: Shape, repr: set<Node>)
    reads n, repr
    decreases t, 1
  {
    Holds(n, t) && Children(n.children, t.kids, repr)
  }

  lemma {:induction false} SpellsMore(n: Node, t: Shape, repr: set<Node>, repr': set<Node>)
    requires Spells(n, t, repr) && repr <= repr'
    ensures Spells(n, t, repr')
    decreases t, 1
  {
    ChildrenMore(n.children, t.kids, repr, repr');
  }

  lemma {:induction false} ChildrenMore(children: seq<Node>, kids: seq<Shape>, repr: set<Node>, repr': set<Node>)
    requires Children(children, kids, repr) && repr <= repr'
    ensures Children(children, kids, repr')
    decreases kids, 0
  {
    forall i | 0 <= i < |kids| ensures Spells(children[i], kids[i], repr') {
      SpellsMore(children[i], kids[i], repr, repr');
    }
  }

  // All but one of them.
  ghost predicate Siblings(children: seq<Node>, kids: seq<Shape>, i: nat, repr: set<Node>)
    reads repr
  {
    |children| == |kids| && forall j ::
        0 <= j < |kids| && j != i ==> children[j] in repr && Spells(children[j], kids[j], repr)
  }

  lemma SiblingsMore(children: seq<Node>, kids: seq<Shape>, i: nat, repr: set<Node>, repr': set<Node>)
    requires Siblings(children, kids, i, repr) && repr <= repr'
    ensures Siblings(children, kids, i, repr')
  {
    forall j | 0 <= j < |kids| && j != i ensures Spells(children[j], kids[j], repr') {
      SpellsMore(children[j], kids[j], repr, repr');
    }
  }

  lemma ChildBack(children: seq<Node>, kids: seq<Shape>, i: nat, c: Shape, repr: set<Node>)
    requires Siblings(children, kids, i, repr) && i < |kids| && children[i] in repr && Spells(children[i], c, repr)
    ensures Children(children, kids[i := c], repr)
  {
    forall j | 0 <= j < |kids| ensures children[j] in repr && Spells(children[j], kids[i := c][j], repr) {
    }
  }

  // ---- Order around a child ----

  lemma {:induction false} Around(t: Shape, i: nat)
    requires !t.leaf && |t.kids| == |t.kvs| + 1 && i <= |t.kvs|
    ensures InOrder(t) == LeftOf(t.kids, t.kvs, i) + InOrder(t.kids[i]) + RightOf(t.kids, t.kvs, i)
    decreases |t.kvs| - i
  {
    if i < |t.kvs| {
      Around(t, i + 1);
      var l, m, r := LeftOf(t.kids, t.kvs, i), InOrder(t.kids[i]), RightOf(t.kids, t.kvs, i + 1);
      assert LeftOf(t.kids, t.kvs, i + 1) == l + m + [t.kvs[i]];
      assert (l + m + [t.kvs[i]]) + InOrder(t.kids[i + 1]) + r == l + m + ([t.kvs[i]] + InOrder(t.kids[i + 1]) + r);
    }
  }

  // Neither side looks at what it does not cover.
  lemma {:induction false} LeftSame(kids: seq<Shape>, kvs: seq<KV>, kids': seq<Shape>, kvs': seq<KV>, i: nat)
    requires i <= |kvs| && i <= |kids| && i <= |kvs'| && i <= |kids'|
    requires kids[..i] == kids'[..i] && kvs[..i] == kvs'[..i]
    ensures LeftOf(kids, kvs, i) == LeftOf(kids', kvs', i)
    decreases i
  {
    if i > 0 {
      assert kids[..i][..i - 1] == kids[..i - 1] && kids'[..i][..i - 1] == kids'[..i - 1];
      assert kvs[..i][..i - 1] == kvs[..i - 1] && kvs'[..i][..i - 1] == kvs'[..i - 1];
      assert kids[..i][i - 1] == kids'[..i][i - 1] && kvs[..i][i - 1] == kvs'[..i][i - 1];
      LeftSame(kids, kvs, kids', kvs', i - 1);
    }
  }

  lemma {:induction false} RightSame(kids: seq<Shape>, kvs: seq<KV>, kids': seq<Shape>, kvs': seq<KV>, i: nat, i': nat)
    requires i <= |kvs| && |kids| == |kvs| + 1 && i' <= |kvs'| && |kids'| == |kvs'| + 1
    requires kids[i + 1..] == kids'[i' + 1..] && kvs[i..] == kvs'[i'..]
    ensures RightOf(kids, kvs, i) == RightOf(kids', kvs', i')
    decreases |kvs| - i
  {
    if i < |kvs| {
      assert kvs[i..][0] == kvs'[i'..][0] && kvs[i..][1..] == kvs[i + 1..] && kvs'[i'..][1..] == kvs'[i' + 1..];
      assert kids[i + 1..][0] == kids'[i' + 1..][0] && kids[i + 1..][1..] == kids[i + 2..]
             && kids'[i' + 1..][1..] == kids'[i' + 2..];
      RightSame(kids, kvs, kids', kvs', i + 1, i' + 1);
    }
  }

  // A tree with child `i` replaced.
  lemma ReplaceChild(t: Shape, i: nat, c: Shape)
    requires !t.leaf && |t.kids| == |t.kvs| + 1 && i <= |t.kvs|
    ensures InOrder(t.(kids := t.kids[i := c])) == LeftOf(t.kids, t.kvs, i) + InOrder(c) + RightOf(t.kids, t.kvs, i)
  {
    hide InOrder, LeftOf, RightOf;
    var t' := t.(kids := t.kids[i := c]);
    Around(t', i);
    LeftSame(t.kids, t.kvs, t'.kids, t.kvs, i);
    RightSame(t.kids, t.kvs, t'.kids, t.kvs, i, i);
  }

  // A tree with one of its own pairs replaced.
  lemma ReplacePair(t: Shape, i: nat, kv: KV)
    requires i < |t.kvs| && (t.leaf || |t.kids| == |t.kvs| + 1)
    ensures var t' := t.(kvs := t.kvs[i := kv]);
            var before := if t.leaf then t.kvs[..i] else LeftOf(t.kids, t.kvs, i) + InOrder(t.kids[i]);
            var after := if t.leaf then t.kvs[i + 1..] else InOrder(t.kids[i + 1]) + RightOf(t.kids, t.kvs, i + 1);
            InOrder(t) == before + [t.kvs[i]] + after && InOrder(t') == before + [kv] + after
  {
    if !t.leaf {
      PairInside(t, i);
      var t' := t.(kvs := t.kvs[i := kv]);
      PairInside(t', i);
      LeftSame(t.kids, t.kvs, t.kids, t'.kvs, i);
      RightSame(t.kids, t.kvs, t.kids, t'.kvs, i + 1, i + 1);
    }
  }

  lemma PairInside(t: Shape, i: nat)
    requires !t.leaf && |t.kids| == |t.kvs| + 1 && i < |t.kvs|
    ensures InOrder(t) == LeftOf(t.kids, t.kvs,
              i) + InOrder(t.kids[i]) + [t.kvs[i]] + (InOrder(t.kids[i + 1]) + RightOf(t.kids, t.kvs, i + 1))
  {
    Around(t, i + 1);
    var l := LeftOf(t.kids, t.kvs, i) + InOrder(t.kids[i]) + [t.kvs[i]];
    assert l + InOrder(t.kids[i + 1]) + RightOf(t.kids, t.kvs, i + 1)
           == l + (InOrder(t.kids[i + 1]) + RightOf(t.kids, t.kvs, i + 1));
  }

  // ---- Splitting ----

  function HalfLeft(t: Shape, m: nat): Shape
    requires m < |t.kvs| && (!t.leaf ==> |t.kids| == |t.kvs| + 1)
  {
    Shape(t.leaf, t.kvs[..m], if t.leaf then [] else t.kids[..m + 1])
  }

  function HalfRight(t: Shape, m: nat): Shape
    requires m < |t.kvs| && (!t.leaf ==> |t.kids| == |t.kvs| + 1)
  {
    Shape(t.leaf, t.kvs[m + 1..], if t.leaf then [] else t.kids[m + 1..])
  }

  // The halves of a node around its median hold the pairs of the node.
  lemma HalvesInOrder(t: Shape, m: nat)
    requires m < |t.kvs| && (!t.leaf ==> |t.kids| == |t.kvs| + 1)
    ensures InOrder(t) == InOrder(HalfLeft(t, m)) + [t.kvs[m]] + InOrder(HalfRight(t, m))
  {
    if !t.leaf {
      BranchHalves(t, m);
    }
  }

  lemma BranchHalves(t: Shape, m: nat)
    requires m < |t.kvs| && !t.leaf && |t.kids| == |t.kvs| + 1
    ensures InOrder(t) == InOrder(HalfLeft(t, m)) + [t.kvs[m]] + InOrder(HalfRight(t, m))
  {
    hide InOrder, LeftOf, RightOf;
    var l, r := HalfLeft(t, m), HalfRight(t, m);
    PairInside(t, m);
    LeftSame(t.kids, t.kvs, l.kids, l.kvs, m);
    Around(l, m);
    Around(r, 0);
    RightSame(t.kids, t.kvs, r.kids, r.kvs, m + 1, 0);
    LeftEnds(r.kids, r.kvs, 0);
    RightStarts(l.kids, l.kvs, m);
  }

  // The parent after its child `i` was split around `m`.
  function SplitShape(t: Shape, i: nat, m: nat): Shape
    requires !t.leaf && |t.kids| == |t.kvs| + 1 && i <= |t.kvs|
    requires m < |t.kids[i].kvs| && (!t.kids[i].leaf ==> |t.kids[i].kids| == |t.kids[i].kvs| + 1)
  {
    Shape(false, InsertAt(t.kvs, i, t.kids[i].kvs[m]),
          t.kids[..i] + [HalfLeft(t.kids[i], m), HalfRight(t.kids[i], m)] + t.kids[i + 1..])
  }

  lemma SplitKeepsOrder(t: Shape, i: nat, m: nat)
    requires !t.leaf && |t.kids| == |t.kvs| + 1 && i <= |t.kvs|
    requires m < |t.kids[i].kvs| && (!t.kids[i].leaf ==> |t.kids[i].kids| == |t.kids[i].kvs| + 1)
    ensures InOrder(SplitShape(t, i, m)) == InOrder(t)
  {
    hide InOrder, LeftOf, RightOf, HalfLeft, HalfRight;
    var t', c := SplitShape(t, i, m), t.kids[i];
    Around(t, i);
    HalvesInOrder(c, m);
    PairInside(t', i);
    assert t'.kids[..i] == t.kids[..i] && t'.kvs[..i] == t.kvs[..i];
    LeftSame(t.kids, t.kvs, t'.kids, t'.kvs, i);
    assert t'.kids[i + 2..] == t.kids[i + 1..] && t'.kvs[i + 1..] == t.kvs[i..];
    RightSame(t.kids, t.kvs, t'.kids, t'.kvs, i, i + 1);
    assert t'.kids[i] == HalfLeft(c, m) && t'.kids[i + 1] == HalfRight(c, m) && t'.kvs[i] == c.kvs[m];
  }

  // ---- Routing ----

  ghost predicate AllBelow(o: Order, s: seq<KV>, key: Key) {
    forall i :: 0 <= i < |s| ==> Lt(o, s[i].key, key)
  }

  ghost predicate AllAbove(o: Order, s: seq<KV>, key: Key) {
    forall i :: 0 <= i < |s| ==> Lt(o, key, s[i].key)
  }

  // An update between pairs below the key and pairs above it.
  lemma UpdateBetween(o: Order, l: seq<KV>, m: seq<KV>, r: seq<KV>, key: Key, value: Bytes)
    requires Sorted(o, m) && AllBelow(o, l, key) && AllAbove(o, r, key)
    ensures Upsert(o, l + m + r, key, value) == l + Upsert(o, m, key, value) + r
    ensures Lookup(o, l + m + r, key) == Lookup(o, m, key)
  {
    hide LowerBound, Lt, SortedKeys, Has;
    var i := LowerBound(o, Keys(m), key);
    LowerBoundSplits(o, Keys(m), key);
    assert Keys(l + m + r) == Keys(l) + Keys(m) + Keys(r);
    forall j | 0 <= j < |r| ensures !Lt(o, Keys(r)[j], key) && Keys(r)[j] != key {
      Trichotomy(o, key, r[j].key);
    }
    LowerBoundBetween(o, Keys(l), Keys(m), Keys(r), key, i);
    HasPosition(o, Keys(m), key);
    if Has(o, Keys(m), key) {
      ReplaceLocal(l, m, r, i, KV(key, value));
    } else {
      InsertAtLocal(l, m, r, i, KV(key, value));
    }
  }

  lemma HasPosition(o: Order, s: seq<Key>, key: Key)
    ensures Has(o, s, key) ==> LowerBound(o, s, key) < |s| && s[LowerBound(o, s, key)] == key
  {
  }

  // A node's own keys are sorted.
  lemma OwnKeysSorted(o: Order, t: Shape)
    requires Sorted(o, InOrder(t)) && (t.leaf || |t.kids| == |t.kvs| + 1)
    ensures SortedKeys(o, Keys(t.kvs))
  {
    hide InOrder, LeftOf, RightOf, Lt;
    if t.leaf {
      InOrderOfLeaf(t);
    } else {
      forall i, j | 0 <= i < j < |t.kvs| ensures Lt(o, Keys(t.kvs)[i], Keys(t.kvs)[j]) {
        PairInside(t, j);
        var l := LeftOf(t.kids, t.kvs, j) + InOrder(t.kids[j]);
        SortedParts(o, l + [t.kvs[j]], InOrder(t.kids[j + 1]) + RightOf(t.kids, t.kvs, j + 1));
        SortedParts(o, l, [t.kvs[j]]);
        InLeft(t.kids, t.kvs, j, i);
        var p :| 0 <= p < |LeftOf(t.kids, t.kvs, j)| && LeftOf(t.kids, t.kvs, j)[p] == t.kvs[i];
        assert l[p] == t.kvs[i] && [t.kvs[j]][0] == t.kvs[j];
      }
    }
  }

  lemma InOrderOfLeaf(t: Shape)
    requires t.leaf
    ensures InOrder(t) == t.kvs
  {
  }

  lemma {:induction false} InLeft(kids: seq<Shape>, kvs: seq<KV>, i: nat, j: nat)
    requires j < i <= |kvs| && i <= |kids|
    ensures kvs[j] in LeftOf(kids, kvs, i)
    decreases i
  {
    if j < i - 1 {
      InLeft(kids, kvs, i - 1, j);
    }
  }

  // Around the child that a search enters, everything is on its side of the key.
  lemma ChildBetween(o: Order, t: Shape, i: nat, key: Key)
    requires !t.leaf && |t.kids| == |t.kvs| + 1 && i <= |t.kvs| && Sorted(o, InOrder(t))
    requires i > 0 ==> Lt(o, t.kvs[i - 1].key, key)
    requires i < |t.kvs| ==> Lt(o, key, t.kvs[i].key)
    ensures AllBelow(o, LeftOf(t.kids, t.kvs, i), key) && AllAbove(o, RightOf(t.kids, t.kvs, i), key)
    ensures Sorted(o, InOrder(t.kids[i]))
  {
    hide InOrder, LeftOf, RightOf, Lt, SortedKeys;
    Around(t, i);
    var l, m, r := LeftOf(t.kids, t.kvs, i), InOrder(t.kids[i]), RightOf(t.kids, t.kvs, i);
    SortedParts(o, l + m, r);
    SortedParts(o, l, m);
    LeftEnds(t.kids, t.kvs, i);
    RightStarts(t.kids, t.kvs, i);
    if i > 0 {
      EndBelow(o, l, key);
    }
    if i < |t.kvs| {
      StartAbove(o, r, key);
    }
  }

  lemma LeftEnds(kids: seq<Shape>, kvs: seq<KV>, i: nat)
    requires i <= |kvs| && i <= |kids|
    ensures i == 0 ==> LeftOf(kids, kvs, i) == []
    ensures i > 0 ==> LeftOf(kids, kvs, i) != [] && LeftOf(kids, kvs, i)[|LeftOf(kids, kvs, i)| - 1] == kvs[i - 1]
  {
  }

  lemma RightStarts(kids: seq<Shape>, kvs: seq<KV>, i: nat)
    requires i <= |kvs| && |kids| == |kvs| + 1
    ensures i == |kvs| ==> RightOf(kids, kvs, i) == []
    ensures i < |kvs| ==> RightOf(kids, kvs, i) != [] && RightOf(kids, kvs, i)[0] == kvs[i]
  {
  }

  lemma EndBelow(o: Order, s: seq<KV>, key: Key)
    requires Sorted(o, s) && s != [] && Lt(o, s[|s| - 1].key, key)
    ensures AllBelow(o, s, key)
  {
    forall i | 0 <= i < |s| - 1 ensures Lt(o, s[i].key, key) {
      assert Lt(o, Keys(s)[i], Keys(s)[|s| - 1]);
      Transitive(o, s[i].key, s[|s| - 1].key, key);
    }
  }

  lemma StartAbove(o: Order, s: seq<KV>, key: Key)
    requires Sorted(o, s) && s != [] && Lt(o, key, s[0].key)
    ensures AllAbove(o, s, key)
  {
    forall i | 0 < i < |s| ensures Lt(o, key, s[i].key) {
      assert Lt(o, Keys(s)[0], Keys(s)[i]);
      Transitive(o, key, s[0].key, s[i].key);
    }
  }

  // A child that took the update carries it to its parent.
  lemma UpdatedChild(o: Order, t: Shape, i: nat, c: Shape, key: Key, value: Bytes)
    requires !t.leaf && |t.kids| == |t.kvs| + 1 && i <= |t.kvs| && Sorted(o, InOrder(t))
    requires i > 0 ==> Lt(o, t.kvs[i - 1].key, key)
    requires i < |t.kvs| ==> Lt(o, key, t.kvs[i].key)
    requires InOrder(c) == Upsert(o, InOrder(t.kids[i]), key, value)
    ensures InOrder(t.(kids := t.kids[i := c])) == Upsert(o, InOrder(t), key, value)
    ensures Lookup(o, InOrder(t), key) == Lookup(o, InOrder(t.kids[i]), key)
  {
    hide InOrder, LeftOf, RightOf, Lt, SortedKeys, Upsert, Lookup;
    ChildBetween(o, t, i, key);
    Around(t, i);
    ReplaceChild(t, i, c);
    UpdateBetween(o, LeftOf(t.kids, t.kvs, i), InOrder(t.kids[i]), RightOf(t.kids, t.kvs, i), key, value);
  }

  // Replacing the value of a key the node holds itself.
  lemma UpdatedPair(o: Order, t: Shape, i: nat, key: Key, value: Bytes)
    requires i < |t.kvs| && t.kvs[i].key == key && (t.leaf || |t.kids| == |t.kvs| + 1) && Sorted(o, InOrder(t))
    ensures InOrder(t.(kvs := t.kvs[i := KV(key, value)])) == Upsert(o, InOrder(t), key, value)
    ensures Lookup(o, InOrder(t), key) == Some(t.kvs[i].value)
  {
    hide InOrder, LeftOf, RightOf, Lt, SortedKeys;
    ReplacePair(t, i, KV(key, value));
    var before := if t.leaf then t.kvs[..i] else LeftOf(t.kids, t.kvs, i) + InOrder(t.kids[i]);
    var after := if t.leaf then t.kvs[i + 1..] else InOrder(t.kids[i + 1]) + RightOf(t.kids, t.kvs, i + 1);
    SortedParts(o, before + [t.kvs[i]], after);
    SortedParts(o, before, [t.kvs[i]]);
    assert (before + [t.kvs[i]])[|before|] == t.kvs[i];
    OnePair(o, t.kvs[i], value);
    UpdateBetween(o, before, [t.kvs[i]], after, key, value);
  }

  lemma OnePair(o: Order, kv: KV, value: Bytes)
    ensures Sorted(o, [kv]) && Upsert(o, [kv], kv.key, value) == [KV(kv.key, value)]
            && Lookup(o, [kv], kv.key) == Some(kv.value)
  {
    Trichotomy(o, kv.key, kv.key);
    assert Keys([kv]) == [kv.key];
  }

  // Inserting a new pair into a leaf.
  lemma UpdatedLeaf(o: Order, t: Shape, key: Key, value: Bytes)
    requires t.leaf && !Has(o, Keys(t.kvs), key)
    ensures InOrder(t.(kvs := InsertAt(t.kvs, LowerBound(o, Keys(t.kvs), key), KV(key, value))))
            == Upsert(o, InOrder(t), key, value)
    ensures Lookup(o, InOrder(t), key) == None
  {
  }

  // ---- Insertion on the heap ----

  lemma ChildrenParts(children: seq<Node>, kids: seq<Shape>, m: nat, repr: set<Node>)
    requires Children(children, kids, repr) && m <= |kids|
    ensures |children| == |kids| && Children(children[..m], kids[..m], repr) && Children(children[m..], kids[m..], repr)
  {
    hide Spells;
  }

  lemma NoChildren(repr: set<Node>)
    ensures Children([], [], repr)
  {
  }

  // splitChild, on a child that the caller has just cloned
  method SplitChild(parent: Node, i: nat, d: nat, ghost t: Shape, ghost repr: set<Node>) returns (right: Node)
    requires d >= 2 && Holds(parent, t) && !t.leaf && |t.kids| == |t.kvs| + 1 && i <= |t.kvs|
    requires var c := t.kids[i]; |c.kvs| == 2 * d - 1 && (if c.leaf then c.kids == [] else |c.kids| == |c.kvs| + 1)
    requires var left := parent.children[i];
             left != parent && Holds(left, t.kids[i]) && Children(left.children, t.kids[i].kids, repr) && left !in repr
    requires parent !in repr
    modifies parent, parent.children[i]
    ensures fresh(right) && right !in repr
    ensures Holds(parent, SplitShape(t, i, d - 1))
    ensures parent.children
            == old(parent.children[..i]) + [old(parent.children[i]), right] + old(parent.children[i + 1..])
    ensures var left := old(parent.children[i]);
            Holds(left, HalfLeft(t.kids[i], d - 1)) && Children(left.children, HalfLeft(t.kids[i], d - 1).kids, repr)
    ensures Holds(right, HalfRight(t.kids[i], d - 1))
            && Children(right.children, HalfRight(t.kids[i], d - 1).kids, repr)
  {
    hide Spells, Children;
    var left := parent.children[i];
    var m := d - 1;
    ghost var c := t.kids[i];
    if !c.leaf {
      ChildrenParts(left.children, c.kids, m + 1, repr);
    }
    NoChildren(repr);
    var medianKey, medianValue := left.keys[m], left.values[m];
    right := CutNode(left, m, c);
    parent.keys := InsertAt(parent.keys, i, medianKey);
    parent.values := InsertAt(parent.values, i, medianValue);
    parent.children := InsertAt(parent.children, i + 1, right);
  }

  // Move what is after position `m` to a new node, and drop the pair at `m`.
  method CutNode(left: Node, m: nat, ghost c: Shape) returns (right: Node)
    requires Holds(left, c) && m < |c.kvs| && (if c.leaf then c.kids == [] else |c.kids| == |c.kvs| + 1)
    modifies left
    ensures fresh(right) && Holds(left, HalfLeft(c, m)) && Holds(right, HalfRight(c, m))
    ensures left.children == (if c.leaf then [] else old(left.children)[..m + 1])
    ensures right.children == (if c.leaf then [] else old(left.children)[m + 1..])
  {
    right := new Node(left.leaf, left.keys[m + 1..], left.values[m + 1..], []);
    left.keys, left.values := left.keys[..m], left.values[..m];
    if !left.leaf {
      right.children := left.children[m + 1..];
      left.children := left.children[..m + 1];
    }
  }

  // ---- Fill ----

  lemma HalfProper(t: Shape, h: nat, d: nat)
    requires d >= 2 && Proper(t, h, d - 1, d) && |t.kvs| == 2 * d - 1
    ensures Proper(HalfLeft(t, d - 1), h, d - 1, d) && Proper(HalfRight(t, d - 1), h, d - 1, d)
  {
  }

  lemma SplitProper(t: Shape, i: nat, h: nat, least: nat, d: nat)
    requires d >= 2 && Proper(t, h, least, d) && !t.leaf && i < |t.kids| && |t.kvs| < 2 * d - 1
    requires |t.kids| == |t.kvs| + 1 && |t.kids[i].kvs| == 2 * d - 1
             && (!t.kids[i].leaf ==> |t.kids[i].kids| == |t.kids[i].kvs| + 1)
    ensures Proper(SplitShape(t, i, d - 1), h, least, d)
  {
    hide HalfLeft, HalfRight;
    HalfProper(t.kids[i], h - 1, d);
    var kids' := SplitShape(t, i, d - 1).kids;
    forall j | 0 <= j < |kids'| ensures Proper(kids'[j], h - 1, d - 1, d) {
      assert kids'[j] == if j < i then t.kids[j] else if j == i then HalfLeft(t.kids[i], d - 1)
                         else if j == i + 1 then HalfRight(t.kids[i], d - 1) else t.kids[j - 1];
    }
  }

  lemma ReplacedProper(t: Shape, i: nat, c: Shape, h: nat, least: nat, d: nat)
    requires Proper(t, h, least, d) && !t.leaf && i < |t.kids| && Proper(c, h - 1, d - 1, d)
    ensures Proper(t.(kids := t.kids[i := c]), h, least, d)
  {
  }

  lemma ReplacePairProper(t: Shape, i: nat, kv: KV, h: nat, least: nat, d: nat)
    requires Proper(t, h, least, d) && i < |t.kvs|
    ensures Proper(t.(kvs := t.kvs[i := kv]), h, least, d)
  {
  }

  lemma InsertPairProper(t: Shape, i: nat, kv: KV, h: nat, least: nat, d: nat)
    requires Proper(t, h, least, d) && i <= |t.kvs| < 2 * d - 1 && t.leaf
    ensures Proper(t.(kvs := InsertAt(t.kvs, i, kv)), h, least, d)
  {
  }

  lemma ProperMeans(t: Shape, h: nat, least: nat, d: nat)
    requires Proper(t, h, least, d)
    ensures if t.leaf then t.kids == [] else h > 0 && |t.kids| == |t.kvs| + 1
    ensures !t.leaf ==> forall i :: 0 <= i < |t.kids| ==> Proper(t.kids[i], h - 1, d - 1, d)
    ensures |t.kvs| < 2 * d
  {
  }

  lemma HoldsKeys(n: Node, t: Shape)
    requires Holds(n, t)
    ensures n.keys == Keys(t.kvs)
  {
  }

  // The pairs around the slot where an absent key belongs.
  lemma SlotBounds(o: Order, t: Shape, key: Key)
    requires SortedKeys(o, Keys(t.kvs)) && !Has(o, Keys(t.kvs), key)
    ensures var i := LowerBound(o, Keys(t.kvs), key);
            && (i > 0 ==> Lt(o, t.kvs[i - 1].key, key))
            && (i < |t.kvs| ==> Lt(o, key, t.kvs[i].key))
  {
    var i := LowerBound(o, Keys(t.kvs), key);
    assert i > 0 ==> Lt(o, Keys(t.kvs)[i - 1], key);
    if i < |t.kvs| {
      Trichotomy(o, key, Keys(t.kvs)[i]);
    }
  }

  // insertNonFull. The node is the caller's own copy; nothing else that exists is written.
  method InsertNonFull(o: Order, n: Node, key: Key, value: Bytes, d: nat, ghost t: Shape, ghost h: nat,
          ghost least: nat, ghost repr: set<Node>)
    returns (previous: Option<Bytes>, ghost t': Shape, ghost repr': set<Node>)
    requires d >= 2 && Holds(n, t) && Children(n.children, t.kids, repr) && n !in repr
    // A full node is never entered.
    requires Proper(t, h, least, d) && |t.kvs| < 2 * d - 1
    requires Sorted(o, InOrder(t))
    modifies n
    ensures Holds(n, t') && Children(n.children, t'.kids, repr') && n !in repr'
    ensures repr <= repr' && fresh(repr' - repr)
    ensures Proper(t', h, least, d)
    ensures InOrder(t') == Upsert(o, InOrder(t), key, value) && previous == Lookup(o, InOrder(t), key)
    decreases h, 9
  {
    hide InOrder, LeftOf, RightOf, SortedKeys, Upsert, Lookup, LowerBound, Has, Lt, Children, Proper;
    ProperMeans(t, h, least, d);
    OwnKeysSorted(o, t);
    t', repr' := t, repr;
    HoldsKeys(n, t);
    var index, found := SearchSlot(o, n.keys, key);
    HasPosition(o, n.keys, key);
    if found {
      previous := Some(n.values[index]);
      UpdatedPair(o, t, index, key, value);
      t' := t.(kvs := t.kvs[index := KV(key, value)]);
      ReplacePairProper(t, index, KV(key, value), h, least, d);
      n.values := n.values[index := value];
      return;
    }
    if n.leaf {
      previous := None;
      UpdatedLeaf(o, t, key, value);
      t' := t.(kvs := InsertAt(t.kvs, index, KV(key, value)));
      InsertPairProper(t, index, KV(key, value), h, least, d);
      n.keys := InsertAt(n.keys, index, key);
      n.values := InsertAt(n.values, index, value);
      return;
    }
    SlotBounds(o, t, key);
    previous, t', repr' := InsertInto(o, n, key, value, index, d, t, h, least, repr);
  }

  // The child the key belongs below is cloned, split if it is full, and entered.
  method InsertInto(o: Order, n: Node, key: Key, value: Bytes, index: nat, d: nat, ghost t: Shape, ghost h: nat,
          ghost least: nat, ghost repr: set<Node>)
    returns (previous: Option<Bytes>, ghost t': Shape, ghost repr': set<Node>)
    requires d >= 2 && Holds(n, t) && Children(n.children, t.kids, repr) && n !in repr
    requires Proper(t, h, least, d) && |t.kvs| < 2 * d - 1 && !t.leaf && index <= |t.kvs|
    requires Sorted(o, InOrder(t))
    requires index > 0 ==> Lt(o, t.kvs[index - 1].key, key)
    requires index < |t.kvs| ==> Lt(o, key, t.kvs[index].key)
    modifies n
    ensures Holds(n, t') && Children(n.children, t'.kids, repr') && n !in repr'
    ensures repr <= repr' && fresh(repr' - repr)
    ensures Proper(t', h, least, d)
    ensures InOrder(t') == Upsert(o, InOrder(t), key, value) && previous == Lookup(o, InOrder(t), key)
    decreases h, 3
  {
    hide InOrder, LeftOf, RightOf, SortedKeys, Upsert, Lookup, Lt, Proper, Children, Siblings;
    ProperMeans(t, h, least, d);
    ProperMeans(t.kids[index], h - 1, d - 1, d);
    ChildSpells(n.children, t.kids, index, repr);
    var child := n.children[index].Clone();
    CloneSiblings(n.children, t.kids, index, child, repr);
    n.children := n.children[index := child];
    if |child.keys| == 2 * d - 1 {
      previous, t', repr' := SplitThenInsert(o, n, key, value, index, d, t, h, least, repr);
    } else {
      previous, t', repr' := Descend(o, n, key, value, index, d, t, h, least, repr);
    }
  }

  lemma ChildSpells(children: seq<Node>, kids: seq<Shape>, i: nat, repr: set<Node>)
    requires Children(children, kids, repr) && i < |kids|
    ensures |children| == |kids| && children[i] in repr
    ensures Holds(children[i], kids[i]) && Children(children[i].children, kids[i].kids, repr)
  {
    assert Spells(children[i], kids[i], repr);
  }

  lemma CloneSiblings(children: seq<Node>, kids: seq<Shape>, i: nat, child: Node, repr: set<Node>)
    requires Children(children, kids, repr) && i < |kids| == |children|
    ensures Siblings(children[i := child], kids, i, repr)
  {
    hide Spells;
  }

  // Enter the child at `index`, which is a fresh copy with room for one more pair.
  method Descend(o: Order, n: Node, key: Key, value: Bytes, index: nat, d: nat, ghost t: Shape, ghost h: nat,
          ghost least: nat, ghost repr: set<Node>)
    returns (previous: Option<Bytes>, ghost t': Shape, ghost repr': set<Node>)
    requires d >= 2 && Holds(n, t) && n !in repr
    requires Proper(t, h, least, d) && !t.leaf && index <= |t.kvs| && Sorted(o, InOrder(t)) && |t.kids| == |t.kvs| + 1
             && h > 0
    requires index > 0 ==> Lt(o, t.kvs[index - 1].key, key)
    requires index < |t.kvs| ==> Lt(o, key, t.kvs[index].key)
    requires Siblings(n.children, t.kids, index, repr)
    requires var child := n.children[index];
             && child != n && child !in repr && Holds(child, t.kids[index])
             && Children(child.children, t.kids[index].kids, repr)
             && |t.kids[index].kvs| < 2 * d - 1
    modifies n.children[index]
    ensures Holds(n, t') && Children(n.children, t'.kids, repr') && n !in repr'
    ensures repr + {n.children[index]} <= repr' && fresh(repr' - repr - {n.children[index]})
    ensures Proper(t', h, least, d)
    ensures InOrder(t') == Upsert(o, InOrder(t), key, value) && previous == Lookup(o, InOrder(t), key)
    decreases h, 0
  {
    hide InOrder, LeftOf, RightOf, SortedKeys, Upsert, Lookup, Lt, Proper, Children, Siblings;
    ProperMeans(t, h, least, d);
    ChildBetween(o, t, index, key);
    var child := n.children[index];
    ghost var c;
    previous, c, repr' := InsertNonFull(o, child, key, value, d, t.kids[index], h - 1, d - 1, repr);
    UpdatedChild(o, t, index, c, key, value);
    ReplacedProper(t, index, c, h, least, d);
    t' := t.(kids := t.kids[index := c]);
    SiblingsMore(n.children, t.kids, index, repr, repr' + {child});
    ChildrenMore(child.children, c.kids, repr', repr' + {child});
    repr' := repr' + {child};
    ChildBack(n.children, t.kids, index, c, repr');
  }

  // Split the full copy first; the promoted pair may be the key itself.
  method SplitThenInsert(o: Order, n: Node, key: Key, value: Bytes, i: nat, d: nat, ghost t: Shape, ghost h: nat,
          ghost least: nat, ghost repr: set<Node>)
    returns (previous: Option<Bytes>, ghost t': Shape, ghost repr': set<Node>)
    requires d >= 2 && Holds(n, t) && n !in repr
    requires Proper(t, h, least, d) && |t.kvs| < 2 * d - 1 && !t.leaf && i <= |t.kvs| && Sorted(o, InOrder(t))
             && |t.kids| == |t.kvs| + 1 && h > 0
    requires i > 0 ==> Lt(o, t.kvs[i - 1].key, key)
    requires i < |t.kvs| ==> Lt(o, key, t.kvs[i].key)
    requires Siblings(n.children, t.kids, i, repr)
    requires var child := n.children[i];
             && child != n && child !in repr && Holds(child, t.kids[i])
             && Children(child.children, t.kids[i].kids, repr)
             && |t.kids[i].kvs| == 2 * d - 1
    modifies n, n.children[i]
    ensures Holds(n, t') && Children(n.children, t'.kids, repr') && n !in repr'
    ensures repr + {old(n.children[i])} <= repr' && fresh(repr' - repr - {old(n.children[i])})
    ensures Proper(t', h, least, d)
    ensures InOrder(t') == Upsert(o, InOrder(t), key, value) && previous == Lookup(o, InOrder(t), key)
    decreases h, 2
  {
    hide InOrder, LeftOf, RightOf, SortedKeys, Upsert, Lookup, Lt, Proper, Children, Siblings, HalfLeft, HalfRight,
      SplitShape, Holds;
    ProperMeans(t, h, least, d);
    ProperMeans(t.kids[i], h - 1, d - 1, d);
    SiblingCount(n.children, t.kids, i, repr);
    var left := n.children[i];
    ghost var before := n.children;
    var right := SplitChild(n, i, d, t, repr);
    ghost var s := SplitShape(t, i, d - 1);
    SplitKeepsOrder(t, i, d - 1);
    SplitProper(t, i, h, least, d);
    SplitSides(s, t, i, d);
    SplitSiblings(n.children, before, t, i, d, left, right, repr);
    assert n.children[i] == left && n.children[i + 1] == right;
    previous, t', repr' := ChooseHalf(o, n, key, value, i, d, s, h, least, repr);
  }

  lemma SiblingCount(children: seq<Node>, kids: seq<Shape>, i: nat, repr: set<Node>)
    requires Siblings(children, kids, i, repr)
    ensures |children| == |kids|
  {
  }

  // Compare with the promoted key, and go left, right, or no further.
  method ChooseHalf(o: Order, n: Node, key: Key, value: Bytes, i: nat, d: nat, ghost s: Shape, ghost h: nat,
          ghost least: nat, ghost repr: set<Node>)
    returns (previous: Option<Bytes>, ghost s': Shape, ghost repr': set<Node>)
    requires d >= 2 && Holds(n, s) && n !in repr
    requires Proper(s, h, least, d) && !s.leaf && i < |s.kvs| && Sorted(o, InOrder(s)) && |s.kids| == |s.kvs| + 1
             && h > 0
    requires i > 0 ==> Lt(o, s.kvs[i - 1].key, key)
    requires i + 1 < |s.kvs| ==> Lt(o, key, s.kvs[i + 1].key)
    requires |s.kids[i].kvs| == d - 1 && |s.kids[i + 1].kvs| == d - 1
    requires |n.children| == |s.kids|
    requires var left, right := n.children[i], n.children[i + 1];
             && left != n && right != n && left != right && left !in repr && right !in repr
             && Holds(left, s.kids[i]) && Holds(right, s.kids[i + 1])
             && Siblings(n.children, s.kids, i, repr + {right}) && Siblings(n.children, s.kids, i + 1, repr + {left})
             && Children(n.children, s.kids, repr + {left, right})
             && Children(left.children, s.kids[i].kids, repr + {right})
             && Children(right.children, s.kids[i + 1].kids, repr + {left})
    modifies n, n.children[i], n.children[i + 1]
    ensures Holds(n, s') && Children(n.children, s'.kids, repr') && n !in repr'
    ensures repr + {old(n.children[i]), old(n.children[i + 1])} <= repr'
    ensures fresh(repr' - repr - {old(n.children[i]), old(n.children[i + 1])})
    ensures Proper(s', h, least, d)
    ensures InOrder(s') == Upsert(o, InOrder(s), key, value) && previous == Lookup(o, InOrder(s), key)
    decreases h, 1
  {
    hide InOrder, LeftOf, RightOf, SortedKeys, Upsert, Lookup, Lt, Proper, Children, Siblings;
    var left, right := n.children[i], n.children[i + 1];
    var cmp := o.compare(key, n.keys[i]);
    LtMeans(o, key, n.keys[i]);
    if cmp == 0 {
      previous := Some(n.values[i]);
      n.values := n.values[i := value];
      UpdatedPair(o, s, i, key, value);
      ReplacePairProper(s, i, KV(key, value), h, least, d);
      s' := s.(kvs := s.kvs[i := KV(key, value)]);
      repr' := repr + {left, right};
    } else if cmp > 0 {
      previous, s', repr' := Descend(o, n, key, value, i + 1, d, s, h, least, repr + {left});
    } else {
      previous, s', repr' := Descend(o, n, key, value, i, d, s, h, least, repr + {right});
    }
  }

  // The halves of the split child in the parent.
  lemma SplitSides(s: Shape, t: Shape, i: nat, d: nat)
    requires d >= 2 && !t.leaf && |t.kids| == |t.kvs| + 1 && i <= |t.kvs| && |t.kids[i].kvs| == 2 * d - 1
    requires !t.kids[i].leaf ==> |t.kids[i].kids| == |t.kids[i].kvs| + 1
    requires s == SplitShape(t, i, d - 1)
    ensures !s.leaf && |s.kvs| == |t.kvs| + 1 && |s.kids| == |t.kids| + 1
    ensures s.kids[i] == HalfLeft(t.kids[i], d - 1) && s.kids[i + 1] == HalfRight(t.kids[i], d - 1)
    ensures |s.kids[i].kvs| == d - 1 && |s.kids[i + 1].kvs| == d - 1
    ensures forall j :: 0 <= j < |s.kids| && j != i && j != i + 1 ==> s.kids[j] == t.kids[if j < i then j else j - 1]
    ensures i > 0 ==> s.kvs[i - 1] == t.kvs[i - 1]
    ensures i < |t.kvs| ==> s.kvs[i + 1] == t.kvs[i]
  {
  }

  lemma SplitSiblings(children: seq<Node>, before: seq<Node>, t: Shape, i: nat, d: nat, left: Node, right: Node,
          repr: set<Node>)
    requires d >= 2 && !t.leaf && |t.kids| == |t.kvs| + 1 && i <= |t.kvs| && |t.kids[i].kvs| == 2 * d - 1
    requires !t.kids[i].leaf ==> |t.kids[i].kids| == |t.kids[i].kvs| + 1
    requires Siblings(before, t.kids, i, repr) && children == before[..i] + [left, right] + before[i + 1..]
    requires Holds(left, HalfLeft(t.kids[i], d - 1)) && Children(left.children, HalfLeft(t.kids[i], d - 1).kids, repr)
    requires Holds(right, HalfRight(t.kids[i], d - 1))
             && Children(right.children, HalfRight(t.kids[i], d - 1).kids, repr)
    ensures var s := SplitShape(t, i, d - 1);
            && Siblings(children, s.kids, i, repr + {right}) && Siblings(children, s.kids, i + 1, repr + {left})
            && Children(children, s.kids, repr + {left, right})
            && Children(left.children, s.kids[i].kids, repr + {right})
            && Children(right.children, s.kids[i + 1].kids, repr + {left})
  {
    hide HalfLeft, HalfRight;
    var s := SplitShape(t, i, d - 1);
    SplitSides(s, t, i, d);
    forall extra: set<Node> | extra == {left} || extra == {right} || extra == {left, right}
      ensures forall j ::
                0 <= j < |s.kids| && j != i && j != i + 1 ==>
                  children[j] in repr + extra && Spells(children[j], s.kids[j], repr + extra)
      ensures Children(left.children, s.kids[i].kids, repr + extra)
              && Children(right.children, s.kids[i + 1].kids, repr + extra)
    {
      SiblingsMore(before, t.kids, i, repr, repr + extra);
      ChildrenMore(left.children, s.kids[i].kids, repr, repr + extra);
      ChildrenMore(right.children, s.kids[i + 1].kids, repr, repr + extra);
      forall j | 0 <= j < |s.kids| && j != i && j != i + 1
        ensures children[j] in repr + extra && Spells(children[j], s.kids[j], repr + extra)
      {
        assert children[j] == before[if j < i then j else j - 1];
      }
    }
  }

  // ---- Reading ----

  // searchNode
  method SearchNode(o: Order, root: Node?, key: Key, ghost shape: Option<Shape>, ghost h: nat, ghost d: nat,
          ghost repr: set<Node>)
    returns (value: Option<Bytes>)
    requires Roots(root, shape, h, d, repr) && Sorted(o, Held(shape))
    ensures value == Lookup(o, Held(shape), key)
  {
    hide InOrder, LeftOf, RightOf, SortedKeys, Lookup, LowerBound, Has, Lt, Children, Proper;
    value := None;
    if root == null {
      NothingFound(o, key);
      return;
    }
    var n: Node := root;
    ghost var t, k: nat, least: nat := shape.value, h, 1;
    while true
      invariant n in repr && Spells(n, t, repr) && Proper(t, k, least, d) && Sorted(o, InOrder(t))
      invariant Lookup(o, InOrder(t), key) == Lookup(o, Held(shape), key)
      decreases k
    {
      ProperMeans(t, k, least, d);
      OwnKeysSorted(o, t);
      HoldsKeys(n, t);
      var index, found := SearchSlot(o, n.keys, key);
      HasPosition(o, n.keys, key);
      if found {
        UpdatedPair(o, t, index, key, []);
        return Some(n.values[index]);
      }
      if n.leaf {
        UpdatedLeaf(o, t, key, []);
        return None;
      }
      SlotBounds(o, t, key);
      ChildBetween(o, t, index, key);
      Around(t, index);
      UpdateBetween(o, LeftOf(t.kids, t.kvs, index), InOrder(t.kids[index]), RightOf(t.kids, t.kvs, index), key, []);
      ChildSpells(n.children, t.kids, index, repr);
      n := n.children[index];
      t, k, least := t.kids[index], k - 1, d - 1;
    }
  }

  // rangeNode
  method RangeNode(n: Node, visit: Visitor, seen: seq<KV>, ghost t: Shape, ghost h: nat, ghost least: nat, ghost d: nat,
          ghost repr: set<Node>)
    returns (seen': seq<KV>, more: bool)
    requires n in repr && Spells(n, t, repr) && Proper(t, h, least, d)
    ensures (seen', more) == Visit(visit, seen, InOrder(t))
    decreases h
  {
    hide InOrder, LeftOf, Children, Proper, Visit;
    ProperMeans(t, h, least, d);
    seen' := seen;
    RangeStart(t, visit, seen);
    for i := 0 to |n.keys|
      invariant Visit(visit, seen, UpTo(t, i)) == (seen', true)
    {
      RangeStep(t, i, visit, seen, seen');
      if !n.leaf {
        ChildSpells(n.children, t.kids, i, repr);
        seen', more := RangeNode(n.children[i], visit, seen', t.kids[i], h - 1, d - 1, d, repr);
        if !more {
          return;
        }
      }
      var kv := KV(n.keys[i], n.values[i]);
      VisitOne(visit, seen', kv);
      seen' := seen' + [kv];
      if !visit(seen') {
        return seen', false;
      }
    }
    RangeEnd(t, visit, seen, seen');
    if !n.leaf {
      ChildSpells(n.children, t.kids, |n.keys|, repr);
      seen', more := RangeNode(n.children[|n.keys|], visit, seen', t.kids[|t.kvs|], h - 1, d - 1, d, repr);
      return;
    }
    return seen', true;
  }

  // What a node shows before child `i`, or before its own pair `i` if it is a leaf.
  ghost function UpTo(t: Shape, i: nat): seq<KV>
    requires i <= |t.kvs| && (t.leaf || |t.kids| == |t.kvs| + 1)
  {
    if t.leaf then t.kvs[..i] else LeftOf(t.kids, t.kvs, i)
  }

  lemma RangeStart(t: Shape, visit: Visitor, seen: seq<KV>)
    requires t.leaf || |t.kids| == |t.kvs| + 1
    ensures Visit(visit, seen, UpTo(t, 0)) == (seen, true)
  {
  }

  // The rest of a node after `i` steps; if a read stops on the way there it stops for good.
  lemma RangeStep(t: Shape, i: nat, visit: Visitor, seen: seq<KV>, seen': seq<KV>)
    requires i < |t.kvs| && (t.leaf || |t.kids| == |t.kvs| + 1)
    requires Visit(visit, seen, UpTo(t, i)) == (seen', true)
    ensures !t.leaf ==>
              var r := Visit(visit, seen', InOrder(t.kids[i]));
              && (!r.1 ==> Visit(visit, seen, InOrder(t)) == r)
              && (r.1 ==>
                    var q := Visit(visit, r.0, [t.kvs[i]]);
                    && Visit(visit, seen, UpTo(t, i + 1)) == q && (!q.1 ==> Visit(visit, seen, InOrder(t)) == q))
    ensures t.leaf ==>
              var q := Visit(visit, seen', [t.kvs[i]]);
              && Visit(visit, seen, UpTo(t, i + 1)) == q && (!q.1 ==> Visit(visit, seen, InOrder(t)) == q)
  {
    hide InOrder, LeftOf, RightOf, Visit;
    if t.leaf {
      InOrderOfLeaf(t);
      assert t.kvs[..i + 1] == t.kvs[..i] + [t.kvs[i]];
      assert t.kvs == t.kvs[..i + 1] + t.kvs[i + 1..];
      VisitConcat(visit, seen, t.kvs[..i], [t.kvs[i]]);
      VisitConcat(visit, seen, t.kvs[..i + 1], t.kvs[i + 1..]);
    } else {
      PairInside(t, i);
      LeftStep(t.kids, t.kvs, i);
      var l, m, r := LeftOf(t.kids, t.kvs, i), InOrder(t.kids[i]),
        InOrder(t.kids[i + 1]) + RightOf(t.kids, t.kvs, i + 1);
      VisitConcat(visit, seen, l, m);
      VisitConcat(visit, seen, l + m, [t.kvs[i]]);
      VisitConcat(visit, seen, l + m + [t.kvs[i]], r);
    }
  }

  lemma LeftStep(kids: seq<Shape>, kvs: seq<KV>, i: nat)
    requires i < |kvs| && i < |kids|
    ensures LeftOf(kids, kvs, i + 1) == LeftOf(kids, kvs, i) + InOrder(kids[i]) + [kvs[i]]
  {
  }

  lemma VisitOne(visit: Visitor, seen: seq<KV>, kv: KV)
    ensures Visit(visit, seen, [kv]) == (seen + [kv], visit(seen + [kv]))
  {
    assert [kv][1..] == [];
  }

  lemma RangeEnd(t: Shape, visit: Visitor, seen: seq<KV>, seen': seq<KV>)
    requires t.leaf || |t.kids| == |t.kvs| + 1
    requires Visit(visit, seen, UpTo(t, |t.kvs|)) == (seen', true)
    ensures t.leaf ==> Visit(visit, seen, InOrder(t)) == (seen', true)
    ensures !t.leaf ==> Visit(visit, seen, InOrder(t)) == Visit(visit, seen', InOrder(t.kids[|t.kvs|]))
  {
    hide LeftOf, RightOf, Visit;
    if t.leaf {
      assert t.kvs[..|t.kvs|] == t.kvs;
    } else {
      VisitConcat(visit, seen, LeftOf(t.kids, t.kvs, |t.kvs|), InOrder(t.kids[|t.kvs|]));
    }
  }

  // ---- The tree ----

  ghost function Held(shape: Option<Shape>): seq<KV> {
    if shape.Some? then InOrder(shape.value) else []
  }

  // `root` is the root of a proper tree of this shape, all of it in `repr`.
  ghost predicate Roots(root: Node?, shape: Option<Shape>, h: nat, d: nat, repr: set<Node>)
    reads repr
  {
    && d >= 2
    && (root == null <==> shape.None?)
    && (root != null ==> root in repr && Spells(root, shape.value, repr) && Proper(shape.value, h, 1, d))
  }

  lemma RootsMore(root: Node?, shape: Option<Shape>, h: nat, d: nat, repr: set<Node>, repr': set<Node>)
    requires Roots(root, shape, h, d, repr) && repr <= repr'
    ensures Roots(root, shape, h, d, repr')
  {
    if root != null {
      SpellsMore(root, shape.value, repr, repr');
    }
  }

  datatype Snapshot = Snapshot(root: Node?, length: nat, revision: nat, degree: nat)

  class Tree {
    const order: Order
    const degree: nat
    var root: Node?
    var length: nat
    var revision: nat

    ghost var shape: Option<Shape>
    ghost var height: nat
    ghost var repr: set<Node>

    constructor (order: Order, degree: nat)
      ensures this.order == order && this.degree == (if degree < 2 then 2 else degree)
      ensures Valid() && shape == None && revision == 0 && repr == {}
    {
      this.order, this.degree := order, if degree < 2 then 2 else degree;
      root, length, revision := null, 0, 0;
      shape, height, repr := None, 0, {};
    }

    ghost predicate Valid()
      reads this, repr
    {
      && Roots(root, shape, height, degree, repr)
      && Sorted(order, Held(shape))
      && length == |Held(shape)|
    }

    // Set writes this object and nodes that did not exist before, and nothing else.
    method Set(key: Key, value: Bytes) returns (previous: Option<Bytes>)
      requires Valid()
      modifies this
      ensures Valid() && old(repr) <= repr && fresh(repr - old(repr))
      ensures previous == Lookup(order, old(Held(shape)), key)
      ensures Held(shape) == Upsert(order, old(Held(shape)), key, value)
      ensures MapOf(Held(shape)) == old(MapOf(Held(shape)))[key := value]
      ensures revision == old(revision) + 1
    {
      hide InOrder, Proper, Children, SortedKeys, Upsert, Lookup, MapOf, Spells, Holds, Roots;
      RootsMean(root, shape, height, degree, repr);
      UpsertSorted(order, Held(shape), key, value);
      UpsertIsMapUpdate(order, Held(shape), key, value);
      ChangedLength(order, Held(shape), key, value);
      revision := revision + 1;
      if root == null {
        root, shape := NewLeaf(order, key, value, degree);
        length, height, repr := 1, 0, repr + {root};
        RootsMore(root, shape, 0, degree, {root}, repr);
        return None;
      }
      var newRoot;
      ghost var t, h, nodes;
      newRoot, t, h, nodes := RoomyRoot();
      previous, shape, repr := Insert(newRoot, key, value, t, h, nodes);
      root, height := newRoot, h;
      if previous.None? {
        length := length + 1;
      }
    }

    // Insert below the new root, and account for the root itself.
    method Insert(newRoot: Node, key: Key, value: Bytes, ghost t: Shape, ghost h: nat, ghost nodes: set<Node>)
      returns (previous: Option<Bytes>, ghost shape': Option<Shape>, ghost repr': set<Node>)
      requires degree >= 2 && Holds(newRoot, t) && Children(newRoot.children, t.kids, nodes) && newRoot !in nodes
      requires Proper(t, h, 1, degree) && |t.kvs| < 2 * degree - 1 && Sorted(order, InOrder(t))
      modifies newRoot
      ensures nodes + {newRoot} <= repr' && fresh(repr' - nodes - {newRoot})
      ensures Roots(newRoot, shape', h, degree, repr')
      ensures Held(shape') == Upsert(order, InOrder(t), key, value) && previous == Lookup(order, InOrder(t), key)
    {
      hide InOrder, Proper, Children, SortedKeys, Upsert, Lookup;
      ghost var t';
      previous, t', repr' := InsertNonFull(order, newRoot, key, value, degree, t, h, 1, nodes);
      ChildrenMore(newRoot.children, t'.kids, repr', repr' + {newRoot});
      repr' := repr' + {newRoot};
      shape' := Some(t');
    }

    // A copy of the root, under a new root if it is full.
    method RoomyRoot() returns (newRoot: Node, ghost t: Shape, ghost h: nat, ghost nodes: set<Node>)
      requires Valid() && root != null
      ensures fresh(newRoot) && newRoot !in nodes && repr <= nodes && fresh(nodes - repr)
      ensures Holds(newRoot, t) && Children(newRoot.children, t.kids, nodes)
      ensures Proper(t, h, 1, degree) && |t.kvs| < 2 * degree - 1
      ensures InOrder(t) == Held(shape)
    {
      hide InOrder, Proper, Children, SortedKeys, HalfLeft, HalfRight;
      var copied := root.Clone();
      t, h, nodes := shape.value, height, repr;
      ProperMeans(t, h, 1, degree);
      newRoot := copied;
      if |copied.keys| == 2 * degree - 1 {
        newRoot := new Node(false, [], [], [copied]);
        ghost var s := Shape(false, [], [t]);
        GrownShape(s, h, degree);
        var right := SplitChild(newRoot, 0, degree, s, repr);
        SplitKeepsOrder(s, 0, degree - 1);
        GrownSiblings(newRoot.children, s, degree, copied, right, repr);
        t, h, nodes := SplitShape(s, 0, degree - 1), h + 1, repr + {copied, right};
      }
    }
  }

  lemma RootsMean(root: Node?, shape: Option<Shape>, h: nat, d: nat, repr: set<Node>)
    requires Roots(root, shape, h, d, repr)
    ensures d >= 2 && (root == null <==> shape.None?)
  {
  }

  // newLeaf
  method NewLeaf(o: Order, key: Key, value: Bytes, d: nat) returns (root: Node?, ghost shape: Option<Shape>)
    requires d >= 2
    ensures root != null && fresh(root) && Roots(root, shape, 0, d, {root})
    ensures Held(shape) == Upsert(o, [], key, value) && Lookup(o, [], key) == None
    ensures |Held(shape)| == 1
  {
    var leaf := new Node(true, [key], [value], []);
    FirstNode(o, key, value, d);
    NoChildren({leaf});
    root, shape := leaf, Some(Shape(true, [KV(key, value)], []));
  }

  lemma FirstNode(o: Order, key: Key, value: Bytes, d: nat)
    requires d >= 2
    ensures var t := Shape(true, [KV(key, value)], []); Proper(t, 0, 1, d) && InOrder(t) == Upsert(o, [], key, value)
    ensures Lookup(o, [], key) == None
  {
  }

  lemma ChangedLength(o: Order, s: seq<KV>, key: Key, value: Bytes)
    ensures |Upsert(o, s, key, value)| == |s| + if Lookup(o, s, key).None? then 1 else 0
  {
  }

  // A root with the old root as its only child, and what splitting that child makes of it.
  lemma GrownShape(s: Shape, h: nat, d: nat)
    requires d >= 2 && !s.leaf && s.kvs == [] && |s.kids| == 1 && Proper(s.kids[0], h, 1, d)
             && |s.kids[0].kvs| == 2 * d - 1
    ensures InOrder(s) == InOrder(s.kids[0])
    ensures if s.kids[0].leaf then s.kids[0].kids == [] else |s.kids[0].kids| == |s.kids[0].kvs| + 1
    ensures Proper(SplitShape(s, 0, d - 1), h + 1, 1, d) && |SplitShape(s, 0, d - 1).kvs| == 1
  {
    assert Proper(s.kids[0], h, d - 1, d);
    assert Proper(s, h + 1, 0, d);
    SplitProper(s, 0, h + 1, 0, d);
  }

  lemma GrownSiblings(children: seq<Node>, s: Shape, d: nat, left: Node, right: Node, repr: set<Node>)
    requires d >= 2 && !s.leaf && s.kvs == [] && |s.kids| == 1 && |s.kids[0].kvs| == 2 * d - 1
    requires if s.kids[0].leaf then s.kids[0].kids == [] else |s.kids[0].kids| == |s.kids[0].kvs| + 1
    requires children == [left, right]
    requires Holds(left, HalfLeft(s.kids[0], d - 1)) && Children(left.children, HalfLeft(s.kids[0], d - 1).kids, repr)
    requires Holds(right, HalfRight(s.kids[0], d - 1))
             && Children(right.children, HalfRight(s.kids[0], d - 1).kids, repr)
    ensures Children(children, SplitShape(s, 0, d - 1).kids, repr + {left, right})
  {
    hide HalfLeft, HalfRight;
    assert [left][..0] + [left, right] + [left][1..] == children;
    SplitSiblings(children, [left], s, 0, d, left, right, repr);
  }

  // ---- Snapshots ----

  // A snapshot shows a tree of this shape.
  ghost predicate Shows(s: Snapshot, o: Order, shape: Option<Shape>, h: nat, repr: set<Node>)
    reads repr
  {
    && Roots(s.root, shape, h, s.degree, repr) && Sorted(o, Held(shape)) && s.length == |Held(shape)|
  }

  method Capture(t: Tree) returns (s: Snapshot)
    requires t.Valid()
    ensures s.revision == t.revision && Shows(s, t.order, t.shape, t.height, t.repr)
  {
    s := Snapshot(t.root, t.length, t.revision, t.degree);
  }

  // Snapshot.Get
  method GetAt(s: Snapshot, o: Order, key: Key, ghost shape: Option<Shape>, ghost h: nat, ghost repr: set<Node>)
    returns (value: Option<Bytes>)
    requires Shows(s, o, shape, h, repr)
    ensures value == Lookup(o, Held(shape), key)
  {
    value := SearchNode(o, s.root, key, shape, h, s.degree, repr);
  }

  // Snapshot.Range
  method RangeAt(s: Snapshot, o: Order, visit: Visitor, ghost shape: Option<Shape>, ghost h: nat, ghost repr: set<Node>)
    returns (seen: seq<KV>)
    requires Shows(s, o, shape, h, repr)
    ensures seen == Visit(visit, [], Held(shape)).0
  {
    seen := [];
    if s.root != null {
      var more;
      seen, more := RangeNode(s.root, visit, [], shape.value, h, 1, s.degree, repr);
    }
  }

  // The contents after some pairs have been put, in order.
  function Puts(o: Order, s: seq<KV>, pairs: seq<KV>): seq<KV> {
    if pairs == [] then s
      else Upsert(o, Puts(o, s, pairs[..|pairs| - 1]), pairs[|pairs| - 1].key, pairs[|pairs| - 1].value)
  }

  // What a run leaves: the i-th snapshot shows the tree after i updates.
  ghost predicate History(o: Order, start: seq<KV>, pairs: seq<KV>, snapshots: seq<Snapshot>,
          shapes: seq<Option<Shape>>, heights: seq<nat>, repr: set<Node>)
    reads repr
  {
    && |snapshots| == |shapes| == |heights| <= |pairs| + 1
    && forall i :: 0 <= i < |snapshots| ==>
         Shows(snapshots[i], o, shapes[i], heights[i], repr) && Held(shapes[i]) == Puts(o, start, pairs[..i])
  }

  // Persistence over every run of updates: with a snapshot taken before the first update
  // and after each one, in the end every snapshot still shows what it showed when taken.
  method RunUpdates(t: Tree, pairs: seq<KV>)
    returns (snapshots: seq<Snapshot>, ghost shapes: seq<Option<Shape>>, ghost heights: seq<nat>)
    requires t.Valid()
    modifies t
    ensures t.Valid() && |snapshots| == |pairs| + 1
    ensures History(t.order, old(Held(t.shape)), pairs, snapshots, shapes, heights, t.repr)
    ensures t.revision == old(t.revision) + |pairs|
  {
    hide Roots, InOrder, SortedKeys, Upsert, History, Shows, Puts, MapOf, Lookup;
    ghost var o, start := t.order, Held(t.shape);
    var first := Capture(t);
    snapshots, shapes, heights := [first], [t.shape], [t.height];
    HistoryStart(o, start, pairs, first, t.shape, t.height, t.repr);
    for i := 0 to |pairs|
      invariant t.Valid() && |snapshots| == i + 1 && t.revision == old(t.revision) + i
      invariant old(t.repr) <= t.repr && fresh(t.repr - old(t.repr))
      invariant Held(t.shape) == Puts(o, start, pairs[..i])
      invariant History(o, start, pairs, snapshots, shapes, heights, t.repr)
    {
      ghost var nodes := t.repr;
      var _ := t.Set(pairs[i].key, pairs[i].value);
      PutsNext(o, start, pairs, i);
      var s := Capture(t);
      HistoryMore(o, start, pairs, snapshots, shapes, heights, nodes, t.repr);
      HistoryAppend(o, start, pairs, snapshots, shapes, heights, s, t.shape, t.height, t.repr);
      snapshots, shapes, heights := snapshots + [s], shapes + [t.shape], heights + [t.height];
    }
  }

  lemma PutsNext(o: Order, start: seq<KV>, pairs: seq<KV>, i: nat)
    requires i < |pairs|
    ensures Puts(o, start, pairs[..i + 1]) == Upsert(o, Puts(o, start, pairs[..i]), pairs[i].key, pairs[i].value)
  {
    assert pairs[..i + 1][..i] == pairs[..i];
  }

  lemma HistoryStart(o: Order, start: seq<KV>, pairs: seq<KV>, s: Snapshot, shape: Option<Shape>, h: nat,
          repr: set<Node>)
    requires Shows(s, o, shape, h, repr) && Held(shape) == start
    ensures History(o, start, pairs, [s], [shape], [h], repr) && Puts(o, start, pairs[..0]) == start
  {
    hide Roots;
  }

  lemma HistoryAppend(o: Order, start: seq<KV>, pairs: seq<KV>, snapshots: seq<Snapshot>, shapes: seq<Option<Shape>>,
          heights: seq<nat>, s: Snapshot, shape: Option<Shape>, h: nat, repr: set<Node>)
    requires History(o, start, pairs, snapshots, shapes, heights, repr) && |snapshots| <= |pairs|
    requires Shows(s, o, shape, h, repr) && Held(shape) == Puts(o, start, pairs[..|snapshots|])
    ensures History(o, start, pairs, snapshots + [s], shapes + [shape], heights + [h], repr)
  {
    hide Roots, Puts, Shows;
  }

  lemma HistoryMore(o: Order, start: seq<KV>, pairs: seq<KV>, snapshots: seq<Snapshot>, shapes: seq<Option<Shape>>,
          heights: seq<nat>, repr: set<Node>, repr': set<Node>)
    requires History(o, start, pairs, snapshots, shapes, heights, repr) && repr <= repr'
    ensures History(o, start, pairs, snapshots, shapes, heights, repr')
  {
    hide Roots, Puts;
    forall i | 0 <= i < |snapshots| ensures Shows(snapshots[i], o, shapes[i], heights[i], repr') {
      assert Shows(snapshots[i], o, shapes[i], heights[i], repr);
      RootsMore(snapshots[i].root, shapes[i], heights[i], snapshots[i].degree, repr, repr');
    }
  }
}
