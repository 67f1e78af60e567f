// What the validator's verdict means (pagebtree/integrity.go).

module Acceptance {
  import opened KeyOrder
  import opened Contents
  import opened Pages
  import opened Nodes
  import opened Trees
  import opened Routing
  import opened Ranges
  import opened LinkedScans
  import opened LeafLinks
  import opened Search
  import opened Invariants
  import opened Updates
  import opened Cursors
  import opened Integrity

  // ---- Soundness: what is accepted is in order ----

  ghost predicate AllWithin(o: Order, s: seq<KV>, lower: Option<Key>, upper: Option<Key>) {
    forall i :: 0 <= i < |s| ==> InRange(o, s[i].key, lower, upper)
  }

  lemma {:induction false} AcceptableSorted(c: Subject, n: Node, lower: Option<Key>, upper: Option<Key>)
    requires Acceptable(c, n, lower, upper)
    ensures Sorted(c.order, Flat(n)) && AllWithin(c.order, Flat(n), lower, upper)
    decreases n, 1, 0
  {
    hide SortedKeys, GoodValue, FlatAll, Separators, RootIds, LeftmostLeaf, Lt;
    if n.Branch? {
      KidsSorted(c, n, n.kids, |n.kids|, lower, upper);
      assert n.kids[..|n.kids|] == n.kids;
    }
  }

  // The first `i` children, taken together.
  lemma {:induction false} KidsSorted(c: Subject, n: Node, kids: seq<Node>, i: nat, lower: Option<Key>,
          upper: Option<Key>)
    requires n.Branch? && kids == n.kids && Acceptable(c, n, lower, upper) && 1 <= i <= |kids|
    ensures Sorted(c.order, FlatAll(kids[..i]))
            && AllWithin(c.order, FlatAll(kids[..i]), lower, UpperOf(Separators(kids), i - 1, upper))
    decreases n, 0, i
  {
    hide SortedKeys, Acceptable, FlatAll, Flat, RootIds, LeftmostLeaf, Lt, AllWithin, IdsAll, LeafIdsAll, FirstKey;
    var keys := Separators(kids);
    var kid := kids[i - 1];
    var lo, hi := LowerOf(keys, i - 1, lower), UpperOf(keys, i - 1, upper);
    KidAccepted(c, n, i - 1, lower, upper);
    AcceptableSorted(c, kid, lo, hi);
    assert kids[..i] == kids[..i - 1] + [kid];
    if i == 1 {
      assert kids[..i] == [kid];
      One(kid);
    } else {
      KidsSorted(c, n, kids, i - 1, lower, upper);
      ConcatAll(kids[..i - 1], [kid]);
      One(kid);
      LowerBelow(c, n, i - 1, lower, upper);
      JoinWithin(c.order, FlatAll(kids[..i - 1]), Flat(kid), lower, keys[i - 2], hi);
    }
  }

  lemma KidAccepted(c: Subject, n: Node, i: nat, lower: Option<Key>, upper: Option<Key>)
    requires n.Branch? && Acceptable(c, n, lower, upper) && i < |n.kids|
    ensures var lo, hi := LowerOf(Separators(n.kids), i, lower), UpperOf(Separators(n.kids), i, upper);
            Acceptable(c, n.kids[i], lo, hi) && RoomBetween(c.order, lo, hi)
  {
    hide SortedKeys, GoodSlots, LeftmostLeaf, RootIds, Flat, FirstKey, Lt, RoomBetween;
  }

  // Every separator is above the lower bound of the branch.
  lemma LowerBelow(c: Subject, n: Node, i: nat, lower: Option<Key>, upper: Option<Key>)
    requires n.Branch? && Acceptable(c, n, lower, upper) && 1 <= i < |n.kids|
    ensures RoomBetween(c.order, lower, Some(Separators(n.kids)[i - 1]))
  {
    hide GoodValue, RootIds, LeftmostLeaf, Lt, Flat, FirstKey;
    var keys := Separators(n.kids);
    assert RoomBetween(c.order, LowerOf(keys, 0, lower), UpperOf(keys, 0, upper));
    if lower.Some? && i > 1 {
      assert Lt(c.order, keys[0], keys[i - 1]);
      Transitive(c.order, lower.value, keys[0], keys[i - 1]);
    }
  }

  // Pairs below a separator, then pairs from it on.
  lemma JoinWithin(o: Order, a: seq<KV>, b: seq<KV>, lower: Option<Key>, mid: Key, upper: Option<Key>)
    requires Sorted(o, a) && Sorted(o, b)
    requires AllWithin(o, a, lower, Some(mid)) && AllWithin(o, b, Some(mid), upper)
    requires RoomBetween(o, lower, Some(mid)) && RoomBetween(o, Some(mid), upper)
    ensures Sorted(o, a + b) && AllWithin(o, a + b, lower, upper)
  {
    hide Lt;
    var s := Keys(a + b);
    forall i, j | 0 <= i < j < |s| ensures Lt(o, s[i], s[j]) {
      if j < |a| {
        assert Lt(o, Keys(a)[i], Keys(a)[j]);
      } else if i >= |a| {
        assert Lt(o, Keys(b)[i - |a|], Keys(b)[j - |a|]);
      } else {
        BelowFrom(o, a[i].key, mid, b[j - |a|].key);
      }
    }
    forall i | 0 <= i < |a + b| ensures InRange(o, (a + b)[i].key, lower, upper) {
      if i < |a| {
        if upper.Some? {
          Transitive(o, a[i].key, mid, upper.value);
        }
      } else {
        if lower.Some? {
          BelowFrom(o, lower.value, mid, b[i - |a|].key);
          Trichotomy(o, lower.value, b[i - |a|].key);
        }
      }
    }
  }

  lemma BelowFrom(o: Order, a: Key, mid: Key, b: Key)
    requires Lt(o, a, mid) && !Lt(o, b, mid)
    ensures Lt(o, a, b)
  {
    Trichotomy(o, b, mid);
    if b != mid {
      Transitive(o, a, mid, b);
    }
  }

  // An accepted tree is empty or can be read: a search finds exactly its keys.
  lemma AcceptedIsReadable(c: Subject, n: Node)
    requires c.degree >= 2 && n.id == c.root && Acceptable(c, n, None, None) && Unseen(Ids(n), {})
    ensures Sorted(c.order, Flat(n))
    ensures Flat(n) == [] || Readable(c.order, c.pages, n)
  {
    hide Unseen, Models, SortedKeys, FlatAll, IdsAll, Ids, GoodValue;
    AcceptableSorted(c, n, None, None);
    AcceptableModels(c, n, None, None);
    if n.Leaf? {
      assert n.slots == [] ==> Flat(n) == [];
    } else {
      RootUnseen(n, {});
      RootBelow(n);
      AcceptedSolid(c, n, None, None);
    }
  }

  lemma RootBelow(n: Node)
    requires n.Branch? && Unseen(Below(n), {} + {n.id})
    ensures n.id !in IdsAll(n.kids)
  {
  }

  // Below the root no leaf is empty.
  lemma {:induction false} AcceptedSolid(c: Subject, n: Node, lower: Option<Key>, upper: Option<Key>)
    requires c.degree >= 2 && n.Branch? && Acceptable(c, n, lower, upper) && c.root !in IdsAll(n.kids)
    ensures Solid(n)
    decreases n
  {
    hide SortedKeys, GoodSlots, FlatAll, Separators, RootIds, LeftmostLeaf, Lt, IdsAll, LeafIdsAll, Flat, RoomBetween;
    forall i | 0 <= i < |n.kids| ensures Solid(n.kids[i]) {
      var kid := n.kids[i];
      Around(n.kids, i);
      IdsBelow(kid);
      assert kid.id in Ids(kid);
      assert Acceptable(c, kid, LowerOf(Separators(n.kids), i, lower), UpperOf(Separators(n.kids), i, upper));
      if kid.Branch? {
        assert forall x :: x in IdsAll(kid.kids) ==> x in Ids(kid);
        AcceptedSolid(c, kid, LowerOf(Separators(n.kids), i, lower), UpperOf(Separators(n.kids), i, upper));
      }
    }
  }

  // ---- Completeness: exactly what is accepted ----

  // The page of this node has at least d-1 keys.
  ghost predicate Enough(n: Node, d: nat) {
    match n
    case Leaf(_, slots) => |slots| + 1 >= d
    case Branch(_, kids) => |kids| >= d
  }

  // Every page below that of `n` has at least d-1 keys.
  ghost predicate FilledBelow(n: Node, d: nat)
    decreases n
  {
    n.Branch? ==> forall i :: 0 <= i < |n.kids| ==> Enough(n.kids[i], d) && FilledBelow(n.kids[i], d)
  }

  // No page of the tree or of a value is page zero or has a wrong checksum.
  ghost predicate Undamaged(c: Subject, n: Node) {
    forall x :: x in Ids(n) ==> x != 0 && x !in c.damaged
  }

  // The validator's verdict without its bounds: the pages spell out a tree in key order whose
  // pages below the root have d-1 keys, and none of them is damaged.
  lemma ValidatorIsExact(c: Subject, n: Node)
    requires c.degree >= 2 && n.id == c.root && Unseen(Ids(n), {})
    ensures Acceptable(c, n, None, None) <==>
            Models(c.pages, n) && Sorted(c.order, Flat(n)) && FilledBelow(n, c.degree) && Undamaged(c, n)
  {
    hide Models, SortedKeys, Flat, Acceptable, Unseen, FilledBelow, Ids;
    if Acceptable(c, n, None, None) {
      AcceptableModels(c, n, None, None);
      AcceptableSorted(c, n, None, None);
      AcceptedUndamaged(c, n, None, None);
      if n.Branch? {
        RootUnseen(n, {});
        RootBelow(n);
      }
      AcceptedIsFilled(c, n, None, None);
    }
    if Models(c.pages, n) && Sorted(c.order, Flat(n)) && FilledBelow(n, c.degree) && Undamaged(c, n) {
      SpelledIsAccepted(c, n, None, None);
    }
  }

  lemma {:induction false} AcceptedUndamaged(c: Subject, n: Node, lower: Option<Key>, upper: Option<Key>)
    requires Acceptable(c, n, lower, upper)
    ensures forall x :: x in Ids(n) ==> x !in c.damaged
    decreases n
  {
    hide SortedKeys, Separators, RootIds, LeftmostLeaf, Lt, Flat, RoomBetween, IdsAll, LeafIdsAll, ChainIds;
    if n.Leaf? {
      forall x | x in ChainIds(n.slots) ensures x !in c.damaged {
        var i := InSomeChain(n.slots, x);
        assert GoodValue(c.pages, c.damaged, n.slots[i]);
      }
    } else {
      forall x | x in IdsAll(n.kids) ensures x !in c.damaged {
        var i := InSomeKid(n.kids, x);
        AcceptedUndamaged(c, n.kids[i], LowerOf(Separators(n.kids), i, lower), UpperOf(Separators(n.kids), i, upper));
      }
    }
  }

  lemma {:induction false} InSomeChain(slots: seq<Slot>, x: PageId) returns (i: nat)
    requires x in ChainIds(slots)
    ensures i < |slots| && x in slots[i].chain
  {
    if x in slots[0].chain {
      i := 0;
    } else {
      i := InSomeChain(slots[1..], x);
      i := i + 1;
    }
  }

  lemma {:induction false} InSomeKid(kids: seq<Node>, x: PageId) returns (i: nat)
    requires x in IdsAll(kids)
    ensures i < |kids| && x in Ids(kids[i])
  {
    if x in Ids(kids[0]) {
      i := 0;
    } else {
      i := InSomeKid(kids[1..], x);
      i := i + 1;
    }
  }

  lemma {:induction false} AcceptedIsFilled(c: Subject, n: Node, lower: Option<Key>, upper: Option<Key>)
    requires Acceptable(c, n, lower, upper) && (n.Branch? ==> c.root !in IdsAll(n.kids))
    ensures FilledBelow(n, c.degree)
    decreases n
  {
    hide SortedKeys, GoodSlots, FlatAll, Separators, RootIds, LeftmostLeaf, Lt, IdsAll, LeafIdsAll, Flat, RoomBetween;
    if n.Branch? {
      forall i | 0 <= i < |n.kids| ensures Enough(n.kids[i], c.degree) && FilledBelow(n.kids[i], c.degree) {
        var kid := n.kids[i];
        Around(n.kids, i);
        IdsBelow(kid);
        assert kid.id in Ids(kid);
        assert Acceptable(c, kid, LowerOf(Separators(n.kids), i, lower), UpperOf(Separators(n.kids), i, upper));
        assert kid.Branch? ==> forall x :: x in IdsAll(kid.kids) ==> x in Ids(kid);
        AcceptedIsFilled(c, kid, LowerOf(Separators(n.kids), i, lower), UpperOf(Separators(n.kids), i, upper));
      }
    }
  }

  lemma {:induction false} SpelledIsAccepted(c: Subject, n: Node, lower: Option<Key>, upper: Option<Key>)
    requires c.degree >= 2 && Models(c.pages, n) && FilledBelow(n, c.degree) && Undamaged(c, n)
    requires n.id == c.root || Enough(n, c.degree)
    requires Sorted(c.order, Flat(n)) && AllWithin(c.order, Flat(n), lower, upper)
    ensures Acceptable(c, n, lower, upper)
    decreases n
  {
    hide SortedKeys, FlatAll, LeafIdsAll, IdsAll, Lt, LeftmostLeaf, RootIds, Acceptable, Separators, GoodSlots, Models,
      Undamaged, FilledBelow, Ids;
    NodeUndamaged(c, n);
    if n.Leaf? {
      SpelledLeaf(c, n, lower, upper);
    } else {
      SpelledBranch(c, n);
      forall i | 0 <= i < |n.kids| ensures GoodKid(c, Separators(n.kids), n.kids[i], i, lower, upper) {
        SpelledKid(c, n, i, lower, upper);
        SpelledIsAccepted(c, n.kids[i], LowerOf(Separators(n.kids), i, lower), UpperOf(Separators(n.kids), i, upper));
      }
      KidsAccepted(c, n.id, n.kids, lower, upper);
    }
  }

  lemma NodeUndamaged(c: Subject, n: Node)
    requires Undamaged(c, n)
    ensures n.id != 0 && n.id !in c.damaged
    ensures n.Leaf? ==> forall i :: 0 <= i < |n.slots| ==> forall x :: x in n.slots[i].chain ==> x !in c.damaged
    ensures n.Branch? ==> forall i :: 0 <= i < |n.kids| ==> Undamaged(c, n.kids[i])
  {
    hide ChainIds, IdsAll;
    assert n.id in Ids(n);
    if n.Leaf? {
      forall i | 0 <= i < |n.slots| ensures forall x :: x in n.slots[i].chain ==> x in ChainIds(n.slots) {
        ChainIdsAround(n.slots, i);
      }
    } else {
      assert forall x :: x in IdsAll(n.kids) ==> x in Ids(n);
      forall i | 0 <= i < |n.kids| ensures Undamaged(c, n.kids[i]) {
        Around(n.kids, i);
        forall x | x in Ids(n.kids[i]) ensures x in Ids(n) {
          assert x in IdsAll(n.kids);
        }
      }
    }
  }

  lemma SpelledLeaf(c: Subject, n: Node, lower: Option<Key>, upper: Option<Key>)
    requires n.Leaf? && n.id != 0 && n.id !in c.damaged && Models(c.pages, n)
    requires forall i :: 0 <= i < |n.slots| ==> forall x :: x in n.slots[i].chain ==> x !in c.damaged
    requires n.id == c.root || Enough(n, c.degree)
    requires Sorted(c.order, Flat(n)) && AllWithin(c.order, Flat(n), lower, upper)
    ensures Acceptable(c, n, lower, upper)
  {
    hide SortedKeys, Lt;
    forall i | 0 <= i < |n.slots|
      ensures InRange(c.order, n.slots[i].kv.key, lower, upper) && GoodValue(c.pages, c.damaged, n.slots[i])
    {
      assert Flat(n)[i] == n.slots[i].kv;
      assert ValueRep(c.pages, n.slots[i]);
    }
  }

  // Pages with keys are not empty.
  lemma {:induction false} FilledIsSolid(c: Subject, n: Node)
    requires c.degree >= 2 && Models(c.pages, n) && FilledBelow(n, c.degree) && Enough(n, c.degree)
    ensures Solid(n)
    decreases n
  {
    hide Separators, RootIds;
    if n.Branch? {
      forall i | 0 <= i < |n.kids| ensures Solid(n.kids[i]) {
        FilledIsSolid(c, n.kids[i]);
      }
    }
  }

  lemma SpelledBranch(c: Subject, n: Node)
    requires n.Branch? && c.degree >= 2 && Models(c.pages, n) && FilledBelow(n, c.degree) && Sorted(c.order, Flat(n))
    ensures n.kids != [] && SolidKids(c.order, n.kids) && SortedKeys(c.order, Separators(n.kids))
    ensures n.id in c.pages && c.pages[n.id] == BranchPage(Separators(n.kids), RootIds(n.kids))
    ensures forall i :: 0 <= i < |n.kids| ==>
              Models(c.pages, n.kids[i]) && FilledBelow(n.kids[i], c.degree) && Enough(n.kids[i], c.degree)
  {
    hide SortedKeys, FlatAll, Lt, Solid, RootIds, Separators;
    forall i | 0 <= i < |n.kids| ensures Solid(n.kids[i]) {
      FilledIsSolid(c, n.kids[i]);
    }
    SeparatorsSorted(c.order, n.kids);
  }

  lemma SpelledKid(c: Subject, n: Node, i: nat, lower: Option<Key>, upper: Option<Key>)
    requires n.Branch? && i < |n.kids| && SolidKids(c.order, n.kids)
    requires Sorted(c.order, Flat(n)) && AllWithin(c.order, Flat(n), lower, upper)
    ensures var kid := n.kids[i];
            var lo, hi := LowerOf(Separators(n.kids), i, lower), UpperOf(Separators(n.kids), i, upper);
            && Sorted(c.order, Flat(kid)) && AllWithin(c.order, Flat(kid), lo, hi) && RoomBetween(c.order, lo, hi)
            && Flat(LeftmostLeaf(kid)) != [] && (i > 0 ==> FirstKey(kid) == Separators(n.kids)[i - 1])
  {
    hide SortedKeys, FlatAll, Lt, Solid, LeftmostLeaf, AllWithin, FirstKey;
    var kids := n.kids;
    RoutedSorted(c.order, kids, i);
    KidWithin(c.order, kids, i, lower, upper);
    SolidLeftmost(kids[i]);
    RoomForKid(c.order, Flat(kids[i]), LowerOf(Separators(kids), i, lower), UpperOf(Separators(kids), i, upper));
  }

  // What updates build is accepted if every page below the root has d-1 keys.
  lemma BuiltIsAcceptable(c: Subject, n: Node, h: nat)
    requires c.degree >= 2 && c.damaged == {} && n.id == c.root
    requires Rep(c.pages, n) && 0 !in Ids(n) && Balanced(n, h, c.degree - 1, c.degree) && Sorted(c.order, Flat(n))
    ensures Acceptable(c, n, None, None)
  {
    hide SortedKeys, Acceptable, Rep, Models, FilledBelow, Balanced, Ids, Flat;
    RepModels(c.pages, n);
    BalancedIsFilled(n, h, c.degree);
    SpelledIsAccepted(c, n, None, None);
  }

  lemma {:induction false} BalancedIsFilled(n: Node, h: nat, d: nat)
    requires d >= 2 && Balanced(n, h, d - 1, d)
    ensures FilledBelow(n, d)
    decreases n
  {
    if n.Branch? {
      forall i | 0 <= i < |n.kids| ensures Enough(n.kids[i], d) && FilledBelow(n.kids[i], d) {
        BalancedIsFilled(n.kids[i], h - 1, d);
      }
    }
  }

  lemma {:induction false} SolidLeftmost(n: Node)
    requires Solid(n)
    ensures Flat(LeftmostLeaf(n)) != [] && Flat(n) != []
    decreases n
  {
    if n.Branch? {
      SolidLeftmost(n.kids[0]);
      SolidIsNonempty(n);
    }
  }

  lemma RoomForKid(o: Order, s: seq<KV>, lower: Option<Key>, upper: Option<Key>)
    requires s != [] && AllWithin(o, s, lower, upper)
    ensures RoomBetween(o, lower, upper)
  {
    if lower.Some? && upper.Some? {
      assert InRange(o, s[0].key, lower, upper);
      Trichotomy(o, s[0].key, lower.value);
      if s[0].key != lower.value {
        Transitive(o, lower.value, s[0].key, upper.value);
      }
    }
  }

  // The pairs of a child lie between the separators around it.
  lemma KidWithin(o: Order, kids: seq<Node>, i: nat, lower: Option<Key>, upper: Option<Key>)
    requires SolidKids(o, kids) && i < |kids| && AllWithin(o, FlatAll(kids), lower, upper)
    ensures AllWithin(o, Flat(kids[i]), LowerOf(Separators(kids), i, lower), UpperOf(Separators(kids), i, upper))
  {
    hide FlatAll, Flat, SortedKeys, Lt, Solid, FirstKey, LeafIdsAll, IdsAll, AllWithin;
    Around(kids, i);
    KidOffset(kids, i);
    if i + 1 < |kids| {
      AllSolidNonempty(kids[i + 1..]);
    }
    MidWithin(o, FlatAll(kids[..i]), Flat(kids[i]), FlatAll(kids[i + 1..]), lower, upper,
              LowerOf(Separators(kids), i, lower), UpperOf(Separators(kids), i, upper));
  }

  lemma MidWithin(o: Order, left: seq<KV>, mid: seq<KV>, right: seq<KV>, lower: Option<Key>, upper: Option<Key>,
          lo: Option<Key>, hi: Option<Key>)
    requires Sorted(o, left + mid + right) && AllWithin(o, left + mid + right, lower, upper) && mid != []
    requires lo == lower || lo == Some(mid[0].key)
    requires hi == upper || (right != [] && hi == Some(right[0].key))
    ensures AllWithin(o, mid, lo, hi)
  {
    hide SortedKeys, Lt;
    SortedParts(o, left + mid, right);
    SortedParts(o, left, mid);
    forall j | 0 <= j < |mid| ensures InRange(o, mid[j].key, lo, hi) {
      assert (left + mid + right)[|left| + j] == mid[j];
      assert (left + mid)[|left| + j] == mid[j];
      SortedFromFirst(o, mid, j);
      NotBelowFirst(o, mid[0].key, mid[j].key);
    }
  }

  lemma NotBelowFirst(o: Order, a: Key, b: Key)
    requires a == b || Lt(o, a, b)
    ensures !Lt(o, b, a)
  {
    Trichotomy(o, a, b);
  }

  // An accepted tree of uniform depth is one whose pages have d-1 keys.
  lemma {:induction false} AcceptedIsFull(c: Subject, n: Node, h: nat, lo: nat, lower: Option<Key>, upper: Option<Key>)
    requires c.degree >= 2 && Acceptable(c, n, lower, upper) && Balanced(n, h, lo, c.degree)
    requires n.Branch? ==> c.root !in IdsAll(n.kids)
    ensures Balanced(n, h, c.degree - 1, c.degree)
    ensures n.id != c.root ==> Full(n, h, c.degree - 1, c.degree)
    decreases n
  {
    hide SortedKeys, GoodSlots, FlatAll, Separators, RootIds, LeftmostLeaf, Lt, IdsAll, LeafIdsAll, Flat, RoomBetween;
    if n.Branch? {
      forall i | 0 <= i < |n.kids| ensures Full(n.kids[i], h - 1, c.degree - 1, c.degree) {
        var kid := n.kids[i];
        Around(n.kids, i);
        IdsBelow(kid);
        assert kid.id in Ids(kid);
        assert Acceptable(c, kid, LowerOf(Separators(n.kids), i, lower), UpperOf(Separators(n.kids), i, upper));
        FullIffBalanced(kid, h - 1, lo, c.degree);
        assert kid.Branch? ==> forall x :: x in IdsAll(kid.kids) ==> x in Ids(kid);
        AcceptedIsFull(c, kid, h - 1, lo, LowerOf(Separators(n.kids), i, lower), UpperOf(Separators(n.kids), i, upper));
      }
    }
  }

  // The tree between calls is accepted if and only if every page below its root has d-1 keys.
  lemma WellFormedIsAccepted(t: Tree, lo: nat)
    requires t.degree >= 2 && WellFormed(t, lo) && t.shape.Some?
    ensures Acceptable(Subject(t.pages, t.root, t.degree, t.order, {}), t.shape.value, None, None)
            <==> HalfFilled(t.degree, t.shape, t.height)
    ensures Unseen(Ids(t.shape.value), {}) && t.root == t.shape.value.id && t.root != 0
  {
    hide Owns, Pinned, Linked, Current, Ids, Rep, Balanced, Flat, Readable, SortedKeys, Acceptable, Unseen;
    SpellsMeans(t.order, t.degree, t.pages, t.root, t.shape.value, t.height, lo);
    LiveUnseen(t.first, t.State(), t.shape.value, t.listPages);
    AcceptedIffFilled(Subject(t.pages, t.root, t.degree, t.order, {}), t.shape.value, t.height, lo);
  }

  // The same for any pages that spell out a balanced tree.
  lemma AcceptedIffFilled(c: Subject, n: Node, h: nat, lo: nat)
    requires c.degree >= 2 && c.damaged == {} && n.id == c.root && Rep(c.pages, n) && Unseen(Ids(n), {}) && 0 !in Ids(n)
    requires Balanced(n, h, lo, c.degree) && n.Count() >= 1 && Sorted(c.order, Flat(n))
    ensures Acceptable(c, n, None, None) <==> Balanced(n, h, c.degree - 1, c.degree)
  {
    hide Ids, Rep, Balanced, Flat, SortedKeys, Acceptable, Unseen;
    if Acceptable(c, n, None, None) {
      if n.Branch? {
        RootUnseen(n, {});
        RootBelow(n);
      }
      AcceptedIsFull(c, n, h, lo, None, None);
    }
    if Balanced(n, h, c.degree - 1, c.degree) {
      BuiltIsAcceptable(c, n, h);
    }
  }

  // ---- Pages spell out at most one tree ----

  lemma {:induction false} ChainUnique(pages: PageMap, a: seq<PageId>, b: seq<PageId>, u: Bytes, v: Bytes)
    requires a != [] && b != [] && a[0] == b[0] && ChainRep(pages, a, u) && ChainRep(pages, b, v)
    ensures a == b && u == v
    decreases |a|
  {
    var payload := pages[a[0]].payload;
    assert u == payload + u[|payload|..] && v == payload + v[|payload|..];
    assert a == [a[0]] + a[1..] && b == [b[0]] + b[1..];
    if |a| > 1 {
      assert ChainRep(pages, a[1..], u[|payload|..]) && a[1] != 0;
      ChainUnique(pages, a[1..], b[1..], u[|payload|..], v[|payload|..]);
    }
  }

  lemma SlotsUnique(pages: PageMap, a: seq<Slot>, b: seq<Slot>)
    requires ValuesRep(pages, a) && ValuesRep(pages, b) && EntriesOf(a) == EntriesOf(b)
    ensures a == b
  {
    hide ChainRep;
    assert |a| == |EntriesOf(a)| == |EntriesOf(b)| == |b|;
    forall i | 0 <= i < |a| ensures a[i] == b[i] {
      assert EntriesOf(a)[i] == EntriesOf(b)[i];
      assert ValueRep(pages, a[i]) && ValueRep(pages, b[i]);
      if a[i].chain != [] && b[i].chain != [] {
        ChainUnique(pages, a[i].chain, b[i].chain, a[i].kv.value, b[i].kv.value);
      }
    }
  }

  // Pages spell out at most one tree with a given root.
  lemma {:induction false} ModelsUnique(pages: PageMap, a: Node, b: Node)
    requires Models(pages, a) && Models(pages, b) && a.id == b.id
    ensures a == b
    decreases a
  {
    hide ValuesRep, EntriesOf, Separators, RootIds;
    if a.Leaf? {
      SlotsUnique(pages, a.slots, b.slots);
    } else {
      SameRoots(a.kids, b.kids);
      forall i | 0 <= i < |a.kids| ensures a.kids[i] == b.kids[i] {
        ModelsUnique(pages, a.kids[i], b.kids[i]);
      }
    }
  }

  lemma SameRoots(a: seq<Node>, b: seq<Node>)
    requires RootIds(a) == RootIds(b)
    ensures |a| == |b| && forall i :: 0 <= i < |a| ==> a[i].id == b[i].id
  {
    assert |a| == |RootIds(a)| == |RootIds(b)| == |b|;
    forall i | 0 <= i < |a| ensures a[i].id == b[i].id {
      assert RootIds(a)[i] == RootIds(b)[i];
    }
  }

  lemma LiveUnseen(first: PageId, s: Store, n: Node, rest: multiset<PageId>)
    requires Owns(first, s, rest + Ids(n))
    ensures Unseen(Ids(n), {}) && 0 !in Ids(n)
  {
    hide Owns, Ids;
    forall x | x in Ids(n) ensures Ids(n)[x] == 1 && x != 0 {
      LiveIsNotAvailable(first, s, rest + Ids(n), x);
    }
  }

  // ---- Counting ----

  // countReachableKeys
  method CountReachableKeys(pages: PageMap, id: PageId, seen: set<PageId>, ghost n: Node)
    returns (count: nat, seen': set<PageId>)
    requires id == n.id && id != 0 && Models(pages, n) && 0 !in Ids(n) && Unseen(Ids(n), seen)
    ensures count == |Flat(n)| && seen' <= seen + IdSet(Ids(n))
    decreases n
  {
    hide ValuesRep, FlatAll, LeafIdsAll, IdsAll, Unseen, IdSet, ChainIds, Ids, Separators;
    count, seen' := 0, seen;
    RootUnseen(n, seen);
    if id in seen {
      return;
    }
    seen' := seen + {id};
    var p := pages[id];
    if p.LeafPage? {
      return |p.entries|, seen';
    }
    KidsFrom(n.kids);
    ghost var below := seen';
    for i := 0 to |p.children|
      invariant count == |FlatAll(n.kids[..i])|
      invariant seen' <= below + IdSet(IdsAll(n.kids[..i]))
    {
      KidUnseen(n.kids, i, below, seen');
      KidNonzeroId(n, i);
      var more;
      ghost var before := seen';
      more, seen' := CountReachableKeys(pages, p.children[i], seen', n.kids[i]);
      CountStep(n.kids, i, below);
      count := count + more;
    }
    assert n.kids[..|n.kids|] == n.kids;
  }

  lemma KidsFrom(kids: seq<Node>)
    ensures FlatAll(kids[..0]) == [] && IdsAll(kids[..0]) == multiset{}
  {
    assert kids[..0] == [];
  }

  lemma KidNonzeroId(n: Node, i: nat)
    requires n.Branch? && i < |n.kids| && 0 !in Ids(n)
    ensures n.kids[i].id != 0 && 0 !in Ids(n.kids[i])
  {
    KidNonzero(n, i);
  }

  lemma KidUnseen(kids: seq<Node>, i: nat, seen: set<PageId>, seen': set<PageId>)
    requires i < |kids| && Unseen(IdsAll(kids), seen) && seen' <= seen + IdSet(IdsAll(kids[..i]))
    ensures Unseen(Ids(kids[i]), seen')
  {
    hide IdsAll, Ids, FlatAll, LeafIdsAll, IdSet;
    Around(kids, i);
    UnseenSum(IdsAll(kids[..i]) + Ids(kids[i]), IdsAll(kids[i + 1..]), seen);
    UnseenSum(IdsAll(kids[..i]), Ids(kids[i]), seen);
  }

  lemma CountStep(kids: seq<Node>, i: nat, seen: set<PageId>)
    requires i < |kids|
    ensures |FlatAll(kids[..i + 1])| == |FlatAll(kids[..i])| + |Flat(kids[i])|
    ensures seen + IdSet(IdsAll(kids[..i + 1])) == seen + IdSet(IdsAll(kids[..i])) + IdSet(Ids(kids[i]))
  {
    hide IdsAll, Ids, FlatAll, Flat, LeafIdsAll;
    assert kids[..i + 1] == kids[..i] + [kids[i]];
    ConcatAll(kids[..i], [kids[i]]);
    One(kids[i]);
    UnseenSum(IdsAll(kids[..i]), Ids(kids[i]), seen);
  }
}
