// The tree that a set of pages spells out.

module Nodes {
  import opened KeyOrder
  import opened Contents
  import opened Pages

  // A key/value pair of a leaf; `chain` names the overflow pages that hold the
  // value, and is empty when the value is inline.
  datatype Slot = Slot(kv: KV, chain: seq<PageId>)

  datatype Node =
    | Leaf(id: PageId, slots: seq<Slot>)
    | Branch(id: PageId, kids: seq<Node>)
  {
    // The number of keys of a leaf, of children of a branch.
    function Count(): nat {
      match this
      case Leaf(_, slots) => |slots|
      case Branch(_, kids) => |kids|
    }
  }

  // ---- What a node holds ----

  function CellOf(s: Slot): Cell {
    if s.chain == [] then Inline(s.kv.value) else Ref(s.chain[0], |s.kv.value|)
  }

  function EntryOf(s: Slot): Entry {
    Entry(s.kv.key, CellOf(s))
  }

  function EntriesOf(slots: seq<Slot>): (r: seq<Entry>)
    ensures |r| == |slots|
  {
    seq(|slots|, i requires 0 <= i < |slots| => EntryOf(slots[i]))
  }

  function PairsOf(slots: seq<Slot>): (r: seq<KV>)
    ensures |r| == |slots|
  {
    seq(|slots|, i requires 0 <= i < |slots| => slots[i].kv)
  }

  // The pairs of a tree from left to right.
  function Flat(n: Node): seq<KV>
    decreases n, 1
  {
    match n
    case Leaf(_, slots) => PairsOf(slots)
    case Branch(_, kids) => FlatAll(kids)
  }

  function FlatAll(kids: seq<Node>): seq<KV>
    decreases kids, 0
  {
    if kids == [] then [] else Flat(kids[0]) + FlatAll(kids[1..])
  }

  function ChainIds(slots: seq<Slot>): multiset<PageId> {
    if slots == [] then multiset{} else multiset(slots[0].chain) + ChainIds(slots[1..])
  }

  // The pages of a tree, overflow pages included.
  function Ids(n: Node): multiset<PageId>
    decreases n, 1
  {
    match n
    case Leaf(id, slots) => multiset{id} + ChainIds(slots)
    case Branch(id, kids) => multiset{id} + IdsAll(kids)
  }

  function IdsAll(kids: seq<Node>): multiset<PageId>
    decreases kids, 0
  {
    if kids == [] then multiset{} else Ids(kids[0]) + IdsAll(kids[1..])
  }

  // The leaf ids of a tree from left to right.
  function LeafIds(n: Node): seq<PageId>
    decreases n, 1
  {
    match n
    case Leaf(id, _) => [id]
    case Branch(_, kids) => LeafIdsAll(kids)
  }

  function LeafIdsAll(kids: seq<Node>): seq<PageId>
    decreases kids, 0
  {
    if kids == [] then [] else LeafIds(kids[0]) + LeafIdsAll(kids[1..])
  }

  function FirstKey(n: Node): Key
    decreases n
  {
    match n
    case Leaf(_, slots) => if slots == [] then [] else slots[0].kv.key
    case Branch(_, kids) => if kids == [] then [] else FirstKey(kids[0])
  }

  // The separators of a branch: the first key of each child but the leftmost.
  function Separators(kids: seq<Node>): (r: seq<Key>)
    ensures |r| == if kids == [] then 0 else |kids| - 1
  {
    seq(if kids == [] then 0 else |kids| - 1, i requires 0 <= i < |kids| - 1 => FirstKey(kids[i + 1]))
  }

  function RootIds(kids: seq<Node>): (r: seq<PageId>)
    ensures |r| == |kids|
  {
    seq(|kids|, i requires 0 <= i < |kids| => kids[i].id)
  }

  // ---- Pages that spell out a node ----

  // `chain` is a linked list of overflow pages holding `bytes`.
  ghost predicate ChainRep(pages: PageMap, chain: seq<PageId>, bytes: Bytes)
    decreases |chain|
  {
    if chain == [] then bytes == []
    else
      && chain[0] != 0
      && chain[0] in pages
      && pages[chain[0]].OverflowPage?
      && pages[chain[0]].follow == (if |chain| == 1 then 0 else chain[1])
      && pages[chain[0]].payload <= bytes && |pages[chain[0]].payload| <= OVERFLOW_PAYLOAD_SIZE
      && ChainRep(pages, chain[1..], bytes[|pages[chain[0]].payload|..])
  }

  // A value is inline if it is small enough; only a value that is not empty has a chain.
  ghost predicate SlotRep(pages: PageMap, s: Slot) {
    if s.chain == [] then !StoresOverflow(s.kv.key, s.kv.value)
    else s.kv.value != [] && ChainRep(pages, s.chain, s.kv.value)
  }

  ghost predicate SlotsRep(pages: PageMap, slots: seq<Slot>) {
    forall i :: 0 <= i < |slots| ==> SlotRep(pages, slots[i])
  }

  // The page `n.id` and the pages below it spell out `n`; in particular the
  // separators of every branch are the first keys of its children.
  ghost predicate Rep(pages: PageMap, n: Node) {
    && n.id in pages
    && match n
       case Leaf(id, slots) =>
         && pages[id].LeafPage?
         && pages[id].entries == EntriesOf(slots)
         && LeafBytes(pages[id].entries) <= PAGE_SIZE
         && SlotsRep(pages, slots)
       case Branch(id, kids) =>
         && kids != []
         && pages[id] == BranchPage(Separators(kids), RootIds(kids))
         && BranchBytes(Separators(kids)) <= PAGE_SIZE
         && (forall i :: 0 <= i < |kids| ==> Rep(pages, kids[i]))
  }

  ghost predicate RepAll(pages: PageMap, kids: seq<Node>) {
    forall i :: 0 <= i < |kids| ==> Rep(pages, kids[i])
  }

  // ---- What a reader needs of the pages ----

  ghost predicate ValueRep(pages: PageMap, s: Slot) {
    s.chain != [] ==> ChainRep(pages, s.chain, s.kv.value)
  }

  ghost predicate ValuesRep(pages: PageMap, slots: seq<Slot>) {
    forall i :: 0 <= i < |slots| ==> ValueRep(pages, slots[i])
  }

  // The pages spell out `n`, whatever was or was not moved to overflow pages.
  ghost predicate Models(pages: PageMap, n: Node)
    decreases n
  {
    && n.id in pages
    && match n
       case Leaf(id, slots) =>
         && pages[id].LeafPage?
         && pages[id].entries == EntriesOf(slots)
         && ValuesRep(pages, slots)
       case Branch(id, kids) =>
         && kids != []
         && pages[id] == BranchPage(Separators(kids), RootIds(kids))
         && (forall i :: 0 <= i < |kids| ==> Models(pages, kids[i]))
  }

  lemma {:induction false} RepModels(pages: PageMap, n: Node)
    requires Rep(pages, n)
    ensures Models(pages, n)
    decreases n
  {
    hide Separators, RootIds;
    if n.Branch? {
      forall i | 0 <= i < |n.kids| ensures Models(pages, n.kids[i]) {
        RepModels(pages, n.kids[i]);
      }
    } else {
      forall i | 0 <= i < |n.slots| ensures ValueRep(pages, n.slots[i]) {
        assert SlotRep(pages, n.slots[i]);
      }
    }
  }

  // No leaf is empty.
  ghost predicate Solid(n: Node)
    decreases n
  {
    match n
    case Leaf(_, slots) => slots != []
    case Branch(_, kids) => kids != [] && (forall i :: 0 <= i < |kids| ==> Solid(kids[i]))
  }

  ghost predicate AllSolid(kids: seq<Node>) {
    forall i :: 0 <= i < |kids| ==> Solid(kids[i])
  }

  lemma {:induction false} SolidIsNonempty(n: Node)
    requires Solid(n)
    ensures Flat(n) != [] && FirstKey(n) == Flat(n)[0].key
    decreases n
  {
    if n.Branch? {
      SolidIsNonempty(n.kids[0]);
    }
  }

  lemma AllSolidNonempty(kids: seq<Node>)
    requires AllSolid(kids) && kids != []
    ensures FlatAll(kids) != [] && FirstKey(kids[0]) == FlatAll(kids)[0].key
  {
    SolidIsNonempty(kids[0]);
  }

  // ---- Shape ----

  // The least counts of pages below the top. For `lo` at least one these are `lo` keys in a
  // leaf and d children in a branch; for zero one of either, which is all that is kept
  // when keys are too long for the pages.
  function LeafMin(lo: nat): nat {
    if lo == 0 then 1 else lo
  }

  function KidMin(lo: nat, d: nat): nat {
    if lo == 0 then 1 else d
  }

  // Uniform depth `h` and page counts: at most 2d-1 keys everywhere, below the top node at
  // least these.
  ghost predicate Balanced(n: Node, h: nat, lo: nat, d: nat)
    decreases n
  {
    match n
    case Leaf(_, slots) => h == 0 && |slots| < 2 * d
    case Branch(_, kids) => h > 0 && |kids| <= 2 * d && (forall i :: 0 <= i < |kids| ==> Full(kids[i], h - 1, lo, d))
  }

  // A balanced node that also has the minimum count itself.
  ghost predicate Full(n: Node, h: nat, lo: nat, d: nat)
    decreases n
  {
    match n
    case Leaf(_, slots) => h == 0 && LeafMin(lo) <= |slots| < 2 * d
    case Branch(_, kids) =>
      && h > 0 && KidMin(lo, d) <= |kids| <= 2 * d
      && (forall i :: 0 <= i < |kids| ==> Full(kids[i], h - 1, lo, d))
  }

  ghost predicate AllFull(kids: seq<Node>, h: nat, lo: nat, d: nat) {
    forall i :: 0 <= i < |kids| ==> Full(kids[i], h, lo, d)
  }

  // A root has at least one key, or two children.
  ghost predicate RootBalanced(n: Node, h: nat, lo: nat, d: nat) {
    Balanced(n, h, lo, d) && n.Count() >= (if n.Leaf? then 1 else 2)
  }

  lemma OfBranch(id: PageId, kids: seq<Node>)
    ensures Flat(Branch(id, kids)) == FlatAll(kids) && Ids(Branch(id, kids)) == multiset{id} + IdsAll(kids)
    ensures LeafIds(Branch(id, kids)) == LeafIdsAll(kids)
    ensures kids != [] ==> FirstKey(Branch(id, kids)) == FirstKey(kids[0])
  {
  }

  // ---- Concatenation ----

  lemma {:induction false} ConcatAll(a: seq<Node>, b: seq<Node>)
    ensures FlatAll(a + b) == FlatAll(a) + FlatAll(b)
    ensures IdsAll(a + b) == IdsAll(a) + IdsAll(b)
    ensures LeafIdsAll(a + b) == LeafIdsAll(a) + LeafIdsAll(b)
  {
    hide Flat, Ids, LeafIds;
    if a == [] {
      assert a + b == b;
    } else {
      assert (a + b)[0] == a[0] && (a + b)[1..] == a[1..] + b;
      ConcatAll(a[1..], b);
    }
  }

  lemma One(n: Node)
    ensures FlatAll([n]) == Flat(n) && IdsAll([n]) == Ids(n) && LeafIdsAll([n]) == LeafIds(n)
  {
    assert [n][1..] == [];
  }

  // A list of children around the one at `i`.
  lemma Around(kids: seq<Node>, i: nat)
    requires i < |kids|
    ensures FlatAll(kids) == FlatAll(kids[..i]) + Flat(kids[i]) + FlatAll(kids[i + 1..])
    ensures IdsAll(kids) == IdsAll(kids[..i]) + Ids(kids[i]) + IdsAll(kids[i + 1..])
    ensures LeafIdsAll(kids) == LeafIdsAll(kids[..i]) + LeafIds(kids[i]) + LeafIdsAll(kids[i + 1..])
  {
    hide FlatAll, IdsAll, LeafIdsAll;
    var left, rest := kids[..i], kids[i..];
    assert kids == left + rest;
    ConcatAll(left, rest);
    FirstOfAll(rest);
    assert rest[0] == kids[i] && rest[1..] == kids[i + 1..];
    assert FlatAll(left) + (Flat(kids[i]) + FlatAll(kids[i + 1..]))
           == FlatAll(left) + Flat(kids[i]) + FlatAll(kids[i + 1..]);
    assert LeafIdsAll(left) + (LeafIds(kids[i]) + LeafIdsAll(kids[i + 1..]))
        == LeafIdsAll(left) + LeafIds(kids[i]) + LeafIdsAll(kids[i + 1..]);
  }

  lemma FirstOfAll(kids: seq<Node>)
    requires kids != []
    ensures FlatAll(kids) == Flat(kids[0]) + FlatAll(kids[1..])
    ensures IdsAll(kids) == Ids(kids[0]) + IdsAll(kids[1..])
    ensures LeafIdsAll(kids) == LeafIds(kids[0]) + LeafIdsAll(kids[1..])
  {
  }

  lemma {:induction false} ChainIdsConcat(a: seq<Slot>, b: seq<Slot>)
    ensures ChainIds(a + b) == ChainIds(a) + ChainIds(b)
  {
    if a == [] {
      assert a + b == b;
    } else {
      assert (a + b)[0] == a[0] && (a + b)[1..] == a[1..] + b;
      ChainIdsConcat(a[1..], b);
    }
  }

  lemma ChainIdsOne(s: Slot)
    ensures ChainIds([s]) == multiset(s.chain)
  {
    assert [s][1..] == [];
  }

  lemma ChainIdsAround(slots: seq<Slot>, i: nat)
    requires i < |slots|
    ensures ChainIds(slots) == ChainIds(slots[..i]) + multiset(slots[i].chain) + ChainIds(slots[i + 1..])
  {
    assert slots == slots[..i] + slots[i..];
    ChainIdsConcat(slots[..i], slots[i..]);
    assert slots[i..][1..] == slots[i + 1..];
  }

  // ---- The pages of a node are enough ----

  lemma {:induction false} ChainRepSame(p: PageMap, q: PageMap, chain: seq<PageId>, bytes: Bytes)
    requires ChainRep(p, chain, bytes) && SameData(p, q, multiset(chain))
    ensures ChainRep(q, chain, bytes)
    decreases |chain|
  {
    if chain != [] {
      assert chain == [chain[0]] + chain[1..];
      assert chain[0] in multiset(chain);
      ChainRepSame(p, q, chain[1..], bytes[|p[chain[0]].payload|..]);
    }
  }

  lemma SlotsRepSame(p: PageMap, q: PageMap, slots: seq<Slot>)
    requires SlotsRep(p, slots) && SameData(p, q, ChainIds(slots))
    ensures SlotsRep(q, slots)
  {
    forall i | 0 <= i < |slots| ensures SlotRep(q, slots[i]) {
      ChainIdsAround(slots, i);
      if slots[i].chain != [] {
        ChainRepSame(p, q, slots[i].chain, slots[i].kv.value);
      }
    }
  }

  lemma {:induction false} RepSame(p: PageMap, q: PageMap, n: Node)
    requires Rep(p, n) && SameData(p, q, Ids(n))
    ensures Rep(q, n)
    decreases n
  {
    hide SlotsRep, FlatAll, LeafIdsAll, ChainIds, IdsAll, Separators, RootIds, BranchBytes;
    assert n.id in Ids(n);
    match n
    case Leaf(_, slots) =>
      SlotsRepSame(p, q, slots);
    case Branch(_, kids) =>
      forall i | 0 <= i < |kids| ensures Rep(q, kids[i]) {
        Around(kids, i);
        RepSame(p, q, kids[i]);
      }
  }

  lemma RepAllSame(p: PageMap, q: PageMap, kids: seq<Node>)
    requires RepAll(p, kids) && SameData(p, q, IdsAll(kids))
    ensures RepAll(q, kids)
  {
    hide Rep, Flat, FlatAll, Ids, IdsAll, LeafIds, LeafIdsAll;
    forall i | 0 <= i < |kids| ensures Rep(q, kids[i]) {
      Around(kids, i);
      RepSame(p, q, kids[i]);
    }
  }

  // ---- First keys ----

  lemma {:induction false} FullIsNonempty(n: Node, h: nat, lo: nat, d: nat)
    requires Full(n, h, lo, d) && d >= 1
    ensures Flat(n) != [] && FirstKey(n) == Flat(n)[0].key
    decreases n
  {
    if n.Branch? {
      FullIsNonempty(n.kids[0], h - 1, lo, d);
    }
  }

  lemma {:induction false} FullIsSolid(n: Node, h: nat, lo: nat, d: nat)
    requires Full(n, h, lo, d) && d >= 1
    ensures Solid(n)
    decreases n
  {
    if n.Branch? {
      forall i | 0 <= i < |n.kids| ensures Solid(n.kids[i]) {
        FullIsSolid(n.kids[i], h - 1, lo, d);
      }
    }
  }

  lemma AllFullIsSolid(kids: seq<Node>, h: nat, lo: nat, d: nat)
    requires AllFull(kids, h, lo, d) && d >= 1
    ensures AllSolid(kids)
  {
    forall i | 0 <= i < |kids| ensures Solid(kids[i]) {
      FullIsSolid(kids[i], h, lo, d);
    }
  }

  lemma BalancedIsSolid(n: Node, h: nat, lo: nat, d: nat)
    requires Balanced(n, h, lo, d) && n.Count() >= 1 && d >= 1
    ensures Solid(n)
  {
    if n.Branch? {
      AllFullIsSolid(n.kids, h - 1, lo, d);
    }
  }

  lemma AllFullNonempty(kids: seq<Node>, h: nat, lo: nat, d: nat)
    requires AllFull(kids, h, lo, d) && d >= 1 && kids != []
    ensures FlatAll(kids) != [] && FirstKey(kids[0]) == FlatAll(kids)[0].key
  {
    FullIsNonempty(kids[0], h, lo, d);
  }

  // ---- The same node under another page id ----

  function WithId(n: Node, id: PageId): (r: Node)
    ensures r.id == id && r.Count() == n.Count() && r.Leaf? == n.Leaf?
  {
    match n
    case Leaf(_, slots) => Leaf(id, slots)
    case Branch(_, kids) => Branch(id, kids)
  }

  // The pages of a node below its own page.
  function Below(n: Node): multiset<PageId> {
    match n
    case Leaf(_, slots) => ChainIds(slots)
    case Branch(_, kids) => IdsAll(kids)
  }

  lemma IdsBelow(n: Node)
    ensures Ids(n) == Below(n) + multiset{n.id}
  {
  }

  lemma WithIdSame(n: Node, id: PageId)
    ensures Flat(WithId(n, id)) == Flat(n) && FirstKey(WithId(n, id)) == FirstKey(n)
    ensures Below(WithId(n, id)) == Below(n)
    ensures forall h, lo, d {:trigger Full(WithId(n, id), h, lo, d)} ::
              Full(WithId(n, id), h, lo, d) <==> Full(n, h, lo, d)
    ensures forall h, lo, d {:trigger Balanced(WithId(n, id), h, lo, d)} ::
              Balanced(WithId(n, id), h, lo, d) <==> Balanced(n, h, lo, d)
  {
  }

  // A copy of a node's page spells out the same node.
  lemma RepOfCopy(p: PageMap, n: Node, id: PageId)
    requires Rep(p, n) && SameData(p, p[id := p[n.id]], Below(n))
    ensures Rep(p[id := p[n.id]], WithId(n, id))
  {
    hide SlotsRep;
    var q := p[id := p[n.id]];
    match n
    case Leaf(_, slots) =>
      SlotsRepSame(p, q, slots);
    case Branch(_, kids) =>
      RepAllSame(p, q, kids);
  }

  // ---- Live nodes under a frame ----

  // A staged step keeps every live node whose pages it does not own.
  lemma KeepRep(first: PageId, s: Store, t: Store, own: set<PageId>, revision: nat, n: Node, others: multiset<PageId>)
    requires Rep(s.pages, n)
    requires Owns(first, s, others + Ids(n)) && Frame(s, t, own, revision)
    requires forall x :: x in own ==> x in others || Available(s, x)
    ensures Rep(t.pages, n)
  {
    hide Rep, Ids;
    LiveDisjointOwn(first, s, own, others, Ids(n));
    FrameKeepsPart(first, s, t, own, revision, Ids(n), others);
    RepSame(s.pages, t.pages, n);
  }

  lemma KeepAll(first: PageId, s: Store, t: Store, own: set<PageId>, revision: nat, kids: seq<Node>,
          others: multiset<PageId>)
    requires RepAll(s.pages, kids)
    requires Owns(first, s, others + IdsAll(kids)) && Frame(s, t, own, revision)
    requires forall x :: x in own ==> x in others || Available(s, x)
    ensures RepAll(t.pages, kids)
  {
    hide RepAll, IdsAll;
    LiveDisjointOwn(first, s, own, others, IdsAll(kids));
    FrameKeepsPart(first, s, t, own, revision, IdsAll(kids), others);
    RepAllSame(s.pages, t.pages, kids);
  }

  // ---- A full node is a balanced one with enough in it ----

  function MinCount(n: Node, lo: nat, d: nat): nat {
    if n.Leaf? then LeafMin(lo) else KidMin(lo, d)
  }

  lemma FullIffBalanced(n: Node, h: nat, lo: nat, d: nat)
    ensures Full(n, h, lo, d) <==> Balanced(n, h, lo, d) && n.Count() >= MinCount(n, lo, d)
  {
  }

  lemma BalancedNonempty(n: Node, h: nat, lo: nat, d: nat)
    requires Balanced(n, h, lo, d) && n.Count() >= 1 && d >= 1
    ensures Flat(n) != [] && FirstKey(n) == Flat(n)[0].key
  {
    if n.Branch? {
      FullIsNonempty(n.kids[0], h - 1, lo, d);
    }
  }
}
