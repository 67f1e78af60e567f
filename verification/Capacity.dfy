// What a put makes of the pages on its way, told from the tree alone: which of them are
// divided and where, and whether one overflows (pagebtree/insert.go).

module Capacity {
  import opened KeyOrder
  import opened Seqs
  import opened Contents
  import opened Pages
  import opened Nodes
  import opened Splits
  import opened LeafPages
  import opened Routing

  // A page overflows, or the node stays one, or it is divided and hands up a separator.
  datatype Growth = Overfull | Stays | Divides(separator: Key)

  // The first of the cuts d-1, d and d+1 with the least imbalance.
  function LeafCut(d: nat, entries: seq<LeafEntry>): nat
    requires d >= 2 && |entries| >= 2 * d
  {
    var a, b, c := LeafImbalance(entries, d - 1), LeafImbalance(entries, d), LeafImbalance(entries, d + 1);
    if a <= b && a <= c then d - 1 else if b <= c then d else d + 1
  }

  lemma LeafCutIsBest(d: nat, entries: seq<LeafEntry>, cut: nat)
    requires d >= 2 && |entries| >= 2 * d && d - 1 <= cut <= d + 1 && IsBestCut(entries, cut, d - 1, d + 1)
    ensures cut == LeafCut(d, entries)
  {
    hide LeafImbalance;
  }

  // The separator to promote, d-1 or d.
  function BranchCut(d: nat, keys: seq<Key>): nat
    requires d >= 2 && |keys| >= 2 * d
  {
    if BranchImbalance(keys, d - 1) <= BranchImbalance(keys, d) then d - 1 else d
  }

  // A leaf that these entries are written to.
  ghost function LeafGrowth(d: nat, entries: seq<LeafEntry>): Growth
    requires d >= 2
  {
    if |entries| <= MaxKeys(d) then if LeafTakes(entries) then Stays else Overfull
    else
      var cut := LeafCut(d, entries);
      if LeafTakes(entries[..cut]) && LeafTakes(entries[cut..]) then Divides(entries[cut].key) else Overfull
  }

  // A branch with these separators.
  function BranchGrowth(d: nat, keys: seq<Key>): Growth
    requires d >= 2
  {
    if |keys| <= MaxKeys(d) then if BranchBytes(keys) <= PAGE_SIZE then Stays else Overfull
    else
      var cut := BranchCut(d, keys);
      if BranchBytes(keys[..cut]) <= PAGE_SIZE && BranchBytes(keys[cut + 1..]) <= PAGE_SIZE then Divides(keys[cut])
      else Overfull
  }

  // A leaf is divided exactly if it would hold more than 2d-1 pairs, a branch exactly if it would
  // have more than 2d-1 keys, unless a page overflows.
  lemma GrowthMeans(d: nat, entries: seq<LeafEntry>, keys: seq<Key>)
    requires d >= 2
    ensures LeafGrowth(d, entries).Divides? ==> |entries| >= 2 * d
    ensures LeafGrowth(d, entries).Stays? ==> |entries| <= 2 * d - 1
    ensures BranchGrowth(d, keys).Divides? ==> |keys| >= 2 * d
    ensures BranchGrowth(d, keys).Stays? ==> |keys| <= 2 * d - 1 && BranchBytes(keys) <= 4096
  {
    hide LeafTakes, LeafCut, BranchCut;
  }

  // Dividing at the first best separator.
  lemma BranchDivides(d: nat, keys: seq<Key>, cut: nat)
    requires d >= 2 && |keys| == 2 * d && d - 1 <= cut <= d
    requires forall i :: d - 1 <= i <= d ==> BranchImbalance(keys, cut) <= BranchImbalance(keys, i)
    requires forall i :: d - 1 <= i < cut ==> BranchImbalance(keys, cut) < BranchImbalance(keys, i)
    ensures BranchGrowth(d, keys)
            == if BranchBytes(keys[..cut]) <= PAGE_SIZE && BranchBytes(keys[cut + 1..]) <= PAGE_SIZE
               then Divides(keys[cut]) else Overfull
  {
    hide BranchImbalance, BranchBytes;
    assert BranchImbalance(keys, cut) <= BranchImbalance(keys, d);
  }

  // The entries of a leaf with the pair put in.
  function WithPair(o: Order, slots: seq<Slot>, key: Key, value: Bytes): seq<LeafEntry> {
    var entries, keys := Loaded(EntriesOf(slots)), Keys(PairsOf(slots));
    var i, e := LowerBound(o, keys, key), LeafEntry(key, Raw(value));
    if Has(o, keys, key) then entries[i := e] else InsertAt(entries, i, e)
  }

  // A branch on the way gets another separator only where a child was divided.
  ghost function PutGrowth(o: Order, d: nat, n: Node, key: Key, value: Bytes): Growth
    requires d >= 2
    decreases n
  {
    match n
    case Leaf(_, slots) => LeafGrowth(d, WithPair(o, slots, key, value))
    case Branch(_, kids) =>
      var keys := Separators(kids);
      var i := ChildFor(o, keys, key);
      if i >= |kids| then Overfull
      else
        match PutGrowth(o, d, kids[i], key, value)
        case Divides(separator) => BranchGrowth(d, InsertAt(keys, i, separator))
        case same => same
  }

  // Every page that a put writes in memory takes what is written to it. A new root has room
  // for one separator, whatever it is.
  ghost predicate Takes(o: Order, d: nat, shape: Option<Node>, key: Key, value: Bytes) {
    match shape
    case None => LeafTakes([LeafEntry(key, Raw(value))])
    case Some(n) => d >= 2 && !PutGrowth(o, d, n, key, value).Overfull?
  }

  lemma GrowthWithId(o: Order, d: nat, n: Node, id: PageId, key: Key, value: Bytes)
    requires d >= 2
    ensures PutGrowth(o, d, WithId(n, id), key, value) == PutGrowth(o, d, n, key, value)
  {
    hide LeafGrowth, BranchGrowth, WithPair, Separators, ChildFor;
  }

  // A branch grows as the child that the key is routed to says.
  lemma BranchGrows(o: Order, d: nat, n: Node, index: nat, key: Key, value: Bytes, child: Growth)
    requires d >= 2 && n.Branch? && n.kids != [] && index == ChildFor(o, Separators(n.kids), key)
    requires PutGrowth(o, d, n.kids[index], key, value) == child
    ensures PutGrowth(o, d, n, key, value)
            == if child.Divides? then BranchGrowth(d, InsertAt(Separators(n.kids), index, child.separator)) else child
  {
    hide LeafGrowth, BranchGrowth, WithPair, ChildFor;
  }
}
