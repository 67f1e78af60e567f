// Where an overfull page is cut (pagebtree/insert.go).

module Splits {
  import opened KeyOrder
  import opened Pages

  // A leaf entry in memory: a value still to be encoded, or a cell read back from a page.
  datatype Body = Raw(value: Bytes) | Encoded(cell: Cell)

  datatype LeafEntry = LeafEntry(key: Key, body: Body)

  // leafEntryCellBytes
  function HeldBytes(e: LeafEntry): nat {
    SLOT_SIZE + |e.key| + match e.body case Raw(value) => |value| case Encoded(cell) => CellSize(cell)
  }

  function Weight(entries: seq<LeafEntry>): nat {
    if entries == [] then 0 else Weight(entries[..|entries| - 1]) + HeldBytes(entries[|entries| - 1])
  }

  lemma WeightStep(entries: seq<LeafEntry>, i: nat)
    requires i < |entries|
    ensures Weight(entries[..i + 1]) == Weight(entries[..i]) + HeldBytes(entries[i])
  {
    assert entries[..i + 1][..i] == entries[..i];
  }

  lemma {:induction false} WeightStrict(entries: seq<LeafEntry>, i: nat)
    requires i <= |entries|
    ensures i > 0 ==> Weight(entries[..i]) > 0
    ensures i < |entries| ==> Weight(entries[..i]) < Weight(entries)
    decreases |entries|
  {
    assert entries[..|entries|] == entries;
    if i < |entries| {
      var front := entries[..|entries| - 1];
      assert front[..i] == entries[..i];
      WeightStrict(front, i);
    } else if i > 0 {
      WeightStep(entries, i - 1);
    }
  }

  // The cell an entry is weighed as: a value still to be encoded counts as if it stayed inline.
  function WeighedCell(e: LeafEntry): (c: Entry)
    ensures c.key == e.key
  {
    match e.body
    case Raw(value) => Entry(e.key, Inline(value))
    case Encoded(cell) => Entry(e.key, cell)
  }

  function Weighed(entries: seq<LeafEntry>): (r: seq<Entry>)
    ensures |r| == |entries|
  {
    seq(|entries|, i requires 0 <= i < |entries| => WeighedCell(entries[i]))
  }

  lemma HeldBytesAre(key: Key, value: Bytes, cell: Cell)
    ensures HeldBytes(LeafEntry(key, Raw(value))) == EntryBytes(Entry(key, Inline(value)))
    ensures HeldBytes(LeafEntry(key, Encoded(cell))) == EntryBytes(Entry(key, cell))
    ensures WeighedCell(LeafEntry(key, Raw(value))) == Entry(key, Inline(value))
    ensures WeighedCell(LeafEntry(key, Encoded(cell))) == Entry(key, cell)
  {
  }

  // The weight of entries is the size of a leaf with these cells, but for the header.
  lemma {:induction false} WeightIsBytes(entries: seq<LeafEntry>)
    ensures PAGE_HEADER_SIZE + Weight(entries) == LeafBytes(Weighed(entries))
  {
    if entries != [] {
      WeightIsBytes(entries[..|entries| - 1]);
      assert Weighed(entries)[..|entries| - 1] == Weighed(entries[..|entries| - 1]);
    }
  }

  lemma {:induction false} WeightParts(entries: seq<LeafEntry>, cut: nat)
    requires cut <= |entries|
    ensures Weight(entries) == Weight(entries[..cut]) + Weight(entries[cut..])
    decreases |entries|
  {
    if cut == |entries| {
      assert entries[..cut] == entries && entries[cut..] == [];
    } else {
      var front := entries[..|entries| - 1];
      WeightParts(front, cut);
      assert front[..cut] == entries[..cut];
      assert entries[cut..][..|entries| - cut - 1] == front[cut..];
    }
  }

  function Abs(x: int): (r: nat)
    ensures r == x || r == -x
  {
    if x < 0 then -x else x
  }

  // The difference between the bytes right and left of a cut.
  function LeafImbalance(entries: seq<LeafEntry>, cut: nat): nat
    requires cut <= |entries|
  {
    Abs(Weight(entries) - 2 * Weight(entries[..cut]))
  }

  function Max(a: int, b: int): (r: int)
    ensures r >= a && r >= b && (r == a || r == b)
  {
    if a < b then b else a
  }

  function Min(a: int, b: int): (r: int)
    ensures r <= a && r <= b && (r == a || r == b)
  {
    if a < b then a else b
  }

  // The imbalance is that of the two leaves in bytes.
  lemma ImbalanceIsBytes(entries: seq<LeafEntry>, cut: nat)
    requires cut <= |entries|
    ensures var l, r := LeafBytes(Weighed(entries[..cut])), LeafBytes(Weighed(entries[cut..]));
            LeafImbalance(entries, cut) == Max(l, r) - Min(l, r)
  {
    hide Weight, LeafBytes, Weighed;
    WeightParts(entries, cut);
    WeightIsBytes(entries[..cut]);
    WeightIsBytes(entries[cut..]);
  }

  // The cuts leafSplitIndex chooses among.
  function LeafCutLow(n: nat, d: nat): nat
    requires d >= 2
  {
    Max(if d - 1 > n - 1 then n / 2 else d - 1, n - MaxKeys(d))
  }

  function LeafCutHigh(n: nat, d: nat): int
    requires d >= 2
  {
    Min(n - (if d - 1 > n - 1 then n / 2 else d - 1), MaxKeys(d))
  }

  // Both halves of a cut are pages of admissible size, and at least half full
  // exactly when there are enough entries for that.
  lemma LeafCutsFill(n: nat, d: nat, cut: nat)
    requires d >= 2 && 2 <= n <= 2 * MaxKeys(d)
    requires if LeafCutLow(n, d) <= LeafCutHigh(n, d)
             then LeafCutLow(n, d) <= cut <= LeafCutHigh(n, d) else cut == n / 2
    ensures 1 <= cut < n && cut <= MaxKeys(d) && n - cut <= MaxKeys(d)
    ensures cut >= d - 1 && n - cut >= d - 1 <==> n >= 2 * d - 2
  {
  }

  // No cut in [lo, hi] is better balanced, and no earlier one as well.
  ghost predicate IsBestCut(entries: seq<LeafEntry>, best: nat, lo: nat, hi: nat) {
    && best <= |entries|
    && (forall cut ::
      lo <= cut <= hi && cut <= |entries| ==> LeafImbalance(entries, best) <= LeafImbalance(entries, cut))
    && (forall cut :: lo <= cut < best ==> LeafImbalance(entries, best) < LeafImbalance(entries, cut))
  }

  method LeafSplitIndex(entries: seq<LeafEntry>, degree: nat) returns (best: nat)
    requires degree >= 2
    ensures |entries| < 2 ==> best == |entries|
    ensures |entries| >= 2 && LeafCutLow(|entries|, degree) > LeafCutHigh(|entries|, degree) ==> best == |entries| / 2
    ensures |entries| >= 2 && LeafCutLow(|entries|, degree) <= LeafCutHigh(|entries|, degree) ==>
              && LeafCutLow(|entries|, degree) <= best <= LeafCutHigh(|entries|, degree)
              && IsBestCut(entries, best, LeafCutLow(|entries|, degree), LeafCutHigh(|entries|, degree))
    // No cut into two leaves of d-1 to 2d-1 entries leaves their sizes in bytes closer, and no
    // earlier one as close.
    ensures forall cut ::
              degree - 1 <= cut <= 2 * degree - 1 && degree - 1 <= |entries| - cut <= 2 * degree - 1 ==>
                var l, r := LeafBytes(Weighed(entries[..best])), LeafBytes(Weighed(entries[best..]));
                var l', r' := LeafBytes(Weighed(entries[..cut])), LeafBytes(Weighed(entries[cut..]));
                && Max(l, r) - Min(l, r) <= Max(l', r') - Min(l', r')
                && (cut < best ==> Max(l, r) - Min(l, r) < Max(l', r') - Min(l', r'))
  {
    hide LeafImbalance, LeafBytes, Weighed;
    if |entries| < 2 {
      return |entries|;
    }
    var minLeft := Max(1, degree - 1);
    if minLeft > |entries| - 1 {
      minLeft := |entries| / 2;
    }
    var maxLeft := |entries| - minLeft;
    if maxLeft > MaxKeys(degree) {
      maxLeft := MaxKeys(degree);
    }
    var minNeeded := |entries| - MaxKeys(degree);
    if minLeft < minNeeded {
      minLeft := minNeeded;
    }
    if minLeft > maxLeft {
      return |entries| / 2;
    }
    best := BalancedCut(entries, minLeft, maxLeft);
    BestInBytes(entries, degree, best);
  }

  lemma BestInBytes(entries: seq<LeafEntry>, d: nat, best: nat)
    requires d >= 2 && IsBestCut(entries, best, LeafCutLow(|entries|, d), LeafCutHigh(|entries|, d))
    ensures forall cut :: d - 1 <= cut <= 2 * d - 1 && d - 1 <= |entries| - cut <= 2 * d - 1 ==>
              var l, r := LeafBytes(Weighed(entries[..best])), LeafBytes(Weighed(entries[best..]));
              var l', r' := LeafBytes(Weighed(entries[..cut])), LeafBytes(Weighed(entries[cut..]));
              && Max(l, r) - Min(l, r) <= Max(l', r') - Min(l', r')
              && (cut < best ==> Max(l, r) - Min(l, r) < Max(l', r') - Min(l', r'))
  {
    hide LeafImbalance, LeafBytes, Weighed;
    ImbalanceIsBytes(entries, best);
    forall cut | d - 1 <= cut <= 2 * d - 1 && d - 1 <= |entries| - cut <= 2 * d - 1
      ensures LeafImbalance(entries, best) <= LeafImbalance(entries, cut)
      ensures cut < best ==> LeafImbalance(entries, best) < LeafImbalance(entries, cut)
    {
    }
    forall cut | 0 <= cut <= |entries|
      ensures var l', r' := LeafBytes(Weighed(entries[..cut])), LeafBytes(Weighed(entries[cut..]));
              LeafImbalance(entries, cut) == Max(l', r') - Min(l', r')
    {
      ImbalanceIsBytes(entries, cut);
    }
  }

  // The loop of leafSplitIndex: the first cut in [minLeft, maxLeft] of least imbalance.
  method BalancedCut(entries: seq<LeafEntry>, minLeft: nat, maxLeft: nat) returns (best: nat)
    requires 1 <= minLeft <= maxLeft < |entries|
    ensures minLeft <= best <= maxLeft && IsBestCut(entries, best, minLeft, maxLeft)
  {
    hide Weight;
    var total := TotalWeight(entries);
    best := minLeft;
    EmptyWeight(entries);
    var bestDistance := total;
    var prefix := 0;
    for i := 0 to |entries|
      invariant prefix == Weight(entries[..i])
      invariant minLeft <= best <= maxLeft
      invariant i < minLeft ==> best == minLeft && bestDistance == total
      invariant i >= minLeft ==> best <= i && bestDistance == LeafImbalance(entries, best)
      invariant forall cut :: minLeft <= cut <= maxLeft && cut <= i ==> bestDistance <= LeafImbalance(entries, cut)
      invariant forall cut :: minLeft <= cut < best && cut <= i ==> bestDistance < LeafImbalance(entries, cut)
    {
      WeightStep(entries, i);
      prefix := prefix + HeldBytes(entries[i]);
      var split := i + 1;
      if !(split < minLeft || split > maxLeft) {
        CutIsStrict(entries, split);
        var distance := Abs(total - 2 * prefix);
        if distance < bestDistance {
          best := split;
          bestDistance := distance;
        }
      }
    }
  }

  lemma EmptyWeight(entries: seq<LeafEntry>)
    ensures Weight(entries[..0]) == 0
  {
  }

  // An inner cut is better balanced than no cut.
  lemma CutIsStrict(entries: seq<LeafEntry>, cut: nat)
    requires 0 < cut < |entries|
    ensures LeafImbalance(entries, cut) < Weight(entries)
  {
    WeightStrict(entries, cut);
  }

  method TotalWeight(entries: seq<LeafEntry>) returns (total: nat)
    ensures total == Weight(entries)
  {
    total := 0;
    for i := 0 to |entries|
      invariant total == Weight(entries[..i])
    {
      WeightStep(entries, i);
      total := total + HeldBytes(entries[i]);
    }
    assert entries[..|entries|] == entries;
  }

  // The difference between the bytes of the two branches that promoting keys[i] leaves.
  function BranchImbalance(keys: seq<Key>, i: nat): nat
    requires i < |keys|
  {
    Abs(BranchBytes(keys[..i]) - BranchBytes(keys[i + 1..]))
  }

  lemma {:induction false} SeparatorBytesSuffix(keys: seq<Key>, i: nat)
    requires i <= |keys|
    ensures SumSeparatorBytes(keys) == SumSeparatorBytes(keys[..i]) + SumSeparatorBytes(keys[i..])
    decreases |keys|
  {
    if i == |keys| {
      assert keys[..i] == keys && keys[i..] == [];
    } else {
      var front := keys[..|keys| - 1];
      SeparatorBytesSuffix(front, i);
      assert front[..i] == keys[..i];
      assert keys[i..][..|keys| - i - 1] == front[i..];
    }
  }

  method BranchSplitIndex(keys: seq<Key>, degree: nat) returns (best: nat)
    requires degree >= 2 && |keys| >= 1
    ensures best < |keys|
    ensures |keys| == 2 * degree ==> degree - 1 <= best <= degree
    ensures |keys| == 2 * degree ==> forall i ::
              degree - 1 <= i <= degree ==> BranchImbalance(keys, best) <= BranchImbalance(keys, i)
    ensures |keys| == 2 * degree ==> forall i ::
              degree - 1 <= i < best ==> BranchImbalance(keys, best) < BranchImbalance(keys, i)
    // The two branches it leaves are as close in bytes as they can be.
    ensures |keys| == 2 * degree ==> forall i :: degree - 1 <= i <= degree ==>
              var l, r := BranchBytes(keys[..best]), BranchBytes(keys[best + 1..]);
              var l', r' := BranchBytes(keys[..i]), BranchBytes(keys[i + 1..]);
              && Max(l, r) - Min(l, r) <= Max(l', r') - Min(l', r')
              && (i < best ==> Max(l, r) - Min(l, r) < Max(l', r') - Min(l', r'))
  {
    hide BranchImbalance, BranchBytes;
    if |keys| < 3 {
      return |keys| / 2;
    }
    var minKeys := Max(1, degree - 1);
    var lo := Max(minKeys, |keys| - 1 - MaxKeys(degree));
    var hi := Min(MaxKeys(degree), |keys| - 1 - minKeys);
    if lo > hi {
      return |keys| / 2;
    }
    var prefix := PrefixSums(keys);
    best := lo;
    var bestDistance := Distance(keys, prefix, best);
    for i := lo + 1 to hi + 1
      invariant lo <= best <= hi && bestDistance == BranchImbalance(keys, best)
      invariant forall j :: lo <= j < i ==> bestDistance <= BranchImbalance(keys, j)
      invariant forall j :: lo <= j < best ==> bestDistance < BranchImbalance(keys, j)
    {
      var distance := Distance(keys, prefix, i);
      if distance < bestDistance {
        best := i;
        bestDistance := distance;
      }
    }
    ImbalancesOfBranches(keys);
  }

  lemma ImbalancesOfBranches(keys: seq<Key>)
    ensures forall i :: 0 <= i < |keys| ==>
              var l, r := BranchBytes(keys[..i]), BranchBytes(keys[i + 1..]);
              BranchImbalance(keys, i) == Max(l, r) - Min(l, r)
  {
    hide BranchBytes;
  }

  method PrefixSums(keys: seq<Key>) returns (prefix: seq<nat>)
    ensures |prefix| == |keys| + 1
    ensures forall i :: 0 <= i <= |keys| ==> prefix[i] == SumSeparatorBytes(keys[..i])
  {
    prefix := [0];
    for i := 0 to |keys|
      invariant |prefix| == i + 1
      invariant forall j :: 0 <= j <= i ==> prefix[j] == SumSeparatorBytes(keys[..j])
    {
      assert keys[..i + 1][..i] == keys[..i];
      prefix := prefix + [prefix[i] + SeparatorBytes(keys[i])];
    }
  }

  // branchPageBytes against branchPageBytesSuffix
  method Distance(keys: seq<Key>, prefix: seq<nat>, i: nat) returns (distance: nat)
    requires i < |keys| && |prefix| == |keys| + 1
    requires forall j :: 0 <= j <= |keys| ==> prefix[j] == SumSeparatorBytes(keys[..j])
    ensures distance == BranchImbalance(keys, i)
  {
    SeparatorBytesSuffix(keys, i + 1);
    assert keys[..|keys|] == keys;
    distance := Abs(PAGE_HEADER_SIZE + prefix[i] - (PAGE_HEADER_SIZE + prefix[|prefix| - 1] - prefix[i + 1]));
  }
}
