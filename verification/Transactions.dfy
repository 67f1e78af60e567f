// Read-write transactions: a staged overlay over a snapshot, committed as one batch if
// nothing else was published meanwhile (pagebtree/tx.go).

module Transactions {
  import opened KeyOrder
  import opened Seqs
  import opened Contents
  import opened Pages
  import opened Trees
  import opened Ranges
  import opened Deletion
  import opened Invariants
  import opened Updates
  import opened Search
  import opened Snapshots
  import opened Batches

  datatype TxValue = Present(value: Bytes) | Deleted

  // A map overridden by the staged values.
  function Override(m: map<Key, Bytes>, staged: map<Key, TxValue>): map<Key, Bytes> {
    map k | k in m.Keys + staged.Keys && (k in staged ==> staged[k].Present?) ::
        if k in staged then staged[k].value else m[k]
  }

  lemma OverridePut(m: map<Key, Bytes>, staged: map<Key, TxValue>, key: Key, value: Bytes)
    ensures Override(m, staged[key := Present(value)]) == Override(m, staged)[key := value]
  {
  }

  lemma OverrideDelete(m: map<Key, Bytes>, staged: map<Key, TxValue>, key: Key)
    ensures Override(m, staged[key := Deleted]) == Override(m, staged) - {key}
  {
  }

  class ReadWriteTx {
    const tree: Tree
    const base: Snapshot
    const baseRevision: nat
    const batch: WriteBatch
    var staged: map<Key, TxValue>
    var closed: bool

    constructor (tree: Tree, base: Snapshot, batch: WriteBatch)
      requires base.Registered()
      requires if base.closed then tree.closed else base.tree == tree && base.revision == tree.revision
      requires Sorted(tree.order, base.View()) && !batch.closed && batch.tree == tree && batch.ops == []
      ensures this.tree == tree && this.base == base && this.batch == batch && baseRevision == tree.revision
      ensures Valid() && !closed && View() == base.View()
    {
      this.tree, this.base, this.batch := tree, base, batch;
      baseRevision := tree.revision;
      staged, closed := map[], false;
      new;
      NothingApplied(tree.order, base.View());
      assert Override(MapOf(base.View()), map[]) == MapOf(base.View());
    }

    // The base is a snapshot of the tree, taken at the base revision unless the tree was closed.
    ghost predicate Based()
      reads this, batch, base, tree, base.tree
    {
      && batch.tree == tree && base.Registered()
      && (if base.closed then closed || tree.closed else base.tree == tree && base.revision == baseRevision)
    }

    // The overlay is what the staged operations do to the base.
    ghost predicate Valid()
      reads this, batch, base, tree, base.tree
    {
      && Based()
      && Sorted(tree.order, base.View())
      && (!closed ==>
        !batch.closed && ApplyToMap(MapOf(base.View()), batch.ops) == Override(MapOf(base.View()), staged))
    }

    // What the transaction shows: the base with the staged operations applied in order.
    ghost function View(): seq<KV>
      requires Valid()
      reads this, batch, base, tree, base.tree
    {
      Apply(tree.order, base.View(), batch.ops)
    }

    // tx.Put
    method Put(key: Key, value: Bytes)
      requires Valid()
      modifies this`staged, batch`ops
      ensures Valid()
      ensures batch.ops == if closed then old(batch.ops) else old(batch.ops) + [PutOp(key, value)]
      ensures View() == if closed then old(View()) else Upsert(tree.order, old(View()), key, value)
    {
      hide Upsert, MapOf, SortedKeys, Override;
      if closed {
        return;
      }
      OverridePut(MapOf(base.View()), staged, key, value);
      ghost var ops := batch.ops;
      batch.Put(key, value);
      staged := staged[key := Present(value)];
      assert batch.ops[..|batch.ops| - 1] == ops;
    }

    // tx.Delete
    method Delete(key: Key)
      requires Valid()
      modifies this`staged, batch`ops
      ensures Valid()
      ensures batch.ops == if closed then old(batch.ops) else old(batch.ops) + [DeleteOp(key)]
      ensures View() == if closed then old(View()) else Remove(tree.order, old(View()), key)
    {
      hide Remove, MapOf, SortedKeys, Override;
      if closed {
        return;
      }
      OverrideDelete(MapOf(base.View()), staged, key);
      ghost var ops := batch.ops;
      batch.Delete(key);
      staged := staged[key := Deleted];
      assert batch.ops[..|batch.ops| - 1] == ops;
    }

    // tx.Get reads the transaction's own writes.
    method Get(key: Key, ghost lo: nat) returns (value: Option<Bytes>)
      requires Valid() && (!base.closed ==> WellFormed(tree, lo))
      ensures value == if closed then None else Lookup(tree.order, View(), key)
    {
      hide WellFormed, MapOf, SortedKeys, Lookup, Apply, ApplyToMap;
      if closed {
        return None;
      }
      ApplyIsMapFold(tree.order, base.View(), batch.ops);
      LookupIsMapLookup(tree.order, View(), key);
      LookupIsMapLookup(tree.order, base.View(), key);
      if key in staged {
        match staged[key]
        case Present(v) => return Some(v);
        case Deleted => return None;
      }
      value := GetAt(base, key, lo);
      if base.closed {
        NothingFound(tree.order, key);
      }
    }
  }

  // ---- The keys a range of the overlay shows ----

  // Put a key that is not there yet in its place; keys sorted one by one this way come out
  // as any sort leaves them.
  method SortKeys(o: Order, keys: seq<Key>) returns (sorted: seq<Key>)
    requires forall i, j :: 0 <= i < j < |keys| ==> keys[i] != keys[j]
    ensures SortedKeys(o, sorted) && multiset(sorted) == multiset(keys)
  {
    sorted := [];
    for i := 0 to |keys|
      invariant SortedKeys(o, sorted) && multiset(sorted) == multiset(keys[..i])
    {
      assert keys[..i + 1] == keys[..i] + [keys[i]];
      assert keys[i] !in keys[..i];
      assert keys[i] in sorted <==> multiset(sorted)[keys[i]] > 0;
      InsertInOrder(o, sorted, keys[i]);
      sorted := InsertAt(sorted, LowerBound(o, sorted, keys[i]), keys[i]);
    }
    assert keys[..|keys|] == keys;
  }

  lemma InsertInOrder(o: Order, s: seq<Key>, key: Key)
    requires SortedKeys(o, s) && key !in s
    ensures var r := InsertAt(s, LowerBound(o, s, key), key);
            SortedKeys(o, r) && multiset(r) == multiset(s) + multiset{key}
  {
    hide LowerBound, SortedKeys, Lt, Has, InsertAt;
    HasIffIn(o, s, key);
    InsertKeySorted(o, s, key);
    InsertedOnce(s, LowerBound(o, s, key), key);
  }

  lemma InsertedOnce(s: seq<Key>, i: nat, key: Key)
    requires i <= |s|
    ensures multiset(InsertAt(s, i, key)) == multiset(s) + multiset{key}
  {
    assert s == s[..i] + s[i..];
  }

  ghost predicate Distinct(keys: seq<Key>) {
    forall i, j :: 0 <= i < j < |keys| ==> keys[i] != keys[j]
  }

  // The keys the base shows and the overlay does not delete.
  method BaseKeys(o: Order, pairs: seq<KV>, staged: map<Key, TxValue>) returns (keys: seq<Key>, seen: set<Key>)
    requires Sorted(o, pairs)
    ensures Distinct(keys)
    ensures forall k :: k in seen <==> k in Keys(pairs)
    ensures forall k :: k in keys <==> k in Keys(pairs) && !(k in staged && staged[k].Deleted?)
  {
    keys, seen := [], {};
    for i := 0 to |pairs|
      invariant Distinct(keys)
      invariant forall k :: k in seen <==> k in Keys(pairs[..i])
      invariant forall k :: k in keys <==> k in Keys(pairs[..i]) && !(k in staged && staged[k].Deleted?)
    {
      var key := pairs[i].key;
      KeyIsNew(o, pairs, i);
      assert Keys(pairs[..i + 1]) == Keys(pairs[..i]) + [key];
      seen := seen + {key};
      if !(key in staged && staged[key].Deleted?) {
        keys := keys + [key];
      }
    }
    assert pairs[..|pairs|] == pairs;
  }

  lemma KeyIsNew(o: Order, pairs: seq<KV>, i: nat)
    requires Sorted(o, pairs) && i < |pairs|
    ensures pairs[i].key !in Keys(pairs[..i])
  {
    forall j | 0 <= j < i ensures Keys(pairs[..i])[j] != pairs[i].key {
      OtherKeys(o, Keys(pairs), j, i);
    }
  }

  // Add the staged keys of the range that the base does not show.
  method AddStaged(o: Order, staged: map<Key, TxValue>, start: Key, end: Key, keys: seq<Key>, seen: set<Key>)
    returns (all: seq<Key>)
    requires Distinct(keys) && forall k :: k in keys ==> k in seen
    ensures Distinct(all)
    ensures forall k :: k in all <==>
              k in keys || (k in staged && staged[k].Present? && k !in seen && InRange(o, k, Some(start), Some(end)))
  {
    hide Lt;
    all := keys;
    var todo := staged.Keys;
    while todo != {}
      invariant todo <= staged.Keys && Distinct(all)
      invariant forall k :: k in all <==>
                  k in keys || (k in staged && k !in todo && staged[k].Present? && k !in seen
                                && InRange(o, k, Some(start), Some(end)))
      decreases todo
    {
      var key :| key in todo;
      todo := todo - {key};
      if staged[key].Deleted? || key in seen {
        continue;
      }
      assert InRange(o, key, Some(start), Some(end)) <==> o.compare(key, start) >= 0 && o.compare(key, end) < 0 by {
        BoundsMean(o, key, start, end);
      }
      if o.compare(key, start) >= 0 && o.compare(key, end) < 0 {
        all := all + [key];
      }
    }
  }

  lemma BoundsMean(o: Order, key: Key, start: Key, end: Key)
    ensures InRange(o, key, Some(start), Some(end)) <==> o.compare(key, start) >= 0 && o.compare(key, end) < 0
  {
  }

  // tx.visibleKeysBetween
  method VisibleKeysBetween(tx: ReadWriteTx, start: Key, end: Key, ghost lo: nat) returns (keys: seq<Key>)
    requires tx.Valid() && !tx.closed && (!tx.base.closed ==> WellFormed(tx.tree, lo))
    ensures keys == Keys(Within(tx.tree.order, tx.View(), Some(start), Some(end)))
  {
    hide WellFormed, MapOf, Apply, ApplyToMap, Within, Visit, Override, SortedKeys, Lt;
    ghost var o, base := tx.tree.order, tx.base.View();
    var all: Visitor := seen => true;
    var pairs := RangeAt(tx.base, Some(start), Some(end), all, lo);
    AllVisited(all, Within(o, base, Some(start), Some(end)));
    if tx.base.closed {
      WithinNothing(o, Some(start), Some(end));
    }
    WithinSorted(o, base, Some(start), Some(end));
    var seen;
    keys, seen := BaseKeys(tx.tree.order, pairs, tx.staged);
    keys := AddStaged(tx.tree.order, tx.staged, start, end, keys, seen);
    ghost var unsorted := keys;
    keys := SortKeys(tx.tree.order, keys);
    assert forall k :: k in keys <==> k in multiset(keys);
    assert forall k :: k in unsorted <==> k in multiset(unsorted);
    ApplyIsMapFold(o, base, tx.batch.ops);
    ShownKeys(o, base, tx.View(), tx.staged, start, end, keys);
  }

  // The same keys in the same order.
  lemma {:induction false} SameSortedKeys(o: Order, a: seq<Key>, b: seq<Key>)
    requires SortedKeys(o, a) && SortedKeys(o, b) && forall k :: k in a <==> k in b
    ensures a == b
    decreases |a|
  {
    if a == [] || b == [] {
      EmptyIffNoKeys(a);
      EmptyIffNoKeys(b);
    } else {
      assert a[0] in b && b[0] in a;
      FirstKeyIsLeast(o, a, b[0]);
      FirstKeyIsLeast(o, b, a[0]);
      Trichotomy(o, a[0], b[0]);
      forall k ensures k in a[1..] <==> k in b[1..] {
        TailKeys(o, a, k);
        TailKeys(o, b, k);
      }
      SortedKeysParts(o, [a[0]], a[1..]);
      SortedKeysParts(o, [b[0]], b[1..]);
      assert a == [a[0]] + a[1..] && b == [b[0]] + b[1..];
      SameSortedKeys(o, a[1..], b[1..]);
    }
  }

  lemma EmptyIffNoKeys(s: seq<Key>)
    ensures s == [] <==> forall k :: k !in s
  {
    assert s != [] ==> s[0] in s;
  }

  lemma FirstKeyIsLeast(o: Order, s: seq<Key>, k: Key)
    requires SortedKeys(o, s) && k in s
    ensures s[0] == k || Lt(o, s[0], k)
  {
    var i :| 0 <= i < |s| && s[i] == k;
  }

  lemma TailKeys(o: Order, s: seq<Key>, k: Key)
    requires SortedKeys(o, s) && s != []
    ensures k in s[1..] <==> k in s && k != s[0]
  {
    if k in s[1..] {
      var i :| 0 <= i < |s[1..]| && s[1..][i] == k;
      OtherKeys(o, s, 0, i + 1);
    }
    if k in s && k != s[0] {
      var i :| 0 <= i < |s| && s[i] == k;
      assert s[1..][i - 1] == k;
    }
  }

  lemma ShownKeys(o: Order, base: seq<KV>, view: seq<KV>, staged: map<Key, TxValue>, start: Key, end: Key,
          keys: seq<Key>)
    requires Sorted(o, base) && Sorted(o, view) && MapOf(view) == Override(MapOf(base), staged)
    requires SortedKeys(o, keys)
    requires var inBase := Keys(Within(o, base, Some(start), Some(end)));
             forall k :: k in keys <==>
               (k in inBase && !(k in staged && staged[k].Deleted?))
               || (k in staged && staged[k].Present? && k !in inBase && InRange(o, k, Some(start), Some(end)))
    ensures keys == Keys(Within(o, view, Some(start), Some(end)))
  {
    hide MapOf, Within, SortedKeys, Lt;
    var inView := Within(o, view, Some(start), Some(end));
    WithinSorted(o, view, Some(start), Some(end));
    forall k ensures k in keys <==> k in Keys(inView) {
      KeysWithin(o, base, start, end, k);
      KeysWithin(o, view, start, end, k);
    }
    SameSortedKeys(o, keys, Keys(inView));
  }

  lemma KeysWithin(o: Order, s: seq<KV>, start: Key, end: Key, k: Key)
    requires Sorted(o, s)
    ensures k in Keys(Within(o, s, Some(start), Some(end))) <==> k in MapOf(s) && InRange(o, k, Some(start), Some(end))
  {
    hide MapOf, Within, SortedKeys, Lt;
    MapOfRepresents(o, s);
    var r := Within(o, s, Some(start), Some(end));
    if k in Keys(r) {
      var i :| 0 <= i < |r| && Keys(r)[i] == k;
      WithinExact(o, s, Some(start), Some(end), r[i]);
    }
    if k in MapOf(s) && InRange(o, k, Some(start), Some(end)) {
      var i :| 0 <= i < |s| && Keys(s)[i] == k;
      WithinExact(o, s, Some(start), Some(end), s[i]);
      var j :| 0 <= j < |r| && r[j] == s[i];
      assert Keys(r)[j] == k;
    }
  }

  lemma LookupOf(o: Order, s: seq<KV>, start: Key, end: Key, i: nat)
    requires Sorted(o, s) && i < |Within(o, s, Some(start), Some(end))|
    ensures var kv := Within(o, s, Some(start), Some(end))[i]; Lookup(o, s, kv.key) == Some(kv.value)
  {
    hide Within, SortedKeys, Lt;
    var kv := Within(o, s, Some(start), Some(end))[i];
    WithinExact(o, s, Some(start), Some(end), kv);
    var j :| 0 <= j < |s| && s[j] == kv;
    AtLowerBound(o, Keys(s), j);
  }

  // tx.RangeBetween shows what a range read of the tree would show after the commit.
  method RangeBetween(tx: ReadWriteTx, start: Key, end: Key, visit: Visitor, ghost lo: nat) returns (seen: seq<KV>)
    requires tx.Valid() && (!tx.base.closed ==> WellFormed(tx.tree, lo))
    ensures seen == if tx.closed then []
            else Visit(visit, [], Within(tx.tree.order, tx.View(), Some(start), Some(end))).0
  {
    hide WellFormed, MapOf, Apply, ApplyToMap, Within, Visit, Override, SortedKeys, Lt, Lookup;
    if tx.closed {
      return [];
    }
    ghost var o, view := tx.tree.order, tx.View();
    ghost var shown := Within(o, view, Some(start), Some(end));
    ApplyIsMapFold(o, tx.base.View(), tx.batch.ops);
    LtMeans(tx.tree.order, start, end);
    if tx.tree.order.compare(start, end) >= 0 {
      EmptyBounds(o, view, start, end);
      VisitNothing(visit, []);
      return [];
    }
    var keys := VisibleKeysBetween(tx, start, end, lo);
    seen := [];
    for i := 0 to |keys|
      invariant Visit(visit, [], shown) == Visit(visit, seen, shown[i..])
    {
      assert keys[i] == shown[i].key;
      LookupOf(o, view, start, end, i);
      var value := tx.Get(keys[i], lo);
      if value.None? {
        continue;
      }
      assert shown[i..] == [shown[i]] + shown[i + 1..];
      VisitStep(visit, seen, shown[i], shown[i + 1..]);
      seen := seen + [KV(keys[i], value.value)];
      if !visit(seen) {
        return;
      }
    }
    assert shown[|keys|..] == [];
    VisitNothing(visit, seen);
  }

  // tx.DeleteRange clears the range in the transaction's view, whatever the order.
  method DeleteRange(tx: ReadWriteTx, start: Key, end: Key, ghost lo: nat)
    requires tx.Valid() && (!tx.base.closed ==> WellFormed(tx.tree, lo))
    modifies tx`staged, tx.batch`ops
    ensures tx.Valid()
    ensures tx.closed ==> tx.View() == old(tx.View())
    ensures !tx.closed ==>
              MapOf(tx.View()) == map k | k in old(MapOf(tx.View()))
                && !InRange(tx.tree.order, k, Some(start), Some(end)) ::
                  old(MapOf(tx.View()))[k]
  {
    hide WellFormed, MapOf, Apply, ApplyToMap, Within, Override, SortedKeys, Lt, Remove;
    if tx.closed {
      return;
    }
    ghost var o, view := tx.tree.order, tx.View();
    ghost var shown := Within(o, view, Some(start), Some(end));
    ApplyIsMapFold(o, tx.base.View(), tx.batch.ops);
    DeleteRangeClears(o, view, start, end);
    NothingApplied(o, view);
    LtMeans(tx.tree.order, start, end);
    if tx.tree.order.compare(start, end) >= 0 {
      EmptyBounds(o, view, start, end);
      assert Deletes([]) == [];
      return;
    }
    var keys := VisibleKeysBetween(tx, start, end, lo);
    for i := 0 to |keys|
      invariant tx.Valid()
      invariant tx.View() == Apply(o, view, Deletes(shown[..i]))
    {
      tx.Delete(keys[i]);
      assert Deletes(shown)[..i + 1] == Deletes(shown[..i + 1]) && Deletes(shown)[..i] == Deletes(shown[..i]);
      ApplyNext(o, view, Deletes(shown), i);
    }
    assert shown[..|keys|] == shown;
  }

  // ---- Beginning and ending ----

  // BeginReadWrite
  method BeginReadWrite(t: Tree, ghost lo: nat) returns (tx: ReadWriteTx)
    requires WellFormed(t, lo)
    modifies t`readers, t`pins, t`tickets
    ensures fresh(tx) && fresh(tx.base) && fresh(tx.batch)
    ensures WellFormed(t, lo) && tx.Valid() && !tx.closed && tx.tree == t && tx.baseRevision == t.revision
    ensures tx.base.closed == t.closed
    ensures !t.closed ==> tx.View() == Pairs(t)
    ensures t.closed ==> tx.View() == []
  {
    hide WellFormed, Pairs, SortedKeys;
    var base := TakeSnapshot(t, lo);
    var batch := new WriteBatch(t);
    WellFormedSorted(t, lo);
    NothingSorted(t.order);
    tx := new ReadWriteTx(t, base, batch);
  }

  lemma WellFormedSorted(t: Tree, lo: nat)
    requires WellFormed(t, lo)
    ensures Sorted(t.order, Pairs(t))
  {
    hide Owns, Pinned, Spells;
    PairsSorted(t, lo);
  }

  // tx.close
  method CloseTx(tx: ReadWriteTx, ghost lo: nat)
    requires tx.Based() && (!tx.base.closed ==> WellFormed(tx.tree, lo))
    modifies tx`staged, tx`closed, tx.base`closed, if tx.base.closed then {} else {tx.tree}
    ensures tx.closed && tx.base.closed
    ensures old(tx.base.closed) ==> unchanged(tx.tree)
    ensures !old(tx.base.closed) ==>
              && WellFormed(tx.tree, lo) && Pairs(tx.tree) == old(Pairs(tx.tree))
              && tx.tree.pins == old(tx.tree.pins) - {tx.base.ticket}
              && tx.tree.revision == old(tx.tree.revision)
  {
    hide WellFormed, Pairs;
    CloseSnapshot(tx.base, lo);
    tx.staged, tx.closed := map[], true;
  }

  // tx.Rollback discards the staged operations and leaves the tree's contents alone.
  method Rollback(tx: ReadWriteTx, ghost lo: nat)
    requires tx.Valid() && (!tx.base.closed ==> WellFormed(tx.tree, lo))
    modifies tx, tx.batch, tx.base, tx.tree
    ensures tx.closed && (!old(tx.closed) ==> tx.batch.ops == [] && tx.batch.closed && tx.base.closed)
    ensures old(tx.closed) || old(tx.base.closed) ==>
              Pairs(tx.tree) == old(Pairs(tx.tree)) && tx.tree.State() == old(tx.tree.State())
    ensures !old(tx.closed) && !old(tx.base.closed) ==>
              && WellFormed(tx.tree, lo) && Pairs(tx.tree) == old(Pairs(tx.tree))
              && tx.tree.revision == old(tx.tree.revision)
              && tx.tree.pins == old(tx.tree.pins) - {tx.base.ticket}
  {
    hide WellFormed, Pairs;
    if tx.closed {
      return;
    }
    tx.batch.Rollback();
    CloseTx(tx, lo);
  }

  // If no revision was published since the transaction began, its base is what the tree holds.
  lemma BaseIsCurrent(tx: ReadWriteTx, lo: nat)
    requires tx.Based() && WellFormed(tx.tree, lo)
    ensures !tx.base.closed && tx.tree.revision == tx.baseRevision ==> tx.base.View() == Pairs(tx.tree)
  {
    hide Owns, Spells, Pinned;
  }

  // CommitDetailed
  method Commit(tx: ReadWriteTx, ghost lo: nat) returns (result: CommitResult)
    requires tx.Valid() && WellFormed(tx.tree, lo)
    modifies tx, tx.batch, tx.base, tx.tree
    ensures tx.closed && WellFormed(tx.tree, if result.Committed?
                                    then old(FillAfterOps(tx.tree.degree, Pairs(tx.tree), tx.batch.ops, lo))
                                    else lo)
    ensures old(tx.closed) <==> result == Refused(BatchClosed)
    // First committer wins: a commit conflicts exactly if a revision was published since it began.
    ensures result == Refused(TxConflict) <==> !old(tx.closed) && old(tx.tree.revision) != tx.baseRevision
    ensures result.Committed? ==>
              && old(tx.tree.revision) == tx.baseRevision
              && Pairs(tx.tree) == old(tx.View())
              && result.operations == Results(tx.tree.order, old(Pairs(tx.tree)), old(tx.batch.ops))
              && tx.tree.revision == tx.baseRevision + (if result.changed then 1 else 0)
    ensures result.Refused? ==> Pairs(tx.tree) == old(Pairs(tx.tree)) && tx.tree.revision == old(tx.tree.revision)
    ensures result.Committed? ==> !PutsUnstorable(old(tx.batch.ops))
    ensures result == Refused(BatchPanicked) ==>
              tx.tree.growLimit.Some? || !Bounded(tx.tree.degree, old(Pairs(tx.tree)), old(tx.batch.ops))
    ensures !old(tx.base.closed) && !old(tx.closed) ==> tx.tree.pins == old(tx.tree.pins) - {tx.base.ticket}
  {
    hide WellFormed, PairsIn, RoomFor, OpsFit, Apply, Results, SomeChanged, MapOf, ApplyToMap, Override, SortedKeys,
      RolledBack, Bounded, Retires, FillAfterOps, PutsUnstorable;
    if tx.closed {
      return Refused(BatchClosed);
    }
    BaseIsCurrent(tx, lo);
    if tx.tree.revision != tx.baseRevision {
      tx.batch.Rollback();
      CloseTx(tx, lo);
      return Refused(TxConflict);
    }
    WellDegree(tx.tree, lo);
    ghost var fill := FillAfterOps(tx.tree.degree, Pairs(tx.tree), tx.batch.ops, lo);
    result := CommitDetailed(tx.batch, lo);
    CloseTx(tx, if result.Committed? then fill else lo);
  }

  // Two transactions that began at the same revision: if the first commit changes anything,
  // the second one conflicts, and otherwise it is the one that takes effect.
  method CommitBoth(a: ReadWriteTx, b: ReadWriteTx, ghost lo: nat) returns (first: CommitResult, second: CommitResult)
    requires a != b && a.tree == b.tree && a.batch != b.batch && a.base != b.base
    requires a.Valid() && !a.closed && !a.base.closed && b.Valid() && !b.closed && !b.base.closed
             && a.base.ticket != b.base.ticket
    requires a.baseRevision == b.baseRevision == a.tree.revision && WellFormed(a.tree, lo)
    modifies a, a.batch, a.base, b, b.batch, b.base, a.tree
    ensures second == Refused(TxConflict) <==> first.Committed? && first.changed
    ensures first != Refused(TxConflict)
    ensures WellFormed(a.tree, old(FillAfterOps(a.tree.degree, Pairs(a.tree), a.batch.ops + b.batch.ops, lo)))
    ensures first.Committed? && first.changed ==> Pairs(a.tree) == old(a.View())
    ensures second.Committed? ==> Pairs(a.tree) == old(b.View())
  {
    hide WellFormed, Pairs, PairsIn, RoomFor, OpsFit, Apply, Results, SomeChanged, MapOf, ApplyToMap, Override,
      SortedKeys, Bounded;
    BaseIsCurrent(a, lo);
    WellDegree(a.tree, lo);
    ghost var lo' := FillAfterOps(a.tree.degree, Pairs(a.tree), a.batch.ops + b.batch.ops, lo);
    FillOfBoth(a.tree, a.batch.ops, b.batch.ops, lo);
    WellFormedWeaker(a.tree, lo, lo');
    first := Commit(a, lo');
    second := Commit(b, lo');
  }

  lemma FillOfBoth(t: Tree, a: seq<Op>, b: seq<Op>, lo: nat)
    requires t.degree >= 2 && WellFormed(t, lo)
    ensures var lo' := FillAfterOps(t.degree, Pairs(t), a + b, lo);
            && lo' <= lo && RoomFor(lo', t.degree, Pairs(t)) && RoomFor(lo', t.degree, Apply(t.order, Pairs(t), a))
            && OpsFit(t.degree, lo', a) && OpsFit(t.degree, lo', b)
  {
    hide WellFormed, Pairs, KeysFit, Apply, OpFits;
    WellDegree(t, lo);
    var lo' := FillAfterOps(t.degree, Pairs(t), a + b, lo);
    FillIsEnough(t, a + b, lo);
    assert forall i :: 0 <= i < |a| ==> (a + b)[i] == a[i];
    assert forall i :: 0 <= i < |b| ==> (a + b)[|a| + i] == b[i];
    ApplyRoomFor(t.order, lo', t.degree, Pairs(t), a);
  }
}
