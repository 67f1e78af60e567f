// Write batches: several updates published as one revision, or none (pagebtree/batch.go).

module Batches {
  import opened KeyOrder
  import opened Contents
  import opened Pages
  import opened Nodes
  import opened Trees
  import opened LeafLinks
  import opened Freelist
  import opened Insertion
  import opened Deletion
  import opened Invariants
  import opened Updates
  import opened Ranges
  import opened Snapshots

  datatype Op = PutOp(key: Key, value: Bytes) | DeleteOp(key: Key)

  datatype OpResult = OpResult(op: Op, oldValue: Option<Bytes>, changed: bool)

  datatype CommitError = BatchClosed | TreeClosed | ReadOnly | BatchPanicked | TxConflict

  datatype CommitResult = Committed(changed: bool, operations: seq<OpResult>) | Refused(error: CommitError)

  // ---- What a batch means ----

  function ApplyOp(o: Order, s: seq<KV>, op: Op): seq<KV> {
    match op
    case PutOp(key, value) => Upsert(o, s, key, value)
    case DeleteOp(key) => Remove(o, s, key)
  }

  function Apply(o: Order, s: seq<KV>, ops: seq<Op>): seq<KV> {
    if ops == [] then s else ApplyOp(o, Apply(o, s, ops[..|ops| - 1]), ops[|ops| - 1])
  }

  // What each operation observes: the value its key had when its turn came.
  function Results(o: Order, s: seq<KV>, ops: seq<Op>): (r: seq<OpResult>)
    ensures |r| == |ops|
  {
    if ops == [] then []
    else
      var last := ops[|ops| - 1];
      var previous := Lookup(o, Apply(o, s, ops[..|ops| - 1]), last.key);
      Results(o, s, ops[..|ops| - 1]) + [OpResult(last, previous, last.PutOp? || previous.Some?)]
  }

  predicate SomeChanged(results: seq<OpResult>) {
    exists i :: 0 <= i < |results| && results[i].changed
  }

  // What the least fill asks of an operation: that the key fits, and for more than one key in
  // a leaf that the pair is small. For zero, nothing.
  predicate OpFits(d: nat, lo: nat, op: Op)
    requires d >= 2
  {
    op.PutOp? ==> (lo >= 1 ==> KeyFits(d, op.key)) && (lo > 1 ==> SmallPair(d, KV(op.key, op.value)))
  }

  ghost predicate OpsFit(d: nat, lo: nat, ops: seq<Op>)
    requires d >= 2
  {
    forall i :: 0 <= i < |ops| ==> OpFits(d, lo, ops[i])
  }

  lemma UpsertRoomFor(o: Order, lo: nat, d: nat, s: seq<KV>, key: Key, value: Bytes)
    requires d >= 2 && RoomFor(lo, d, s) && OpFits(d, lo, PutOp(key, value))
    ensures RoomFor(lo, d, Upsert(o, s, key, value))
  {
    hide SmallPair, KeyFits, LowerBound;
  }

  lemma OpRoomFor(o: Order, lo: nat, d: nat, s: seq<KV>, op: Op)
    requires d >= 2 && RoomFor(lo, d, s) && OpFits(d, lo, op)
    ensures RoomFor(lo, d, ApplyOp(o, s, op))
  {
    hide RoomFor, OpFits, Upsert, Remove;
    match op
    case PutOp(key, value) => UpsertRoomFor(o, lo, d, s, key, value);
    case DeleteOp(key) => RemoveRoomFor(o, lo, d, s, key);
  }

  lemma {:induction false} ApplyRoomFor(o: Order, lo: nat, d: nat, s: seq<KV>, ops: seq<Op>)
    requires d >= 2 && RoomFor(lo, d, s) && OpsFit(d, lo, ops)
    ensures RoomFor(lo, d, Apply(o, s, ops))
  {
    hide RoomFor, OpFits, ApplyOp;
    if ops != [] {
      ApplyRoomFor(o, lo, d, s, ops[..|ops| - 1]);
      OpRoomFor(o, lo, d, Apply(o, s, ops[..|ops| - 1]), ops[|ops| - 1]);
    }
  }

  // Every key is within the bound under which no page overflows.
  ghost predicate Bounded(d: nat, s: seq<KV>, ops: seq<Op>)
    requires d >= 2
  {
    KeysFit(d, s) && OpsFit(d, 1, ops)
  }

  lemma BoundedNext(o: Order, d: nat, s: seq<KV>, ops: seq<Op>, i: nat)
    requires d >= 2 && i < |ops| && Bounded(d, s, ops)
    ensures KeysFit(d, Apply(o, s, ops[..i])) && (ops[i].PutOp? ==> KeyFits(d, ops[i].key))
  {
    hide KeyFits, Apply;
    assert ops[i].PutOp? ==> OpFits(d, 1, ops[i]);
    ApplyRoomForOne(o, d, s, ops[..i]);
  }

  lemma {:induction false} ApplyRoomForOne(o: Order, d: nat, s: seq<KV>, ops: seq<Op>)
    requires d >= 2 && KeysFit(d, s) && OpsFit(d, 1, ops)
    ensures KeysFit(d, Apply(o, s, ops))
  {
    hide KeysFit, KeyFits, Upsert, Remove;
    if ops != [] {
      var front, last := ops[..|ops| - 1], ops[|ops| - 1];
      ApplyRoomForOne(o, d, s, front);
      assert OpFits(d, 1, last);
      match last
      case PutOp(key, value) => UpsertKeysFit(o, d, Apply(o, s, front), key, value);
      case DeleteOp(key) => RemoveKeysFit(o, d, Apply(o, s, front), key);
    }
  }

  // ---- Rolling back ----

  // The store after restore. A memory tree gets its saved pages back; in a mapped file the
  // saved pages are views of bytes that the batch may have overwritten.
  function Restored(s: Store, pages: PageMap, mapped: bool): Store {
    s.(pages := if mapped then map x | x in s.pages :: if x in pages then pages[x] else s.pages[x] else s.pages)
  }

  // Rolling back undoes everything but bytes of pages nobody was using.
  ghost predicate RolledBack(s: Store, t: Store) {
    && t.nextPage == s.nextPage && t.free == s.free && t.retired == s.retired && t.pages.Keys == s.pages.Keys
    && (forall x :: x in s.pages && !Available(s, x) ==> t.pages[x] == s.pages[x])
  }

  lemma RestoredRollsBack(s: Store, t: Store, mapped: bool, revision: nat)
    requires Frame(s, t, {}, revision)
    ensures RolledBack(s, Restored(s, t.pages, mapped))
    ensures !mapped ==> Restored(s, t.pages, mapped) == s
    ensures s.limit == t.limit
  {
  }

  lemma RolledBackKeeps(o: Order, d: nat, first: PageId, s: Store, t: Store, root: PageId, shape: Option<Node>, h: nat,
          lo: nat, revision: nat, readers: map<nat, nat>, pins: map<nat, Pin>, lists: multiset<PageId>)
    requires RolledBack(s, t) && Owns(first, s, lists + LiveIds(shape)) && Spells(o, d, s.pages, root, shape, h, lo)
    requires Pinned(o, d, s, revision, readers, pins)
    ensures Owns(first, t, lists + LiveIds(shape)) && Spells(o, d, t.pages, root, shape, h, lo)
    ensures Pinned(o, d, t, revision, readers, pins)
    ensures Linked(s.pages, LeavesIn(shape)) ==> Linked(t.pages, LeavesIn(shape))
  {
    hide Spells, LeafIds, Ids, Upto, Counted;
    assert forall x :: x in t.pages ==> x in s.pages.Keys;
    forall x | x in LiveIds(shape) ensures x in s.pages ==> x in t.pages && t.pages[x] == s.pages[x] {
      LiveIsNotAvailable(first, s, lists + LiveIds(shape), x);
    }
    SpellsSame(o, d, s.pages, t.pages, root, shape, h, lo);
    forall k | k in pins ensures PinOk(o, d, t, revision, pins[k]) {
      RolledBackKeepsPin(o, d, s, t, revision, pins[k]);
    }
    LeavesAreLive(shape);
  }

  lemma RolledBackRetires(s: Store, t: Store)
    requires RolledBack(s, t)
    ensures t.retired == s.retired
  {
  }

  lemma RolledBackKeepsPin(o: Order, d: nat, s: Store, t: Store, revision: nat, p: Pin)
    requires RolledBack(s, t) && PinOk(o, d, s, revision, p)
    ensures PinOk(o, d, t, revision, p)
  {
    hide Spells, LiveIds;
  }

  lemma LeavesAreLive(shape: Option<Node>)
    ensures forall x :: x in LeavesIn(shape) ==> x in LiveIds(shape)
  {
    if shape.Some? {
      LeafIdsAmongIds(shape.value);
      forall x | x in LeavesIn(shape) ensures x in LiveIds(shape) {
        assert x in multiset(LeafIds(shape.value));
      }
    }
  }

  // ---- Committing ----

  lemma ApplyNext(o: Order, s: seq<KV>, ops: seq<Op>, i: nat)
    requires i < |ops|
    ensures Apply(o, s, ops[..i + 1]) == ApplyOp(o, Apply(o, s, ops[..i]), ops[i])
    ensures var previous := Lookup(o, Apply(o, s, ops[..i]), ops[i].key);
            Results(o, s, ops[..i + 1])
              == Results(o, s, ops[..i]) + [OpResult(ops[i], previous, ops[i].PutOp? || previous.Some?)]
  {
    assert ops[..i + 1][..i] == ops[..i];
  }

  lemma SomeChangedAppend(results: seq<OpResult>, r: OpResult)
    ensures SomeChanged(results + [r]) <==> SomeChanged(results) || r.changed
  {
    if SomeChanged(results) {
      var i :| 0 <= i < |results| && results[i].changed;
      assert (results + [r])[i].changed;
    }
    if r.changed {
      assert (results + [r])[|results|].changed;
    }
  }

  lemma StagedDegree(t: Tree, lo: nat)
    requires Staged(t, lo)
    ensures t.degree >= 2 && lo < t.degree
  {
    hide Owns, Spells, Pinned, PairsIn;
  }

  method StageOp(t: Tree, op: Op, ghost lo: nat) returns (r: Status, result: OpResult)
    requires Staged(t, lo) && t.degree >= 2 && RoomFor(lo, t.degree, Pairs(t)) && OpFits(t.degree, lo, op) && !t.closed
             && !t.readOnly
    modifies t`pages, t`nextPage, t`free, t`retired, t`reused, t`root, t`length, t`shape, t`height
    ensures Frame(old(t.State()), t.State(), {}, t.revision)
    ensures t.growLimit.None? && KeysFit(t.degree, old(Pairs(t))) && (op.PutOp? ==> KeyFits(t.degree, op.key)) ==>
              r.Done?
    ensures r.Done? ==>
              && Staged(t, lo) && RoomFor(lo, t.degree, Pairs(t))
              && Pairs(t) == ApplyOp(t.order, old(Pairs(t)), op)
              && var previous := Lookup(t.order, old(Pairs(t)), op.key);
                 result == OpResult(op, previous, op.PutOp? || previous.Some?)
    ensures r.Done? && op.PutOp? ==> Storable(op.key, op.value)
    ensures r.Done? && !result.changed ==>
              && t.State() == old(t.State()) && t.root == old(t.root) && t.length == old(t.length)
              && t.shape == old(t.shape) && t.height == old(t.height)
    // An operation that changes a tree with pages retires its root at least.
    ensures r.Done? && result.changed && old(Pairs(t)) != [] ==> |t.retired| > |old(t.retired)|
  {
    hide Staged, RoomFor, SmallPair, KeyFits, KeysFit, Upsert, Remove, Lookup, Frame, Flat;
    StagedDegree(t, lo);
    OpRoomFor(t.order, lo, t.degree, Pairs(t), op);
    ghost var before := Pairs(t);
    var previous, changed;
    match op
    case PutOp(key, value) =>
      r, previous, changed := PutStaged(t, key, value, lo);
      result := OpResult(op, previous, changed);
      if r.Done? {
        PutIsStorable(t, lo, before, key, value);
      }
    case DeleteOp(key) =>
      r, previous, changed := DeleteStaged(t, key, lo);
      result := OpResult(op, previous, changed);
  }

  // batchTreeState
  datatype BatchTreeState = BatchTreeState(store: Store, root: PageId, length: nat, reused: nat, revision: nat)

  function SaveBatchTreeState(t: Tree): BatchTreeState
    reads t
  {
    BatchTreeState(t.State(), t.root, t.length, t.reused, t.revision)
  }

  // What a commit of `ops` may do to a tree with these fields and this shape.
  ghost predicate CommitEffect(before: BatchTreeState, shape: Option<Node>, t: Tree, ops: seq<Op>, result: CommitResult)
    reads t
  {
    match result
    case Committed(changed, results) =>
      && Pairs(t) == Apply(t.order, PairsIn(shape), ops)
      && results == Results(t.order, PairsIn(shape), ops)
      && (changed <==> SomeChanged(results))
      && t.revision == before.revision + (if changed then 1 else 0)
    case Refused(_) =>
      && t.shape == shape && t.root == before.root && t.length == before.length && t.revision == before.revision
      && t.reused == before.reused
      && RolledBack(before.store, t.State())
      && (t.growLimit.None? ==> t.State() == before.store)
  }

  // How many of the operations change a tree that has pages.
  function RootCopies(o: Order, s: seq<KV>, ops: seq<Op>): nat {
    if ops == [] then 0
    else
      var before, last := Apply(o, s, ops[..|ops| - 1]), ops[|ops| - 1];
      RootCopies(o, s, ops[..|ops| - 1]) + if before != [] && (last.PutOp? || Lookup(o, before, last.key).Some?) then 1
        else 0
  }

  // The pages a batch retired, all at the revision it began at, and the root once for each
  // operation that found one; less those that no reader held back when it was published.
  ghost predicate RetiredBy(before: BatchTreeState, staged: seq<RetiredPage>, copies: nat, t: Tree)
    reads t
  {
    && before.store.retired <= staged && |staged| >= |before.store.retired| + copies
    && (forall i :: |before.store.retired| <= i < |staged| ==> staged[i].revision == before.revision)
    && t.retired == KeptPages(t.readers, t.scan, staged)
  }

  ghost predicate Retires(before: BatchTreeState, copies: nat, t: Tree)
    reads t
  {
    exists staged: seq<RetiredPage> :: RetiredBy(before, staged, copies, t)
  }

  // The least fill that is left when these operations have been applied to these pairs.
  ghost function FillAfterOps(d: nat, s: seq<KV>, ops: seq<Op>, lo: nat): nat
    requires d >= 2
  {
    if RoomFor(lo, d, s) && OpsFit(d, lo, ops) then lo
    else if lo >= 1 && RoomFor(1, d, s) && OpsFit(d, 1, ops) then 1
    else 0
  }

  // Some operation puts a pair that no tree can store.
  ghost predicate PutsUnstorable(ops: seq<Op>) {
    exists i :: 0 <= i < |ops| && ops[i].PutOp? && !Storable(ops[i].key, ops[i].value)
  }

  // Replay the operations, until one of them panics.
  method StageAll(t: Tree, ops: seq<Op>, ghost lo: nat) returns (r: Status, results: seq<OpResult>, changed: bool)
    requires Staged(t, lo) && t.degree >= 2 && RoomFor(lo, t.degree, Pairs(t)) && OpsFit(t.degree, lo, ops)
    requires !t.closed && !t.readOnly
    modifies t`pages, t`nextPage, t`free, t`retired, t`reused, t`root, t`length, t`shape, t`height
    ensures Frame(old(t.State()), t.State(), {}, t.revision)
    ensures t.growLimit.None? && Bounded(t.degree, old(Pairs(t)), ops) ==> r.Done?
    ensures PutsUnstorable(ops) ==> r.Panic?
    ensures r.Done? ==>
              && Staged(t, lo)
              && Pairs(t) == Apply(t.order, old(Pairs(t)), ops)
              && results == Results(t.order, old(Pairs(t)), ops)
              && (changed <==> SomeChanged(results))
              && (!changed ==> t.State() == old(t.State()) && t.shape == old(t.shape))
              && |t.retired| >= |old(t.retired)| + RootCopies(t.order, old(Pairs(t)), ops)
  {
    hide Staged, RoomFor, OpFits, OpsFit, Frame, Apply, ApplyOp, Results, SomeChanged, Pairs, Bounded, Storable,
      RootCopies, KeyFits, KeysFit, Lookup;
    ghost var s0, pairs0 := t.State(), Pairs(t);
    r, results, changed := Done, [], false;
    FrameReflexive(s0, t.revision);
    NothingApplied(t.order, pairs0);
    for i := 0 to |ops|
      invariant r.Done? && Staged(t, lo) && RoomFor(lo, t.degree, Pairs(t))
      invariant Frame(s0, t.State(), {}, t.revision)
      invariant Pairs(t) == Apply(t.order, pairs0, ops[..i])
      invariant results == Results(t.order, pairs0, ops[..i])
      invariant changed <==> SomeChanged(results)
      invariant !changed ==> t.State() == s0 && t.shape == old(t.shape)
      invariant forall j :: 0 <= j < i ==> !(ops[j].PutOp? && !Storable(ops[j].key, ops[j].value))
      invariant |t.retired| >= |s0.retired| + RootCopies(t.order, pairs0, ops[..i])
    {
      ghost var s1 := t.State();
      OpOf(t.degree, lo, ops, i);
      if Bounded(t.degree, pairs0, ops) {
        BoundedNext(t.order, t.degree, pairs0, ops, i);
      }
      var one;
      r, one := StageOp(t, ops[i], lo);
      FrameTransitive(s0, s1, t.State(), {}, {}, t.revision);
      if r.Panic? {
        return;
      }
      FrameUses(s1, t.State(), {}, t.revision);
      RootCopiesNext(t.order, pairs0, ops, i);
      ApplyNext(t.order, pairs0, ops, i);
      SomeChangedAppend(results, one);
      results := results + [one];
      changed := changed || one.changed;
    }
    assert ops[..|ops|] == ops;
  }

  // Publish the staged operations once, or restore the saved fields after a panic.
  method Replay(t: Tree, ops: seq<Op>, ghost lo: nat) returns (result: CommitResult)
    requires WellFormed(t, lo)
    requires !t.closed && !t.readOnly
    modifies t`pages, t`nextPage, t`free, t`retired, t`reused, t`root, t`length, t`revision, t`shape, t`height
    ensures WellFormed(t, if result.Committed? then old(FillAfterOps(t.degree, Pairs(t), ops, lo)) else lo)
    ensures CommitEffect(old(SaveBatchTreeState(t)), old(t.shape), t, ops, result)
    ensures result.Refused? ==> result.error.BatchPanicked?
    ensures t.growLimit.None? && Bounded(t.degree, old(Pairs(t)), ops) ==> result.Committed?
    ensures PutsUnstorable(ops) ==> result.Refused?
    ensures result.Committed? && result.changed ==>
              Retires(old(SaveBatchTreeState(t)), RootCopies(t.order, old(Pairs(t)), ops), t)
  {
    hide RoomFor, OpsFit, Spells, Pinned, Owns, Linked, Frame, Apply, Results, SomeChanged, RolledBack, PairsIn,
      LeavesIn, LiveIds, Current,
      Bounded, PutsUnstorable, RootCopies, Retires, Storable;
    var saved := SaveBatchTreeState(t);
    ghost var lo' := FillAfterOps(t.degree, Pairs(t), ops, lo);
    ghost var shape, height := t.shape, t.height;
    FillIsEnough(t, ops, lo);
    WellFormedWeaker(t, lo, lo');
    var r, results, changed := StageAll(t, ops, lo');
    if r.Panic? {
      Restore(t, saved, shape, height, lo);
      return Refused(BatchPanicked);
    }
    if changed {
      PublishBatch(t, saved, RootCopies(t.order, PairsIn(shape), ops), lo');
    }
    result := Committed(changed, results);
  }

  method PublishBatch(t: Tree, ghost before: BatchTreeState, ghost copies: nat, ghost lo: nat)
    requires Staged(t, lo) && !t.readOnly && t.revision == before.revision
             && Frame(before.store, t.State(), {}, t.revision)
    requires |t.retired| >= |before.store.retired| + copies
    modifies t`revision, t`free, t`retired, t`pages
    ensures WellFormed(t, lo) && t.revision == before.revision + 1
    ensures Retires(before, copies, t)
  {
    hide Staged, Frame, WellFormed, Reclaimed, KeptPages;
    ghost var staged := t.retired;
    FrameRetires(before.store, t.State(), t.revision);
    PublishStagedMutation(t, lo);
    ReclaimedKeeps(t);
    assert RetiredBy(before, staged, copies, t);
  }

  lemma NothingApplied(o: Order, s: seq<KV>)
    ensures Apply(o, s, []) == s && Results(o, s, []) == [] && !SomeChanged([]) && RootCopies(o, s, []) == 0
  {
  }

  lemma OpOf(d: nat, lo: nat, ops: seq<Op>, i: nat)
    requires d >= 2 && OpsFit(d, lo, ops) && i < |ops|
    ensures OpFits(d, lo, ops[i])
  {
  }

  lemma FillIsEnough(t: Tree, ops: seq<Op>, lo: nat)
    requires t.degree >= 2 && WellFormed(t, lo)
    ensures var lo' := FillAfterOps(t.degree, Pairs(t), ops, lo);
            lo' <= lo < t.degree && RoomFor(lo', t.degree, Pairs(t)) && OpsFit(t.degree, lo', ops)
  {
    hide Pairs, KeysFit;
    WellDegree(t, lo);
  }

  lemma RootCopiesNext(o: Order, s: seq<KV>, ops: seq<Op>, i: nat)
    requires i < |ops|
    ensures var before := Apply(o, s, ops[..i]);
            RootCopies(o, s, ops[..i + 1])
            == RootCopies(o, s, ops[..i]) + if before != [] && (ops[i].PutOp? || Lookup(o, before, ops[i].key).Some?)
              then 1 else 0
  {
    assert ops[..i + 1][..i] == ops[..i];
  }

  lemma FrameRetires(s: Store, t: Store, revision: nat)
    requires Frame(s, t, {}, revision)
    ensures s.retired <= t.retired && forall i :: |s.retired| <= i < |t.retired| ==> t.retired[i].revision == revision
  {
  }

  lemma ReclaimedKeeps(t: Tree)
    ensures forall s: Store :: Reclaimed(s, t.readers, t.scan).retired == KeptPages(t.readers, t.scan, s.retired)
  {
  }

  method RestoreStore(t: Tree, saved: Store)
    requires Frame(saved, t.State(), {}, t.revision)
    modifies t`pages, t`nextPage, t`free, t`retired
    ensures RolledBack(saved, t.State()) && (t.growLimit.None? ==> t.State() == saved)
    // In a mapped file the bytes stay as the batch left them.
    ensures t.growLimit.Some? ==>
              forall x :: x in saved.pages && x in old(t.pages) ==> x in t.pages && t.pages[x] == old(t.pages)[x]
  {
    hide Frame, RolledBack;
    RestoredRollsBack(saved, t.State(), t.growLimit.Some?, t.revision);
    var restored := Restored(saved, t.pages, t.growLimit.Some?);
    t.pages, t.nextPage, t.free, t.retired := restored.pages, restored.nextPage, restored.free, restored.retired;
  }

  // batchTreeState.restore
  method Restore(t: Tree, saved: BatchTreeState, ghost shape: Option<Node>, ghost height: nat, ghost lo: nat)
    requires t.degree >= 2 && lo < t.degree && saved.length == |PairsIn(shape)| && saved.revision == t.revision
    requires Owns(t.first, saved.store, t.listPages + LiveIds(shape))
    requires Spells(t.order, t.degree, saved.store.pages, saved.root, shape, height, lo)
    requires Pinned(t.order, t.degree, saved.store, t.revision, t.readers, t.pins)
    requires Current(t.revision, t.pins, shape) && RetiredUpTo(saved.store.retired, t.revision)
    requires forall k :: k in t.pins ==> k < t.tickets
    requires !t.closed && (t.readers == map[] || t.readOnly) ==> Linked(saved.store.pages, LeavesIn(shape))
    requires Frame(saved.store, t.State(), {}, t.revision)
    modifies t`pages, t`nextPage, t`free, t`retired, t`reused, t`root, t`length, t`shape, t`height
    ensures WellFormed(t, lo)
    ensures t.shape == shape && t.height == height && t.root == saved.root && t.length == saved.length
            && t.reused == saved.reused
    ensures RolledBack(saved.store, t.State()) && (t.growLimit.None? ==> t.State() == saved.store)
    ensures t.growLimit.Some? ==>
              forall x :: x in saved.store.pages && x in old(t.pages) ==> x in t.pages && t.pages[x] == old(t.pages)[x]
  {
    hide Owns, Spells, Pinned, Linked, Frame, RolledBack, PairsIn, LeavesIn, LiveIds, Current, Restored, Available,
      RetiredIds, Upto;
    RestoreStore(t, saved.store);
    t.root, t.length, t.reused := saved.root, saved.length, saved.reused;
    t.shape, t.height := shape, height;
    RestoredWell(t, saved.store, lo);
  }

  lemma RestoredWell(t: Tree, saved: Store, lo: nat)
    requires t.degree >= 2 && lo < t.degree && t.length == |PairsIn(t.shape)|
    requires Owns(t.first, saved, t.listPages + LiveIds(t.shape))
             && Spells(t.order, t.degree, saved.pages, t.root, t.shape, t.height, lo)
    requires Pinned(t.order, t.degree, saved, t.revision, t.readers, t.pins)
    requires Current(t.revision, t.pins, t.shape) && RetiredUpTo(saved.retired, t.revision)
    requires forall k :: k in t.pins ==> k < t.tickets
    requires !t.closed && (t.readers == map[] || t.readOnly) ==> Linked(saved.pages, LeavesIn(t.shape))
    requires RolledBack(saved, t.State())
    ensures WellFormed(t, lo)
  {
    hide Owns, Spells, Pinned, Linked, RolledBack, PairsIn, LeavesIn, LiveIds, Current;
    RolledBackKeeps(t.order, t.degree, t.first, saved, t.State(), t.root, t.shape, t.height, lo, t.revision, t.readers,
        t.pins, t.listPages);
    RolledBackRetires(saved, t.State());
  }

  // ---- The batch object ----

  class WriteBatch {
    const tree: Tree
    var ops: seq<Op>
    var closed: bool

    constructor (tree: Tree)
      ensures this.tree == tree && ops == [] && !closed
    {
      this.tree, ops, closed := tree, [], false;
    }

    method Put(key: Key, value: Bytes)
      modifies `ops
      ensures ops == if closed then old(ops) else old(ops) + [PutOp(key, value)]
    {
      if !closed {
        ops := ops + [PutOp(key, value)];
      }
    }

    method Delete(key: Key)
      modifies `ops
      ensures ops == if closed then old(ops) else old(ops) + [DeleteOp(key)]
    {
      if !closed {
        ops := ops + [DeleteOp(key)];
      }
    }

    method Rollback()
      modifies `ops, `closed
      ensures ops == [] && closed
    {
      ops, closed := [], true;
    }
  }

  function Deletes(s: seq<KV>): (r: seq<Op>)
    ensures |r| == |s|
  {
    seq(|s|, i requires 0 <= i < |s| => DeleteOp(s[i].key))
  }

  // DeleteRange: the bounds are compared as byte strings whatever the order of the tree.
  method DeleteRange(b: WriteBatch, start: Key, end: Key, ghost lo: nat)
    requires WellFormed(b.tree, lo)
    modifies b`ops
    ensures b.closed || b.tree.closed ==> b.ops == old(b.ops)
    ensures !b.closed && !b.tree.closed ==> b.ops == old(b.ops) + RangeDeletes(b.tree.order, Pairs(b.tree), start, end)
  {
    hide Within, WellFormed, Pairs, Visit, CompareBytewise;
    if b.closed || CompareBytewise(start, end) >= 0 {
      return;
    }
    var all: Visitor := seen => true;
    var pairs := RangeTree(b.tree, Some(start), Some(end), all, lo);
    AllVisited(all, Within(b.tree.order, Pairs(b.tree), Some(start), Some(end)));
    StageDeletes(b, pairs);
  }

  lemma AllVisited(all: Visitor, s: seq<KV>)
    requires forall seen :: all(seen)
    ensures Visit(all, [], s).0 == s
  {
    VisitSeesPrefix(all, [], s);
  }

  method StageDeletes(b: WriteBatch, pairs: seq<KV>)
    requires !b.closed
    modifies b`ops
    ensures b.ops == old(b.ops) + Deletes(pairs)
  {
    for i := 0 to |pairs|
      invariant b.ops == old(b.ops) + Deletes(pairs[..i])
    {
      assert Deletes(pairs[..i + 1]) == Deletes(pairs[..i]) + [DeleteOp(pairs[i].key)];
      b.Delete(pairs[i].key);
    }
    assert pairs[..|pairs|] == pairs;
  }

  function RangeDeletes(o: Order, s: seq<KV>, start: Key, end: Key): seq<Op> {
    if CompareBytewise(start, end) >= 0 then [] else Deletes(Within(o, s, Some(start), Some(end)))
  }

  // CommitDetailed
  method CommitDetailed(b: WriteBatch, ghost lo: nat) returns (result: CommitResult)
    requires WellFormed(b.tree, lo)
    modifies b`ops, b`closed, b.tree`pages, b.tree`nextPage, b.tree`free, b.tree`retired, b.tree`reused
    modifies b.tree`root, b.tree`length, b.tree`revision, b.tree`shape, b.tree`height
    ensures b.closed && b.ops == []
    ensures WellFormed(b.tree, if result.Committed? then old(FillAfterOps(b.tree.degree, Pairs(b.tree), b.ops, lo))
                       else lo)
    ensures old(b.closed) <==> result == Refused(BatchClosed)
    ensures result == Refused(TreeClosed) <==> !old(b.closed) && b.tree.closed
    ensures result == Refused(ReadOnly) <==> !old(b.closed) && !b.tree.closed && b.tree.readOnly
    // A page overflows, or the file cannot grow: in memory, only with keys past the bound,
    // and always with a pair that is not storable.
    ensures result == Refused(BatchPanicked) ==>
              b.tree.growLimit.Some? || !Bounded(b.tree.degree, old(Pairs(b.tree)), old(b.ops))
    ensures !old(b.closed) && !b.tree.closed && !b.tree.readOnly && PutsUnstorable(old(b.ops)) ==>
              result == Refused(BatchPanicked)
    ensures result != Refused(TxConflict)
    ensures CommitEffect(old(SaveBatchTreeState(b.tree)), old(b.tree.shape), b.tree, old(b.ops), result)
    ensures result.Committed? && result.changed ==>
              Retires(old(SaveBatchTreeState(b.tree)), RootCopies(b.tree.order, old(Pairs(b.tree)), old(b.ops)), b.tree)
    // All or nothing: the operations in order, in one revision if any of them changed anything.
    ensures result.Committed? ==>
              && MapOf(Pairs(b.tree)) == ApplyToMap(old(MapOf(Pairs(b.tree))), old(b.ops))
              && b.tree.revision == old(b.tree.revision) + (if result.changed then 1 else 0)
              && (result.changed <==> exists r :: r in result.operations && r.changed)
              && |result.operations| == |old(b.ops)|
    ensures result.Committed? ==>
              forall i :: 0 <= i < |result.operations| ==>
                var seen := ApplyToMap(old(MapOf(Pairs(b.tree))), old(b.ops)[..i]);
                && result.operations[i].op == old(b.ops)[i]
                && result.operations[i].oldValue ==
                (if old(b.ops)[i].key in seen then Some(seen[old(b.ops)[i].key]) else None)
                && (result.operations[i].changed <==> old(b.ops)[i].PutOp? || old(b.ops)[i].key in seen)
    ensures result.Refused? ==>
              && b.tree.root == old(b.tree.root) && b.tree.length == old(b.tree.length)
              && b.tree.revision == old(b.tree.revision) && b.tree.nextPage == old(b.tree.nextPage)
              && b.tree.free == old(b.tree.free) && b.tree.retired == old(b.tree.retired)
              && b.tree.shape == old(b.tree.shape)
  {
    hide WellFormed, RoomFor, OpsFit, CommitEffect, Pairs, Bounded, Retires, RootCopies, Storable, MapOf, ApplyToMap;
    ghost var before, shape := SaveBatchTreeState(b.tree), b.tree.shape;
    WellSorted(b.tree, lo);
    WellDegree(b.tree, lo);
    FillIsEnough(b.tree, b.ops, lo);
    WellFormedWeaker(b.tree, lo, FillAfterOps(b.tree.degree, Pairs(b.tree), b.ops, lo));
    var ops, wasClosed := b.ops, b.closed;
    b.ops, b.closed := [], true;
    RefusalChangesNothing(b.tree);
    EmptyCommit(b.tree);
    if wasClosed {
      result := Refused(BatchClosed);
    } else if b.tree.closed {
      result := Refused(TreeClosed);
    } else if b.tree.readOnly {
      result := Refused(ReadOnly);
    } else if |ops| == 0 {
      result := Committed(false, []);
    } else {
      result := Replay(b.tree, ops, lo);
    }
    CommitMeans(before, shape, b.tree, ops, result);
  }

  lemma WellSorted(t: Tree, lo: nat)
    requires WellFormed(t, lo)
    ensures Sorted(t.order, PairsIn(t.shape)) && Pairs(t) == PairsIn(t.shape)
  {
    hide Staged, Linked, SortedKeys;
    PairsSorted(t, lo);
  }

  lemma {:induction false} ResultAt(o: Order, s: seq<KV>, ops: seq<Op>, i: nat)
    requires i < |ops|
    ensures var previous := Lookup(o, Apply(o, s, ops[..i]), ops[i].key);
            Results(o, s, ops)[i] == OpResult(ops[i], previous, ops[i].PutOp? || previous.Some?)
    decreases |ops|
  {
    hide Lookup;
    var front := ops[..|ops| - 1];
    if i < |front| {
      ResultAt(o, s, front, i);
      assert front[..i] == ops[..i];
    }
  }

  lemma CommitMeans(before: BatchTreeState, shape: Option<Node>, t: Tree, ops: seq<Op>, result: CommitResult)
    requires CommitEffect(before, shape, t, ops, result) && Sorted(t.order, PairsIn(shape))
    ensures result.Committed? ==>
              && MapOf(Pairs(t)) == ApplyToMap(MapOf(PairsIn(shape)), ops)
              && t.revision == before.revision + (if result.changed then 1 else 0)
              && (result.changed <==> exists r :: r in result.operations && r.changed)
              && |result.operations| == |ops|
    ensures result.Committed? ==>
              forall i :: 0 <= i < |result.operations| ==>
                var seen := ApplyToMap(MapOf(PairsIn(shape)), ops[..i]);
                && result.operations[i].op == ops[i]
                && result.operations[i].oldValue == (if ops[i].key in seen then Some(seen[ops[i].key]) else None)
                && (result.operations[i].changed <==> ops[i].PutOp? || ops[i].key in seen)
    ensures result.Refused? ==>
              && t.root == before.root && t.length == before.length && t.revision == before.revision
              && t.nextPage == before.store.nextPage && t.free == before.store.free
              && t.retired == before.store.retired && t.shape == shape
  {
    hide MapOf, ApplyToMap, Apply, Results, PairsIn, SortedKeys, Lookup;
    if result.Committed? {
      var s := PairsIn(shape);
      ApplyIsMapFold(t.order, s, ops);
      forall i | 0 <= i < |ops|
        ensures var seen := ApplyToMap(MapOf(s), ops[..i]);
                && result.operations[i].op == ops[i]
                && result.operations[i].oldValue == (if ops[i].key in seen then Some(seen[ops[i].key]) else None)
                && (result.operations[i].changed <==> ops[i].PutOp? || ops[i].key in seen)
      {
        ResultAt(t.order, s, ops, i);
        ApplyIsMapFold(t.order, s, ops[..i]);
        LookupIsMapLookup(t.order, Apply(t.order, s, ops[..i]), ops[i].key);
      }
    }
  }

  lemma RefusalChangesNothing(t: Tree)
    ensures forall ops, e: CommitError :: CommitEffect(SaveBatchTreeState(t), t.shape, t, ops, Refused(e))
  {
  }

  lemma EmptyCommit(t: Tree)
    ensures CommitEffect(SaveBatchTreeState(t), t.shape, t, [], Committed(false, []))
  {
    NothingApplied(t.order, Pairs(t));
  }

  // ---- The map a batch leaves ----

  function ApplyToMap(m: map<Key, Bytes>, ops: seq<Op>): map<Key, Bytes> {
    if ops == [] then m
    else
      var before := ApplyToMap(m, ops[..|ops| - 1]);
      match ops[|ops| - 1]
      case PutOp(key, value) => before[key := value]
      case DeleteOp(key) => before - {key}
  }

  // Committing a batch applies its operations to the map in the order they were staged.
  lemma {:induction false} ApplyIsMapFold(o: Order, s: seq<KV>, ops: seq<Op>)
    requires Sorted(o, s)
    ensures Sorted(o, Apply(o, s, ops)) && MapOf(Apply(o, s, ops)) == ApplyToMap(MapOf(s), ops)
  {
    hide SortedKeys, MapOf, Upsert, Remove;
    if ops != [] {
      var front, last := ops[..|ops| - 1], ops[|ops| - 1];
      ApplyIsMapFold(o, s, front);
      var t := Apply(o, s, front);
      match last
      case PutOp(key, value) =>
        UpsertSorted(o, t, key, value);
        UpsertIsMapUpdate(o, t, key, value);
      case DeleteOp(key) =>
        RemoveSorted(o, t, key);
        RemoveIsMapRemoval(o, t, key);
    }
  }

  lemma {:induction false} DeletesRemoveKeys(m: map<Key, Bytes>, s: seq<KV>)
    ensures ApplyToMap(m, Deletes(s)) == m - set kv | kv in s :: kv.key
  {
    if s != [] {
      var front, last := s[..|s| - 1], s[|s| - 1];
      DeletesRemoveKeys(m, front);
      assert Deletes(s)[..|s| - 1] == Deletes(front);
      assert s == front + [last];
      assert (set kv | kv in s :: kv.key) == (set kv | kv in front :: kv.key) + {last.key};
    } else {
      assert (set kv | kv in s :: kv.key) == {};
    }
  }

  // A committed DeleteRange leaves exactly the pairs whose keys are outside the range.
  lemma DeleteRangeClears(o: Order, s: seq<KV>, start: Key, end: Key)
    requires Sorted(o, s)
    ensures var m := MapOf(Apply(o, s, Deletes(Within(o, s, Some(start), Some(end)))));
            m == map k | k in MapOf(s) && !InRange(o, k, Some(start), Some(end)) :: MapOf(s)[k]
  {
    hide SortedKeys, MapOf, Apply, Lt;
    var gone := Within(o, s, Some(start), Some(end));
    ApplyIsMapFold(o, s, Deletes(gone));
    DeletesRemoveKeys(MapOf(s), gone);
    MapOfRepresents(o, s);
    forall k | k in MapOf(s) ensures InRange(o, k, Some(start), Some(end)) <==> k in set kv | kv in gone :: kv.key {
      var i :| 0 <= i < |s| && Keys(s)[i] == k;
      WithinExact(o, s, Some(start), Some(end), s[i]);
      forall kv | kv in gone && kv.key == k ensures InRange(o, k, Some(start), Some(end)) {
        WithinExact(o, s, Some(start), Some(end), kv);
      }
    }
  }

  // Because the bounds are compared bytewise, a committed DeleteRange clears the range if
  // and only if start sorts before end as a byte string or the range held nothing.
  lemma DeleteRangeClearsIff(o: Order, s: seq<KV>, start: Key, end: Key)
    requires Sorted(o, s)
    ensures Within(o, Apply(o, s, RangeDeletes(o, s, start, end)), Some(start), Some(end)) == []
            <==> CompareBytewise(start, end) < 0 || Within(o, s, Some(start), Some(end)) == []
  {
    hide SortedKeys, MapOf, Lt, Within, Apply;
    NothingApplied(o, s);
    if CompareBytewise(start, end) < 0 {
      DeleteRangeClears(o, s, start, end);
      var t := Apply(o, s, Deletes(Within(o, s, Some(start), Some(end))));
      ApplyIsMapFold(o, s, Deletes(Within(o, s, Some(start), Some(end))));
      MapOfRepresents(o, t);
      forall i | 0 <= i < |t| ensures !InRange(o, t[i].key, Some(start), Some(end)) {
        assert t[i].key in MapOf(t);
      }
      WithinNone(o, t, Some(start), Some(end));
    }
  }

  // A tree in reverse order holds a pair in the range from [2] down to [1], and DeleteRange
  // stages nothing.
  lemma DeleteRangeMissesInReverse()
    ensures IsStrictTotalOrder(Reverse)
    ensures var held := [KV([2], [])];
            Within(Reverse, held, Some([2]), Some([1])) == held && RangeDeletes(Reverse, held, [2], [1]) == []
  {
    PersistedOrdersAreStrict();
    assert Reverse.compare([2], [2]) == 0 && Reverse.compare([2], [1]) == -1;
  }
}
