// Values too large for a leaf cell, kept in chains of overflow pages (pagebtree/overflow.go).

module Overflow {
  import opened KeyOrder
  import opened Contents
  import opened Pages
  import opened Nodes
  import opened Trees

  // ---- Chains, chunk by chunk ----

  // The i-th page of the chain that stores `value`.
  function ChunkPage(ids: seq<PageId>, value: Bytes, i: nat): Page
    requires i < |ids| && i * OVERFLOW_PAYLOAD_SIZE <= |value|
  {
    var start := i * OVERFLOW_PAYLOAD_SIZE;
    var end := if start + OVERFLOW_PAYLOAD_SIZE > |value| then |value| else start + OVERFLOW_PAYLOAD_SIZE;
    OverflowPage(if i + 1 < |ids| then ids[i + 1] else 0, value[start..end])
  }

  ghost predicate HoldsChunks(pages: PageMap, ids: seq<PageId>, value: Bytes, upTo: nat)
    requires upTo <= |ids| == (|value| + OVERFLOW_PAYLOAD_SIZE - 1) / OVERFLOW_PAYLOAD_SIZE
  {
    forall j :: 0 <= j < upTo ==> ids[j] in pages && pages[ids[j]] == ChunkPage(ids, value, j)
  }

  // Where the i-th piece begins, or the value ends.
  function PieceStart(count: nat, length: nat, i: nat): nat {
    if i < count then i * OVERFLOW_PAYLOAD_SIZE else length
  }

  lemma PieceOf(ids: seq<PageId>, value: Bytes, i: nat)
    requires i < |ids| == (|value| + OVERFLOW_PAYLOAD_SIZE - 1) / OVERFLOW_PAYLOAD_SIZE
    ensures i * OVERFLOW_PAYLOAD_SIZE <= |value|
    ensures var from, to := PieceStart(|ids|, |value|, i), PieceStart(|ids|, |value|, i + 1);
            && from <= to <= |value| && to - from <= OVERFLOW_PAYLOAD_SIZE
            && ChunkPage(ids, value, i) == OverflowPage(NextOf(ids, i), value[from..to])
  {
  }

  lemma {:induction false} ChunksFormChain(pages: PageMap, ids: seq<PageId>, value: Bytes, i: nat)
    requires |ids| == (|value| + OVERFLOW_PAYLOAD_SIZE - 1) / OVERFLOW_PAYLOAD_SIZE
    requires HoldsChunks(pages, ids, value, |ids|)
    requires forall j :: 0 <= j < |ids| ==> ids[j] != 0
    requires i <= |ids|
    ensures PieceStart(|ids|, |value|, i) <= |value|
    ensures ChainRep(pages, ids[i..], value[PieceStart(|ids|, |value|, i)..])
    decreases |ids| - i
  {
    hide ChunkPage, PieceStart;
    if i < |ids| {
      ChunksFormChain(pages, ids, value, i + 1);
      PieceOf(ids, value, i);
      var from, to := PieceStart(|ids|, |value|, i), PieceStart(|ids|, |value|, i + 1);
      assert value[from..][to - from..] == value[to..] && value[from..to] == value[from..][..to - from];
      assert ids[i..][1..] == ids[i + 1..];
    } else {
      PiecesEnd(|ids|, |value|);
      assert value[|value|..] == [] && ids[i..] == [];
    }
  }

  lemma PiecesEnd(count: nat, length: nat)
    ensures PieceStart(count, length, count) == length
    ensures count == (length + OVERFLOW_PAYLOAD_SIZE - 1) / OVERFLOW_PAYLOAD_SIZE ==> PieceStart(count, length, 0) == 0
  {
  }

  // Live ids listed in a sequence are pairwise distinct and not zero.
  lemma LiveSeqDistinct(first: PageId, s: Store, live: multiset<PageId>, ids: seq<PageId>)
    requires Owns(first, s, live + multiset(ids))
    ensures forall i, j :: 0 <= i < j < |ids| ==> ids[i] != ids[j]
    ensures forall i :: 0 <= i < |ids| ==> ids[i] != 0
  {
    forall i | 0 <= i < |ids| ensures ids[i] != 0 && forall j :: i < j < |ids| ==> ids[i] != ids[j] {
      LiveIsNotAvailable(first, s, live + multiset(ids), ids[i]);
      assert ids == ids[..i] + [ids[i]] + ids[i + 1..];
      assert multiset(ids) == multiset(ids[..i]) + multiset{ids[i]} + multiset(ids[i + 1..]);
      forall j | i < j < |ids| ensures ids[i] != ids[j] {
        assert ids[j] in ids[i + 1..];
      }
    }
  }

  method WriteOverflowChain(t: Tree, value: Bytes, ghost live: multiset<PageId>)
    returns (r: Status, head: PageId, ghost chain: seq<PageId>)
    requires Owns(t.first, t.State(), live)
    modifies t`pages, t`nextPage, t`free, t`reused
    ensures Frame(old(t.State()), t.State(), {}, t.revision)
    ensures r.Done? ==>
              && Owns(t.first, t.State(), live + multiset(chain))
              && chain != [] && head == chain[0]
              && ChainRep(t.pages, chain, value)
              && |chain| == (|value| + OVERFLOW_PAYLOAD_SIZE - 1) / OVERFLOW_PAYLOAD_SIZE
    // There is no first page to refer to for an empty value.
    ensures value == [] ==> r.Panic?
    ensures r.Panic? ==> t.growLimit.Some? || value == []
  {
    hide Owns, Frame, ChainRep, HoldsChunks, ChunkPage;
    var ids;
    r, ids := AllocChain(t, (|value| + OVERFLOW_PAYLOAD_SIZE - 1) / OVERFLOW_PAYLOAD_SIZE, live);
    if r.Panic? {
      return r, 0, [];
    }
    WriteChunks(t, ids, value, live, old(t.State()));
    LiveSeqDistinct(t.first, t.State(), live, ids);
    ChunksFormChain(t.pages, ids, value, 0);
    PiecesEnd(|ids|, |value|);
    assert ids[0..] == ids && value[0..] == value;
    if |ids| == 0 {
      return Panic, 0, [];
    }
    return Done, ids[0], ids;
  }

  method AllocChain(t: Tree, count: nat, ghost live: multiset<PageId>) returns (r: Status, ids: seq<PageId>)
    requires Owns(t.first, t.State(), live)
    modifies t`nextPage, t`free, t`reused
    ensures Frame(old(t.State()), t.State(), {}, t.revision)
    ensures r.Done? ==>
              && |ids| == count
              && Owns(t.first, t.State(), live + multiset(ids))
              && (forall x :: x in ids ==> Available(old(t.State()), x))
    ensures r.Panic? ==> t.growLimit.Some?
  {
    hide Owns, Frame;
    ghost var s0 := t.State();
    FrameReflexive(s0, t.revision);
    ids := [];
    assert live + multiset(ids) == live;
    for i := 0 to count
      invariant |ids| == i
      invariant Frame(s0, t.State(), {}, t.revision)
      invariant Owns(t.first, t.State(), live + multiset(ids))
      invariant forall x :: x in ids ==> Available(s0, x)
    {
      ghost var s1 := t.State();
      var id;
      r, id := t.AllocPage(live + multiset(ids));
      FrameTransitive(s0, s1, t.State(), {}, {}, t.revision);
      if r.Panic? {
        return;
      }
      AvailableBack(s0, s1, id, t.revision);
      assert live + multiset(ids) + multiset{id} == live + multiset(ids + [id]);
      ids := ids + [id];
    }
    r := Done;
  }

  method WriteChunks(t: Tree, ids: seq<PageId>, value: Bytes, ghost live: multiset<PageId>, ghost s0: Store)
    requires |ids| == (|value| + OVERFLOW_PAYLOAD_SIZE - 1) / OVERFLOW_PAYLOAD_SIZE
    requires Owns(t.first, t.State(), live + multiset(ids))
    requires Frame(s0, t.State(), {}, t.revision) && forall x :: x in ids ==> Available(s0, x)
    modifies t`pages
    ensures Owns(t.first, t.State(), live + multiset(ids))
    ensures Frame(s0, t.State(), {}, t.revision)
    ensures HoldsChunks(t.pages, ids, value, |ids|)
  {
    hide Owns, Frame, ChunkPage;
    for i := 0 to |ids|
      invariant Owns(t.first, t.State(), live + multiset(ids))
      invariant Frame(s0, t.State(), {}, t.revision)
      invariant HoldsChunks(t.pages, ids, value, i)
    {
      ghost var s1 := t.State();
      LiveSeqDistinct(t.first, s1, live, ids);
      assert ids[i] in multiset(ids);
      t.WritePage(ids[i], ChunkPage(ids, value, i), live + multiset(ids));
      FrameTransitive(s0, s1, t.State(), {}, {ids[i]}, t.revision);
    }
  }

  // readOverflowChain: at most `length` bytes of what the chain holds.
  method ReadOverflowChain(pages: PageMap, head: PageId, length: nat, ghost chain: seq<PageId>, ghost held: Bytes)
    returns (out: Bytes)
    requires chain != [] && head == chain[0]
    requires ChainRep(pages, chain, held)
    ensures out == if length < |held| then held[..length] else held
  {
    out := [];
    var id := head;
    ghost var todo := chain;
    while id != 0
      invariant |out| <= |held| && out == held[..|out|]
      invariant ChainRep(pages, todo, held[|out|..])
      invariant id == if todo == [] then 0 else todo[0]
      decreases |todo|
    {
      var p := pages[id];
      assert held[|out|..][|p.payload|..] == held[|out| + |p.payload|..];
      out := out + p.payload;
      id := p.follow;
      todo := todo[1..];
    }
    if |out| > length {
      out := out[..length];
    }
  }

  // resolveLeafValue
  method ResolveValue(pages: PageMap, cell: Cell, ghost slot: Slot) returns (value: Bytes)
    requires cell == CellOf(slot) && ValueRep(pages, slot)
    ensures value == slot.kv.value
  {
    match cell
    case Inline(bytes) => value := bytes;
    case Ref(head, length) => value := ReadOverflowChain(pages, head, length, slot.chain, slot.kv.value);
  }

  // retireOverflowValue
  method RetireOverflowValue(t: Tree, cell: Cell, ghost slot: Slot, ghost live: multiset<PageId>)
    requires cell == CellOf(slot) && SlotRep(t.pages, slot)
    requires Owns(t.first, t.State(), live + multiset(slot.chain))
    modifies t`retired
    ensures Owns(t.first, t.State(), live)
    ensures Frame(old(t.State()), t.State(), {}, t.revision)
  {
    hide Owns, Frame;
    ghost var s0 := t.State();
    FrameReflexive(s0, t.revision);
    if cell.Ref? {
      var id := cell.first;
      ghost var todo, bytes := slot.chain, slot.kv.value;
      while id != 0
        invariant ChainRep(t.pages, todo, bytes)
        invariant id == if todo == [] then 0 else todo[0]
        invariant Owns(t.first, t.State(), live + multiset(todo))
        invariant Frame(s0, t.State(), {}, t.revision)
        decreases |todo|
      {
        var p := t.pages[id];
        var next := p.follow;
        assert todo == [id] + todo[1..];
        assert live + multiset(todo) == live + multiset(todo[1..]) + multiset{id};
        ghost var s1 := t.State();
        t.RetirePage(id, live + multiset(todo[1..]));
        FrameTransitive(s0, s1, t.State(), {}, {}, t.revision);
        bytes := bytes[|p.payload|..];
        todo := todo[1..];
        id := next;
      }
      assert live + multiset(todo) == live;
    } else {
      assert live + multiset(slot.chain) == live;
    }
  }
}
