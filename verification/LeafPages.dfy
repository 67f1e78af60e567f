// Encoding leaf entries into a page, spilling values to overflow pages until the page
// fits (writeLeafEntries in pagebtree/insert.go).

module LeafPages {
  import opened KeyOrder
  import opened Contents
  import opened Pages
  import opened Nodes
  import opened Splits
  import opened Trees
  import opened Overflow

  // `s` is what `e` stands for; a value still to be encoded has no chain yet.
  ghost predicate Matches(pages: PageMap, e: LeafEntry, s: Slot) {
    && e.key == s.kv.key
    && match e.body
       case Raw(value) => value == s.kv.value && s.chain == []
       case Encoded(cell) => cell == CellOf(s) && SlotRep(pages, s)
  }

  ghost predicate MatchesAll(pages: PageMap, entries: seq<LeafEntry>, slots: seq<Slot>) {
    && |entries| == |slots|
    && (forall i :: 0 <= i < |entries| ==> Matches(pages, entries[i], slots[i]))
  }

  // page.leafEntries
  function Loaded(entries: seq<Entry>): (r: seq<LeafEntry>)
    ensures |r| == |entries|
  {
    seq(|entries|, i requires 0 <= i < |entries| => LeafEntry(entries[i].key, Encoded(entries[i].cell)))
  }

  lemma LoadedMatches(pages: PageMap, slots: seq<Slot>)
    requires SlotsRep(pages, slots)
    ensures MatchesAll(pages, Loaded(EntriesOf(slots)), slots)
  {
  }

  lemma MatchesSame(p: PageMap, q: PageMap, entries: seq<LeafEntry>, slots: seq<Slot>)
    requires MatchesAll(p, entries, slots) && SameData(p, q, ChainIds(slots))
    ensures MatchesAll(q, entries, slots)
  {
    forall i | 0 <= i < |slots| ensures Matches(q, entries[i], slots[i]) {
      ChainIdsAround(slots, i);
      if slots[i].chain != [] {
        ChainRepSame(p, q, slots[i].chain, slots[i].kv.value);
      }
    }
  }

  lemma SlotsRepConcat(pages: PageMap, a: seq<Slot>, b: seq<Slot>)
    ensures SlotsRep(pages, a + b) <==> SlotsRep(pages, a) && SlotsRep(pages, b)
  {
    if SlotsRep(pages, a + b) {
      assert forall i :: 0 <= i < |a| ==> (a + b)[i] == a[i];
      assert forall i :: 0 <= i < |b| ==> (a + b)[|a| + i] == b[i];
    }
  }

  // A value still to be encoded goes to a chain exactly if it is large; a cell read back from
  // a page stays as it is.
  ghost predicate Encodes(e: LeafEntry, s: Slot, slot: Slot) {
    && slot.kv == s.kv
    && match e.body
       case Raw(value) => slot.chain != [] <==> StoresOverflow(e.key, value)
       case Encoded(_) => slot == s
  }

  // ---- Which entries a page takes ----

  // The cell that encoding makes of an entry; where a chain will begin is left open.
  function PlannedCell(e: LeafEntry): Entry {
    match e.body
    case Raw(value) => Entry(e.key, if StoresOverflow(e.key, value) then Ref(0, |value|) else Inline(value))
    case Encoded(cell) => Entry(e.key, cell)
  }

  function Planned(entries: seq<LeafEntry>): (r: seq<Entry>)
    ensures |r| == |entries|
  {
    seq(|entries|, i requires 0 <= i < |entries| => PlannedCell(entries[i]))
  }

  // The same cell, except for where a chain begins.
  predicate SameCell(a: Entry, b: Entry) {
    a.key == b.key && (a.cell.Inline? <==> b.cell.Inline?) && (a.cell.Inline? ==> a == b)
  }

  // An empty value beside a key that is too large for it to stay inline.
  predicate EmptyToChain(e: LeafEntry) {
    e.body == Raw([]) && StoresOverflow(e.key, [])
  }

  // The inline cell at i goes to a chain before the one at k does; k == |cells| is the end.
  predicate SpillsBefore(cells: seq<Entry>, i: nat, k: nat)
    requires i < |cells| && k <= |cells|
  {
    && cells[i].cell.Inline?
    && (k == |cells| || EntryBytes(cells[i]) > EntryBytes(cells[k])
        || (EntryBytes(cells[i]) == EntryBytes(cells[k]) && i < k))
  }

  function SpilledUpTo(cells: seq<Entry>, k: nat): (r: seq<Entry>)
    requires k <= |cells|
    ensures |r| == |cells|
  {
    seq(|cells|, i requires 0 <= i < |cells| =>
          if SpillsBefore(cells, i, k) then Entry(cells[i].key, Ref(0, |cells[i].cell.bytes|)) else cells[i])
  }

  // When the inline cell at k is the next one to go, or none is left, the page takes the
  // cells, and none that went before was empty.
  ghost predicate FitsAt(cells: seq<Entry>, k: nat)
    requires k <= |cells|
  {
    && (k < |cells| ==> cells[k].cell.Inline?)
    && (forall i :: 0 <= i < |cells| && SpillsBefore(cells, i, k) ==> cells[i].cell.bytes != [])
    && LeafBytes(SpilledUpTo(cells, k)) <= PAGE_SIZE
  }

  // In memory exactly these entries can be written to a leaf: no empty value is large with
  // its key, and sending the largest inline values to chains makes room before the turn of an
  // empty one. A value of less than 20 bytes makes the leaf larger when it goes, so that the
  // page may take the cells at some turn and not at a later one.
  ghost predicate LeafTakes(entries: seq<LeafEntry>) {
    && (forall i :: 0 <= i < |entries| ==> !EmptyToChain(entries[i]))
    && exists k :: 0 <= k <= |entries| && FitsAt(Planned(entries), k)
  }

  // A single pair can be written exactly if it is storable.
  lemma OnePairTaken(key: Key, value: Bytes)
    ensures LeafTakes([LeafEntry(key, Raw(value))]) <==> Storable(key, value)
  {
    var e := LeafEntry(key, Raw(value));
    var cell := PlannedCell(e);
    assert Planned([e]) == [cell];
    assert [e][0] == e;
    OneCellBytes(cell);
    OneCellBytes(Entry(key, Ref(0, |value|)));
    if cell.cell.Inline? {
      assert !SpillsBefore([cell], 0, 0) && SpilledUpTo([cell], 0) == [cell];
      assert FitsAt(Planned([e]), 0);
    } else {
      assert !SpillsBefore([cell], 0, 1) && SpilledUpTo([cell], 1) == [cell];
      assert FitsAt(Planned([e]), 1) <==> LeafBytes([cell]) <= PAGE_SIZE;
    }
  }

  lemma OneCellBytes(e: Entry)
    ensures LeafBytes([e]) == PAGE_HEADER_SIZE + EntryBytes(e)
  {
    assert [e][..0] == [];
    assert SumEntryBytes([e]) == SumEntryBytes([]) + EntryBytes(e);
  }

  // `cells` is what spilling has made of the planned cells, largest first: no page took what
  // was left at any earlier turn, and no empty value has gone.
  ghost predicate Spilling(planned: seq<Entry>, cells: seq<Entry>) {
    && |cells| == |planned|
    && (forall i :: 0 <= i < |cells| ==> cells[i].key == planned[i].key)
    && (forall i :: 0 <= i < |cells| && cells[i].cell.Inline? ==> cells[i] == planned[i])
    && (forall i, j :: 0 <= i < |cells| && 0 <= j < |cells| && Gone(planned, cells, i) && cells[j].cell.Inline? ==>
          SpillsBefore(planned, i, j))
    && (forall i :: 0 <= i < |cells| && Gone(planned, cells, i) ==> planned[i].cell.bytes != [] && !FitsAt(planned, i))
  }

  predicate Gone(planned: seq<Entry>, cells: seq<Entry>, i: nat)
    requires i < |cells| == |planned|
  {
    planned[i].cell.Inline? && cells[i].cell.Ref?
  }

  // The cell at k is the next to go, or none is left.
  ghost predicate IsNext(cells: seq<Entry>, k: nat) {
    if k < |cells| then IsLargestInline(cells, k)
    else k == |cells| && forall i :: 0 <= i < |cells| ==> cells[i].cell.Ref?
  }

  lemma {:induction false} NextExists(cells: seq<Entry>) returns (k: nat)
    ensures k <= |cells| && IsNext(cells, k)
  {
    if cells == [] {
      return 0;
    }
    var last := |cells| - 1;
    var front := cells[..last];
    k := NextExists(front);
    if k == last {
      if cells[last].cell.Ref? {
        k := |cells|;
      }
    } else if cells[last].cell.Inline? && EntryBytes(cells[last]) > EntryBytes(cells[k]) {
      k := last;
    }
  }

  lemma {:induction false} SameSizes(a: seq<Entry>, b: seq<Entry>)
    requires |a| == |b| && forall i :: 0 <= i < |a| ==> EntryBytes(a[i]) == EntryBytes(b[i])
    ensures SumEntryBytes(a) == SumEntryBytes(b)
  {
    if a != [] {
      SameSizes(a[..|a| - 1], b[..|b| - 1]);
    }
  }

  lemma SpillingStart(planned: seq<Entry>, cells: seq<Entry>)
    requires |cells| == |planned| && forall i :: 0 <= i < |cells| ==> SameCell(planned[i], cells[i])
    ensures Spilling(planned, cells)
  {
  }

  // What is on the page at a turn is what the plan says for it.
  lemma SpillingTurn(planned: seq<Entry>, cells: seq<Entry>, k: nat)
    requires Spilling(planned, cells) && IsNext(cells, k)
    ensures k <= |planned| && (FitsAt(planned, k) <==> LeafBytes(cells) <= PAGE_SIZE)
  {
    hide LeafBytes;
    var there := SpilledUpTo(planned, k);
    forall i | 0 <= i < |cells| ensures SpillsBefore(planned, i, k) <==> Gone(planned, cells, i) {
    }
    forall i | 0 <= i < |cells| ensures EntryBytes(cells[i]) == EntryBytes(there[i]) {
    }
    SameSizes(cells, there);
    assert LeafBytes(cells) == LeafBytes(there) by {
      SizesMakeBytes(cells, there);
    }
  }

  lemma SizesMakeBytes(a: seq<Entry>, b: seq<Entry>)
    requires SumEntryBytes(a) == SumEntryBytes(b)
    ensures LeafBytes(a) == LeafBytes(b)
  {
  }

  lemma SpillingOneMore(planned: seq<Entry>, cells: seq<Entry>, k: nat, e: Entry)
    requires Spilling(planned, cells) && k < |cells| && IsNext(cells, k) && LeafBytes(cells) > PAGE_SIZE
    requires cells[k].cell.bytes != [] && e.key == cells[k].key && e.cell.Ref?
    ensures Spilling(planned, cells[k := e])
  {
    hide LeafBytes, FitsAt;
    SpillingTurn(planned, cells, k);
  }

  // No turn is left: nothing to spill, or an empty value to spill.
  lemma SpillingEnds(planned: seq<Entry>, cells: seq<Entry>, k: nat)
    requires Spilling(planned, cells) && k <= |cells| && IsNext(cells, k) && LeafBytes(cells) > PAGE_SIZE
    requires k < |cells| ==> cells[k].cell.bytes == []
    ensures !exists j :: 0 <= j <= |planned| && FitsAt(planned, j)
  {
    hide LeafBytes;
    SpillingTurn(planned, cells, k);
    forall j | 0 <= j <= |planned| ensures !FitsAt(planned, j) {
      if j < |planned| && !planned[j].cell.Inline? {
      } else if j < |planned| && Gone(planned, cells, j) {
      } else if j != k && k < |cells| {
        assert SpillsBefore(planned, k, j);
      }
    }
  }

  // leafCellValue
  method EncodeEntry(t: Tree, e: LeafEntry, ghost s: Slot, ghost live: multiset<PageId>)
    returns (r: Status, entry: Entry, ghost slot: Slot)
    requires Matches(t.pages, e, s)
    requires Owns(t.first, t.State(), live + multiset(s.chain))
    modifies t`pages, t`nextPage, t`free, t`reused
    ensures Frame(old(t.State()), t.State(), {}, t.revision)
    ensures r.Done? ==>
              && Owns(t.first, t.State(), live + multiset(slot.chain))
              && slot.kv == s.kv && entry == EntryOf(slot) && SlotRep(t.pages, slot) && Encodes(e, s, slot)
    ensures r.Done? ==> SameCell(PlannedCell(e), entry)
    // A new value stays inline exactly if its cell takes at most half a page.
    ensures r.Done? && e.body.Raw? ==>
              entry.cell == if 8 + |e.key| + |e.body.value| <= 2048 then Inline(e.body.value)
              else Ref(if slot.chain == [] then 0 else slot.chain[0], |e.body.value|)
    // In memory a panic has one cause.
    ensures EmptyToChain(e) ==> r.Panic?
    ensures r.Panic? ==> t.growLimit.Some? || EmptyToChain(e)
  {
    hide Owns, Frame, ChainRep;
    FrameReflexive(t.State(), t.revision);
    slot := s;
    match e.body
    case Encoded(cell) =>
      return Done, Entry(e.key, cell), s;
    case Raw(value) =>
      if !StoresOverflow(e.key, value) {
        return Done, Entry(e.key, Inline(value)), s;
      }
      assert live + multiset(s.chain) == live;
      var head;
      ghost var chain;
      r, head, chain := WriteOverflowChain(t, value, live);
      if r.Panic? {
        return r, Entry(e.key, Inline(value)), s;
      }
      return Done, Entry(e.key, Ref(head, |value|)), Slot(s.kv, chain);
  }

  // The first loop of writeLeafEntries.
  method EncodeEntries(t: Tree, entries: seq<LeafEntry>, ghost src: seq<Slot>, ghost live: multiset<PageId>)
    returns (r: Status, cells: seq<Entry>, ghost slots: seq<Slot>)
    requires MatchesAll(t.pages, entries, src)
    requires Owns(t.first, t.State(), live + ChainIds(src))
    modifies t`pages, t`nextPage, t`free, t`reused
    ensures Frame(old(t.State()), t.State(), {}, t.revision)
    ensures r.Done? ==>
              && Owns(t.first, t.State(), live + ChainIds(slots))
              && cells == EntriesOf(slots) && SlotsRep(t.pages, slots) && PairsOf(slots) == PairsOf(src)
              && EncodesAll(entries, src, slots)
    ensures r.Done? ==> |cells| == |entries| && forall i :: 0 <= i < |cells| ==> SameCell(Planned(entries)[i], cells[i])
    ensures (exists i :: 0 <= i < |entries| && EmptyToChain(entries[i])) ==> r.Panic?
    ensures r.Panic? ==> t.growLimit.Some? || exists i :: 0 <= i < |entries| && EmptyToChain(entries[i])
  {
    hide Owns, Frame, Matches, Encoding, StoresOverflow, ChainIds, Encodes, EmptyToChain, PlannedCell, SameCell;
    ghost var s0 := t.State();
    FrameReflexive(s0, t.revision);
    cells, slots := [], [];
    EncodingStart(t.first, s0, live, entries, src);
    for i := 0 to |entries|
      invariant Encoding(t.first, t.State(), live, entries, src, cells, slots) && |slots| == i
      invariant Frame(s0, t.State(), {}, t.revision)
      invariant |entries| == |src| && forall j :: 0 <= j < i ==> Encodes(entries[j], src[j], slots[j])
      invariant |cells| == i && forall j :: 0 <= j < i ==> SameCell(Planned(entries)[j], cells[j])
      invariant forall j :: 0 <= j < i ==> !EmptyToChain(entries[j])
    {
      ghost var s1 := t.State();
      EncodingNext(t.first, s1, live, entries, src, cells, slots);
      var entry;
      ghost var slot;
      r, entry, slot := EncodeEntry(t, entries[i], src[i], live + ChainIds(slots) + ChainIds(src[i + 1..]));
      FrameTransitive(s0, s1, t.State(), {}, {}, t.revision);
      if r.Panic? {
        return;
      }
      EncodingStep(t.first, s1, t.State(), t.revision, live, entries, src, cells, slots, entry, slot);
      slots := slots + [slot];
      cells := cells + [entry];
    }
    EncodingEnd(t.first, t.State(), live, entries, src, cells, slots);
    r := Done;
  }

  ghost predicate EncodesAll(entries: seq<LeafEntry>, src: seq<Slot>, slots: seq<Slot>) {
    |entries| == |src| == |slots| && forall i :: 0 <= i < |slots| ==> Encodes(entries[i], src[i], slots[i])
  }

  // The first |slots| entries are encoded.
  ghost predicate Encoding(first: PageId, s: Store, live: multiset<PageId>, entries: seq<LeafEntry>, src: seq<Slot>,
                           cells: seq<Entry>, slots: seq<Slot>) {
    && |slots| <= |src| == |entries|
    && cells == EntriesOf(slots)
    && PairsOf(slots) == PairsOf(src[..|slots|])
    && SlotsRep(s.pages, slots)
    && MatchesAll(s.pages, entries[|slots|..], src[|slots|..])
    && Owns(first, s, live + ChainIds(slots) + ChainIds(src[|slots|..]))
  }

  lemma EncodingStart(first: PageId, s: Store, live: multiset<PageId>, entries: seq<LeafEntry>, src: seq<Slot>)
    requires MatchesAll(s.pages, entries, src) && Owns(first, s, live + ChainIds(src))
    ensures Encoding(first, s, live, entries, src, [], [])
  {
    hide Owns;
    assert src[0..] == src && entries[0..] == entries;
    assert live + ChainIds([]) + ChainIds(src) == live + ChainIds(src);
  }

  lemma MatchesTail(pages: PageMap, entries: seq<LeafEntry>, slots: seq<Slot>)
    requires MatchesAll(pages, entries, slots) && slots != []
    ensures Matches(pages, entries[0], slots[0]) && MatchesAll(pages, entries[1..], slots[1..])
  {
  }

  lemma EncodingNext(first: PageId, s: Store, live: multiset<PageId>, entries: seq<LeafEntry>, src: seq<Slot>,
                     cells: seq<Entry>, slots: seq<Slot>)
    requires Encoding(first, s, live, entries, src, cells, slots) && |slots| < |src|
    ensures |entries| == |src| && Matches(s.pages, entries[|slots|], src[|slots|])
    ensures MatchesAll(s.pages, entries[|slots| + 1..], src[|slots| + 1..])
    ensures Owns(first, s, live + ChainIds(slots) + ChainIds(src[|slots| + 1..]) + multiset(src[|slots|].chain))
  {
    hide Owns, Matches;
    var i := |slots|;
    MatchesTail(s.pages, entries[i..], src[i..]);
    assert src[i..][1..] == src[i + 1..] && entries[i..][1..] == entries[i + 1..];
    assert live + ChainIds(slots) + ChainIds(src[i..])
        == live + ChainIds(slots) + ChainIds(src[i + 1..]) + multiset(src[i].chain);
  }

  lemma EncodingStep(first: PageId, s: Store, t: Store, revision: nat, live: multiset<PageId>, entries: seq<LeafEntry>,
                     src: seq<Slot>, cells: seq<Entry>, slots: seq<Slot>, entry: Entry, slot: Slot)
    requires Encoding(first, s, live, entries, src, cells, slots) && |slots| < |src|
    requires Frame(s, t, {}, revision)
    requires Owns(first, t, live + ChainIds(slots) + ChainIds(src[|slots| + 1..]) + multiset(slot.chain))
    requires slot.kv == src[|slots|].kv && entry == EntryOf(slot) && SlotRep(t.pages, slot)
    ensures Encoding(first, t, live, entries, src, cells + [entry], slots + [slot])
  {
    hide Owns, Matches, Frame, SlotRep, ChainIds, MatchesAll, SlotsRep;
    var i := |slots|;
    var rest := src[i + 1..];
    EncodingNext(first, s, live, entries, src, cells, slots);
    FrameKeepsLive(first, s, t, {}, revision, live + ChainIds(slots) + ChainIds(rest) + multiset(src[i].chain));
    SlotsRepSame(s.pages, t.pages, slots);
    MatchesSame(s.pages, t.pages, entries[i + 1..], rest);
    SlotsAppend(t.pages, slots, slot);
    assert live + ChainIds(slots) + ChainIds(rest) + multiset(slot.chain)
           == live + ChainIds(slots + [slot]) + ChainIds(rest);
    PairsAppend(src, i, slots, slot);
  }

  lemma SlotsAppend(pages: PageMap, slots: seq<Slot>, slot: Slot)
    requires SlotsRep(pages, slots) && SlotRep(pages, slot)
    ensures SlotsRep(pages, slots + [slot])
    ensures ChainIds(slots + [slot]) == ChainIds(slots) + multiset(slot.chain)
    ensures EntriesOf(slots + [slot]) == EntriesOf(slots) + [EntryOf(slot)]
  {
    hide SlotRep, EntryOf, ChainIds;
    ChainIdsConcat(slots, [slot]);
    ChainIdsOne(slot);
    assert EntriesOf(slots + [slot]) == EntriesOf(slots) + [EntryOf(slot)];
  }

  lemma PairsAppend(src: seq<Slot>, i: nat, slots: seq<Slot>, slot: Slot)
    requires i < |src| && PairsOf(slots) == PairsOf(src[..i]) && slot.kv == src[i].kv
    ensures PairsOf(slots + [slot]) == PairsOf(src[..i + 1])
  {
    assert PairsOf(src[..i + 1]) == PairsOf(src[..i]) + [src[i].kv];
    assert PairsOf(slots + [slot]) == PairsOf(slots) + [slot.kv];
  }

  lemma EncodingEnd(first: PageId, s: Store, live: multiset<PageId>, entries: seq<LeafEntry>, src: seq<Slot>,
                    cells: seq<Entry>, slots: seq<Slot>)
    requires Encoding(first, s, live, entries, src, cells, slots) && |slots| == |src|
    ensures Owns(first, s, live + ChainIds(slots))
    ensures cells == EntriesOf(slots) && SlotsRep(s.pages, slots) && PairsOf(slots) == PairsOf(src)
  {
    hide Owns;
    assert src[|src|..] == [] && src[..|src|] == src;
    assert live + ChainIds(slots) + ChainIds([]) == live + ChainIds(slots);
  }

  // writeEncodedLeafEntries: reset the page and append cells until one does not fit.
  method WriteEncodedLeafEntries(t: Tree, id: PageId, cells: seq<Entry>, ghost live: multiset<PageId>)
    returns (ok: bool)
    requires Owns(t.first, t.State(), live) && id in live
    modifies t`pages
    ensures Owns(t.first, t.State(), live)
    ensures Frame(old(t.State()), t.State(), {id}, t.revision)
    ensures ok <==> LeafBytes(cells) <= PAGE_SIZE
    ensures ok ==> t.pages == old(t.pages)[id := LeafPage(cells, 0)]
    ensures !ok ==> exists k :: 0 <= k <= |cells| && t.pages == old(t.pages)[id := LeafPage(cells[..k], 0)]
  {
    hide Owns, Frame;
    ok := true;
    var k := 0;
    while k < |cells| && ok
      invariant 0 <= k <= |cells|
      invariant LeafBytes(cells[..k]) <= PAGE_SIZE
      invariant !ok ==> k < |cells| && LeafBytes(cells[..k + 1]) > PAGE_SIZE
      decreases |cells| - k, ok
    {
      assert cells[..k + 1][..k] == cells[..k];
      if PAGE_SIZE - LeafBytes(cells[..k]) < EntryBytes(cells[k]) {
        ok := false;
      } else {
        k := k + 1;
      }
    }
    assert cells[..|cells|] == cells;
    if !ok {
      EntryPrefixBytes(cells, k + 1);
    }
    t.WritePage(id, LeafPage(cells[..k], 0), live);
  }

  lemma {:induction false} EntryPrefixBytes(cells: seq<Entry>, k: nat)
    requires k <= |cells|
    ensures SumEntryBytes(cells[..k]) <= SumEntryBytes(cells)
    decreases |cells|
  {
    if k < |cells| {
      EntryPrefixBytes(cells[..|cells| - 1], k);
      assert cells[..|cells| - 1][..k] == cells[..k];
    } else {
      assert cells[..k] == cells;
    }
  }

  // largestInlineLeafEntry
  method LargestInlineLeafEntry(cells: seq<Entry>) returns (index: Option<nat>)
    ensures index.None? ==> forall i :: 0 <= i < |cells| ==> cells[i].cell.Ref?
    ensures index.Some? ==> index.value < |cells| && IsLargestInline(cells, index.value)
  {
    index := None;
    for i := 0 to |cells|
      invariant index.None? ==> forall j :: 0 <= j < i ==> cells[j].cell.Ref?
      invariant index.Some? ==> index.value < i && IsLargestInline(cells[..i], index.value)
    {
      if cells[i].cell.Inline? {
        if index.None?
          || |cells[i].key| + |cells[i].cell.bytes| > |cells[index.value].key| + |cells[index.value].cell.bytes| {
          index := Some(i);
        }
      }
    }
    assert cells[..|cells|] == cells;
  }

  ghost predicate IsLargestInline(cells: seq<Entry>, index: nat)
    requires index < |cells|
  {
    && cells[index].cell.Inline?
    && forall j :: 0 <= j < |cells| && cells[j].cell.Inline? ==>
         EntryBytes(cells[j]) < EntryBytes(cells[index])
           || (EntryBytes(cells[j]) == EntryBytes(cells[index]) && index <= j)
  }

  // Under the key bound a leaf that does not fit has an inline value to spill, and the
  // one chosen is larger than the reference that replaces it.
  lemma SpilledValueIsLarge(degree: nat, cells: seq<Entry>, index: Option<nat>)
    requires degree >= 2 && |cells| <= MaxKeys(degree)
    requires forall i :: 0 <= i < |cells| ==> KeyFits(degree, cells[i].key)
    requires LeafBytes(cells) > PAGE_SIZE
    requires index.None? ==> forall i :: 0 <= i < |cells| ==> cells[i].cell.Ref?
    requires index.Some? ==> index.value < |cells| && IsLargestInline(cells, index.value)
    ensures index.Some? && |cells[index.value].cell.bytes| > OVERFLOW_REF_SIZE
  {
    if index.None? || |cells[index.value].cell.bytes| <= OVERFLOW_REF_SIZE {
      forall i | 0 <= i < |cells| ensures EntryBytes(cells[i]) <= CellRoom(degree) {
        if index.Some? {
          assert KeyFits(degree, cells[index.value].key);
        }
      }
      RoomyFits(degree, cells);
    }
  }

  function InlineCount(cells: seq<Entry>): nat {
    if cells == [] then 0
    else InlineCount(cells[..|cells| - 1]) + if cells[|cells| - 1].cell.Inline? then 1 else 0
  }

  lemma {:induction false} SpillDecreases(cells: seq<Entry>, index: nat, e: Entry)
    requires index < |cells| && cells[index].cell.Inline? && e.cell.Ref?
    ensures InlineCount(cells[index := e]) < InlineCount(cells)
    decreases |cells|
  {
    var last := |cells| - 1;
    if index < last {
      SpillDecreases(cells[..last], index, e);
      assert cells[index := e][..last] == cells[..last][index := e];
    } else {
      assert cells[index := e][..last] == cells[..last];
    }
  }

  function PairSize(s: Slot): nat {
    |s.kv.key| + |s.kv.value|
  }

  // What spilling makes of encoded slots: values go to chains largest first, the last one
  // that went did not fit with the others, and none goes if all fit.
  ghost predicate Spilled(encoded: seq<Slot>, slots: seq<Slot>) {
    && PairsOf(slots) == PairsOf(encoded)
    && (forall i :: 0 <= i < |slots| && encoded[i].chain != [] ==> slots[i] == encoded[i])
    && (forall i, j ::
      0 <= i < |slots| && 0 <= j < |slots| && encoded[i].chain == [] && slots[i].chain != [] && slots[j].chain == [] ==>
          PairSize(slots[j]) <= PairSize(slots[i]))
    && (slots == encoded ||
        exists k ::
            0 <= k < |slots| && encoded[k].chain == [] && LeafBytes(EntriesOf(slots[k := encoded[k]])) > PAGE_SIZE)
    && (LeafBytes(EntriesOf(encoded)) <= PAGE_SIZE ==> slots == encoded)
  }

  lemma SpilledNothing(encoded: seq<Slot>)
    ensures Spilled(encoded, encoded)
  {
  }

  lemma SpilledOneMore(encoded: seq<Slot>, slots: seq<Slot>, index: nat, slots': seq<Slot>)
    requires Spilled(encoded, slots) && index < |slots| && IsLargestInline(EntriesOf(slots), index)
             && LeafBytes(EntriesOf(slots)) > PAGE_SIZE
    requires |slots'| == |slots| && slots' == slots[index := slots'[index]] && slots'[index].kv == slots[index].kv
             && slots'[index].chain != []
    ensures Spilled(encoded, slots')
  {
    hide LeafBytes;
    assert |PairsOf(slots)| == |PairsOf(encoded)| == |PairsOf(slots')|;
    forall i | 0 <= i < |slots| ensures slots[i].kv == encoded[i].kv && slots'[i].kv == encoded[i].kv {
      assert PairsOf(slots)[i] == PairsOf(encoded)[i];
    }
    assert PairsOf(slots') == PairsOf(encoded);
    forall j | 0 <= j < |slots| && slots[j].chain == [] ensures PairSize(slots[j]) <= PairSize(slots[index]) {
      assert EntriesOf(slots)[j].cell.Inline?;
    }
    assert EntriesOf(slots)[index].cell.Inline? && slots[index].chain == [] && slots[index] == encoded[index];
    assert slots'[index := encoded[index]] == slots;
  }

  // The slots of a leaf that was written: encoded, then spilled until they fit.
  ghost predicate Laid(entries: seq<LeafEntry>, src: seq<Slot>, slots: seq<Slot>) {
    exists encoded :: EncodesAll(entries, src, encoded) && Spilled(encoded, slots)
  }

  // overflowCellValue on the entry at `index`.
  method Spill(t: Tree, cells: seq<Entry>, index: nat, ghost slots: seq<Slot>, ghost live: multiset<PageId>)
    returns (r: Status, cells': seq<Entry>, ghost slots': seq<Slot>)
    requires cells == EntriesOf(slots) && SlotsRep(t.pages, slots)
    requires index < |cells| && cells[index].cell.Inline?
    requires Owns(t.first, t.State(), live + ChainIds(slots))
    modifies t`pages, t`nextPage, t`free, t`reused
    ensures Frame(old(t.State()), t.State(), {}, t.revision)
    ensures r.Done? ==>
              && Owns(t.first, t.State(), live + ChainIds(slots'))
              && cells' == EntriesOf(slots') && SlotsRep(t.pages, slots') && PairsOf(slots') == PairsOf(slots)
              && InlineCount(cells') < InlineCount(cells)
              && |slots'| == |slots| && slots' == slots[index := slots'[index]] && slots'[index].kv == slots[index].kv
              && slots'[index].chain != []
    ensures r.Done? ==> cells'[index].cell.Ref? && cells' == cells[index := cells'[index]]
                        && cells'[index].key == cells[index].key
    ensures cells[index].cell.bytes == [] ==> r.Panic?
    ensures r.Panic? ==> t.growLimit.Some? || cells[index].cell.bytes == []
  {
    hide Owns, Frame, ChainRep, ChainIds, SlotsRep, InlineCount;
    ghost var s0 := t.State();
    var bytes := cells[index].cell.bytes;
    var head;
    ghost var chain;
    r, head, chain := WriteOverflowChain(t, bytes, live + ChainIds(slots));
    if r.Panic? {
      return r, cells, slots;
    }
    cells' := cells[index := Entry(cells[index].key, Ref(head, |bytes|))];
    slots' := slots[index := Slot(slots[index].kv, chain)];
    SpillDecreases(cells, index, Entry(cells[index].key, Ref(head, |bytes|)));
    SpilledSlots(t.first, s0, t.State(), t.revision, slots, index, chain, live);
  }

  lemma SpilledSlots(first: PageId, s: Store, t: Store, revision: nat, slots: seq<Slot>, index: nat, chain: seq<PageId>,
                     live: multiset<PageId>)
    requires index < |slots| && slots[index].chain == [] && SlotsRep(s.pages, slots)
    requires Owns(first, s, live + ChainIds(slots)) && Frame(s, t, {}, revision)
    requires chain != [] && slots[index].kv.value != [] && ChainRep(t.pages, chain, slots[index].kv.value)
    requires Owns(first, t, live + ChainIds(slots) + multiset(chain))
    ensures var slots' := slots[index := Slot(slots[index].kv, chain)];
            && SlotsRep(t.pages, slots') && PairsOf(slots') == PairsOf(slots)
            && Owns(first, t, live + ChainIds(slots'))
  {
    hide Owns, Frame, ChainRep, ChainIds;
    var slots' := slots[index := Slot(slots[index].kv, chain)];
    FrameKeepsLive(first, s, t, {}, revision, live + ChainIds(slots));
    SlotsRepSame(s.pages, t.pages, slots);
    ChainIdsAround(slots, index);
    ChainIdsAround(slots', index);
    assert slots'[..index] == slots[..index] && slots'[index + 1..] == slots[index + 1..];
    assert live + ChainIds(slots') == live + ChainIds(slots) + multiset(chain);
    assert PairsOf(slots') == PairsOf(slots);
  }

  method WriteLeafEntries(t: Tree, id: PageId, entries: seq<LeafEntry>, ghost src: seq<Slot>,
          ghost live: multiset<PageId>)
    returns (r: Status, ghost slots: seq<Slot>)
    requires t.degree >= 2
    requires id in t.pages && t.pages[id].LeafPage?
    requires |entries| == |src| && MatchesAll(t.pages, entries, src)
    requires Owns(t.first, t.State(), live + multiset{id} + ChainIds(src))
    modifies t`pages, t`nextPage, t`free, t`reused
    ensures Frame(old(t.State()), t.State(), {id}, t.revision)
    ensures r.Done? ==>
              && Owns(t.first, t.State(), live + multiset{id} + ChainIds(slots))
              && PairsOf(slots) == PairsOf(src)
              && Rep(t.pages, Leaf(id, slots)) && t.pages[id].next == old(t.pages[id].next)
              && Laid(entries, src, slots)
    ensures r.Done? ==> LeafTakes(entries)
    ensures r.Panic? ==> t.growLimit.Some? || !LeafTakes(entries)
    ensures t.growLimit.None? && |entries| <= MaxKeys(t.degree) && KeysFit(t.degree, PairsOf(src)) ==> r.Done?
  {
    hide Owns, Frame, MatchesAll, SlotsRep, KeysFit, LeafBytes, ChainIds, IsLargestInline, KeyFits, StoresOverflow,
      EncodesAll, Spilled, PairSize, Spilling, FitsAt, EmptyToChain, SameCell, Planned;
    var next := t.pages[id].next;
    ghost var s0, pages0 := t.State(), t.pages;
    var cells;
    r, cells, slots := EncodeEntries(t, entries, src, live + multiset{id});
    FrameWiden(s0, t.State(), {}, {id}, t.revision);
    if r.Panic? {
      EncodingDoesNotPanic(pages0, t.degree, entries, src);
      return;
    }
    ghost var encoded, planned := slots, Planned(entries);
    SpilledNothing(encoded);
    SpillingStart(planned, cells);
    while true
      invariant Spilling(planned, cells)
      invariant EncodesAll(entries, src, encoded) && Spilled(encoded, slots)
      invariant Frame(s0, t.State(), {id}, t.revision)
      invariant Owns(t.first, t.State(), live + multiset{id} + ChainIds(slots))
      invariant cells == EntriesOf(slots) && SlotsRep(t.pages, slots) && PairsOf(slots) == PairsOf(src)
      decreases InlineCount(cells)
    {
      ghost var s1 := t.State();
      assert live + multiset{id} + ChainIds(slots) == (live + ChainIds(slots)) + multiset{id};
      var ok := WriteEncodedLeafEntries(t, id, cells, live + multiset{id} + ChainIds(slots));
      FrameTransitive(s0, s1, t.State(), {id}, {id}, t.revision);
      LeafWriteKeepsSlots(t.first, s1, t.State(), id, slots, live);
      ghost var turn := NextExists(cells);
      SpillingTurn(planned, cells, turn);
      if ok {
        ghost var s2 := t.State();
        t.SetNextLeaf(id, next, live + multiset{id} + ChainIds(slots));
        FrameTransitive(s0, s2, t.State(), {id}, {id}, t.revision);
        LeafWriteKeepsSlots(t.first, s2, t.State(), id, slots, live);
        return Done, slots;
      }
      var index := LargestInlineLeafEntry(cells);
      SpillDoesNotPanic(t.degree, cells, slots, src, index);
      ghost var next', cells1 := if index.Some? then index.value else |cells|, cells;
      if index.None? || cells[index.value].cell.bytes == [] {
        SpillingEnds(planned, cells, next');
      }
      if index.None? {
        return Panic, slots;
      }
      s1 := t.State();
      ghost var slots1 := slots;
      r, cells, slots := Spill(t, cells, index.value, slots, live + multiset{id});
      FrameWiden(s1, t.State(), {}, {id}, t.revision);
      FrameTransitive(s0, s1, t.State(), {id}, {id}, t.revision);
      if r.Panic? {
        return;
      }
      SpilledOneMore(encoded, slots1, index.value, slots);
      SpillingOneMore(planned, cells1, index.value, cells[index.value]);
    }
  }

  lemma LeafWriteKeepsSlots(first: PageId, s: Store, t: Store, id: PageId, slots: seq<Slot>, live: multiset<PageId>)
    requires Owns(first, s, live + multiset{id} + ChainIds(slots))
    requires SlotsRep(s.pages, slots)
    requires id in t.pages && t.pages == s.pages[id := t.pages[id]]
    ensures SlotsRep(t.pages, slots)
  {
    hide Owns, SlotsRep, ChainIds;
    assert live + multiset{id} + ChainIds(slots) == (live + ChainIds(slots)) + multiset{id};
    WriteKeepsOthers(first, s, id, t.pages[id], live + ChainIds(slots));
    SlotsRepSame(s.pages, t.pages, slots);
  }

  lemma EncodingDoesNotPanic(pages: PageMap, degree: nat, entries: seq<LeafEntry>, src: seq<Slot>)
    requires degree >= 2 && MatchesAll(pages, entries, src)
    ensures KeysFit(degree, PairsOf(src)) ==> !exists i :: 0 <= i < |entries| && EmptyToChain(entries[i])
  {
    hide KeyFits, SlotRep, StoresOverflow;
    if KeysFit(degree, PairsOf(src)) {
      forall i | 0 <= i < |entries| ensures !EmptyToChain(entries[i]) {
        assert Matches(pages, entries[i], src[i]);
        assert KeyFits(degree, PairsOf(src)[i].key);
        KeyFitsIsStorable(degree, entries[i].key, []);
      }
    }
  }

  lemma SpillDoesNotPanic(degree: nat, cells: seq<Entry>, slots: seq<Slot>, src: seq<Slot>, index: Option<nat>)
    requires degree >= 2
    requires cells == EntriesOf(slots) && PairsOf(slots) == PairsOf(src)
    requires LeafBytes(cells) > PAGE_SIZE
    requires index.None? ==> forall i :: 0 <= i < |cells| ==> cells[i].cell.Ref?
    requires index.Some? ==> index.value < |cells| && IsLargestInline(cells, index.value)
    ensures |src| <= MaxKeys(degree) && KeysFit(degree, PairsOf(src)) ==>
              index.Some? && cells[index.value].cell.bytes != []
  {
    hide LeafBytes, IsLargestInline, KeyFits;
    assert |PairsOf(slots)| == |slots| && |PairsOf(src)| == |src|;
    if |src| <= MaxKeys(degree) && KeysFit(degree, PairsOf(src)) {
      forall i | 0 <= i < |cells| ensures KeyFits(degree, cells[i].key) {
        assert KeyFits(degree, PairsOf(src)[i].key);
        assert PairsOf(slots)[i].key == cells[i].key;
      }
      SpilledValueIsLarge(degree, cells, index);
    }
  }

  // ---- Two neighbouring leaves ----

  lemma MatchesParts(pages: PageMap, entries: seq<LeafEntry>, src: seq<Slot>, mid: nat)
    requires MatchesAll(pages, entries, src) && mid <= |entries|
    ensures MatchesAll(pages, entries[..mid], src[..mid]) && MatchesAll(pages, entries[mid..], src[mid..])
  {
    hide Matches;
  }

  lemma SlotsCut(src: seq<Slot>, mid: nat, d: nat)
    requires d >= 2 && mid <= |src|
    ensures ChainIds(src) == ChainIds(src[..mid]) + ChainIds(src[mid..])
    ensures PairsOf(src[..mid]) == PairsOf(src)[..mid] && PairsOf(src[mid..]) == PairsOf(src)[mid..]
    ensures KeysFit(d, PairsOf(src)) ==> KeysFit(d, PairsOf(src[..mid])) && KeysFit(d, PairsOf(src[mid..]))
  {
    hide KeysFit, ChainIds;
    assert src == src[..mid] + src[mid..];
    ChainIdsConcat(src[..mid], src[mid..]);
    assert PairsOf(src[..mid]) == PairsOf(src)[..mid] && PairsOf(src[mid..]) == PairsOf(src)[mid..];
    KeysFitCut(d, PairsOf(src), mid);
  }

  lemma KeysFitCut(d: nat, s: seq<KV>, mid: nat)
    requires d >= 2 && mid <= |s|
    ensures KeysFit(d, s) ==> KeysFit(d, s[..mid]) && KeysFit(d, s[mid..])
  {
    hide KeyFits;
  }

  lemma KeepLeafSource(first: PageId, s: Store, t: Store, id: PageId, revision: nat, entries: seq<LeafEntry>,
          src: seq<Slot>, others: multiset<PageId>)
    requires MatchesAll(s.pages, entries, src)
    requires Owns(first, s, others + ChainIds(src)) && Frame(s, t, {id}, revision) && id in others
    ensures MatchesAll(t.pages, entries, src)
  {
    hide Owns, Frame, MatchesAll, ChainIds;
    LiveDisjointOwn(first, s, {id}, others, ChainIds(src));
    FrameKeepsPart(first, s, t, {id}, revision, ChainIds(src), others);
    MatchesSame(s.pages, t.pages, entries, src);
  }

  lemma KeepLeafPage(first: PageId, s: Store, t: Store, id: PageId, revision: nat, leaf: PageId,
          others: multiset<PageId>)
    requires leaf in s.pages && s.pages[leaf].LeafPage?
    requires Owns(first, s, others + multiset{leaf}) && Frame(s, t, {id}, revision) && id in others
    ensures leaf in t.pages && t.pages[leaf].LeafPage?
  {
    hide Owns, Frame;
    LiveDisjointOwn(first, s, {id}, others, multiset{leaf});
    FrameKeepsPart(first, s, t, {id}, revision, multiset{leaf}, others);
  }

  // Write entries[..mid] to one leaf, link it to the other, and write entries[mid..] there.
  method WriteLeafPair(t: Tree, leftId: PageId, rightId: PageId, entries: seq<LeafEntry>, mid: nat,
                       ghost src: seq<Slot>, ghost rest: multiset<PageId>)
    returns (r: Status, ghost ls: seq<Slot>, ghost rs: seq<Slot>)
    requires t.degree >= 2 && mid <= |entries| == |src| && MatchesAll(t.pages, entries, src)
    requires leftId in t.pages && t.pages[leftId].LeafPage? && rightId in t.pages && t.pages[rightId].LeafPage?
    requires Owns(t.first, t.State(), rest + multiset{leftId} + multiset{rightId} + ChainIds(src))
    modifies t`pages, t`nextPage, t`free, t`reused
    ensures Frame(old(t.State()), t.State(), {leftId, rightId}, t.revision)
    ensures r.Done? ==>
              && Rep(t.pages, Leaf(leftId, ls)) && Rep(t.pages, Leaf(rightId, rs))
              && Owns(t.first, t.State(), rest + Ids(Leaf(leftId, ls)) + Ids(Leaf(rightId, rs)))
              && PairsOf(ls) == PairsOf(src)[..mid] && PairsOf(rs) == PairsOf(src)[mid..]
    ensures r.Done? ==> LeafTakes(entries[..mid]) && LeafTakes(entries[mid..])
    ensures r.Panic? ==> t.growLimit.Some? || !LeafTakes(entries[..mid]) || !LeafTakes(entries[mid..])
    ensures t.growLimit.None? && mid <= MaxKeys(t.degree) && |entries| - mid <= MaxKeys(t.degree)
            && KeysFit(t.degree, PairsOf(src)) ==>
              r.Done?
  {
    hide Owns, Frame, MatchesAll, ChainIds, KeysFit, Rep, LeafTakes;
    ghost var s0 := t.State();
    MatchesParts(t.pages, entries, src, mid);
    SlotsCut(src, mid, t.degree);
    ghost var lsrc, rsrc := src[..mid], src[mid..];
    ghost var live := rest + multiset{leftId} + multiset{rightId} + ChainIds(src);
    assert live == (rest + multiset{rightId} + ChainIds(rsrc)) + multiset{leftId} + ChainIds(lsrc);
    assert live == (rest + multiset{leftId} + multiset{rightId} + ChainIds(lsrc)) + ChainIds(rsrc);
    assert live == (rest + multiset{leftId} + ChainIds(src)) + multiset{rightId};
    rs := rsrc;
    r, ls := WriteLeafEntries(t, leftId, entries[..mid], lsrc, rest + multiset{rightId} + ChainIds(rsrc));
    ghost var s1 := t.State();
    FrameWiden(s0, s1, {leftId}, {leftId, rightId}, t.revision);
    if r.Panic? {
      return;
    }
    KeepLeafSource(t.first, s0, s1, leftId, t.revision, entries[mid..], rsrc,
        rest + multiset{leftId} + multiset{rightId} + ChainIds(lsrc));
    KeepLeafPage(t.first, s0, s1, leftId, t.revision, rightId, rest + multiset{leftId} + ChainIds(src));
    ghost var left := Leaf(leftId, ls);
    assert rest + multiset{rightId} + ChainIds(rsrc) + multiset{leftId} + ChainIds(ls)
        == (rest + multiset{rightId} + ChainIds(rsrc)) + Ids(left);
    r, rs := WriteRightOfPair(t, leftId, rightId, left, entries[mid..], rsrc, rest);
    FrameTransitive(s0, s1, t.State(), {leftId, rightId}, {leftId, rightId}, t.revision);
  }

  method WriteRightOfPair(t: Tree, leftId: PageId, rightId: PageId, ghost left: Node, entries: seq<LeafEntry>,
          ghost src: seq<Slot>, ghost rest: multiset<PageId>)
    returns (r: Status, ghost rs: seq<Slot>)
    requires t.degree >= 2 && |entries| == |src| && MatchesAll(t.pages, entries, src)
    requires left.Leaf? && left.id == leftId && Rep(t.pages, left)
    requires rightId in t.pages && t.pages[rightId].LeafPage?
    requires Owns(t.first, t.State(), (rest + multiset{rightId} + ChainIds(src)) + Ids(left))
    modifies t`pages, t`nextPage, t`free, t`reused
    ensures Frame(old(t.State()), t.State(), {left.id, rightId}, t.revision)
    ensures r.Done? ==>
              && Rep(t.pages, left) && Rep(t.pages, Leaf(rightId, rs))
              && Owns(t.first, t.State(), rest + Ids(left) + Ids(Leaf(rightId, rs)))
              && PairsOf(rs) == PairsOf(src)
    ensures r.Done? ==> LeafTakes(entries)
    ensures r.Panic? ==> t.growLimit.Some? || !LeafTakes(entries)
    ensures t.growLimit.None? && |entries| <= MaxKeys(t.degree) && KeysFit(t.degree, PairsOf(src)) ==> r.Done?
  {
    hide Owns, Frame, MatchesAll, ChainIds, KeysFit, Rep, Ids, LeafTakes;
    ghost var s0 := t.State();
    ghost var live := (rest + multiset{rightId} + ChainIds(src)) + Ids(left);
    assert live == (rest + Ids(left) + multiset{rightId}) + ChainIds(src);
    assert live == (rest + Ids(left) + ChainIds(src)) + multiset{rightId};
    assert live == (rest + Ids(left)) + multiset{rightId} + ChainIds(src);
    LinkLeaf(t, leftId, rightId, left, rest + multiset{rightId} + ChainIds(src));
    ghost var s1 := t.State();
    FrameWiden(s0, s1, {left.id}, {left.id, rightId}, t.revision);
    IdsBelow(left);
    KeepLeafSource(t.first, s0, s1, left.id, t.revision, entries, src, rest + Ids(left) + multiset{rightId});
    KeepLeafPage(t.first, s0, s1, left.id, t.revision, rightId, rest + Ids(left) + ChainIds(src));
    r, rs := WriteLeafEntries(t, rightId, entries, src, rest + Ids(left));
    FrameTransitive(s0, s1, t.State(), {left.id, rightId}, {rightId}, t.revision);
    if r.Panic? {
      return;
    }
    KeepRep(t.first, s1, t.State(), {rightId}, t.revision, left, rest + multiset{rightId} + ChainIds(src));
    IdsBelow(Leaf(rightId, rs));
    assert (rest + Ids(left)) + multiset{rightId} + ChainIds(rs) == rest + Ids(left) + Ids(Leaf(rightId, rs));
  }

  // setNextLeaf on the page of a leaf node.
  method LinkLeaf(t: Tree, id: PageId, next: PageId, ghost n: Node, ghost rest: multiset<PageId>)
    requires n.Leaf? && n.id == id && Rep(t.pages, n) && Owns(t.first, t.State(), rest + Ids(n))
    modifies t`pages
    ensures Rep(t.pages, n) && Owns(t.first, t.State(), rest + Ids(n))
    ensures Frame(old(t.State()), t.State(), {id}, t.revision)
  {
    hide Owns, Frame, SlotsRep, ChainIds;
    ghost var s0 := t.State();
    assert id in Ids(n);
    t.SetNextLeaf(id, next, rest + Ids(n));
    assert SameData(s0.pages, t.pages, Ids(n));
    RepSame(s0.pages, t.pages, n);
  }
}
