// The bytes of the pages that a saved list is chained on
// (pagebtree/freelist_pages.go, pagebtree/reclaim_pages.go).

module ChainBytes {
  import opened KeyOrder
  import opened Contents
  import opened Pages
  import opened LittleEndian
  import opened ReclaimChains
  import opened MetaPages
  import SlottedPages

  const FLAG_FREELIST := 0x08
  const FLAG_RECLAIM := 0x10

  // ---- What the page bytes are ----

  function FlagOf(p: ChainPage): nat {
    if p.ReclaimPage? then FLAG_RECLAIM else FLAG_FREELIST
  }

  function CountIn(p: ChainPage): nat {
    if p.ReclaimPage? then |p.records| else |p.ids|
  }

  // The words of reclaim records: an id and a revision each.
  function RecordWords(records: seq<Record>): (ws: seq<nat>)
    ensures |ws| == 2 * |records|
  {
    if records == [] then []
      else RecordWords(records[..|records| - 1]) + [records[|records| - 1].id, records[|records| - 1].revision]
  }

  lemma {:induction false} RecordWordsAt(records: seq<Record>, i: nat)
    requires i < |records|
    ensures RecordWords(records)[2 * i] == records[i].id && RecordWords(records)[2 * i + 1] == records[i].revision
    decreases |records|
  {
    if i < |records| - 1 {
      RecordWordsAt(records[..|records| - 1], i);
    }
  }

  function WordsOf(p: ChainPage): seq<nat> {
    if p.ReclaimPage? then RecordWords(p.records) else p.ids
  }

  // The page has room for its entries, and they are as wide as they are stored.
  predicate Storable(p: ChainPage) {
    && CountIn(p) <= Capacity(p.ReclaimPage?) && p.next < TWO64
    && forall i :: 0 <= i < |WordsOf(p)| ==> WordsOf(p)[i] < TWO64
  }

  function HeadFields(p: ChainPage): (b: Bytes)
    ensures |b| == 16
  {
    Encode(FlagOf(p), 2) + Encode(CountIn(p), 2) + Encode(PAGE_SIZE, 2) + Zeros(2) + Encode(p.next, 8)
  }

  function Payload(p: ChainPage): (b: Bytes)
    requires Storable(p)
    ensures |b| == PAGE_SIZE - PAGE_HEADER_SIZE
  {
    Words(WordsOf(p)) + Zeros(PAGE_SIZE - PAGE_HEADER_SIZE - 8 * |WordsOf(p)|)
  }

  function ChainImage(crc: SlottedPages.Checksum, p: ChainPage): (b: Bytes)
    requires Storable(p)
    ensures |b| == PAGE_SIZE
  {
    HeadFields(p) + Encode(crc(HeadFields(p) + Payload(p)), 4) + Payload(p)
  }

  // ---- Writing ----

  // reset, setLeftmostChild and the setter of the count
  method StartPage(data: array<Byte>, flags: nat, count: nat, next: PageId)
    requires data.Length == PAGE_SIZE
    modifies data
    ensures Filled(data[..],
              Encode(flags, 2) + Encode(count, 2) + Encode(PAGE_SIZE, 2) + Zeros(2) + Encode(next, 8) + Zeros(4))
  {
    hide Filled, Zeros;
    forall i | 0 <= i < data.Length {
      data[i] := 0;
    }
    NothingFilled(data[..]);
    PutField(data, 0, flags, 2, []);
    assert [] + Encode(flags, 2) == Encode(flags, 2);
    PutField(data, 2, count, 2, Encode(flags, 2));
    PutField(data, 4, PAGE_SIZE, 2, Encode(flags, 2) + Encode(count, 2));
    ghost var p := Encode(flags, 2) + Encode(count, 2) + Encode(PAGE_SIZE, 2);
    SkipSome(data[..], p, 2);
    PutField(data, 8, next, 8, p + Zeros(2));
    SkipSome(data[..], p + Zeros(2) + Encode(next, 8), 4);
  }

  lemma SkipSome(s: Bytes, p: Bytes, n: nat)
    requires Filled(s, p) && |p| + n <= |s|
    ensures Filled(s, p + Zeros(n))
  {
  }

  // updateChecksum, the last step
  method FinishPage(data: array<Byte>, crc: SlottedPages.Checksum, ghost p: ChainPage)
    requires data.Length == PAGE_SIZE && Storable(p) && Filled(data[..], HeadFields(p) + Zeros(4) + Words(WordsOf(p)))
    modifies data
    ensures data[..] == ChainImage(crc, p)
  {
    hide Filled, Words, HeadFields, Zeros, Splice;
    PageParts(data[..], p);
    ghost var s, mid := data[..], Zeros(4);
    SumSlices(s, HeadFields(p), mid, Payload(p));
    var sum := crc(data[..16] + data[20..]);
    Put(data, 16, Encode(sum, 4));
    SumStored(s, HeadFields(p), mid, Payload(p), Encode(sum, 4));
  }

  lemma {:induction false} PageParts(s: Bytes, p: ChainPage)
    requires |s| == PAGE_SIZE && Storable(p) && Filled(s, HeadFields(p) + Zeros(4) + Words(WordsOf(p)))
    ensures s == HeadFields(p) + Zeros(4) + Payload(p)
  {
    hide Words, HeadFields;
    var a, y := HeadFields(p) + Zeros(4), Words(WordsOf(p));
    assert a + [] + y == a + y && [] + y == y;
    FilledParts(s, a, [], y);
  }

  lemma SumSlices(s: Bytes, head: Bytes, mid: Bytes, rest: Bytes)
    requires s == head + mid + rest && |mid| == 4 && |head| == 16
    ensures s[..16] == head && s[16..20] == mid && s[20..] == rest
  {
  }

  lemma SumStored(s: Bytes, head: Bytes, mid: Bytes, rest: Bytes, sum: Bytes)
    requires s == head + mid + rest && |mid| == 4 && |head| == 16 && |sum| == 4
    ensures Splice(s, 16, sum) == head + sum + rest
  {
  }

  // writeFreelistPage
  method WriteFreelistPage(data: array<Byte>, crc: SlottedPages.Checksum, next: PageId, ids: seq<PageId>)
    requires data.Length == PAGE_SIZE && Storable(FreelistPage(next, ids))
    modifies data
    ensures data[..] == ChainImage(crc, FreelistPage(next, ids))
  {
    hide Filled, Words, Zeros, Encode;
    ghost var p := FreelistPage(next, ids);
    StartPage(data, FLAG_FREELIST, |ids|, next);
    ghost var start := HeadFields(p) + Zeros(4);
    NoWords(start);
    for i := 0 to |ids|
      invariant Filled(data[..], start + Words(ids[..i]))
    {
      PutWord(data, PAGE_HEADER_SIZE + i * 8, ids[i], start, ids[..i]);
      assert ids[..i + 1] == ids[..i] + [ids[i]];
    }
    assert ids[..|ids|] == ids;
    FinishPage(data, crc, p);
  }

  // writeReclaimPage
  method WriteReclaimPage(data: array<Byte>, crc: SlottedPages.Checksum, next: PageId, records: seq<Record>)
    requires data.Length == PAGE_SIZE && Storable(ReclaimPage(next, records))
    modifies data
    ensures data[..] == ChainImage(crc, ReclaimPage(next, records))
  {
    hide Filled, Words, Zeros, Encode;
    ghost var p := ReclaimPage(next, records);
    StartPage(data, FLAG_RECLAIM, |records|, next);
    ghost var start := HeadFields(p) + Zeros(4);
    NoWords(start);
    for i := 0 to |records|
      invariant Filled(data[..], start + Words(RecordWords(records[..i])))
    {
      ghost var ws := RecordWords(records[..i]);
      PutWord(data, PAGE_HEADER_SIZE + i * 16, records[i].id, start, ws);
      PutWord(data, PAGE_HEADER_SIZE + i * 16 + 8, records[i].revision, start, ws + [records[i].id]);
      assert records[..i + 1][..i] == records[..i];
      assert RecordWords(records[..i + 1]) == ws + [records[i].id] + [records[i].revision];
    }
    assert records[..|records|] == records;
    FinishPage(data, crc, p);
  }

  // ---- Reading ----

  function IdsIn(s: Bytes, count: nat): (ids: seq<PageId>)
    requires |s| == PAGE_SIZE && count <= FREELIST_CAPACITY
    ensures |ids| == count
  {
    seq(count, i requires 0 <= i < count => Field(s, PAGE_HEADER_SIZE + 8 * i, 8))
  }

  function RecordsAt(s: Bytes, count: nat): (records: seq<Record>)
    requires |s| == PAGE_SIZE && count <= RECLAIM_CAPACITY
    ensures |records| == count
  {
    seq(count, i requires 0 <= i < count => Record(Field(s, PAGE_HEADER_SIZE + 16 * i, 8),
        Field(s, PAGE_HEADER_SIZE + 16 * i + 8, 8)))
  }

  // A page of a chain, if its checksum and its layout are right.
  function ChainPageIn(crc: SlottedPages.Checksum, s: Bytes): Option<ChainPage>
    requires |s| == PAGE_SIZE
  {
    var flags, count, next := Field(s, 0, 2), Field(s, 2, 2), Field(s, 8, 8);
    if Field(s, 16, 4) != crc(s[..16] + s[20..]) || Field(s, 4, 2) != PAGE_SIZE then None
    else if flags == FLAG_FREELIST && count <= FREELIST_CAPACITY then Some(FreelistPage(next, IdsIn(s, count)))
    else if flags == FLAG_RECLAIM && count <= RECLAIM_CAPACITY then Some(ReclaimPage(next, RecordsAt(s, count)))
    else None
  }

  // A page that reads has the right checksum and layout, and is of one of the two kinds.
  lemma ChainPageMeans(crc: SlottedPages.Checksum, s: Bytes)
    requires |s| == PAGE_SIZE
    ensures ChainPageIn(crc, s).Some? <==>
            && Decode(s[16..20]) == crc(s[..16] + s[20..]) && Decode(s[4..6]) == 4096
            && ((Decode(s[0..2]) == 0x08 && Decode(s[2..4]) <= 509)
                || (Decode(s[0..2]) == 0x10 && Decode(s[2..4]) <= 254))
    ensures ChainPageIn(crc, s).Some? ==>
              && ChainPageIn(crc, s).value.next == Decode(s[8..16])
              && (ChainPageIn(crc, s).value.ReclaimPage? <==> Decode(s[0..2]) == 0x10)
              && CountIn(ChainPageIn(crc, s).value) == Decode(s[2..4])
    ensures ChainPageIn(crc, s).Some? && ChainPageIn(crc, s).value.FreelistPage? ==>
              forall i :: 0 <= i < |ChainPageIn(crc, s).value.ids| ==>
                ChainPageIn(crc, s).value.ids[i] == Decode(s[20 + 8 * i..20 + 8 * i + 8])
    ensures ChainPageIn(crc, s).Some? && ChainPageIn(crc, s).value.ReclaimPage? ==>
              forall i :: 0 <= i < |ChainPageIn(crc, s).value.records| ==>
                ChainPageIn(crc, s).value.records[i] ==
                Record(Decode(s[20 + 16 * i..20 + 16 * i + 8]), Decode(s[20 + 16 * i + 8..20 + 16 * i + 16]))
  {
    hide Decode;
  }

  // Damage outside of the checksum is seen unless the checksum happens to be the same.
  lemma ChainDamageIsSeen(crc: SlottedPages.Checksum, p: ChainPage, s: Bytes)
    requires Storable(p) && |s| == PAGE_SIZE && s[16..20] == ChainImage(crc, p)[16..20] && s != ChainImage(crc, p)
    ensures ChainPageIn(crc, s).Some? ==>
              && s[..16] + s[20..] != ChainImage(crc, p)[..16] + ChainImage(crc, p)[20..]
              && crc(s[..16] + s[20..]) == crc(ChainImage(crc, p)[..16] + ChainImage(crc, p)[20..])
  {
    hide Decode, ChainImage, IdsIn, RecordsAt;
    var w := ChainImage(crc, p);
    HeadReads(crc, p);
    if s[..16] + s[20..] == w[..16] + w[20..] {
      ChainPieces(s, w);
    }
  }

  lemma ChainPieces(s: Bytes, t: Bytes)
    requires |s| == |t| == PAGE_SIZE && s[16..20] == t[16..20] && s[..16] + s[20..] == t[..16] + t[20..]
    ensures s == t
  {
    assert s[..16] == (s[..16] + s[20..])[..16] && s[20..] == (s[..16] + s[20..])[16..];
    assert t[..16] == (t[..16] + t[20..])[..16] && t[20..] == (t[..16] + t[20..])[16..];
    assert s == s[..16] + s[16..20] + s[20..] && t == t[..16] + t[16..20] + t[20..];
  }

  // validChecksum, validateLayout, and the accessors of the two kinds
  method ReadChainPage(data: array<Byte>, crc: SlottedPages.Checksum) returns (p: Option<ChainPage>)
    requires data.Length == PAGE_SIZE
    ensures p == ChainPageIn(crc, data[..])
    // What reads has the right checksum and is of one of the two kinds.
    ensures p.Some? ==>
              var s := data[..];
              && Decode(s[16..20]) == crc(s[..16] + s[20..]) && Decode(s[4..6]) == 4096
              && Decode(s[0..2]) == (if p.value.ReclaimPage? then 0x10 else 0x08)
              && p.value.next == Decode(s[8..16])
  {
    ChainPageMeans(crc, data[..]);
    hide Decode, Field, IdsIn, RecordsAt;
    var sum := GetField(data, 16, 4);
    var upper := GetField(data, 4, 2);
    assert data[..][..16] == data[..16] && data[..][20..] == data[20..];
    if sum != crc(data[..16] + data[20..]) || upper != PAGE_SIZE {
      return None;
    }
    var flags := GetField(data, 0, 2);
    var count := GetField(data, 2, 2);
    var next := GetField(data, 8, 8);
    if flags == FLAG_FREELIST && count <= FREELIST_CAPACITY {
      var ids := FreelistIds(data, count);
      return Some(FreelistPage(next, ids));
    }
    if flags == FLAG_RECLAIM && count <= RECLAIM_CAPACITY {
      var records := ReclaimRecords(data, count);
      return Some(ReclaimPage(next, records));
    }
    return None;
  }

  // freelistIDs
  method FreelistIds(data: array<Byte>, count: nat) returns (ids: seq<PageId>)
    requires data.Length == PAGE_SIZE && count <= FREELIST_CAPACITY
    ensures ids == IdsIn(data[..], count)
  {
    hide Field;
    ids := [];
    for i := 0 to count
      invariant |ids| == i && forall j :: 0 <= j < i ==> ids[j] == IdsIn(data[..], count)[j]
    {
      var id := GetField(data, PAGE_HEADER_SIZE + i * 8, 8);
      ids := ids + [id];
    }
  }

  // reclaimRecords
  method ReclaimRecords(data: array<Byte>, count: nat) returns (records: seq<Record>)
    requires data.Length == PAGE_SIZE && count <= RECLAIM_CAPACITY
    ensures records == RecordsAt(data[..], count)
  {
    hide Field;
    records := [];
    for i := 0 to count
      invariant |records| == i && forall j :: 0 <= j < i ==> records[j] == RecordsAt(data[..], count)[j]
    {
      var id := GetField(data, PAGE_HEADER_SIZE + i * 16, 8);
      var revision := GetField(data, PAGE_HEADER_SIZE + i * 16 + 8, 8);
      records := records + [Record(id, revision)];
    }
  }

  // ---- Round trip ----

  // A chain page that was written reads back as it was.
  lemma {:induction false} ChainPageRoundTrip(crc: SlottedPages.Checksum, p: ChainPage)
    requires Storable(p)
    ensures ChainPageIn(crc, ChainImage(crc, p)) == Some(p)
  {
    hide Words, Encode, Decode, ChainImage, HeadFields, Payload, Field, RecordWords;
    var s := ChainImage(crc, p);
    HeadReads(crc, p);
    PayloadReads(crc, p);
    if p.ReclaimPage? {
      forall i | 0 <= i < |p.records| ensures RecordsAt(s, |p.records|)[i] == p.records[i] {
        RecordWordsAt(p.records, i);
        var at := 2 * i;
        assert Field(s, PAGE_HEADER_SIZE + 8 * at, 8) == WordsOf(p)[at];
        assert Field(s, PAGE_HEADER_SIZE + 8 * (at + 1), 8) == WordsOf(p)[at + 1];
      }
      assert RecordsAt(s, |p.records|) == p.records;
    } else {
      forall i | 0 <= i < |p.ids| ensures IdsIn(s, |p.ids|)[i] == p.ids[i] {
        assert Field(s, PAGE_HEADER_SIZE + 8 * i, 8) == WordsOf(p)[i];
      }
      assert IdsIn(s, |p.ids|) == p.ids;
    }
  }

  lemma {:induction false} HeadReads(crc: SlottedPages.Checksum, p: ChainPage)
    requires Storable(p)
    ensures var s := ChainImage(crc, p);
            && Field(s, 0, 2) == FlagOf(p) && Field(s, 2, 2) == CountIn(p) && Field(s, 4, 2) == PAGE_SIZE
            && Field(s, 8, 8) == p.next
            && Field(s, 16, 4) == crc(s[..16] + s[20..])
  {
    hide Words, Encode, Decode, Payload, RecordWords, WordsOf, Zeros;
    var s, sum := ChainImage(crc, p), crc(HeadFields(p) + Payload(p));
    SumSlices(s, HeadFields(p), Encode(sum, 4), Payload(p));
    HeadSlices(s, HeadFields(p), Encode(FlagOf(p), 2), Encode(CountIn(p), 2), Encode(PAGE_SIZE, 2), Zeros(2),
        Encode(p.next, 8));
    Limits();
    RoundTrip(FlagOf(p), 2);
    RoundTrip(CountIn(p), 2);
    RoundTrip(PAGE_SIZE, 2);
    RoundTrip(p.next, 8);
    RoundTrip(sum, 4);
  }

  lemma HeadSlices(s: Bytes, head: Bytes, flags: Bytes, count: Bytes, upper: Bytes, gap: Bytes, next: Bytes)
    requires 16 <= |s| && s[..16] == head && head == flags + count + upper + gap + next
    requires |flags| == 2 && |count| == 2 && |upper| == 2 && |gap| == 2 && |next| == 8
    ensures s[0..2] == flags && s[2..4] == count && s[4..6] == upper && s[8..16] == next
  {
    assert s[0..2] == head[0..2] && s[2..4] == head[2..4] && s[4..6] == head[4..6] && s[8..16] == head[8..16];
  }

  lemma {:induction false} PayloadReads(crc: SlottedPages.Checksum, p: ChainPage)
    requires Storable(p)
    ensures forall i ::
              0 <= i < |WordsOf(p)| ==> Field(ChainImage(crc, p), PAGE_HEADER_SIZE + 8 * i, 8) == WordsOf(p)[i]
  {
    hide Words, Encode, Decode, HeadFields, Field, RecordWords;
    var s, ws := ChainImage(crc, p), WordsOf(p);
    var before := HeadFields(p) + Encode(crc(HeadFields(p) + Payload(p)), 4);
    var after := Zeros(PAGE_SIZE - PAGE_HEADER_SIZE - 8 * |ws|);
    Reassociate(s, before, Words(ws), after);
    forall i | 0 <= i < |ws| ensures Field(s, PAGE_HEADER_SIZE + 8 * i, 8) == ws[i] {
      WordInside(s, before, ws, after, i);
    }
  }

  lemma Reassociate(s: Bytes, a: Bytes, b: Bytes, c: Bytes)
    requires s == a + (b + c)
    ensures s == a + b + c
  {
  }

  // Every page that saving the lists fills can be stored.
  lemma SavedIsStorable(pages: ChainMap, reclaim: bool, ids: seq<PageId>, records: seq<Record>, i: nat)
    requires i < |ids| && HoldsChunk(pages, reclaim, ids, records, i)
    requires forall j :: 0 <= j < |ids| ==> ids[j] < TWO64
    requires forall j :: 0 <= j < |records| ==> records[j].id < TWO64 && records[j].revision < TWO64
    ensures Storable(pages[ids[i]])
  {
    hide RecordWords;
    var p := pages[ids[i]];
    var list := RecordsIn(p);
    ChunkInside(records, Capacity(reclaim), i);
    if p.ReclaimPage? {
      forall k | 0 <= k < |WordsOf(p)| ensures WordsOf(p)[k] < TWO64 {
        RecordWordsAt(p.records, k / 2);
        assert list[k / 2] in records;
      }
    } else {
      forall k | 0 <= k < |p.ids| ensures p.ids[k] < TWO64 {
        assert list[k] in records && list[k].id == p.ids[k];
      }
    }
  }

  lemma ChunkInside(records: seq<Record>, size: nat, i: nat)
    requires size > 0 && i * size <= |records|
    ensures |Chunk(records, size, i)| <= size && forall r :: r in Chunk(records, size, i) ==> r in records
  {
    assert (i + 1) * size == i * size + size;
  }
}
