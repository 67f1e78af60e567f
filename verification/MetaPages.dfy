// The bytes of a metadata page (pagebtree/mmap.go).

module MetaPages {
  import opened KeyOrder
  import opened Contents
  import opened Pages
  import opened LittleEndian
  import opened ReclaimChains
  import SlottedPages

  const META_VERSION := 3
  // "COWBTREE"
  const MAGIC: Bytes := [67, 79, 87, 66, 84, 82, 69, 69]
  const CHECKSUM_OFFSET := 72
  const KEY_ORDER_OFFSET := 76
  const FREE_COUNT_OFFSET := 80
  const FREE_LIST_OFFSET := 88

  datatype StoredOrder = BytewiseOrder | ReverseOrder

  // What a metadata page says.
  datatype Meta = Meta(saved: Saved, root: PageId, nextPage: PageId, length: int, revision: nat, degree: int,
      maxPages: int, keyOrder: StoredOrder)

  datatype MetaRead = Blank | Invalid | Found(meta: Meta)

  // What is handed to writeMetaPage.
  datatype MetaRecord = MetaRecord(version: nat, root: PageId, nextPage: PageId, length: int, revision: nat,
      degree: int, maxPages: int,
                                   keyOrder: nat, free: seq<PageId>, retired: seq<RetiredPage>, freeRoot: PageId)

  // ---- Fields ----

  const TWO63: int := 0x8000_0000_0000_0000
  const TWO64: int := 0x1_0000_0000_0000_0000

  // uint64(i) and int(u), which wrap around.
  function Unsigned(i: int): (u: nat)
    requires -TWO63 <= i < TWO63
    ensures u < TWO64
  {
    if i < 0 then i + TWO64 else i
  }

  function Signed(u: nat): int {
    if u >= TWO63 then u - TWO64 else u
  }

  // 64-bit words, one after the other.
  function Words(ws: seq<nat>): (b: Bytes)
    ensures |b| == 8 * |ws|
  {
    if ws == [] then [] else Words(ws[..|ws| - 1]) + Encode(ws[|ws| - 1], 8)
  }

  lemma {:induction false} WordAt(ws: seq<nat>, i: nat)
    requires i < |ws|
    ensures Words(ws)[8 * i..8 * i + 8] == Encode(ws[i], 8)
    decreases |ws|
  {
    hide Encode;
    var front := ws[..|ws| - 1];
    if i < |front| {
      WordAt(front, i);
      assert Words(ws)[8 * i..8 * i + 8] == Words(front)[8 * i..8 * i + 8];
    }
  }

  lemma WordsAppend(ws: seq<nat>, w: nat)
    ensures Words(ws + [w]) == Words(ws) + Encode(w, 8)
  {
    assert (ws + [w])[..|ws|] == ws;
  }

  function Zeros(n: nat): (b: Bytes)
    ensures |b| == n
  {
    seq(n, _ => 0)
  }

  function Field(s: Bytes, at: nat, width: nat): nat
    requires at + width <= |s|
  {
    Decode(s[at..at + width])
  }

  // ---- The page as a whole ----

  function Tag(o: StoredOrder): nat {
    if o.BytewiseOrder? then 1 else 2
  }

  // The words of the free list field.
  function Listed(saved: Saved): seq<nat> {
    if saved.root != 0 then [saved.root] else saved.inline
  }

  // The fields are as wide as they are stored.
  predicate Wide(m: Meta) {
    && m.saved.version < TWO64 && 0 <= m.saved.count < TWO63 && m.saved.root < TWO64
    && (forall i :: 0 <= i < |m.saved.inline| ==> m.saved.inline[i] < TWO64)
    && m.root < TWO64 && m.nextPage < TWO64 && m.revision < TWO64
    && -TWO63 <= m.length < TWO63 && -TWO63 <= m.degree < TWO63 && -TWO63 <= m.maxPages < TWO63
    && |m.saved.inline| <= MAX_META_FREE_PAGES
  }

  function Front(m: Meta): (b: Bytes)
    requires Wide(m)
    ensures |b| == CHECKSUM_OFFSET
  {
    MAGIC + Words([m.saved.version, PAGE_SIZE, m.root, m.nextPage, Unsigned(m.length), m.revision, Unsigned(m.degree),
        Unsigned(m.maxPages)])
  }

  function Back(m: Meta, tag: nat): (b: Bytes)
    requires Wide(m)
    ensures |b| == PAGE_SIZE - KEY_ORDER_OFFSET
  {
    var listed := Listed(m.saved);
    Encode(tag, 4) + Words([m.saved.count] + listed) + Zeros(PAGE_SIZE - FREE_LIST_OFFSET - 8 * |listed|)
  }

  // metaChecksum covers everything but its own field. `tag` is what the key order is stored as.
  function TaggedImage(crc: SlottedPages.Checksum, m: Meta, tag: nat): (b: Bytes)
    requires Wide(m)
    ensures |b| == PAGE_SIZE
  {
    Front(m) + Encode(crc(Front(m) + Back(m, tag)), 4) + Back(m, tag)
  }

  function Image(crc: SlottedPages.Checksum, m: Meta): (b: Bytes)
    requires Wide(m)
    ensures |b| == PAGE_SIZE
  {
    TaggedImage(crc, m, Tag(m.keyOrder))
  }

  // ---- Writing ----

  function VersionOf(r: MetaRecord): nat {
    if r.version == 0 then META_VERSION else r.version
  }

  function CountOf(r: MetaRecord): nat {
    |r.free| + |r.retired|
  }

  predicate Writable(r: MetaRecord) {
    && (VersionOf(r) < 3 ==> r.retired == [])
    && (r.freeRoot == 0 ==> CountOf(r) <= MAX_META_FREE_PAGES && (VersionOf(r) >= 3 ==> CountOf(r) == 0))
    && (r.freeRoot != 0 ==> CountOf(r) != 0)
    && r.keyOrder <= 2
  }

  // What a written record is meant to say.
  function MetaOf(r: MetaRecord): Meta {
    Meta(Saved(VersionOf(r), CountOf(r), if r.freeRoot != 0 then [] else r.free, r.freeRoot),
         r.root, r.nextPage, r.length, r.revision, r.degree, r.maxPages, if r.keyOrder == 2 then ReverseOrder
           else BytewiseOrder)
  }

  // Some bytes, then zeros.
  ghost predicate Filled(s: Bytes, p: Bytes) {
    |p| <= |s| && s == p + Zeros(|s| - |p|)
  }

  lemma FillOn(s: Bytes, p: Bytes, b: Bytes)
    requires Filled(s, p) && |p| + |b| <= |s|
    ensures Filled(Splice(s, |p|, b), p + b)
  {
  }

  method PutField(data: array<Byte>, at: nat, value: nat, width: nat, ghost p: Bytes)
    requires Filled(data[..], p) && |p| == at && at + width <= data.Length
    modifies data
    ensures Filled(data[..], p + Encode(value, width))
  {
    hide Filled, Splice;
    FillOn(data[..], p, Encode(value, width));
    Put(data, at, Encode(value, width));
  }

  method PutWord(data: array<Byte>, at: nat, value: nat, ghost start: Bytes, ghost ws: seq<nat>)
    requires Filled(data[..], start + Words(ws)) && at == |start| + 8 * |ws| && at + 8 <= data.Length
    modifies data
    ensures Filled(data[..], start + Words(ws + [value]))
  {
    hide Filled, Words;
    WordsAppend(ws, value);
    PutField(data, at, value, 8, start + Words(ws));
    assert start + Words(ws) + Encode(value, 8) == start + Words(ws + [value]);
  }

  // writeMetaPage
  method WriteMetaPage(data: array<Byte>, crc: SlottedPages.Checksum, r: MetaRecord) returns (ok: bool)
    requires data.Length == PAGE_SIZE && (Writable(r) ==> Wide(MetaOf(r)))
    modifies data
    ensures ok <==> Writable(r)
    ensures ok <==>
            && (r.version in {1, 2} ==> r.retired == [] && (r.freeRoot == 0 ==> |r.free| <= 501))
            && (r.version !in {1, 2} && r.freeRoot == 0 ==> r.free == [] && r.retired == [])
            && (r.freeRoot != 0 ==> r.free != [] || r.retired != [])
            && r.keyOrder <= 2
    ensures ok ==> data[..] == Image(crc, MetaOf(r))
    ensures !ok ==> data[..] == old(data[..])
  {
    hide Filled, Words, Splice;
    var version := if r.version == 0 then META_VERSION else r.version;
    if version < 3 && |r.retired| > 0 {
      return false;
    }
    var reclaimCount := |r.free| + |r.retired|;
    if version >= 3 && r.freeRoot == 0 && reclaimCount > 0 {
      return false;
    }
    if r.freeRoot == 0 && reclaimCount > MAX_META_FREE_PAGES {
      return false;
    }
    if r.freeRoot != 0 && reclaimCount == 0 {
      return false;
    }
    if r.keyOrder > 2 {
      return false;
    }
    ghost var m := MetaOf(r);
    WriteFront(data, version, r);
    var keyOrder := if r.keyOrder == 0 then 1 else r.keyOrder;
    WriteBack(data, keyOrder, reclaimCount, r, Front(m));
    ghost var s := data[..];
    ghost var mid := Zeros(4);
    ghost var back := Back(m, Tag(m.keyOrder));
    SumParts(s, Front(m), mid, back);
    var sum := crc(data[..CHECKSUM_OFFSET] + data[KEY_ORDER_OFFSET..]);
    Put(data, CHECKSUM_OFFSET, Encode(sum, 4));
    SumWritten(s, Front(m), mid, back, Encode(sum, 4));
    return true;
  }

  method WriteFront(data: array<Byte>, version: nat, r: MetaRecord)
    requires data.Length == PAGE_SIZE && version == VersionOf(r) && Wide(MetaOf(r))
    modifies data
    ensures Filled(data[..], Front(MetaOf(r)))
  {
    hide Filled, Words, Splice;
    forall i | 0 <= i < data.Length {
      data[i] := 0;
    }
    NothingFilled(data[..]);
    FillOn(data[..], [], MAGIC);
    Put(data, 0, MAGIC);
    NoWords(MAGIC);
    ghost var ws: seq<nat> := [];
    PutWord(data, 8, version, MAGIC, ws);
    ws := ws + [version];
    PutWord(data, 16, PAGE_SIZE, MAGIC, ws);
    ws := ws + [PAGE_SIZE];
    PutWord(data, 24, r.root, MAGIC, ws);
    ws := ws + [r.root];
    PutWord(data, 32, r.nextPage, MAGIC, ws);
    ws := ws + [r.nextPage];
    PutWord(data, 40, Unsigned(r.length), MAGIC, ws);
    ws := ws + [Unsigned(r.length)];
    PutWord(data, 48, r.revision, MAGIC, ws);
    ws := ws + [r.revision];
    PutWord(data, 56, Unsigned(r.degree), MAGIC, ws);
    ws := ws + [Unsigned(r.degree)];
    PutWord(data, 64, Unsigned(r.maxPages), MAGIC, ws);
    ws := ws + [Unsigned(r.maxPages)];
    assert ws == [version, PAGE_SIZE, r.root, r.nextPage, Unsigned(r.length), r.revision, Unsigned(r.degree),
             Unsigned(r.maxPages)];
  }

  lemma NothingFilled(s: Bytes)
    requires forall i :: 0 <= i < |s| ==> s[i] == 0
    ensures Filled(s, [])
  {
  }

  lemma NoWords(start: Bytes)
    ensures Words([]) == [] && [] + start == start && start + Words([]) == start
  {
  }

  method WriteBack(data: array<Byte>, keyOrder: nat, count: nat, r: MetaRecord, ghost front: Bytes)
    requires data.Length == PAGE_SIZE && |front| == CHECKSUM_OFFSET && Filled(data[..], front)
    requires Writable(r) && Wide(MetaOf(r)) && keyOrder == (if r.keyOrder == 2 then 2 else 1) && count == CountOf(r)
    modifies data
    ensures data[..] == front + Zeros(4) + Back(MetaOf(r), Tag(MetaOf(r).keyOrder))
  {
    hide Words, Splice, Filled;
    ghost var m := MetaOf(r);
    SkipZeros(data[..], front);
    PutField(data, KEY_ORDER_OFFSET, keyOrder, 4, front + Zeros(4));
    ghost var start := front + Zeros(4) + Encode(keyOrder, 4);
    NoWords(start);
    ghost var ws: seq<nat> := [];
    PutWord(data, FREE_COUNT_OFFSET, count, start, ws);
    ws := ws + [count];
    if r.freeRoot != 0 {
      PutWord(data, FREE_LIST_OFFSET, r.freeRoot, start, ws);
      ws := ws + [r.freeRoot];
    } else {
      for i := 0 to |r.free|
        invariant ws == [count] + r.free[..i]
        invariant Filled(data[..], start + Words(ws))
      {
        PutWord(data, FREE_LIST_OFFSET + i * 8, r.free[i], start, ws);
        ws := ws + [r.free[i]];
      }
      assert r.free[..|r.free|] == r.free;
    }
    assert ws == [m.saved.count] + Listed(m.saved);
    WholePage(data[..], front, Encode(keyOrder, 4), ws);
  }

  lemma SkipZeros(s: Bytes, p: Bytes)
    requires Filled(s, p) && |p| + 4 <= |s|
    ensures Filled(s, p + Zeros(4))
  {
  }

  lemma {:induction false} WholePage(s: Bytes, front: Bytes, order: Bytes, ws: seq<nat>)
    requires |s| == PAGE_SIZE && |front| == CHECKSUM_OFFSET && |order| == 4
             && Filled(s, front + Zeros(4) + order + Words(ws))
    ensures 8 * |ws| <= PAGE_SIZE - FREE_COUNT_OFFSET
    ensures s == front + Zeros(4) + (order + Words(ws) + Zeros(PAGE_SIZE - FREE_COUNT_OFFSET - 8 * |ws|))
  {
    FilledParts(s, front + Zeros(4), order, Words(ws));
  }

  lemma FilledParts(s: Bytes, a: Bytes, x: Bytes, y: Bytes)
    requires Filled(s, a + x + y)
    ensures |a| + |x| + |y| <= |s| && s == a + (x + y + Zeros(|s| - |a| - |x| - |y|))
  {
    Regroup(a, x + y, Zeros(|s| - |a + x + y|), x, y);
  }

  lemma Regroup(a: Bytes, b: Bytes, c: Bytes, x: Bytes, y: Bytes)
    requires b == x + y
    ensures a + x + y + c == a + (b + c)
  {
  }

  lemma SumParts(s: Bytes, front: Bytes, mid: Bytes, back: Bytes)
    requires s == front + mid + back && |mid| == 4 && |front| == CHECKSUM_OFFSET
    ensures s[..CHECKSUM_OFFSET] == front && s[CHECKSUM_OFFSET..KEY_ORDER_OFFSET] == mid
            && s[KEY_ORDER_OFFSET..] == back
  {
  }

  lemma SumWritten(s: Bytes, front: Bytes, mid: Bytes, back: Bytes, sum: Bytes)
    requires s == front + mid + back && |mid| == 4 && |front| == CHECKSUM_OFFSET && |sum| == 4
    ensures Splice(s, CHECKSUM_OFFSET, sum) == front + sum + back
  {
  }

  // ---- Reading ----

  predicate SoundHeader(crc: SlottedPages.Checksum, s: Bytes)
    requires |s| == PAGE_SIZE
  {
    && s[0..8] == MAGIC && 1 <= Field(s, 8, 8) <= META_VERSION && Field(s, 16, 8) == PAGE_SIZE
    && Field(s, CHECKSUM_OFFSET, 4) == crc(s[..CHECKSUM_OFFSET] + s[KEY_ORDER_OFFSET..])
    && Field(s, KEY_ORDER_OFFSET, 4) <= 2
  }

  function InlineList(s: Bytes, count: nat): (r: seq<PageId>)
    requires |s| == PAGE_SIZE && count <= MAX_META_FREE_PAGES
    ensures |r| == count
  {
    seq(count, i requires 0 <= i < count => Field(s, FREE_LIST_OFFSET + 8 * i, 8))
  }

  // The free pages of a metadata page, if its count and its root go together.
  function SavedIn(s: Bytes): Option<Saved>
    requires |s| == PAGE_SIZE
  {
    var version, count, root := Field(s, 8, 8), Signed(Field(s, FREE_COUNT_OFFSET, 8)), Field(s, FREE_LIST_OFFSET, 8);
    if version == 1 && count > MAX_META_FREE_PAGES then None
    else if version >= 3 then
      (if (count == 0 && root != 0) || (count > 0 && root == 0) then None else Some(Saved(version, count, [], root)))
    else if 0 <= count <= MAX_META_FREE_PAGES then Some(Saved(version, count, InlineList(s, count), 0))
    else if count < 0 || root == 0 then None
    else Some(Saved(version, count, [], root))
  }

  // Room for a negative number of free pages cannot be reserved.
  predicate ReadPanics(crc: SlottedPages.Checksum, s: Bytes)
    requires |s| == PAGE_SIZE
  {
    s != Zeros(PAGE_SIZE) && SoundHeader(crc, s) && Field(s, 8, 8) < 3 && Signed(Field(s, FREE_COUNT_OFFSET, 8)) < 0
  }

  function Read(crc: SlottedPages.Checksum, s: Bytes): MetaRead
    requires |s| == PAGE_SIZE
  {
    if s == Zeros(PAGE_SIZE) then Blank
    else if !SoundHeader(crc, s) || SavedIn(s).None? then Invalid
    else
      Found(Meta(SavedIn(s).value, Field(s, 24, 8), Field(s, 32, 8), Signed(Field(s, 40, 8)), Field(s, 48, 8),
                 Signed(Field(s, 56, 8)), Signed(Field(s, 64, 8)), if Field(s, KEY_ORDER_OFFSET, 4) == 2
                   then ReverseOrder else BytewiseOrder))
  }

  // A page that reads says so itself: where each field is, what it may hold, and that the
  // checksum is that of the rest of the page.
  lemma FoundMeans(crc: SlottedPages.Checksum, s: Bytes)
    requires |s| == PAGE_SIZE
    ensures Read(crc, s).Blank? <==> forall i :: 0 <= i < 4096 ==> s[i] == 0
    ensures Read(crc, s).Found? ==>
              && s[0..8] == [67, 79, 87, 66, 84, 82, 69, 69]
              && Decode(s[8..16]) in {1, 2, 3} && Decode(s[16..24]) == 4096
              && Decode(s[72..76]) == crc(s[..72] + s[76..]) && Decode(s[76..80]) in {0, 1, 2}
    ensures Read(crc, s).Found? ==>
              var meta := Read(crc, s).meta;
              && meta.root == Decode(s[24..32]) && meta.nextPage == Decode(s[32..40])
              && meta.revision == Decode(s[48..56]) && meta.length == Signed(Decode(s[40..48]))
              && meta.degree == Signed(Decode(s[56..64])) && meta.maxPages == Signed(Decode(s[64..72]))
              && meta.keyOrder == (if Decode(s[76..80]) == 2 then ReverseOrder else BytewiseOrder)
              && meta.saved.version == Decode(s[8..16]) && meta.saved.count == Signed(Decode(s[80..88]))
  {
    hide Decode, Signed, InlineList;
    if s == Zeros(PAGE_SIZE) {
      assert forall i :: 0 <= i < 4096 ==> s[i] == Zeros(PAGE_SIZE)[i];
    }
  }

  // A page whose header is right is found unless its count and its list contradict each other.
  lemma RightIsFound(crc: SlottedPages.Checksum, s: Bytes)
    requires |s| == PAGE_SIZE && s[0..8] == [67, 79, 87, 66, 84, 82, 69, 69]
    requires Decode(s[8..16]) in {1, 2, 3} && Decode(s[16..24]) == 4096
    requires Decode(s[72..76]) == crc(s[..72] + s[76..]) && Decode(s[76..80]) in {0, 1, 2}
    ensures Read(crc, s).Found? <==>
            var count, root := Signed(Decode(s[80..88])), Decode(s[88..96]);
            match Decode(s[8..16])
            case 1 => 0 <= count <= 501
            case 2 => 0 <= count && (count <= 501 || root != 0)
            case _ => (count == 0 ==> root == 0) && (count > 0 ==> root != 0)
  {
    hide Decode, Signed, InlineList;
    assert s[0] == s[0..8][0] != Zeros(PAGE_SIZE)[0];
  }

  // A page that was damaged after it was written, outside of the checksum, is refused unless
  // the checksum of what it holds now happens to be the same.
  lemma DamageIsSeen(crc: SlottedPages.Checksum, m: Meta, s: Bytes)
    requires Wide(m) && |s| == PAGE_SIZE && s[72..76] == Image(crc, m)[72..76] && s != Image(crc, m)
    ensures Read(crc, s).Found? ==>
              && s[..72] + s[76..] != Image(crc, m)[..72] + Image(crc, m)[76..]
              && crc(s[..72] + s[76..]) == crc(Image(crc, m)[..72] + Image(crc, m)[76..])
  {
    hide Decode, Signed, SavedIn, Image, Wide;
    var w := Image(crc, m);
    HeaderFields(crc, m, Tag(m.keyOrder));
    ImageIsTagged(crc, m);
    if s[..72] + s[76..] == w[..72] + w[76..] {
      Pieces(s, w);
    }
  }

  lemma ImageIsTagged(crc: SlottedPages.Checksum, m: Meta)
    requires Wide(m)
    ensures Image(crc, m) == TaggedImage(crc, m, Tag(m.keyOrder))
  {
  }

  lemma Pieces(s: Bytes, t: Bytes)
    requires |s| == |t| == PAGE_SIZE && s[72..76] == t[72..76] && s[..72] + s[76..] == t[..72] + t[76..]
    ensures s == t
  {
    assert s[..72] == (s[..72] + s[76..])[..72] && s[76..] == (s[..72] + s[76..])[72..];
    assert t[..72] == (t[..72] + t[76..])[..72] && t[76..] == (t[..72] + t[76..])[72..];
    assert s == s[..72] + s[72..76] + s[76..] && t == t[..72] + t[72..76] + t[76..];
  }

  lemma ReadCases(crc: SlottedPages.Checksum, s: Bytes)
    requires |s| == PAGE_SIZE
    ensures Read(crc, s) ==
            if s == Zeros(PAGE_SIZE) then Blank
            else if !SoundHeader(crc, s) || SavedIn(s).None? then Invalid
            else
              Found(Meta(SavedIn(s).value, Field(s, 24, 8), Field(s, 32, 8), Signed(Field(s, 40, 8)), Field(s, 48, 8),
                         Signed(Field(s, 56, 8)), Signed(Field(s, 64, 8)),
                         if Field(s, KEY_ORDER_OFFSET, 4) == 2 then ReverseOrder else BytewiseOrder))
  {
  }

  // readMetaPageChecked
  method ReadMetaPage(data: array<Byte>, crc: SlottedPages.Checksum) returns (r: Status, read: MetaRead)
    requires data.Length == PAGE_SIZE
    ensures r.Panic? <==> ReadPanics(crc, data[..])
    ensures r.Done? ==> read == Read(crc, data[..])
    // What is found has the magic, a known version and page size, and the right checksum.
    ensures r.Done? && read.Found? ==>
              var s := data[..];
              && s[0..8] == [67, 79, 87, 66, 84, 82, 69, 69]
              && Decode(s[8..16]) in {1, 2, 3} && Decode(s[16..24]) == 4096
              && Decode(s[72..76]) == crc(s[..72] + s[76..])
              && read.meta.root == Decode(s[24..32]) && read.meta.revision == Decode(s[48..56])
              && read.meta.keyOrder == (if Decode(s[76..80]) == 2 then ReverseOrder else BytewiseOrder)
  {
    hide Decode, Signed, SoundHeader, SavedIn, Read;
    FoundMeans(crc, data[..]);
    ReadCases(crc, data[..]);
    var zero := IsZeroPage(data);
    if zero {
      return Done, Blank;
    }
    var sound := HeaderIsSound(data, crc);
    if !sound {
      return Done, Invalid;
    }
    var saved;
    r, saved := ReadSaved(data);
    if r.Panic? || saved.None? {
      return r, Invalid;
    }
    var root := GetField(data, 24, 8);
    var nextPage := GetField(data, 32, 8);
    var length := GetField(data, 40, 8);
    var revision := GetField(data, 48, 8);
    var degree := GetField(data, 56, 8);
    var maxPages := GetField(data, 64, 8);
    var keyOrder := GetField(data, KEY_ORDER_OFFSET, 4);
    return Done, Found(Meta(saved.value, root, nextPage, Signed(length), revision, Signed(degree), Signed(maxPages),
                      if keyOrder == 2 then ReverseOrder else BytewiseOrder));
  }

  method GetField(data: array<Byte>, at: nat, width: nat) returns (value: nat)
    requires at + width <= data.Length
    ensures value == Field(data[..], at, width)
  {
    assert data[..][at..at + width] == data[at..at + width];
    value := Get(data, at, width);
  }

  method HeaderIsSound(data: array<Byte>, crc: SlottedPages.Checksum) returns (ok: bool)
    requires data.Length == PAGE_SIZE
    ensures ok <==> SoundHeader(crc, data[..])
  {
    hide Decode, Field;
    if data[0..8] != MAGIC {
      assert data[..][0..8] == data[0..8];
      return false;
    }
    var version := GetField(data, 8, 8);
    var pageSize := GetField(data, 16, 8);
    if version < 1 || version > META_VERSION || pageSize != PAGE_SIZE {
      return false;
    }
    var want := GetField(data, CHECKSUM_OFFSET, 4);
    assert data[..][..CHECKSUM_OFFSET] == data[..CHECKSUM_OFFSET]
           && data[..][KEY_ORDER_OFFSET..] == data[KEY_ORDER_OFFSET..];
    if crc(data[..CHECKSUM_OFFSET] + data[KEY_ORDER_OFFSET..]) != want {
      return false;
    }
    var keyOrder := GetField(data, KEY_ORDER_OFFSET, 4);
    assert data[..][0..8] == data[0..8];
    return keyOrder <= 2;
  }

  method ReadSaved(data: array<Byte>) returns (r: Status, saved: Option<Saved>)
    requires data.Length == PAGE_SIZE
    ensures r.Panic? <==> Field(data[..], 8, 8) < 3 && Signed(Field(data[..], FREE_COUNT_OFFSET, 8)) < 0
    ensures r.Done? ==> saved == SavedIn(data[..])
  {
    hide Decode, Field, InlineList, Signed;
    var version := GetField(data, 8, 8);
    var word := GetField(data, FREE_COUNT_OFFSET, 8);
    var freeCount := Signed(word);
    if version == 1 && freeCount > MAX_META_FREE_PAGES {
      return Done, None;
    }
    var rootField := GetField(data, FREE_LIST_OFFSET, 8);
    if version >= 3 {
      if (freeCount == 0 && rootField != 0) || (freeCount > 0 && rootField == 0) {
        return Done, None;
      }
      return Done, Some(Saved(version, freeCount, [], rootField));
    }
    if freeCount <= MAX_META_FREE_PAGES {
      if freeCount < 0 {
        return Panic, None;
      }
      var free := ReadInline(data, freeCount);
      return Done, Some(Saved(version, freeCount, free, 0));
    }
    if rootField == 0 {
      return Done, None;
    }
    return Done, Some(Saved(version, freeCount, [], rootField));
  }

  method IsZeroPage(data: array<Byte>) returns (zero: bool)
    requires data.Length == PAGE_SIZE
    ensures zero <==> data[..] == Zeros(PAGE_SIZE)
  {
    for i := 0 to data.Length
      invariant forall j :: 0 <= j < i ==> data[j] == 0
    {
      if data[i] != 0 {
        assert data[..][i] != Zeros(PAGE_SIZE)[i];
        return false;
      }
    }
    return true;
  }

  method ReadInline(data: array<Byte>, count: nat) returns (free: seq<PageId>)
    requires data.Length == PAGE_SIZE && count <= MAX_META_FREE_PAGES
    ensures free == InlineList(data[..], count)
  {
    hide Decode;
    free := [];
    for i := 0 to count
      invariant |free| == i && forall j :: 0 <= j < i ==> free[j] == InlineList(data[..], count)[j]
    {
      var id := GetField(data, FREE_LIST_OFFSET + i * 8, 8);
      free := free + [id];
    }
  }

  // ---- Round trip ----

  // What is written reads back exactly if the version is known and a chain is not referred
  // to where a reader expects the pages themselves.
  predicate ReadsBack(r: MetaRecord) {
    VersionOf(r) <= META_VERSION
      && (VersionOf(r) < 3 && r.freeRoot != 0 ==> VersionOf(r) == 2 && CountOf(r) > MAX_META_FREE_PAGES)
  }

  // A record that the writer accepts and a reader of the first version refuses.
  lemma WrittenAndRefused(crc: SlottedPages.Checksum)
    ensures var r := MetaRecord(1, 0, 4, 0, 1, 2, 8, 1, [2], [], 3);
            Writable(r) && Wide(MetaOf(r)) && Read(crc, Image(crc, MetaOf(r))) != Found(MetaOf(r))
  {
    hide Read, Image;
    var r := MetaRecord(1, 0, 4, 0, 1, 2, 8, 1, [2], [], 3);
    WriteReadRoundTrip(crc, r);
  }

  // No page with a written record makes reading panic.
  lemma WrittenDoesNotPanic(crc: SlottedPages.Checksum, m: Meta)
    requires Wide(m)
    ensures !ReadPanics(crc, Image(crc, m))
  {
    hide TaggedImage, Field, SoundHeader;
    SavedFields(crc, m, Tag(m.keyOrder));
  }

  lemma TaggedReads(crc: SlottedPages.Checksum, r: MetaRecord, tag: nat)
    requires Writable(r) && Wide(MetaOf(r)) && tag <= 2
    ensures var m := MetaOf(r).(keyOrder := if tag == 2 then ReverseOrder else BytewiseOrder);
            Read(crc, TaggedImage(crc, MetaOf(r), tag)) == Found(m) <==> ReadsBack(r)
  {
    hide Field, Signed, Unsigned, TaggedImage, Front, Back, SavedIn, Wide;
    var m := MetaOf(r);
    HeaderFields(crc, m, tag);
    SavedFields(crc, m, tag);
    assert TaggedImage(crc, m, tag)[0] != Zeros(PAGE_SIZE)[0];
    SavedBack(crc, r, tag);
  }

  lemma WriteReadRoundTrip(crc: SlottedPages.Checksum, r: MetaRecord)
    requires Writable(r) && Wide(MetaOf(r))
    ensures Read(crc, Image(crc, MetaOf(r))) == Found(MetaOf(r)) <==> ReadsBack(r)
  {
    hide Read, TaggedImage, Wide, ReadsBack, Writable;
    TaggedReads(crc, r, Tag(MetaOf(r).keyOrder));
  }

  // A file from before the key order was stored has zero there, and its keys are in bytewise
  // order.
  lemma ZeroMeansBytewise(crc: SlottedPages.Checksum, r: MetaRecord)
    requires Writable(r) && Wide(MetaOf(r)) && ReadsBack(r)
    ensures Read(crc, TaggedImage(crc, MetaOf(r), 0)) == Found(MetaOf(r).(keyOrder := BytewiseOrder))
  {
    hide Read, TaggedImage, Wide, ReadsBack, Writable;
    TaggedReads(crc, r, 0);
  }

  lemma SavedBack(crc: SlottedPages.Checksum, r: MetaRecord, tag: nat)
    requires Writable(r) && Wide(MetaOf(r)) && tag <= 2
    ensures VersionOf(r) <= META_VERSION ==>
              (SavedIn(TaggedImage(crc, MetaOf(r), tag)) == Some(MetaOf(r).saved) <==> ReadsBack(r))
  {
    hide Field, TaggedImage, Front, Back, Wide;
    HeaderFields(crc, MetaOf(r), tag);
    SavedFields(crc, MetaOf(r), tag);
    WideInline(MetaOf(r));
    if r.freeRoot != 0 {
      assert Listed(MetaOf(r).saved)[0] == r.freeRoot;
    } else if VersionOf(r) < 3 {
      assert InlineList(TaggedImage(crc, MetaOf(r), tag), |r.free|) == r.free;
    }
  }

  lemma WideInline(m: Meta)
    requires Wide(m)
    ensures |m.saved.inline| <= MAX_META_FREE_PAGES && 0 <= m.saved.count < TWO63
  {
  }

  lemma ReadSigned(i: int)
    requires -TWO63 <= i < TWO63
    ensures Signed(Unsigned(i)) == i
  {
  }

  lemma ReadWord(value: nat, width: nat)
    requires (width == 8 && value < TWO64) || (width == 4 && value < 0x1_0000_0000)
    ensures Decode(Encode(value, width)) == value
  {
    Limits();
    RoundTrip(value, width);
  }

  // A word somewhere inside of a page.
  lemma {:induction false} WordInside(s: Bytes, before: Bytes, ws: seq<nat>, after: Bytes, i: nat)
    requires s == before + Words(ws) + after && i < |ws| && ws[i] < TWO64
    ensures |before| + 8 * i + 8 <= |s| && Field(s, |before| + 8 * i, 8) == ws[i]
  {
    WordReads(ws, i);
    hide *;
    FieldInside(s, before, Words(ws), after, 8 * i);
  }

  lemma {:induction false} WordReads(ws: seq<nat>, i: nat)
    requires i < |ws| && ws[i] < TWO64
    ensures 8 * i + 8 <= |Words(ws)| && Decode(Words(ws)[8 * i..8 * i + 8]) == ws[i]
  {
    hide Words, Decode, Encode;
    WordAt(ws, i);
    ReadWord(ws[i], 8);
  }

  lemma FieldInside(s: Bytes, before: Bytes, mid: Bytes, after: Bytes, at: nat)
    requires s == before + mid + after && at + 8 <= |mid|
    ensures |before| + at + 8 <= |s| && Field(s, |before| + at, 8) == Decode(mid[at..at + 8])
  {
    hide Decode;
    SliceInside(s, before, mid, after, at);
  }

  lemma SliceInside(s: Bytes, before: Bytes, mid: Bytes, after: Bytes, at: nat)
    requires s == before + mid + after && at + 8 <= |mid|
    ensures s[|before| + at..|before| + at + 8] == mid[at..at + 8]
  {
  }

  lemma HeaderFields(crc: SlottedPages.Checksum, m: Meta, tag: nat)
    requires Wide(m)
    ensures var s := TaggedImage(crc, m, tag);
            && s[0..8] == MAGIC && s[0] == 67
            && Field(s, 8, 8) == m.saved.version && Field(s, 16, 8) == PAGE_SIZE && Field(s, 24, 8) == m.root
            && Field(s, 32, 8) == m.nextPage
            && Signed(Field(s, 40, 8)) == m.length && Field(s, 48, 8) == m.revision
            && Signed(Field(s, 56, 8)) == m.degree && Signed(Field(s, 64, 8)) == m.maxPages
            && Field(s, CHECKSUM_OFFSET, 4) == crc(s[..CHECKSUM_OFFSET] + s[KEY_ORDER_OFFSET..])
  {
    hide Words, Decode, Encode, Signed, Unsigned, Back;
    var s, sum := TaggedImage(crc, m, tag), crc(Front(m) + Back(m, tag));
    var ws := [m.saved.version, PAGE_SIZE, m.root, m.nextPage, Unsigned(m.length), m.revision, Unsigned(m.degree),
        Unsigned(m.maxPages)];
    var after := Encode(sum, 4) + Back(m, tag);
    assert s == MAGIC + Words(ws) + after;
    WordInside(s, MAGIC, ws, after, 0);
    WordInside(s, MAGIC, ws, after, 1);
    WordInside(s, MAGIC, ws, after, 2);
    WordInside(s, MAGIC, ws, after, 3);
    WordInside(s, MAGIC, ws, after, 4);
    WordInside(s, MAGIC, ws, after, 5);
    WordInside(s, MAGIC, ws, after, 6);
    WordInside(s, MAGIC, ws, after, 7);
    ReadSigned(m.length);
    ReadSigned(m.degree);
    ReadSigned(m.maxPages);
    SumParts(s, Front(m), Encode(sum, 4), Back(m, tag));
    ReadWord(sum, 4);
  }

  lemma SavedFields(crc: SlottedPages.Checksum, m: Meta, tag: nat)
    requires Wide(m) && tag <= 2
    ensures var s := TaggedImage(crc, m, tag);
            && Field(s, KEY_ORDER_OFFSET, 4) == tag && Field(s, FREE_COUNT_OFFSET, 8) == m.saved.count
            && (forall i :: 0 <= i < |Listed(m.saved)| ==> Field(s, FREE_LIST_OFFSET + 8 * i, 8) == Listed(m.saved)[i])
            && (Listed(m.saved) == [] ==> Field(s, FREE_LIST_OFFSET, 8) == 0)
  {
    hide Words, Decode, Encode, Front;
    var s, listed := TaggedImage(crc, m, tag), Listed(m.saved);
    var start := Front(m) + Encode(crc(Front(m) + Back(m, tag)), 4);
    var order, after := Encode(tag, 4), Zeros(PAGE_SIZE - FREE_LIST_OFFSET - 8 * |listed|);
    var ws := [m.saved.count] + listed;
    BackParts(s, start, order, Words(ws), after);
    ReadWord(tag, 4);
    WordInside(s, start + order, ws, after, 0);
    forall i | 0 <= i < |listed| ensures Field(s, FREE_LIST_OFFSET + 8 * i, 8) == listed[i] {
      WordInside(s, start + order, ws, after, i + 1);
    }
    if listed == [] {
      EmptyList(s, start + order, Words(ws), after);
    }
  }

  lemma BackParts(s: Bytes, start: Bytes, order: Bytes, words: Bytes, after: Bytes)
    requires s == start + (order + words + after) && |start| == KEY_ORDER_OFFSET && |order| == 4
    ensures s == start + order + words + after && s[KEY_ORDER_OFFSET..KEY_ORDER_OFFSET + 4] == order
  {
  }

  lemma EmptyList(s: Bytes, start: Bytes, words: Bytes, after: Bytes)
    requires s == start + words + after && |start| == FREE_COUNT_OFFSET && |words| == 8
             && after == Zeros(PAGE_SIZE - FREE_LIST_OFFSET)
    ensures Field(s, FREE_LIST_OFFSET, 8) == 0
  {
    hide Decode;
    SlottedPages.ZeroBytes(8);
    ReadWord(0, 8);
    assert s[FREE_LIST_OFFSET..FREE_LIST_OFFSET + 8] == Zeros(8);
  }
}
