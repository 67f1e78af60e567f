// The bytes of a slotted page (pagebtree/page.go): a header, a directory of slots that
// grows to the right and cells that grow to the left.

module SlottedPages {
  import opened KeyOrder
  import opened Pages
  import opened LittleEndian

  const FLAG_LEAF := 1
  const FLAG_BRANCH := 2
  const SLOT_FLAG_OVERFLOW := 1

  // A key/value cell with its slot flags.
  datatype RawCell = RawCell(key: Bytes, value: Bytes, flags: nat)

  function RawSize(c: RawCell): nat {
    |c.key| + |c.value|
  }

  function TotalSize(cells: seq<RawCell>): nat {
    if cells == [] then 0 else TotalSize(cells[..|cells| - 1]) + RawSize(cells[|cells| - 1])
  }

  // The bytes a page with these cells uses.
  function UsedBytes(cells: seq<RawCell>): nat {
    PAGE_HEADER_SIZE + SLOT_SIZE * |cells| + TotalSize(cells)
  }

  // Where cell `i` starts.
  function OffsetOf(cells: seq<RawCell>, i: nat): int
    requires i < |cells|
  {
    PAGE_SIZE - TotalSize(cells[..i + 1])
  }

  function SlotAt(i: nat): nat {
    PAGE_HEADER_SIZE + SLOT_SIZE * i
  }

  function SlotBytes(offset: nat, c: RawCell): (b: Bytes)
    ensures |b| == SLOT_SIZE
  {
    Encode(offset, 2) + Encode(|c.key|, 2) + Encode(|c.value|, 2) + Encode(c.flags, 2)
  }

  // The checksum, of which nothing is assumed but its width.
  type Checksum = f: Bytes -> nat | forall b: Bytes :: f(b) < 0x1_0000_0000 witness _ => 0

  function Summed(s: Bytes): Bytes
    requires |s| == PAGE_SIZE
  {
    s[..16] + s[20..]
  }

  // ---- What a page holds ----

  ghost predicate Header(s: Bytes, flags: nat, count: nat, upper: nat, link: nat) {
    && |s| == PAGE_SIZE
    && s[0..2] == Encode(flags, 2) && s[2..4] == Encode(count, 2) && s[4..6] == Encode(upper, 2)
    && s[8..16] == Encode(link, 8)
  }

  ghost predicate CellStored(s: Bytes, cells: seq<RawCell>, i: nat)
    requires |s| == PAGE_SIZE && i < |cells|
  {
    var at := OffsetOf(cells, i);
    && SlotAt(|cells|) <= at && at + RawSize(cells[i]) <= PAGE_SIZE
    && s[SlotAt(i)..SlotAt(i) + SLOT_SIZE] == SlotBytes(at, cells[i])
    && s[at..at + RawSize(cells[i])] == cells[i].key + cells[i].value
  }

  ghost predicate Stores(s: Bytes, flags: nat, link: nat, cells: seq<RawCell>) {
    && UsedBytes(cells) <= PAGE_SIZE
    && Header(s, flags, |cells|, PAGE_SIZE - TotalSize(cells), link)
    && (forall i :: 0 <= i < |cells| ==> CellStored(s, cells, i))
  }

  lemma {:induction false} TotalPrefix(cells: seq<RawCell>, i: nat)
    requires i <= |cells|
    ensures TotalSize(cells[..i]) <= TotalSize(cells)
    ensures i < |cells| ==>
              TotalSize(cells[..i + 1]) == TotalSize(cells[..i]) + RawSize(cells[i])
              && TotalSize(cells[..i + 1]) <= TotalSize(cells)
    decreases |cells| - i
  {
    if i < |cells| {
      TotalPrefix(cells, i + 1);
      assert cells[..i + 1][..i] == cells[..i];
    } else {
      assert cells[..i] == cells;
    }
  }

  // ---- Appending ----

  // A cell body, its slot, and the two header fields, written in this order.
  function Written(s: Bytes, at: nat, body: Bytes, slot: nat, entry: Bytes, count: nat): (r: Bytes)
    requires |s| == PAGE_SIZE && PAGE_HEADER_SIZE <= slot && |entry| == SLOT_SIZE && slot + SLOT_SIZE <= at
             && at + |body| <= PAGE_SIZE
    ensures |r| == PAGE_SIZE
  {
    SpliceTwice(SpliceTwice(s, at, body, slot, entry), 4, Encode(at, 2), 2, Encode(count, 2))
  }

  lemma WrittenKeeps(s: Bytes, at: nat, body: Bytes, slot: nat, entry: Bytes, count: nat, low: nat, high: nat)
    requires |s| == PAGE_SIZE && PAGE_HEADER_SIZE <= slot && |entry| == SLOT_SIZE && slot + SLOT_SIZE <= at
             && at + |body| <= PAGE_SIZE
    requires low <= high <= 2 || 6 <= low <= high <= slot || at + |body| <= low <= high <= PAGE_SIZE
    ensures Written(s, at, body, slot, entry, count)[low..high] == s[low..high]
  {
    hide Encode, SpliceTwice;
    SpliceTwiceKeeps(s, at, body, slot, entry, low, high);
    SpliceTwiceKeeps(SpliceTwice(s, at, body, slot, entry), 4, Encode(at, 2), 2, Encode(count, 2), low, high);
  }

  lemma WrittenParts(s: Bytes, at: nat, body: Bytes, slot: nat, entry: Bytes, count: nat)
    requires |s| == PAGE_SIZE && PAGE_HEADER_SIZE <= slot && |entry| == SLOT_SIZE && slot + SLOT_SIZE <= at
             && at + |body| <= PAGE_SIZE
    ensures var r := Written(s, at, body, slot, entry, count);
            && r[slot..slot + SLOT_SIZE] == entry && r[at..at + |body|] == body
            && r[4..6] == Encode(at, 2) && r[2..4] == Encode(count, 2)
  {
    hide Encode, SpliceTwice;
    var s' := SpliceTwice(s, at, body, slot, entry);
    SpliceTwiceWrites(s, at, body, slot, entry);
    SpliceTwiceWrites(s', 4, Encode(at, 2), 2, Encode(count, 2));
    SpliceTwiceKeeps(s', 4, Encode(at, 2), 2, Encode(count, 2), slot, slot + SLOT_SIZE);
    SpliceTwiceKeeps(s', 4, Encode(at, 2), 2, Encode(count, 2), at, at + |body|);
  }

  // The buffer after a cell was appended, before the checksum.
  function Appended(s: Bytes, cells: seq<RawCell>, c: RawCell): (r: Bytes)
    requires |s| == PAGE_SIZE && UsedBytes(cells) + SLOT_SIZE + RawSize(c) <= PAGE_SIZE
    ensures |r| == PAGE_SIZE
  {
    var at := PAGE_SIZE - TotalSize(cells) - RawSize(c);
    Written(s, at, c.key + c.value, SlotAt(|cells|), SlotBytes(at, c), |cells| + 1)
  }

  lemma AppendStores(s: Bytes, flags: nat, link: nat, cells: seq<RawCell>, c: RawCell)
    requires Stores(s, flags, link, cells) && UsedBytes(cells) + SLOT_SIZE + RawSize(c) <= PAGE_SIZE
    ensures Stores(Appended(s, cells, c), flags, link, cells + [c])
  {
    hide Encode, TotalSize, SlotBytes, Written, CellStored;
    var r, all, n := Appended(s, cells, c), cells + [c], |cells|;
    var at := PAGE_SIZE - TotalSize(cells) - RawSize(c);
    AppendedTotal(cells, c, n);
    assert all[..n + 1] == all;
    WrittenKeeps(s, at, c.key + c.value, SlotAt(n), SlotBytes(at, c), n + 1, 0, 2);
    WrittenKeeps(s, at, c.key + c.value, SlotAt(n), SlotBytes(at, c), n + 1, 8, 16);
    WrittenParts(s, at, c.key + c.value, SlotAt(n), SlotBytes(at, c), n + 1);
    forall i | 0 <= i <= n ensures CellStored(r, all, i) {
      AppendKeepsCell(s, flags, link, cells, c, i);
    }
  }

  lemma AppendKeepsCell(s: Bytes, flags: nat, link: nat, cells: seq<RawCell>, c: RawCell, i: nat)
    requires Stores(s, flags, link, cells) && UsedBytes(cells) + SLOT_SIZE + RawSize(c) <= PAGE_SIZE && i <= |cells|
    ensures CellStored(Appended(s, cells, c), cells + [c], i)
  {
    hide Encode, TotalSize, SlotBytes, Written;
    var all, n := cells + [c], |cells|;
    var at := PAGE_SIZE - TotalSize(cells) - RawSize(c);
    AppendedTotal(cells, c, i);
    if i < n {
      assert CellStored(s, cells, i);
      var start := OffsetOf(cells, i);
      TotalPrefix(cells, i);
      WrittenKeeps(s, at, c.key + c.value, SlotAt(n), SlotBytes(at, c), n + 1, SlotAt(i), SlotAt(i) + SLOT_SIZE);
      WrittenKeeps(s, at, c.key + c.value, SlotAt(n), SlotBytes(at, c), n + 1, start, start + RawSize(cells[i]));
    } else {
      WrittenParts(s, at, c.key + c.value, SlotAt(n), SlotBytes(at, c), n + 1);
    }
  }

  lemma AppendedTotal(cells: seq<RawCell>, c: RawCell, i: nat)
    requires i <= |cells|
    ensures i < |cells| ==> (cells + [c])[..i + 1] == cells[..i + 1]
    ensures TotalSize((cells + [c])[..|cells| + 1]) == TotalSize(cells) + RawSize(c)
  {
    assert (cells + [c])[..|cells| + 1] == cells + [c] && (cells + [c])[..|cells|] == cells;
  }

  // ---- The checksum field ----

  function ChecksumBytes(crc: Checksum, s: Bytes): (b: Bytes)
    requires |s| == PAGE_SIZE
    ensures |b| == 4
  {
    Encode(crc(Summed(s)), 4)
  }

  ghost predicate ChecksumOk(crc: Checksum, s: Bytes) {
    |s| == PAGE_SIZE && s[16..20] == ChecksumBytes(crc, s)
  }

  // Writing the checksum makes it right and disturbs nothing that a page stores.
  lemma ChecksumWritten(crc: Checksum, s: Bytes, flags: nat, link: nat, cells: seq<RawCell>)
    requires Stores(s, flags, link, cells)
    ensures var r := Splice(s, 16, ChecksumBytes(crc, s));
            ChecksumOk(crc, r) && Stores(r, flags, link, cells)
  {
    hide Encode, TotalSize, SlotBytes, Splice;
    var b := ChecksumBytes(crc, s);
    var r := Splice(s, 16, b);
    SpliceWrites(s, 16, b);
    SpliceKeeps(s, 16, b, 0, 16);
    SpliceKeeps(s, 16, b, 20, PAGE_SIZE);
    assert Summed(r) == Summed(s);
    SameStores(s, r, flags, link, cells);
  }

  // What a page stores is in the bytes before the checksum and those after it.
  lemma SameStores(s: Bytes, r: Bytes, flags: nat, link: nat, cells: seq<RawCell>)
    requires Stores(s, flags, link, cells) && |r| == PAGE_SIZE
    requires r[0..16] == s[0..16] && r[20..PAGE_SIZE] == s[20..PAGE_SIZE]
    ensures Stores(r, flags, link, cells)
  {
    hide Encode, TotalSize, SlotBytes;
    SameSlice(s, r, 0, 16, 0, 2);
    SameSlice(s, r, 0, 16, 2, 4);
    SameSlice(s, r, 0, 16, 4, 6);
    SameSlice(s, r, 0, 16, 8, 16);
    forall i | 0 <= i < |cells| ensures CellStored(r, cells, i) {
      assert CellStored(s, cells, i);
      SameSlice(s, r, 20, PAGE_SIZE, SlotAt(i), SlotAt(i) + SLOT_SIZE);
      SameSlice(s, r, 20, PAGE_SIZE, OffsetOf(cells, i), OffsetOf(cells, i) + RawSize(cells[i]));
    }
  }

  lemma SameSlice(s: Bytes, r: Bytes, from: nat, to: nat, low: nat, high: nat)
    requires |s| == |r| && from <= low <= high <= to <= |s| && s[from..to] == r[from..to]
    ensures s[low..high] == r[low..high]
  {
    forall i | low <= i < high ensures s[i] == r[i] {
      assert s[from..to][i - from] == r[from..to][i - from];
    }
  }

  lemma LinkWritten(s: Bytes, flags: nat, link: nat, link': nat, cells: seq<RawCell>)
    requires Stores(s, flags, link, cells)
    ensures Stores(Splice(s, 8, Encode(link', 8)), flags, link', cells)
  {
    hide Encode, TotalSize, SlotBytes, Splice;
    var b := Encode(link', 8);
    var r := Splice(s, 8, b);
    SpliceWrites(s, 8, b);
    SpliceKeeps(s, 8, b, 0, 2);
    SpliceKeeps(s, 8, b, 2, 4);
    SpliceKeeps(s, 8, b, 4, 6);
    forall i | 0 <= i < |cells| ensures CellStored(r, cells, i) {
      assert CellStored(s, cells, i);
      SpliceKeeps(s, 8, b, SlotAt(i), SlotAt(i) + SLOT_SIZE);
      SpliceKeeps(s, 8, b, OffsetOf(cells, i), OffsetOf(cells, i) + RawSize(cells[i]));
    }
  }

  // ---- The page object ----

  class SlottedPage {
    const data: array<Byte>
    const crc: Checksum

    constructor (crc: Checksum)
      ensures fresh(data) && data.Length == PAGE_SIZE && this.crc == crc
    {
      data := new Byte[PAGE_SIZE](_ => 0);
      this.crc := crc;
    }

    // The page stores these cells and its checksum is right.
    ghost predicate Holds(flags: nat, link: nat, cells: seq<RawCell>)
      reads data
    {
      data.Length == PAGE_SIZE && Stores(data[..], flags, link, cells) && ChecksumOk(crc, data[..])
    }

    method UpdateChecksum(ghost flags: nat, ghost link: nat, ghost cells: seq<RawCell>)
      requires data.Length == PAGE_SIZE && Stores(data[..], flags, link, cells)
      modifies data
      ensures Holds(flags, link, cells)
    {
      ChecksumWritten(crc, data[..], flags, link, cells);
      var sum := crc(data[..16] + data[20..]);
      Put(data, 16, Encode(sum, 4));
    }

    method Reset(flags: nat)
      requires data.Length == PAGE_SIZE
      modifies data
      ensures Holds(flags, 0, [])
    {
      forall i | 0 <= i < data.Length {
        data[i] := 0;
      }
      ghost var zero := data[..];
      Put(data, 0, Encode(flags, 2));
      Put(data, 2, Encode(0, 2));
      Put(data, 4, Encode(PAGE_SIZE, 2));
      ResetStores(zero, flags);
      UpdateChecksum(flags, 0, []);
    }

    method SlotCount(ghost flags: nat, ghost link: nat, ghost cells: seq<RawCell>) returns (count: nat)
      requires Holds(flags, link, cells)
      ensures count == |cells|
    {
      Limits();
      RoundTrip(|cells|, 2);
      count := Get(data, 2, 2);
    }

    method FreeUpper(ghost flags: nat, ghost link: nat, ghost cells: seq<RawCell>) returns (upper: nat)
      requires Holds(flags, link, cells)
      ensures upper == PAGE_SIZE - TotalSize(cells)
    {
      Limits();
      RoundTrip(PAGE_SIZE - TotalSize(cells), 2);
      upper := Get(data, 4, 2);
    }

    method Link(ghost flags: nat, ghost link: nat, ghost cells: seq<RawCell>) returns (id: nat)
      requires Holds(flags, link, cells) && link < Limit(8)
      ensures id == link
    {
      RoundTrip(link, 8);
      id := Get(data, 8, 8);
    }

    // setNextLeaf
    method SetNextLeaf(id: nat, ghost flags: nat, ghost link: nat, ghost cells: seq<RawCell>)
      requires Holds(flags, link, cells)
      modifies data
      ensures Holds(flags, id, cells)
    {
      LinkWritten(data[..], flags, link, id, cells);
      Put(data, 8, Encode(id, 8));
      UpdateChecksum(flags, id, cells);
    }

    // appendCellWithFlags: a cell is taken exactly when it fits.
    method AppendCell(c: RawCell, ghost flags: nat, ghost link: nat, ghost cells: seq<RawCell>) returns (ok: bool)
      requires Holds(flags, link, cells)
      modifies data
      ensures ok <==> UsedBytes(cells + [c]) <= PAGE_SIZE
      ensures ok ==> Holds(flags, link, cells + [c])
      ensures !ok ==> data[..] == old(data[..])
    {
      hide Stores, ChecksumOk, SlotBytes, Encode;
      var count := SlotCount(flags, link, cells);
      var upper := FreeUpper(flags, link, cells);
      AppendedTotal(cells, c, |cells|);
      assert (cells + [c])[..|cells| + 1] == cells + [c];
      StoresFit(data[..], flags, link, cells);
      var cellSize := |c.key| + |c.value|;
      if upper - (PAGE_HEADER_SIZE + count * SLOT_SIZE) < SLOT_SIZE + cellSize {
        return false;
      }
      AppendStores(data[..], flags, link, cells, c);
      WriteCell(upper - cellSize, count, c, flags, link, cells);
      UpdateChecksum(flags, link, cells + [c]);
      return true;
    }

    method WriteCell(offset: nat, count: nat, c: RawCell, ghost flags: nat, ghost link: nat, ghost cells: seq<RawCell>)
      requires data.Length == PAGE_SIZE && count == |cells| && UsedBytes(cells) + SLOT_SIZE + RawSize(c) <= PAGE_SIZE
      requires offset == PAGE_SIZE - TotalSize(cells) - RawSize(c)
      modifies data
      ensures data[..] == Appended(old(data[..]), cells, c)
    {
      hide SlotBytes, Encode, Splice;
      Put(data, offset, c.key + c.value);
      Put(data, PAGE_HEADER_SIZE + count * SLOT_SIZE, SlotBytes(offset, c));
      Put(data, 4, Encode(offset, 2));
      Put(data, 2, Encode(count + 1, 2));
    }

    // readCell and the slot flags: what was appended reads back.
    method ReadCell(index: nat, ghost flags: nat, ghost link: nat, ghost cells: seq<RawCell>) returns (c: RawCell)
      requires Holds(flags, link, cells) && index < |cells| && cells[index].flags < Limit(2)
      ensures c == cells[index]
    {
      hide Encode, Decode, TotalSize, SlotBytes, Header, ChecksumOk, Limit;
      ghost var s := data[..];
      assert CellStored(s, cells, index);
      SlotFields(s, cells, index);
      BodyParts(s, OffsetOf(cells, index), cells[index].key, cells[index].value);
      var base := PAGE_HEADER_SIZE + index * SLOT_SIZE;
      var offset := Get(data, base, 2);
      var keyLen := Get(data, base + 2, 2);
      var valueLen := Get(data, base + 4, 2);
      var slotFlags := Get(data, base + 6, 2);
      c := RawCell(data[offset..offset + keyLen], data[offset + keyLen..offset + keyLen + valueLen], slotFlags);
    }

    // validChecksum
    method ValidChecksum() returns (ok: bool)
      requires data.Length == PAGE_SIZE
      ensures ok <==> ChecksumOk(crc, data[..])
      ensures ok <==> Decode(data[16..20]) == crc(data[..16] + data[20..])
    {
      hide Encode, Decode;
      var sum := Get(data, 16, 4);
      ok := sum == crc(data[..16] + data[20..]);
      ghost var s := data[..];
      assert s[16..20] == data[16..20] && s[..16] == data[..16] && s[20..] == data[20..];
      EncodeBack(s[16..20]);
      Limits();
      RoundTrip(crc(s[..16] + s[20..]), 4);
    }
  }

  lemma StoresFit(s: Bytes, flags: nat, link: nat, cells: seq<RawCell>)
    requires Stores(s, flags, link, cells)
    ensures UsedBytes(cells) <= PAGE_SIZE
  {
  }

  lemma ResetStores(zero: Bytes, flags: nat)
    requires |zero| == PAGE_SIZE && forall i :: 0 <= i < PAGE_SIZE ==> zero[i] == 0
    ensures Stores(Splice(Splice(Splice(zero, 0, Encode(flags, 2)), 2, Encode(0, 2)), 4, Encode(PAGE_SIZE, 2)), flags,
              0, [])
  {
    hide Splice, SlotBytes;
    var a := Splice(zero, 0, Encode(flags, 2));
    var b := Splice(a, 2, Encode(0, 2));
    var c := Splice(b, 4, Encode(PAGE_SIZE, 2));
    SpliceWrites(zero, 0, Encode(flags, 2));
    SpliceWrites(a, 2, Encode(0, 2));
    SpliceWrites(b, 4, Encode(PAGE_SIZE, 2));
    SpliceKeeps(a, 2, Encode(0, 2), 0, 2);
    SpliceKeeps(b, 4, Encode(PAGE_SIZE, 2), 0, 2);
    SpliceKeeps(b, 4, Encode(PAGE_SIZE, 2), 2, 4);
    SpliceKeeps(zero, 0, Encode(flags, 2), 8, 16);
    SpliceKeeps(a, 2, Encode(0, 2), 8, 16);
    SpliceKeeps(b, 4, Encode(PAGE_SIZE, 2), 8, 16);
    ZeroBytes(8);
    assert zero[8..16] == seq(8, _ => 0);
  }

  lemma {:induction false} ZeroBytes(width: nat)
    ensures Encode(0, width) == seq(width, _ => 0)
  {
    if width > 0 {
      ZeroBytes(width - 1);
      assert [0] + seq(width - 1, _ => 0) == seq(width, _ => 0);
    }
  }

  // The four fields of a slot.
  lemma SlotFields(s: Bytes, cells: seq<RawCell>, i: nat)
    requires |s| == PAGE_SIZE && i < |cells| && CellStored(s, cells, i) && cells[i].flags < Limit(2)
    ensures var base, at := SlotAt(i), OffsetOf(cells, i);
            && base + SLOT_SIZE <= PAGE_SIZE && 0 <= at && at + RawSize(cells[i]) <= PAGE_SIZE
            && Decode(s[base..base + 2]) == at && Decode(s[base + 2..base + 4]) == |cells[i].key|
            && Decode(s[base + 4..base + 6]) == |cells[i].value| && Decode(s[base + 6..base + 8]) == cells[i].flags
  {
    hide Encode, Decode, TotalSize;
    var base, at, c := SlotAt(i), OffsetOf(cells, i), cells[i];
    Limits();
    RoundTrip(at, 2);
    RoundTrip(|c.key|, 2);
    RoundTrip(|c.value|, 2);
    RoundTrip(c.flags, 2);
    var entry := s[base..base + SLOT_SIZE];
    Quarters(entry, Encode(at, 2), Encode(|c.key|, 2), Encode(|c.value|, 2), Encode(c.flags, 2));
    assert entry[0..2] == s[base..base + 2] && entry[2..4] == s[base + 2..base + 4];
    assert entry[4..6] == s[base + 4..base + 6] && entry[6..8] == s[base + 6..base + 8];
  }

  lemma Quarters(entry: Bytes, a: Bytes, b: Bytes, c: Bytes, d: Bytes)
    requires |a| == 2 && |b| == 2 && |c| == 2 && |d| == 2 && entry == a + b + c + d
    ensures entry[0..2] == a && entry[2..4] == b && entry[4..6] == c && entry[6..8] == d
  {
  }

  // ---- Leaf and branch pages as cells ----

  const OVERFLOW_REF_MAGIC: Bytes := [79, 86, 70, 49]

  // encodeOverflowRef and the cell encodings of leafCellValue
  function RawOfEntry(e: Entry): RawCell {
    match e.cell
    case Inline(bytes) => RawCell(e.key, bytes, 0)
    case Ref(first, length) => RawCell(e.key, OVERFLOW_REF_MAGIC + Encode(first, 8) + Encode(length, 8),
        SLOT_FLAG_OVERFLOW)
  }

  // decodeOverflowRef
  function CellOfRaw(c: RawCell): Cell {
    if c.flags % 2 == 0 || |c.value| != OVERFLOW_REF_SIZE || c.value[..4] != OVERFLOW_REF_MAGIC then Inline(c.value)
    else Ref(Decode(c.value[4..12]), Decode(c.value[12..20]))
  }

  // A value is a reference exactly if its flag is set, it has 20 bytes and starts with "OVF1";
  // then it is the encoding of that reference and of no other.
  lemma ReferenceMeans(c: RawCell)
    ensures CellOfRaw(c).Ref? <==> c.flags % 2 == 1 && |c.value| == 20 && c.value[0..4] == [79, 86, 70, 49]
    ensures CellOfRaw(c).Inline? ==> CellOfRaw(c).bytes == c.value
    ensures CellOfRaw(c).Ref? && c.flags == 1 ==> RawOfEntry(Entry(c.key, CellOfRaw(c))) == c
  {
    hide Encode, Decode;
    if CellOfRaw(c).Ref? {
      EncodeBack(c.value[4..12]);
      EncodeBack(c.value[12..20]);
      assert c.value == c.value[..4] + c.value[4..12] + c.value[12..20];
    }
  }

  // A leaf entry whose reference, if it has one, is made of 64-bit numbers.
  predicate Encodable(e: Entry) {
    e.cell.Ref? ==> e.cell.first < Limit(8) && e.cell.length < Limit(8)
  }

  lemma EntryRoundTrip(e: Entry)
    requires Encodable(e)
    ensures RawOfEntry(e).key == e.key && CellOfRaw(RawOfEntry(e)) == e.cell
    ensures SLOT_SIZE + RawSize(RawOfEntry(e)) == EntryBytes(e)
    ensures RawOfEntry(e).flags < Limit(2)
  {
    Limits();
    match e.cell
    case Inline(_) =>
    case Ref(first, length) =>
      RoundTrip(first, 8);
      RoundTrip(length, 8);
      RefParts(Encode(first, 8), Encode(length, 8));
  }

  lemma RefParts(a: Bytes, b: Bytes)
    requires |a| == 8 && |b| == 8
    ensures var v := OVERFLOW_REF_MAGIC + a + b;
            |v| == 20 && v[..4] == OVERFLOW_REF_MAGIC && v[4..12] == a && v[12..20] == b
  {
  }

  function RawEntries(entries: seq<Entry>): (r: seq<RawCell>)
    ensures |r| == |entries|
  {
    seq(|entries|, i requires 0 <= i < |entries| => RawOfEntry(entries[i]))
  }

  // branch cells: a separator and the child to its right
  function RawSeparators(keys: seq<Key>, children: seq<PageId>): (r: seq<RawCell>)
    requires |children| == |keys| + 1
    ensures |r| == |keys|
  {
    seq(|keys|, i requires 0 <= i < |keys| => RawCell(keys[i], Encode(children[i + 1], 8), 0))
  }

  // The sizes that updates compute are the bytes that pages use.
  lemma {:induction false} LeafBytesExact(entries: seq<Entry>)
    requires forall i :: 0 <= i < |entries| ==> Encodable(entries[i])
    ensures UsedBytes(RawEntries(entries)) == LeafBytes(entries)
  {
    if entries != [] {
      var front, last := entries[..|entries| - 1], entries[|entries| - 1];
      LeafBytesExact(front);
      EntryRoundTrip(last);
      assert RawEntries(entries)[..|entries| - 1] == RawEntries(front);
    }
  }

  lemma {:induction false} BranchBytesExact(keys: seq<Key>, children: seq<PageId>)
    requires |children| == |keys| + 1
    ensures UsedBytes(RawSeparators(keys, children)) == BranchBytes(keys)
  {
    if keys != [] {
      var front := keys[..|keys| - 1];
      BranchBytesExact(front, children[..|keys|]);
      assert RawSeparators(keys, children)[..|keys| - 1] == RawSeparators(front, children[..|keys|]);
    }
  }

  // writeEncodedLeafEntries and writeBranchParts: append the cells one by one. They all go
  // in exactly when the page has room for their bytes.
  method WriteCells(p: SlottedPage, flags: nat, cells: seq<RawCell>) returns (ok: bool)
    requires p.data.Length == PAGE_SIZE
    modifies p.data
    ensures ok <==> UsedBytes(cells) <= PAGE_SIZE
    ensures ok ==> p.Holds(flags, 0, cells)
  {
    hide Stores, ChecksumOk;
    p.Reset(flags);
    for i := 0 to |cells|
      invariant p.Holds(flags, 0, cells[..i])
    {
      ok := p.AppendCell(cells[i], flags, 0, cells[..i]);
      assert cells[..i + 1] == cells[..i] + [cells[i]];
      if !ok {
        PrefixUses(cells, i + 1);
        return;
      }
    }
    assert cells[..|cells|] == cells;
    StoresFit(p.data[..], flags, 0, cells);
    ok := true;
  }

  lemma PrefixUses(cells: seq<RawCell>, i: nat)
    requires i <= |cells|
    ensures UsedBytes(cells[..i]) <= UsedBytes(cells)
  {
    TotalPrefix(cells, i);
  }

  // Write a leaf and read it back.
  method LeafRoundTrip(p: SlottedPage, entries: seq<Entry>, next: PageId)
    returns (ok: bool, back: seq<Entry>, next': PageId)
    requires p.data.Length == PAGE_SIZE && next < Limit(8) && forall i :: 0 <= i < |entries| ==> Encodable(entries[i])
    modifies p.data
    ensures ok <==> LeafBytes(entries) <= PAGE_SIZE
    ensures ok ==> back == entries && next' == next && p.Holds(1, next, RawEntries(entries))
  {
    hide Stores, ChecksumOk, TotalSize;
    LeafBytesExact(entries);
    ok := WriteCells(p, FLAG_LEAF, RawEntries(entries));
    back, next' := [], 0;
    if !ok {
      return;
    }
    p.SetNextLeaf(next, FLAG_LEAF, 0, RawEntries(entries));
    next' := p.Link(FLAG_LEAF, next, RawEntries(entries));
    back := LeafEntries(p, next, entries);
  }

  // leafEntries
  method LeafEntries(p: SlottedPage, ghost next: PageId, ghost entries: seq<Entry>) returns (back: seq<Entry>)
    requires p.Holds(FLAG_LEAF, next, RawEntries(entries)) && forall i :: 0 <= i < |entries| ==> Encodable(entries[i])
    ensures back == entries
  {
    hide Stores, ChecksumOk, TotalSize;
    back := [];
    var count := p.SlotCount(FLAG_LEAF, next, RawEntries(entries));
    for i := 0 to count
      invariant back == entries[..i]
    {
      EntryRoundTrip(entries[i]);
      var c := p.ReadCell(i, FLAG_LEAF, next, RawEntries(entries));
      back := back + [Entry(c.key, CellOfRaw(c))];
    }
  }

  // branchParts
  method BranchParts(p: SlottedPage, ghost keys0: seq<Key>, ghost children0: seq<PageId>)
    returns (keys: seq<Key>, children: seq<PageId>)
    requires |children0| == |keys0| + 1 && forall x :: x in children0 ==> x < Limit(8)
    requires p.Holds(2, children0[0], RawSeparators(keys0, children0))
    ensures keys == keys0 && children == children0
  {
    hide Stores, ChecksumOk, TotalSize;
    ghost var cells := RawSeparators(keys0, children0);
    Limits();
    assert children0[0] in children0;
    var first := p.Link(FLAG_BRANCH, children0[0], cells);
    keys, children := [], [first];
    var count := p.SlotCount(FLAG_BRANCH, children0[0], cells);
    for i := 0 to count
      invariant keys == keys0[..i] && children == children0[..i + 1]
    {
      var c := p.ReadCell(i, FLAG_BRANCH, children0[0], cells);
      assert children0[i + 1] in children0;
      RoundTrip(children0[i + 1], 8);
      keys, children := keys + [c.key], children + [Decode(c.value)];
    }
  }

  // ---- Validation ----

  function CellStart(s: Bytes, i: nat): nat
    requires |s| == PAGE_SIZE && SlotAt(i + 1) <= PAGE_SIZE
  {
    Decode(s[SlotAt(i)..SlotAt(i) + 2])
  }

  function KeyEnd(s: Bytes, i: nat): nat
    requires |s| == PAGE_SIZE && SlotAt(i + 1) <= PAGE_SIZE
  {
    CellStart(s, i) + Decode(s[SlotAt(i) + 2..SlotAt(i) + 4])
  }

  function CellEnd(s: Bytes, i: nat): nat
    requires |s| == PAGE_SIZE && SlotAt(i + 1) <= PAGE_SIZE
  {
    KeyEnd(s, i) + Decode(s[SlotAt(i) + 4..SlotAt(i) + 6])
  }

  function KeyAt(s: Bytes, i: nat): Key
    requires |s| == PAGE_SIZE && SlotAt(i + 1) <= PAGE_SIZE
  {
    if KeyEnd(s, i) <= |s| then s[CellStart(s, i)..KeyEnd(s, i)] else []
  }

  function SlotFlags(s: Bytes, i: nat): nat
    requires |s| == PAGE_SIZE && SlotAt(i + 1) <= PAGE_SIZE
  {
    Decode(s[SlotAt(i) + 6..SlotAt(i) + 8])
  }

  // Cells written by appending never overlap, and lie below one another in slot order.
  lemma StoredDoNotOverlap(s: Bytes, flags: nat, link: nat, cells: seq<RawCell>, i: nat, j: nat)
    requires Stores(s, flags, link, cells) && i < j < |cells| && forall k ::
               0 <= k < |cells| ==> cells[k].flags < Limit(2)
    ensures SlotAt(j + 1) <= PAGE_SIZE
    ensures SlotAt(|cells|) <= CellStart(s, j) <= CellEnd(s, j) <= CellStart(s, i) <= CellEnd(s, i) <= PAGE_SIZE
  {
    hide Encode, Decode, TotalSize, SlotBytes;
    assert CellStored(s, cells, i) && CellStored(s, cells, j);
    SlotFields(s, cells, i);
    SlotFields(s, cells, j);
    TotalPrefix(cells, j);
    assert cells[..j][..i + 1] == cells[..i + 1];
    TotalPrefix(cells[..j], i);
  }

  // What the layout check wants of one slot.
  ghost predicate SlotOk(s: Bytes, i: nat, upper: nat, branch: bool)
    requires |s| == PAGE_SIZE && SlotAt(i + 1) <= PAGE_SIZE
  {
    && upper <= CellStart(s, i) && CellEnd(s, i) <= PAGE_SIZE
    && (if branch then CellEnd(s, i) - KeyEnd(s, i) == 8 && SlotFlags(s,
      i) == 0 && Decode(s[KeyEnd(s, i)..CellEnd(s, i)]) != 0
        else SlotFlags(s, i) <= SLOT_FLAG_OVERFLOW)
  }

  ghost predicate Apart(s: Bytes, i: nat, j: nat)
    requires |s| == PAGE_SIZE && SlotAt(i + 1) <= PAGE_SIZE && SlotAt(j + 1) <= PAGE_SIZE
  {
    CellEnd(s, j) <= CellStart(s, i) || CellEnd(s, i) <= CellStart(s, j)
  }

  ghost predicate Ascends(o: Order, s: Bytes, i: nat)
    requires |s| == PAGE_SIZE && SlotAt(i + 1) <= PAGE_SIZE
  {
    i > 0 ==> Lt(o, KeyAt(s, i - 1), KeyAt(s, i))
  }

  // The layout of a slotted page: all cells in bounds, apart, and in key order.
  ghost predicate LayoutOk(o: Order, s: Bytes, branch: bool) {
    && |s| == PAGE_SIZE
    && var count, upper := Decode(s[2..4]), Decode(s[4..6]);
       && SlotAt(count) <= upper <= PAGE_SIZE
       && (forall i :: 0 <= i < count ==> SlotOk(s, i, upper, branch))
       && (forall i :: 0 <= i < count ==> Ascends(o, s, i))
       && (forall i, j :: 0 <= i < j < count ==> Apart(s, i, j))
  }

  // Slot i is at 20 + 8i and says where its cell starts, how long the key and the value are, and
  // its flags.
  lemma SlotMeans(s: Bytes, i: nat)
    requires |s| == 4096 && 28 + 8 * i <= 4096
    ensures CellStart(s, i) == Decode(s[20 + 8 * i..22 + 8 * i])
    ensures KeyEnd(s, i) == CellStart(s, i) + Decode(s[22 + 8 * i..24 + 8 * i])
    ensures CellEnd(s, i) == KeyEnd(s, i) + Decode(s[24 + 8 * i..26 + 8 * i])
    ensures SlotFlags(s, i) == Decode(s[26 + 8 * i..28 + 8 * i])
    ensures KeyEnd(s, i) <= 4096 ==> KeyAt(s, i) == s[CellStart(s, i)..KeyEnd(s, i)]
  {
    hide Decode;
  }

  // What an accepted page has at each slot.
  lemma LayoutMeans(o: Order, s: Bytes, branch: bool, i: nat)
    requires LayoutOk(o, s, branch) && i < Decode(s[2..4])
    ensures 20 + 8 * Decode(s[2..4]) <= Decode(s[4..6]) <= |s| == 4096
    ensures Decode(s[4..6]) <= CellStart(s, i) && CellEnd(s, i) <= 4096
    ensures i > 0 ==> Lt(o, KeyAt(s, i - 1), KeyAt(s, i))
    ensures branch ==> CellEnd(s, i) == KeyEnd(s, i) + 8 && Decode(s[KeyEnd(s, i)..KeyEnd(s, i) + 8]) != 0
    ensures SlotFlags(s, i) <= if branch then 0 else 1
    ensures forall j :: 0 <= j < i ==> CellEnd(s, j) <= CellStart(s, i) || CellEnd(s, i) <= CellStart(s, j)
  {
    hide Decode, Lt;
    assert SlotOk(s, i, Decode(s[4..6]), branch) && Ascends(o, s, i);
    forall j | 0 <= j < i ensures CellEnd(s, j) <= CellStart(s, i) || CellEnd(s, i) <= CellStart(s, j) {
      assert Apart(s, j, i);
    }
  }

  // What breaks a layout: one slot, one pair of neighbours or one overlap is enough, and
  // nothing else is.
  lemma LayoutFails(o: Order, s: Bytes, branch: bool)
    requires |s| == 4096 && 20 + 8 * Decode(s[2..4]) <= Decode(s[4..6]) <= 4096 && !LayoutOk(o, s, branch)
    ensures
      || (exists i :: 0 <= i < Decode(s[2..4])
            && (|| CellStart(s, i) < Decode(s[4..6]) || CellEnd(s, i) > 4096
                || (i > 0 && !Lt(o, KeyAt(s, i - 1), KeyAt(s, i)))
                || (if branch then CellEnd(s, i) - KeyEnd(s, i) != 8 || SlotFlags(s, i) != 0
                        || Decode(s[KeyEnd(s, i)..KeyEnd(s, i) + 8]) == 0
                      else SlotFlags(s, i) > 1)))
      || (exists i, j :: 0 <= i < j < Decode(s[2..4])
            && CellStart(s, j) < CellEnd(s, i) && CellStart(s, i) < CellEnd(s, j))
  {
    hide Decode, Lt;
    var count, upper := Decode(s[2..4]), Decode(s[4..6]);
    if forall i :: 0 <= i < count ==> SlotOk(s, i, upper, branch) {
      if i :| 0 <= i < count && !Ascends(o, s, i) {
      } else {
        var i, j :| 0 <= i < j < count && !Apart(s, i, j);
      }
    } else {
      var i :| 0 <= i < count && !SlotOk(s, i, upper, branch);
    }
  }

  // What a page of appended cells has in its bytes.
  lemma StoredBytes(s: Bytes, flags: nat, link: nat, cells: seq<RawCell>)
    requires Stores(s, flags, link, cells) && flags < 0x1_0000 && link < 0x1_0000_0000_0000_0000
    ensures Decode(s[0..2]) == flags && Decode(s[2..4]) == |cells| && Decode(s[8..16]) == link
    ensures forall i :: 0 <= i < |cells| && cells[i].flags < 0x1_0000 ==>
              var at := 20 + 8 * i;
              var start, key, value := Decode(s[at..at + 2]), cells[i].key, cells[i].value;
              && Decode(s[4..6]) <= start && start + |key| + |value| <= 4096
              && Decode(s[at + 2..at + 4]) == |key| && Decode(s[at + 4..at + 6]) == |value|
              && Decode(s[at + 6..at + 8]) == cells[i].flags
              && s[start..start + |key|] == key && s[start + |key|..start + |key| + |value|] == value
  {
    hide Encode, Decode, TotalSize, SlotBytes, Limit, CellStored;
    Limits();
    RoundTrip(flags, 2);
    RoundTrip(|cells|, 2);
    RoundTrip(link, 8);
    RoundTrip(PAGE_SIZE - TotalSize(cells), 2);
    forall i | 0 <= i < |cells| && cells[i].flags < 0x1_0000
      ensures var at := 20 + 8 * i;
              var start, key, value := Decode(s[at..at + 2]), cells[i].key, cells[i].value;
              && Decode(s[4..6]) <= start && start + |key| + |value| <= 4096
              && Decode(s[at + 2..at + 4]) == |key| && Decode(s[at + 4..at + 6]) == |value|
              && Decode(s[at + 6..at + 8]) == cells[i].flags
              && s[start..start + |key|] == key && s[start + |key|..start + |key| + |value|] == value
    {
      StoredRange(s, flags, link, cells, i);
      BodyParts(s, OffsetOf(cells, i), cells[i].key, cells[i].value);
    }
  }

  // validateSlottedLayoutWithComparator
  method ValidateSlottedLayout(p: SlottedPage, o: Order, branch: bool) returns (ok: bool)
    requires p.data.Length == PAGE_SIZE
    ensures ok <==> LayoutOk(o, p.data[..], branch)
  {
    hide Decode, Lt, SlotOk, CellStart, KeyEnd, CellEnd, KeyAt;
    ghost var s := p.data[..];
    assert p.data[2..4] == s[2..4] && p.data[4..6] == s[4..6];
    var count := Get(p.data, 2, 2);
    var upper := Get(p.data, 4, 2);
    if PAGE_HEADER_SIZE + count * SLOT_SIZE > PAGE_SIZE || upper < PAGE_HEADER_SIZE + count * SLOT_SIZE
      || upper > PAGE_SIZE {
      return false;
    }
    var previousKey: Key := [];
    var ranges: seq<(nat, nat)> := [];
    for i := 0 to count
      invariant forall j :: 0 <= j < i ==> SlotOk(s, j, upper, branch)
      invariant forall j :: 0 <= j < i ==> Ascends(o, s, j)
      invariant i > 0 ==> previousKey == KeyAt(s, i - 1)
      invariant |ranges| == i && forall j :: 0 <= j < i ==> ranges[j] == (CellStart(s, j), CellEnd(s, j))
    {
      var slotOk, start, keyEnd, end := CheckSlot(p, i, upper, branch);
      if !slotOk {
        return false;
      }
      KeySlice(s, i, upper, branch);
      var key := p.data[start..keyEnd];
      if i > 0 {
        LtMeans(o, previousKey, key);
        if o.compare(previousKey, key) >= 0 {
          assert !Ascends(o, s, i);
          return false;
        }
      }
      previousKey := key;
      ranges := ranges + [(start, end)];
    }
    ok := RangesApart(ranges);
    assert forall i, j :: 0 <= i < j < count ==>
      (Apart(s, i, j) <==> ranges[j].1 <= ranges[i].0 || ranges[i].1 <= ranges[j].0);
  }

  lemma KeySlice(s: Bytes, i: nat, upper: nat, branch: bool)
    requires |s| == PAGE_SIZE && SlotAt(i + 1) <= PAGE_SIZE && SlotOk(s, i, upper, branch)
    ensures CellStart(s, i) <= KeyEnd(s, i) <= PAGE_SIZE && KeyAt(s, i) == s[CellStart(s, i)..KeyEnd(s, i)]
  {
  }

  method CheckSlot(p: SlottedPage, i: nat, upper: nat, branch: bool)
    returns (ok: bool, start: nat, keyEnd: nat, end: nat)
    requires p.data.Length == PAGE_SIZE && SlotAt(i + 1) <= PAGE_SIZE
    ensures ok <==> SlotOk(p.data[..], i, upper, branch)
    ensures start == CellStart(p.data[..], i) && keyEnd == KeyEnd(p.data[..], i) && end == CellEnd(p.data[..], i)
  {
    hide Decode, CellStart, KeyEnd, CellEnd, SlotFlags;
    ghost var s := p.data[..];
    var flags;
    start, keyEnd, end, flags := ReadSlot(p, i);
    if start < upper || end > PAGE_SIZE {
      return false, start, keyEnd, end;
    }
    if branch {
      if end - keyEnd != 8 {
        return false, start, keyEnd, end;
      }
      assert p.data[keyEnd..end] == s[keyEnd..end];
      var child := Get(p.data, keyEnd, 8);
      return child != 0 && flags == 0, start, keyEnd, end;
    }
    return flags <= SLOT_FLAG_OVERFLOW, start, keyEnd, end;
  }

  // readSlot
  method ReadSlot(p: SlottedPage, i: nat) returns (start: nat, keyEnd: nat, end: nat, flags: nat)
    requires p.data.Length == PAGE_SIZE && SlotAt(i + 1) <= PAGE_SIZE
    ensures start == CellStart(p.data[..], i) && keyEnd == KeyEnd(p.data[..], i) && end == CellEnd(p.data[..], i)
    ensures flags == SlotFlags(p.data[..], i) && start <= keyEnd <= end
  {
    hide Decode;
    ghost var s := p.data[..];
    var base := PAGE_HEADER_SIZE + i * SLOT_SIZE;
    assert p.data[base..base + 2] == s[base..base + 2] && p.data[base + 2..base + 4] == s[base + 2..base + 4];
    assert p.data[base + 4..base + 6] == s[base + 4..base + 6] && p.data[base + 6..base + 8] == s[base + 6..base + 8];
    start := Get(p.data, base, 2);
    var keyLen := Get(p.data, base + 2, 2);
    var valueLen := Get(p.data, base + 4, 2);
    flags := Get(p.data, base + 6, 2);
    keyEnd, end := start + keyLen, start + keyLen + valueLen;
  }

  method RangesApart(ranges: seq<(nat, nat)>) returns (ok: bool)
    ensures ok <==> forall i, j :: 0 <= i < j < |ranges| ==> ranges[j].1 <= ranges[i].0 || ranges[i].1 <= ranges[j].0
  {
    for i := 0 to |ranges|
      invariant forall a, b ::
                  0 <= a < i && a < b < |ranges| ==> ranges[b].1 <= ranges[a].0 || ranges[a].1 <= ranges[b].0
    {
      for j := i + 1 to |ranges|
        invariant forall b :: i < b < j ==> ranges[b].1 <= ranges[i].0 || ranges[i].1 <= ranges[b].0
      {
        if ranges[i].0 < ranges[j].1 && ranges[j].0 < ranges[i].1 {
          return false;
        }
      }
    }
    return true;
  }

  // A cell that a layout of this kind may have.
  ghost predicate CellOfKind(c: RawCell, branch: bool) {
    if branch then |c.value| == 8 && c.flags == 0 && Decode(c.value) != 0 else c.flags <= SLOT_FLAG_OVERFLOW
  }

  // A page of cells appended in key order passes the layout check.
  lemma StoredPasses(o: Order, s: Bytes, flags: nat, link: nat, cells: seq<RawCell>, branch: bool)
    requires Stores(s, flags, link, cells)
    requires forall i :: 0 <= i < |cells| ==> CellOfKind(cells[i], branch)
    requires forall i :: 0 < i < |cells| ==> Lt(o, cells[i - 1].key, cells[i].key)
    ensures LayoutOk(o, s, branch)
  {
    hide Encode, Decode, TotalSize, SlotBytes, Lt, Limit;
    Limits();
    RoundTrip(|cells|, 2);
    RoundTrip(PAGE_SIZE - TotalSize(cells), 2);
    var upper := Decode(s[4..6]);
    assert Decode(s[2..4]) == |cells| && upper == PAGE_SIZE - TotalSize(cells);
    forall i | 0 <= i < |cells|
      ensures SlotAt(i + 1) <= PAGE_SIZE && SlotOk(s, i, upper, branch)
      ensures KeyAt(s, i) == cells[i].key
    {
      StoredSlot(s, flags, link, cells, i, branch);
    }
    forall i | 0 <= i < |cells| ensures SlotAt(i + 1) <= PAGE_SIZE && Ascends(o, s, i) {
      assert KeyAt(s, i) == cells[i].key;
      assert i > 0 ==> KeyAt(s, i - 1) == cells[i - 1].key;
    }
    forall i, j | 0 <= i < j < |cells| ensures Apart(s, i, j) {
      StoredDoNotOverlap(s, flags, link, cells, i, j);
    }
  }

  lemma StoredSlot(s: Bytes, flags: nat, link: nat, cells: seq<RawCell>, i: nat, branch: bool)
    requires Stores(s, flags, link, cells) && i < |cells| && CellOfKind(cells[i], branch)
    ensures SlotAt(i + 1) <= PAGE_SIZE && SlotOk(s, i, PAGE_SIZE - TotalSize(cells), branch)
    ensures KeyAt(s, i) == cells[i].key
  {
    hide Encode, Decode, TotalSize, SlotBytes, Limit, CellStart, KeyEnd, CellEnd, SlotFlags, Stores, OffsetOf;
    StoredRange(s, flags, link, cells, i);
    BodyParts(s, OffsetOf(cells, i), cells[i].key, cells[i].value);
  }

  lemma StoredRange(s: Bytes, flags: nat, link: nat, cells: seq<RawCell>, i: nat)
    requires Stores(s, flags, link, cells) && i < |cells| && cells[i].flags < 0x1_0000
    ensures var at, c := OffsetOf(cells, i), cells[i];
            && SlotAt(i + 1) <= PAGE_SIZE && PAGE_SIZE - TotalSize(cells) <= at
            && at + |c.key + c.value| <= PAGE_SIZE == |s|
            && CellStart(s, i) == at && KeyEnd(s, i) == at + |c.key| && CellEnd(s, i) == at + |c.key| + |c.value|
            && SlotFlags(s, i) == c.flags
            && s[at..at + |c.key + c.value|] == c.key + c.value
  {
    hide Encode, Decode, TotalSize, SlotBytes, Limit;
    Limits();
    assert CellStored(s, cells, i);
    SlotFields(s, cells, i);
    TotalPrefix(cells, i);
  }

  lemma BodyParts(s: Bytes, at: nat, key: Bytes, value: Bytes)
    requires at + |key + value| <= |s| && s[at..at + |key + value|] == key + value
    ensures s[at..at + |key|] == key && s[at + |key|..at + |key| + |value|] == value
  {
    assert (key + value)[..|key|] == key && (key + value)[|key|..] == value;
    assert s[at..at + |key|] == s[at..at + |key + value|][..|key|];
    assert s[at + |key|..at + |key| + |value|] == s[at..at + |key + value|][|key|..];
  }
}
