// Little-endian fields in a buffer of bytes (encoding/binary as the page code uses it).

module LittleEndian {
  import opened KeyOrder

  // The `width` low bytes of a number, least significant first; the others are cut off.
  function Encode(value: nat, width: nat): (b: Bytes)
    ensures |b| == width
  {
    if width == 0 then [] else [value % 256] + Encode(value / 256, width - 1)
  }

  function Decode(b: Bytes): nat {
    if b == [] then 0 else b[0] + 256 * Decode(b[1..])
  }

  // The fields of a page are 2, 4 or 8 bytes wide.
  lemma DecodeTwo(b: Bytes)
    requires |b| == 2
    ensures Decode(b) == b[0] as int + 0x100 * b[1] as int
  {
    assert Decode(b[1..]) == b[1] + 256 * Decode(b[1..][1..]);
  }

  lemma DecodeFour(b: Bytes)
    requires |b| == 4
    ensures Decode(b) == b[0] as int + 0x100 * b[1] as int + 0x1_0000 * b[2] as int + 0x100_0000 * b[3] as int
  {
    DecodeTwo(b[2..]);
    assert b[1..][1..] == b[2..];
    assert Decode(b[1..]) == b[1] + 256 * Decode(b[1..][1..]);
  }

  lemma DecodeEight(b: Bytes)
    requires |b| == 8
    ensures Decode(b) ==
            b[0] as int + 0x100 * b[1] as int + 0x1_0000 * b[2] as int + 0x100_0000 * b[3] as int
              + 0x1_0000_0000 * (b[4] as int + 0x100 * b[5] as int + 0x1_0000 * b[6] as int + 0x100_0000 * b[7] as int)
  {
    DecodeFour(b[4..]);
    assert b[1..][1..] == b[2..] && b[2..][1..] == b[3..] && b[3..][1..] == b[4..];
    assert Decode(b[1..]) == b[1] + 256 * Decode(b[2..]);
    assert Decode(b[2..]) == b[2] + 256 * Decode(b[3..]);
    assert Decode(b[3..]) == b[3] + 256 * Decode(b[4..]);
  }

  function Limit(width: nat): nat {
    if width == 0 then 1 else 256 * Limit(width - 1)
  }

  lemma Limits()
    ensures Limit(2) == 0x1_0000 && Limit(4) == 0x1_0000_0000 && Limit(8) == 0x1_0000_0000_0000_0000
  {
    assert Limit(1) == 256 * Limit(0) && Limit(2) == 256 * Limit(1) && Limit(3) == 256 * Limit(2)
           && Limit(4) == 256 * Limit(3);
    assert Limit(5) == 256 * Limit(4) && Limit(6) == 256 * Limit(5) && Limit(7) == 256 * Limit(6)
           && Limit(8) == 256 * Limit(7);
  }

  // A number that fits its field reads back.
  lemma {:induction false} RoundTrip(value: nat, width: nat)
    requires value < Limit(width)
    ensures Decode(Encode(value, width)) == value
    decreases width
  {
    if width > 0 {
      RoundTrip(value / 256, width - 1);
      assert Encode(value, width)[1..] == Encode(value / 256, width - 1);
    }
  }

  // A field that was read is what its number is written as.
  lemma {:induction false} EncodeBack(b: Bytes)
    ensures Encode(Decode(b), |b|) == b
  {
    if b != [] {
      EncodeBack(b[1..]);
      assert (b[0] + 256 * Decode(b[1..])) / 256 == Decode(b[1..]);
      assert b == [b[0]] + b[1..];
    }
  }

  // A buffer with some bytes overwritten.
  function Splice(s: Bytes, at: nat, b: Bytes): (r: Bytes)
    requires at + |b| <= |s|
    ensures |r| == |s|
  {
    s[..at] + b + s[at + |b|..]
  }

  lemma SpliceWrites(s: Bytes, at: nat, b: Bytes)
    requires at + |b| <= |s|
    ensures Splice(s, at, b)[at..at + |b|] == b
  {
  }

  // What lies outside of the overwritten bytes stays.
  lemma SpliceKeeps(s: Bytes, at: nat, b: Bytes, low: nat, high: nat)
    requires at + |b| <= |s| && low <= high <= |s| && (high <= at || at + |b| <= low)
    ensures Splice(s, at, b)[low..high] == s[low..high]
  {
  }

  // Two writes, the later one further left.
  function SpliceTwice(s: Bytes, at: nat, b: Bytes, at': nat, b': Bytes): (r: Bytes)
    requires at' + |b'| <= at && at + |b| <= |s|
    ensures |r| == |s|
  {
    Splice(Splice(s, at, b), at', b')
  }

  lemma SpliceTwiceWrites(s: Bytes, at: nat, b: Bytes, at': nat, b': Bytes)
    requires at' + |b'| <= at && at + |b| <= |s|
    ensures SpliceTwice(s, at, b, at', b')[at..at + |b|] == b && SpliceTwice(s, at, b, at', b')[at'..at' + |b'|] == b'
  {
    hide Splice;
    SpliceWrites(s, at, b);
    SpliceWrites(Splice(s, at, b), at', b');
    SpliceKeeps(Splice(s, at, b), at', b', at, at + |b|);
  }

  lemma SpliceTwiceKeeps(s: Bytes, at: nat, b: Bytes, at': nat, b': Bytes, low: nat, high: nat)
    requires at' + |b'| <= at && at + |b| <= |s| && low <= high <= |s|
    requires high <= at' || (at' + |b'| <= low && high <= at) || at + |b| <= low
    ensures SpliceTwice(s, at, b, at', b')[low..high] == s[low..high]
  {
    hide Splice;
    SpliceKeeps(s, at, b, low, high);
    SpliceKeeps(Splice(s, at, b), at', b', low, high);
  }

  method Put(data: array<Byte>, at: nat, b: Bytes)
    requires at + |b| <= data.Length
    modifies data
    ensures data[..] == Splice(old(data[..]), at, b)
  {
    ghost var s := data[..];
    for i := 0 to |b|
      invariant forall j :: 0 <= j < i ==> data[at + j] == b[j]
      invariant forall j :: 0 <= j < at || at + i <= j < data.Length ==> data[j] == s[j]
    {
      data[at + i] := b[i];
    }
    assert data[..] == s[..at] + b + s[at + |b|..];
  }

  method Get(data: array<Byte>, at: nat, width: nat) returns (value: nat)
    requires at + width <= data.Length
    ensures value == Decode(data[at..at + width])
  {
    value := 0;
    for i := width downto 0
      invariant value == Decode(data[at + i..at + width])
    {
      assert data[at + i..at + width][1..] == data[at + i + 1..at + width];
      value := data[at + i] + 256 * value;
    }
  }
}
