/** Bytes and big-endian integers, as Node's Buffer reads and writes them. */
module ByteStrings {
  type Byte = x: int | 0 <= x < 256 witness 0

  lemma NextOctet(w: bv8)
    requires w as int < 255
    ensures w < 255 && (w + 1) as int == w as int + 1
  {
    OctetBelow(w);
    OctetNext(w);
  }

  lemma OctetBelow(w: bv8)
    requires w as int < 255
    ensures w < 255
  {
  }

  lemma OctetNext(w: bv8)
    requires w < 255
    ensures (w + 1) as int == w as int + 1
  {
  }

  /** A byte as eight bits, found by counting up. */
  function OctetOf(b: Byte): (w: bv8)
    ensures w as int == b
  {
    if b == 0 then 0
    else
      var before := OctetOf(b - 1);
      NextOctet(before);
      before + 1
  }

  lemma SameOctet(w: bv8, v: bv8)
    requires w as int == v as int
    ensures w == v
  {
    assert (w as int) as bv8 == w && (v as int) as bv8 == v;
  }

  type Bytes = seq<Byte>

  const UINT16_LIMIT := 0x1_0000
  const UINT32_LIMIT := 0x1_0000_0000

  function ReadUInt16(b: Bytes, at: nat): (n: nat)
    requires at + 2 <= |b|
    ensures n < UINT16_LIMIT
  {
    b[at] as int * 256 + b[at + 1]
  }

  function WriteUInt16(n: nat): (b: Bytes)
    requires n < UINT16_LIMIT
    ensures |b| == 2 && ReadUInt16(b, 0) == n
  {
    [n / 256, n % 256]
  }

  function ReadUInt32(b: Bytes, at: nat): (n: nat)
    requires at + 4 <= |b|
    ensures n < UINT32_LIMIT
  {
    ReadUInt16(b, at) * UINT16_LIMIT + ReadUInt16(b, at + 2)
  }

  function WriteUInt32(n: nat): (b: Bytes)
    requires n < UINT32_LIMIT
    ensures |b| == 4
  {
    WriteUInt16(n / UINT16_LIMIT) + WriteUInt16(n % UINT16_LIMIT)
  }

  lemma WrittenIsRead(n: nat)
    requires n < UINT32_LIMIT
    ensures ReadUInt32(WriteUInt32(n), 0) == n
  {
    var high, low := WriteUInt16(n / UINT16_LIMIT), WriteUInt16(n % UINT16_LIMIT);
    assert ReadUInt16(high + low, 0) == ReadUInt16(high, 0);
    assert ReadUInt16(high + low, 2) == ReadUInt16(low, 0);
  }
}
