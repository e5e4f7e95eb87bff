/** CRC-32 as computed through a table (phase7/stun-fingerprint.mjs: CRC_TABLE, crc32), against its
  bit-by-bit definition, and what it detects. */
module Crc {
  import opened ByteStrings
  import opened CrcWords

  function Octet(c: Word): bv8 {
    LowFits(c);
    (c & 0xFF) as bv8
  }

  function Low(c: Word): Byte {
    ByteOf(Octet(c))
  }

  function ByteOf(w: bv8): Byte {
    w as int
  }

  function Wide(b: Byte): Word {
    OctetOf(b) as bv32
  }

  lemma LowFits(c: Word)
    ensures c & 0xFF <= 0xFF
  {
  }

  lemma WideOfLow(c: Word)
    ensures Wide(Low(c)) == LowPart(c)
  {
    SameOctet(OctetOf(Low(c)), Octet(c));
  }

  lemma WideFits(b: Byte)
    ensures IsOctet(Wide(b))
  {
  }

  lemma WideInjective(a: Byte, b: Byte)
    requires Wide(a) == Wide(b)
    ensures a == b
  {
    assert OctetOf(a) == OctetOf(b);
  }

  // ------------------------------------------------------------------ bit by bit

  /** The register after feeding bytes, least significant bit first. */
  function Fed(c: Word, bytes: Bytes): Word {
    if bytes == [] then c else Shift8(Xor(Fed(c, bytes[..|bytes| - 1]), Wide(bytes[|bytes| - 1])))
  }

  function Crc32(bytes: Bytes): Word {
    Xor(Fed(ONES, bytes), ONES)
  }

  // ------------------------------------------------------------------ through the table

  predicate IsTable(table: seq<Word>) {
    |table| == 256 && forall n: Byte :: table[n] == Shift8(Wide(n))
  }

  method BuildTable() returns (table: array<Word>)
    ensures fresh(table) && IsTable(table[..])
  {
    hide Shift8, Xor, Half, Odd, Wide;
    table := new Word[256];
    for n := 0 to 256
      invariant forall m: Byte | m < n :: table[m] == Shift8(Wide(m))
    {
      var c := Wide(n);
      for k := 0 to 8
        invariant c == Shifted(Wide(n), k)
      {
        c := if Odd(c) then Xor(POLYNOMIAL, Half(c)) else Half(c);
      }
      EightShifts(Wide(n));
      table[n] := c;
    }
  }

  /** One table step is eight single-bit steps. */
  lemma TableStep(table: seq<Word>, c: Word, b: Byte)
    requires IsTable(table)
    ensures Xor(table[Low(Xor(c, Wide(b)))], High(c)) == Shift8(Xor(c, Wide(b)))
  {
    hide Xor, High, Low, Wide, Shift8, Upper, LowPart, IsOctet;
    var x := Xor(c, Wide(b));
    WideFits(b);
    ByteLeavesHigh(c, Wide(b));
    Halves(x);
    WideOfLow(x);
    UpperJustMoves(x);
    LinearShift8(Wide(Low(x)), Upper(x));
  }

  method ComputeCrc32(table: array<Word>, buf: Bytes) returns (crc: Word)
    requires IsTable(table[..])
    ensures crc == Crc32(buf)
  {
    hide Xor, High, Low, Wide, Shift8, IsTable;
    var c: Word := ONES;
    TableLength(table[..]);
    for i := 0 to |buf|
      invariant c == Fed(ONES, buf[..i])
    {
      TableStep(table[..], c, buf[i]);
      assert buf[..i + 1][..i] == buf[..i];
      c := Xor(table[Low(Xor(c, Wide(buf[i])))], High(c));
    }
    assert buf[..|buf|] == buf;
    crc := Xor(c, ONES);
  }

  lemma TableLength(table: seq<Word>)
    requires IsTable(table)
    ensures |table| == 256
  {
  }

  // ------------------------------------------------------------------ error detection

  lemma {:induction false} FedConcat(c: Word, a: Bytes, b: Bytes)
    ensures Fed(c, a + b) == Fed(Fed(c, a), b)
  {
    hide Shift8, Xor, Wide;
    if b == [] {
      assert a + b == a;
    } else {
      var all := a + b;
      assert all[..|all| - 1] == a + b[..|b| - 1] && all[|all| - 1] == b[|b| - 1];
      FedConcat(c, a, b[..|b| - 1]);
    }
  }

  /** Different registers stay different over the same bytes. */
  lemma {:induction false} FedInjective(c: Word, d: Word, bytes: Bytes)
    requires Fed(c, bytes) == Fed(d, bytes)
    ensures c == d
  {
    hide Shift8, Xor, Wide;
    if bytes != [] {
      var init, w := bytes[..|bytes| - 1], Wide(bytes[|bytes| - 1]);
      Shift8Injective(Xor(Fed(c, init), w), Xor(Fed(d, init), w));
      XorInjective(Fed(c, init), Fed(d, init), w);
      FedInjective(c, d, init);
    }
  }

  // ------------------------------------------------------------------ bursts of up to four bytes

  /** The bytes placed in a word, the first one lowest. */
  function Placed(bytes: Bytes): Word {
    if bytes == [] then 0 else Xor(Wide(bytes[0]), Up(Placed(bytes[1..])))
  }

  lemma PlacedStep(b: Byte, w: Word, k: nat)
    requires k < 4 && Fits(w, k)
    ensures Fits(Xor(Wide(b), Up(w)), k + 1)
    ensures LowPart(Xor(Wide(b), Up(w))) == Wide(b) && High(Xor(Wide(b), Up(w))) == w
  {
    hide Wide, Xor, Up, Fits, LowPart, High;
    WideFits(b);
    PlaceLowest(Wide(b), w, k);
  }

  lemma {:induction false} PlacedFits(bytes: Bytes)
    requires |bytes| <= 4
    ensures Fits(Placed(bytes), |bytes|)
  {
    hide Xor, Wide, Up, Fits;
    if bytes == [] {
      NothingFits();
    } else {
      PlacedFits(bytes[1..]);
      PlacedStep(bytes[0], Placed(bytes[1..]), |bytes| - 1);
    }
  }

  lemma {:induction false} PlacedInjective(a: Bytes, b: Bytes)
    requires |a| == |b| <= 4 && Placed(a) == Placed(b)
    ensures a == b
  {
    hide Xor, Wide, Up, Fits, LowPart, High;
    if a != [] {
      PlacedFits(a[1..]);
      PlacedFits(b[1..]);
      PlacedStep(a[0], Placed(a[1..]), |a| - 1);
      PlacedStep(b[0], Placed(b[1..]), |b| - 1);
      WideInjective(a[0], b[0]);
      PlacedInjective(a[1..], b[1..]);
      assert a == [a[0]] + a[1..] && b == [b[0]] + b[1..];
    }
  }

  /** Feeding up to four bytes is placing them all at once and shifting. */
  lemma {:induction false} FedAtOnce(c: Word, bytes: Bytes)
    requires |bytes| <= 4
    ensures Fed(c, bytes) == Shift8Times(Xor(c, Placed(bytes)), |bytes|)
    decreases |bytes|
  {
    hide Shift8, Xor, Wide, Up, Fits;
    if bytes == [] {
      XorCancels(c);
    } else {
      var b, rest := bytes[0], bytes[1..];
      assert [b] + rest == bytes;
      FedConcat(c, [b], rest);
      assert [b][..0] == [] && Fed(c, [b]) == Shift8(Xor(c, Wide(b)));
      FedAtOnce(Fed(c, [b]), rest);
      PlacedFits(rest);
      UpComesBack(Placed(rest), |rest|);
      LinearShift8(Xor(c, Wide(b)), Up(Placed(rest)));
      XorAssociative(c, Wide(b), Up(Placed(rest)));
    }
  }

  /** Any change confined to four consecutive bytes changes the checksum. */
  lemma BurstDetected(before: Bytes, x: Bytes, y: Bytes, after: Bytes)
    requires |x| == |y| <= 4 && x != y
    ensures Crc32(before + x + after) != Crc32(before + y + after)
  {
    hide Fed, Xor;
    if Crc32(before + x + after) == Crc32(before + y + after) {
      XorInjective(Fed(ONES, before + x + after), Fed(ONES, before + y + after), ONES);
      FedConcat(ONES, before + x, after);
      FedConcat(ONES, before + y, after);
      FedInjective(Fed(ONES, before + x), Fed(ONES, before + y), after);
      FedConcat(ONES, before, x);
      FedConcat(ONES, before, y);
      SameBurst(Fed(ONES, before), x, y);
    }
  }

  lemma SameBurst(c: Word, x: Bytes, y: Bytes)
    requires |x| == |y| <= 4 && Fed(c, x) == Fed(c, y)
    ensures x == y
  {
    hide Fed, Xor, Placed;
    FedAtOnce(c, x);
    FedAtOnce(c, y);
    Shift8TimesInjective(Xor(c, Placed(x)), Xor(c, Placed(y)), |x|);
    XorCommutative(c, Placed(x));
    XorCommutative(c, Placed(y));
    XorInjective(Placed(x), Placed(y), c);
    PlacedInjective(x, y);
  }
}
