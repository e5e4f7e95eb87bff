/** The FINGERPRINT attribute of STUN messages (phase7/stun-fingerprint.mjs; section 15.5 of RFC 5389):
  appended last, it carries the CRC of everything before it, computed with the header's length field
  already counting the attribute itself. */
module StunFingerprint {
  import opened ByteStrings
  import opened Crc
  import opened CrcWords
  import opened Wrappers

  const FINGERPRINT_TYPE := 0x8028
  const FINGERPRINT_XOR: Word := 0x5354_554E
  const HEADER := 20

  datatype Fingerprint = Fingerprint(offset: nat, value: nat)

  /** Attribute header plus value, padded to four bytes. */
  function PaddedLength(len: nat): (n: nat)
    ensures n >= 4 + len && n % 4 == 0
  {
    4 + len + (4 - len % 4) % 4
  }

  /** The walk over the attributes from an offset on. */
  function FindFrom(msg: Bytes, end: nat, off: nat): Option<Fingerprint>
    requires end <= |msg|
    decreases end - off
  {
    if off + 4 > end then None
    else
      var len := ReadUInt16(msg, off + 2);
      if off + PaddedLength(len) > end + 4 then None
      else if ReadUInt16(msg, off) == FINGERPRINT_TYPE then
        if len != 4 || off + 8 > |msg| then None else Some(Fingerprint(off, ReadUInt32(msg, off + 4)))
      else FindFrom(msg, end, off + PaddedLength(len))
  }

  function End(msg: Bytes): nat
    requires |msg| >= 4
  {
    var declared := HEADER + ReadUInt16(msg, 2);
    if |msg| < declared then |msg| else declared
  }

  function Find(msg: Bytes): Option<Fingerprint> {
    if |msg| < HEADER + 8 then None else FindFrom(msg, End(msg), HEADER)
  }

  method FindFingerprint(msg: Bytes) returns (fp: Option<Fingerprint>)
    ensures fp == Find(msg)
  {
    if |msg| < HEADER + 8 {
      return None;
    }
    var attrLen := ReadUInt16(msg, 2);
    var end := if |msg| < HEADER + attrLen then |msg| else HEADER + attrLen;
    var off := HEADER;
    while off + 4 <= end
      invariant FindFrom(msg, end, off) == Find(msg)
      decreases end - off
    {
      var kind := ReadUInt16(msg, off);
      var len := ReadUInt16(msg, off + 2);
      var padded := 4 + len + (4 - len % 4) % 4;
      if off + padded > end + 4 {
        return None;
      }
      if kind == FINGERPRINT_TYPE {
        if len != 4 {
          return None;
        }
        if off + 8 > |msg| {
          return None;
        }
        return Some(Fingerprint(off, ReadUInt32(msg, off + 4)));
      }
      off := off + padded;
    }
    fp := None;
  }

  /** The value a fingerprint over these bytes carries. */
  function Expected(covered: Bytes): (n: nat)
    ensures n < UINT32_LIMIT
  {
    Xor(Crc32(covered), FINGERPRINT_XOR) as int
  }

  predicate Verifies(msg: Bytes, required: bool) {
    var fp := Find(msg);
    if fp.None? then !required else fp.value.offset <= |msg| && Expected(msg[..fp.value.offset]) == fp.value.value
  }

  method VerifyFingerprint(table: array<Word>, msg: Bytes, required: bool) returns (ok: bool)
    requires IsTable(table[..])
    ensures ok == Verifies(msg, required)
  {
    hide Crc32, IsTable, Xor;
    var fp := FindFingerprint(msg);
    if fp.None? {
      return !required;
    }
    FoundInside(msg, End(msg), HEADER);
    var crc := ComputeCrc32(table, msg[..fp.value.offset]);
    ok := Xor(crc, FINGERPRINT_XOR) as int == fp.value.value;
  }

  lemma {:induction false} FoundInside(msg: Bytes, end: nat, off: nat)
    requires end <= |msg|
    ensures FindFrom(msg, end, off).Some? ==> off <= FindFrom(msg, end, off).value.offset && FindFrom(msg, end, off).value.offset + 8 <= |msg|
    decreases end - off
  {
    if off + 4 <= end {
      FoundInside(msg, end, off + PaddedLength(ReadUInt16(msg, off + 2)));
    }
  }

  // ------------------------------------------------------------------ appending

  function PutUInt16(msg: Bytes, at: nat, n: nat): (r: Bytes)
    requires at + 2 <= |msg| && n < UINT16_LIMIT
    ensures |r| == |msg|
  {
    msg[..at] + WriteUInt16(n) + msg[at + 2..]
  }

  /** The message with its length field counting one more fingerprint. */
  function Announced(msg: Bytes): (r: Bytes)
    requires |msg| >= 4 && ReadUInt16(msg, 2) + 8 < UINT16_LIMIT
    ensures |r| == |msg|
  {
    PutUInt16(msg, 2, ReadUInt16(msg, 2) + 8)
  }

  /** Reading the length of a shorter buffer, or writing one beyond 16 bits, throws. */
  function Appended(msg: Bytes): Option<Bytes> {
    if |msg| < 4 || ReadUInt16(msg, 2) + 8 >= UINT16_LIMIT then None
    else
      var head := Announced(msg);
      Some(head + WriteUInt16(FINGERPRINT_TYPE) + WriteUInt16(4) + WriteUInt32(Expected(head)))
  }

  method WriteInto(out: array<Byte>, at: nat, bytes: Bytes)
    requires at + |bytes| <= out.Length
    modifies out
    ensures out[..] == old(out[..at]) + bytes + old(out[at + |bytes|..])
  {
    for k := 0 to |bytes|
      invariant out[..at] == old(out[..at]) && out[at + |bytes|..] == old(out[at + |bytes|..])
      invariant out[at..at + k] == bytes[..k]
    {
      out[at + k] := bytes[k];
    }
    assert out[..] == out[..at] + out[at..at + |bytes|] + out[at + |bytes|..];
  }

  /** A copy of the message with room for the attribute, whose type and length are in place. */
  method WithAttributeHead(msg: Bytes) returns (buffer: array<Byte>)
    ensures fresh(buffer) && buffer.Length == |msg| + 8 && buffer[..|msg|] == msg
    ensures buffer[|msg|..|msg| + 4] == WriteUInt16(FINGERPRINT_TYPE) + WriteUInt16(4)
  {
    var n := |msg|;
    buffer := new Byte[n + 8](_ => 0);
    ghost var zeros := buffer[..];
    WriteInto(buffer, 0, msg);
    WriteInto(buffer, n, WriteUInt16(FINGERPRINT_TYPE));
    WriteInto(buffer, n + 2, WriteUInt16(4));
    HeadWritten(msg, zeros, buffer[..], WriteUInt16(FINGERPRINT_TYPE), WriteUInt16(4));
  }

  method AppendFingerprint(table: array<Word>, msg: Bytes) returns (out: Option<array<Byte>>)
    requires IsTable(table[..])
    ensures out.None? <==> Appended(msg).None?
    ensures out.Some? ==> fresh(out.value) && out.value[..] == Appended(msg).value
  {
    hide Crc32, IsTable, Xor;
    if |msg| < 4 {
      return None;
    }
    var attrLen := ReadUInt16(msg, 2);
    if attrLen + 8 >= UINT16_LIMIT {
      return None;
    }
    hide Announced;
    var n := |msg|;
    var buffer := WithAttributeHead(msg);
    ghost var prepared := buffer[..];
    WriteInto(buffer, 2, WriteUInt16(attrLen + 8));
    LengthWritten(msg, prepared, buffer[..]);
    var crc := ComputeCrc32(table, buffer[..n]);
    var value := Xor(crc, FINGERPRINT_XOR) as int;
    ghost var announced := buffer[..];
    WriteInto(buffer, n + 4, WriteUInt32(value));
    ValueWritten(msg, announced, buffer[..], WriteUInt32(value));
    out := Some(buffer);
  }

  lemma HeadWritten(msg: Bytes, zeros: Bytes, after: Bytes, kind: Bytes, size: Bytes)
    requires |zeros| == |msg| + 8 && |kind| == 2 && |size| == 2
    requires var copied := zeros[..0] + msg + zeros[|msg|..];
             var named := copied[..|msg|] + kind + copied[|msg| + 2..];
             after == named[..|msg| + 2] + size + named[|msg| + 4..]
    ensures |after| == |msg| + 8 && after[..|msg|] == msg && after[|msg|..|msg| + 4] == kind + size
  {
  }

  /** The length field lies inside the message, before the attribute. */
  lemma LengthWritten(msg: Bytes, before: Bytes, after: Bytes)
    requires |msg| >= 4 && ReadUInt16(msg, 2) + 8 < UINT16_LIMIT && |before| == |msg| + 8 && before[..|msg|] == msg
    requires after == before[..2] + WriteUInt16(ReadUInt16(msg, 2) + 8) + before[4..]
    ensures |after| == |before| && after[..|msg|] == Announced(msg) && after[|msg|..] == before[|msg|..]
  {
    var n, w := |msg|, WriteUInt16(ReadUInt16(msg, 2) + 8);
    assert before == msg + before[n..];
    assert before[..2] == msg[..2] && before[4..] == msg[4..] + before[n..];
    assert after == Announced(msg) + before[n..];
  }

  lemma ValueWritten(msg: Bytes, before: Bytes, after: Bytes, value: Bytes)
    requires |msg| >= 4 && ReadUInt16(msg, 2) + 8 < UINT16_LIMIT && |before| == |msg| + 8 && |value| == 4
    requires before[..|msg|] == Announced(msg)
    requires before[|msg|..|msg| + 4] == WriteUInt16(FINGERPRINT_TYPE) + WriteUInt16(4)
    requires after == before[..|msg| + 4] + value + before[|msg| + 8..]
    ensures after == Announced(msg) + WriteUInt16(FINGERPRINT_TYPE) + WriteUInt16(4) + value
  {
    hide Announced;
    var n := |msg|;
    assert before[..n + 4] == before[..n] + before[n..n + 4];
  }

  // ------------------------------------------------------------------ well-formed messages

  /** From the offset on, attributes fill the message exactly, up to its end. */
  predicate Tiled(msg: Bytes, off: nat)
    decreases |msg| - off
  {
    off == |msg| ||
    (off + 4 <= |msg| && off + PaddedLength(ReadUInt16(msg, off + 2)) <= |msg| && Tiled(msg, off + PaddedLength(ReadUInt16(msg, off + 2))))
  }

  predicate WellFormed(msg: Bytes) {
    && |msg| >= HEADER && ReadUInt16(msg, 2) == |msg| - HEADER && |msg| - HEADER + 8 < UINT16_LIMIT
    && Tiled(msg, HEADER)
  }

  predicate HasFingerprint(msg: Bytes, off: nat)
    decreases |msg| - off
  {
    off + 4 <= |msg| &&
    (ReadUInt16(msg, off) == FINGERPRINT_TYPE || HasFingerprint(msg, off + PaddedLength(ReadUInt16(msg, off + 2))))
  }

  /** The same bytes from the offset on, and the new attribute after them. */
  predicate Extends(msg: Bytes, out: Bytes) {
    && |out| == |msg| + 8 && |msg| >= HEADER
    && (forall i | HEADER <= i < |msg| :: out[i] == msg[i])
    && ReadUInt16(out, |msg|) == FINGERPRINT_TYPE && ReadUInt16(out, |msg| + 2) == 4
  }

  /** The walk over the extended message passes all old attributes and stops at the first fingerprint:
    the new one, or an older one. */
  lemma {:induction false} WalkExtended(msg: Bytes, out: Bytes, off: nat)
    requires Extends(msg, out) && off >= HEADER && Tiled(msg, off)
    ensures var fp := FindFrom(out, |out|, off);
      if HasFingerprint(msg, off) then fp == FindFrom(msg, |msg|, off)
      else fp == Some(Fingerprint(|msg|, ReadUInt32(out, |msg| + 4))) && FindFrom(msg, |msg|, off) == None
    decreases |msg| - off
  {
    if off < |msg| {
      assert ReadUInt16(out, off) == ReadUInt16(msg, off) && ReadUInt16(out, off + 2) == ReadUInt16(msg, off + 2);
      if ReadUInt16(msg, off) == FINGERPRINT_TYPE {
        if ReadUInt16(msg, off + 2) == 4 {
          assert PaddedLength(4) == 8;
          assert ReadUInt32(out, off + 4) == ReadUInt32(msg, off + 4);
        }
      } else {
        WalkExtended(msg, out, off + PaddedLength(ReadUInt16(msg, off + 2)));
      }
    } else {
      assert PaddedLength(4) == 8;
    }
  }

  lemma AppendedExtends(msg: Bytes)
    requires WellFormed(msg)
    ensures Appended(msg).Some?
    ensures var out := Appended(msg).value;
      && Extends(msg, out) && out[..|msg|] == Announced(msg) && End(out) == |out|
      && ReadUInt32(out, |msg| + 4) == Expected(Announced(msg))
  {
    hide Expected;
    var out, n := Appended(msg).value, |msg|;
    var head, value := Announced(msg), WriteUInt32(Expected(Announced(msg)));
    WrittenIsRead(Expected(head));
    assert out[n..n + 2] == WriteUInt16(FINGERPRINT_TYPE) && out[n + 2..n + 4] == WriteUInt16(4) && out[n + 4..] == value;
    assert ReadUInt16(out, n) == ReadUInt16(out[n..n + 2], 0) && ReadUInt16(out, n + 2) == ReadUInt16(out[n + 2..n + 4], 0);
    assert ReadUInt32(out, n + 4) == ReadUInt32(value, 0) by {
      assert forall k | 0 <= k < 4 :: out[n + 4 + k] == value[k];
    }
    assert ReadUInt16(out, 2) == ReadUInt16(WriteUInt16(n - HEADER + 8), 0);
  }

  /** What is appended is found and verifies, for every well-formed message without the attribute. */
  lemma AppendedVerifies(msg: Bytes)
    requires WellFormed(msg) && !HasFingerprint(msg, HEADER)
    ensures Appended(msg).Some? && Find(Appended(msg).value) == Some(Fingerprint(|msg|, Expected(Announced(msg))))
    ensures Verifies(Appended(msg).value, true)
  {
    hide Expected, Announced, Appended;
    AppendedExtends(msg);
    WalkExtended(msg, Appended(msg).value, HEADER);
  }

  /** Two messages that differ in their length fields only have different checksums. */
  lemma LengthFieldCounts(a: Bytes, n: nat)
    requires |a| >= 4 && n < UINT16_LIMIT && ReadUInt16(a, 2) != n
    ensures Crc32(a) != Crc32(PutUInt16(a, 2, n))
  {
    hide Crc32;
    var x, y := a[2..4], WriteUInt16(n);
    assert ReadUInt16(x, 0) == ReadUInt16(a, 2) && x != y;
    BurstDetected(a[..2], x, y, a[4..]);
    assert a == a[..2] + x + a[4..];
  }

  lemma ExpectedInjective(a: Bytes, b: Bytes)
    requires Expected(a) == Expected(b)
    ensures Crc32(a) == Crc32(b)
  {
    hide Crc32, Xor;
    SameWord(Xor(Crc32(a), FINGERPRINT_XOR), Xor(Crc32(b), FINGERPRINT_XOR));
    XorInjective(Crc32(a), Crc32(b), FINGERPRINT_XOR);
  }

  lemma SameWord(a: Word, b: Word)
    requires a as int == b as int
    ensures a == b
  {
    assert (a as int) as bv32 == a && (b as int) as bv32 == b;
  }

  /** On a well-formed message that verifies so far, appending yields a message that verifies if and only
    if there was no such attribute before: an older fingerprint is found first, and it no longer fits
    once the length field has changed. */
  lemma AppendVerifiesIff(msg: Bytes)
    requires WellFormed(msg) && Verifies(msg, false)
    ensures Verifies(Appended(msg).value, true) <==> !HasFingerprint(msg, HEADER)
  {
    hide Expected, Appended;
    AppendedExtends(msg);
    var out := Appended(msg).value;
    WalkExtended(msg, out, HEADER);
    if HasFingerprint(msg, HEADER) {
      OldOneFails(msg, out);
    } else {
      AppendedVerifies(msg);
    }
  }

  lemma PrefixAnnounced(msg: Bytes, out: Bytes, o: nat)
    requires 4 <= o <= |msg| <= |out| && ReadUInt16(msg, 2) + 8 < UINT16_LIMIT && out[..|msg|] == Announced(msg)
    ensures out[..o] == PutUInt16(msg[..o], 2, ReadUInt16(msg, 2) + 8) && ReadUInt16(msg[..o], 2) == ReadUInt16(msg, 2)
  {
    assert out[..o] == out[..|msg|][..o];
  }

  lemma OldOneFails(msg: Bytes, out: Bytes)
    requires WellFormed(msg) && Verifies(msg, false) && |out| == |msg| + 8 && out[..|msg|] == Announced(msg) && End(out) == |out|
    requires FindFrom(out, |out|, HEADER) == FindFrom(msg, |msg|, HEADER)
    ensures !Verifies(out, true)
  {
    hide Expected, FindFrom, PutUInt16, Announced, Tiled;
    var fp := FindFrom(out, |out|, HEADER);
    if fp.Some? {
      FoundInside(msg, |msg|, HEADER);
      AnnouncedDiffers(msg, out, fp.value.offset);
    }
  }

  /** Every prefix that holds the length field has another checksum once the field is raised. */
  lemma AnnouncedDiffers(msg: Bytes, out: Bytes, o: nat)
    requires 4 <= o <= |msg| <= |out| && ReadUInt16(msg, 2) + 8 < UINT16_LIMIT && out[..|msg|] == Announced(msg)
    ensures Expected(out[..o]) != Expected(msg[..o])
  {
    hide Expected, PutUInt16, Announced, Crc32;
    PrefixAnnounced(msg, out, o);
    LengthFieldCounts(msg[..o], ReadUInt16(msg, 2) + 8);
    if Expected(out[..o]) == Expected(msg[..o]) {
      ExpectedInjective(out[..o], msg[..o]);
    }
  }

  /** A change of up to four consecutive covered bytes that leaves the attribute where it is and as it
    is makes the message fail. */
  lemma TamperingDetected(msg: Bytes, forged: Bytes, at: nat, k: nat)
    requires Verifies(msg, true) && |forged| == |msg| && Find(forged) == Find(msg)
    requires k <= 4 && at + k <= Find(msg).value.offset
    requires forged[..at] == msg[..at] && forged[at + k..] == msg[at + k..] && forged != msg
    ensures !Verifies(forged, true)
  {
    hide Expected, Find, Crc32;
    var o := Find(msg).value.offset;
    var x, y, after := msg[at..at + k], forged[at..at + k], msg[at + k..o];
    assert msg == msg[..at] + x + msg[at + k..] && forged == forged[..at] + y + forged[at + k..];
    assert x != y;
    assert msg[..o] == msg[..at] + x + after;
    assert forged[at + k..o] == forged[at + k..][..o - at - k] == after;
    assert forged[..o] == msg[..at] + y + after;
    BurstDetected(msg[..at], x, y, after);
    if Expected(forged[..o]) == Expected(msg[..o]) {
      ExpectedInjective(forged[..o], msg[..o]);
    }
  }
}
