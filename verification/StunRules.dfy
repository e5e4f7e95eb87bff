/** The FINGERPRINT attribute told by offsets and bytes (phase7/stun-fingerprint.mjs; section 15.5 of
  RFC 5389): where it is found, when a message verifies, and what appending writes. */
module StunRules {
  import opened ByteStrings
  import opened Crc
  import opened CrcWords
  import opened StunFingerprint
  import opened Wrappers

  function Field(msg: Bytes, at: nat): nat
    requires at + 2 <= |msg|
  {
    msg[at] as int * 256 + msg[at + 1]
  }

  /** Where the attributes end: at the length the header declares, or with the message if it is shorter. */
  function Limit(msg: Bytes): nat
    requires |msg| >= 4
  {
    if |msg| < 20 + Field(msg, 2) then |msg| else 20 + Field(msg, 2)
  }

  /** Some other attribute at the offset, the next one starting behind its padding at the second. */
  predicate Skips(msg: Bytes, end: nat, off: nat, next: nat) {
    && off + 4 <= end <= |msg| && Field(msg, off) != 0x8028
    && next == off + 4 + (Field(msg, off + 2) + 3) / 4 * 4 && next <= end + 4
  }

  /** Offsets of attributes that follow one another. */
  predicate Path(msg: Bytes, end: nat, offs: seq<nat>) {
    offs != [] && forall i | 0 <= i < |offs| - 1 :: Skips(msg, end, offs[i], offs[i + 1])
  }

  /** A fingerprint of the right size starts at the offset, its value possibly behind the declared end. */
  predicate FingerprintAt(msg: Bytes, end: nat, o: nat, value: nat) {
    && o + 4 <= end <= |msg| && o + 8 <= end + 4 && o + 8 <= |msg|
    && Field(msg, o) == 0x8028 && Field(msg, o + 2) == 4
    && value == Field(msg, o + 4) * 0x1_0000 + Field(msg, o + 6)
  }

  ghost predicate Leads(msg: Bytes, end: nat, from: nat, o: nat, value: nat) {
    exists offs :: Path(msg, end, offs) && offs[0] == from && offs[|offs| - 1] == o && FingerprintAt(msg, end, o, value)
  }

  lemma PaddingIs(len: nat)
    ensures PaddedLength(len) == 4 + (len + 3) / 4 * 4
  {
  }

  lemma LeadsOn(msg: Bytes, end: nat, off: nat, next: nat, o: nat, value: nat)
    requires Skips(msg, end, off, next) && Leads(msg, end, next, o, value)
    ensures Leads(msg, end, off, o, value)
  {
    hide Skips, FingerprintAt;
    var offs :| Path(msg, end, offs) && offs[0] == next && offs[|offs| - 1] == o && FingerprintAt(msg, end, o, value);
    var longer := [off] + offs;
    forall i | 0 <= i < |longer| - 1 ensures Skips(msg, end, longer[i], longer[i + 1]) {
      if i > 0 {
        assert longer[i] == offs[i - 1] && longer[i + 1] == offs[i];
        assert Skips(msg, end, offs[i - 1], offs[i - 1 + 1]);
      }
    }
    assert longer[|longer| - 1] == o;
  }

  lemma LeadsBack(msg: Bytes, end: nat, off: nat, o: nat, value: nat)
    requires Leads(msg, end, off, o, value)
    ensures (FingerprintAt(msg, end, off, value) && o == off) || exists next ::
          Skips(msg, end, off, next) && Leads(msg, end, next, o, value)
  {
    hide Skips, FingerprintAt;
    var offs :| Path(msg, end, offs) && offs[0] == off && offs[|offs| - 1] == o && FingerprintAt(msg, end, o, value);
    if |offs| > 1 {
      var tail := offs[1..];
      assert Skips(msg, end, offs[0], offs[0 + 1]);
      forall i | 0 <= i < |tail| - 1 ensures Skips(msg, end, tail[i], tail[i + 1]) {
        assert Skips(msg, end, offs[i + 1], offs[i + 1 + 1]);
      }
      assert Path(msg, end, tail) && tail[0] == offs[1] && tail[|tail| - 1] == o;
    }
  }

  lemma LeadsHere(msg: Bytes, end: nat, o: nat, value: nat)
    requires FingerprintAt(msg, end, o, value)
    ensures Leads(msg, end, o, o, value)
  {
    assert Path(msg, end, [o]) && [o][0] == o && [o][|[o]| - 1] == o;
  }

  lemma {:induction false} WalkIff(msg: Bytes, end: nat, off: nat, o: nat, value: nat)
    requires end <= |msg|
    ensures FindFrom(msg, end, off) == Some(Fingerprint(o, value)) <==> Leads(msg, end, off, o, value)
    decreases end - off
  {
    if off + 4 <= end {
      var len := Field(msg, off + 2);
      var next := off + PaddedLength(len);
      PaddingIs(len);
      PaddingIs(4);
      if Leads(msg, end, off, o, value) {
        LeadsBack(msg, end, off, o, value);
      }
      hide Leads;
      if Field(msg, off) == 0x8028 {
        if FingerprintAt(msg, end, off, value) {
          LeadsHere(msg, end, off, value);
        }
      } else if next <= end + 4 {
        assert Skips(msg, end, off, next);
        WalkIff(msg, end, next, o, value);
        if Leads(msg, end, next, o, value) {
          LeadsOn(msg, end, off, next, o, value);
        }
      }
    } else if Leads(msg, end, off, o, value) {
      LeadsBack(msg, end, off, o, value);
    }
  }

  /** The message has a fingerprint at the offset: a walk over its other attributes, each with its padding,
    leads there from offset 20 on. */
  ghost predicate Has(msg: Bytes, o: nat, value: nat) {
    |msg| >= 28 && Leads(msg, Limit(msg), 20, o, value)
  }

  lemma FoundIff(msg: Bytes, o: nat, value: nat)
    ensures Find(msg) == Some(Fingerprint(o, value)) <==> Has(msg, o, value)
  {
    hide FindFrom, Leads;
    if |msg| >= 28 {
      WalkIff(msg, Limit(msg), 20, o, value);
    }
  }

  /** The value a fingerprint carries over these bytes. */
  predicate Marks(covered: Bytes, value: nat) {
    value == Xor(Crc32(covered), 0x5354_554E) as int
  }

  /** A message that has a fingerprint verifies exactly if it marks everything before it; one without
    verifies exactly if none is required. */
  lemma VerifiesIff(msg: Bytes, required: bool)
    ensures forall o: nat, value: nat | Has(msg, o, value) ::
          Verifies(msg, required) <==> o <= |msg| && Marks(msg[..o], value)
    ensures (forall o: nat, value: nat :: !Has(msg, o, value)) ==> (Verifies(msg, required) <==> !required)
  {
    hide Find, Has, Crc32, Xor;
    forall o: nat, value: nat ensures Find(msg) == Some(Fingerprint(o, value)) <==> Has(msg, o, value) {
      FoundIff(msg, o, value);
    }
  }

  /** Appending fails only for a message too short to have a length field or too long for one more
    attribute. Otherwise it raises the length field by 8, changes nothing else, and adds the attribute,
    whose value marks the message so changed. */
  lemma AppendWrites(msg: Bytes)
    ensures Appended(msg).Some? <==> |msg| >= 4 && Field(msg, 2) + 8 <= 0xFFFF
    ensures Appended(msg).Some? ==>
      var out, n := Appended(msg).value, |msg|;
      && |out| == n + 8 && Field(out, 2) == Field(msg, 2) + 8 &&
        (forall i | 0 <= i < n && i != 2 && i != 3 :: out[i] == msg[i])
      && Field(out, n) == 0x8028 && Field(out, n + 2) == 4
      && Marks(out[..n], Field(out, n + 4) * 0x1_0000 + Field(out, n + 6))
  {
    hide Crc32, Xor;
    if |msg| >= 4 && Field(msg, 2) + 8 <= 0xFFFF {
      AppendedBytes(msg);
    }
  }

  lemma AppendedBytes(msg: Bytes)
    requires |msg| >= 4 && ReadUInt16(msg, 2) + 8 < UINT16_LIMIT
    ensures var out, n := Appended(msg).value, |msg|;
      && |out| == n + 8 && out[..n] == Announced(msg) && Field(out, 2) == Field(msg, 2) + 8
      && (forall i | 0 <= i < n && i != 2 && i != 3 :: out[i] == msg[i])
      && Field(out, n) == 0x8028 && Field(out, n + 2) == 4
      && Field(out, n + 4) * 0x1_0000 + Field(out, n + 6) == Expected(Announced(msg))
  {
    hide Expected;
    var head, n := Announced(msg), |msg|;
    var value := WriteUInt32(Expected(head));
    var out := Appended(msg).value;
    WrittenIsRead(Expected(head));
    var raised := WriteUInt16(ReadUInt16(msg, 2) + 8);
    assert head == msg[..2] + raised + msg[4..];
    assert out == head + WriteUInt16(0x8028) + WriteUInt16(4) + value;
    assert forall i | 0 <= i < n :: out[i] == head[i];
    assert out[2] == raised[0] && out[3] == raised[1];
    assert forall k | 0 <= k < 4 :: out[n + 4 + k] == value[k];
    assert out[n] == WriteUInt16(0x8028)[0] && out[n + 1] == WriteUInt16(0x8028)[1];
    assert out[n + 2] == WriteUInt16(4)[0] && out[n + 3] == WriteUInt16(4)[1];
  }
}
