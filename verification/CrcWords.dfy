/** The 32-bit words a CRC register goes through, and one-bit steps on them
  (phase7/stun-fingerprint.mjs, the inner loop filling CRC_TABLE). The operations are named so that
  longer arguments can treat them as given: eight steps distribute over exclusive or and can be undone.
  Crc.dfy and StunFingerprint.dfy reason about byte strings only, so that words and sequences stay
  apart. */
module CrcWords {
  type Word = bv32

  const POLYNOMIAL: Word := 0xEDB88320
  const ONES: Word := 0xFFFF_FFFF

  function Xor(a: Word, b: Word): Word {
    a ^ b
  }

  function Half(c: Word): Word {
    c >> 1
  }

  predicate Odd(c: Word) {
    c & 1 == 1
  }

  function High(c: Word): Word {
    c >> 8
  }

  lemma XorAssociative(a: Word, b: Word, c: Word)
    ensures Xor(Xor(a, b), c) == Xor(a, Xor(b, c))
  {
  }

  lemma XorCommutative(a: Word, b: Word)
    ensures Xor(a, b) == Xor(b, a)
  {
  }

  lemma XorCancels(a: Word)
    ensures Xor(a, a) == 0 && Xor(a, 0) == a
  {
  }

  function Shift(c: Word): Word {
    if Odd(c) then Xor(POLYNOMIAL, Half(c)) else Half(c)
  }

  function Shift4(c: Word): Word {
    Shift(Shift(Shift(Shift(c))))
  }

  function Shift8(c: Word): Word {
    Shift4(Shift4(c))
  }

  function Shifted(c: Word, k: nat): Word {
    if k == 0 then c else Shift(Shifted(c, k - 1))
  }

  lemma EightShifts(c: Word)
    ensures Shifted(c, 8) == Shift8(c)
  {
    hide Shift;
    assert Shifted(c, 1) == Shift(c);
    assert Shifted(c, 3) == Shift(Shift(Shifted(c, 1)));
    assert Shifted(c, 5) == Shift(Shift(Shifted(c, 3)));
    assert Shifted(c, 7) == Shift(Shift(Shifted(c, 5)));
  }

  lemma Bits(a: Word, b: Word)
    ensures (a ^ b) & 1 == (a & 1) ^ (b & 1) && (a ^ b) >> 1 == (a >> 1) ^ (b >> 1)
    ensures a & 1 == 0 || a & 1 == 1
  {
  }

  lemma Parity(a: Word, b: Word)
    ensures Odd(Xor(a, b)) <==> Odd(a) != Odd(b)
    ensures Half(Xor(a, b)) == Xor(Half(a), Half(b))
  {
    Bits(a, b);
    Bits(b, a);
    Bits(a ^ b, 0);
  }

  /** A shift distributes over exclusive or. */
  lemma LinearShift(a: Word, b: Word)
    ensures Shift(Xor(a, b)) == Xor(Shift(a), Shift(b))
  {
    hide Xor, Odd, Half;
    var p, x, y := POLYNOMIAL, Half(a), Half(b);
    Parity(a, b);
    XorAssociative(p, x, y);
    XorMiddle(x, p, y);
    var xy := Xor(x, y);
    XorAssociative(p, x, Xor(p, y));
    XorAssociative(p, p, xy);
    XorCancels(p);
    XorCommutative(0, xy);
    XorCancels(xy);
  }

  lemma XorMiddle(x: Word, p: Word, y: Word)
    ensures Xor(x, Xor(p, y)) == Xor(p, Xor(x, y))
  {
    hide Xor;
    XorAssociative(x, p, y);
    XorCommutative(x, p);
    XorAssociative(p, x, y);
  }

  lemma LinearShift8(a: Word, b: Word)
    ensures Shift8(Xor(a, b)) == Xor(Shift8(a), Shift8(b))
  {
    hide Shift4, Shift, Xor;
    LinearShift4(a, b);
    LinearShift4(Shift4(a), Shift4(b));
  }

  lemma LinearShift4(a: Word, b: Word)
    ensures Shift4(Xor(a, b)) == Xor(Shift4(a), Shift4(b))
  {
    hide Shift, Xor;
    LinearShift(a, b);
    LinearShift(Shift(a), Shift(b));
    LinearShift(Shift(Shift(a)), Shift(Shift(b)));
    LinearShift(Shift(Shift(Shift(a))), Shift(Shift(Shift(b))));
  }

  function Upper(c: Word): Word {
    c & 0xFFFF_FF00
  }

  /** Without low bits eight shifts feed nothing back. */
  lemma UpperJustMoves(c: Word)
    ensures Shift8(Upper(c)) == High(c)
  {
  }

  lemma Halves(c: Word)
    ensures c == Xor(LowPart(c), Upper(c))
  {
  }

  lemma ByteLeavesHigh(c: Word, w: Word)
    requires IsOctet(w)
    ensures High(Xor(c, w)) == High(c)
  {
  }

  /** The polynomial's top bit records which way a shift went, so it can be undone. */
  lemma ShiftInjective(a: Word, b: Word)
    requires Shift(a) == Shift(b)
    ensures a == b
  {
  }

  lemma Shift4Injective(a: Word, b: Word)
    requires Shift4(a) == Shift4(b)
    ensures a == b
  {
    hide Shift;
    ShiftInjective(Shift(Shift(Shift(a))), Shift(Shift(Shift(b))));
    ShiftInjective(Shift(Shift(a)), Shift(Shift(b)));
    ShiftInjective(Shift(a), Shift(b));
    ShiftInjective(a, b);
  }

  lemma Shift8Injective(a: Word, b: Word)
    requires Shift8(a) == Shift8(b)
    ensures a == b
  {
    hide Shift4;
    Shift4Injective(Shift4(a), Shift4(b));
    Shift4Injective(a, b);
  }

  lemma XorInjective(a: Word, b: Word, x: Word)
    requires Xor(a, x) == Xor(b, x)
    ensures a == b
  {
    assert (a ^ x) ^ x == a && (b ^ x) ^ x == b;
  }

  function Up(w: Word): Word {
    w << 8
  }

  function Limit(k: nat): Word {
    if k == 0 then 0 else if k == 1 then 0xFF else if k == 2 then 0xFFFF else if k == 3 then 0xFF_FFFF else ONES
  }

  /** The word has at most k bytes. */
  predicate Fits(w: Word, k: nat) {
    w <= Limit(k)
  }

  function LowPart(w: Word): Word {
    w & 0xFF
  }

  lemma NothingFits()
    ensures Fits(0, 0)
  {
  }

  lemma UpComesBack(w: Word, k: nat)
    requires k <= 3 && Fits(w, k)
    ensures Shift8(Up(w)) == w
  {
    assert w <= 0xFF_FFFF;
    NoFeedback(w);
  }

  lemma NoFeedback(w: Word)
    requires w <= 0xFF_FFFF
    ensures Shift8(Up(w)) == w
  {
  }

  function Shift8Times(c: Word, k: nat): Word
    decreases k
  {
    if k == 0 then c else Shift8Times(Shift8(c), k - 1)
  }

  lemma {:induction false} Shift8TimesInjective(a: Word, b: Word, k: nat)
    requires Shift8Times(a, k) == Shift8Times(b, k)
    ensures a == b
    decreases k
  {
    hide Shift8;
    if k > 0 {
      Shift8TimesInjective(Shift8(a), Shift8(b), k - 1);
      Shift8Injective(a, b);
    }
  }

  /** At most eight bits. */
  predicate IsOctet(b: Word) {
    b <= 0xFF
  }

  lemma PlaceLowest(b: Word, w: Word, k: nat)
    requires IsOctet(b) && k < 4 && Fits(w, k)
    ensures Fits(Xor(b, Up(w)), k + 1) && LowPart(Xor(b, Up(w))) == b && High(Xor(b, Up(w))) == w
  {
  }
}
