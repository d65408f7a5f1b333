/** The 16-bit frame check sequence of AX.25 (appendix C.2 of RFC 1662): what it computes,
    when it comes out good, and which corruptions it cannot miss. */
module Fcs {
  import opened Wrappers

  const REFLECTED_CCITT_POLYNOMIAL: bv16 := 0x8408
  const FCS_START: bv16 := 0xFFFF
  const GOOD_FCS_RESIDUE: bv16 := 0xF0B8

  /** One shift of the check register. */
  function Step(x: bv16): bv16 {
    if x & 1 == 0 then x >> 1 else (x >> 1) ^ REFLECTED_CCITT_POLYNOMIAL
  }

  function Steps(x: bv16, n: nat): bv16
    decreases n
  {
    if n == 0 then x else Steps(Step(x), n - 1)
  }

  function AddByte(fcs: bv16, b: byte): bv16 { Steps(fcs ^ (b as bv16), 8) }

  function Accumulate(start: bv16, bytes: seq<byte>): bv16
    decreases |bytes|
  {
    if bytes == [] then start else Accumulate(AddByte(start, bytes[0]), bytes[1..])
  }

  /** The check value of a message. */
  function FcsOf(bytes: seq<byte>): bv16 { Accumulate(FCS_START, bytes) }

  lemma {:induction false} AccumulateJoins(start: bv16, a: seq<byte>, b: seq<byte>)
    ensures Accumulate(start, a + b) == Accumulate(Accumulate(start, a), b)
    decreases |a|
  {
    if a == [] {
      assert a + b == b;
    } else {
      assert (a + b)[1..] == a[1..] + b;
      AccumulateJoins(AddByte(start, a[0]), a[1..], b);
    }
  }

  lemma {:induction false} StepsJoin(x: bv16, m: nat, n: nat)
    ensures Steps(x, m + n) == Steps(Steps(x, m), n)
    decreases m
  {
    if m > 0 {
      assert (m + n) - 1 == (m - 1) + n;
      StepsJoin(Step(x), m - 1, n);
    }
  }

  /** The shifting loop of the receiver. */
  method FcsAccumulator(bytes: seq<byte>) returns (fcs: bv16)
    ensures fcs == FcsOf(bytes)
  {
    fcs := 0xFFFF;
    var i := 0;
    while i < |bytes|
      invariant i <= |bytes|
      invariant fcs == FcsOf(bytes[..i])
    {
      ghost var before := fcs;
      fcs := fcs ^ (bytes[i] as bv16);
      var k := 0;
      while k < 8
        invariant k <= 8
        invariant Steps(fcs, 8 - k) == AddByte(before, bytes[i])
      {
        fcs := if fcs & 1 == 0 then fcs >> 1 else (fcs >> 1) ^ REFLECTED_CCITT_POLYNOMIAL;
        k := k + 1;
      }
      assert bytes[..i + 1] == bytes[..i] + [bytes[i]];
      AccumulateJoins(FCS_START, bytes[..i], [bytes[i]]);
      i := i + 1;
    }
    assert bytes[..i] == bytes;
  }

  // ---------------------------------------------------------------- Bit-serial view

  // The word operations, named so that an induction need not look inside them. The lemmas
  // on bare words come first, then the same facts under the names.
  function Xor(a: bv16, b: bv16): bv16 { a ^ b }

  function Half(x: bv16): bv16 { x >> 1 }

  predicate Even(x: bv16) { x & 1 == 0 }

  predicate TopClear(p: bv16) { p & 0x8000 == 0 }

  function BitValue(b: bool): (v: bv16)
    ensures v <= 1
  {
    if b then 1 else 0
  }

  /** A word `p` moved up to make room for the bit `c` below it. */
  function Push(c: bv16, p: bv16): bv16 { c | (p << 1) }

  /** The register after one more bit. */
  function Feed(s: bv16, b: bool): bv16 { Step(Xor(s, BitValue(b))) }

  /** The register fed one bit at a time, in the order the bits are sent. */
  function Serial(s: bv16, bits: seq<bool>): bv16
    decreases |bits|
  {
    if bits == [] then s else Serial(Feed(s, bits[0]), bits[1..])
  }

  lemma {:induction false} SerialJoins(s: bv16, a: seq<bool>, b: seq<bool>)
    ensures Serial(s, a + b) == Serial(Serial(s, a), b)
    decreases |a|
  {
    hide Feed;
    if a == [] {
      assert a + b == b;
    } else {
      assert (a + b)[1..] == a[1..] + b;
      SerialJoins(Feed(s, a[0]), a[1..], b);
    }
  }

  /** Bits as a word, the first one sent in the lowest place. */
  function Pack(bits: seq<bool>): bv16 {
    if bits == [] then 0 else Push(BitValue(bits[0]), Pack(bits[1..]))
  }

  lemma BareXorZero(s: bv16)
    ensures s ^ 0 == s
  {}

  lemma BareXorCancels(s: bv16, t: bv16, c: bv16)
    requires s ^ c == t ^ c
    ensures s == t
  {}

  lemma BareXorCommutes(a: bv16, b: bv16)
    ensures a ^ b == b ^ a
  {}

  lemma BareXorSwaps(a: bv16, b: bv16, c: bv16)
    ensures (a ^ b) ^ c == (a ^ c) ^ b
  {}

  lemma BareLowBit(s: bv16, c: bv16, p: bv16)
    requires c <= 1
    ensures (s ^ (c | (p << 1))) & 1 == (s ^ c) & 1
  {}

  lemma BareHighBits(s: bv16, c: bv16, p: bv16)
    requires c <= 1 && p & 0x8000 == 0
    ensures (s ^ (c | (p << 1))) >> 1 == ((s ^ c) >> 1) ^ p
  {}

  lemma BareMask(c: bv16, p: bv16, mask: bv16)
    requires c <= 1 && p & mask == 0
    ensures (c | (p << 1)) & (mask << 1) == 0
  {}

  lemma BareTop(p: bv16, mask: bv16)
    requires p & mask == 0 && mask & 0x8000 == 0x8000
    ensures p & 0x8000 == 0
  {}

  lemma XorZero(s: bv16)
    ensures Xor(s, 0) == s
  {
    BareXorZero(s);
  }

  lemma XorCancels(s: bv16, t: bv16, c: bv16)
    requires Xor(s, c) == Xor(t, c)
    ensures s == t
  {
    BareXorCancels(s, t, c);
  }

  lemma XorCommutes(a: bv16, b: bv16)
    ensures Xor(a, b) == Xor(b, a)
  {
    BareXorCommutes(a, b);
  }

  lemma XorSwaps(a: bv16, b: bv16, c: bv16)
    ensures Xor(Xor(a, b), c) == Xor(Xor(a, c), b)
  {
    BareXorSwaps(a, b, c);
  }

  lemma StepInNames(x: bv16)
    ensures Step(x) == if Even(x) then Half(x) else Xor(Half(x), REFLECTED_CCITT_POLYNOMIAL)
  {}

  lemma LowBitOfPush(s: bv16, c: bv16, p: bv16)
    requires c <= 1
    ensures Even(Xor(s, Push(c, p))) == Even(Xor(s, c))
  {
    BareLowBit(s, c, p);
  }

  lemma HighBitsOfPush(s: bv16, c: bv16, p: bv16)
    requires c <= 1 && TopClear(p)
    ensures Half(Xor(s, Push(c, p))) == Xor(Half(Xor(s, c)), p)
  {
    BareHighBits(s, c, p);
  }

  /** Shifting once feeds the lowest bit and leaves the rest still to be added. */
  lemma StepOfPush(s: bv16, c: bv16, p: bv16)
    requires c <= 1 && TopClear(p)
    ensures Step(Xor(s, Push(c, p))) == Xor(Step(Xor(s, c)), p)
  {
    hide Step, Xor, Push, Half, Even, TopClear;
    LowBitOfPush(s, c, p);
    HighBitsOfPush(s, c, p);
    StepInNames(Xor(s, Push(c, p)));
    StepInNames(Xor(s, c));
    XorSwaps(Half(Xor(s, c)), p, REFLECTED_CCITT_POLYNOMIAL);
  }

  /** The places `n` and up. */
  function Mask(n: nat): bv16 {
    if n == 0 then 0xFFFF else Up(Mask(n - 1))
  }

  function Up(m: bv16): bv16 { m << 1 }

  lemma MaskKeepsTop(n: nat)
    requires n <= 15
    ensures Mask(n) & 0x8000 == 0x8000
  {
    assert Mask(1) == 0xFFFE && Mask(2) == 0xFFFC && Mask(3) == 0xFFF8 && Mask(4) == 0xFFF0;
    assert Mask(5) == 0xFFE0 && Mask(6) == 0xFFC0 && Mask(7) == 0xFF80 && Mask(8) == 0xFF00;
    assert Mask(9) == 0xFE00 && Mask(10) == 0xFC00 && Mask(11) == 0xF800 && Mask(12) == 0xF000;
    assert Mask(13) == 0xE000 && Mask(14) == 0xC000 && Mask(15) == 0x8000;
  }

  /** No place of `p` in `mask` is set. */
  predicate Misses(p: bv16, mask: bv16) { p & mask == 0 }

  lemma PushMisses(c: bv16, p: bv16, mask: bv16)
    requires c <= 1 && Misses(p, mask)
    ensures Misses(Push(c, p), Up(mask))
  {
    BareMask(c, p, mask);
  }

  lemma MissesTop(p: bv16, n: nat)
    requires n <= 15 && Misses(p, Mask(n))
    ensures TopClear(p)
  {
    hide Mask;
    MaskKeepsTop(n);
    BareTop(p, Mask(n));
  }

  lemma {:induction false} PackFits(bits: seq<bool>)
    ensures Misses(Pack(bits), Mask(|bits|))
  {
    hide Misses, Push, Up, BitValue;
    if bits == [] {
      NothingIsSet(Mask(0));
    } else {
      PackFits(bits[1..]);
      PushMisses(BitValue(bits[0]), Pack(bits[1..]), Mask(|bits| - 1));
    }
  }

  lemma NothingIsSet(mask: bv16)
    ensures Misses(0, mask)
  {}

  lemma RestTopClear(bits: seq<bool>)
    requires 1 <= |bits| <= 16
    ensures TopClear(Pack(bits[1..]))
  {
    PackFits(bits[1..]);
    MissesTop(Pack(bits[1..]), |bits| - 1);
  }

  /** Feeding up to sixteen bits is adding them as one word and shifting. */
  lemma {:induction false} SerialIsPacked(s: bv16, bits: seq<bool>)
    requires |bits| <= 16
    ensures Serial(s, bits) == Steps(Xor(s, Pack(bits)), |bits|)
    decreases |bits|
  {
    hide Step, Xor, Push, TopClear, BitValue;
    if bits == [] {
      XorZero(s);
    } else {
      RestTopClear(bits);
      StepOfPush(s, BitValue(bits[0]), Pack(bits[1..]));
      SerialIsPacked(Feed(s, bits[0]), bits[1..]);
    }
  }

  lemma StepIsInjective(x: bv16, y: bv16)
    requires Step(x) == Step(y)
    ensures x == y
  {}

  lemma {:induction false} StepsAreInjective(x: bv16, y: bv16, n: nat)
    requires Steps(x, n) == Steps(y, n)
    ensures x == y
    decreases n
  {
    hide Step;
    if n > 0 {
      StepsAreInjective(Step(x), Step(y), n - 1);
      StepIsInjective(x, y);
    }
  }

  lemma FeedIsInjective(s: bv16, t: bv16, b: bool)
    requires Feed(s, b) == Feed(t, b)
    ensures s == t
  {}

  lemma PushIsInjective(a: bool, p: bv16, b: bool, q: bv16)
    requires TopClear(p) && TopClear(q) && Push(BitValue(a), p) == Push(BitValue(b), q)
    ensures a == b && p == q
  {
    hide Push, TopClear;
    PushWordsApart(BitValue(a), p, BitValue(b), q);
  }

  lemma PushWordsApart(c: bv16, p: bv16, d: bv16, q: bv16)
    requires c <= 1 && d <= 1 && TopClear(p) && TopClear(q) && Push(c, p) == Push(d, q)
    ensures c == d && p == q
  {}

  lemma {:induction false} PackIsInjective(a: seq<bool>, b: seq<bool>)
    requires |a| == |b| <= 16 && Pack(a) == Pack(b)
    ensures a == b
    decreases |a|
  {
    hide Push, TopClear, BitValue;
    if a != [] {
      RestTopClear(a);
      RestTopClear(b);
      PushIsInjective(a[0], Pack(a[1..]), b[0], Pack(b[1..]));
      PackIsInjective(a[1..], b[1..]);
      assert a == [a[0]] + a[1..] && b == [b[0]] + b[1..];
    }
  }

  lemma {:induction false} SerialKeepsStatesApart(s: bv16, t: bv16, bits: seq<bool>)
    requires Serial(s, bits) == Serial(t, bits)
    ensures s == t
    decreases |bits|
  {
    hide Feed;
    if bits != [] {
      SerialKeepsStatesApart(Feed(s, bits[0]), Feed(t, bits[0]), bits[1..]);
      FeedIsInjective(s, t, bits[0]);
    }
  }

  /** From one register state, no two different runs of up to sixteen bits end alike. */
  lemma SerialKeepsBurstsApart(s: bv16, a: seq<bool>, b: seq<bool>)
    requires |a| == |b| <= 16 && Serial(s, a) == Serial(s, b)
    ensures a == b
  {
    hide Xor, Steps, Serial, Pack;
    SerialIsPacked(s, a);
    SerialIsPacked(s, b);
    StepsAreInjective(Xor(s, Pack(a)), Xor(s, Pack(b)), |a|);
    XorCommutes(s, Pack(a));
    XorCommutes(s, Pack(b));
    XorCancels(Pack(a), Pack(b), s);
    PackIsInjective(a, b);
  }

  // ---------------------------------------------------------------- Bytes as bits

  function BitsOf(b: byte): (r: seq<bool>)
    ensures |r| == 8
  {
    [b & 0x01 != 0, b & 0x02 != 0, b & 0x04 != 0, b & 0x08 != 0,
     b & 0x10 != 0, b & 0x20 != 0, b & 0x40 != 0, b & 0x80 != 0]
  }

  /** A message as the bits sent, each byte lowest bit first. */
  function Bits(bytes: seq<byte>): (r: seq<bool>)
    ensures |r| == 8 * |bytes|
  {
    if bytes == [] then [] else BitsOf(bytes[0]) + Bits(bytes[1..])
  }

  /** A byte, and two bytes, as words. */
  function Word(lo: byte, hi: byte): bv16 { (lo as bv16) | ((hi as bv16) << 8) }

  lemma BareByte(b: byte, q: bv16)
    ensures (if b & 0x01 != 0 then 1 else 0) | (((if b & 0x02 != 0 then 1 else 0)
         | (((if b & 0x04 != 0 then 1 else 0) | (((if b & 0x08 != 0 then 1 else 0)
         | (((if b & 0x10 != 0 then 1 else 0) | (((if b & 0x20 != 0 then 1 else 0)
         | (((if b & 0x40 != 0 then 1 else 0) | (((if b & 0x80 != 0 then 1 else 0)
         | (q << 1)) << 1)) << 1)) << 1)) << 1)) << 1)) << 1)) << 1)
         == (b as bv16) | (q << 8)
  {}

  lemma PackCons(bits: seq<bool>)
    requires bits != []
    ensures Pack(bits) == Push(BitValue(bits[0]), Pack(bits[1..]))
  {}

  /** Eight bits in front of a word are a byte below it. */
  lemma PackByte(b: byte, t: seq<bool>)
    ensures Pack(BitsOf(b) + t) == (b as bv16) | (Pack(t) << 8)
  {
    var s := BitsOf(b) + t;
    PackFrom(s, 0);
    assert s[8..] == t;
    BareByte(b, Pack(t));
  }

  lemma PackFrom(s: seq<bool>, i: nat)
    requires i + 8 <= |s|
    ensures Pack(s[i..])
         == Push(BitValue(s[i]), Push(BitValue(s[i + 1]), Push(BitValue(s[i + 2]), Push(BitValue(s[i + 3]),
            Push(BitValue(s[i + 4]), Push(BitValue(s[i + 5]), Push(BitValue(s[i + 6]), Push(BitValue(s[i + 7]),
            Pack(s[i + 8..])))))))))
  {
    hide Push, BitValue;
    forall k | i <= k < i + 8 ensures Pack(s[k..]) == Push(BitValue(s[k]), Pack(s[k + 1..])) {
      PackCons(s[k..]);
      assert s[k..][1..] == s[k + 1..];
    }
  }

  lemma AddByteIsSerial(s: bv16, b: byte)
    ensures AddByte(s, b) == Serial(s, BitsOf(b))
  {
    hide Steps, Serial, Pack;
    SerialIsPacked(s, BitsOf(b));
    assert BitsOf(b) + [] == BitsOf(b);
    PackByte(b, []);
    PackNone(b);
  }

  lemma PackNone(b: byte)
    ensures (b as bv16) | (Pack([]) << 8) == b as bv16
  {}

  /** Checking whole bytes is checking the bits sent. */
  lemma {:induction false} AccumulateIsSerial(s: bv16, bytes: seq<byte>)
    ensures Accumulate(s, bytes) == Serial(s, Bits(bytes))
    decreases |bytes|
  {
    hide AddByte, BitsOf;
    if bytes != [] {
      AddByteIsSerial(s, bytes[0]);
      SerialJoins(s, BitsOf(bytes[0]), Bits(bytes[1..]));
      AccumulateIsSerial(AddByte(s, bytes[0]), bytes[1..]);
    }
  }

  // ---------------------------------------------------------------- The good residue

  lemma PackTwo(lo: byte, hi: byte)
    ensures Pack(Bits([lo, hi])) == Word(lo, hi)
  {
    assert Bits([lo, hi]) == BitsOf(lo) + BitsOf(hi) by {
      assert [lo, hi][1..] == [hi] && [hi][1..] == [];
      assert Bits([hi]) == BitsOf(hi);
    }
    PackByte(lo, BitsOf(hi));
    assert BitsOf(hi) + [] == BitsOf(hi);
    PackByte(hi, []);
    PackNone(hi);
  }

  lemma ResidueOfOnes()
    ensures Steps(0xFFFF, 16) == GOOD_FCS_RESIDUE
  {
    var a := Step(Step(Step(Step(0xFFFF))));
    var b := Step(Step(Step(Step(a))));
    var c := Step(Step(Step(Step(b))));
    var d := Step(Step(Step(Step(c))));
    assert d == GOOD_FCS_RESIDUE;
    FourSteps(0xFFFF, 12);
    FourSteps(a, 8);
    FourSteps(b, 4);
    FourSteps(c, 0);
  }

  lemma FourSteps(x: bv16, n: nat)
    ensures Steps(x, n + 4) == Steps(Step(Step(Step(Step(x)))), n)
  {
    hide Step;
    assert Steps(x, n + 4) == Steps(Step(x), n + 3);
    assert Steps(Step(x), n + 3) == Steps(Step(Step(x)), n + 2);
    assert Steps(Step(Step(x)), n + 2) == Steps(Step(Step(Step(x))), n + 1);
  }

  lemma BareComplement(s: bv16)
    ensures s ^ !s == 0xFFFF
  {}

  function LowByte(x: bv16): byte { (x & 0xFF) as byte }

  function HighByte(x: bv16): byte { (x >> 8) as byte }

  /** The two bytes that follow a message with check value `x`, as the sender writes them:
      the complement, low byte first. */
  function Trailer(x: bv16): (r: seq<byte>)
    ensures |r| == 2
  {
    [LowByte(!x), HighByte(!x)]
  }

  lemma BareParts(lo: byte, hi: byte)
    ensures (((lo as bv16) | ((hi as bv16) << 8)) & 0xFF) as byte == lo
    ensures (((lo as bv16) | ((hi as bv16) << 8)) >> 8) as byte == hi
  {}

  lemma BareJoin(x: bv16)
    ensures ((x & 0xFF) as byte as bv16) | (((x >> 8) as byte as bv16) << 8) == x
  {}

  lemma TrailerIsComplement(x: bv16, lo: byte, hi: byte)
    ensures Word(lo, hi) == !x <==> [lo, hi] == Trailer(x)
  {
    BareParts(lo, hi);
    BareJoin(!x);
    assert LowByte(Word(lo, hi)) == lo && HighByte(Word(lo, hi)) == hi;
    assert Word(LowByte(!x), HighByte(!x)) == !x;
    hide Word, LowByte, HighByte;
  }

  /** A message comes out good exactly when it ends in the complement of the check value of
      what precedes, low byte first. */
  lemma GoodExactlyWhenComplemented(m: seq<byte>, lo: byte, hi: byte)
    ensures FcsOf(m + [lo, hi]) == GOOD_FCS_RESIDUE <==> [lo, hi] == Trailer(FcsOf(m))
  {
    hide Steps, Serial, Pack, Bits, Word, Trailer, Accumulate;
    var s := FcsOf(m);
    AccumulateJoins(FCS_START, m, [lo, hi]);
    AccumulateIsSerial(s, [lo, hi]);
    SerialIsPacked(s, Bits([lo, hi]));
    PackTwo(lo, hi);
    ResidueOfOnes();
    if Steps(Xor(s, Word(lo, hi)), 16) == GOOD_FCS_RESIDUE {
      StepsAreInjective(Xor(s, Word(lo, hi)), 0xFFFF, 16);
    }
    XorIsOnes(s, Word(lo, hi));
    TrailerIsComplement(s, lo, hi);
  }

  lemma XorIsOnes(s: bv16, w: bv16)
    ensures Xor(s, w) == 0xFFFF <==> w == !s
  {
    BareComplement(s);
    assert Xor(s, !s) == 0xFFFF;
    hide Xor;
    if Xor(s, w) == 0xFFFF {
      XorCommutes(s, w);
      XorCommutes(s, !s);
      XorCancels(w, !s, s);
    }
  }

  // ---------------------------------------------------------------- Where the register starts

  /** Two bytes are sixteen shifts of the register with both of them in it. */
  lemma TwoBytes(s: bv16, lo: byte, hi: byte)
    ensures Accumulate(s, [lo, hi]) == Steps(Xor(s, Word(lo, hi)), 16)
  {
    hide Steps, Serial, Pack, Bits, Word, Accumulate;
    AccumulateIsSerial(s, [lo, hi]);
    SerialIsPacked(s, Bits([lo, hi]));
    PackTwo(lo, hi);
  }

  lemma BareNegated(lo: byte, hi: byte)
    ensures 0xFFFF ^ ((lo as bv16) | ((hi as bv16) << 8)) == 0 ^ (((!lo) as bv16) | (((!hi) as bv16) << 8))
  {}

  lemma NegatedWord(lo: byte, hi: byte)
    ensures Xor(0xFFFF, Word(lo, hi)) == Xor(0, Word(!lo, !hi))
  {
    BareNegated(lo, hi);
  }

  /** The first sixteen bits of a message enter complemented: its check value is that of the
      message with its first two bytes inverted, from a register of zeroes. */
  lemma FirstBitsEnterComplemented(m: seq<byte>)
    requires |m| >= 2
    ensures FcsOf(m) == Accumulate(0, [!m[0], !m[1]] + m[2..])
  {
    hide Steps, Word, Accumulate, Xor;
    assert m == [m[0], m[1]] + m[2..];
    AccumulateJoins(0xFFFF, [m[0], m[1]], m[2..]);
    AccumulateJoins(0, [!m[0], !m[1]], m[2..]);
    TwoBytes(0xFFFF, m[0], m[1]);
    TwoBytes(0, !m[0], !m[1]);
    NegatedWord(m[0], m[1]);
  }

  function Zeroes(n: nat): (z: seq<byte>)
    ensures |z| == n
  {
    seq(n, _ => 0)
  }

  lemma AccumulateKeepsStatesApart(s: bv16, t: bv16, m: seq<byte>)
    requires Accumulate(s, m) == Accumulate(t, m)
    ensures s == t
  {
    AccumulateIsSerial(s, m);
    AccumulateIsSerial(t, m);
    SerialKeepsStatesApart(s, t, Bits(m));
  }

  /** Zero bytes put before a message leave its check value alone only where they bring the
      register itself back to its start. */
  lemma LeadingZeroesCountExactlyWhen(n: nat, m: seq<byte>)
    ensures FcsOf(Zeroes(n) + m) == FcsOf(m) <==> FcsOf(Zeroes(n)) == FCS_START
  {
    hide Accumulate;
    AccumulateJoins(FCS_START, Zeroes(n), m);
    if FcsOf(Zeroes(n) + m) == FcsOf(m) { AccumulateKeepsStatesApart(FcsOf(Zeroes(n)), FCS_START, m); }
  }

  lemma EightSteps(x: bv16)
    ensures Steps(x, 8) == Step(Step(Step(Step(Step(Step(Step(Step(x))))))))
  {
    hide Step;
    FourSteps(x, 4);
    FourSteps(Step(Step(Step(Step(x)))), 0);
  }

  lemma AfterByte(s: bv16, b: byte, rest: seq<byte>)
    ensures AddByte(s, b) == Step(Step(Step(Step(Step(Step(Step(Step(s ^ (b as bv16)))))))))
    ensures Accumulate(s, [b] + rest) == Accumulate(AddByte(s, b), rest)
  {
    hide Step, Steps;
    EightSteps(s ^ (b as bv16));
    assert ([b] + rest)[1..] == rest;
  }

  /** One and two zero bytes put before a message change its check value. */
  lemma ZeroByteCounts(m: seq<byte>)
    ensures FcsOf([0] + m) != FcsOf(m) && FcsOf([0, 0] + m) != FcsOf(m)
  {
    AfterByte(0xFFFF, 0, [0]);
    AfterByte(0xFFFF, 0, []);
    AfterByte(0x0F87, 0, []);
    assert AddByte(0xFFFF, 0) == 0x0F87;
    assert AddByte(0x0F87, 0) == GOOD_FCS_RESIDUE;
    hide Accumulate, AddByte;
    assert Zeroes(1) == [0] == [0] + [] && Zeroes(2) == [0, 0] == [0] + [0];
    NothingMore(0x0F87);
    NothingMore(GOOD_FCS_RESIDUE);
    LeadingZeroesCountExactlyWhen(1, m);
    LeadingZeroesCountExactlyWhen(2, m);
  }

  lemma NothingMore(s: bv16)
    ensures Accumulate(s, []) == s
  {}

  /** The check value of the nine digits "123456789", before the sender complements it. */
  lemma NineDigits()
    ensures FcsOf([0x31, 0x32, 0x33, 0x34, 0x35, 0x36, 0x37, 0x38, 0x39]) == 0x6F91
  {
    var first: seq<byte>, last: seq<byte> := [0x31, 0x32, 0x33, 0x34], [0x35, 0x36, 0x37, 0x38, 0x39];
    FirstDigits();
    LastDigits();
    hide Accumulate;
    AccumulateJoins(0xFFFF, first, last);
    assert first + last == [0x31, 0x32, 0x33, 0x34, 0x35, 0x36, 0x37, 0x38, 0x39];
  }

  lemma FirstDigits()
    ensures Accumulate(0xFFFF, [0x31, 0x32, 0x33, 0x34]) == 0x8B13
  {
    AfterByte(0xFFFF, 0x31, [0x32, 0x33, 0x34]);
    AfterByte(0x2F8D, 0x32, [0x33, 0x34]);
    AfterByte(0x4D53, 0x33, [0x34]);
    AfterByte(0x634B, 0x34, []);
    assert AddByte(0xFFFF, 0x31) == 0x2F8D && AddByte(0x2F8D, 0x32) == 0x4D53;
    assert AddByte(0x4D53, 0x33) == 0x634B && AddByte(0x634B, 0x34) == 0x8B13;
    hide Accumulate, AddByte;
    assert [0x31, 0x32, 0x33, 0x34] == [0x31] + [0x32, 0x33, 0x34];
    assert [0x32, 0x33, 0x34] == [0x32] + [0x33, 0x34] && [0x33, 0x34] == [0x33] + [0x34];
    assert [0x34] == [0x34] + [];
    NothingMore(0x8B13);
  }

  lemma LastDigits()
    ensures Accumulate(0x8B13, [0x35, 0x36, 0x37, 0x38, 0x39]) == 0x6F91
  {
    AfterByte(0x8B13, 0x35, [0x36, 0x37, 0x38, 0x39]);
    AfterByte(0x44BF, 0x36, [0x37, 0x38, 0x39]);
    AfterByte(0x198D, 0x37, [0x38, 0x39]);
    AfterByte(0x1AC8, 0x38, [0x39]);
    AfterByte(0xF795, 0x39, []);
    assert AddByte(0x8B13, 0x35) == 0x44BF && AddByte(0x44BF, 0x36) == 0x198D && AddByte(0x198D, 0x37) == 0x1AC8;
    assert AddByte(0x1AC8, 0x38) == 0xF795 && AddByte(0xF795, 0x39) == 0x6F91;
    hide Accumulate, AddByte;
    assert [0x35, 0x36, 0x37, 0x38, 0x39] == [0x35] + [0x36, 0x37, 0x38, 0x39];
    assert [0x36, 0x37, 0x38, 0x39] == [0x36] + [0x37, 0x38, 0x39];
    assert [0x37, 0x38, 0x39] == [0x37] + [0x38, 0x39] && [0x38, 0x39] == [0x38] + [0x39];
    assert [0x39] == [0x39] + [];
    NothingMore(0x6F91);
  }

  // ---------------------------------------------------------------- Detected errors

  lemma BitsOfIsInjective(a: byte, b: byte)
    requires BitsOf(a) == BitsOf(b)
    ensures a == b
  {}

  lemma {:induction false} BitsAreInjective(a: seq<byte>, b: seq<byte>)
    requires |a| == |b| && Bits(a) == Bits(b)
    ensures a == b
    decreases |a|
  {
    hide BitsOf;
    if a != [] {
      assert Bits(a)[..8] == BitsOf(a[0]) && Bits(b)[..8] == BitsOf(b[0]);
      BitsOfIsInjective(a[0], b[0]);
      assert Bits(a)[8..] == Bits(a[1..]) && Bits(b)[8..] == Bits(b[1..]);
      BitsAreInjective(a[1..], b[1..]);
    }
  }

  /** A burst: the frames differ, and only in bits `[p, p + 16)` of what is sent. */
  predicate IsBurst(f: seq<byte>, g: seq<byte>, p: nat) {
    && |f| == |g| && f != g
    && forall k :: 0 <= k < 8 * |f| && !(p <= k < p + 16) ==> Bits(f)[k] == Bits(g)[k]
  }

  /** No burst of up to sixteen bits, wherever it falls in a frame of any length, leaves the
      check value as it was. */
  lemma BurstsAreDetected(f: seq<byte>, g: seq<byte>, p: nat)
    requires IsBurst(f, g, p)
    ensures FcsOf(f) != FcsOf(g)
  {
    hide Serial, Bits, Accumulate;
    var a, b, n := Bits(f), Bits(g), 8 * |f|;
    var lo := if p < n then p else n;
    var hi := if p + 16 < n then p + 16 else n;
    assert a[..lo] == b[..lo];
    assert a[hi..] == b[hi..];
    assert a == a[..lo] + (a[lo..hi] + a[hi..]);
    assert b == b[..lo] + (b[lo..hi] + b[hi..]);
    AccumulateIsSerial(FCS_START, f);
    AccumulateIsSerial(FCS_START, g);
    SplitSerial(a, lo, hi);
    SplitSerial(b, lo, hi);
    if FcsOf(f) == FcsOf(g) {
      var s := Serial(FCS_START, a[..lo]);
      SerialKeepsStatesApart(Serial(s, a[lo..hi]), Serial(s, b[lo..hi]), a[hi..]);
      SerialKeepsBurstsApart(s, a[lo..hi], b[lo..hi]);
      BitsAreInjective(f, g);
    }
  }

  lemma SplitSerial(a: seq<bool>, lo: nat, hi: nat)
    requires lo <= hi <= |a|
    ensures Serial(FCS_START, a) == Serial(Serial(Serial(FCS_START, a[..lo]), a[lo..hi]), a[hi..])
  {
    hide Serial;
    assert a[..lo] + a[lo..] == a;
    assert a[lo..hi] + a[hi..] == a[lo..];
    SerialJoins(FCS_START, a[..lo], a[lo..]);
    SerialJoins(Serial(FCS_START, a[..lo]), a[lo..hi], a[hi..]);
  }

  lemma {:induction false} BitsAt(bytes: seq<byte>, i: nat, j: nat)
    requires i < |bytes| && j < 8
    ensures Bits(bytes)[8 * i + j] == BitsOf(bytes[i])[j]
    decreases i
  {
    hide BitsOf;
    if i > 0 {
      BitsAt(bytes[1..], i - 1, j);
      assert 8 * i + j == 8 + (8 * (i - 1) + j);
    }
  }

  /** In particular, changing one byte or two adjacent bytes of a good frame always leaves
      a bad one. */
  lemma AdjacentBytesAreDetected(f: seq<byte>, g: seq<byte>, i: nat)
    requires |f| == |g| && f != g
    requires forall k :: 0 <= k < |f| && k != i && k != i + 1 ==> f[k] == g[k]
    requires FcsOf(f) == GOOD_FCS_RESIDUE
    ensures FcsOf(g) != GOOD_FCS_RESIDUE
  {
    forall k | 0 <= k < 8 * |f| && !(8 * i <= k < 8 * i + 16) ensures Bits(f)[k] == Bits(g)[k] {
      BitsAt(f, k / 8, k % 8);
      BitsAt(g, k / 8, k % 8);
    }
    assert IsBurst(f, g, 8 * i);
    BurstsAreDetected(f, g, 8 * i);
  }

  // ---------------------------------------------------------------- Odd errors

  /** Whether the lowest `n` places of a word hold an odd number of ones. */
  predicate OddPlaces(x: bv16, n: nat) {
    n > 0 && !Even(x) != OddPlaces(Half(x), n - 1)
  }

  predicate OddWord(x: bv16) { OddPlaces(x, 16) }

  /** Whether an odd number of bits are set. */
  predicate OddBits(bits: seq<bool>)
    decreases |bits|
  {
    bits != [] && bits[0] != OddBits(bits[1..])
  }

  lemma BareHalfXor(x: bv16, y: bv16)
    ensures (x ^ y) >> 1 == (x >> 1) ^ (y >> 1)
  {}

  lemma BareLowXor(x: bv16, y: bv16)
    ensures ((x ^ y) & 1 == 0) <==> ((x & 1 == 0) == (y & 1 == 0))
  {}

  lemma HalfOfXor(x: bv16, y: bv16)
    ensures Half(Xor(x, y)) == Xor(Half(x), Half(y))
    ensures Even(Xor(x, y)) <==> Even(x) == Even(y)
  {
    BareHalfXor(x, y);
    BareLowXor(x, y);
  }

  /** Combining words combines their parities. */
  lemma {:induction false} OddOfXor(x: bv16, y: bv16, n: nat)
    ensures OddPlaces(Xor(x, y), n) <==> OddPlaces(x, n) != OddPlaces(y, n)
    decreases n
  {
    hide Half, Xor, Even;
    if n > 0 {
      HalfOfXor(x, y);
      OddOfXor(Half(x), Half(y), n - 1);
    }
  }

  function Halves(x: bv16, n: nat): bv16
    decreases n
  {
    if n == 0 then x else Halves(Half(x), n - 1)
  }

  lemma {:induction false} OnePlaceMore(x: bv16, n: nat)
    ensures OddPlaces(x, n + 1) <==> OddPlaces(x, n) != !Even(Halves(x, n))
    decreases n
  {
    hide Half, Even;
    if n == 0 {
      assert OddPlaces(x, 1) == (!Even(x) != OddPlaces(Half(x), 0));
    } else {
      OnePlaceMore(Half(x), n - 1);
    }
  }

  lemma BareFourHalves(x: bv16)
    ensures (((x >> 1) >> 1) >> 1) >> 1 == x >> 4
  {}

  lemma BareAllHalves(x: bv16)
    ensures (((x >> 4) >> 4) >> 4) >> 4 == 0
  {}

  lemma FourHalves(x: bv16)
    ensures Half(Half(Half(Half(x)))) == x >> 4
  {
    BareFourHalves(x);
  }

  lemma HalvesInFours(x: bv16, n: nat)
    ensures Halves(x, n + 4) == Halves(x >> 4, n)
  {
    FourHalves(x);
    hide Half;
    assert Halves(x, n + 4) == Halves(Half(x), n + 3) == Halves(Half(Half(x)), n + 2);
    assert Halves(Half(Half(x)), n + 2) == Halves(Half(Half(Half(x))), n + 1);
  }

  /** Halved sixteen times, nothing is left. */
  lemma AllHalves(x: bv16)
    ensures Halves(x, 16) == 0
  {
    BareAllHalves(x);
    hide Halves;
    HalvesInFours(x, 12);
    HalvesInFours(x >> 4, 8);
    HalvesInFours((x >> 4) >> 4, 4);
    HalvesInFours(((x >> 4) >> 4) >> 4, 0);
    NoHalves(0);
  }

  lemma NoHalves(x: bv16)
    ensures Halves(x, 0) == x
  {}

  lemma HalvesOfPolynomial()
    ensures Half(0x8408) == 0x4204 && Even(0x8408)
    ensures Half(0x4204) == 0x2102 && Even(0x4204)
    ensures Half(0x2102) == 0x1081 && Even(0x2102)
    ensures Half(0x1081) == 0x0840 && !Even(0x1081)
    ensures Half(0x0840) == 0x0420 && Even(0x0840)
    ensures Half(0x0420) == 0x0210 && Even(0x0420)
    ensures Half(0x0210) == 0x0108 && Even(0x0210)
    ensures Half(0x0108) == 0x0084 && Even(0x0108)
    ensures Half(0x0084) == 0x0042 && Even(0x0084)
    ensures Half(0x0042) == 0x0021 && Even(0x0042)
    ensures Half(0x0021) == 0x0010 && !Even(0x0021)
    ensures Half(0x0010) == 0x0008 && Even(0x0010)
    ensures Half(0x0008) == 0x0004 && Even(0x0008)
    ensures Half(0x0004) == 0x0002 && Even(0x0004)
    ensures Half(0x0002) == 0x0001 && Even(0x0002)
    ensures Half(0x0001) == 0x0000 && !Even(0x0001)
  {}

  lemma PolynomialIsOdd()
    ensures OddWord(REFLECTED_CCITT_POLYNOMIAL)
  {
    hide Half, Even;
    HalvesOfPolynomial();
    assert OddPlaces(0x0001, 1);
    assert OddPlaces(0x0002, 2);
    assert OddPlaces(0x0004, 3);
    assert OddPlaces(0x0008, 4);
    assert OddPlaces(0x0010, 5);
    assert !OddPlaces(0x0021, 6);
    assert !OddPlaces(0x0042, 7);
    assert !OddPlaces(0x0084, 8);
    assert !OddPlaces(0x0108, 9);
    assert !OddPlaces(0x0210, 10);
    assert !OddPlaces(0x0420, 11);
    assert !OddPlaces(0x0840, 12);
    assert OddPlaces(0x1081, 13);
    assert OddPlaces(0x2102, 14);
    assert OddPlaces(0x4204, 15);
    assert OddPlaces(0x8408, 16);
  }

  lemma {:induction false} NoOnes(n: nat)
    ensures !OddPlaces(0, n)
    decreases n
  {
    if n > 0 { NoOnes(n - 1); }
  }

  /** A shift keeps the parity: the polynomial has three ones, which make up for the one
      shifted out with the two it leaves. */
  lemma StepKeepsParity(x: bv16)
    ensures OddWord(Step(x)) == OddWord(x)
  {
    StepInNames(x);
    PolynomialIsOdd();
    OddOfXor(Half(x), REFLECTED_CCITT_POLYNOMIAL, 16);
    OnePlaceMore(Half(x), 15);
    AllHalves(x);
    ZeroIsEven();
    hide Step, Half, Xor, Even;
    assert Halves(x, 16) == Halves(Half(x), 15);
  }

  lemma ZeroIsEven()
    ensures Even(0)
  {}

  lemma {:induction false} SerialParity(s: bv16, bits: seq<bool>)
    ensures OddWord(Serial(s, bits)) <==> OddWord(s) != OddBits(bits)
    decreases |bits|
  {
    hide OddPlaces, Step, Xor;
    if bits != [] {
      var b := BitValue(bits[0]);
      BitParity(bits[0]);
      OddOfXor(s, b, 16);
      StepKeepsParity(Xor(s, b));
      SerialParity(Feed(s, bits[0]), bits[1..]);
    }
  }

  lemma BitParity(b: bool)
    ensures OddWord(BitValue(b)) <==> b
  {
    NoOnes(15);
    NoOnes(16);
    assert Half(1) == 0 && !Even(1);
  }

  /** How many bits of two messages differ. */
  function Differences(a: seq<bool>, b: seq<bool>): nat
    requires |a| == |b|
    decreases |a|
  {
    if a == [] then 0 else (if a[0] != b[0] then 1 else 0) + Differences(a[1..], b[1..])
  }

  lemma {:induction false} ParityOfDifferences(a: seq<bool>, b: seq<bool>)
    requires |a| == |b|
    ensures OddBits(a) != OddBits(b) <==> Differences(a, b) % 2 == 1
    decreases |a|
  {
    if a != [] { ParityOfDifferences(a[1..], b[1..]); }
  }

  /** Any odd number of flipped bits, anywhere in a frame of any length, changes the check
      value. */
  lemma OddErrorsAreDetected(f: seq<byte>, g: seq<byte>)
    requires |f| == |g| && Differences(Bits(f), Bits(g)) % 2 == 1
    ensures FcsOf(f) != FcsOf(g)
  {
    hide Serial, Bits, OddWord;
    AccumulateIsSerial(FCS_START, f);
    AccumulateIsSerial(FCS_START, g);
    SerialParity(FCS_START, Bits(f));
    SerialParity(FCS_START, Bits(g));
    ParityOfDifferences(Bits(f), Bits(g));
  }
}
