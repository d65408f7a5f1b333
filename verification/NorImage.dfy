/** Memory images of a NOR flash device: what erasing, programming and interrupted
    operations do to the bytes. */
module NorImage {
  import opened Wrappers

  type Image = seq<byte>

  const PAGE_BYTES: int := 256
  const SECTOR_BYTES: int := 4096
  const CAPACITY_BYTES: int := 2 * 1024 * 1024
  const VENDOR_RESERVED_BYTES: int := 0x2_0000
  const ERASED_BYTE: byte := 0xFF
  // A command carries three address bytes, so this is every address there is. The part
  // itself answers only the first `CAPACITY_BYTES` of them.
  const ADDRESS_SPACE: int := 0x100_0000

  /** `a` has every set bit of `b`. */
  predicate Covers(a: byte, b: byte) { a & b == b }

  /** `x` is a bit-by-bit mixture of `from` and `to`: what an interrupted change may leave. */
  predicate Between(x: byte, from: byte, to: byte) {
    Covers(x, from & to) && Covers(from | to, x)
  }

  /** An image an interrupted change of `from` into `to` may leave behind. */
  predicate Torn(x: Image, from: Image, to: Image) {
    && |x| == |from| == |to|
    && forall i :: 0 <= i < |x| ==> Between(x[i], from[i], to[i])
  }

  /** `m` with `[lo, hi)` erased. */
  function Erased(m: Image, lo: int, hi: int): (r: Image)
    requires 0 <= lo <= hi <= |m|
    ensures |r| == |m|
  {
    seq(|m|, i requires 0 <= i < |m| => if lo <= i < hi then ERASED_BYTE else m[i])
  }

  /** `m` with `bytes` ANDed in from `at`: programming can only clear bits. */
  function AndAt(m: Image, at: int, bytes: seq<byte>): (r: Image)
    requires 0 <= at && at + |bytes| <= |m|
    ensures |r| == |m|
  {
    seq(|m|, i requires 0 <= i < |m| =>
      if at <= i < at + |bytes| then m[i] & bytes[i - at] else m[i])
  }

  /** The address after `at`, wrapping inside its page as the device does. */
  function NextInPage(at: nat): (r: nat)
    ensures r / PAGE_BYTES == at / PAGE_BYTES
  {
    at / PAGE_BYTES * PAGE_BYTES + (at % PAGE_BYTES + 1) % PAGE_BYTES
  }

  /** What the device does with a page program: one byte after another, wrapping inside
      the page the address names. */
  function PageProgram(m: Image, at: nat, payload: seq<byte>): (r: Image)
    requires at < |m| && |m| % PAGE_BYTES == 0
    ensures |r| == |m|
    decreases |payload|
  {
    if payload == [] then m
    else PageProgram(m[at := m[at] & payload[0]], NextInPage(at), payload[1..])
  }

  /** The rest of a page fits in a device made of whole pages. */
  lemma PageFits(at: nat, size: nat, length: nat)
    requires at < size && size % PAGE_BYTES == 0
    requires at % PAGE_BYTES + length <= PAGE_BYTES
    ensures at + length <= size
    ensures length > 1 ==> NextInPage(at) == at + 1 && (at + 1) % PAGE_BYTES == at % PAGE_BYTES + 1
  {}

  lemma AndAtStep(m: Image, at: nat, payload: seq<byte>)
    requires payload != [] && at + |payload| <= |m|
    ensures AndAt(m[at := m[at] & payload[0]], at + 1, payload[1..]) == AndAt(m, at, payload)
  {}

  lemma PageProgramStep(m: Image, at: nat, payload: seq<byte>)
    requires at < |m| && |m| % PAGE_BYTES == 0 && payload != []
    ensures PageProgram(m, at, payload)
         == PageProgram(m[at := m[at] & payload[0]], NextInPage(at), payload[1..])
  {}

  /** A program that stays inside one page is a plain AND of its bytes: nothing wraps. */
  lemma {:induction false} PageProgramIsAnd(m: Image, at: nat, payload: seq<byte>)
    requires at < |m| && |m| % PAGE_BYTES == 0
    requires at % PAGE_BYTES + |payload| <= PAGE_BYTES
    ensures at + |payload| <= |m|
    ensures PageProgram(m, at, payload) == AndAt(m, at, payload)
    decreases |payload|
  {
    PageFits(at, |m|, |payload|);
    if payload == [] {
      assert AndAt(m, at, payload) == m;
    } else {
      var n := m[at := m[at] & payload[0]];
      PageProgramStep(m, at, payload);
      AndAtStep(m, at, payload);
      if |payload| == 1 {
        assert payload[1..] == [];
        assert AndAt(n, at + 1, []) == n;
      } else {
        PageProgramIsAnd(n, at + 1, payload[1..]);
      }
    }
  }

  lemma BetweenIsConvex(x: byte, a: byte, b: byte, from: byte, to: byte)
    requires Between(x, a, b) && Between(a, from, to) && Between(b, from, to)
    ensures Between(x, from, to)
  {}

  /** Interrupting one step of a longer change is interrupting the longer change. */
  lemma TornIsConvex(x: Image, a: Image, b: Image, from: Image, to: Image)
    requires Torn(x, a, b) && Torn(a, from, to) && Torn(b, from, to)
    ensures Torn(x, from, to)
  {
    forall i | 0 <= i < |x| ensures Between(x[i], from[i], to[i]) {
      BetweenIsConvex(x[i], a[i], b[i], from[i], to[i]);
    }
  }

  /** Either end of a change may be what an interruption leaves. */
  lemma TornEnds(from: Image, to: Image)
    requires |from| == |to|
    ensures Torn(from, from, to) && Torn(to, from, to)
  {}

  /** Programming in two runs is programming the joined bytes once. */
  lemma AndAtJoins(m: Image, at: int, x: seq<byte>, y: seq<byte>)
    requires 0 <= at && at + |x| + |y| <= |m|
    ensures AndAt(AndAt(m, at, x), at + |x|, y) == AndAt(m, at, x + y)
  {}

  /** A prefix of a program lies between doing nothing and the whole program. */
  lemma AndAtPrefixIsTorn(m: Image, at: int, bytes: seq<byte>, n: nat)
    requires 0 <= at && at + |bytes| <= |m| && n <= |bytes|
    ensures Torn(AndAt(m, at, bytes[..n]), m, AndAt(m, at, bytes))
  {
    forall i | 0 <= i < |m|
      ensures Between(AndAt(m, at, bytes[..n])[i], m[i], AndAt(m, at, bytes)[i])
    {}
  }

  /** Erasing part of a span lies between doing nothing and erasing all of it. */
  lemma ErasedPrefixIsTorn(m: Image, lo: int, mid: int, hi: int)
    requires 0 <= lo <= mid <= hi <= |m|
    ensures Torn(Erased(m, lo, mid), m, Erased(m, lo, hi))
  {
    forall i | 0 <= i < |m|
      ensures Between(Erased(m, lo, mid)[i], m[i], Erased(m, lo, hi)[i])
    {}
  }

  /** The images agree everywhere outside `[lo, hi)`. */
  predicate SameOutside(a: Image, b: Image, lo: int, hi: int) {
    |a| == |b| && forall i :: 0 <= i < |a| && !(lo <= i < hi) ==> a[i] == b[i]
  }

  /** A torn change touches no byte that the whole change leaves alone. */
  lemma TornStaysInside(x: Image, from: Image, to: Image, lo: int, hi: int)
    requires Torn(x, from, to) && SameOutside(to, from, lo, hi)
    ensures SameOutside(x, from, lo, hi)
  {}

  lemma AndAtBytes(m: Image, at: int, bytes: seq<byte>)
    requires 0 <= at && at + |bytes| <= |m|
    ensures forall j :: 0 <= j < |bytes| ==> AndAt(m, at, bytes)[at + j] == m[at + j] & bytes[j]
    ensures SameOutside(AndAt(m, at, bytes), m, at, at + |bytes|)
  {}
}
